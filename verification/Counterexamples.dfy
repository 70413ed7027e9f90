/** Inputs on which the program does not do what one might expect of it. */
module Counterexamples {
  import opened Bytes
  import opened SpillWords
  import opened DataHeaders
  import opened DataContainer
  import opened SpillParser
  import opened SpillGrammar
  import opened FragmentRuns
  import opened Completeness
  import opened SizeHeader
  import opened EventModel
  import opened EventRuns
  import opened Lockstep
  import opened Wrappers

  // ------------------------------------------------- incomplete events

  /** Two whole spills of board `a` in a row, with a second board registered. */
  function TwiceTheSame(a: int, chunk: seq<byte>): seq<Call> {
    [Call(a, chunk, 0), Call(a, chunk, 0)]
  }

  lemma CompletesOne(d: Decoder, s: State, c: Call, ws: seq<Token>)
    requires c.board in s.spills && s.spills[c.board] == Idle
    requires Feed(d, Idle, Tokens(c.bytes)) == Progress(Idle, [ws], None)
    ensures Process(d, s, c) == Emit(s.(pending := s.pending + [Fragment(c.board, ws)]), c.now)
  {
    hide Feed, Tokens, Emit;
    assert s.spills[c.board := Idle] == s.spills;
    assert Tag(c.board, [ws]) == [Fragment(c.board, ws)];
  }

  /** The fragment count alone does not keep boards apart: one board can fill an event. */
  lemma OneBoardFillsEvent(d: Decoder, a: int, b: int, chunk: seq<byte>, ws: seq<Token>)
    requires a != b && Feed(d, Idle, Tokens(chunk)) == Progress(Idle, [ws], None)
    ensures Registered(Fresh({a, b}, 0), TwiceTheSame(a, chunk))
    ensures var f := Fragment(a, ws);
            Run(d, Fresh({a, b}, 0), TwiceTheSame(a, chunk)).events == [Event(0, 0, [f, f])]
  {
    hide Feed, Tokens, Process, Tag;
    var s, calls, f := Fresh({a, b}, 0), TwiceTheSame(a, chunk), Fragment(a, ws);
    assert |s.spills| == |s.spills.Keys| == |{a, b}| == 2;
    var s1 := s.(pending := [f]);
    CompletesOne(d, s, calls[0], ws);
    assert s.pending + [f] == [f];
    assert Process(d, s, calls[0]) == s1;
    CompletesOne(d, s1, calls[1], ws);
    assert [f] + [f] == [f, f];
    assert calls[..1] == [calls[0]] && calls[..1][..0] == [];
    assert Run(d, s, calls[..1]) == Process(d, Run(d, s, calls[..1][..0]), calls[0]) == s1;
    assert Run(d, s, calls) == Process(d, s1, calls[1]);
  }

  const DEMO_DECODER: Decoder := Decoder(
    w => if |w| == 4 && w[0] == 1 then SpillHeader else if |w| == 4 && w[0] == 2 then SpillTrailer2 else OtherKind,
    w => 0, w => 0, w => 0)

  const DEMO_SPILL: seq<byte> := [1, 0, 0, 0, 2, 0, 0, 0]

  /** Such a spill exists, so incomplete events do occur: here is one. */
  lemma IncompleteEvent()
    ensures Registered(Fresh({5, 9}, 0), TwiceTheSame(9, DEMO_SPILL))
    ensures var r := Run(DEMO_DECODER, Fresh({5, 9}, 0), TwiceTheSame(9, DEMO_SPILL));
            |r.events| == 1 && !OnePerBoard(r.events[0].fragments, {5, 9})
  {
    hide Run, Feed, Tokens, Offsets, Matches;
    var d, ts := DEMO_DECODER, Tokens(DEMO_SPILL);
    DemoTokens();
    DemoOffsets();
    FeedWhole(d, ts, 0, 1);
    assert ts[0..2] == ts;
    MatchesTwoWords(d, ts);
    assert {9, 5} == {5, 9};
    OneBoardFillsEvent(d, 9, 5, DEMO_SPILL, ts);
    CountTwice(Fragment(9, ts));
  }

  lemma CountTwice(f: Fragment)
    ensures Count([f, f], f.board) == 2
  {
    assert [f][..0] == [] && [f, f] == [f] + [f];
    CountAppend([f], [f], f.board);
  }

  lemma DemoTokens()
    ensures Tokens(DEMO_SPILL) == [[1, 0, 0, 0], [2, 0, 0, 0]]
  {
    var ts := Tokens(DEMO_SPILL);
    assert |ts| == 2;
    assert ts[0] == DEMO_SPILL[0..4] == [1, 0, 0, 0];
    assert ts[1] == DEMO_SPILL[4..8] == [2, 0, 0, 0];
  }

  lemma DemoOffsets()
    ensures var ts := Tokens(DEMO_SPILL);
            Offsets(DEMO_DECODER, ts, SpillHeader) == [0] && Offsets(DEMO_DECODER, ts, SpillTrailer2) == [4]
  {
    DemoTokens();
    hide Tokens;
    var d, ts := DEMO_DECODER, Tokens(DEMO_SPILL);
    assert KindOf(d, ts[0]) == SpillHeader && KindOf(d, ts[1]) == SpillTrailer2;
    var one := ts[..1];
    assert one == [ts[0]] && one[..0] == [];
    assert Offsets(d, one, SpillHeader) == Offsets(d, one[..0], SpillHeader) + [0] == [0];
    assert Offsets(d, one, SpillTrailer2) == Offsets(d, one[..0], SpillTrailer2) + [] == [];
  }

  // ---------------------------------------------------- the size header

  lemma OneWord(d: Decoder, w: seq<byte>)
    requires |w| == 4
    ensures Tokens(w) == [w] && Flat([w]) == w
    ensures forall k :: Offsets(d, [w], k) == if KindOf(d, w) == k then [0] else []
  {
    assert Tokens(w)[0] == w[0..4] == w;
    assert [w][..0] == [];
    FlatOne(w);
  }

  lemma ReplayTwo(d: Decoder, a: seq<byte>, b: seq<byte>)
    ensures var p := Feed(d, Idle, Tokens(a));
            var q := Feed(d, p.spill, Tokens(b));
            Replay(d, Idle, [a]) == History(p.spill, p.done, [p.fault]) &&
            Replay(d, Idle, [a, b]) == History(q.spill, p.done + q.done, [p.fault, q.fault])
  {
    hide Feed, Tokens;
    assert [a][..0] == [] && [a, b][..1] == [a];
    var p := Feed(d, Idle, Tokens(a));
    assert Replay(d, Idle, [a]) == History(p.spill, [] + p.done, [] + [p.fault]);
    assert [] + p.done == p.done;
  }

  /** A container that is only a header word, then one that is only a word without boundary: the
      bank has 16 bytes, and its size header says 20. */
  lemma FillerCountedTwice(d: Decoder, h: seq<byte>, w: seq<byte>)
    requires |h| == |w| == 4 && KindOf(d, h) == SpillHeader && !IsBoundary(d, w)
    ensures CountedTwice(d, [h, w], 1)
    ensures var b := BankAfter(d, [h, w]); |b| == 16 && SizeField(b) == 20
  {
    hide Feed, Tokens, Offsets, Flat, SlackRun, Replay;
    OneWord(d, h);
    OneWord(d, w);
    FeedOpens(d, [h], 0);
    assert [h][0..] == [h];
    FeedContinues(d, [h], [w]);
    ReplayTwo(d, h, w);
    var chunks := [h, w];
    assert chunks[..1] == [h] && chunks[1] == w;
    assert CountedTwice(d, chunks, 1);
    FlatAppend([h], [w]);
    SizeWrongIff(d, chunks);
  }

  const DEMO_FILLER: seq<byte> := [9, 0, 0, 0]
  const DEMO_HEADER: seq<byte> := [1, 0, 0, 0]

  /** The size header is wrong between calls in a concrete run. */
  lemma OverCount()
    ensures var b := BankAfter(DEMO_DECODER, [DEMO_HEADER, DEMO_FILLER]); SizeField(b) != |b|
  {
    hide BankAfter;
    FillerCountedTwice(DEMO_DECODER, DEMO_HEADER, DEMO_FILLER);
  }

  // ---------------------------------------- the check of header and trailer

  /** A spill of a header and a trailer word that agree with each other is refused if a zero word
      means another spill than they do. */
  lemma TwoWordsRefused(d: Decoder, h: seq<byte>, t: seq<byte>)
    requires |h| == |t| == 4 && KindOf(d, h) == SpillHeader && KindOf(d, t) == SpillTrailer2
    requires Agree(d, h, t) && !Agree(d, h, [0, 0, 0, 0])
    ensures Replay(d, Idle, [h, t]).done == [] && Replay(d, Idle, [h, t]).faults == [None, Some(Mismatch)]
  {
    hide Feed, Tokens, Offsets, Flat, Matches, Replay;
    OneWord(d, h);
    OneWord(d, t);
    FeedOpens(d, [h], 0);
    assert [h][0..] == [h];
    FeedCloses(d, [h], [t], 0);
    assert [t][..1] == [t] && [h] + [t] == [h, t];
    MatchesTwoWords(d, [h, t]);
    ReplayTwo(d, h, t);
  }

  /** Spill tags are the last byte of a word here, so a zero word has tag 0. */
  const TAGGED_DECODER: Decoder := DEMO_DECODER.(spillTag := w => if |w| == 4 then w[3] as nat else 0)

  const TAGGED_HEADER: seq<byte> := [1, 0, 0, 7]
  const TAGGED_TRAILER: seq<byte> := [2, 0, 0, 7]

  /** Header and trailer of the same tag and board, refused as a mismatch. */
  lemma SoundSpillRefused()
    ensures Agree(TAGGED_DECODER, TAGGED_HEADER, TAGGED_TRAILER)
    ensures Replay(TAGGED_DECODER, Idle, [TAGGED_HEADER, TAGGED_TRAILER]).faults == [None, Some(Mismatch)]
  {
    hide Replay;
    var d := TAGGED_DECODER;
    assert d.spillTag(TAGGED_HEADER) == 7 && d.spillTag([0, 0, 0, 0]) == 0;
    TwoWordsRefused(d, TAGGED_HEADER, TAGGED_TRAILER);
  }

  /** A container that ends in one leftover byte shifts what follows: the header is then compared
      with three bytes of the size header and its own first byte, although the spill has three
      pieces. */
  lemma LeftoverShiftsCheck(d: Decoder, h: seq<byte>, x: byte, t: seq<byte>)
    requires |h| == |t| == 4 && KindOf(d, h) == SpillHeader && KindOf(d, t) == SpillTrailer2
    ensures Replay(d, Idle, [h + [x], t]).done == if Agree(d, h, [0, 0, 0, h[0]]) then [[h, [x], t]] else []
  {
    hide Feed, Offsets, Flat, Matches, Replay;
    LeftoverTokens(d, h, x);
    hide Tokens;
    OneWord(d, t);
    FeedOpens(d, [h, [x]], 0);
    assert [h, [x]][0..] == [h, [x]];
    FeedCloses(d, [h, [x]], [t], 0);
    var ws := [h, [x], t];
    assert [t][..1] == [t] && [h, [x]] + [t] == ws;
    MatchesMeaning(d, ws);
    assert ws == [h, [x]] + [t] && [h, [x]] == [h] + [[x]];
    FlatAppend([h, [x]], [t]);
    FlatAppend([h], [[x]]);
    FlatOne(h);
    FlatOne([x]);
    FlatOne(t);
    assert |Flat(ws)| == 9 && CheckedBytes(ws) == [0, 0, 0, h[0]];
    ReplayTwo(d, h + [x], t);
  }

  lemma LeftoverTokens(d: Decoder, h: seq<byte>, x: byte)
    requires |h| == 4 && KindOf(d, h) == SpillHeader
    ensures Tokens(h + [x]) == [h, [x]]
    ensures Offsets(d, [h, [x]], SpillHeader) == [0] && Offsets(d, [h, [x]], SpillTrailer2) == []
  {
    var b := h + [x];
    assert Tokens(b)[0] == b[0..4] == h && Tokens(b)[1] == b[4..5] == [x];
    OneWord(d, h);
    assert [h, [x]][..1] == [h];
  }
}
