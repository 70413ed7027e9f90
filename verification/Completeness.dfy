/** Streams on which nothing is refused: spills that follow one another properly. */
module Completeness {
  import opened Bytes
  import opened SpillWords
  import opened DataHeaders
  import opened SpillParser
  import opened SpillGrammar
  import opened FragmentRuns
  import opened Wrappers

  /** Two words name the same spill of the same board. */
  predicate Agree(d: Decoder, a: Token, b: Token) {
    d.spillTag(a) == d.spillTag(b) && d.boardId(a) == d.boardId(b)
  }

  ghost predicate WordSized(ts: seq<Token>) {
    forall i :: 0 <= i < |ts| ==> |ts[i]| == 4
  }

  lemma {:induction false} FlatWords(ts: seq<Token>)
    requires WordSized(ts)
    ensures |Flat(ts)| == 4 * |ts|
    ensures forall i :: 0 <= i < |ts| ==> Flat(ts)[4 * i..4 * i + 4] == ts[i]
  {
    if ts == [] {
    } else {
      var n := |ts| - 1;
      var f := Flat(ts[..n]);
      FlatWords(ts[..n]);
      forall i | 0 <= i < |ts|
        ensures Flat(ts)[4 * i..4 * i + 4] == ts[i]
      {
        if i < n {
          assert Flat(ts)[4 * i..4 * i + 4] == f[4 * i..4 * i + 4] == ts[..n][i];
        }
      }
    }
  }

  /** A fragment starts and ends with a whole word. */
  predicate Framed(ws: seq<Token>) {
    |ws| >= 2 && |ws[0]| == 4 && |ws[|ws| - 1]| == 4
  }

  lemma BracketedIsFramed(d: Decoder, ws: seq<Token>)
    requires Bracketed(d, ws)
    ensures Framed(ws)
  {
  }

  lemma FramedEnds(ws: seq<Token>)
    requires Framed(ws)
    ensures |Flat(ws)| >= 8 && Flat(ws)[0..4] == ws[0] && Flat(ws)[|Flat(ws)| - 4..] == ws[|ws| - 1]
  {
    var n := |ws| - 1;
    assert ws == [ws[0]] + ws[1..n] + [ws[n]];
    FlatAppend([ws[0]], ws[1..n]);
    FlatAppend([ws[0]] + ws[1..n], [ws[n]]);
    FlatOne(ws[0]);
    FlatOne(ws[n]);
  }

  lemma FlatOne(w: Token)
    ensures Flat([w]) == w
  {
    assert [w][..0] == [];
  }

  /** The four bytes that are compared with the header word of a fragment: those eight bytes before
      its last word. If it has fewer than twelve bytes, they begin in the size header, whose upper
      bytes are zero. */
  function CheckedBytes(ws: seq<Token>): (w: seq<byte>)
    requires |Flat(ws)| >= 8
    ensures |w| == 4
  {
    var f := Flat(ws);
    var n := |f|;
    if n >= 12 then f[n - 12..n - 8] else seq(12 - n, _ => 0) + f[..n - 8]
  }

  /** What the check of header and trailer compares, for every fragment, also one with leftover
      bytes of containers in it: the compared word lies in the data if and only if the fragment has
      at least twelve bytes. */
  lemma MatchesMeaning(d: Decoder, ws: seq<Token>)
    requires Bracketed(d, ws)
    ensures |Flat(ws)| >= 8
    ensures Matches(d, ws) <==> Agree(d, ws[0], CheckedBytes(ws))
    ensures |Record(ws)| - 12 >= FRAGMENT_HEADER_SIZE <==> |Flat(ws)| >= 12
  {
    hide Flat, LittleEndian;
    BracketedIsFramed(d, ws);
    FramedEnds(ws);
    var f, r := Flat(ws), Record(ws);
    var n := |f|;
    assert r[8..] == f;
    assert r[8..12] == f[0..4] == ws[0];
    if n >= 12 {
      assert r[n - 4..n] == f[n - 12..n - 8];
    } else {
      SmallSize(8 + n);
      assert r[n - 4..n] == seq(12 - n, _ => 0) + f[..n - 8];
    }
  }

  lemma SmallSize(n: nat)
    requires n < 256
    ensures LittleEndian(n, 8) == [n as byte, 0, 0, 0, 0, 0, 0, 0]
  {
    assert n / 256 == 0 && n % 256 == n;
    assert LittleEndian(0, 7) == [0, 0, 0, 0, 0, 0, 0];
  }

  /** If the last three pieces are whole words, the header is compared with the first of them, as
      the trailer of three words wants it. */
  lemma MatchesThirdLast(d: Decoder, ws: seq<Token>)
    requires Bracketed(d, ws) && |ws| >= 3
    requires |ws[|ws| - 3]| == |ws[|ws| - 2]| == |ws[|ws| - 1]| == 4
    ensures Matches(d, ws) <==> Agree(d, ws[0], ws[|ws| - 3])
  {
    hide Flat, Matches;
    var k := |ws| - 3;
    var last := ws[k..];
    MatchesMeaning(d, ws);
    assert WordSized(last) && last[0] == ws[k];
    FlatWords(last);
    FlatAppend(ws[..k], last);
    assert ws == ws[..k] + last;
    var f := Flat(ws);
    assert Flat(last)[4 * 0..4 * 0 + 4] == ws[k];
    assert f[|f| - 12..|f| - 8] == Flat(last)[0..4];
  }

  /** A spill of two words is compared with a zero word, whatever its trailer says. */
  lemma MatchesTwoWords(d: Decoder, ws: seq<Token>)
    requires Bracketed(d, ws) && |ws| == 2
    ensures Matches(d, ws) <==> Agree(d, ws[0], [0, 0, 0, 0])
  {
    hide Flat, Matches;
    MatchesMeaning(d, ws);
    FlatWords(ws);
    assert CheckedBytes(ws) == [0, 0, 0, 0];
  }

  /** At word `n` the spill that began at word `h` is open. */
  ghost predicate OpenAt(d: Decoder, ts: seq<Token>, h: nat, n: nat)
    requires n <= |ts|
  {
    h < n && KindOf(d, ts[h]) == SpillHeader && forall i :: h < i < n ==> !IsBoundary(d, ts[i])
  }

  ghost predicate NothingOpenAt(d: Decoder, ts: seq<Token>, n: nat)
    requires n <= |ts|
  {
    forall h: nat :: !OpenAt(d, ts, h, n)
  }

  /** The trailer word `t` properly ends the spill that began at word `h`. */
  ghost predicate Ends(d: Decoder, ts: seq<Token>, h: nat, t: nat)
    requires t < |ts|
  {
    h + 2 <= t && OpenAt(d, ts, h, t) && Agree(d, ts[h], ts[t - 2])
  }

  ghost predicate TrailerWithin(d: Decoder, ts: seq<Token>, i: nat, j: nat)
    requires j <= |ts|
  {
    exists t :: i < t < j && KindOf(d, ts[t]) == SpillTrailer2
  }

  /** Headers and trailers take turns, each trailer at least two words after its header and of
      the same tag and board. */
  ghost predicate Alternates(d: Decoder, ts: seq<Token>) {
    && (forall t :: 0 <= t < |ts| && KindOf(d, ts[t]) == SpillTrailer2 ==> exists h: nat :: Ends(d, ts, h, t))
    && (forall h, k :: 0 <= h < k < |ts| && KindOf(d, ts[h]) == SpillHeader && KindOf(d, ts[k]) == SpillHeader
          ==> TrailerWithin(d, ts, h, k))
  }

  /** A stream that is cut off still alternates. */
  lemma AlternatesPrefix(d: Decoder, ts: seq<Token>, n: nat)
    requires Alternates(d, ts) && n <= |ts|
    ensures Alternates(d, ts[..n])
  {
    var cut := ts[..n];
    forall t | 0 <= t < n && KindOf(d, cut[t]) == SpillTrailer2
      ensures exists h: nat :: Ends(d, cut, h, t)
    {
      assert KindOf(d, ts[t]) == SpillTrailer2;
      var h: nat :| Ends(d, ts, h, t);
      assert Ends(d, cut, h, t);
    }
    forall h, k | 0 <= h < k < n && KindOf(d, cut[h]) == SpillHeader && KindOf(d, cut[k]) == SpillHeader
      ensures TrailerWithin(d, cut, h, k)
    {
      assert TrailerWithin(d, ts, h, k);
      var t :| h < t < k && KindOf(d, ts[t]) == SpillTrailer2;
      assert KindOf(d, cut[t]) == SpillTrailer2;
    }
  }

  /** The parser has no objection to an alternating stream, at any point of it, and it has
      emitted as many fragments as it has seen trailers. */
  lemma {:induction false} AlternatingParses(d: Decoder, ts: seq<Token>, n: nat) returns (h: nat)
    requires Alternates(d, ts) && WordSized(ts) && n <= |ts|
    ensures var p := Parse(d, Start(Idle), ts[..n]);
            && p.fault.None? && !p.spill.Broken?
            && (p.spill.Open? ==> OpenAt(d, ts, h, n) && p.spill.words == ts[h..n])
            && (p.spill.Idle? ==> NothingOpenAt(d, ts, n))
            && |p.done| == |Offsets(d, ts[..n], SpillTrailer2)|
  {
    hide Alternates, WordSized, OpenAt, NothingOpenAt, Step;
    h := 0;
    if n == 0 {
      NothingYet(d, ts);
    } else {
      h := AlternatingParses(d, ts, n - 1);
      var q := Parse(d, Start(Idle), ts[..n - 1]);
      assert ts[..n][..n - 1] == ts[..n - 1];
      AlternatingStep(d, ts, n - 1, h, q);
      if KindOf(d, ts[n - 1]) == SpillHeader {
        h := n - 1;
      }
    }
  }

  lemma NothingYet(d: Decoder, ts: seq<Token>)
    ensures NothingOpenAt(d, ts, 0) && Parse(d, Start(Idle), ts[..0]) == Start(Idle)
    ensures Offsets(d, ts[..0], SpillTrailer2) == []
  {
  }

  lemma NothingOpens(d: Decoder, ts: seq<Token>, n: nat)
    requires n < |ts| && NothingOpenAt(d, ts, n) && KindOf(d, ts[n]) != SpillHeader
    ensures NothingOpenAt(d, ts, n + 1)
  {
    var m := n + 1;
    forall h: nat
      ensures !OpenAt(d, ts, h, m)
    {
      assert !OpenAt(d, ts, h, n);
    }
  }

  lemma AlternatingStep(d: Decoder, ts: seq<Token>, n: nat, h: nat, q: Progress)
    requires Alternates(d, ts) && WordSized(ts) && n < |ts|
    requires q.fault.None? && !q.spill.Broken?
    requires q.spill.Open? ==> OpenAt(d, ts, h, n) && q.spill.words == ts[h..n]
    requires q.spill.Idle? ==> NothingOpenAt(d, ts, n)
    ensures var p := Step(d, q, ts[n]);
            && p.fault.None? && !p.spill.Broken?
            && (p.spill.Open? ==>
                  var k := if KindOf(d, ts[n]) == SpillHeader then n else h;
                  OpenAt(d, ts, k, n + 1) && p.spill.words == ts[k..n + 1])
            && (p.spill.Idle? ==> NothingOpenAt(d, ts, n + 1))
            && |p.done| == |q.done| + if KindOf(d, ts[n]) == SpillTrailer2 then 1 else 0
  {
    hide Matches;
    var w := ts[n];
    if KindOf(d, w) == SpillHeader {
      assert q.spill.Open? ==> TrailerWithin(d, ts, h, n);
      assert [w] == ts[n..n + 1];
    } else if KindOf(d, w) == SpillTrailer2 {
      var k: nat :| Ends(d, ts, k, n);
      assert q.spill.Open? && k == h;
      var ws := q.spill.words + [w];
      assert ws == ts[h..n + 1];
      MatchesThirdLast(d, ws);
      assert ws[|ws| - 3] == ts[n - 2];
    } else if q.spill.Open? {
      assert q.spill.words + [w] == ts[h..n + 1];
    } else {
      NothingOpens(d, ts, n);
    }
  }

  /** Where the words of one container lie in the stream. */
  lemma {:induction false} ChunkInStream(chunks: seq<seq<byte>>, k: nat)
    requires k < |chunks|
    ensures var m, c := |Stream(chunks[..k])|, Tokens(chunks[k]);
            && m + |c| <= |Stream(chunks)|
            && Stream(chunks)[..m] == Stream(chunks[..k]) && Stream(chunks)[m..m + |c|] == c
  {
    hide Tokens;
    var n := |chunks| - 1;
    if k < n {
      ChunkInStream(chunks[..n], k);
      assert chunks[..n][..k] == chunks[..k];
      var m, c, s := |Stream(chunks[..k])|, Tokens(chunks[k]), Stream(chunks[..n]);
      assert Stream(chunks)[..m] == s[..m] && Stream(chunks)[m..m + |c|] == s[m..m + |c|];
    }
  }

  lemma LoneTrailerInside(d: Decoder, chunks: seq<seq<byte>>, k: nat)
    requires Alternates(d, Stream(chunks)) && WordSized(Stream(chunks))
    requires k < |chunks| && LoneTrailer(d, Tokens(chunks[k]))
    ensures !Parse(d, Start(Idle), Stream(chunks[..k])).spill.Idle?
  {
    hide Tokens, Stream, Parse, Offsets;
    var ts, m, c := Stream(chunks), |Stream(chunks[..k])|, Tokens(chunks[k]);
    ChunkInStream(chunks, k);
    NoOffsets(d, c, SpillHeader);
    var j := OneOffset(d, c, SpillTrailer2);
    assert forall i :: m <= i < m + |c| ==> ts[i] == ts[m..m + |c|][i - m];
    var h: nat :| Ends(d, ts, h, m + j);
    assert h < m;
    assert OpenAt(d, ts, h, m);
    var i := AlternatingParses(d, ts, m);
  }

  /** However an alternating stream is cut into containers, as long as no container gets two
      headers or two trailers: nothing is refused, and each trailer completes a fragment. */
  lemma AlternatingAccepted(d: Decoder, chunks: seq<seq<byte>>)
    requires WholeWords(chunks) && Alternates(d, Stream(chunks))
    requires forall k :: 0 <= k < |chunks| ==> OneSpillAtMost(d, Tokens(chunks[k]))
    ensures var h := Replay(d, Idle, chunks);
            h.Accepted() && |h.done| == |Offsets(d, Stream(chunks), SpillTrailer2)|
  {
    hide Stream, Parse, Offsets, Replay, Concat, Alternates;
    var ts := Stream(chunks);
    StreamOfWords(chunks);
    assert WordSized(ts);
    var i := AlternatingParses(d, ts, |ts|);
    assert ts[..|ts|] == ts;
    forall k | 0 <= k < |chunks| && LoneTrailer(d, Tokens(chunks[k]))
      ensures !Parse(d, Start(Idle), Stream(chunks[..k])).spill.Idle?
    {
      LoneTrailerInside(d, chunks, k);
    }
    AcceptedIff(d, Idle, chunks);
    RunRefinesParser(d, Idle, chunks);
  }
}
