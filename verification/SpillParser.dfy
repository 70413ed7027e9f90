/** The reference for reassembling spills: a parser that sees one data word at a time,
    and what one container (a chunk of the stream) does to it. */
module SpillParser {
  import opened Bytes
  import opened SpillWords
  import opened Wrappers
  import opened DataHeaders

  /** What a fragment builder holds between two containers. `Broken` keeps a spill whose
      trailer contradicts its header. */
  datatype Spill = Idle | Open(words: seq<Token>) | Broken(words: seq<Token>)
  {
    function Held(): seq<Token> {
      if Idle? then [] else words
    }
  }

  /** The four errors of the fragment builder. */
  datatype Fault = WrongBoard | MultipleSpills | Inconsistent | Mismatch

  datatype Progress = Progress(spill: Spill, done: seq<seq<Token>>, fault: Option<Fault>)

  /** The four bytes at `p` and the four bytes at `q` name the same spill of the same board. */
  predicate SameSpill(d: Decoder, b: seq<byte>, p: nat, q: nat)
    requires p + 4 <= |b| && q + 4 <= |b|
  {
    d.spillTag(b[p..p + 4]) == d.spillTag(b[q..q + 4]) && d.boardId(b[p..p + 4]) == d.boardId(b[q..q + 4])
  }

  /** The header word agrees with the word eight bytes before the closing trailer word. */
  predicate Matches(d: Decoder, ws: seq<Token>) {
    |Flat(ws)| >= 4 && SameSpill(d, Record(ws), FRAGMENT_HEADER_SIZE, |Record(ws)| - 12)
  }

  function Step(d: Decoder, p: Progress, w: Token): Progress {
    if p.fault.Some? then p
    else match p.spill
      case Idle => if KindOf(d, w) == SpillHeader then p.(spill := Open([w])) else p
      case Open(ws) =>
        if KindOf(d, w) == SpillHeader then p.(fault := Some(Inconsistent))
        else if KindOf(d, w) == SpillTrailer2 then
          if Matches(d, ws + [w]) then Progress(Idle, p.done + [ws + [w]], None)
          else Progress(Broken(ws + [w]), p.done, Some(Mismatch))
        else p.(spill := Open(ws + [w]))
      case Broken(_) => p.(fault := Some(MultipleSpills))
  }

  function Parse(d: Decoder, p: Progress, ts: seq<Token>): Progress {
    if ts == [] then p else Step(d, Parse(d, p, ts[..|ts| - 1]), ts[|ts| - 1])
  }

  function Start(s: Spill): Progress {
    Progress(s, [], None)
  }

  /** What one scanned container does to a builder: the guards on whole containers, then the
      word-at-a-time parser. A container that is refused leaves the builder as it was,
      except that a contradicted spill stays behind. */
  function Feed(d: Decoder, s: Spill, ts: seq<Token>): Progress {
    var h, t := |Offsets(d, ts, SpillHeader)|, |Offsets(d, ts, SpillTrailer2)|;
    if s.Broken? || h > 1 || t > 1 then Progress(s, [], Some(MultipleSpills))
    else if s.Idle? && h == 0 && t == 1 then Progress(s, [], Some(Inconsistent))
    else
      var p := Parse(d, Start(s), ts);
      match p.fault
      case None => p
      case Some(Mismatch) => Progress(p.spill, [], p.fault)
      case Some(_) => Progress(s, [], p.fault)
  }

  // ---------------------------------------------------------------- parsing

  lemma {:induction false} ParseAppend(d: Decoder, p: Progress, a: seq<Token>, b: seq<Token>)
    ensures Parse(d, p, a + b) == Parse(d, Parse(d, p, a), b)
  {
    if b == [] {
      assert a + b == a;
    } else {
      var n := |b| - 1;
      assert (a + b)[..|a| + n] == a + b[..n];
      ParseAppend(d, p, a, b[..n]);
    }
  }

  lemma {:induction false} ParseFaulty(d: Decoder, p: Progress, ts: seq<Token>)
    requires p.fault.Some?
    ensures Parse(d, p, ts) == p
  {
    if ts == [] {
    } else {
      ParseFaulty(d, p, ts[..|ts| - 1]);
    }
  }

  /** Outside a spill everything but a spill header is skipped. */
  lemma {:induction false} ParseGap(d: Decoder, p: Progress, ts: seq<Token>)
    requires p.spill.Idle? && NoneOf(d, ts, SpillHeader)
    ensures Parse(d, p, ts) == p
  {
    if ts == [] {
    } else {
      ParseGap(d, p, ts[..|ts| - 1]);
    }
  }

  /** Inside a spill every word that is no boundary is collected. */
  lemma {:induction false} ParseInside(d: Decoder, p: Progress, ts: seq<Token>)
    requires p.fault.None? && p.spill.Open? && NoneOf(d, ts, SpillHeader) && NoneOf(d, ts, SpillTrailer2)
    ensures Parse(d, p, ts) == p.(spill := Open(p.spill.words + ts))
  {
    if ts == [] {
      assert p.spill.words + ts == p.spill.words;
    } else {
      var n := |ts| - 1;
      ParseInside(d, p, ts[..n]);
      assert p.spill.words + ts[..n] + [ts[n]] == p.spill.words + ts;
    }
  }

  /** The result of a container that ends a spill with these words. */
  function Sealed(d: Decoder, ws: seq<Token>): Progress {
    if Matches(d, ws) then Progress(Idle, [ws], None) else Progress(Broken(ws), [], Some(Mismatch))
  }

  /** The result of closing a spill with its trailer included. */
  function Closed(d: Decoder, done: seq<seq<Token>>, ws: seq<Token>): Progress {
    if Matches(d, ws) then Progress(Idle, done + [ws], None) else Progress(Broken(ws), done, Some(Mismatch))
  }

  lemma ParseToTrailer(d: Decoder, p: Progress, ts: seq<Token>, t: nat)
    requires p.fault.None? && p.spill.Open?
    requires t < |ts| && KindOf(d, ts[t]) == SpillTrailer2
    requires NoneOf(d, ts[..t], SpillHeader) && NoneOf(d, ts[..t], SpillTrailer2)
    ensures Parse(d, p, ts[..t + 1]) == Closed(d, p.done, p.spill.words + ts[..t + 1])
  {
    assert ts[..t + 1][..t] == ts[..t];
    ParseInside(d, p, ts[..t]);
    assert p.spill.words + ts[..t] + [ts[t]] == p.spill.words + ts[..t + 1];
  }

  lemma ParseToHeader(d: Decoder, p: Progress, ts: seq<Token>, h: nat)
    requires p.fault.None? && p.spill.Idle?
    requires h < |ts| && KindOf(d, ts[h]) == SpillHeader && NoneOf(d, ts[..h], SpillHeader)
    ensures Parse(d, p, ts[..h + 1]) == p.(spill := Open([ts[h]]))
  {
    assert ts[..h + 1][..h] == ts[..h];
    ParseGap(d, p, ts[..h]);
  }

  /** A gap, a header and words that are no boundary leave the spill open. */
  lemma ParseTail(d: Decoder, p: Progress, ts: seq<Token>, h: nat)
    requires p.fault.None? && p.spill.Idle?
    requires h < |ts| && KindOf(d, ts[h]) == SpillHeader && NoneOf(d, ts[..h], SpillHeader)
    requires NoneOf(d, ts[h + 1..], SpillHeader) && NoneOf(d, ts[h + 1..], SpillTrailer2)
    ensures Parse(d, p, ts) == p.(spill := Open(ts[h..]))
  {
    ParseToHeader(d, p, ts, h);
    ParseInside(d, p.(spill := Open([ts[h]])), ts[h + 1..]);
    assert [ts[h]] + ts[h + 1..] == ts[h..];
    assert ts[..h + 1] + ts[h + 1..] == ts;
    ParseAppend(d, p, ts[..h + 1], ts[h + 1..]);
  }

  lemma AroundMarkers(d: Decoder, ts: seq<Token>, i: nat, k: Kind)
    requires i < |ts| && Offsets(d, ts, k) == [4 * i]
    ensures KindOf(d, ts[i]) == k && NoneOf(d, ts[..i], k) && NoneOf(d, ts[i + 1..], k)
  {
    var j := OneOffset(d, ts, k);
    assert Offsets(d, ts, k)[0] == 4 * j;
  }

  // ------------------------------------------- one container, case by case

  /** No boundary in an idle builder: nothing happens. */
  lemma FeedSkips(d: Decoder, ts: seq<Token>)
    requires Offsets(d, ts, SpillHeader) == [] && Offsets(d, ts, SpillTrailer2) == []
    ensures Feed(d, Idle, ts) == Start(Idle)
  {
    NoOffsets(d, ts, SpillHeader);
    ParseGap(d, Start(Idle), ts);
  }

  /** A header with no trailer after it: everything from the header on is kept. */
  lemma FeedOpens(d: Decoder, ts: seq<Token>, h: nat)
    requires h < |ts| && Offsets(d, ts, SpillHeader) == [4 * h]
    requires |Offsets(d, ts, SpillTrailer2)| <= 1
    requires forall m :: m in Offsets(d, ts, SpillTrailer2) ==> m < 4 * h
    ensures Feed(d, Idle, ts) == Start(Open(ts[h..]))
  {
    AroundMarkers(d, ts, h, SpillHeader);
    OffsetsExact(d, ts, SpillTrailer2);
    assert NoneOf(d, ts[h + 1..], SpillTrailer2);
    ParseTail(d, Start(Idle), ts, h);
  }

  /** From a header to the next trailer the parser collects one spill. */
  lemma ParseSpill(d: Decoder, ts: seq<Token>, h: nat, t: nat)
    requires h < t < |ts| && KindOf(d, ts[h]) == SpillHeader && KindOf(d, ts[t]) == SpillTrailer2
    requires NoneOf(d, ts[..h], SpillHeader)
    requires NoneOf(d, ts[h + 1..t], SpillHeader) && NoneOf(d, ts[h + 1..t], SpillTrailer2)
    ensures Parse(d, Start(Idle), ts[..t + 1]) == Closed(d, [], ts[h..t + 1])
  {
    hide Parse, Offsets;
    var mid := ts[h + 1..t + 1];
    var k := t - h - 1;
    ParseToHeader(d, Start(Idle), ts, h);
    assert mid[..k] == ts[h + 1..t] && mid[k] == ts[t] && mid[..k + 1] == mid;
    ParseToTrailer(d, Start(Open([ts[h]])), mid, k);
    assert [ts[h]] + mid == ts[h..t + 1];
    ParseAppend(d, Start(Idle), ts[..h + 1], mid);
    assert ts[..h + 1] + mid == ts[..t + 1];
  }

  /** A header and a later trailer: a whole spill, what surrounds it is dropped. */
  lemma FeedWhole(d: Decoder, ts: seq<Token>, h: nat, t: nat)
    requires h < t < |ts| && Offsets(d, ts, SpillHeader) == [4 * h] && Offsets(d, ts, SpillTrailer2) == [4 * t]
    ensures Feed(d, Idle, ts) == Sealed(d, ts[h..t + 1])
  {
    hide Parse, Offsets, Matches;
    assert [] + [ts[h..t + 1]] == [ts[h..t + 1]];
    assert Parse(d, Start(Idle), ts) == Closed(d, [], ts[h..t + 1]) by {
      AroundMarkers(d, ts, h, SpillHeader);
      AroundMarkers(d, ts, t, SpillTrailer2);
      NoneOfPart(d, ts[h + 1..], 0, t - h - 1, SpillHeader);
      NoneOfPart(d, ts[..t], h + 1, t, SpillTrailer2);
      NoneOfPart(d, ts[h + 1..], t - h, |ts| - h - 1, SpillHeader);
      assert ts[h + 1..][0..t - h - 1] == ts[h + 1..t] == ts[..t][h + 1..t];
      assert ts[h + 1..][t - h..|ts| - h - 1] == ts[t + 1..];
      ParseSpill(d, ts, h, t);
      FinishAfterTrailer(d, Idle, ts, t);
    }
  }

  /** After the trailer nothing opens again unless a header follows. */
  lemma FinishAfterTrailer(d: Decoder, s: Spill, ts: seq<Token>, t: nat)
    requires t < |ts| && NoneOf(d, ts[t + 1..], SpillHeader)
    requires var p := Parse(d, Start(s), ts[..t + 1]); p.fault.Some? || p.spill.Idle?
    ensures Parse(d, Start(s), ts) == Parse(d, Start(s), ts[..t + 1])
  {
    hide Parse, Offsets, NoneOf, KindOf;
    var p := Parse(d, Start(s), ts[..t + 1]);
    assert ts[..t + 1] + ts[t + 1..] == ts;
    ParseAppend(d, Start(s), ts[..t + 1], ts[t + 1..]);
    if p.fault.Some? {
      ParseFaulty(d, p, ts[t + 1..]);
    } else {
      ParseGap(d, p, ts[t + 1..]);
    }
  }

  /** No boundary inside a spill: the whole container is collected. */
  lemma FeedContinues(d: Decoder, ws: seq<Token>, ts: seq<Token>)
    requires Offsets(d, ts, SpillHeader) == [] && Offsets(d, ts, SpillTrailer2) == []
    ensures Feed(d, Open(ws), ts) == Start(Open(ws + ts))
  {
    NoOffsets(d, ts, SpillHeader);
    NoOffsets(d, ts, SpillTrailer2);
    ParseInside(d, Start(Open(ws)), ts);
  }

  /** A trailer alone closes the open spill, what follows it is dropped. */
  lemma FeedCloses(d: Decoder, ws: seq<Token>, ts: seq<Token>, t: nat)
    requires t < |ts| && Offsets(d, ts, SpillHeader) == [] && Offsets(d, ts, SpillTrailer2) == [4 * t]
    ensures Feed(d, Open(ws), ts) == Sealed(d, ws + ts[..t + 1])
  {
    assert [] + [ws + ts[..t + 1]] == [ws + ts[..t + 1]];
    NoOffsets(d, ts, SpillHeader);
    var i := OneOffset(d, ts, SpillTrailer2);
    ParseToTrailer(d, Start(Open(ws)), ts, t);
    FinishAfterTrailer(d, Open(ws), ts, t);
  }

  /** A trailer and a later header: one spill closes and, if it is sound, the next opens. */
  lemma FeedTurns(d: Decoder, ws: seq<Token>, ts: seq<Token>, t: nat, h: nat)
    requires t < h < |ts| && Offsets(d, ts, SpillHeader) == [4 * h] && Offsets(d, ts, SpillTrailer2) == [4 * t]
    ensures Feed(d, Open(ws), ts) ==
            var c := Sealed(d, ws + ts[..t + 1]);
            if c.fault.None? then c.(spill := Open(ts[h..])) else c
  {
    hide Parse, Offsets, Matches;
    assert [] + [ws + ts[..t + 1]] == [ws + ts[..t + 1]];
    var p := Closed(d, [], ws + ts[..t + 1]);
    assert Parse(d, Start(Open(ws)), ts) == (if p.fault.None? then p.(spill := Open(ts[h..])) else p) by {
      AroundMarkers(d, ts, h, SpillHeader);
      AroundMarkers(d, ts, t, SpillTrailer2);
      NoneOfPart(d, ts[..h], 0, t, SpillHeader);
      NoneOfPart(d, ts[..h], t + 1, h, SpillHeader);
      NoneOfPart(d, ts[t + 1..], h - t, |ts| - t - 1, SpillTrailer2);
      assert ts[..h][0..t] == ts[..t];
      assert ts[..h][t + 1..h] == ts[t + 1..h];
      assert ts[t + 1..][h - t..|ts| - t - 1] == ts[h + 1..];
      ParseToTrailer(d, Start(Open(ws)), ts, t);
      assert ts[..t + 1] + ts[t + 1..] == ts;
      ParseAppend(d, Start(Open(ws)), ts[..t + 1], ts[t + 1..]);
      if p.fault.Some? {
        ParseFaulty(d, p, ts[t + 1..]);
      } else {
        assert ts[t + 1..][..h - t - 1] == ts[t + 1..h] && ts[t + 1..][h - t - 1 + 1..] == ts[h + 1..];
        ParseTail(d, p, ts[t + 1..], h - t - 1);
        assert ts[t + 1..][h - t - 1..] == ts[h..];
      }
    }
  }

  /** A header inside a spill, with no trailer before it, is refused. */
  lemma FeedRefuses(d: Decoder, ws: seq<Token>, ts: seq<Token>, h: nat)
    requires h < |ts| && Offsets(d, ts, SpillHeader) == [4 * h]
    requires |Offsets(d, ts, SpillTrailer2)| <= 1
    requires forall m :: m in Offsets(d, ts, SpillTrailer2) ==> 4 * h < m
    ensures Feed(d, Open(ws), ts) == Progress(Open(ws), [], Some(Inconsistent))
  {
    var i := OneOffset(d, ts, SpillHeader);
    OffsetsExact(d, ts, SpillTrailer2);
    assert NoneOf(d, ts[..h], SpillTrailer2);
    ParseInside(d, Start(Open(ws)), ts[..h]);
    assert ts[..h + 1][..h] == ts[..h];
    var p := Parse(d, Start(Open(ws)), ts[..h + 1]);
    assert p.fault == Some(Inconsistent);
    assert ts[..h + 1] + ts[h + 1..] == ts;
    ParseAppend(d, Start(Open(ws)), ts[..h + 1], ts[h + 1..]);
    ParseFaulty(d, p, ts[h + 1..]);
  }

  /** Containers with several spills, and every container after a contradicted spill. */
  lemma FeedMultiple(d: Decoder, s: Spill, ts: seq<Token>)
    requires s.Broken? || |Offsets(d, ts, SpillHeader)| > 1 || |Offsets(d, ts, SpillTrailer2)| > 1
    ensures Feed(d, s, ts) == Progress(s, [], Some(MultipleSpills))
  {
  }

  /** The two ways a container does not fit: a trailer that ends nothing, and a header
      inside an open spill. */
  lemma FeedRefused(d: Decoder, s: Spill, ts: seq<Token>)
    requires !s.Broken? && |Offsets(d, ts, SpillHeader)| <= 1 && |Offsets(d, ts, SpillTrailer2)| <= 1
    requires s.Idle? ==> |Offsets(d, ts, SpillHeader)| == 0 && |Offsets(d, ts, SpillTrailer2)| == 1
    requires s.Open? ==> |Offsets(d, ts, SpillHeader)| == 1
    requires s.Open? && |Offsets(d, ts, SpillTrailer2)| == 1 ==>
               Offsets(d, ts, SpillHeader)[0] < Offsets(d, ts, SpillTrailer2)[0]
    ensures Feed(d, s, ts) == Progress(s, [], Some(Inconsistent))
  {
    if s.Open? {
      var h := OneOffset(d, ts, SpillHeader);
      FeedRefuses(d, s.words, ts, h);
    }
  }
}
