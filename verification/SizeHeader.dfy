/** The size header of a fragment bank between two calls: when it is wrong, and by how much. */
module SizeHeader {
  import opened Bytes
  import opened SpillWords
  import opened DataHeaders
  import opened SpillParser
  import opened FragmentRuns
  import opened Wrappers

  /** A fragment bank that holds `ws` and whose size header counts `slack` bytes too many. */
  function Sized(ws: seq<Token>, slack: nat): (b: seq<byte>)
    ensures |b| == FRAGMENT_HEADER_SIZE + |Flat(ws)|
  {
    LittleEndian(FRAGMENT_HEADER_SIZE + |Flat(ws)| + slack, 8) + Flat(ws)
  }

  /** A container without any boundary. */
  predicate Plain(d: Decoder, ts: seq<Token>) {
    Offsets(d, ts, SpillHeader) == [] && Offsets(d, ts, SpillTrailer2) == []
  }

  /** How far the size header overshoots after a container has been taken in: a plain container,
      collected whole, is counted twice; every other append makes the header right. */
  function SlackAfter(d: Decoder, s: Spill, slack: nat, ts: seq<Token>): nat {
    var fault := Feed(d, s, ts).fault;
    if fault.Some? && fault.value != Mismatch then slack
    else if s.Open? && Plain(d, ts) then |Flat(ts)|
    else 0
  }

  /** The excess after a run of containers. */
  function SlackRun(d: Decoder, chunks: seq<seq<byte>>): nat {
    if chunks == [] then 0
    else
      var n := |chunks| - 1;
      SlackAfter(d, Replay(d, Idle, chunks[..n]).spill, SlackRun(d, chunks[..n]), Tokens(chunks[n]))
  }

  /** Container `k` was a nonempty one without boundaries that came inside an open spill, and every
      container after it was refused, without a contradiction. */
  ghost predicate CountedTwice(d: Decoder, chunks: seq<seq<byte>>, k: int) {
    && 0 <= k < |chunks| && chunks[k] != []
    && Replay(d, Idle, chunks[..k]).spill.Open? && Plain(d, Tokens(chunks[k]))
    && RefusedAfter(Replay(d, Idle, chunks).faults, k)
  }

  ghost predicate RefusedAfter(faults: seq<Option<Fault>>, k: int)
    requires k >= 0
  {
    forall j :: k < j < |faults| ==> faults[j].Some? && faults[j] != Some(Mismatch)
  }

  lemma RefusedSnoc(faults: seq<Option<Fault>>, f: Option<Fault>, k: nat)
    requires k < |faults|
    ensures RefusedAfter(faults + [f], k) <==> RefusedAfter(faults, k) && f.Some? && f != Some(Mismatch)
  {
    var all := faults + [f];
    assert all[|faults|] == f;
    assert forall j :: 0 <= j < |faults| ==> all[j] == faults[j];
  }

  lemma ReplayLast(d: Decoder, chunks: seq<seq<byte>>)
    requires chunks != []
    ensures var n := |chunks| - 1;
            var h := Replay(d, Idle, chunks[..n]);
            var p := Feed(d, h.spill, Tokens(chunks[n]));
            Replay(d, Idle, chunks).spill == p.spill && Replay(d, Idle, chunks).faults == h.faults + [p.fault]
  {
    hide Feed, Tokens;
  }

  /** An earlier container stays the last one taken in if the next one is refused. */
  lemma CountedEarlier(d: Decoder, chunks: seq<seq<byte>>, k: nat)
    requires k + 1 < |chunks|
    ensures var n := |chunks| - 1;
            var f := Feed(d, Replay(d, Idle, chunks[..n]).spill, Tokens(chunks[n])).fault;
            CountedTwice(d, chunks, k) <==> CountedTwice(d, chunks[..n], k) && f.Some? && f != Some(Mismatch)
  {
    hide Feed, Tokens, Plain, Replay, RefusedAfter;
    var n := |chunks| - 1;
    var h := Replay(d, Idle, chunks[..n]);
    ReplayLast(d, chunks);
    RefusedSnoc(h.faults, Feed(d, h.spill, Tokens(chunks[n])).fault, k);
    assert chunks[..n][..k] == chunks[..k] && chunks[..n][k] == chunks[k];
  }

  lemma CountedLast(d: Decoder, chunks: seq<seq<byte>>)
    requires chunks != []
    ensures var n := |chunks| - 1;
            CountedTwice(d, chunks, n) <==>
            chunks[n] != [] && Replay(d, Idle, chunks[..n]).spill.Open? && Plain(d, Tokens(chunks[n]))
  {
    hide Plain, Tokens, Replay;
  }

  lemma PlainAccepted(d: Decoder, s: Spill, ts: seq<Token>)
    requires s.Open? && Plain(d, ts)
    ensures Feed(d, s, ts).fault.None?
  {
    hide Feed;
    FeedContinues(d, s.words, ts);
  }

  /** The header overshoots if and only if some container was counted twice, and then by exactly the
      length of that container. */
  lemma {:induction false} SlackIff(d: Decoder, chunks: seq<seq<byte>>)
    ensures SlackRun(d, chunks) > 0 <==> exists k :: CountedTwice(d, chunks, k)
    ensures forall k :: CountedTwice(d, chunks, k) ==> SlackRun(d, chunks) == |chunks[k]|
  {
    hide Feed, Tokens, Plain, CountedTwice;
    if chunks == [] {
      NothingCounted(d);
    } else {
      var n := |chunks| - 1;
      var init := chunks[..n];
      var s, ts := Replay(d, Idle, init).spill, Tokens(chunks[n]);
      SlackIff(d, init);
      CountedLast(d, chunks);
      FlatTokens(chunks[n]);
      var f := Feed(d, s, ts).fault;
      if s.Open? && Plain(d, ts) {
        PlainAccepted(d, s, ts);
      }
      CountedInside(d, init);
      CountedInside(d, chunks);
      forall k | 0 <= k < |chunks| && CountedTwice(d, chunks, k)
        ensures SlackRun(d, chunks) == |chunks[k]|
      {
        if k < n {
          CountedEarlier(d, chunks, k);
        }
      }
      if SlackRun(d, chunks) > 0 {
        if f.Some? && f != Some(Mismatch) {
          var k :| CountedTwice(d, init, k);
          CountedEarlier(d, chunks, k);
          assert CountedTwice(d, chunks, k);
        }
      }
    }
  }

  lemma CountedInside(d: Decoder, chunks: seq<seq<byte>>)
    ensures forall k :: CountedTwice(d, chunks, k) ==> 0 <= k < |chunks| && |chunks[k]| > 0
  {
    hide Plain, Replay, Tokens;
  }

  lemma NothingCounted(d: Decoder)
    ensures forall k :: !CountedTwice(d, [], k)
  {
  }

  /** The bank after a run of containers. */
  function BankAfter(d: Decoder, chunks: seq<seq<byte>>): seq<byte> {
    Sized(Replay(d, Idle, chunks).spill.Held(), SlackRun(d, chunks))
  }

  lemma SizedReads(ws: seq<Token>, slack: nat)
    ensures SizeField(Sized(ws, slack)) == (|Sized(ws, slack)| + slack) % TWO_TO_64
  {
    hide Flat, LittleEndian, FromLittleEndian;
    var n := FRAGMENT_HEADER_SIZE + |Flat(ws)| + slack;
    FieldRoundTrip(n, 8);
    assert Pow256(8) == TWO_TO_64;
    assert Sized(ws, slack)[0..8] == LittleEndian(n, 8);
  }

  lemma ExcessShows(n: nat, x: nat)
    requires n < TWO_TO_64 && x < TWO_TO_64
    ensures (n + x) % TWO_TO_64 != n <==> x > 0
  {
  }

  /** When the size header is wrong: after a run of containers it differs from the true size of the
      bank if and only if a nonempty container without boundaries came inside an open spill and
      everything after it was refused without a contradiction; it is then too large by exactly that
      container. */
  lemma SizeWrongIff(d: Decoder, chunks: seq<seq<byte>>)
    requires |BankAfter(d, chunks)| < TWO_TO_64
    requires forall i :: 0 <= i < |chunks| ==> |chunks[i]| < TWO_TO_32
    ensures var b := BankAfter(d, chunks);
            && (SizeField(b) != |b| <==> exists k :: CountedTwice(d, chunks, k))
            && forall k :: CountedTwice(d, chunks, k) ==> SizeField(b) == (|b| + |chunks[k]|) % TWO_TO_64
  {
    hide Replay, SlackRun, Plain, Tokens, RefusedAfter;
    SlackIff(d, chunks);
    SizedReads(Replay(d, Idle, chunks).spill.Held(), SlackRun(d, chunks));
    ExcessShows(|BankAfter(d, chunks)|, SlackRun(d, chunks));
  }
}
