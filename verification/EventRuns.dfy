/** Whole runs of the event builder, seen from each board. */
module EventRuns {
  import opened Bytes
  import opened SpillWords
  import opened SpillParser
  import opened SpillGrammar
  import opened FragmentRuns
  import opened DataHeaders
  import opened EventLayout
  import opened EventReader
  import opened Completeness
  import opened EventModel
  import opened Wrappers

  /** The fragments of one board, in order. */
  function OfBoard(frs: seq<Fragment>, b: int): seq<seq<Token>> {
    if frs == [] then []
    else
      var n := |frs| - 1;
      OfBoard(frs[..n], b) + if frs[n].board == b then [frs[n].words] else []
  }

  /** The containers of one board, in order. */
  function ChunksOf(calls: seq<Call>, b: int): seq<seq<byte>> {
    if calls == [] then []
    else
      var n := |calls| - 1;
      ChunksOf(calls[..n], b) + if calls[n].board == b then [calls[n].bytes] else []
  }

  lemma {:induction false} OfBoardAppend(x: seq<Fragment>, y: seq<Fragment>, b: int)
    ensures OfBoard(x + y, b) == OfBoard(x, b) + OfBoard(y, b)
  {
    if y == [] {
      assert x + y == x;
    } else {
      var n := |y| - 1;
      assert (x + y)[..|x| + n] == x + y[..n];
      OfBoardAppend(x, y[..n], b);
    }
  }

  lemma {:induction false} OfBoardTag(board: int, done: seq<seq<Token>>, b: int)
    ensures OfBoard(Tag(board, done), b) == if b == board then done else []
  {
    if done == [] {
    } else {
      var n := |done| - 1;
      OfBoardTag(board, done[..n], b);
      assert Tag(board, done)[..n] == Tag(board, done[..n]);
      assert done[..n] + [done[n]] == done;
    }
  }

  lemma ChunksSnoc(calls: seq<Call>, b: int)
    requires calls != []
    ensures var n := |calls| - 1;
            ChunksOf(calls, b) == ChunksOf(calls[..n], b) + if calls[n].board == b then [calls[n].bytes] else []
  {
  }

  lemma ReplaySnoc(d: Decoder, s: Spill, chunks: seq<seq<byte>>, c: seq<byte>)
    ensures var h := Replay(d, s, chunks);
            var p := Feed(d, h.spill, Tokens(c));
            Replay(d, s, chunks + [c]) == History(p.spill, h.done + p.done, h.faults + [p.fault])
  {
    hide Feed, Tokens;
    assert (chunks + [c])[..|chunks|] == chunks;
  }

  /** What a board completes depends on its own containers alone. */
  lemma {:induction false} CollectProjects(d: Decoder, spills: map<int, Spill>, calls: seq<Call>, b: int)
    requires forall i :: 0 <= i < |calls| ==> calls[i].board in spills
    requires b in spills
    ensures var o, h := Collect(d, spills, calls), Replay(d, spills[b], ChunksOf(calls, b));
            o.spills[b] == h.spill && OfBoard(o.completed, b) == h.done
  {
    hide Feed, Tokens, OfBoard, ChunksOf, Replay, Tag;
    ProjectNothing(d, spills[b], b);
    if calls == [] {
    } else {
      var n := |calls| - 1;
      var o := Collect(d, spills, calls[..n]);
      var x := calls[n].board;
      var p := Feed(d, o.spills[x], Tokens(calls[n].bytes));
      CollectProjects(d, spills, calls[..n], b);
      ChunksSnoc(calls, b);
      OfBoardAppend(o.completed, Tag(x, p.done), b);
      OfBoardTag(x, p.done, b);
      ReplaySnoc(d, spills[b], ChunksOf(calls[..n], b), calls[n].bytes);
      assert OfBoard(o.completed, b) + [] == OfBoard(o.completed, b);
      assert ChunksOf(calls[..n], b) + [] == ChunksOf(calls[..n], b);
    }
  }

  lemma ProjectNothing(d: Decoder, s: Spill, b: int)
    ensures OfBoard([], b) == [] && ChunksOf([], b) == [] && Replay(d, s, []) == History(s, [], [])
  {
  }

  /** Interleaving: for any interleaving of containers of any boards, refused ones included, the
      fragments of one board in all recorded events and then in the event bank are those its
      builder produces alone from its own containers. */
  lemma InterleavingProjection(d: Decoder, boards: set<int>, first: nat, calls: seq<Call>, b: int)
    requires Registered(Fresh(boards, first), calls) && b in boards
    ensures var r, h := Run(d, Fresh(boards, first), calls), Replay(d, Idle, ChunksOf(calls, b));
            && OfBoard(Recorded(r.events) + r.pending, b) == h.done
            && r.spills[b] == h.spill
  {
    hide Run, Collect, Replay, Recorded, OfBoard, ChunksOf;
    FreshFlattens(d, boards, first, calls);
    CollectProjects(d, Fresh(boards, first).spills, calls, b);
  }

  /** Conservation over all boards: if the containers of a board have all been accepted, its words
      are exactly gaps, the board's fragments in all recorded events and in the event bank, and the
      spill its builder still holds, in turn. */
  lemma BoardConserves(d: Decoder, boards: set<int>, first: nat, calls: seq<Call>, b: int)
    returns (gaps: seq<seq<Token>>)
    requires Registered(Fresh(boards, first), calls) && b in boards
    requires Replay(d, Idle, ChunksOf(calls, b)).Accepted()
    ensures var r := Run(d, Fresh(boards, first), calls);
            Explains(d, Stream(ChunksOf(calls, b)), gaps, OfBoard(Recorded(r.events) + r.pending, b), r.spills[b])
  {
    hide Run, Replay, Recorded, OfBoard, ChunksOf, Explains, Stream;
    InterleavingProjection(d, boards, first, calls, b);
    gaps := RunConserves(d, ChunksOf(calls, b));
  }

  ghost predicate AllOf(frs: seq<Fragment>, boards: set<int>) {
    forall i :: 0 <= i < |frs| ==> frs[i].board in boards
  }

  lemma {:induction false} CollectShapes(d: Decoder, spills: map<int, Spill>, calls: seq<Call>)
    requires forall i :: 0 <= i < |calls| ==> calls[i].board in spills
    requires forall b :: b in spills ==> Shaped(d, spills[b])
    ensures var o := Collect(d, spills, calls);
            && (forall b :: b in spills ==> Shaped(d, o.spills[b]))
            && (forall i :: 0 <= i < |o.completed| ==> WellFormed(d, o.completed[i].words))
            && AllOf(o.completed, spills.Keys)
  {
    hide Feed, Tokens, Shaped, WellFormed;
    if calls == [] {
    } else {
      var n := |calls| - 1;
      CollectShapes(d, spills, calls[..n]);
      var o := Collect(d, spills, calls[..n]);
      FeedShapes(d, o.spills[calls[n].board], Tokens(calls[n].bytes));
    }
  }

  /** Every fragment in every recorded event and in the event bank, over every run, begins with a
      spill header, ends with the spill trailer, has no boundary in between, and its header and
      trailer agree. */
  lemma RecordedWellFormed(d: Decoder, boards: set<int>, first: nat, calls: seq<Call>)
    requires Registered(Fresh(boards, first), calls)
    ensures var r := Run(d, Fresh(boards, first), calls);
            var all := Recorded(r.events) + r.pending;
            AllOf(all, boards) && forall i :: 0 <= i < |all| ==> WellFormed(d, all[i].words)
  {
    hide Run, Collect, Recorded, WellFormed;
    FreshFlattens(d, boards, first, calls);
    CollectShapes(d, Fresh(boards, first).spills, calls);
  }

  /** Over every run, the markers that go with the pending fragments point, pair by pair, at the
      spill header and the spill trailer of each fragment in the event bank. */
  lemma BankIndexed(d: Decoder, boards: set<int>, first: nat, calls: seq<Call>, b: seq<byte>, k: nat)
    requires Registered(Fresh(boards, first), calls)
    ensures var frs := Words(Run(d, Fresh(boards, first), calls).pending);
            k < |frs| && Holds(b, frs) ==>
              var h, t := HeaderMarks(frs)[k], TrailerMarks(frs)[k];
              && h < t && t + 4 <= |b|
              && KindOf(d, b[h..h + 4]) == SpillHeader && KindOf(d, b[t..t + 4]) == SpillTrailer2
              && (k + 1 < |frs| ==> t < HeaderMarks(frs)[k + 1])
  {
    hide Run, Recorded, HeaderMarks, TrailerMarks, Holds, Matches;
    RecordedWellFormed(d, boards, first, calls);
    var r := Run(d, Fresh(boards, first), calls);
    if k < |r.pending| && Holds(b, Words(r.pending)) {
      var rec := Recorded(r.events);
      assert (rec + r.pending)[|rec| + k] == r.pending[k];
      BracketedIsFramed(d, r.pending[k].words);
      MarkersPoint(b, Words(r.pending), k);
    }
  }

  // ------------------------------------------------------------ whole words

  lemma {:induction false} ParseWords(d: Decoder, p: Progress, ts: seq<Token>)
    requires WordSized(ts) && WordSized(p.spill.Held()) && forall i :: 0 <= i < |p.done| ==> WordSized(p.done[i])
    ensures var q := Parse(d, p, ts);
            WordSized(q.spill.Held()) && forall i :: 0 <= i < |q.done| ==> WordSized(q.done[i])
  {
    hide Matches, KindOf;
    if ts == [] {
    } else {
      ParseWords(d, p, ts[..|ts| - 1]);
    }
  }

  lemma FeedWords(d: Decoder, s: Spill, b: seq<byte>)
    requires |b| % 4 == 0 && WordSized(s.Held())
    ensures var p := Feed(d, s, Tokens(b));
            WordSized(p.spill.Held()) && forall i :: 0 <= i < |p.done| ==> WordSized(p.done[i])
  {
    hide Parse, Offsets;
    assert WordSized(Tokens(b));
    ParseWords(d, Start(s), Tokens(b));
  }

  lemma {:induction false} CollectWords(d: Decoder, spills: map<int, Spill>, calls: seq<Call>)
    requires forall i :: 0 <= i < |calls| ==> calls[i].board in spills && |calls[i].bytes| % 4 == 0
    requires forall b :: b in spills ==> WordSized(spills[b].Held())
    ensures var o := Collect(d, spills, calls);
            && (forall b :: b in spills ==> WordSized(o.spills[b].Held()))
            && (forall i :: 0 <= i < |o.completed| ==> WordSized(o.completed[i].words))
  {
    hide Feed, Tokens, WordSized;
    if calls == [] {
    } else {
      var n := |calls| - 1;
      CollectWords(d, spills, calls[..n]);
      FeedWords(d, Collect(d, spills, calls[..n]).spills[calls[n].board], calls[n].bytes);
    }
  }

  /** If all containers hold whole words, then so do all fragments, and every marker of the event
      bank, after any number of appends, is a multiple of four. */
  lemma BankAligned(d: Decoder, boards: set<int>, first: nat, calls: seq<Call>)
    requires Registered(Fresh(boards, first), calls)
    requires forall i :: 0 <= i < |calls| ==> |calls[i].bytes| % 4 == 0
    ensures var r := Run(d, Fresh(boards, first), calls);
            var hs, ts := HeaderMarks(Words(r.pending)), TrailerMarks(Words(r.pending));
            forall k :: 0 <= k < |r.pending| ==> hs[k] % 4 == 0 && ts[k] % 4 == 0
  {
    hide Run, Collect, Recorded, WordSized, HeaderMarks, TrailerMarks;
    var s := Fresh(boards, first);
    FreshFlattens(d, boards, first, calls);
    NothingHeld();
    CollectWords(d, s.spills, calls);
    var r := Run(d, s, calls);
    var rec, o := Recorded(r.events), Collect(d, s.spills, calls);
    assert forall k :: 0 <= k < |r.pending| ==> r.pending[k] == o.completed[|rec| + k];
    MarkersAligned(Words(r.pending));
  }

  lemma NothingHeld()
    ensures WordSized(Idle.Held())
  {
  }

  // ------------------------------------------------------- recorded bytes

  /** What is written to the recorder for the `k`-th event can be read back: its header tells the
      true size and as many fragments as there are boards, and following the sizes gives exactly
      the `k`-th group of completed fragments. */
  lemma EventsReadBack(d: Decoder, boards: set<int>, first: nat, calls: seq<Call>, k: nat)
    requires 1 <= |boards| < TWO_TO_16 && first < TWO_TO_32
    requires Registered(Fresh(boards, first), calls)
    ensures var s := Fresh(boards, first);
            var r := Run(d, s, calls);
            k < |r.events| && |EventImage(r.events[k])| < TWO_TO_64 ==>
              var e := r.events[k];
              var b := EventImage(e);
              && SizeField(b) == |b| && NFragmentsField(b) == |boards|
              && EventIdField(b) == (first + k) % TWO_TO_32 && TimeField(b) == e.time % TWO_TO_64
              && ReadEvent(b) == Some(Payloads(Words(e.fragments)))
              && IsGroup(Collect(d, s.spills, calls).completed, k, |boards|, e.fragments)
  {
    hide Run, Collect, Recorded, IsGroup, ReadEvent, EventImage, SizeField, NFragmentsField, EventIdField,
      TimeField;
    EventsAreGroups(d, boards, first, calls);
    var s := Fresh(boards, first);
    var r := Run(d, s, calls);
    if k < |r.events| && |EventImage(r.events[k])| < TWO_TO_64 {
      GroupSize(Collect(d, s.spills, calls).completed, k, |boards|, r.events[k].fragments);
      EventReadBack(r.events[k]);
    }
  }

  /** The `i`-th call completes the `m`-th fragment of all boards together. */
  ghost predicate Fills(d: Decoder, spills: map<int, Spill>, calls: seq<Call>, i: int, m: nat)
    requires forall j :: 0 <= j < |calls| ==> calls[j].board in spills
  {
    && 0 <= i < |calls|
    && |Collect(d, spills, calls[..i]).completed| < m <= |Collect(d, spills, calls[..i + 1]).completed|
  }

  lemma GroupCounts(k: nat, e: nat, c: nat, n: nat)
    requires n >= 1 && e * n <= c < e * n + n
    ensures k < e <==> (k + 1) * n <= c
  {
    if k < e {
      assert (e - (k + 1)) * n >= 0;
    } else {
      assert (k - e) * n >= 0;
    }
  }

  lemma RecordedWhenFull(d: Decoder, boards: set<int>, first: nat, calls: seq<Call>, i: nat, k: nat)
    requires 1 <= |boards| < TWO_TO_16 && first < TWO_TO_32
    requires Registered(Fresh(boards, first), calls) && i < |calls|
    ensures var s := Fresh(boards, first);
            RecordedBy(d, s, calls, i, k) <==> Fills(d, s.spills, calls, i, (k + 1) * |boards|)
  {
    hide Run, Collect, IsGroup, Process;
    var s, n := Fresh(boards, first), |boards|;
    EventsAreGroups(d, boards, first, calls[..i]);
    EventsAreGroups(d, boards, first, calls[..i + 1]);
    CallStamps(d, s, calls, i);
    var e, f := |Run(d, s, calls[..i]).events|, |Run(d, s, calls[..i + 1]).events|;
    GroupCounts(k, e, |Collect(d, s.spills, calls[..i]).completed|, n);
    GroupCounts(k, f, |Collect(d, s.spills, calls[..i + 1]).completed|, n);
  }

  lemma CallStamps(d: Decoder, s: State, calls: seq<Call>, i: nat)
    requires Registered(s, calls) && i < |calls|
    ensures |Run(d, s, calls[..i + 1]).events| <= |Run(d, s, calls[..i]).events| + 1
  {
    hide Process;
    assert calls[..i + 1][..i] == calls[..i];
    ProcessStamps(d, Run(d, s, calls[..i]), calls[i]);
  }

  /** Time: the `k`-th event carries the time of that call, and there is just one, with which the
      number of completed fragments reaches `k + 1` times the number of boards. */
  lemma EventTimes(d: Decoder, boards: set<int>, first: nat, calls: seq<Call>, k: nat) returns (i: nat)
    requires 1 <= |boards| < TWO_TO_16 && first < TWO_TO_32
    requires Registered(Fresh(boards, first), calls)
    requires k < |Run(d, Fresh(boards, first), calls).events|
    ensures var s, m := Fresh(boards, first), (k + 1) * |boards|;
            && Fills(d, s.spills, calls, i, m)
            && Run(d, s, calls).events[k].time == calls[i].now
            && forall j :: Fills(d, s.spills, calls, j, m) ==> j == i
  {
    hide Run, Collect, Fills, RecordedBy;
    var s, m := Fresh(boards, first), (k + 1) * |boards|;
    i := RunStamps(d, s, calls, k);
    RecordedInside(d, s, calls, i, k);
    RecordedWhenFull(d, boards, first, calls, i, k);
    forall j | Fills(d, s.spills, calls, j, m)
      ensures j == i
    {
      FillsInside(d, s.spills, calls, j, m);
      RecordedWhenFull(d, boards, first, calls, j, k);
      RecordedOnce(d, s, calls, i, j, k);
    }
  }

  lemma FillsInside(d: Decoder, spills: map<int, Spill>, calls: seq<Call>, i: int, m: nat)
    requires forall j :: 0 <= j < |calls| ==> calls[j].board in spills
    requires Fills(d, spills, calls, i, m)
    ensures 0 <= i < |calls|
  {
  }

  lemma GroupSize(all: seq<Fragment>, k: nat, n: nat, frs: seq<Fragment>)
    requires IsGroup(all, k, n, frs)
    ensures |frs| == n
  {
    var i, j := k * n, k * n + n;
    assert |all[i..j]| == j - i;
  }

  lemma EventReadBack(e: Event)
    requires |e.fragments| < TWO_TO_16 && e.id < TWO_TO_32 && |EventImage(e)| < TWO_TO_64
    ensures var b := EventImage(e);
            && SizeField(b) == |b| && NFragmentsField(b) == |e.fragments| && EventIdField(b) == e.id
            && TimeField(b) == e.time % TWO_TO_64
            && ReadEvent(b) == Some(Payloads(Words(e.fragments)))
  {
    hide EventBytes, ReadEvent;
    EventRoundTrip(e.id, e.time, Words(e.fragments));
  }

  function RecordedBytes(events: seq<Event>): nat {
    if events == [] then 0
    else RecordedBytes(events[..|events| - 1]) + |EventImage(events[|events| - 1])|
  }

  lemma {:induction false} DataBytesAppend(x: seq<seq<Token>>, y: seq<seq<Token>>)
    ensures DataBytes(x + y) == DataBytes(x) + DataBytes(y)
  {
    hide Flat;
    if y == [] {
      assert x + y == x;
    } else {
      var n := |y| - 1;
      assert (x + y)[..|x| + n] == x + y[..n];
      DataBytesAppend(x, y[..n]);
    }
  }

  /** The recorded bytes are one header for each event, and for each fragment a size and its words. */
  lemma {:induction false} RecordedTotal(events: seq<Event>)
    ensures RecordedBytes(events) ==
            EVENT_HEADER_SIZE * |events| + FRAGMENT_HEADER_SIZE * |Recorded(events)|
            + DataBytes(Words(Recorded(events)))
  {
    hide EventBytes, DataBytes;
    if events == [] {
      NoData();
      assert Words(Recorded([])) == [];
    } else {
      var n := |events| - 1;
      var e := events[n];
      RecordedTotal(events[..n]);
      EventLength(e.id, e.time, Words(e.fragments));
      assert Words(Recorded(events)) == Words(Recorded(events[..n])) + Words(e.fragments);
      DataBytesAppend(Words(Recorded(events[..n])), Words(e.fragments));
    }
  }

  lemma NoData()
    ensures DataBytes([]) == 0
  {
  }
}
