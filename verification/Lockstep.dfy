/** When an event really holds one fragment of each board. The event builder only counts fragments;
    it records complete events exactly while the boards run in lockstep. */
module Lockstep {
  import opened Bytes
  import opened SpillWords
  import opened SpillParser
  import opened SpillGrammar
  import opened FragmentRuns
  import opened Completeness
  import opened EventModel
  import opened EventRuns
  import opened Wrappers

  function Count(frs: seq<Fragment>, b: int): nat {
    |OfBoard(frs, b)|
  }

  function Without(frs: seq<Fragment>, b: int): seq<Fragment> {
    if frs == [] then []
    else Without(frs[..|frs| - 1], b) + if frs[|frs| - 1].board == b then [] else [frs[|frs| - 1]]
  }

  lemma {:induction false} WithoutCounts(frs: seq<Fragment>, b: int)
    ensures |frs| == Count(frs, b) + |Without(frs, b)|
    ensures forall a :: a != b ==> Count(Without(frs, b), a) == Count(frs, a)
    ensures forall boards :: AllOf(frs, boards) ==> AllOf(Without(frs, b), boards - {b})
  {
    if frs == [] {
    } else {
      var n := |frs| - 1;
      var w := Without(frs[..n], b);
      WithoutCounts(frs[..n], b);
      assert forall boards :: AllOf(frs, boards) ==> AllOf(frs[..n], boards);
      assert (w + [frs[n]])[..|w|] == w && w + [] == w;
      forall a | a != b
        ensures Count(Without(frs, b), a) == Count(frs, a)
      {
        assert Count(w, a) == Count(frs[..n], a);
      }
    }
  }

  lemma Member<T>(s: set<T>) returns (x: T)
    requires |s| > 0
    ensures x in s
  {
    x :| x in s;
  }

  /** If every board has a fragment, there are at least as many fragments as boards. */
  lemma {:induction false} AtLeastOneEach(frs: seq<Fragment>, boards: set<int>)
    requires forall b :: b in boards ==> Count(frs, b) >= 1
    ensures |frs| >= |boards|
    decreases |boards|
  {
    if |boards| == 0 {
    } else {
      var b := Member(boards);
      WithoutCounts(frs, b);
      AtLeastOneEach(Without(frs, b), boards - {b});
    }
  }

  /** If no board has two fragments, there are at most as many fragments as boards. */
  lemma {:induction false} AtMostOneEach(frs: seq<Fragment>, boards: set<int>)
    requires AllOf(frs, boards) && forall b :: b in boards ==> Count(frs, b) <= 1
    ensures |frs| <= |boards|
    decreases |boards|
  {
    if frs == [] {
    } else {
      var b := frs[|frs| - 1].board;
      WithoutCounts(frs, b);
      AtMostOneEach(Without(frs, b), boards - {b});
    }
  }

  /** The numbers of completed spills of any two boards differ by at most one. */
  ghost predicate Balanced(frs: seq<Fragment>, boards: set<int>) {
    forall a, b :: a in boards && b in boards ==> Count(frs, a) <= Count(frs, b) + 1
  }

  ghost predicate AtMostOnePerBoard(frs: seq<Fragment>, boards: set<int>) {
    forall b :: b in boards ==> Count(frs, b) <= 1
  }

  ghost predicate OnePerBoard(frs: seq<Fragment>, boards: set<int>) {
    forall b :: b in boards ==> Count(frs, b) == 1
  }

  ghost predicate EventsComplete(events: seq<Event>, boards: set<int>) {
    forall k :: 0 <= k < |events| ==> OnePerBoard(events[k].fragments, boards)
  }

  /** A full bank without two fragments of one board has one of each. */
  lemma FullBank(frs: seq<Fragment>, boards: set<int>)
    requires AllOf(frs, boards) && |frs| == |boards|
    ensures AtMostOnePerBoard(frs, boards) <==> OnePerBoard(frs, boards)
  {
    hide Count;
    if AtMostOnePerBoard(frs, boards) {
      forall b | b in boards
        ensures Count(frs, b) == 1
      {
        WithoutCounts(frs, b);
        AtMostOneEach(Without(frs, b), boards - {b});
      }
    }
  }

  /** Two fragments of one board in a bank that is not overfull leave some board without any. */
  lemma CrowdedBank(frs: seq<Fragment>, boards: set<int>, a: int) returns (b: int)
    requires |frs| <= |boards| && a in boards && Count(frs, a) >= 2
    ensures b in boards && Count(frs, b) == 0
  {
    hide Count;
    WithoutCounts(frs, a);
    if forall x :: x in boards - {a} ==> Count(Without(frs, a), x) >= 1 {
      AtLeastOneEach(Without(frs, a), boards - {a});
      assert false;
    }
    b :| b in boards - {a} && Count(Without(frs, a), b) == 0;
  }

  lemma {:induction false} CompleteCounts(events: seq<Event>, boards: set<int>, b: int)
    requires EventsComplete(events, boards) && b in boards
    ensures Count(Recorded(events), b) == |events|
  {
    if events == [] {
    } else {
      var n := |events| - 1;
      CompleteCounts(events[..n], boards, b);
      OfBoardAppend(Recorded(events[..n]), events[n].fragments, b);
    }
  }

  /** With complete events so far, balance is the same as no board being twice in the bank. */
  lemma BalancedBank(events: seq<Event>, bank: seq<Fragment>, boards: set<int>)
    requires EventsComplete(events, boards) && |bank| <= |boards|
    ensures Balanced(Recorded(events) + bank, boards) <==> AtMostOnePerBoard(bank, boards)
  {
    hide Count, Recorded, EventsComplete;
    var all := Recorded(events) + bank;
    forall b | b in boards
      ensures Count(all, b) == |events| + Count(bank, b)
    {
      CompleteCounts(events, boards, b);
      CountAppend(Recorded(events), bank, b);
    }
    if Balanced(all, boards) && !AtMostOnePerBoard(bank, boards) {
      var a :| a in boards && Count(bank, a) >= 2;
      var b := CrowdedBank(bank, boards, a);
      assert false;
    }
  }

  lemma CountAppend(x: seq<Fragment>, y: seq<Fragment>, b: int)
    ensures Count(x + y, b) == Count(x, b) + Count(y, b)
  {
    OfBoardAppend(x, y, b);
  }

  /** Every recorded event is complete, and no board is twice in the event bank. */
  ghost predicate Complete(s: State, boards: set<int>) {
    EventsComplete(s.events, boards) && AtMostOnePerBoard(s.pending, boards)
  }

  /** At every point of the run the boards are balanced. */
  ghost predicate InLockstep(d: Decoder, spills: map<int, Spill>, calls: seq<Call>)
    requires forall i :: 0 <= i < |calls| ==> calls[i].board in spills
  {
    forall i :: 0 <= i <= |calls| ==> Balanced(Collect(d, spills, calls[..i]).completed, spills.Keys)
  }

  /** The check of the fragment count keeps completeness, both ways. */
  lemma EmitComplete(s: State, now: nat, boards: set<int>)
    requires |s.pending| <= |boards| == |s.spills| < TWO_TO_16 && AllOf(s.pending, boards)
    ensures Complete(Emit(s, now), boards) <==> Complete(s, boards)
  {
    hide Count;
    var r := Emit(s, now);
    if |s.pending| == |boards| {
      FullBank(s.pending, boards);
      assert r.events[..|s.events|] == s.events;
      assert forall k :: 0 <= k < |s.events| ==> r.events[k] == s.events[k];
      assert r.events[|s.events|].fragments == s.pending;
      EmptyCounts(boards);
    }
  }

  lemma EmptyCounts(boards: set<int>)
    ensures AtMostOnePerBoard([], boards)
  {
  }

  /** One call, seen as: add what was completed, then check the count. */
  lemma ProcessEmits(d: Decoder, s: State, o: Output, first: nat, c: Call) returns (fed: State)
    requires Grouped(s, o, first) && c.board in s.spills && |s.spills| < TWO_TO_16
    ensures var p := Feed(d, s.spills[c.board], Tokens(c.bytes));
            && Process(d, s, c) == Emit(fed, c.now)
            && fed.events == s.events && fed.pending == s.pending + Tag(c.board, p.done)
            && |fed.spills| == |s.spills| && |fed.pending| <= |s.spills|
  {
    hide Feed, Recorded;
    var p := Feed(d, s.spills[c.board], Tokens(c.bytes));
    AtMostOne(d, s.spills[c.board], Tokens(c.bytes));
    fed := s.(spills := s.spills[c.board := p.spill], pending := s.pending + Tag(c.board, p.done));
    SameSize(fed.spills, s.spills);
  }

  lemma {:induction false} LockstepSplit(d: Decoder, spills: map<int, Spill>, calls: seq<Call>)
    requires calls != [] && forall i :: 0 <= i < |calls| ==> calls[i].board in spills
    ensures InLockstep(d, spills, calls) <==>
            InLockstep(d, spills, calls[..|calls| - 1]) && Balanced(Collect(d, spills, calls).completed, spills.Keys)
  {
    hide Collect, Balanced;
    var n := |calls| - 1;
    assert calls[..n + 1] == calls;
    assert forall i :: 0 <= i <= n ==> calls[..n][..i] == calls[..i];
  }

  /** Lockstep: every recorded event holds exactly one fragment of each board, and the bank no two
      of one board, if and only if at every point of the run the numbers of completed spills of any
      two boards differed by at most one. */
  lemma {:induction false} LockstepIff(d: Decoder, boards: set<int>, first: nat, calls: seq<Call>)
    requires 1 <= |boards| < TWO_TO_16 && first < TWO_TO_32
    requires Registered(Fresh(boards, first), calls)
    ensures var s := Fresh(boards, first);
            Complete(Run(d, s, calls), boards) <==> InLockstep(d, s.spills, calls)
  {
    hide Feed, Collect, Recorded, Process, Balanced, AtMostOnePerBoard, Emit, Tag;
    var s := Fresh(boards, first);
    if calls == [] {
      LockstepStart(d, boards, first);
    } else {
      var n := |calls| - 1;
      LockstepIff(d, boards, first, calls[..n]);
      RunGroups(d, boards, first, calls[..n]);
      RunGroups(d, boards, first, calls);
      LockstepSplit(d, s.spills, calls);
      CollectShapesFresh(d, boards, first, calls);
      var r, o := Run(d, s, calls[..n]), Collect(d, s.spills, calls[..n]);
      SameSize(r.spills, s.spills);
      var fed := ProcessEmits(d, r, o, first, calls[n]);
      CompletedSnoc(d, s.spills, calls);
      var all := Collect(d, s.spills, calls).completed;
      assert all == Recorded(fed.events) + fed.pending;
      assert AllOf(fed.pending, boards) by {
        AllOfSuffix(Recorded(fed.events), fed.pending, boards);
      }
      EmitComplete(fed, calls[n].now, boards);
      if EventsComplete(fed.events, boards) {
        BalancedBank(fed.events, fed.pending, boards);
        var done := Feed(d, r.spills[calls[n].board], Tokens(calls[n].bytes)).done;
        BankGrows(r.pending, Tag(calls[n].board, done), boards);
      }
    }
  }

  lemma LockstepStart(d: Decoder, boards: set<int>, first: nat)
    ensures var s := Fresh(boards, first);
            Complete(Run(d, s, []), boards) && InLockstep(d, s.spills, [])
  {
  }

  lemma BankGrows(x: seq<Fragment>, y: seq<Fragment>, boards: set<int>)
    ensures AtMostOnePerBoard(x + y, boards) ==> AtMostOnePerBoard(x, boards)
  {
    hide Count;
    forall b | b in boards
      ensures Count(x, b) <= Count(x + y, b)
    {
      CountAppend(x, y, b);
    }
  }

  lemma AllOfSuffix(x: seq<Fragment>, y: seq<Fragment>, boards: set<int>)
    requires AllOf(x + y, boards)
    ensures AllOf(y, boards)
  {
    assert forall i :: 0 <= i < |y| ==> y[i] == (x + y)[|x| + i];
  }

  lemma CollectShapesFresh(d: Decoder, boards: set<int>, first: nat, calls: seq<Call>)
    requires Registered(Fresh(boards, first), calls)
    ensures AllOf(Collect(d, Fresh(boards, first).spills, calls).completed, boards)
  {
    hide Collect, WellFormed;
    CollectShapes(d, Fresh(boards, first).spills, calls);
  }

  lemma CompletedSnoc(d: Decoder, spills: map<int, Spill>, calls: seq<Call>)
    requires calls != [] && forall i :: 0 <= i < |calls| ==> calls[i].board in spills
    ensures var n := |calls| - 1;
            var o := Collect(d, spills, calls[..n]);
            Collect(d, spills, calls).completed ==
            o.completed + Tag(calls[n].board, Feed(d, o.spills[calls[n].board], Tokens(calls[n].bytes)).done)
  {
    hide Feed, Tag, Tokens;
  }

  /** With complete events, the `k`-th event holds each board's `k`-th spill. */
  lemma {:induction false} KthSpill(events: seq<Event>, boards: set<int>, k: nat, b: int)
    requires EventsComplete(events, boards) && b in boards && k < |events|
    ensures |OfBoard(Recorded(events), b)| == |events|
    ensures OfBoard(events[k].fragments, b) == [OfBoard(Recorded(events), b)[k]]
  {
    hide OfBoard, Recorded;
    var n := |events| - 1;
    var init := events[..n];
    CompleteCounts(events, boards, b);
    CompleteCounts(init, boards, b);
    assert events == init + [events[n]];
    RecordedSnoc(init, events[n]);
    OfBoardAppend(Recorded(init), events[n].fragments, b);
    if k < n {
      KthSpill(init, boards, k, b);
    } else {
      assert |OfBoard(events[n].fragments, b)| == Count(events[n].fragments, b) == 1;
    }
  }

  /** In lockstep, the `k`-th event holds, for each board, exactly the `k`-th spill that its
      builder completes from its own containers. */
  lemma LockstepEvents(d: Decoder, boards: set<int>, first: nat, calls: seq<Call>, k: nat, b: int)
    requires 1 <= |boards| < TWO_TO_16 && first < TWO_TO_32
    requires Registered(Fresh(boards, first), calls) && b in boards
    requires InLockstep(d, Fresh(boards, first).spills, calls)
    requires k < |Run(d, Fresh(boards, first), calls).events|
    ensures var e, h := Run(d, Fresh(boards, first), calls).events[k], Replay(d, Idle, ChunksOf(calls, b));
            k < |h.done| && OfBoard(e.fragments, b) == [h.done[k]]
  {
    hide Run, Collect, Replay, Recorded, OfBoard, ChunksOf, InLockstep;
    var r := Run(d, Fresh(boards, first), calls);
    LockstepIff(d, boards, first, calls);
    InterleavingProjection(d, boards, first, calls, b);
    KthSpill(r.events, boards, k, b);
    OfBoardAppend(Recorded(r.events), r.pending, b);
  }

  // ------------------------------------------------- read off the input

  /** How many spill trailers the containers of a board hold. */
  function Trailers(d: Decoder, calls: seq<Call>, b: int): nat {
    |Offsets(d, Stream(ChunksOf(calls, b)), SpillTrailer2)|
  }

  /** The numbers of spill trailers of any two boards differ by at most one. */
  ghost predicate TrailersBalanced(d: Decoder, calls: seq<Call>, boards: set<int>) {
    forall a, b :: a in boards && b in boards ==> Trailers(d, calls, a) <= Trailers(d, calls, b) + 1
  }

  ghost predicate Fits(d: Decoder, chunk: seq<byte>) {
    |chunk| % 4 == 0 && OneSpillAtMost(d, Tokens(chunk))
  }

  /** Every container holds whole words, at most one header and at most one trailer, and the stream
      of every board alternates. */
  ghost predicate WellFormedInput(d: Decoder, boards: set<int>, calls: seq<Call>) {
    && (forall i :: 0 <= i < |calls| ==> Fits(d, calls[i].bytes))
    && (forall b :: b in boards ==> Alternates(d, Stream(ChunksOf(calls, b))))
  }

  lemma {:induction false} ChunksFit(d: Decoder, calls: seq<Call>, b: int)
    requires forall i :: 0 <= i < |calls| ==> Fits(d, calls[i].bytes)
    ensures forall k :: 0 <= k < |ChunksOf(calls, b)| ==> Fits(d, ChunksOf(calls, b)[k])
  {
    hide Fits;
    if calls == [] {
    } else {
      ChunksFit(d, calls[..|calls| - 1], b);
    }
  }

  /** The first calls bring the first containers of a board. */
  lemma {:induction false} ChunksPrefix(calls: seq<Call>, i: nat, b: int) returns (m: nat)
    requires i <= |calls|
    ensures m <= |ChunksOf(calls, b)| && ChunksOf(calls[..i], b) == ChunksOf(calls, b)[..m]
  {
    if i == |calls| {
      assert calls[..i] == calls;
      m := |ChunksOf(calls, b)|;
    } else {
      var n := |calls| - 1;
      m := ChunksPrefix(calls[..n], i, b);
      assert calls[..n][..i] == calls[..i];
    }
  }

  lemma StreamPrefix(chunks: seq<seq<byte>>, m: nat)
    requires m <= |chunks|
    ensures |Stream(chunks[..m])| <= |Stream(chunks)|
    ensures Stream(chunks[..m]) == Stream(chunks)[..|Stream(chunks[..m])|]
  {
    hide Stream;
    if m == |chunks| {
      assert chunks[..m] == chunks;
    } else {
      ChunkInStream(chunks, m);
    }
  }

  lemma InputPrefix(d: Decoder, boards: set<int>, calls: seq<Call>, i: nat)
    requires WellFormedInput(d, boards, calls) && i <= |calls|
    ensures WellFormedInput(d, boards, calls[..i])
  {
    hide Stream, ChunksOf, Alternates, Fits;
    forall b | b in boards
      ensures Alternates(d, Stream(ChunksOf(calls[..i], b)))
    {
      var m := ChunksPrefix(calls, i, b);
      StreamPrefix(ChunksOf(calls, b), m);
      AlternatesPrefix(d, Stream(ChunksOf(calls, b)), |Stream(ChunksOf(calls, b)[..m])|);
    }
  }

  /** On such input a board completes one spill for each of its trailers. */
  lemma CompletesTrailers(d: Decoder, boards: set<int>, first: nat, calls: seq<Call>, b: int)
    requires Registered(Fresh(boards, first), calls) && b in boards && WellFormedInput(d, boards, calls)
    ensures Count(Collect(d, Fresh(boards, first).spills, calls).completed, b) == Trailers(d, calls, b)
  {
    hide Collect, Replay, OfBoard, ChunksOf, Stream, Offsets, Alternates, Tokens;
    var chunks := ChunksOf(calls, b);
    ChunksFit(d, calls, b);
    assert forall k :: 0 <= k < |chunks| ==> Fits(d, chunks[k]);
    AlternatingAccepted(d, chunks);
    CollectProjects(d, Fresh(boards, first).spills, calls, b);
  }

  /** Lockstep on the input: if headers and trailers alternate in the stream of each board, and
      containers hold whole words and at most one of each, then every recorded event holds exactly
      one fragment of each board, and the bank no two of one board, if and only if at every point
      the numbers of spill trailers received from any two boards differ by at most one. */
  lemma LockstepInputIff(d: Decoder, boards: set<int>, first: nat, calls: seq<Call>)
    requires 1 <= |boards| < TWO_TO_16 && first < TWO_TO_32
    requires Registered(Fresh(boards, first), calls) && WellFormedInput(d, boards, calls)
    ensures Complete(Run(d, Fresh(boards, first), calls), boards) <==>
            forall i :: 0 <= i <= |calls| ==> TrailersBalanced(d, calls[..i], boards)
  {
    hide Run, Collect, Complete, Count, Trailers, WellFormedInput;
    var s := Fresh(boards, first);
    LockstepIff(d, boards, first, calls);
    forall i | 0 <= i <= |calls|
      ensures Balanced(Collect(d, s.spills, calls[..i]).completed, boards) <==> TrailersBalanced(d, calls[..i], boards)
    {
      InputPrefix(d, boards, calls, i);
      forall b | b in boards
        ensures Count(Collect(d, s.spills, calls[..i]).completed, b) == Trailers(d, calls[..i], b)
      {
        CompletesTrailers(d, boards, first, calls[..i], b);
      }
    }
  }
}
