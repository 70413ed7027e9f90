/** Many boards into one stream of events: what one container does to the whole event builder,
    and what every run of it keeps. */
module EventModel {
  import opened Bytes
  import opened SpillWords
  import opened SpillParser
  import opened SpillGrammar
  import opened FragmentRuns
  import opened EventLayout
  import opened Wrappers

  /** A completed spill and the board whose builder completed it. */
  datatype Fragment = Fragment(board: int, words: seq<Token>)

  datatype Event = Event(id: nat, time: nat, fragments: seq<Fragment>)

  /** The spills held for each board, the fragments in the event bank, the id of the next event,
      and the events recorded. */
  datatype State = State(spills: map<int, Spill>, pending: seq<Fragment>, nextId: nat, events: seq<Event>)

  /** One scanned container, and the time stamp an event gets if it is completed by it. */
  datatype Call = Call(board: int, bytes: seq<byte>, now: nat)

  function Tag(board: int, done: seq<seq<Token>>): (frs: seq<Fragment>)
    ensures |frs| == |done|
  {
    seq(|done|, i requires 0 <= i < |done| => Fragment(board, done[i]))
  }

  /** The words of the fragments, without the boards. */
  function Words(frs: seq<Fragment>): (ws: seq<seq<Token>>)
    ensures |ws| == |frs|
  {
    seq(|frs|, i requires 0 <= i < |frs| => frs[i].words)
  }

  /** The bytes recorded for an event. */
  function EventImage(e: Event): seq<byte> {
    EventBytes(e.id, e.time, Words(e.fragments))
  }

  /** The 16-bit fragment count of the bank is compared with the number of boards. */
  function Emit(s: State, now: nat): State {
    if |s.pending| % TWO_TO_16 == |s.spills| then
      State(s.spills, [], (s.nextId + 1) % TWO_TO_32, s.events + [Event(s.nextId, now, s.pending)])
    else s
  }

  function Process(d: Decoder, s: State, c: Call): (r: State)
    requires c.board in s.spills
    ensures r.spills.Keys == s.spills.Keys
  {
    var p := Feed(d, s.spills[c.board], Tokens(c.bytes));
    var fed := s.(spills := s.spills[c.board := p.spill], pending := s.pending + Tag(c.board, p.done));
    if p.fault.Some? then fed else Emit(fed, c.now)
  }

  ghost predicate Registered(s: State, calls: seq<Call>) {
    forall i :: 0 <= i < |calls| ==> calls[i].board in s.spills
  }

  ghost function Run(d: Decoder, s: State, calls: seq<Call>): (r: State)
    requires Registered(s, calls)
    ensures r.spills.Keys == s.spills.Keys
  {
    if calls == [] then s else Process(d, Run(d, s, calls[..|calls| - 1]), calls[|calls| - 1])
  }

  /** What a fresh event builder starts from. */
  function Fresh(boards: set<int>, nextId: nat): (s: State)
    ensures s.spills.Keys == boards
  {
    State(map b | b in boards :: Idle, [], nextId, [])
  }

  // ------------------------------------------- the same without any events

  /** The boards and the order in which they complete spills; nothing else. */
  datatype Output = Output(spills: map<int, Spill>, completed: seq<Fragment>)

  ghost function Collect(d: Decoder, spills: map<int, Spill>, calls: seq<Call>): (r: Output)
    requires forall i :: 0 <= i < |calls| ==> calls[i].board in spills
    ensures r.spills.Keys == spills.Keys
  {
    if calls == [] then Output(spills, [])
    else
      var n := |calls| - 1;
      var o := Collect(d, spills, calls[..n]);
      var p := Feed(d, o.spills[calls[n].board], Tokens(calls[n].bytes));
      Output(o.spills[calls[n].board := p.spill], o.completed + Tag(calls[n].board, p.done))
  }

  /** All fragments that are in recorded events. */
  function Recorded(events: seq<Event>): seq<Fragment> {
    if events == [] then [] else Recorded(events[..|events| - 1]) + events[|events| - 1].fragments
  }

  /** A call adds what it completes behind what was completed before, recorded or not. */
  lemma ProcessFlattens(d: Decoder, s: State, c: Call)
    requires c.board in s.spills
    ensures var p, r := Feed(d, s.spills[c.board], Tokens(c.bytes)), Process(d, s, c);
            && r.spills == s.spills[c.board := p.spill]
            && Recorded(r.events) + r.pending == Recorded(s.events) + s.pending + Tag(c.board, p.done)
  {
    hide Feed, Recorded, Tokens;
    var p, r := Feed(d, s.spills[c.board], Tokens(c.bytes)), Process(d, s, c);
    var bank := s.pending + Tag(c.board, p.done);
    assert Recorded(s.events) + bank == Recorded(s.events) + s.pending + Tag(c.board, p.done);
    if r.events != s.events {
      RecordedSnoc(s.events, Event(s.nextId, c.now, bank));
    }
  }

  /** Grouping into events neither loses nor reorders a completed fragment, whatever the number of
      boards. */
  lemma {:induction false} RunFlattens(d: Decoder, s: State, calls: seq<Call>)
    requires Registered(s, calls)
    ensures var r, o := Run(d, s, calls), Collect(d, s.spills, calls);
            && r.spills == o.spills
            && Recorded(r.events) + r.pending == Recorded(s.events) + s.pending + o.completed
  {
    hide Feed, Recorded, Process, Tag, Tokens;
    var before := Recorded(s.events) + s.pending;
    if calls == [] {
      assert before + [] == before;
    } else {
      var n := |calls| - 1;
      RunFlattens(d, s, calls[..n]);
      var r, o := Run(d, s, calls[..n]), Collect(d, s.spills, calls[..n]);
      ProcessFlattens(d, r, calls[n]);
      var more := Tag(calls[n].board, Feed(d, r.spills[calls[n].board], Tokens(calls[n].bytes)).done);
      assert before + o.completed + more == before + (o.completed + more);
    }
  }

  lemma FreshFlattens(d: Decoder, boards: set<int>, first: nat, calls: seq<Call>)
    requires Registered(Fresh(boards, first), calls)
    ensures var s := Fresh(boards, first);
            var r, o := Run(d, s, calls), Collect(d, s.spills, calls);
            r.spills == o.spills && Recorded(r.events) + r.pending == o.completed
  {
    hide Run, Collect;
    var s := Fresh(boards, first);
    RunFlattens(d, s, calls);
    assert Recorded(s.events) + s.pending == [];
    assert [] + Collect(d, s.spills, calls).completed == Collect(d, s.spills, calls).completed;
  }

  /** Ids count up from `first`, and every event has `n` fragments. */
  ghost predicate Regular(events: seq<Event>, first: nat, n: nat) {
    forall k :: 0 <= k < |events| ==> events[k].id == (first + k) % TWO_TO_32 && |events[k].fragments| == n
  }

  /** What every run keeps: the events take the completed fragments in groups of as many as there
      are boards, and the bank holds fewer than that. */
  ghost predicate Grouped(s: State, o: Output, first: nat) {
    && s.spills == o.spills
    && Recorded(s.events) + s.pending == o.completed
    && Regular(s.events, first, |s.spills|)
    && s.nextId == (first + |s.events|) % TWO_TO_32
    && |s.pending| < |s.spills|
  }

  lemma GroupedStep(d: Decoder, s: State, o: Output, first: nat, c: Call)
    requires Grouped(s, o, first) && c.board in s.spills && |s.spills| < TWO_TO_16
    ensures var p := Feed(d, o.spills[c.board], Tokens(c.bytes));
            Grouped(Process(d, s, c),
                    Output(o.spills[c.board := p.spill], o.completed + Tag(c.board, p.done)), first)
  {
    hide Feed;
    var p := Feed(d, o.spills[c.board], Tokens(c.bytes));
    AtMostOne(d, o.spills[c.board], Tokens(c.bytes));
    var spills := s.spills[c.board := p.spill];
    assert spills.Keys == s.spills.Keys;
    SameSize(spills, s.spills);
    var fed := s.(spills := spills, pending := s.pending + Tag(c.board, p.done));
    assert Recorded(s.events) + fed.pending == o.completed + Tag(c.board, p.done);
    if p.fault.None? {
      EmitGroups(fed, Output(spills, o.completed + Tag(c.board, p.done)), first, c.now);
    } else {
      assert fed.pending == s.pending;
    }
  }

  lemma SameSize<V, W>(a: map<int, V>, b: map<int, W>)
    requires a.Keys == b.Keys
    ensures |a| == |b|
  {
    assert |a| == |a.Keys| && |b| == |b.Keys|;
  }

  lemma EmitGroups(s: State, o: Output, first: nat, now: nat)
    requires s.spills == o.spills && |s.spills| < TWO_TO_16
    requires Recorded(s.events) + s.pending == o.completed
    requires Regular(s.events, first, |s.spills|) && s.nextId == (first + |s.events|) % TWO_TO_32
    requires |s.pending| <= |s.spills| && 1 <= |s.spills|
    ensures Grouped(Emit(s, now), o, first)
  {
    hide Recorded;
    CountFits(|s.pending|);
    if |s.pending| == |s.spills| {
      var e := Event(s.nextId, now, s.pending);
      var rec := Recorded(s.events);
      RecordedSnoc(s.events, e);
      assert rec + s.pending + [] == rec + s.pending;
      ModAdd(first + |s.events|, 1, TWO_TO_32);
    }
  }

  lemma CountFits(n: nat)
    requires n < TWO_TO_16
    ensures n % TWO_TO_16 == n
  {
  }

  lemma RecordedSnoc(events: seq<Event>, e: Event)
    ensures Recorded(events + [e]) == Recorded(events) + e.fragments
  {
    assert (events + [e])[..|events|] == events;
  }

  /** The grouping holds after every run from a fresh start, whatever the calls. */
  lemma {:induction false} RunGroups(d: Decoder, boards: set<int>, first: nat, calls: seq<Call>)
    requires 1 <= |boards| < TWO_TO_16 && first < TWO_TO_32
    requires Registered(Fresh(boards, first), calls)
    ensures var s := Fresh(boards, first);
            Grouped(Run(d, s, calls), Collect(d, s.spills, calls), first) && |s.spills| == |boards|
  {
    hide Feed, Grouped, Process;
    var s := Fresh(boards, first);
    assert s.spills.Keys == boards && |s.spills| == |s.spills.Keys|;
    if calls == [] {
      FreshGrouped(s, first);
    } else {
      var n := |calls| - 1;
      RunGroups(d, boards, first, calls[..n]);
      var r, o := Run(d, s, calls[..n]), Collect(d, s.spills, calls[..n]);
      SameSize(r.spills, s.spills);
      GroupedStep(d, r, o, first, calls[n]);
    }
  }

  lemma FreshGrouped(s: State, first: nat)
    requires s.events == [] && s.pending == [] && s.nextId == first < TWO_TO_32 && |s.spills| >= 1
    ensures Grouped(s, Output(s.spills, []), first)
  {
  }

  /** `frs` is the `k`-th group of `n`. */
  ghost predicate IsGroup(all: seq<Fragment>, k: nat, n: nat, frs: seq<Fragment>) {
    0 <= k * n && k * n + n <= |all| && all[k * n..k * n + n] == frs
  }

  lemma GroupStays(all: seq<Fragment>, more: seq<Fragment>, k: nat, n: nat, frs: seq<Fragment>)
    requires IsGroup(all, k, n, frs)
    ensures IsGroup(all + more, k, n, frs)
  {
    var i, j := k * n, k * n + n;
    assert (all + more)[i..j] == all[i..j];
  }

  lemma {:induction false} GroupAt(events: seq<Event>, k: nat, n: nat)
    requires k < |events| && forall i :: 0 <= i < |events| ==> |events[i].fragments| == n
    ensures |Recorded(events)| == |events| * n
    ensures IsGroup(Recorded(events), k, n, events[k].fragments)
    decreases |events|
  {
    hide IsGroup;
    var m := |events| - 1;
    var init := events[..m];
    RecordedLength(init, n);
    RecordedLength(events, n);
    if k < m {
      GroupAt(init, k, n);
      GroupStays(Recorded(init), events[m].fragments, k, n, events[k].fragments);
    } else {
      LastGroup(Recorded(init), m, n, events[m].fragments);
    }
  }

  lemma LastGroup(all: seq<Fragment>, k: nat, n: nat, frs: seq<Fragment>)
    requires |all| == k * n && |frs| == n
    ensures IsGroup(all + frs, k, n, frs)
  {
    var i := k * n;
    assert (all + frs)[i..i + n] == frs;
  }

  lemma {:induction false} RecordedLength(events: seq<Event>, n: nat)
    requires forall i :: 0 <= i < |events| ==> |events[i].fragments| == n
    ensures |Recorded(events)| == |events| * n
  {
    if events == [] {
    } else {
      var m := |events| - 1;
      RecordedLength(events[..m], n);
      assert |events| * n == m * n + n;
    }
  }

  /** Grouped fragments can be read off slice by slice. */
  lemma GroupedSlices(s: State, o: Output, first: nat)
    requires Grouped(s, o, first)
    ensures var n := |s.spills|;
            && |s.events| * n <= |o.completed| < |s.events| * n + n
            && s.pending == o.completed[|s.events| * n..]
            && forall k :: 0 <= k < |s.events| ==> IsGroup(o.completed, k, n, s.events[k].fragments)
  {
    hide IsGroup, Recorded;
    var n := |s.spills|;
    var rec := Recorded(s.events);
    RecordedLength(s.events, n);
    assert o.completed[|rec|..] == s.pending;
    forall k | 0 <= k < |s.events|
      ensures IsGroup(o.completed, k, n, s.events[k].fragments)
    {
      GroupAt(s.events, k, n);
      GroupStays(rec, s.pending, k, n, s.events[k].fragments);
    }
  }

  // ------------------------------------------------------------ time stamps

  /** A container adds at most one event, which carries the time the container came with; earlier
      events stay. */
  lemma ProcessStamps(d: Decoder, s: State, c: Call)
    requires c.board in s.spills
    ensures var r, n := Process(d, s, c).events, |s.events|;
            && n <= |r| <= n + 1 && r[..n] == s.events
            && (|r| == n + 1 ==> r[n].time == c.now)
  {
    hide Feed, Tokens, Tag;
  }

  /** Event `k` is recorded when the `i`-th call comes. */
  ghost predicate RecordedBy(d: Decoder, s: State, calls: seq<Call>, i: int, k: nat)
    requires Registered(s, calls)
  {
    0 <= i < |calls| && |Run(d, s, calls[..i]).events| == k && |Run(d, s, calls[..i + 1]).events| == k + 1
  }

  lemma RecordedInside(d: Decoder, s: State, calls: seq<Call>, i: int, k: nat)
    requires Registered(s, calls) && RecordedBy(d, s, calls, i, k)
    ensures 0 <= i < |calls|
  {
  }

  /** Over every run, from any state, each new event carries the time of the call that records it. */
  lemma {:induction false} RunStamps(d: Decoder, s: State, calls: seq<Call>, k: nat) returns (i: nat)
    requires Registered(s, calls) && |s.events| <= k < |Run(d, s, calls).events|
    ensures RecordedBy(d, s, calls, i, k) && Run(d, s, calls).events[k].time == calls[i].now
  {
    hide Process;
    if calls == [] {
      assert false;
    } else {
      var n := |calls| - 1;
      var q := Run(d, s, calls[..n]).events;
      ProcessStamps(d, Run(d, s, calls[..n]), calls[n]);
      if k < |q| {
        i := RunStamps(d, s, calls[..n], k);
        assert calls[..n][..i] == calls[..i] && calls[..n][..i + 1] == calls[..i + 1];
        assert Run(d, s, calls).events[..|q|][k] == q[k];
      } else {
        i := n;
        assert calls[..n + 1] == calls;
      }
    }
  }

  /** Recorded events stay as they are. */
  lemma {:induction false} EventsStay(d: Decoder, s: State, calls: seq<Call>, i: nat)
    requires Registered(s, calls) && i <= |calls|
    ensures Run(d, s, calls[..i]).events <= Run(d, s, calls).events
  {
    hide Process;
    if i == |calls| {
      assert calls[..i] == calls;
    } else {
      var n := |calls| - 1;
      EventsStay(d, s, calls[..n], i);
      assert calls[..n][..i] == calls[..i];
      ProcessStamps(d, Run(d, s, calls[..n]), calls[n]);
    }
  }

  /** No other call records the event. */
  lemma RecordedOnce(d: Decoder, s: State, calls: seq<Call>, i: nat, j: nat, k: nat)
    requires Registered(s, calls) && RecordedBy(d, s, calls, i, k) && RecordedBy(d, s, calls, j, k)
    ensures i == j
  {
    hide Run;
    if i < j {
      assert calls[..j][..i + 1] == calls[..i + 1];
      EventsStay(d, s, calls[..j], i + 1);
    } else if j < i {
      assert calls[..i][..j + 1] == calls[..j + 1];
      EventsStay(d, s, calls[..i], j + 1);
    }
  }

  /** Grouping: from a fresh start, whatever the calls, errors included, the recorded events are
      the consecutive groups of completed fragments, one fragment for each registered board by
      number, with consecutive ids; what is left over is in the event bank. */
  lemma EventsAreGroups(d: Decoder, boards: set<int>, first: nat, calls: seq<Call>)
    requires 1 <= |boards| < TWO_TO_16 && first < TWO_TO_32
    requires Registered(Fresh(boards, first), calls)
    ensures var s := Fresh(boards, first);
            var r, all, n := Run(d, s, calls), Collect(d, s.spills, calls).completed, |boards|;
            && |r.events| * n <= |all| < |r.events| * n + n
            && r.pending == all[|r.events| * n..]
            && (forall k :: 0 <= k < |r.events| ==> IsGroup(all, k, n, r.events[k].fragments))
            && (forall k :: 0 <= k < |r.events| ==> r.events[k].id == (first + k) % TWO_TO_32)
  {
    hide Run, Collect, Recorded, IsGroup, Process;
    RunGroups(d, boards, first, calls);
    var s := Fresh(boards, first);
    var r := Run(d, s, calls);
    SameSize(r.spills, s.spills);
    GroupedSlices(r, Collect(d, s.spills, calls), first);
  }
}
