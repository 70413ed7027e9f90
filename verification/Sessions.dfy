/** The whole life of one event builder: cycles of initialisation, processing and closing, and any
    other order of these. */
module Sessions {
  import opened Bytes
  import opened SpillWords
  import opened SpillParser
  import opened SpillGrammar
  import opened FragmentRuns
  import opened EventModel
  import opened Wrappers

  /** Initialisation: fresh builders for these boards and an empty event bank. Builders of other
      boards stay; ids and recorded events go on. */
  function Opened(s: State, boards: set<int>): (r: State)
    ensures r.spills.Keys == s.spills.Keys + boards
  {
    s.(spills := s.spills + map b | b in boards :: Idle, pending := [])
  }

  /** Closing drops all builders and the event bank. */
  function Closed(s: State): State {
    s.(spills := map[], pending := [])
  }

  datatype Session = Session(boards: set<int>, calls: seq<Call>)
  {
    ghost predicate Legal() {
      forall i :: 0 <= i < |calls| ==> calls[i].board in boards
    }
  }

  ghost predicate AllLegal(xs: seq<Session>) {
    forall i :: 0 <= i < |xs| ==> xs[i].Legal()
  }

  /** A new event builder. */
  const BOOT: State := State(map[], [], 0, [])

  ghost function RunSessions(d: Decoder, xs: seq<Session>): (s: State)
    requires AllLegal(xs)
    ensures s.spills == map[] && s.pending == []
  {
    if xs == [] then BOOT
    else
      var n := |xs| - 1;
      assert xs[n].Legal();
      Closed(Run(d, Opened(RunSessions(d, xs[..n]), xs[n].boards), xs[n].calls))
  }

  /** The same fragments at the same times, with ids that count up from `first`. */
  function Renumbered(events: seq<Event>, first: nat): (r: seq<Event>)
    ensures |r| == |events|
  {
    seq(|events|, k requires 0 <= k < |events| => events[k].(id := (first + k) % TWO_TO_32))
  }

  /** Two states that differ only in what was recorded before: `r` goes on after `old` and from id
      `first`, `s` starts with nothing. */
  ghost predicate Shifted(s: State, r: State, earlier: seq<Event>, first: nat) {
    && r.spills == s.spills && r.pending == s.pending
    && r.events == earlier + Renumbered(s.events, first)
    && r.nextId == (first + |s.events|) % TWO_TO_32
  }

  lemma ShiftedEmit(s: State, r: State, earlier: seq<Event>, first: nat, now: nat)
    requires Shifted(s, r, earlier, first)
    ensures Shifted(Emit(s, now), Emit(r, now), earlier, first)
  {
    if |s.pending| % TWO_TO_16 == |s.spills| {
      var e := Event(s.nextId, now, s.pending);
      var f := Event(r.nextId, now, s.pending);
      assert Renumbered(s.events + [e], first) == Renumbered(s.events, first) + [f];
      ModAdd(first + |s.events|, 1, TWO_TO_32);
      assert r.events + [f] == earlier + (Renumbered(s.events, first) + [f]);
    }
  }

  /** What happens does not depend on ids or on earlier events. */
  lemma {:induction false} RunShifts(d: Decoder, s: State, r: State, earlier: seq<Event>, first: nat, calls: seq<Call>)
    requires Shifted(s, r, earlier, first) && Registered(s, calls)
    ensures Shifted(Run(d, s, calls), Run(d, r, calls), earlier, first)
  {
    hide Feed, Emit, Tokens, Tag, Renumbered;
    if calls == [] {
    } else {
      var n := |calls| - 1;
      RunShifts(d, s, r, earlier, first, calls[..n]);
      var s1, r1, c := Run(d, s, calls[..n]), Run(d, r, calls[..n]), calls[n];
      var p := Feed(d, s1.spills[c.board], Tokens(c.bytes));
      ShiftedEmit(s1.(spills := s1.spills[c.board := p.spill], pending := s1.pending + Tag(c.board, p.done)),
                  r1.(spills := s1.spills[c.board := p.spill], pending := s1.pending + Tag(c.board, p.done)),
                  earlier, first, c.now);
    }
  }

  /** Each cycle records what it would record alone in a new event builder, under the next free
      ids: no spill and no fragment of an earlier cycle gets into it. */
  lemma SessionIndependent(d: Decoder, xs: seq<Session>, x: Session)
    requires AllLegal(xs) && x.Legal()
    ensures AllLegal(xs + [x])
    ensures var before := RunSessions(d, xs);
            RunSessions(d, xs + [x]).events ==
            before.events + Renumbered(Run(d, Fresh(x.boards, 0), x.calls).events, before.nextId)
  {
    hide Run, Renumbered, RunSessions;
    SessionSnoc(d, xs, x);
    var before := RunSessions(d, xs);
    SessionsNumbered(d, xs);
    var s, r := Fresh(x.boards, 0), Opened(before, x.boards);
    StartsShifted(before, x.boards);
    RunShifts(d, s, r, before.events, before.nextId, x.calls);
  }

  lemma SessionSnoc(d: Decoder, xs: seq<Session>, x: Session)
    requires AllLegal(xs) && x.Legal()
    ensures AllLegal(xs + [x])
    ensures RunSessions(d, xs + [x]) == Closed(Run(d, Opened(RunSessions(d, xs), x.boards), x.calls))
  {
    hide Run;
    var all := xs + [x];
    assert all[..|xs|] == xs && all[|xs|] == x;
  }

  lemma StartsShifted(before: State, boards: set<int>)
    requires before.spills == map[] && before.nextId < TWO_TO_32
    ensures Shifted(Fresh(boards, 0), Opened(before, boards), before.events, before.nextId)
  {
    assert Fresh(boards, 0).spills == Opened(before, boards).spills;
    assert Renumbered([], before.nextId) == [];
  }

  /** Event ids count up from 0 modulo 2^32 over all cycles. */
  ghost predicate Numbered(s: State) {
    && s.nextId == |s.events| % TWO_TO_32
    && forall k :: 0 <= k < |s.events| ==> s.events[k].id == k % TWO_TO_32
  }

  lemma {:induction false} RunNumbered(d: Decoder, s: State, calls: seq<Call>)
    requires Numbered(s) && Registered(s, calls)
    ensures Numbered(Run(d, s, calls))
  {
    hide Feed, Tokens, Tag, Numbered;
    if calls == [] {
    } else {
      var n := |calls| - 1;
      RunNumbered(d, s, calls[..n]);
      ProcessNumbered(d, Run(d, s, calls[..n]), calls[n]);
    }
  }

  lemma ProcessNumbered(d: Decoder, s: State, c: Call)
    requires Numbered(s) && c.board in s.spills
    ensures Numbered(Process(d, s, c))
  {
    hide Feed, Tokens, Tag;
    ModAdd(|s.events|, 1, TWO_TO_32);
  }

  /** Numbering over any number of cycles, whatever the numbers of boards and the errors. */
  lemma {:induction false} SessionsNumbered(d: Decoder, xs: seq<Session>)
    requires AllLegal(xs)
    ensures Numbered(RunSessions(d, xs))
  {
    hide Run;
    if xs == [] {
    } else {
      var n := |xs| - 1;
      assert xs[n].Legal();
      SessionsNumbered(d, xs[..n]);
      RunNumbered(d, Opened(RunSessions(d, xs[..n]), xs[n].boards), xs[n].calls);
    }
  }

  // ---------------------------------------------- any order of operations

  /** Everything that can be done to an event builder, in any order: it may also be initialised
      again without being closed. */
  datatype Op = Start(boards: set<int>) | Container(call: Call) | Stop

  /** The boards that have a builder. */
  ghost function BoardsOf(ops: seq<Op>): set<int> {
    if ops == [] then {} else BoardsAfter(BoardsOf(ops[..|ops| - 1]), ops[|ops| - 1])
  }

  function BoardsAfter(before: set<int>, op: Op): set<int> {
    match op
    case Start(boards) => before + boards
    case Container(_) => before
    case Stop => {}
  }

  /** Containers come only from boards that have a builder. */
  ghost predicate LegalOps(ops: seq<Op>) {
    ops == [] ||
    var init, op := ops[..|ops| - 1], ops[|ops| - 1];
    LegalOps(init) && (op.Container? ==> op.call.board in BoardsOf(init))
  }

  ghost function Apply(d: Decoder, s: State, op: Op): State
    requires op.Container? ==> op.call.board in s.spills
  {
    match op
    case Start(boards) => Opened(s, boards)
    case Container(c) => Process(d, s, c)
    case Stop => Closed(s)
  }

  ghost function RunOps(d: Decoder, ops: seq<Op>): (s: State)
    requires LegalOps(ops)
    ensures s.spills.Keys == BoardsOf(ops)
  {
    if ops == [] then BOOT else Apply(d, RunOps(d, ops[..|ops| - 1]), ops[|ops| - 1])
  }

  lemma OpsSnoc(d: Decoder, ops: seq<Op>, op: Op)
    requires LegalOps(ops) && (op.Container? ==> op.call.board in BoardsOf(ops))
    ensures LegalOps(ops + [op])
    ensures RunOps(d, ops + [op]) == Apply(d, RunOps(d, ops), op)
  {
    hide Apply;
    assert (ops + [op])[..|ops|] == ops;
  }

  ghost predicate AllSound(d: Decoder, frs: seq<Fragment>) {
    forall i :: 0 <= i < |frs| ==> WellFormed(d, frs[i].words)
  }

  /** What every order of operations keeps: held spills have the right shape, fragments are well
      formed, events have less than 2^16 of them, and the bank is not overfull. */
  ghost predicate Sound(d: Decoder, s: State) {
    && (forall b :: b in s.spills ==> Shaped(d, s.spills[b]))
    && AllSound(d, s.pending)
    && (forall k :: 0 <= k < |s.events| ==> AllSound(d, s.events[k].fragments) && |s.events[k].fragments| < TWO_TO_16)
    && (|s.spills| < TWO_TO_16 ==> s.pending == [] || |s.pending| < |s.spills|)
  }

  lemma EmitSound(d: Decoder, s: State, now: nat)
    requires AllSound(d, s.pending) && forall b :: b in s.spills ==> Shaped(d, s.spills[b])
    requires forall k :: 0 <= k < |s.events| ==>
               AllSound(d, s.events[k].fragments) && |s.events[k].fragments| < TWO_TO_16
    requires |s.spills| < TWO_TO_16 ==> |s.pending| <= |s.spills|
    ensures Sound(d, Emit(s, now))
  {
    hide AllSound, Shaped;
    if |s.spills| < TWO_TO_16 {
      CountFits(|s.pending|);
    }
    NoFragments(d);
  }

  lemma NoFragments(d: Decoder)
    ensures AllSound(d, [])
  {
  }

  lemma TagSound(d: Decoder, frs: seq<Fragment>, board: int, done: seq<seq<Token>>)
    requires AllSound(d, frs) && AllWellFormed(d, done)
    ensures AllSound(d, frs + Tag(board, done))
  {
    hide WellFormed;
  }

  lemma ProcessSound(d: Decoder, s: State, c: Call)
    requires Sound(d, s) && c.board in s.spills
    ensures Sound(d, Process(d, s, c))
  {
    hide Feed, Tokens, Shaped, AllSound, AllWellFormed, Tag, Emit;
    var p := Feed(d, s.spills[c.board], Tokens(c.bytes));
    FeedShapes(d, s.spills[c.board], Tokens(c.bytes));
    AtMostOne(d, s.spills[c.board], Tokens(c.bytes));
    TagSound(d, s.pending, c.board, p.done);
    var spills := s.spills[c.board := p.spill];
    assert spills.Keys == s.spills.Keys;
    SameSize(spills, s.spills);
    OneBoardAtLeast(s.spills, c.board);
    var fed := s.(spills := spills, pending := s.pending + Tag(c.board, p.done));
    if p.fault.None? {
      EmitSound(d, fed, c.now);
    } else {
      assert fed.pending == s.pending;
    }
  }

  lemma OneBoardAtLeast<V>(m: map<int, V>, b: int)
    requires b in m
    ensures |m| >= 1
  {
    assert |m.Keys| == |m|;
    assert {b} <= m.Keys;
    assert m.Keys == {b} + (m.Keys - {b});
  }

  lemma StartSound(d: Decoder, s: State, boards: set<int>)
    requires Sound(d, s)
    ensures Sound(d, Opened(s, boards)) && Sound(d, Closed(s))
  {
    hide AllSound;
    NoFragments(d);
  }

  /** Over any order of operations, whatever the containers hold: ids count up from 0 modulo 2^32,
      and all that is held, pending or recorded is sound. */
  lemma {:induction false} OpsSound(d: Decoder, ops: seq<Op>)
    requires LegalOps(ops)
    ensures Numbered(RunOps(d, ops)) && Sound(d, RunOps(d, ops))
  {
    hide Process, Numbered, Sound, Opened, Closed;
    if ops == [] {
      BootSound(d);
    } else {
      var s, op := RunOps(d, ops[..|ops| - 1]), ops[|ops| - 1];
      OpsSound(d, ops[..|ops| - 1]);
      match op {
        case Start(boards) =>
          StartSound(d, s, boards);
          StartNumbered(s, boards);
        case Container(c) =>
          ProcessSound(d, s, c);
          ProcessNumbered(d, s, c);
        case Stop =>
          StartSound(d, s, {});
          StartNumbered(s, {});
      }
    }
  }

  lemma BootSound(d: Decoder)
    ensures Numbered(BOOT) && Sound(d, BOOT)
  {
  }

  lemma StartNumbered(s: State, boards: set<int>)
    requires Numbered(s)
    ensures Numbered(Opened(s, boards)) && Numbered(Closed(s))
  {
  }

  /** Event `k` is recorded by the `i`-th operation, a container. */
  ghost predicate RecordedByOp(d: Decoder, ops: seq<Op>, i: int, k: nat) {
    && 0 <= i < |ops| && ops[i].Container?
    && LegalOps(ops[..i]) && |RunOps(d, ops[..i]).events| == k
    && LegalOps(ops[..i + 1]) && |RunOps(d, ops[..i + 1]).events| == k + 1
  }

  /** Over any order of operations, each event carries the time of the container that records it. */
  lemma {:induction false} OpsStamp(d: Decoder, ops: seq<Op>, k: nat) returns (i: nat)
    requires LegalOps(ops) && k < |RunOps(d, ops).events|
    ensures RecordedByOp(d, ops, i, k) && RunOps(d, ops).events[k].time == ops[i].call.now
  {
    hide Process;
    if ops == [] {
      assert false;
    } else {
      var n := |ops| - 1;
      var q, r := RunOps(d, ops[..n]).events, RunOps(d, ops).events;
      OpStamps(d, RunOps(d, ops[..n]), ops[n]);
      if k < |q| {
        i := OpsStamp(d, ops[..n], k);
        assert ops[..n][..i] == ops[..i] && ops[..n][..i + 1] == ops[..i + 1];
        assert r[..|q|][k] == q[k];
      } else {
        i := n;
        assert ops[..n + 1] == ops;
      }
    }
  }

  lemma OpStamps(d: Decoder, s: State, op: Op)
    requires op.Container? ==> op.call.board in s.spills
    ensures var r, n := Apply(d, s, op).events, |s.events|;
            && n <= |r| <= n + 1 && r[..n] == s.events
            && (|r| == n + 1 ==> op.Container? && r[n].time == op.call.now)
  {
    hide Process;
    if op.Container? {
      ProcessStamps(d, s, op.call);
    }
  }

  lemma {:induction false} OpsStay(d: Decoder, ops: seq<Op>, i: nat)
    requires LegalOps(ops) && i <= |ops|
    ensures LegalOps(ops[..i]) && RunOps(d, ops[..i]).events <= RunOps(d, ops).events
  {
    hide Apply;
    if i == |ops| {
      assert ops[..i] == ops;
    } else {
      var n := |ops| - 1;
      OpsStay(d, ops[..n], i);
      assert ops[..n][..i] == ops[..i];
      OpStamps(d, RunOps(d, ops[..n]), ops[n]);
    }
  }

  /** No other operation records the event. */
  lemma RecordedByOneOp(d: Decoder, ops: seq<Op>, i: int, j: int, k: nat)
    requires RecordedByOp(d, ops, i, k) && RecordedByOp(d, ops, j, k)
    ensures i == j
  {
    hide RunOps, LegalOps;
    if i < j {
      assert ops[..j][..i + 1] == ops[..i + 1];
      OpsStay(d, ops[..j], i + 1);
    } else if j < i {
      assert ops[..i][..j + 1] == ops[..j + 1];
      OpsStay(d, ops[..i], j + 1);
    }
  }

  function Containers(calls: seq<Call>): (ops: seq<Op>)
    ensures |ops| == |calls|
  {
    seq(|calls|, i requires 0 <= i < |calls| => Container(calls[i]))
  }

  /** Containers one after the other are a run from where things stand. */
  lemma {:induction false} OpsOfRun(d: Decoder, ops: seq<Op>, calls: seq<Call>)
    requires LegalOps(ops) && forall i :: 0 <= i < |calls| ==> calls[i].board in BoardsOf(ops)
    ensures LegalOps(ops + Containers(calls)) && BoardsOf(ops + Containers(calls)) == BoardsOf(ops)
    ensures RunOps(d, ops + Containers(calls)) == Run(d, RunOps(d, ops), calls)
  {
    hide Process, LegalOps, RunOps, BoardsOf;
    if calls == [] {
      assert ops + Containers(calls) == ops;
    } else {
      var n := |calls| - 1;
      var before := ops + Containers(calls[..n]);
      OpsOfRun(d, ops, calls[..n]);
      assert ops + Containers(calls) == before + [Container(calls[n])];
      OpsSnoc(d, before, Container(calls[n]));
      BoardsSnoc(before, Container(calls[n]));
    }
  }

  lemma BoardsSnoc(ops: seq<Op>, op: Op)
    ensures BoardsOf(ops + [op]) == BoardsAfter(BoardsOf(ops), op)
  {
    assert (ops + [op])[..|ops|] == ops;
  }

  /** The operations of these cycles. */
  function OpsOf(xs: seq<Session>): seq<Op> {
    if xs == [] then []
    else
      var x := xs[|xs| - 1];
      OpsOf(xs[..|xs| - 1]) + [Start(x.boards)] + Containers(x.calls) + [Stop]
  }

  /** Cycles are a special order of operations. */
  lemma {:induction false} SessionsAreOps(d: Decoder, xs: seq<Session>)
    requires AllLegal(xs)
    ensures LegalOps(OpsOf(xs)) && RunOps(d, OpsOf(xs)) == RunSessions(d, xs) && BoardsOf(OpsOf(xs)) == {}
  {
    hide Run, LegalOps, RunOps, BoardsOf;
    if xs == [] {
      NoOps(d);
    } else {
      var n := |xs| - 1;
      var x, before := xs[n], OpsOf(xs[..n]);
      assert x.Legal();
      SessionsAreOps(d, xs[..n]);
      OpsSnoc(d, before, Start(x.boards));
      BoardsSnoc(before, Start(x.boards));
      OpsOfRun(d, before + [Start(x.boards)], x.calls);
      OpsSnoc(d, before + [Start(x.boards)] + Containers(x.calls), Stop);
      BoardsSnoc(before + [Start(x.boards)] + Containers(x.calls), Stop);
    }
  }

  lemma NoOps(d: Decoder)
    ensures LegalOps([]) && RunOps(d, []) == BOOT && BoardsOf([]) == {}
  {
  }

  /** With 2^16 boards or more the 16-bit fragment count never reaches their number, so no event
      is ever recorded: the bound on the number of boards cannot be dropped. */
  lemma {:induction false} TooManyBoards(d: Decoder, s: State, calls: seq<Call>)
    requires |s.spills| >= TWO_TO_16 && Registered(s, calls)
    ensures Run(d, s, calls).events == s.events
  {
    hide Feed, Tokens, Tag;
    if calls == [] {
    } else {
      var n := |calls| - 1;
      TooManyBoards(d, s, calls[..n]);
      var r := Run(d, s, calls[..n]);
      var p := Feed(d, r.spills[calls[n].board], Tokens(calls[n].bytes));
      SameSize(r.spills[calls[n].board := p.spill], s.spills);
    }
  }
}
