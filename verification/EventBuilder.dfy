/** The worker that sends each container to the builder of its board and records an event when
    as many fragments are complete as there are boards. */
module EventBuilder {
  import opened Bytes
  import opened SpillWords
  import opened DataHeaders
  import opened DataContainer
  import opened DataScanner
  import opened MemBank
  import opened SpillParser
  import opened SpillGrammar
  import opened Completeness
  import opened EventLayout
  import opened EventReader
  import opened FragmentBuilder
  import opened SizeHeader
  import opened EventModel
  import Sessions
  import opened Wrappers

  /** Files are not part of this model: a recorder is the list of what was written. */
  class UFEDataRecorder {
    var written: seq<seq<byte>>

    constructor ()
      ensures written == []
    {
      written := [];
    }

    method Write(bank: BMDMemBank)
      modifies this
      ensures written == old(written) + [bank.data.bytes]
    {
      written := written + [bank.data.bytes];
    }
  }

  /** What was written is the events, byte by byte. */
  ghost predicate Images(written: seq<seq<byte>>, events: seq<Event>) {
    |written| == |events| && forall k :: 0 <= k < |events| ==> written[k] == EventImage(events[k])
  }

  /** The boards of the list start over, one after the other. */
  function Renewed(spills: map<int, Spill>, boards: seq<int>): map<int, Spill> {
    if boards == [] then spills else Renewed(spills, boards[..|boards| - 1])[boards[|boards| - 1] := Idle]
  }

  /** The order of the boards does not matter. */
  lemma {:induction false} RenewedOpens(s: State, boards: seq<int>)
    ensures Sessions.Opened(s, set b | b in boards) == s.(spills := Renewed(s.spills, boards), pending := [])
  {
    if boards == [] {
      assert (set b: int | b in []) == {};
      assert Sessions.Opened(s, {}).spills == s.spills;
    } else {
      var n := |boards| - 1;
      RenewedOpens(s, boards[..n]);
      BoardsSnoc(boards);
      OpenedOneMore(s, (set b | b in boards[..n]), boards[n]);
    }
  }

  lemma BoardsSnoc(boards: seq<int>)
    requires boards != []
    ensures var n := |boards| - 1; (set b | b in boards) == (set b | b in boards[..n]) + {boards[n]}
  {
    assert boards == boards[..|boards| - 1] + [boards[|boards| - 1]];
  }

  lemma OpenedOneMore(s: State, boards: set<int>, b: int)
    ensures Sessions.Opened(s, boards + {b}) ==
            var o := Sessions.Opened(s, boards); o.(spills := o.spills[b := Idle])
  {
  }

  lemma WordsTag(frs: seq<Fragment>, board: int, done: seq<seq<Token>>)
    ensures Words(frs + Tag(board, done)) == Words(frs) + done
  {
  }

  lemma ImagesSnoc(written: seq<seq<byte>>, events: seq<Event>, e: Event)
    requires Images(written, events)
    ensures Images(written + [EventImage(e)], events + [e])
  {
    hide EventImage;
  }

  class BMDEventBuilder {
    const decoder: Decoder
    var builders: map<int, DataFragmentBuilder>
    var spillMemBank: BMDMemBank?
    var eventId: nat
    const recorder: UFEDataRecorder
    /** The fragments in the event bank, and the events recorded. */
    ghost var pending: seq<Fragment>
    ghost var events: seq<Event>
    /** All that was done to the event builder. */
    ghost var history: seq<Sessions.Op>

    /** The fragment banks of all builders. */
    ghost function Banks(): set<UFEDataContainer>
      reads this`builders
    {
      set f | f in builders.Values :: f.memBank.data
    }

    /** All fragment banks and the event bank. */
    ghost function AllBanks(): set<UFEDataContainer>
      reads this`builders, this`spillMemBank
    {
      Banks() + if spillMemBank == null then {} else {spillMemBank.data}
    }

    /** The builders are those of their boards and share no memory. */
    ghost predicate BuildersValid()
      reads this`builders, builders.Values, Banks()
    {
      && (forall b :: b in builders ==>
            builders[b].Valid() && builders[b].boardId == b && builders[b].decoder == decoder)
      && (forall a, b :: a in builders && b in builders && a != b ==>
            builders[a] != builders[b] && builders[a].memBank.data != builders[b].memBank.data)
    }

    /** The event bank holds the pending fragments, in memory of its own. */
    ghost predicate BankValid()
      reads this`builders, this`spillMemBank, this`pending, if spillMemBank == null then {} else {spillMemBank.data}
    {
      if spillMemBank == null then builders == map[] && pending == []
      else EventBank(spillMemBank, Words(pending)) && spillMemBank.data !in Banks()
    }

    ghost predicate RecorderValid()
      reads this`events, this`eventId, recorder
    {
      Images(recorder.written, events) && eventId < TWO_TO_32
    }

    ghost predicate Consistent()
      reads this`builders, this`spillMemBank, this`pending, this`events, this`eventId
      reads recorder, builders.Values, AllBanks()
    {
      BuildersValid() && BankValid() && RecorderValid()
    }

    /** Where the event builder stands is where all operations so far lead. */
    ghost predicate Traced()
      reads this, builders.Values
    {
      Sessions.LegalOps(history) && Abs() == Sessions.RunOps(decoder, history)
    }

    ghost predicate Valid()
      reads this, recorder, builders.Values, AllBanks()
    {
      Consistent() && Traced()
    }

    ghost function Spills(): (m: map<int, Spill>)
      reads this`builders, builders.Values
      ensures m.Keys == builders.Keys
    {
      map b | b in builders :: builders[b].spill
    }

    /** What the event builder stands for. */
    ghost function Abs(): State
      reads this`builders, this`pending, this`events, this`eventId, builders.Values
    {
      State(Spills(), pending, eventId, events)
    }

    constructor (decoder: Decoder)
      ensures Valid() && fresh(recorder) && builders == map[] && AllBanks() == {}
      ensures this.decoder == decoder && history == [] && Abs() == Sessions.BOOT
    {
      this.decoder := decoder;
      builders, spillMemBank, eventId := map[], null, 0;
      recorder := new UFEDataRecorder();
      pending, events, history := [], [], [];
      new;
      assert Spills() == map[];
      Sessions.NoOps(decoder);
    }

    /** Sets up an empty event bank and a fresh builder for each of these boards. */
    method Init(boards: seq<int>)
      requires Valid()
      modifies this
      ensures Valid() && spillMemBank != null
      ensures forall x :: x in AllBanks() ==> fresh(x) || x in old(Banks())
      ensures Abs() == Sessions.Opened(old(Abs()), set b | b in boards)
      ensures history == old(history) + [Sessions.Start(set b | b in boards)]
    {
      hide Consistent, Abs, Sessions.RunOps, Sessions.LegalOps, Sessions.Opened;
      Note(Sessions.Start(set b | b in boards));
      SetUp(boards);
    }

    /** The initialisation itself. */
    method SetUp(boards: seq<int>)
      requires Consistent()
      modifies this`builders, this`spillMemBank, this`pending
      ensures Consistent() && spillMemBank != null
      ensures forall x :: x in AllBanks() ==> fresh(x) || x in old(Banks())
      ensures Abs() == Sessions.Opened(old(Abs()), set b | b in boards)
    {
      hide EventBank, Words, Images, BuildersValid, BankValid, RecorderValid, Spills;
      ghost var before := Abs();
      NewEventBank();
      for i := 0 to |boards|
        invariant Consistent() && spillMemBank != null && fresh(spillMemBank.data)
        invariant pending == [] && eventId == before.nextId && events == before.events
        invariant forall x :: x in Banks() ==> fresh(x) || x in old(Banks())
        invariant Spills() == Renewed(before.spills, boards[..i])
      {
        assert boards[..i + 1][..i] == boards[..i];
        Register(boards[i]);
      }
      assert boards[..|boards|] == boards;
      RenewedOpens(before, boards);
    }

    /** Puts an empty event bank in place of the old one, if any. */
    method NewEventBank()
      requires Consistent()
      modifies this`spillMemBank, this`pending
      ensures Consistent() && spillMemBank != null && fresh(spillMemBank.data)
      ensures pending == [] && Spills() == old(Spills())
    {
      hide Holds, Words, Images, BuildersValid;
      spillMemBank := new BMDMemBank(EventHeader);
      ClearedHolds(spillMemBank.data.bytes);
      pending := [];
      EmptyWords();
      BuildersFramed();
    }

    lemma EmptyWords()
      ensures Words([]) == []
    {
    }

    /** Gives one board a fresh builder. */
    method Register(b: int)
      requires Consistent() && spillMemBank != null
      modifies this`builders
      ensures Consistent()
      ensures forall x :: x in Banks() ==> fresh(x) || x in old(Banks())
      ensures Spills() == old(Spills())[b := Idle]
    {
      hide EventBank, RecorderValid, Words, DataFragmentBuilder.Valid;
      var f := new DataFragmentBuilder(decoder, b);
      builders := builders[b := f];
    }

    /** Whatever was done to the event builder, every buffer in the recorder reads back as the event
        that the operations so far lead to: true size, number of fragments, id, time, and by the size
        fields alone every fragment, all of them well formed. The time is that of the container which
        made it the `k`-th event. */
    lemma WrittenReadsBack(k: nat)
      requires Valid() && k < |recorder.written|
      ensures |Sessions.RunOps(decoder, history).events| == |recorder.written|
      ensures var b, e := recorder.written[k], Sessions.RunOps(decoder, history).events[k];
              |b| < TWO_TO_64 ==>
                && SizeField(b) == |b| && NFragmentsField(b) == |e.fragments|
                && EventIdField(b) == k % TWO_TO_32 && TimeField(b) == e.time % TWO_TO_64
                && ReadEvent(b) == Some(Payloads(Words(e.fragments)))
                && (forall i :: 0 <= i < |e.fragments| ==> WellFormed(decoder, e.fragments[i].words))
                && forall i :: Sessions.RecordedByOp(decoder, history, i, k) ==>
                     TimeField(b) == history[i].call.now % TWO_TO_64
    {
      hide BuildersValid, BankValid, EventBytes, ReadEvent, SizeField, NFragmentsField, EventIdField, TimeField,
        WellFormed, Words, Sessions.RunOps, Sessions.LegalOps;
      Sessions.OpsSound(decoder, history);
      var e := events[k];
      var i := WrittenStamp(k);
      if |recorder.written[k]| < TWO_TO_64 {
        EventRoundTrip(e.id, e.time, Words(e.fragments));
      }
    }

    /** Whatever was done to the event builder, there is exactly one container in its history with
        which the number of events went from `k` to `k + 1`, and the `k`-th buffer in the recorder
        carries the time that container came with. Byte by byte its header is the digits to the base
        256, lowest first, of size, time, id and number of fragments. */
    lemma WrittenStamp(k: nat) returns (i: nat)
      requires Valid() && k < |recorder.written|
      ensures Sessions.RecordedByOp(decoder, history, i, k)
      ensures forall j :: Sessions.RecordedByOp(decoder, history, j, k) ==> j == i
      ensures |Sessions.RunOps(decoder, history).events| == |recorder.written|
      ensures var b, e := recorder.written[k], Sessions.RunOps(decoder, history).events[k];
              && DigitsAt(b, 0, 8, |b|) && DigitsAt(b, 8, 8, history[i].call.now)
              && DigitsAt(b, 16, 4, k % TWO_TO_32) && b[20] == b[21] == 0 && DigitsAt(b, 22, 2, |e.fragments|)
      ensures |recorder.written[k]| >= EVENT_HEADER_SIZE
      ensures TimeField(recorder.written[k]) == history[i].call.now % TWO_TO_64
    {
      hide BuildersValid, BankValid, EventBytes, DigitsAt, TimeField, Words, Sessions.RunOps, Sessions.LegalOps;
      Sessions.OpsSound(decoder, history);
      i := Sessions.OpsStamp(decoder, history, k);
      forall j | Sessions.RecordedByOp(decoder, history, j, k)
        ensures j == i
      {
        Sessions.RecordedByOneOp(decoder, history, i, j, k);
      }
      var e := events[k];
      EventDigits(e.id, e.time, Words(e.fragments));
      TimeReads(e.id, e.time, Words(e.fragments));
    }

    /** Whatever was done to the event builder, the event bank has one header marker and one trailer
        marker for each pending fragment, the `k`-th pair points at the spill header and the spill
        trailer of the `k`-th fragment, and the pairs follow one another. */
    lemma BankPoints(k: nat)
      requires Valid() && spillMemBank != null && k < |pending|
      ensures var b, hs, ts := spillMemBank.data.bytes, spillMemBank.data.spillHeaders, spillMemBank.data.spillTrailers;
              && |hs| == |ts| == |pending| == |Sessions.RunOps(decoder, history).pending|
              && hs[k] < ts[k] && ts[k] + 4 <= |b| && |pending[k].words| >= 2
              && b[hs[k]..hs[k] + 4] == pending[k].words[0] && KindOf(decoder, b[hs[k]..hs[k] + 4]) == SpillHeader
              && b[ts[k]..ts[k] + 4] == pending[k].words[|pending[k].words| - 1]
              && KindOf(decoder, b[ts[k]..ts[k] + 4]) == SpillTrailer2
              && (k + 1 < |pending| ==> ts[k] < hs[k + 1])
    {
      hide BuildersValid, RecorderValid, Holds, HeaderMarks, TrailerMarks, Matches, Sessions.RunOps, Sessions.LegalOps;
      Sessions.OpsSound(decoder, history);
      BracketedIsFramed(decoder, pending[k].words);
      MarkersPoint(spillMemBank.data.bytes, Words(pending), k);
    }

    /** Drops all builders and the event bank; ids go on. */
    method Close()
      requires Valid()
      modifies this
      ensures Valid() && spillMemBank == null && builders == map[]
      ensures Abs() == Sessions.Closed(old(Abs()))
      ensures history == old(history) + [Sessions.Stop]
    {
      Note(Sessions.Stop);
      builders := map[];
      spillMemBank := null;
      pending := [];
    }

    /** Adds an operation to the history before it is done. */
    ghost method Note(op: Sessions.Op)
      requires Valid() && (op.Container? ==> op.call.board in builders)
      modifies this`history
      ensures Consistent() && Abs() == old(Abs()) && history == old(history) + [op]
      ensures op.Container? ==> op.call.board in Abs().spills
      ensures Sessions.LegalOps(history) && Sessions.RunOps(decoder, history) == Sessions.Apply(decoder, Abs(), op)
    {
      hide EventBank, Words, Images, DataFragmentBuilder.Valid, Sessions.Apply, Sessions.RunOps, Sessions.LegalOps;
      Sessions.OpsSnoc(decoder, history, op);
      history := history + [op];
      BuildersFramed();
    }

    /** Adds one scanned container to the current event. */
    method Process(c: UFEDataContainer, now: nat) returns (status: ProcStatus)
      requires Valid() && c.Scanned(decoder) && c.boardId in builders && c !in AllBanks()
      modifies this`eventId, this`pending, this`events, this`history, recorder, builders.Values, AllBanks()
      modifies c`bytes, c`spillHeaders, c`spillTrailers
      ensures Valid() && builders == old(builders) && spillMemBank == old(spillMemBank)
      ensures Abs() == EventModel.Process(decoder, old(Abs()), Call(c.boardId, old(c.bytes), now))
      ensures history == old(history) + [Sessions.Container(Call(c.boardId, old(c.bytes), now))]
      ensures var fault := Feed(decoder, old(Abs()).spills[c.boardId], Tokens(old(c.bytes))).fault;
              status == if fault.Some? then FatalError else Ok
      ensures if status == Ok then c.bytes == [] && c.spillHeaders == [] && c.spillTrailers == [] else unchanged(c)
      ensures status != Ok ==> unchanged(spillMemBank.data) && unchanged(recorder) && events == old(events)
    {
      hide Consistent, Abs, Feed, Tokens, EventBank, Words, DataFragmentBuilder.Valid, EventModel.Process,
        Sessions.RunOps, Sessions.LegalOps, BuildersValid, BankValid, RecorderValid, Spills, Offsets;
      Note(Sessions.Container(Call(c.boardId, c.bytes, now)));
      BuilderFacts(c.boardId);
      status := AddContainer(c, now);
    }

    /** The adding itself. */
    method AddContainer(c: UFEDataContainer, now: nat) returns (status: ProcStatus)
      requires Consistent() && c.Scanned(decoder) && c.boardId in builders && c !in AllBanks()
      modifies this`eventId, this`pending, this`events, recorder, builders.Values, AllBanks()
      modifies c`bytes, c`spillHeaders, c`spillTrailers
      ensures Consistent()
      ensures Abs() == EventModel.Process(decoder, old(Abs()), Call(c.boardId, old(c.bytes), now))
      ensures var fault := Feed(decoder, old(Abs()).spills[c.boardId], Tokens(old(c.bytes))).fault;
              status == if fault.Some? then FatalError else Ok
      ensures if status == Ok then c.bytes == [] && c.spillHeaders == [] && c.spillTrailers == [] else unchanged(c)
      ensures status != Ok ==> unchanged(spillMemBank.data) && unchanged(recorder) && events == old(events)
    {
      hide Feed, Tokens, Tag, BuildersValid, BankValid, RecorderValid, Emit, Spills, Words, EventBank,
        EventBytes, Images, DataFragmentBuilder.Valid;
      BuilderFacts(c.boardId);
      var fault := FeedBoard(c);
      if fault.Some? {
        return FatalError;
      }
      RecordIfComplete(now);
      Recycle(c);
      return Ok;
    }

    /** Clears a container that the event builder is done with. */
    method Recycle(c: UFEDataContainer)
      requires Consistent() && c !in AllBanks()
      modifies c`bytes, c`spillHeaders, c`spillTrailers
      ensures Consistent() && Abs() == old(Abs())
      ensures c.bytes == [] && c.spillHeaders == [] && c.spillTrailers == []
    {
      hide EventBank, Words, Images, DataFragmentBuilder.Valid;
      c.Clear();
      BuildersFramed();
    }

    lemma BuilderFacts(b: int)
      requires Consistent() && b in builders
      ensures var f := builders[b];
              && f.Valid() && f.boardId == b && f.decoder == decoder && f.spill == Spills()[b]
              && f in builders.Values && f.memBank.data in Banks()
              && spillMemBank != null && spillMemBank.data !in Banks()
              && EventBank(spillMemBank, Words(pending))
    {
      hide EventBank;
    }

    /** Sends the container to the builder of its board. */
    method FeedBoard(c: UFEDataContainer) returns (fault: Option<Fault>)
      requires Consistent() && c.Scanned(decoder) && c.boardId in builders && c !in AllBanks() && spillMemBank != null
      modifies this`pending, builders[c.boardId], builders[c.boardId].memBank.data, spillMemBank.data
      ensures Consistent()
      ensures var p := Feed(decoder, old(Abs()).spills[c.boardId], Tokens(c.bytes));
              && fault == p.fault
              && Abs() == old(Abs()).(spills := old(Abs()).spills[c.boardId := p.spill],
                                      pending := old(pending) + Tag(c.boardId, p.done))
      ensures fault.Some? ==> unchanged(spillMemBank.data)
    {
      hide Feed, Tokens, RecorderValid, EventBank, SlackAfter, Words, Tag, BuildersValid, Spills,
        DataFragmentBuilder.Valid;
      BuilderFacts(c.boardId);
      var builder := builders[c.boardId];
      ghost var p := Feed(decoder, builder.spill, Tokens(c.bytes));
      fault := builder.Process(c, spillMemBank, Words(pending));
      WordsTag(pending, c.boardId, p.done);
      pending := pending + Tag(c.boardId, p.done);
      OneBuilderFed(c.boardId);
    }

    /** Feeding one builder leaves the others alone. */
    twostate lemma OneBuilderFed(x: int)
      requires old(BuildersValid()) && x in builders && builders == old(builders) && builders[x].Valid()
      requires builders[x].boardId == old(builders[x].boardId)
      requires forall f :: f in builders.Values && f != builders[x] ==> unchanged(f)
      requires forall m :: m in Banks() && m != builders[x].memBank.data ==> unchanged(m)
      ensures BuildersValid() && Spills() == old(Spills())[x := builders[x].spill]
    {
      hide DataFragmentBuilder.Valid;
      forall b | b in builders && b != x
        ensures builders[b].Valid() && builders[b].boardId == b && builders[b].spill == old(builders[b].spill)
      {
        assert builders[b] != builders[x];
        assert builders[b] in builders.Values && builders[b].memBank.data in Banks();
      }
    }

    /** If as many fragments are complete as there are boards, records the event. */
    method RecordIfComplete(now: nat)
      requires Consistent() && spillMemBank != null
      modifies this`eventId, this`pending, this`events, recorder, spillMemBank.data
      ensures Consistent() && Abs() == Emit(old(Abs()), now)
      ensures recorder.written == old(recorder.written) +
              if old(|pending|) % TWO_TO_16 == |builders|
              then [EventBytes(old(eventId), now, Words(old(pending)))] else []
    {
      hide BuildersValid, RecorderValid, NFragmentsField, Spills, EventBank, Words;
      SameSize(builders, Spills());
      CountReads();
      if NFragmentsField(spillMemBank.data.bytes) == |builders| {
        RecordEvent(now);
      }
    }

    /** Records the event and starts the next one. */
    method RecordEvent(now: nat)
      requires Consistent() && spillMemBank != null
      modifies this`eventId, this`pending, this`events, recorder, spillMemBank.data
      ensures Consistent()
      ensures Abs() == State(old(Spills()), [], (old(eventId) + 1) % TWO_TO_32,
                             old(events) + [Event(old(eventId), now, old(pending))])
      ensures recorder.written == old(recorder.written) + [EventBytes(old(eventId), now, Words(old(pending)))]
    {
      hide BuildersValid, EventBytes, Images, Spills;
      WriteEvent(now, Words(pending));
      ghost var e := Event(eventId, now, pending);
      ImagesSnoc(old(recorder.written), events, e);
      events := events + [e];
      eventId := (eventId + 1) % TWO_TO_32;
      pending := [];
      EmptyWords();
      BuildersFramed();
    }

    /** Nothing else than the builders and their banks matters to them. */
    twostate lemma BuildersFramed()
      requires old(BuildersValid()) && builders == old(builders)
      requires forall f :: f in builders.Values ==> unchanged(f) && unchanged(f.memBank.data)
      ensures BuildersValid() && Spills() == old(Spills())
    {
      hide DataFragmentBuilder.Valid;
      assert forall b :: b in builders ==> builders[b] in builders.Values;
    }

    lemma CountReads()
      requires BankValid() && spillMemBank != null
      ensures |spillMemBank.data.bytes| >= EVENT_HEADER_SIZE
      ensures NFragmentsField(spillMemBank.data.bytes) == |pending| % TWO_TO_16
    {
      hide LittleEndian, FromLittleEndian, Records;
      Field16(|pending|);
    }

    /** Stamps the event bank with time and id, records it and clears it. */
    method WriteEvent(now: nat, ghost frs: seq<seq<Token>>)
      requires spillMemBank != null && EventBank(spillMemBank, frs)
      modifies recorder, spillMemBank.data
      ensures recorder.written == old(recorder.written) + [EventBytes(eventId, now, frs)]
      ensures EventBank(spillMemBank, [])
    {
      hide EventBytes, LittleEndian, FromLittleEndian, Overwrite, Records, HeaderMarks, TrailerMarks;
      HoldsStamped(spillMemBank.data.bytes, frs, eventId, now);
      spillMemBank.SetField(TIME_AT, now, 8);
      spillMemBank.SetField(EVENT_ID_AT, eventId, 4);
      recorder.Write(spillMemBank);
      spillMemBank.Clear();
      ClearedHolds(spillMemBank.data.bytes);
    }
  }
}
