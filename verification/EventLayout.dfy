/** The bytes of an event: a header, then the fragments, each behind its own size.
    What appending does to them, and how a reader gets the fragments back. */
module EventLayout {
  import opened Bytes
  import opened SpillWords
  import opened DataHeaders
  import opened Wrappers

  /** The stored fragments one after the other. */
  function Records(frs: seq<seq<Token>>): seq<byte> {
    if frs == [] then [] else Records(frs[..|frs| - 1]) + Record(frs[|frs| - 1])
  }

  /** Where the header word of each fragment lies in an event. */
  function HeaderMarks(frs: seq<seq<Token>>): (ms: seq<nat>)
    ensures |ms| == |frs|
  {
    if frs == [] then []
    else
      var init := frs[..|frs| - 1];
      HeaderMarks(init) + [EVENT_HEADER_SIZE + |Records(init)| + FRAGMENT_HEADER_SIZE]
  }

  /** Where the last word of each fragment lies in an event. */
  function TrailerMarks(frs: seq<seq<Token>>): (ms: seq<nat>)
    ensures |ms| == |frs|
  {
    if frs == [] then []
    else TrailerMarks(frs[..|frs| - 1]) + [EVENT_HEADER_SIZE + |Records(frs)| - 4]
  }

  /** An event bank that holds these fragments; time stamp and event id are still open. */
  ghost predicate Holds(b: seq<byte>, frs: seq<seq<Token>>) {
    && |b| >= EVENT_HEADER_SIZE
    && b[0..8] == LittleEndian(|b|, 8)
    && b[TYPE_AT..N_FRAGMENTS_AT] == [0, 0]
    && b[N_FRAGMENTS_AT..EVENT_HEADER_SIZE] == LittleEndian(|frs|, 2)
    && b[EVENT_HEADER_SIZE..] == Records(frs)
  }

  /** The event as it is recorded. */
  function EventBytes(id: nat, time: nat, frs: seq<seq<Token>>): (b: seq<byte>)
    ensures |b| == EVENT_HEADER_SIZE + |Records(frs)|
  {
    LittleEndian(EVENT_HEADER_SIZE + |Records(frs)|, 8) + LittleEndian(time, 8) + LittleEndian(id, 4)
    + [0, 0] + LittleEndian(|frs|, 2) + Records(frs)
  }

  /** Appending a fragment bank, with its size header, and counting it. */
  lemma HoldsOneMore(b: seq<byte>, frs: seq<seq<Token>>, ws: seq<Token>)
    requires Holds(b, frs)
    ensures var s := WithSize(b + Record(ws));
            Holds(Overwrite(s, N_FRAGMENTS_AT, LittleEndian(NFragmentsField(s) + 1, 2)), frs + [ws])
  {
    hide Records, Record, LittleEndian, FromLittleEndian, Overwrite;
    var c := b + Record(ws);
    var s := WithSize(c);
    var v := LittleEndian(NFragmentsField(s) + 1, 2);
    var r := Overwrite(s, N_FRAGMENTS_AT, v);
    OverwriteReads(c, 0, LittleEndian(|c|, 8));
    OverwriteKeeps(c, 0, LittleEndian(|c|, 8), N_FRAGMENTS_AT, EVENT_HEADER_SIZE);
    OverwriteKeeps(c, 0, LittleEndian(|c|, 8), TYPE_AT, N_FRAGMENTS_AT);
    OverwriteKeeps(c, 0, LittleEndian(|c|, 8), EVENT_HEADER_SIZE, |c|);
    OverwriteReads(s, N_FRAGMENTS_AT, v);
    OverwriteKeeps(s, N_FRAGMENTS_AT, v, 0, 8);
    OverwriteKeeps(s, N_FRAGMENTS_AT, v, TYPE_AT, N_FRAGMENTS_AT);
    OverwriteKeeps(s, N_FRAGMENTS_AT, v, EVENT_HEADER_SIZE, |c|);
    assert c[N_FRAGMENTS_AT..EVENT_HEADER_SIZE] == b[N_FRAGMENTS_AT..EVENT_HEADER_SIZE];
    assert c[TYPE_AT..N_FRAGMENTS_AT] == b[TYPE_AT..N_FRAGMENTS_AT];
    assert c[EVENT_HEADER_SIZE..] == b[EVENT_HEADER_SIZE..] + Record(ws);
    FieldAdd(|frs|, 1, 2);
    RecordsSnoc(frs, ws);
  }

  lemma RecordsSnoc(frs: seq<seq<Token>>, ws: seq<Token>)
    ensures Records(frs + [ws]) == Records(frs) + Record(ws)
  {
    hide Record, Flat;
    assert (frs + [ws])[..|frs|] == frs;
  }

  lemma HeaderMarksSnoc(frs: seq<seq<Token>>, ws: seq<Token>)
    ensures HeaderMarks(frs + [ws]) ==
            HeaderMarks(frs) + [EVENT_HEADER_SIZE + |Records(frs)| + FRAGMENT_HEADER_SIZE]
  {
    hide Record, Flat, Records;
    assert (frs + [ws])[..|frs|] == frs;
  }

  lemma TrailerMarksSnoc(frs: seq<seq<Token>>, ws: seq<Token>)
    ensures TrailerMarks(frs + [ws]) ==
            TrailerMarks(frs) + [EVENT_HEADER_SIZE + |Records(frs)| + FRAGMENT_HEADER_SIZE + |Flat(ws)| - 4]
  {
    hide Record, Flat, Records;
    RecordsSnoc(frs, ws);
    assert (frs + [ws])[..|frs|] == frs;
  }

  /** A cleared event bank holds no fragments. */
  lemma ClearedHolds(b: seq<byte>)
    requires |b| == EVENT_HEADER_SIZE && b[0..8] == LittleEndian(EVENT_HEADER_SIZE, 8)
    requires b[TYPE_AT..EVENT_HEADER_SIZE] == [0, 0, 0, 0]
    ensures Holds(b, []) && HeaderMarks([]) == [] && TrailerMarks([]) == []
  {
    var z := b[TYPE_AT..EVENT_HEADER_SIZE];
    assert b[TYPE_AT..N_FRAGMENTS_AT] == z[0..2] && b[N_FRAGMENTS_AT..EVENT_HEADER_SIZE] == z[2..4];
  }

  /** Bytes `at`, `at + 1`, ... are the `width` lowest digits of `n` to the base 256, lowest first. */
  ghost predicate DigitsAt(b: seq<byte>, at: nat, width: nat, n: nat) {
    at + width <= |b| && forall i :: 0 <= i < width ==> b[at + i] as nat == n / Pow256(i) % 256
  }

  lemma StoredDigits(b: seq<byte>, at: nat, width: nat, n: nat)
    requires at + width <= |b| && b[at..at + width] == LittleEndian(n, width)
    ensures DigitsAt(b, at, width, n)
  {
    hide LittleEndian, Pow256;
    forall i | 0 <= i < width
      ensures b[at + i] as nat == n / Pow256(i) % 256
    {
      FieldByte(n, width, i);
      assert b[at..at + width][i] == b[at + i];
    }
  }

  /** The header of an event, byte by byte: size, time, id, type and subevents, fragments. */
  lemma EventDigits(id: nat, time: nat, frs: seq<seq<Token>>)
    ensures var b := EventBytes(id, time, frs);
            && DigitsAt(b, 0, 8, |b|) && DigitsAt(b, 8, 8, time) && DigitsAt(b, 16, 4, id)
            && b[20] == b[21] == 0 && DigitsAt(b, 22, 2, |frs|)
  {
    hide LittleEndian, Records, DigitsAt;
    var b := EventBytes(id, time, frs);
    assert b[0..8] == LittleEndian(|b|, 8);
    StoredDigits(b, 0, 8, |b|);
    StoredDigits(b, 8, 8, time);
    StoredDigits(b, 16, 4, id);
    StoredDigits(b, 22, 2, |frs|);
  }

  /** Stamping a bank with time and id gives the bytes of the event. */
  lemma HoldsStamped(b: seq<byte>, frs: seq<seq<Token>>, id: nat, time: nat)
    requires Holds(b, frs)
    ensures Overwrite(Overwrite(b, TIME_AT, LittleEndian(time, 8)), EVENT_ID_AT, LittleEndian(id, 4))
            == EventBytes(id, time, frs)
  {
    hide Records, Record, LittleEndian, FromLittleEndian;
    var r := Overwrite(Overwrite(b, TIME_AT, LittleEndian(time, 8)), EVENT_ID_AT, LittleEndian(id, 4));
    assert r[0..8] == b[0..8];
    assert r[8..16] == LittleEndian(time, 8);
    assert r[16..20] == LittleEndian(id, 4);
    assert r[20..22] == b[20..22];
    assert r[22..24] == b[22..24];
    assert r[24..] == b[24..];
    assert r == r[0..8] + r[8..16] + r[16..20] + r[20..22] + r[22..24] + r[24..];
  }
}
