/** Reading events back, and what the markers of an event bank point to. */
module EventReader {
  import opened Bytes
  import opened SpillWords
  import opened DataHeaders
  import opened SpillGrammar
  import opened EventLayout
  import opened Completeness
  import opened Wrappers

  /** From `pos` on, jump from fragment to fragment by the sizes stored in front of them, and
      end exactly at `end`. */
  function Walk(b: seq<byte>, pos: nat, end: nat): Option<seq<seq<byte>>>
    decreases end - pos
  {
    if pos == end then Some([])
    else if pos + FRAGMENT_HEADER_SIZE > end || end > |b| then None
    else
      var size := FromLittleEndian(b[pos..pos + FRAGMENT_HEADER_SIZE]);
      if size < FRAGMENT_HEADER_SIZE || pos + size > end then None
      else
        match Walk(b, pos + size, end)
        case None => None
        case Some(rest) => Some([b[pos + FRAGMENT_HEADER_SIZE..pos + size]] + rest)
  }

  function ReadEvent(b: seq<byte>): Option<seq<seq<byte>>> {
    if |b| < EVENT_HEADER_SIZE then None else Walk(b, EVENT_HEADER_SIZE, SizeField(b))
  }

  function Payloads(frs: seq<seq<Token>>): (ps: seq<seq<byte>>)
    ensures |ps| == |frs|
  {
    seq(|frs|, i requires 0 <= i < |frs| => Flat(frs[i]))
  }

  lemma {:induction false} RecordsAppend(a: seq<seq<Token>>, b: seq<seq<Token>>)
    ensures Records(a + b) == Records(a) + Records(b)
  {
    hide Record, Records;
    if b == [] {
      assert a + b == a;
      RecordsOfNone();
    } else {
      var n := |b| - 1;
      RecordsAppend(a, b[..n]);
      assert a + b == (a + b[..n]) + [b[n]] && b == b[..n] + [b[n]];
      RecordsSnoc(a + b[..n], b[n]);
      RecordsSnoc(b[..n], b[n]);
    }
  }

  lemma RecordsCons(frs: seq<seq<Token>>)
    requires frs != []
    ensures Records(frs) == Record(frs[0]) + Records(frs[1..])
  {
    hide Record;
    assert [frs[0]] + frs[1..] == frs;
    RecordsAppend([frs[0]], frs[1..]);
    assert [frs[0]][..0] == [];
  }

  lemma {:induction false} WalkRecords(b: seq<byte>, pos: nat, frs: seq<seq<Token>>)
    requires pos <= |b| < TWO_TO_64 && b[pos..] == Records(frs)
    ensures Walk(b, pos, |b|) == Some(Payloads(frs))
    decreases |frs|
  {
    hide Flat, LittleEndian, FromLittleEndian, Records;
    if frs == [] {
      RecordsOfNone();
    } else {
      RecordsCons(frs);
      var r := Record(frs[0]);
      var next := pos + |r|;
      var n := |b| - pos;
      assert b[pos..] == b[pos..pos + n] == r + Records(frs[1..]);
      SliceOfSlice(b, pos, n, 0, 8);
      SliceOfSlice(b, pos, n, 8, |r|);
      SliceOfSlice(b, pos, n, |r|, n);
      assert b[pos..pos + 8] == r[0..8] == LittleEndian(|r|, 8);
      Field64(|r|);
      assert b[next..] == Records(frs[1..]);
      WalkRecords(b, next, frs[1..]);
      assert b[pos + 8..next] == r[8..|r|] == Flat(frs[0]);
      assert [Flat(frs[0])] + Payloads(frs[1..]) == Payloads(frs);
    }
  }

  lemma RecordsOfNone()
    ensures Records([]) == []
  {
  }

  lemma FieldWidths()
    ensures Pow256(8) == TWO_TO_64 && Pow256(4) == TWO_TO_32
  {
  }

  /** Round trip: a reader that only follows the size fields makes as many jumps as the header
      counts fragments, lands on the end of the event, and gets back every fragment. */
  lemma EventRoundTrip(id: nat, time: nat, frs: seq<seq<Token>>)
    requires |frs| < TWO_TO_16 && |EventBytes(id, time, frs)| < TWO_TO_64
    ensures var b := EventBytes(id, time, frs);
            && SizeField(b) == |b|
            && NFragmentsField(b) == |frs|
            && TimeField(b) == time % TWO_TO_64 && EventIdField(b) == id % TWO_TO_32
            && ReadEvent(b) == Some(Payloads(frs))
  {
    hide LittleEndian, FromLittleEndian, Records, Walk;
    var b := EventBytes(id, time, frs);
    assert b[0..8] == LittleEndian(|b|, 8);
    Field64(|b|);
    assert b[N_FRAGMENTS_AT..EVENT_HEADER_SIZE] == LittleEndian(|frs|, 2);
    Field16(|frs|);
    assert b[TIME_AT..EVENT_ID_AT] == LittleEndian(time, 8);
    assert b[EVENT_ID_AT..TYPE_AT] == LittleEndian(id, 4);
    FieldRoundTrip(time, 8);
    FieldRoundTrip(id, 4);
    FieldWidths();
    assert b[EVENT_HEADER_SIZE..] == Records(frs);
    WalkRecords(b, EVENT_HEADER_SIZE, frs);
  }

  /** The time reads back whatever the size of the event. */
  lemma TimeReads(id: nat, time: nat, frs: seq<seq<Token>>)
    ensures TimeField(EventBytes(id, time, frs)) == time % TWO_TO_64
  {
    hide LittleEndian, FromLittleEndian, Records;
    assert EventBytes(id, time, frs)[TIME_AT..EVENT_ID_AT] == LittleEndian(time, 8);
    FieldRoundTrip(time, 8);
    FieldWidths();
  }

  // -------------------------------------------------- the markers of a bank

  lemma {:induction false} MarksAt(frs: seq<seq<Token>>, k: nat)
    requires k < |frs|
    ensures HeaderMarks(frs)[k] == EVENT_HEADER_SIZE + |Records(frs[..k])| + FRAGMENT_HEADER_SIZE
    ensures TrailerMarks(frs)[k] == EVENT_HEADER_SIZE + |Records(frs[..k + 1])| - 4
  {
    hide Record, Records;
    var n := |frs| - 1;
    if k < n {
      MarksAt(frs[..n], k);
      assert frs[..n][..k] == frs[..k] && frs[..n][..k + 1] == frs[..k + 1];
    } else {
      assert frs[..k + 1] == frs;
    }
  }

  /** The `k`-th pair of markers points at the first and the last word of the `k`-th fragment,
      and the pairs follow one another. */
  lemma MarkersPoint(b: seq<byte>, frs: seq<seq<Token>>, k: nat)
    requires Holds(b, frs) && k < |frs| && Framed(frs[k])
    ensures var h, t := HeaderMarks(frs)[k], TrailerMarks(frs)[k];
            && h < t && t + 4 <= |b|
            && b[h..h + 4] == frs[k][0] && b[t..t + 4] == frs[k][|frs[k]| - 1]
            && (k + 1 < |frs| ==> t < HeaderMarks(frs)[k + 1])
  {
    hide Flat, LittleEndian, Records, HeaderMarks, TrailerMarks, Framed;
    var r := Record(frs[k]);
    MarksAt(frs, k);
    if k + 1 < |frs| {
      MarksAt(frs, k + 1);
    }
    RecordAt(b, frs, k);
    var e := EVENT_HEADER_SIZE + |Records(frs[..k])|;
    FramedEnds(frs[k]);
    var f := Flat(frs[k]);
    assert r[8..|r|] == f;
    SliceOfSlice(b, e, |r|, 8, |r|);
    SliceOfSlice(b, e + 8, |f|, 0, 4);
    SliceOfSlice(b, e + 8, |f|, |f| - 4, |f|);
    assert f[|f| - 4..|f|] == f[|f| - 4..];
  }

  /** Where the record of the `k`-th fragment lies. */
  lemma RecordAt(b: seq<byte>, frs: seq<seq<Token>>, k: nat)
    requires |b| >= EVENT_HEADER_SIZE && b[EVENT_HEADER_SIZE..] == Records(frs) && k < |frs|
    ensures var e := EVENT_HEADER_SIZE + |Records(frs[..k])|;
            && |Records(frs[..k + 1])| == |Records(frs[..k])| + |Record(frs[k])|
            && e + |Record(frs[k])| <= |b|
            && b[e..e + |Record(frs[k])|] == Record(frs[k])
  {
    hide Record, Records;
    var pre, r, post := Records(frs[..k]), Record(frs[k]), Records(frs[k + 1..]);
    assert frs == frs[..k + 1] + frs[k + 1..] && frs[..k + 1] == frs[..k] + [frs[k]];
    RecordsAppend(frs[..k + 1], frs[k + 1..]);
    RecordsSnoc(frs[..k], frs[k]);
    var e := EVENT_HEADER_SIZE + |pre|;
    assert b[EVENT_HEADER_SIZE..] == pre + r + post;
    assert b[e..e + |r|] == (pre + r + post)[|pre|..|pre| + |r|];
  }

  lemma {:induction false} RecordsAligned(frs: seq<seq<Token>>, k: nat)
    requires k <= |frs| && forall i :: 0 <= i < |frs| ==> WordSized(frs[i])
    ensures |Records(frs[..k])| % 4 == 0
  {
    hide Flat, LittleEndian, Records;
    if k == 0 {
      RecordsOfNone();
    } else {
      RecordsAligned(frs, k - 1);
      assert frs[..k] == frs[..k - 1] + [frs[k - 1]];
      RecordsSnoc(frs[..k - 1], frs[k - 1]);
      FlatWords(frs[k - 1]);
    }
  }

  lemma MarkerAligned(frs: seq<seq<Token>>, k: nat)
    requires k < |frs| && forall i :: 0 <= i < |frs| ==> WordSized(frs[i])
    ensures HeaderMarks(frs)[k] % 4 == 0 && TrailerMarks(frs)[k] % 4 == 0
  {
    hide Records, HeaderMarks, TrailerMarks, WordSized;
    MarksAt(frs, k);
    RecordsAligned(frs, k);
    RecordsAligned(frs, k + 1);
    HeadersAlign(|Records(frs[..k])|);
    HeadersAlign(|Records(frs[..k + 1])|);
  }

  lemma HeadersAlign(x: nat)
    requires x % 4 == 0
    ensures (EVENT_HEADER_SIZE + x + FRAGMENT_HEADER_SIZE) % 4 == 0 && (EVENT_HEADER_SIZE + x - 4) % 4 == 0
  {
  }

  /** Where all fragments consist of whole words, every marker is a multiple of four. */
  lemma MarkersAligned(frs: seq<seq<Token>>)
    requires forall i :: 0 <= i < |frs| ==> WordSized(frs[i])
    ensures forall k :: 0 <= k < |frs| ==> HeaderMarks(frs)[k] % 4 == 0 && TrailerMarks(frs)[k] % 4 == 0
  {
    hide HeaderMarks, TrailerMarks, WordSized;
    forall k | 0 <= k < |frs|
      ensures HeaderMarks(frs)[k] % 4 == 0 && TrailerMarks(frs)[k] % 4 == 0
    {
      MarkerAligned(frs, k);
    }
  }

  /** The sum of the lengths of the fragments' words. */
  function DataBytes(frs: seq<seq<Token>>): nat {
    if frs == [] then 0 else DataBytes(frs[..|frs| - 1]) + |Flat(frs[|frs| - 1])|
  }

  /** No byte is lost or added: an event is its header, and for each fragment a size and its words. */
  lemma {:induction false} EventLength(id: nat, time: nat, frs: seq<seq<Token>>)
    ensures |EventBytes(id, time, frs)| == EVENT_HEADER_SIZE + FRAGMENT_HEADER_SIZE * |frs| + DataBytes(frs)
  {
    hide Flat, LittleEndian;
    if frs == [] {
    } else {
      EventLength(id, time, frs[..|frs| - 1]);
    }
  }
}
