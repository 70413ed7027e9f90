/** The headers kept in the first bytes of a memory bank, and the stored form of a fragment. */
module DataHeaders {
  import opened Bytes
  import opened SpillWords

  /** `BMDDataFragmenHeader` is one 8-byte size. `BMDEventHeader` is size (8 bytes), time (8),
      event id (4), type (1), number of subevents (1) and number of fragments (2). */
  datatype Layout = FragmentHeader | EventHeader
  {
    function Size(): nat {
      if FragmentHeader? then FRAGMENT_HEADER_SIZE else EVENT_HEADER_SIZE
    }
  }

  const FRAGMENT_HEADER_SIZE: nat := 8
  const EVENT_HEADER_SIZE: nat := 24

  const TIME_AT: nat := 8
  const EVENT_ID_AT: nat := 16
  const TYPE_AT: nat := 20
  const N_FRAGMENTS_AT: nat := 22

  function SizeField(b: seq<byte>): nat
    requires |b| >= FRAGMENT_HEADER_SIZE
  {
    FromLittleEndian(b[0..8])
  }

  function NFragmentsField(b: seq<byte>): nat
    requires |b| >= EVENT_HEADER_SIZE
  {
    FromLittleEndian(b[N_FRAGMENTS_AT..EVENT_HEADER_SIZE])
  }

  function TimeField(b: seq<byte>): nat
    requires |b| >= EVENT_HEADER_SIZE
  {
    FromLittleEndian(b[TIME_AT..EVENT_ID_AT])
  }

  function EventIdField(b: seq<byte>): nat
    requires |b| >= EVENT_HEADER_SIZE
  {
    FromLittleEndian(b[EVENT_ID_AT..TYPE_AT])
  }

  /** A buffer whose size header tells its true length. */
  function WithSize(b: seq<byte>): (r: seq<byte>)
    requires |b| >= FRAGMENT_HEADER_SIZE
    ensures |r| == |b|
  {
    Overwrite(b, 0, LittleEndian(|b|, 8))
  }

  /** A fragment as it is stored: its total size in eight bytes, then its words. */
  function Record(ws: seq<Token>): (r: seq<byte>)
    ensures |r| == FRAGMENT_HEADER_SIZE + |Flat(ws)|
  {
    LittleEndian(FRAGMENT_HEADER_SIZE + |Flat(ws)|, 8) + Flat(ws)
  }
}
