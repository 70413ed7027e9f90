/** A memory bank: a data container whose first bytes are a header that tells its own size. */
module MemBank {
  import opened Bytes
  import opened SpillWords
  import opened DataHeaders
  import opened DataContainer

  class BMDMemBank {
    /** Which header the bank carries (the template parameter of the original). */
    const layout: Layout
    /** The base class part. The header is the first bytes of its buffer. */
    const data: UFEDataContainer

    ghost predicate Valid()
      reads data
    {
      |data.bytes| >= layout.Size()
    }

    constructor (layout: Layout)
      ensures this.layout == layout && fresh(data) && Valid() && IsCleared()
    {
      this.layout := layout;
      data := new UFEDataContainer(0, WithSize(seq(layout.Size(), _ => 0)));
    }

    /** Nothing but a header, which says so. */
    ghost predicate IsCleared()
      reads data
    {
      && |data.bytes| == layout.Size()
      && data.spillHeaders == [] && data.spillTrailers == []
      && data.bytes[0..8] == LittleEndian(layout.Size(), 8)
      && (layout.EventHeader? ==> data.bytes[TYPE_AT..EVENT_HEADER_SIZE] == [0, 0, 0, 0])
    }

    method Append(c: UFEDataContainer)
      requires Valid() && c != data
      modifies data`bytes, data`spillHeaders, data`spillTrailers
      ensures Valid() && data.bytes == WithSize(old(data.bytes) + c.bytes)
      ensures data.spillHeaders == old(data.spillHeaders) + Rebase(c.spillHeaders, 0, |c.bytes|, old(|data.bytes|))
      ensures data.spillTrailers == old(data.spillTrailers) + Rebase(c.spillTrailers, 0, |c.bytes|, old(|data.bytes|))
    {
      data.Append(c);
      data.bytes := WithSize(data.bytes);
    }

    method AppendSlice(c: UFEDataContainer, pos: nat, size: nat)
      requires Valid() && c != data && pos < TWO_TO_32 && pos + size <= |c.bytes|
      modifies data`bytes, data`spillHeaders, data`spillTrailers
      ensures Valid() && data.bytes == WithSize(old(data.bytes) + c.bytes[pos..pos + size])
      ensures data.spillHeaders == old(data.spillHeaders) + Rebase(c.spillHeaders, pos, size, old(|data.bytes|))
      ensures data.spillTrailers == old(data.spillTrailers) + Rebase(c.spillTrailers, pos, size, old(|data.bytes|))
    {
      data.AppendSlice(c, pos, size);
      data.bytes := WithSize(data.bytes);
    }

    /** `header_->size_ += more`, on a 64-bit field. */
    method AddToSize(more: nat)
      requires Valid()
      modifies data`bytes
      ensures Valid()
      ensures data.bytes == Overwrite(old(data.bytes), 0, LittleEndian(SizeField(old(data.bytes)) + more, 8))
    {
      data.bytes := Overwrite(data.bytes, 0, LittleEndian(SizeField(data.bytes) + more, 8));
    }

    /** `header_->n_fragments_++`, on a 16-bit field. */
    method CountFragment()
      requires Valid() && layout.EventHeader?
      modifies data`bytes
      ensures Valid()
      ensures data.bytes ==
              Overwrite(old(data.bytes), N_FRAGMENTS_AT, LittleEndian(NFragmentsField(old(data.bytes)) + 1, 2))
    {
      data.bytes := Overwrite(data.bytes, N_FRAGMENTS_AT, LittleEndian(NFragmentsField(data.bytes) + 1, 2));
    }

    /** Stores a header field of `width` bytes. */
    method SetField(at: nat, value: nat, width: nat)
      requires Valid() && at + width <= layout.Size()
      modifies data`bytes
      ensures Valid() && data.bytes == Overwrite(old(data.bytes), at, LittleEndian(value, width))
    {
      data.bytes := Overwrite(data.bytes, at, LittleEndian(value, width));
    }

    /** The buffer keeps its memory, so a cleared event header keeps its last time stamp and id. */
    method Clear()
      requires Valid()
      modifies data`bytes, data`spillHeaders, data`spillTrailers
      ensures Valid() && IsCleared()
      ensures layout.EventHeader? ==> data.bytes[TIME_AT..TYPE_AT] == old(data.bytes[TIME_AT..TYPE_AT])
    {
      var header := data.bytes[..layout.Size()];
      data.Clear();
      data.bytes := header;
      HeaderClear();
    }

    method HeaderClear()
      requires |data.bytes| == layout.Size()
      modifies data`bytes
      ensures |data.bytes| == layout.Size() && data.bytes[0..8] == LittleEndian(layout.Size(), 8)
      ensures layout.EventHeader? ==> data.bytes[TYPE_AT..EVENT_HEADER_SIZE] == [0, 0, 0, 0]
      ensures layout.EventHeader? ==> data.bytes[TIME_AT..TYPE_AT] == old(data.bytes[TIME_AT..TYPE_AT])
    {
      hide LittleEndian, Overwrite;
      data.bytes := Overwrite(data.bytes, 0, LittleEndian(layout.Size(), 8));
      if layout.EventHeader? {
        data.bytes := Overwrite(data.bytes, N_FRAGMENTS_AT, [0, 0]);
        data.bytes := Overwrite(data.bytes, TYPE_AT + 1, [0]);
        data.bytes := Overwrite(data.bytes, TYPE_AT, [0]);
        assert data.bytes[TYPE_AT..EVENT_HEADER_SIZE] == [0, 0, 0, 0];
      }
    }
  }
}
