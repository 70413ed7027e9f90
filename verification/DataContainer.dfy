/** The data container base class as its users see it. Its own source is not part of this
    model: the contracts below are what the unit tests of the repository pin down. */
module DataContainer {
  import opened Bytes
  import opened SpillWords

  /** The markers inside `[pos, pos + size)`, moved along with the bytes to offset `to`. */
  function Rebase(ms: seq<nat>, pos: nat, size: nat, to: nat): seq<nat> {
    if ms == [] then []
    else
      var n := |ms| - 1;
      Rebase(ms[..n], pos, size, to) + if pos <= ms[n] < pos + size then [to + ms[n] - pos] else []
  }

  /** What becomes of marker lists with at most one marker. */
  lemma RebaseShort()
    ensures forall pos, size, to :: Rebase([], pos, size, to) == []
    ensures forall m, pos, size, to ::
      Rebase([m], pos, size, to) == if pos <= m < pos + size then [to + m - pos] else []
  {
    assert forall m: nat :: [m][..0] == [];
  }

  /** The list `r` is exactly the markers of `ms` inside the range, in their order, each moved by the
      same distance; `at` tells where in `ms` they were. */
  ghost predicate MovedFrom(ms: seq<nat>, pos: nat, size: nat, to: nat, r: seq<nat>, at: seq<nat>) {
    && |at| == |r|
    && (forall j :: 0 <= j < |r| ==> at[j] < |ms| && pos <= ms[at[j]] < pos + size && r[j] == to + ms[at[j]] - pos)
    && (forall i, j :: 0 <= i < j < |at| ==> at[i] < at[j])
    && (forall i :: 0 <= i < |ms| && pos <= ms[i] < pos + size ==> i in at)
  }

  /** Appending keeps all markers of the range, however many there are, and no others. */
  lemma {:induction false} RebaseExact(ms: seq<nat>, pos: nat, size: nat, to: nat) returns (at: seq<nat>)
    ensures MovedFrom(ms, pos, size, to, Rebase(ms, pos, size, to), at)
  {
    if ms == [] {
      at := [];
    } else {
      var n := |ms| - 1;
      at := RebaseExact(ms[..n], pos, size, to);
      MovedOneMore(ms, pos, size, to, Rebase(ms[..n], pos, size, to), at);
      at := if pos <= ms[n] < pos + size then at + [n] else at;
    }
  }

  lemma MovedOneMore(ms: seq<nat>, pos: nat, size: nat, to: nat, r: seq<nat>, at: seq<nat>)
    requires ms != [] && MovedFrom(ms[..|ms| - 1], pos, size, to, r, at)
    ensures var n := |ms| - 1;
            if pos <= ms[n] < pos + size then MovedFrom(ms, pos, size, to, r + [to + ms[n] - pos], at + [n])
            else MovedFrom(ms, pos, size, to, r, at)
  {
    var n := |ms| - 1;
    forall i | 0 <= i < n && pos <= ms[i] < pos + size
      ensures i in at
    {
      assert ms[..n][i] == ms[i];
    }
  }

  class UFEDataContainer {
    var bytes: seq<byte>
    var boardId: int
    var spillHeaders: seq<nat>
    var spillTrailers: seq<nat>

    constructor (boardId: int, bytes: seq<byte>)
      ensures this.bytes == bytes && this.boardId == boardId && spillHeaders == spillTrailers == []
    {
      this.bytes, this.boardId, spillHeaders, spillTrailers := bytes, boardId, [], [];
    }

    /** The marker lists are those of the scanner. Containers are shorter than 4 GiB,
        because offsets into them are passed as 32-bit numbers. */
    ghost predicate Scanned(d: Decoder)
      reads this
    {
      && |bytes| < TWO_TO_32
      && spillHeaders == Offsets(d, Tokens(bytes), SpillHeader)
      && spillTrailers == Offsets(d, Tokens(bytes), SpillTrailer2)
    }

    method Append(c: UFEDataContainer)
      requires c != this
      modifies this`bytes, this`spillHeaders, this`spillTrailers
      ensures bytes == old(bytes) + c.bytes
      ensures spillHeaders == old(spillHeaders) + Rebase(c.spillHeaders, 0, |c.bytes|, old(|bytes|))
      ensures spillTrailers == old(spillTrailers) + Rebase(c.spillTrailers, 0, |c.bytes|, old(|bytes|))
    {
      spillHeaders := spillHeaders + Rebase(c.spillHeaders, 0, |c.bytes|, |bytes|);
      spillTrailers := spillTrailers + Rebase(c.spillTrailers, 0, |c.bytes|, |bytes|);
      bytes := bytes + c.bytes;
    }

    method AppendSlice(c: UFEDataContainer, pos: nat, size: nat)
      requires c != this && pos < TWO_TO_32 && pos + size <= |c.bytes|
      modifies this`bytes, this`spillHeaders, this`spillTrailers
      ensures bytes == old(bytes) + c.bytes[pos..pos + size]
      ensures spillHeaders == old(spillHeaders) + Rebase(c.spillHeaders, pos, size, old(|bytes|))
      ensures spillTrailers == old(spillTrailers) + Rebase(c.spillTrailers, pos, size, old(|bytes|))
    {
      spillHeaders := spillHeaders + Rebase(c.spillHeaders, pos, size, |bytes|);
      spillTrailers := spillTrailers + Rebase(c.spillTrailers, pos, size, |bytes|);
      bytes := bytes + c.bytes[pos..pos + size];
    }

    method Clear()
      modifies this`bytes, this`spillHeaders, this`spillTrailers
      ensures bytes == [] && spillHeaders == [] && spillTrailers == []
    {
      bytes, spillHeaders, spillTrailers := [], [], [];
    }
  }
}
