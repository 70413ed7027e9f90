/** The scanner worker: marks the spill boundaries of a raw container. */
module DataScanner {
  import opened Bytes
  import opened SpillWords
  import opened DataContainer

  datatype ProcStatus = Ok | Error | FatalError

  /** The tag of the last trigger header, 0 if there is none. */
  function LastTrigger(d: Decoder, ts: seq<Token>): nat {
    if ts == [] then 0
    else if KindOf(d, ts[|ts| - 1]) == TrigHeader then d.triggerTag(ts[|ts| - 1])
    else LastTrigger(d, ts[..|ts| - 1])
  }

  /** Scanning word `x` adds at most its own offset behind the markers found so far. */
  lemma ScanOne(d: Decoder, b: seq<byte>, x: nat, ms: seq<nat>, k: Kind)
    requires x < |b| / 4 && k != OtherKind
    ensures ms + Offsets(d, Tokens(b)[..x + 1], k) ==
            ms + Offsets(d, Tokens(b)[..x], k) + if d.kind(b[4 * x..4 * x + 4]) == k then [4 * x] else []
  {
    assert Tokens(b)[..x + 1][..x] == Tokens(b)[..x];
  }

  lemma TriggerOne(d: Decoder, b: seq<byte>, x: nat)
    requires x < |b| / 4
    ensures LastTrigger(d, Tokens(b)[..x + 1]) ==
            if d.kind(b[4 * x..4 * x + 4]) == TrigHeader then d.triggerTag(b[4 * x..4 * x + 4])
            else LastTrigger(d, Tokens(b)[..x])
  {
    assert Tokens(b)[..x + 1][..x] == Tokens(b)[..x];
  }

  /** Where the scan starts and where it ends. */
  lemma ScanEdges(d: Decoder, b: seq<byte>, k: Kind)
    requires k != OtherKind
    ensures |b| / 4 <= |Tokens(b)|
    ensures Offsets(d, Tokens(b)[..0], k) == [] && LastTrigger(d, Tokens(b)[..0]) == 0
    ensures Offsets(d, Tokens(b)[..|b| / 4], k) == Offsets(d, Tokens(b), k)
  {
    ScanCoversAll(d, b, k);
  }

  class BMDDataScanner {
    const decoder: Decoder
    var triggerTag: nat

    constructor (decoder: Decoder)
      ensures this.decoder == decoder
    {
      this.decoder := decoder;
    }

    method Init()
      modifies this
      ensures triggerTag == 0
    {
      triggerTag := 0;
    }

    /** Whatever the trigger tags are, the markers added are those of a single filter over the words. */
    method Process(c: UFEDataContainer) returns (status: ProcStatus)
      modifies this, c`spillHeaders, c`spillTrailers
      ensures status == if |c.bytes| < 4 then Error else Ok
      ensures c.spillHeaders == old(c.spillHeaders) + Offsets(decoder, Tokens(c.bytes), SpillHeader)
      ensures c.spillTrailers == old(c.spillTrailers) + Offsets(decoder, Tokens(c.bytes), SpillTrailer2)
      ensures triggerTag == if |c.bytes| < 4 then old(triggerTag)
                            else LastTrigger(decoder, Tokens(c.bytes)[..|c.bytes| / 4])
      ensures old(c.spillHeaders) == [] && old(c.spillTrailers) == [] && |c.bytes| < TWO_TO_32 ==> c.Scanned(decoder)
    {
      hide Offsets, LastTrigger;
      var nDw := |c.bytes| / 4;
      ghost var hs, trs := c.spillHeaders, c.spillTrailers;
      ScanEdges(decoder, c.bytes, SpillHeader);
      ScanEdges(decoder, c.bytes, SpillTrailer2);
      if nDw == 0 {
        return Error;
      }
      triggerTag := 0;
      var xDw := 0;
      while triggerTag == 0 && xDw < nDw
        invariant 0 <= xDw <= nDw
        invariant ScannedTo(c, hs, trs, xDw)
        decreases nDw - xDw
      {
        Read(c, xDw, hs, trs);
        xDw := xDw + 1;
      }
      while xDw < nDw
        invariant 0 <= xDw <= nDw
        invariant ScannedTo(c, hs, trs, xDw)
      {
        status := ReadAndCheck(c, xDw, hs, trs);
        if status != Ok {
          return;
        }
        xDw := xDw + 1;
      }
      return Ok;
    }

    method Read(c: UFEDataContainer, dwId: nat, ghost hs: seq<nat>, ghost trs: seq<nat>)
      requires 4 * dwId + 4 <= |c.bytes| && ScannedTo(c, hs, trs, dwId)
      modifies this, c`spillHeaders, c`spillTrailers
      ensures ScannedTo(c, hs, trs, dwId + 1)
    {
      hide Offsets, LastTrigger, Tokens;
      ScanOne(decoder, c.bytes, dwId, hs, SpillHeader);
      ScanOne(decoder, c.bytes, dwId, trs, SpillTrailer2);
      TriggerOne(decoder, c.bytes, dwId);
      var word := c.bytes[4 * dwId..4 * dwId + 4];
      match decoder.kind(word) {
        case TrigHeader => triggerTag := decoder.triggerTag(word);
        case SpillHeader => c.spillHeaders := c.spillHeaders + [dwId * 4];
        case SpillTrailer2 => c.spillTrailers := c.spillTrailers + [dwId * 4];
        case _ =>
      }
    }

    /** A mismatch of trigger tags is only reported on the console, so the status is always `Ok`. */
    method ReadAndCheck(c: UFEDataContainer, dwId: nat, ghost hs: seq<nat>, ghost trs: seq<nat>)
      returns (status: ProcStatus)
      requires 4 * dwId + 4 <= |c.bytes| && ScannedTo(c, hs, trs, dwId)
      modifies this, c`spillHeaders, c`spillTrailers
      ensures status == Ok
      ensures ScannedTo(c, hs, trs, dwId + 1)
    {
      hide Offsets, LastTrigger, Tokens;
      ScanOne(decoder, c.bytes, dwId, hs, SpillHeader);
      ScanOne(decoder, c.bytes, dwId, trs, SpillTrailer2);
      TriggerOne(decoder, c.bytes, dwId);
      var word := c.bytes[4 * dwId..4 * dwId + 4];
      match decoder.kind(word) {
        case TrigHeader => triggerTag := decoder.triggerTag(word);
        case TrigTrailer1 => // a tag other than `triggerTag` is reported, and nothing else
        case SpillHeader => c.spillHeaders := c.spillHeaders + [dwId * 4];
        case SpillTrailer2 => c.spillTrailers := c.spillTrailers + [dwId * 4];
        case _ =>
      }
      return Ok;
    }

    /** The first `x` words of `c` have been scanned on top of the marker lists given. */
    ghost predicate ScannedTo(c: UFEDataContainer, hs: seq<nat>, trs: seq<nat>, x: nat)
      requires x <= |c.bytes| / 4
      reads this, c
    {
      var ts := Tokens(c.bytes)[..x];
      && c.spillHeaders == hs + Offsets(decoder, ts, SpillHeader)
      && c.spillTrailers == trs + Offsets(decoder, ts, SpillTrailer2)
      && triggerTag == LastTrigger(decoder, ts)
    }
  }
}
