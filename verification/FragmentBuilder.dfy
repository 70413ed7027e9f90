/** The builder that stitches the containers of one board into spill fragments. */
module FragmentBuilder {
  import opened Bytes
  import opened SpillWords
  import opened DataHeaders
  import opened DataContainer
  import opened MemBank
  import opened SpillParser
  import opened EventLayout
  import opened FragmentRuns
  import opened SizeHeader
  import opened Wrappers

  /** Every append rewrites the size header, whatever was in it. */
  lemma AppendRepairs(ws: seq<Token>, slack: nat, more: seq<Token>)
    ensures WithSize(Sized(ws, slack) + Flat(more)) == Record(ws + more)
  {
    hide LittleEndian, Flat, Overwrite;
    FlatAppend(ws, more);
    var b := Sized(ws, slack) + Flat(more);
    var r := WithSize(b);
    OverwriteReads(b, 0, LittleEndian(|b|, 8));
    OverwriteKeeps(b, 0, LittleEndian(|b|, 8), 8, |b|);
    assert r == r[0..8] + r[8..];
    assert b[8..|b|] == Flat(ws) + Flat(more);
  }

  /** Adding to the size header of a correct bank makes it count too much. */
  lemma AddOvercounts(ws: seq<Token>, more: nat)
    ensures Overwrite(Record(ws), 0, LittleEndian(SizeField(Record(ws)) + more, 8)) == Sized(ws, more)
  {
    hide LittleEndian, FromLittleEndian, Flat, Overwrite;
    FieldAdd(FRAGMENT_HEADER_SIZE + |Flat(ws)|, more, 8);
    var b := Record(ws);
    var v := LittleEndian(SizeField(b) + more, 8);
    var r := Overwrite(b, 0, v);
    assert b[0..8] == LittleEndian(FRAGMENT_HEADER_SIZE + |Flat(ws)|, 8);
    OverwriteReads(b, 0, v);
    OverwriteKeeps(b, 0, v, 8, |b|);
    assert r == r[0..8] + r[8..];
  }

  /** An event bank that holds these fragments, with its markers at their first and last words. */
  ghost predicate EventBank(bank: BMDMemBank, frs: seq<seq<Token>>)
    reads bank.data
  {
    && bank.layout.EventHeader?
    && Holds(bank.data.bytes, frs)
    && bank.data.spillHeaders == HeaderMarks(frs)
    && bank.data.spillTrailers == TrailerMarks(frs)
  }

  class DataFragmentBuilder {
    const decoder: Decoder
    var boardId: int
    const memBank: BMDMemBank
    /** What the bank stands for. */
    ghost var spill: Spill
    /** By how much the size header of the bank overshoots. */
    ghost var slack: nat

    /** The containers of its board that the builder has been given. */
    ghost var given: seq<seq<byte>>

    /** The bank is empty, or holds one open spill right behind its header, or a contradicted
        spill that ends with its trailer. */
    ghost predicate Consistent()
      reads this, memBank.data
    {
      && memBank.layout.FragmentHeader?
      && memBank.data.bytes == Sized(spill.Held(), slack)
      && memBank.data.spillHeaders == (if spill.Idle? then [] else [FRAGMENT_HEADER_SIZE])
      && memBank.data.spillTrailers == (if spill.Broken? then [|memBank.data.bytes| - 4] else [])
      && (spill.Open? ==> |memBank.data.bytes| >= 12)
      && (spill.Broken? ==> |memBank.data.bytes| >= 16)
      && (slack > 0 ==> spill.Open?)
    }

    /** The spill and the excess of the size header are those of the whole run so far. */
    ghost predicate Traced()
      reads this
    {
      && spill == Replay(decoder, Idle, given).spill
      && slack == SlackRun(decoder, given)
      && forall i :: 0 <= i < |given| ==> |given[i]| < TWO_TO_32
    }

    ghost predicate Valid()
      reads this, memBank.data
    {
      Consistent() && Traced()
    }

    constructor (decoder: Decoder, id: int)
      ensures Valid() && fresh(memBank.data) && spill == Idle && given == []
      ensures this.decoder == decoder && boardId == id
    {
      this.decoder, boardId := decoder, id;
      memBank := new BMDMemBank(FragmentHeader);
      spill, slack, given := Idle, 0, [];
      new;
      assert Flat(Idle.Held()) == [];
      assert memBank.data.bytes == memBank.data.bytes[0..8];
    }

    /** The size header of the bank differs from its true size if and only if a nonempty container
        without boundaries came inside an open spill and everything since was refused without a
        contradiction; it is then too large by exactly that container. */
    lemma SizeHeaderWrongIff()
      requires Valid() && |memBank.data.bytes| < TWO_TO_64
      ensures var b := memBank.data.bytes;
              && |b| >= FRAGMENT_HEADER_SIZE
              && (SizeField(b) != |b| <==> exists k :: CountedTwice(decoder, given, k))
              && forall k :: CountedTwice(decoder, given, k) ==>
                   0 <= k < |given| && SizeField(b) == (|b| + |given[k]|) % TWO_TO_64
    {
      hide Replay, SlackRun, SizeField, CountedTwice;
      SizeWrongIff(decoder, given);
      CountedInside(decoder, given);
    }

    method SetBoardId(b: int)
      modifies this`boardId
      ensures boardId == b
    {
      boardId := b;
    }

    /** The builder and the event bank are where the word-at-a-time parser says that the words
        `ts` lead from `before`: the same spill, the same error, the fragment handed over. */
    ghost predicate TookIn(before: Spill, slackBefore: nat, ts: seq<Token>, fault: Option<Fault>,
                           out: BMDMemBank, frs: seq<seq<Token>>)
      reads this, memBank.data, out.data
    {
      var p := Feed(decoder, before, ts);
      && Consistent() && EventBank(out, frs + p.done)
      && fault == p.fault && spill == p.spill
      && slack == SlackAfter(decoder, before, slackBefore, ts)
    }

    /** Takes in one scanned container of this board, whatever way the stream is cut into
        containers. A refusal changes neither bank, but a contradicted spill stays in the
        fragment bank. */
    method Process(c: UFEDataContainer, out: BMDMemBank, ghost frs: seq<seq<Token>>) returns (fault: Option<Fault>)
      requires Valid() && c.Scanned(decoder) && EventBank(out, frs)
      requires c != memBank.data && c != out.data && memBank.data != out.data
      modifies this`spill, this`slack, this`given, memBank.data, out.data
      ensures Valid()
      ensures c.boardId == boardId ==> TookIn(old(spill), old(slack), Tokens(c.bytes), fault, out, frs)
      ensures c.boardId == boardId ==> given == old(given) + [c.bytes]
      ensures c.boardId != boardId ==> fault == Some(WrongBoard) && unchanged(this)
      ensures fault.Some? ==> unchanged(out.data)
      ensures fault.Some? && fault.value != Mismatch ==> unchanged(memBank.data)
    {
      hide Feed, Flat, Offsets, Tokens, Replay, SlackRun;
      if c.boardId != boardId {
        return Some(WrongBoard);
      }
      TraceSnoc(decoder, given, c.bytes);
      given := given + [c.bytes];
      if |c.spillHeaders| > 1 || |c.spillTrailers| > 1 || |memBank.data.spillTrailers| > 0 {
        FeedMultiple(decoder, spill, Tokens(c.bytes));
        assert frs + [] == frs;
        return Some(MultipleSpills);
      }
      if |memBank.data.spillHeaders| == 0 {
        fault := ProcessOutside(c, out, frs);
      } else {
        // The bank never holds a second header, so this is the case of exactly one.
        fault := ProcessInside(c, out, frs);
      }
    }

    /** No spill so far: a header is expected. */
    method ProcessOutside(c: UFEDataContainer, out: BMDMemBank, ghost frs: seq<seq<Token>>)
      returns (fault: Option<Fault>)
      requires Consistent() && c.Scanned(decoder) && EventBank(out, frs) && spill.Idle?
      requires |c.spillHeaders| <= 1 && |c.spillTrailers| <= 1
      requires c != memBank.data && c != out.data && memBank.data != out.data
      modifies this`spill, this`slack, memBank.data, out.data
      ensures TookIn(old(spill), old(slack), Tokens(c.bytes), fault, out, frs)
      ensures fault.Some? ==> unchanged(out.data)
      ensures fault.Some? && fault.value != Mismatch ==> unchanged(memBank.data)
    {
      hide Feed, Offsets, Tokens, Rebase, Flat, Sized, Matches, Holds, HeaderMarks, TrailerMarks, KindOf, Records;
      ghost var ts := Tokens(c.bytes);
      assert frs + [] == frs;
      if |c.spillHeaders| != 0 {
        var h := c.spillHeaders[0];
        ghost var i := HeaderWord(c);
        if |c.spillTrailers| == 0 {
          FeedOpens(decoder, ts, i);
          KeepFrom(c, h, i);
          return None;
        } else if c.spillTrailers[0] >= h {
          ghost var j := TrailerWord(c);
          FeedWhole(decoder, ts, i, j);
          KeptBetween(c.bytes, i, j);
          fault := Complete(c, h, c.spillTrailers[0] - h + 4, ts[i..j + 1], out, frs);
          return;
        } else {
          // The trailer is left over from an earlier spill: ignored.
          ghost var j := TrailerWord(c);
          FeedOpens(decoder, ts, i);
          KeepFrom(c, h, i);
          return None;
        }
      } else if |c.spillHeaders| == 0 && |c.spillTrailers| == 0 {
        FeedSkips(decoder, ts);
        return None;
      }
      FeedRefused(decoder, spill, ts);
      return Some(Inconsistent);
    }

    /** In the middle of a spill: a trailer is expected. */
    method ProcessInside(c: UFEDataContainer, out: BMDMemBank, ghost frs: seq<seq<Token>>)
      returns (fault: Option<Fault>)
      requires Consistent() && c.Scanned(decoder) && EventBank(out, frs) && spill.Open?
      requires |c.spillHeaders| <= 1 && |c.spillTrailers| <= 1
      requires c != memBank.data && c != out.data && memBank.data != out.data
      modifies this`spill, this`slack, memBank.data, out.data
      ensures TookIn(old(spill), old(slack), Tokens(c.bytes), fault, out, frs)
      ensures fault.Some? ==> unchanged(out.data)
      ensures fault.Some? && fault.value != Mismatch ==> unchanged(memBank.data)
    {
      hide Feed, Offsets, Tokens, Rebase, Flat, Sized, Matches, Holds, HeaderMarks, TrailerMarks, KindOf, Records;
      ghost var ts := Tokens(c.bytes);
      ghost var ws := spill.words;
      assert frs + [] == frs;
      if |c.spillHeaders| == 0 && |c.spillTrailers| == 0 {
        FeedContinues(decoder, ws, ts);
        KeepAll(c);
        return None;
      } else if |c.spillHeaders| == 0 && |c.spillTrailers| == 1 {
        ghost var j := TrailerWord(c);
        FeedCloses(decoder, ws, ts, j);
        KeptUpTo(c.bytes, ws, j, slack);
        fault := Complete(c, 0, c.spillTrailers[0] + 4, ws + ts[..j + 1], out, frs);
        return;
      } else if |c.spillHeaders| == 1 && |c.spillTrailers| == 1 && c.spillTrailers[0] <= c.spillHeaders[0] {
        var h := c.spillHeaders[0];
        ghost var i := HeaderWord(c);
        ghost var j := TrailerWord(c);
        FeedTurns(decoder, ws, ts, j, i);
        KeptUpTo(c.bytes, ws, j, slack);
        fault := Complete(c, 0, c.spillTrailers[0] + 4, ws + ts[..j + 1], out, frs);
        if fault.None? {
          KeepFrom(c, h, i);
        }
        return;
      }
      FeedRefused(decoder, spill, ts);
      return Some(Inconsistent);
    }

    /** Puts the container from the header word on into the empty bank. */
    method KeepFrom(c: UFEDataContainer, h: nat, ghost i: nat)
      requires Consistent() && spill.Idle? && c != memBank.data
      requires h == 4 * i && h + 4 <= |c.bytes| < TWO_TO_32
      requires c.spillHeaders == [h] && |c.spillTrailers| <= 1
      requires |c.spillTrailers| == 1 ==> c.spillTrailers[0] < h
      modifies this`spill, this`slack, memBank.data
      ensures i < |Tokens(c.bytes)|
      ensures Consistent() && spill == Open(Tokens(c.bytes)[i..]) && slack == 0
    {
      hide Tokens, Rebase, Flat, LittleEndian, Overwrite, WithSize;
      RebaseShort();
      EmptyBank();
      KeptFrom(c.bytes, i);
      assert |c.spillTrailers| == 1 ==> c.spillTrailers == [c.spillTrailers[0]];
      memBank.AppendSlice(c, h, |c.bytes| - h);
      spill, slack := Open(Tokens(c.bytes)[i..]), 0;
    }

    /** Puts the whole container behind the open spill. */
    method KeepAll(c: UFEDataContainer)
      requires Consistent() && spill.Open? && c != memBank.data && c.spillHeaders == [] && c.spillTrailers == []
      modifies this`spill, this`slack, memBank.data
      ensures Consistent() && spill == Open(old(spill).words + Tokens(c.bytes)) && slack == |Flat(Tokens(c.bytes))|
    {
      hide Tokens, Rebase, Flat, LittleEndian, FromLittleEndian, Overwrite, WithSize;
      RebaseShort();
      KeptWhole(c.bytes, spill.words, slack);
      memBank.Append(c);
      memBank.AddToSize(|c.bytes|);
      spill, slack := Open(spill.words + Tokens(c.bytes)), |c.bytes|;
    }

    /** Appends the slice that ends with the trailer, and hands the fragment over. */
    method Complete(c: UFEDataContainer, pos: nat, size: nat, ghost ws: seq<Token>,
                    out: BMDMemBank, ghost frs: seq<seq<Token>>)
      returns (fault: Option<Fault>)
      requires Consistent() && !spill.Broken? && EventBank(out, frs)
      requires c != memBank.data && c != out.data && memBank.data != out.data
      requires pos < TWO_TO_32 && size >= 4 && pos + size <= |c.bytes|
      requires c.spillTrailers == [pos + size - 4]
      requires if spill.Idle? then c.spillHeaders == [pos] && size >= 8
               else c.spillHeaders == [] || (|c.spillHeaders| == 1 && c.spillHeaders[0] >= pos + size)
      requires WithSize(memBank.data.bytes + c.bytes[pos..pos + size]) == Record(ws)
      modifies this`spill, this`slack, memBank.data, out.data
      ensures Consistent() && slack == 0
      ensures fault == if Matches(decoder, ws) then None else Some(Mismatch)
      ensures spill == if Matches(decoder, ws) then Idle else Broken(ws)
      ensures EventBank(out, if Matches(decoder, ws) then frs + [ws] else frs)
      ensures fault.Some? ==> unchanged(out.data)
    {
      hide Rebase, Flat, LittleEndian, FromLittleEndian, Overwrite, WithSize,
        Matches, Holds, HeaderMarks, TrailerMarks, Records;
      RebaseShort();
      EmptyBank();
      assert |c.spillHeaders| == 1 ==> c.spillHeaders == [c.spillHeaders[0]];
      memBank.AppendSlice(c, pos, size);
      slack := 0;
      var ok := MoveToEventBank(out, ws, frs);
      spill := if ok then Idle else Broken(ws);
      return if ok then None else Some(Mismatch);
    }

    /** Hands a completed fragment over, if its header and trailer agree. */
    method MoveToEventBank(out: BMDMemBank, ghost ws: seq<Token>, ghost frs: seq<seq<Token>>) returns (ok: bool)
      requires memBank.layout.FragmentHeader? && memBank.data != out.data && EventBank(out, frs)
      requires memBank.data.bytes == Record(ws) && |memBank.data.bytes| >= 16
      requires memBank.data.spillHeaders == [FRAGMENT_HEADER_SIZE]
      requires memBank.data.spillTrailers == [|memBank.data.bytes| - 4]
      modifies memBank.data, out.data
      ensures ok == Matches(decoder, ws)
      ensures ok ==> memBank.data.bytes == Sized([], 0) && EventBank(out, frs + [ws])
      ensures ok ==> memBank.data.spillHeaders == [] && memBank.data.spillTrailers == []
      ensures !ok ==> unchanged(memBank.data) && unchanged(out.data)
    {
      hide Records, HeaderMarks, TrailerMarks, Record, Rebase, Flat, LittleEndian, Overwrite, FromLittleEndian;
      var h := memBank.data.spillHeaders[0];
      var t := memBank.data.spillTrailers[0] - 8;
      ok := SameSpill(decoder, memBank.data.bytes, h, t);
      if !ok {
        return;
      }
      ghost var b := out.data.bytes;
      HoldsOneMore(b, frs, ws);
      HeaderMarksSnoc(frs, ws);
      TrailerMarksSnoc(frs, ws);
      RebaseShort();
      out.Append(memBank.data);
      out.CountFragment();
      memBank.Clear();
      ClearedIsEmpty(memBank.data.bytes);
    }

    /** The word a lone header marker points to. */
    lemma HeaderWord(c: UFEDataContainer) returns (i: nat)
      requires c.Scanned(decoder) && |c.spillHeaders| == 1
      ensures i < |Tokens(c.bytes)| && c.spillHeaders == [4 * i] && 4 * i + 4 <= |c.bytes|
      ensures KindOf(decoder, Tokens(c.bytes)[i]) == SpillHeader
    {
      i := OneOffset(decoder, Tokens(c.bytes), SpillHeader);
      MarkedWord(decoder, c.bytes, i);
    }

    /** The word a lone trailer marker points to. */
    lemma TrailerWord(c: UFEDataContainer) returns (j: nat)
      requires c.Scanned(decoder) && |c.spillTrailers| == 1
      ensures j < |Tokens(c.bytes)| && c.spillTrailers == [4 * j] && 4 * j + 4 <= |c.bytes|
      ensures KindOf(decoder, Tokens(c.bytes)[j]) == SpillTrailer2
    {
      j := OneOffset(decoder, Tokens(c.bytes), SpillTrailer2);
      MarkedWord(decoder, c.bytes, j);
    }
  }

  lemma TraceSnoc(d: Decoder, chunks: seq<seq<byte>>, c: seq<byte>)
    ensures Replay(d, Idle, chunks + [c]).spill == Feed(d, Replay(d, Idle, chunks).spill, Tokens(c)).spill
    ensures SlackRun(d, chunks + [c]) ==
            SlackAfter(d, Replay(d, Idle, chunks).spill, SlackRun(d, chunks), Tokens(c))
  {
    hide Feed, Tokens, SlackAfter;
    assert (chunks + [c])[..|chunks|] == chunks;
  }

  lemma EmptyBank()
    ensures |Flat([])| == 0
  {
  }

  lemma ClearedIsEmpty(b: seq<byte>)
    requires |b| == FRAGMENT_HEADER_SIZE && b[0..8] == LittleEndian(FRAGMENT_HEADER_SIZE, 8)
    ensures b == Sized([], 0)
  {
    assert b == b[0..8];
  }

  // ---- the slices a builder keeps, in terms of words

  /** Into an empty bank: the container from word `i` on. */
  lemma KeptFrom(b: seq<byte>, i: nat)
    requires 4 * i + 4 <= |b|
    ensures i < |Tokens(b)|
    ensures WithSize(Sized([], 0) + b[4 * i..4 * i + (|b| - 4 * i)]) == Record(Tokens(b)[i..])
  {
    hide Flat, WithSize, Sized, Record, Overwrite;
    FlatTail(b, i);
    AppendRepairs([], 0, Tokens(b)[i..]);
    assert [] + Tokens(b)[i..] == Tokens(b)[i..];
    assert b[4 * i..4 * i + (|b| - 4 * i)] == b[4 * i..];
  }

  /** Into an empty bank: the words `i` to `j`. */
  lemma KeptBetween(b: seq<byte>, i: nat, j: nat)
    requires i < j && 4 * j + 4 <= |b|
    ensures j < |Tokens(b)|
    ensures WithSize(Sized([], 0) + b[4 * i..4 * i + (4 * j - 4 * i + 4)]) == Record(Tokens(b)[i..j + 1])
  {
    hide Flat, WithSize, Sized, Record, Overwrite;
    FlatSlice(b, i, j + 1);
    AppendRepairs([], 0, Tokens(b)[i..j + 1]);
    assert [] + Tokens(b)[i..j + 1] == Tokens(b)[i..j + 1];
  }

  /** Behind an open spill: the container up to and including word `j`. */
  lemma KeptUpTo(b: seq<byte>, ws: seq<Token>, j: nat, slack: nat)
    requires 4 * j + 4 <= |b|
    ensures j < |Tokens(b)|
    ensures WithSize(Sized(ws, slack) + b[0..0 + (4 * j + 4)]) == Record(ws + Tokens(b)[..j + 1])
  {
    hide Flat, WithSize, Sized, Record, Overwrite;
    FlatSlice(b, 0, j + 1);
    assert Tokens(b)[0..j + 1] == Tokens(b)[..j + 1];
    AppendRepairs(ws, slack, Tokens(b)[..j + 1]);
  }

  /** Behind an open spill: the whole container, counted twice in the size header. */
  lemma KeptWhole(b: seq<byte>, ws: seq<Token>, slack: nat)
    ensures var r := WithSize(Sized(ws, slack) + b);
            Overwrite(r, 0, LittleEndian(SizeField(r) + |b|, 8)) == Sized(ws + Tokens(b), |b|)
    ensures |Flat(Tokens(b))| == |b|
  {
    hide Flat, WithSize, Sized, Record, Overwrite;
    FlatTokens(b);
    AppendRepairs(ws, slack, Tokens(b));
    AddOvercounts(ws + Tokens(b), |b|);
  }
}
