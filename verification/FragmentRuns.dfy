/** One fragment builder over a whole run: any number of containers of its board, whatever
    they hold, errors included. */
module FragmentRuns {
  import opened Bytes
  import opened SpillWords
  import opened DataHeaders
  import opened SpillParser
  import opened SpillGrammar
  import opened Wrappers

  /** What is left of a run: the spill still held, all fragments handed over, all outcomes. */
  datatype History = History(spill: Spill, done: seq<seq<Token>>, faults: seq<Option<Fault>>)
  {
    ghost predicate Accepted() {
      forall i :: 0 <= i < |faults| ==> faults[i].None?
    }
  }

  function Replay(d: Decoder, s: Spill, chunks: seq<seq<byte>>): (h: History)
    ensures |h.faults| == |chunks|
  {
    if chunks == [] then History(s, [], [])
    else
      var n := |chunks| - 1;
      var h := Replay(d, s, chunks[..n]);
      var p := Feed(d, h.spill, Tokens(chunks[n]));
      History(p.spill, h.done + p.done, h.faults + [p.fault])
  }

  /** All words of a run. */
  function Stream(chunks: seq<seq<byte>>): seq<Token> {
    if chunks == [] then [] else Stream(chunks[..|chunks| - 1]) + Tokens(chunks[|chunks| - 1])
  }

  function Concat(chunks: seq<seq<byte>>): seq<byte> {
    if chunks == [] then [] else Concat(chunks[..|chunks| - 1]) + chunks[|chunks| - 1]
  }

  // ------------------------------------------------------ single containers

  /** The parser does not look at what it has emitted before. */
  lemma {:induction false} ParseFrom(d: Decoder, s: Spill, done: seq<seq<Token>>, ts: seq<Token>)
    ensures var p := Parse(d, Start(s), ts);
            Parse(d, Progress(s, done, None), ts) == p.(done := done + p.done)
  {
    hide Matches, KindOf;
    if ts == [] {
      assert done + [] == done;
    } else {
      var n := |ts| - 1;
      ParseFrom(d, s, done, ts[..n]);
      var p := Parse(d, Start(s), ts[..n]);
      if p.spill.Open? {
        var ws := p.spill.words + [ts[n]];
        assert done + (p.done + [ws]) == done + p.done + [ws];
      }
    }
  }

  /** An emitted fragment uses up a trailer. */
  lemma {:induction false} EmitsTrailers(d: Decoder, s: Spill, ts: seq<Token>)
    ensures |Parse(d, Start(s), ts).done| <= |Offsets(d, ts, SpillTrailer2)|
  {
    hide Matches;
    if ts == [] {
    } else {
      EmitsTrailers(d, s, ts[..|ts| - 1]);
    }
  }

  /** Each container completes at most one fragment, and none if it is refused. */
  lemma AtMostOne(d: Decoder, s: Spill, ts: seq<Token>)
    ensures |Feed(d, s, ts).done| <= 1
    ensures Feed(d, s, ts).fault.Some? ==> Feed(d, s, ts).done == []
  {
    hide Parse, Offsets;
    EmitsTrailers(d, s, ts);
  }

  /** Every error but the contradicted spill leaves the builder as it was. */
  lemma FaultKeeps(d: Decoder, s: Spill, ts: seq<Token>)
    ensures var p := Feed(d, s, ts);
            p.fault.Some? && p.fault != Some(Mismatch) ==> p.spill == s
    ensures Feed(d, s, ts).fault == Some(Mismatch) ==> !s.Broken? && Feed(d, s, ts).spill.Broken?
  {
    hide Offsets, Matches;
    MismatchBreaks(d, s, ts);
  }

  lemma {:induction false} MismatchBreaks(d: Decoder, s: Spill, ts: seq<Token>)
    ensures var p := Parse(d, Start(s), ts);
            p.fault == Some(Mismatch) <==> p.fault.Some? && p.spill.Broken? && !s.Broken?
    ensures Parse(d, Start(s), ts).fault.None? && !s.Broken? ==> !Parse(d, Start(s), ts).spill.Broken?
    ensures s.Broken? ==> Parse(d, Start(s), ts).spill == s
  {
    hide Matches, KindOf;
    if ts == [] {
    } else {
      MismatchBreaks(d, s, ts[..|ts| - 1]);
    }
  }

  lemma FeedShapes(d: Decoder, s: Spill, ts: seq<Token>)
    requires Shaped(d, s)
    ensures Shaped(d, Feed(d, s, ts).spill) && AllWellFormed(d, Feed(d, s, ts).done)
  {
    hide Parse, Shaped, WellFormed, Offsets;
    ParseShapes(d, Start(s), ts);
  }

  // ------------------------------------------------------------- whole runs

  /** A run that is accepted emits and holds what the word-at-a-time parser does on the
      concatenation of all words, however it was cut into containers. */
  lemma {:induction false} RunRefinesParser(d: Decoder, s: Spill, chunks: seq<seq<byte>>)
    requires Replay(d, s, chunks).Accepted()
    ensures var h := Replay(d, s, chunks);
            Parse(d, Start(s), Stream(chunks)) == Progress(h.spill, h.done, None)
  {
    hide Parse, Offsets, Tokens;
    if chunks == [] {
      ParseNothing(d, Start(s));
    } else {
      var n := |chunks| - 1;
      var h := Replay(d, s, chunks[..n]);
      assert forall i :: 0 <= i < n ==> h.faults[i] == Replay(d, s, chunks).faults[i];
      assert Replay(d, s, chunks).faults[n].None?;
      RunRefinesParser(d, s, chunks[..n]);
      ParseAppend(d, Start(s), Stream(chunks[..n]), Tokens(chunks[n]));
      ParseFrom(d, h.spill, h.done, Tokens(chunks[n]));
    }
  }

  lemma ParseNothing(d: Decoder, p: Progress)
    ensures Parse(d, p, []) == p
  {
  }

  /** A container with a trailer and no header. */
  predicate LoneTrailer(d: Decoder, ts: seq<Token>) {
    |Offsets(d, ts, SpillHeader)| == 0 && |Offsets(d, ts, SpillTrailer2)| == 1
  }

  predicate OneSpillAtMost(d: Decoder, ts: seq<Token>) {
    |Offsets(d, ts, SpillHeader)| <= 1 && |Offsets(d, ts, SpillTrailer2)| <= 1
  }

  /** The conditions on the stream and its cuts under which nothing is refused. */
  ghost predicate Acceptable(d: Decoder, s: Spill, chunks: seq<seq<byte>>) {
    Parse(d, Start(s), Stream(chunks)).fault.None? && CutsFit(d, s, chunks)
  }

  /** No container has two headers or two trailers, and none has a trailer alone outside a spill. */
  ghost predicate CutsFit(d: Decoder, s: Spill, chunks: seq<seq<byte>>) {
    forall k :: 0 <= k < |chunks| ==>
      && OneSpillAtMost(d, Tokens(chunks[k]))
      && (LoneTrailer(d, Tokens(chunks[k])) ==> !Parse(d, Start(s), Stream(chunks[..k])).spill.Idle?)
  }

  /** A run is accepted exactly when the parser has no objection to the stream, no container
      holds two headers or two trailers, and no trailer comes alone outside a spill. */
  lemma {:induction false} AcceptedIff(d: Decoder, s: Spill, chunks: seq<seq<byte>>)
    requires !s.Broken?
    ensures Replay(d, s, chunks).Accepted() <==> Acceptable(d, s, chunks)
  {
    hide Parse, Offsets, Tokens, Stream;
    if chunks == [] {
      ParseNothing(d, Start(s));
      StreamEdges(chunks);
    } else {
      var n := |chunks| - 1;
      var init := chunks[..n];
      AcceptedIff(d, s, init);
      AcceptedSplit(d, s, chunks);
      AcceptableSplit(d, s, chunks);
      if Replay(d, s, init).Accepted() {
        AcceptedStep(d, s, chunks);
      }
    }
  }

  lemma StreamEdges(chunks: seq<seq<byte>>)
    ensures Stream([]) == []
    ensures chunks != [] ==> Stream(chunks) == Stream(chunks[..|chunks| - 1]) + Tokens(chunks[|chunks| - 1])
  {
  }

  lemma AcceptedSplit(d: Decoder, s: Spill, chunks: seq<seq<byte>>)
    requires chunks != []
    ensures var n := |chunks| - 1;
            var h := Replay(d, s, chunks[..n]);
            Replay(d, s, chunks).Accepted() <==> h.Accepted() && Feed(d, h.spill, Tokens(chunks[n])).fault.None?
  {
    hide Feed, Tokens;
    var n := |chunks| - 1;
    var h, g := Replay(d, s, chunks[..n]), Replay(d, s, chunks);
    assert g.faults[n] == Feed(d, h.spill, Tokens(chunks[n])).fault;
    assert forall i :: 0 <= i < n ==> g.faults[i] == h.faults[i];
  }

  lemma AcceptableSplit(d: Decoder, s: Spill, chunks: seq<seq<byte>>)
    requires chunks != []
    ensures var n := |chunks| - 1;
            Acceptable(d, s, chunks) <==>
            && Acceptable(d, s, chunks[..n])
            && Parse(d, Start(s), Stream(chunks)).fault.None?
            && OneSpillAtMost(d, Tokens(chunks[n]))
            && (LoneTrailer(d, Tokens(chunks[n])) ==> !Parse(d, Start(s), Stream(chunks[..n])).spill.Idle?)
  {
    hide Parse, Offsets, Tokens, Stream, OneSpillAtMost, LoneTrailer;
    var n := |chunks| - 1;
    var init := chunks[..n];
    StreamEdges(chunks);
    ParseAppend(d, Start(s), Stream(init), Tokens(chunks[n]));
    if Parse(d, Start(s), Stream(init)).fault.Some? {
      ParseFaulty(d, Parse(d, Start(s), Stream(init)), Tokens(chunks[n]));
    }
    assert forall k :: 0 <= k < n ==> init[k] == chunks[k] && init[..k] == chunks[..k];
  }

  lemma AcceptedStep(d: Decoder, s: Spill, chunks: seq<seq<byte>>)
    requires chunks != [] && !s.Broken? && Replay(d, s, chunks[..|chunks| - 1]).Accepted()
    ensures var n := |chunks| - 1;
            var p := Parse(d, Start(s), Stream(chunks[..n]));
            Feed(d, Replay(d, s, chunks[..n]).spill, Tokens(chunks[n])).fault.None? <==>
            && Parse(d, Start(s), Stream(chunks)).fault.None?
            && OneSpillAtMost(d, Tokens(chunks[n]))
            && (LoneTrailer(d, Tokens(chunks[n])) ==> !p.spill.Idle?)
  {
    hide Parse, Offsets, Tokens, Stream, Replay;
    var n := |chunks| - 1;
    var h := Replay(d, s, chunks[..n]);
    RunRefinesParser(d, s, chunks[..n]);
    MismatchBreaks(d, s, Stream(chunks[..n]));
    StreamEdges(chunks);
    ParseAppend(d, Start(s), Stream(chunks[..n]), Tokens(chunks[n]));
    ParseFrom(d, h.spill, h.done, Tokens(chunks[n]));
  }

  /** The same without a parser for the stream: a run from an empty builder is accepted, emits `frs`
      and leaves `s`, exactly when its words are gaps without a header, those fragments and that
      spill, in turn, and the cuts between containers fit. */
  lemma AcceptedMeaning(d: Decoder, chunks: seq<seq<byte>>, frs: seq<seq<Token>>, s: Spill)
    ensures var h := Replay(d, Idle, chunks);
            h.Accepted() && h.done == frs && h.spill == s
            <==> (exists gaps :: Explains(d, Stream(chunks), gaps, frs, s)) && CutsFit(d, Idle, chunks)
  {
    hide Replay, Parse, Stream, CutsFit, Explains;
    AcceptedIff(d, Idle, chunks);
    ParserMeaning(d, Stream(chunks), frs, s);
    if Replay(d, Idle, chunks).Accepted() {
      RunRefinesParser(d, Idle, chunks);
    }
  }

  ghost predicate WholeWords(chunks: seq<seq<byte>>) {
    forall i :: 0 <= i < |chunks| ==> |chunks[i]| % 4 == 0
  }

  lemma {:induction false} StreamOfWords(chunks: seq<seq<byte>>)
    requires WholeWords(chunks)
    ensures Stream(chunks) == Tokens(Concat(chunks)) && |Concat(chunks)| % 4 == 0
  {
    hide Tokens, Stream, Concat;
    StreamEdges(chunks);
    ConcatEdges(chunks);
    if chunks == [] {
    } else {
      var n := |chunks| - 1;
      StreamOfWords(chunks[..n]);
      TokensAppend(Concat(chunks[..n]), chunks[n]);
      assert |Concat(chunks)| == |Concat(chunks[..n])| + |chunks[n]|;
    }
  }

  lemma ConcatEdges(chunks: seq<seq<byte>>)
    ensures Concat([]) == []
    ensures chunks != [] ==> Concat(chunks) == Concat(chunks[..|chunks| - 1]) + chunks[|chunks| - 1]
  {
  }

  /** Two ways to cut the same data into containers of whole words, if both are accepted, give
      the same fragments and leave the same spill. */
  lemma ChunkingIndependence(d: Decoder, s: Spill, a: seq<seq<byte>>, b: seq<seq<byte>>)
    requires WholeWords(a) && WholeWords(b) && Concat(a) == Concat(b)
    requires Replay(d, s, a).Accepted() && Replay(d, s, b).Accepted()
    ensures Replay(d, s, a).done == Replay(d, s, b).done && Replay(d, s, a).spill == Replay(d, s, b).spill
  {
    hide Replay, Parse, Tokens, Concat;
    StreamOfWords(a);
    StreamOfWords(b);
    RunRefinesParser(d, s, a);
    RunRefinesParser(d, s, b);
  }

  /** Conservation: in an accepted run every word is in exactly one fragment, in the spill still
      held, or in a gap that no spill header opens. */
  lemma RunConserves(d: Decoder, chunks: seq<seq<byte>>) returns (gaps: seq<seq<Token>>)
    requires Replay(d, Idle, chunks).Accepted()
    ensures var h := Replay(d, Idle, chunks); Explains(d, Stream(chunks), gaps, h.done, h.spill)
  {
    hide Replay, Parse, Explains;
    RunRefinesParser(d, Idle, chunks);
    gaps := ParseExplained(d, Stream(chunks));
  }

  /** Over any run, refusals included, only well-formed fragments are handed over. */
  lemma {:induction false} RunShapes(d: Decoder, s: Spill, chunks: seq<seq<byte>>)
    requires Shaped(d, s)
    ensures var h := Replay(d, s, chunks); Shaped(d, h.spill) && AllWellFormed(d, h.done)
  {
    hide Feed, Shaped, WellFormed, Tokens;
    if chunks == [] {
    } else {
      var n := |chunks| - 1;
      RunShapes(d, s, chunks[..n]);
      FeedShapes(d, Replay(d, s, chunks[..n]).spill, Tokens(chunks[n]));
    }
  }

  /** A contradicted spill blocks its builder for good. */
  lemma {:induction false} Latched(d: Decoder, ws: seq<Token>, chunks: seq<seq<byte>>)
    ensures var h := Replay(d, Broken(ws), chunks);
            && h.spill == Broken(ws) && h.done == []
            && forall i :: 0 <= i < |chunks| ==> h.faults[i] == Some(MultipleSpills)
  {
    hide Tokens;
    if chunks == [] {
    } else {
      Latched(d, ws, chunks[..|chunks| - 1]);
    }
  }
}
