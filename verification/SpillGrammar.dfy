/** What the word-at-a-time parser recognises, said without a parser: a stream is gaps and
    fragments in turn, and every word belongs to exactly one of them. */
module SpillGrammar {
  import opened SpillWords
  import opened SpillParser
  import opened Wrappers

  /** A spill from its header on, not closed yet. */
  ghost predicate Opened(d: Decoder, ws: seq<Token>) {
    && |ws| >= 1 && KindOf(d, ws[0]) == SpillHeader
    && forall i :: 1 <= i < |ws| ==> !IsBoundary(d, ws[i])
  }

  /** A header, words that are no boundary, a trailer. */
  ghost predicate Bracketed(d: Decoder, ws: seq<Token>) {
    && |ws| >= 2 && KindOf(d, ws[0]) == SpillHeader && KindOf(d, ws[|ws| - 1]) == SpillTrailer2
    && forall i :: 1 <= i < |ws| - 1 ==> !IsBoundary(d, ws[i])
  }

  /** A fragment that may be recorded. */
  ghost predicate WellFormed(d: Decoder, ws: seq<Token>) {
    Bracketed(d, ws) && Matches(d, ws)
  }

  ghost predicate Shaped(d: Decoder, s: Spill) {
    match s
    case Idle => true
    case Open(ws) => Opened(d, ws)
    case Broken(ws) => Bracketed(d, ws) && !Matches(d, ws)
  }

  ghost predicate AllWellFormed(d: Decoder, frs: seq<seq<Token>>) {
    forall i :: 0 <= i < |frs| ==> WellFormed(d, frs[i])
  }

  /** gap, fragment, gap, ..., fragment, gap */
  function Weave(gaps: seq<seq<Token>>, frs: seq<seq<Token>>): seq<Token>
    requires |gaps| == |frs| + 1
  {
    var n := |frs|;
    if n == 0 then gaps[0]
    else Weave(gaps[..n], frs[..n - 1]) + frs[n - 1] + gaps[n]
  }

  /** The words are these gaps, these fragments and this spill that is still held. */
  ghost predicate Explains(d: Decoder, ts: seq<Token>, gaps: seq<seq<Token>>, frs: seq<seq<Token>>, s: Spill) {
    && |gaps| == |frs| + 1
    && (forall i :: 0 <= i < |gaps| ==> NoneOf(d, gaps[i], SpillHeader))
    && AllWellFormed(d, frs)
    && !s.Broken? && Shaped(d, s)
    && ts == Weave(gaps, frs) + s.Held()
  }

  lemma WeaveSnoc(gaps: seq<seq<Token>>, frs: seq<seq<Token>>, fr: seq<Token>, gap: seq<Token>)
    requires |gaps| == |frs| + 1
    ensures Weave(gaps + [gap], frs + [fr]) == Weave(gaps, frs) + fr + gap
  {
    assert (gaps + [gap])[..|frs| + 1] == gaps && (frs + [fr])[..|frs|] == frs;
  }

  lemma WeaveLast(gaps: seq<seq<Token>>, frs: seq<seq<Token>>, w: Token)
    requires |gaps| == |frs| + 1
    ensures Weave(gaps[|frs| := gaps[|frs|] + [w]], frs) == Weave(gaps, frs) + [w]
  {
    var n := |frs|;
    var g := gaps[n := gaps[n] + [w]];
    if n > 0 {
      assert g[..n] == gaps[..n];
    }
  }

  /** Whatever the parser accepts is such a stream, with the fragments it found. */
  lemma {:induction false} ParseExplained(d: Decoder, ts: seq<Token>) returns (gaps: seq<seq<Token>>)
    requires Parse(d, Start(Idle), ts).fault.None?
    ensures var p := Parse(d, Start(Idle), ts); Explains(d, ts, gaps, p.done, p.spill)
  {
    if ts == [] {
      gaps := [[]];
    } else {
      var n := |ts| - 1;
      var q := Parse(d, Start(Idle), ts[..n]);
      var w := ts[n];
      var gaps0 := ParseExplained(d, ts[..n]);
      assert ts == ts[..n] + [w];
      ExplainStep(d, ts[..n], w, gaps0, q);
      gaps := GapsAfter(d, gaps0, q, w);
    }
  }

  /** How the gaps grow with one more word. */
  function GapsAfter(d: Decoder, gaps: seq<seq<Token>>, q: Progress, w: Token): seq<seq<Token>>
    requires |gaps| == |q.done| + 1
  {
    if q.spill.Idle? && KindOf(d, w) != SpillHeader then gaps[|q.done| := gaps[|q.done|] + [w]]
    else if q.spill.Open? && KindOf(d, w) == SpillTrailer2 then gaps + [[]]
    else gaps
  }

  lemma StepShapes(d: Decoder, p: Progress, w: Token)
    requires Shaped(d, p.spill) && AllWellFormed(d, p.done)
    ensures Shaped(d, Step(d, p, w).spill) && AllWellFormed(d, Step(d, p, w).done)
  {
    hide Matches;
  }

  lemma ExplainStep(d: Decoder, ts: seq<Token>, w: Token, gaps: seq<seq<Token>>, q: Progress)
    requires q.fault.None? && Explains(d, ts, gaps, q.done, q.spill)
    requires Step(d, q, w).fault.None?
    ensures var p := Step(d, q, w); Explains(d, ts + [w], GapsAfter(d, gaps, q, w), p.done, p.spill)
  {
    hide Matches, Weave, AllWellFormed, Shaped, NoneOf, GapsAfter;
    StepShapes(d, q, w);
    GapsStayClean(d, gaps, q, w);
    StepWeaves(d, ts, w, gaps, q);
  }

  lemma GapsStayClean(d: Decoder, gaps: seq<seq<Token>>, q: Progress, w: Token)
    requires |gaps| == |q.done| + 1
    requires forall i :: 0 <= i < |gaps| ==> NoneOf(d, gaps[i], SpillHeader)
    ensures var g := GapsAfter(d, gaps, q, w); forall i :: 0 <= i < |g| ==> NoneOf(d, g[i], SpillHeader)
  {
  }

  lemma StepWeaves(d: Decoder, ts: seq<Token>, w: Token, gaps: seq<seq<Token>>, q: Progress)
    requires q.fault.None? && !q.spill.Broken? && Step(d, q, w).fault.None?
    requires |gaps| == |q.done| + 1 && ts == Weave(gaps, q.done) + q.spill.Held()
    ensures var g, p := GapsAfter(d, gaps, q, w), Step(d, q, w);
            |g| == |p.done| + 1 && !p.spill.Broken? && ts + [w] == Weave(g, p.done) + p.spill.Held()
  {
    hide Matches, Weave, KindOf;
    var x := Weave(gaps, q.done);
    if q.spill.Idle? {
      assert ts == x;
      if KindOf(d, w) != SpillHeader {
        WeaveLast(gaps, q.done, w);
        assert x + [w] + [] == x + [w];
      }
    } else {
      var ws := q.spill.words;
      assert x + ws + [w] == x + (ws + [w]);
      if KindOf(d, w) == SpillTrailer2 {
        WeaveSnoc(gaps, q.done, ws + [w], []);
        assert x + (ws + [w]) + [] + [] == x + (ws + [w]);
      }
    }
  }

  /** Every such stream is accepted, and the parser finds exactly its fragments. */
  lemma ExplainedParses(d: Decoder, ts: seq<Token>, gaps: seq<seq<Token>>, frs: seq<seq<Token>>, s: Spill)
    requires Explains(d, ts, gaps, frs, s)
    ensures Parse(d, Start(Idle), ts) == Progress(s, frs, None)
  {
    var w := Weave(gaps, frs);
    WeaveParses(d, gaps, frs);
    ParseAppend(d, Start(Idle), w, s.Held());
    if s.Open? {
      ParseOpened(d, Progress(Idle, frs, None), s.words);
    } else {
      assert w + [] == w;
    }
  }

  lemma {:induction false} WeaveParses(d: Decoder, gaps: seq<seq<Token>>, frs: seq<seq<Token>>)
    requires |gaps| == |frs| + 1 && AllWellFormed(d, frs)
    requires forall i :: 0 <= i < |gaps| ==> NoneOf(d, gaps[i], SpillHeader)
    ensures Parse(d, Start(Idle), Weave(gaps, frs)) == Progress(Idle, frs, None)
  {
    hide Matches, Parse;
    var n := |frs|;
    if n == 0 {
      ParseGap(d, Start(Idle), gaps[0]);
    } else {
      var before := Weave(gaps[..n], frs[..n - 1]);
      var p := Progress(Idle, frs[..n - 1], None);
      var q := Progress(Idle, frs, None);
      assert forall i :: 0 <= i < n ==> gaps[..n][i] == gaps[i];
      WeaveParses(d, gaps[..n], frs[..n - 1]);
      ParseAppend(d, Start(Idle), before, frs[n - 1]);
      ParseFragment(d, p, frs[n - 1]);
      assert frs[..n - 1] + [frs[n - 1]] == frs;
      ParseAppend(d, Start(Idle), before + frs[n - 1], gaps[n]);
      ParseGap(d, q, gaps[n]);
    }
  }

  lemma ParseOpened(d: Decoder, p: Progress, ws: seq<Token>)
    requires p.fault.None? && p.spill.Idle? && Opened(d, ws)
    ensures Parse(d, p, ws) == p.(spill := Open(ws))
  {
    hide Parse;
    assert forall i :: 0 <= i < |ws| - 1 ==> !IsBoundary(d, ws[1..][i]);
    ParseTail(d, p, ws, 0);
    assert ws[0..] == ws;
  }

  lemma ParseFragment(d: Decoder, p: Progress, ws: seq<Token>)
    requires p.fault.None? && p.spill.Idle? && WellFormed(d, ws)
    ensures Parse(d, p, ws) == p.(done := p.done + [ws])
  {
    var n := |ws| - 1;
    ParseOpened(d, p, ws[..n]);
    assert ws[..n] + [ws[n]] == ws;
  }

  /** The parser accepts a stream with these fragments and this open spill exactly when the
      stream is made of them and of gaps without a header. */
  lemma ParserMeaning(d: Decoder, ts: seq<Token>, frs: seq<seq<Token>>, s: Spill)
    ensures Parse(d, Start(Idle), ts) == Progress(s, frs, None)
            <==> exists gaps :: Explains(d, ts, gaps, frs, s)
  {
    hide Parse, Explains;
    if Parse(d, Start(Idle), ts) == Progress(s, frs, None) {
      var gaps := ParseExplained(d, ts);
    }
    forall gaps | Explains(d, ts, gaps, frs, s)
      ensures Parse(d, Start(Idle), ts) == Progress(s, frs, None)
    {
      ExplainedParses(d, ts, gaps, frs, s);
    }
  }

  /** Whatever happens, errors included, the parser holds and emits only spills of the right shape. */
  lemma {:induction false} ParseShapes(d: Decoder, p: Progress, ts: seq<Token>)
    requires Shaped(d, p.spill) && AllWellFormed(d, p.done)
    ensures var q := Parse(d, p, ts); Shaped(d, q.spill) && AllWellFormed(d, q.done)
  {
    hide AllWellFormed, Shaped, Step;
    if ts == [] {
    } else {
      ParseShapes(d, p, ts[..|ts| - 1]);
      StepShapes(d, Parse(d, p, ts[..|ts| - 1]), ts[|ts| - 1]);
    }
  }
}
