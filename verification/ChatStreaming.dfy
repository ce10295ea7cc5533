/**
  What a caller of the streaming parser relies on: text once shown is never retracted, and the
  reasoning shown is made of the sections of the input.
 */
module ChatStreaming {
  import opened Wrappers
  import opened Strings
  import opened ChatParser

  // ---------------------------------------------------------------- streaming never retracts

  predicate Extends(shorter: Output, longer: Output) {
    shorter.content <= longer.content && shorter.reasoning <= longer.reasoning
  }

  /** Two reads of one message: the first saw a prefix of what the second saw. */
  ghost predicate Grows(c: Source, d: Source) {
    && c.input <= d.input
    && c.syntax == d.syntax && c.startTag == d.startTag && c.endTag == d.endTag
    && (c.isPartial || !c.syntax.inContent)
  }

  lemma ExtendsThen(a: Output, b: Output, more: Output)
    ensures Extends(a, b) ==> Extends(a, b.Then(more))
    ensures Extends(a, b) ==> Extends(more.Then(a), more.Then(b))
  {
    if Extends(a, b) {
      assert a.content <= b.content <= b.content + more.content;
      assert a.reasoning <= b.reasoning <= b.reasoning + more.reasoning;
      assert more.content + a.content <= more.content + b.content;
      assert more.reasoning + a.reasoning <= more.reasoning + b.reasoning;
    }
  }

  /** A section that grows appends more, never something else. */
  lemma SectionGrows(c: Source, d: Source, u: string, v: string, closedU: bool, closedV: bool, pending: string)
    requires Grows(c, d) && u <= v && (closedU ==> !c.syntax.inContent)
    ensures Extends(Section(c, u, closedU, pending).0, Section(d, v, closedV, pending).0)
  {
    hide Strip;
    StripGrows(u, v);
    var su, sv := Strip(u), Strip(v);
    if su != "" {
      if c.syntax.inContent {
        assert OpenTag(c) + su <= OpenTag(c) + sv;
        assert OpenTag(c) + sv <= OpenTag(c) + sv + (if closedV then CloseTag(c) else "");
      } else {
        assert pending + su <= pending + sv;
      }
    }
  }

  lemma PartialSuffix(s: string, stop: string, cursor: nat, e: nat)
    requires cursor <= e && PartialAt(s, stop, e)
    ensures PartialAt(s[cursor..], stop, e - cursor)
  {
    assert s[cursor..][e - cursor..] == s[e..];
  }

  lemma OpenEndAtPartial(c: Source, cursor: nat, e: nat)
    requires cursor <= e && PartialAt(c.input, c.endTag, e)
    ensures OpenEnd(c, cursor) <= e
  {
    PartialSuffix(c.input, c.endTag, cursor, e);
  }

  /** The end of an open section never lies beyond where the longer text ends it. */
  lemma OpenEndBefore(c: Source, d: Source, cursor: nat, e: nat)
    requires Grows(c, d) && cursor < |c.input| && Find(c.input, c.endTag, cursor).None?
    requires cursor <= e <= |d.input|
    requires OccursAt(d.input, d.endTag, e) || PartialAt(d.input, d.endTag, e) || e == |d.input|
    ensures OpenEnd(c, cursor) <= e
  {
    hide OpenEnd, PartialAt, Find;
    if e < |c.input| {
      OccursInLonger(c.input, d.input, c.endTag, e);
      PartialInShorter(c.input, d.input, c.endTag, e);
      OpenEndAtPartial(c, cursor, e);
    } else {
      OpenEndInside(c, cursor);
    }
  }

  lemma OpenEndInside(c: Source, cursor: nat)
    requires cursor <= |c.input|
    ensures OpenEnd(c, cursor) <= |c.input|
  {
  }

  lemma OpenEndGrows(c: Source, d: Source, cursor: nat)
    requires Grows(c, d) && cursor < |c.input| && Find(c.input, c.endTag, cursor).None?
    ensures cursor <= OpenEnd(c, cursor) <= OpenEnd(d, cursor)
  {
    var off := PartialStop(d.input[cursor..], d.endTag);
    var e := OpenEnd(d, cursor);
    if off.Some? {
      assert d.input[cursor..][off.value..] == d.input[e..];
      assert PartialAt(d.input, d.endTag, e);
    }
    OpenEndBefore(c, d, cursor, e);
  }

  lemma TagGrows(c: Source, d: Source, at: nat)
    requires Grows(c, d) && at < |c.input|
    ensures TagAt(d, at) ==> TagAt(c, at)
    ensures TagAt(c, at) && TagLength(c, at) == |c.startTag| ==> TagAt(d, at)
    ensures TagLength(c, at) <= TagLength(d, at)
  {
    var n, m := TagLength(c, at), TagLength(d, at);
    SliceOfPrefix(c.input, d.input, at, at + n);
    TwoSlices(d.input, at, at + n, at + m);
    SliceOfPrefix(d.startTag[..m], d.startTag, 0, n);
  }

  /** One turn on the longer text goes at least as far, and reads the same when the shorter one went on. */
  lemma StepGrows(c: Source, d: Source, cursor: nat, pending: string)
    requires Grows(c, d) && cursor < |c.input|
    ensures var s, t := SectionStep(c, cursor, pending), SectionStep(d, cursor, pending);
            if s.More? then t == s else Extends(s.out, t.out)
  {
    hide Section, Find, OpenEnd, OpenIsClosed, AfterSection, Grows;
    GrowsInput(c, d);
    var e := Find(c.input, c.endTag, cursor);
    if e.Some? {
      FindStays(c.input, d.input, c.endTag, cursor);
      assert c.input[cursor..e.value] == d.input[cursor..e.value];
      SectionSame(c, d, c.input[cursor..e.value], pending);
      var (out, pending') := Section(c, c.input[cursor..e.value], true, pending);
      AfterGrows(c, d, e.value + |c.endTag|, out, pending');
    } else {
      OpenGrows(c, d, cursor, pending);
    }
  }

  lemma GrowsInput(c: Source, d: Source)
    requires Grows(c, d)
    ensures c.input <= d.input && c.startTag == d.startTag && c.endTag == d.endTag
  {
  }

  /** An open section that a longer text closes later, or leaves open. */
  lemma OpenGrows(c: Source, d: Source, cursor: nat, pending: string)
    requires Grows(c, d) && cursor < |c.input| && Find(c.input, c.endTag, cursor).None?
    ensures Extends(SectionStep(c, cursor, pending).out, SectionStep(d, cursor, pending).out)
  {
    hide Section, Find, OpenEnd, OpenIsClosed, AfterSection, Extends;
    ClosedInContent(c, cursor);
    var u := c.input[cursor..OpenEnd(c, cursor)];
    var f := Find(d.input, d.endTag, cursor);
    if f.Some? {
      OpenEndBefore(c, d, cursor, f.value);
      assert u == d.input[cursor..f.value][..OpenEnd(c, cursor) - cursor];
      SectionGrows(c, d, u, d.input[cursor..f.value], OpenIsClosed(c, cursor), true, pending);
    } else {
      OpenEndGrows(c, d, cursor);
      assert u == d.input[cursor..OpenEnd(d, cursor)][..OpenEnd(c, cursor) - cursor];
      SectionGrows(c, d, u, d.input[cursor..OpenEnd(d, cursor)], OpenIsClosed(c, cursor), OpenIsClosed(d, cursor), pending);
    }
  }

  lemma ClosedInContent(c: Source, cursor: nat)
    requires cursor <= |c.input| && (c.isPartial || !c.syntax.inContent)
    ensures OpenIsClosed(c, cursor) ==> !c.syntax.inContent
  {
    hide PartialStop;
  }

  lemma SectionSame(c: Source, d: Source, text: string, pending: string)
    requires Grows(c, d)
    ensures Section(c, text, true, pending) == Section(d, text, true, pending)
  {
  }

  lemma AfterGrows(c: Source, d: Source, e: nat, out: Output, pending: string)
    requires Grows(c, d) && e <= |c.input|
    ensures var s, t := AfterSection(c, e, out, pending), AfterSection(d, e, out, pending);
            t.out == out && (s.More? ==> t == s)
  {
    SkipSpacesGrows(c.input, d.input, e);
    if SkipSpaces(c.input, e) < |c.input| {
      TagGrows(c, d, SkipSpaces(c.input, e));
    }
  }

  lemma {:induction false} SectionsGrow(c: Source, d: Source, cursor: nat, pending: string)
    requires Grows(c, d) && cursor <= |c.input| && |c.startTag| + |c.endTag| > 0
    ensures Extends(Sections(c, cursor, pending).out, Sections(d, cursor, pending).out)
    decreases |c.input| - cursor
  {
    hide SectionStep;
    if cursor == |c.input| {
      AtEnd(c, cursor, pending);
    } else {
      StepGrows(c, d, cursor, pending);
      var s, t := SectionStep(c, cursor, pending), SectionStep(d, cursor, pending);
      match s
      case More(out, cursor', pending') =>
        SectionsGrow(c, d, cursor', pending');
        ExtendsThen(Sections(c, cursor', pending').out, Sections(d, cursor', pending').out, out);
      case Done(out, _) =>
        if t.More? {
          ExtendsThen(out, t.out, Sections(d, t.cursor, t.pending).out);
        }
    }
  }

  lemma AtEnd(c: Source, cursor: nat, pending: string)
    requires cursor == |c.input|
    ensures SectionStep(c, cursor, pending) == Done(NOTHING, |c.input|)
  {
  }

  /** The text an attempt appends; declining appends nothing. */
  function Shown(c: Source, pos: nat): Output
    requires pos <= |c.input| && Ends(c, pos)
  {
    match Reasoning(c, pos)
    case None => NOTHING
    case Some(p) => p.out
  }

  /**
    If one read saw a prefix of what a later read saw, then what the first showed, reasoning and
    content alike, is a prefix of what the later one shows. The first read may have been final
    only when reasoning is kept apart from the content.
   */
  lemma NeverRetracts(c: Source, d: Source, pos: nat)
    requires Grows(c, d) && pos <= |c.input| && Ends(c, pos) && Ends(d, pos)
    ensures Extends(Shown(c, pos), Shown(d, pos))
  {
    hide Sections, Section, Reasoning, SkipSpaces, TagAt;
    ReasoningCases(c, pos);
    ReasoningCases(d, pos);
    if c.syntax.format != NoReasoning {
      SkipSpacesGrows(c.input, d.input, pos);
      var w := SkipSpaces(c.input, pos);
      if w == |c.input| {
        BlankSection(c, pos);
      } else {
        TagGrows(c, d, w);
        if TagAt(c, w) && TagLength(c, w) == |c.startTag| {
          SectionsGrow(c, d, w + |c.startTag|, PrefixAfterTag(c, ""));
          SliceOfPrefix(c.input, d.input, pos, w);
          ExtendsThen(Sections(c, w + |c.startTag|, PrefixAfterTag(c, "")).out,
                      Sections(d, w + |c.startTag|, PrefixAfterTag(c, "")).out, Output(c.input[pos..w], ""));
        } else if !TagAt(c, w) && c.syntax.forcedOpen {
          SectionsGrow(c, d, w, "");
        }
      }
    }
  }

  lemma BlankSection(c: Source, pos: nat)
    requires pos <= |c.input| && SkipSpaces(c.input, pos) == |c.input|
    ensures Section(c, c.input[pos..], !c.isPartial, "").0 == NOTHING
  {
    assert c.input[pos..|c.input|] == c.input[pos..];
  }

  /** With a final read and reasoning kept inline, an early closing tag is shown and then retracted. */
  lemma FinalInlineReadRetracts()
    ensures var syntax := Syntax(Auto, true, false);
            var c := Source("<t>a", false, syntax, "<t>", "</t>");
            var d := Source("<t>ab", false, syntax, "<t>", "</t>");
            c.input <= d.input && !Extends(Shown(c, 0), Shown(d, 0))
  {
    hide Shown;
    var syntax := Syntax(Auto, true, false);
    var c := Source("<t>a", false, syntax, "<t>", "</t>");
    var d := Source("<t>ab", false, syntax, "<t>", "</t>");
    FinalInline(c, "a");
    FinalInline(d, "ab");
    assert ("<t>" + "a" + "</t>")[4] == '<' && ("<t>" + "ab" + "</t>")[4] == 'b';
  }

  lemma FinalInline(c: Source, text: string)
    requires c == Source("<t>" + text, false, Syntax(Auto, true, false), "<t>", "</t>") && (text == "a" || text == "ab")
    ensures Shown(c, 0).content == "<t>" + text + "</t>"
  {
    hide Find, PartialStop, Strip;
    assert SkipSpaces(c.input, 0) == 0;
    assert TagLength(c, 0) == 3 && TagAt(c, 0);
    assert c.input[3..] == text == c.input[3..|c.input|];
    NoEndTag(text);
    assert SectionStep(c, 3, "") == Done(Output("<t>" + text + "</t>", ""), |c.input|);
  }

  lemma NoEndTag(text: string)
    requires text == "a" || text == "ab"
    ensures Find("<t>" + text, "</t>", 3).None? && PartialStop(text, "</t>").None? && Strip(text) == text
  {
    forall i: nat | i < |text|
      ensures !PartialAt(text, "</t>", i)
    {
      assert text[i..][0] == text[i] != '<';
    }
    assert SkipSpaces(text, 0) == 0 && TrimEnd(text, 0, |text|) == |text|;
  }

  // ---------------------------------------------------------------- reasoning is a segmentation

  /**
    The consumed text as sections. A section is closed by an end tag, followed by spaces and then
    by another start tag, or it is the last one; a tail is a tag that has only begun to arrive.
   */
  datatype Trace = Unclosed(text: string, tail: string) | Closed(text: string, gap: string, next: After)
  datatype After = Finished(tail: string) | Reopened(rest: Trace)

  function TraceOf(c: Source, cursor: nat): Trace
    requires cursor <= |c.input| && |c.startTag| + |c.endTag| > 0
    decreases |c.input| - cursor
  {
    if cursor == |c.input| then Unclosed("", "")
    else
      match Find(c.input, c.endTag, cursor)
      case None => Unclosed(c.input[cursor..OpenEnd(c, cursor)], c.input[OpenEnd(c, cursor)..])
      case Some(e) =>
        var next := SkipSpaces(c.input, e + |c.endTag|);
        var gap := c.input[e + |c.endTag|..next];
        Closed(c.input[cursor..e], gap,
               if next == |c.input| || !TagAt(c, next) then Finished("")
               else if TagLength(c, next) < |c.startTag| then Finished(c.input[next..])
               else Reopened(TraceOf(c, next + |c.startTag|)))
  }

  /** The text a trace stands for. */
  function Render(c: Source, t: Trace): string {
    match t
    case Unclosed(text, tail) => text + tail
    case Closed(text, gap, Finished(tail)) => text + c.endTag + gap + tail
    case Closed(text, gap, Reopened(rest)) => text + c.endTag + gap + c.startTag + Render(c, rest)
  }

  predicate ProperPrefix(s: string, tag: string) {
    s == "" || (|s| < |tag| && s == tag[..|s|])
  }

  /** No section text contains the end tag, gaps are spaces, tails are unfinished tags. */
  ghost predicate ProperTrace(c: Source, t: Trace) {
    match t
    case Unclosed(text, tail) =>
      && ProperPrefix(tail, c.endTag)
      && (text + tail != "" ==> forall i :: 0 <= i ==> !OccursAt(text + tail, c.endTag, i))
      && (forall i :: 0 <= i < |text| ==> !PartialAt(text + tail, c.endTag, i))
    case Closed(text, gap, next) =>
      && (forall i :: 0 <= i < |text| ==> !OccursAt(text + c.endTag, c.endTag, i))
      && AllSpace(gap)
      && (match next
          case Finished(tail) => ProperPrefix(tail, c.startTag)
          case Reopened(rest) => ProperTrace(c, rest))
  }

  /** The sections of a trace, stripped and appended in order. */
  function Emitted(c: Source, t: Trace, pending: string): Output {
    match t
    case Unclosed(text, tail) => Section(c, text, tail == "" && !c.isPartial, pending).0
    case Closed(text, _, next) =>
      var (out, pending') := Section(c, text, true, pending);
      match next
      case Finished(_) => out
      case Reopened(rest) => out.Then(Emitted(c, rest, PrefixAfterTag(c, pending')))
  }

  lemma NoOccurrence(c: Source, cursor: nat, hi: nat, bound: nat)
    requires cursor <= hi <= |c.input|
    requires forall i :: cursor <= i < cursor + bound ==> !OccursAt(c.input, c.endTag, i)
    ensures forall i :: 0 <= i < bound ==> !OccursAt(c.input[cursor..hi], c.endTag, i)
  {
    forall i | 0 <= i < bound
      ensures !OccursAt(c.input[cursor..hi], c.endTag, i)
    {
      OccursShift(c.input, cursor, hi, c.endTag, i);
    }
  }

  lemma UnclosedTail(s: string, tag: string)
    requires forall i :: 0 <= i ==> !OccursAt(s, tag, i)
    ensures PartialStop(s, tag).Some? ==> ProperPrefix(s[PartialStop(s, tag).value..], tag)
  {
    var off := PartialStop(s, tag);
    if off.Some? {
      PartialWhole(s, tag, off.value);
    }
  }

  lemma UnclosedTrace(c: Source, cursor: nat)
    requires cursor < |c.input| && Find(c.input, c.endTag, cursor).None? && |c.startTag| + |c.endTag| > 0
    ensures Render(c, TraceOf(c, cursor)) == c.input[cursor..] && ProperTrace(c, TraceOf(c, cursor))
    ensures OpenIsClosed(c, cursor) == (c.input[OpenEnd(c, cursor)..] == "" && !c.isPartial)
  {
    hide Find, PartialStop;
    var r := OpenEnd(c, cursor);
    var s, text, tail := c.input[cursor..], c.input[cursor..r], c.input[r..];
    assert text + tail == s;
    assert s == c.input[cursor..|c.input|];
    NoOccurrence(c, cursor, |c.input|, |s| + 1);
    UnclosedTail(s, c.endTag);
    assert PartialStop(s, c.endTag).Some? ==> s[PartialStop(s, c.endTag).value..] == tail;
  }

  /** The pieces of a closed section: its text, the end tag and the spaces after it. */
  lemma ClosedPieces(c: Source, cursor: nat, e: nat)
    requires cursor <= |c.input| && Find(c.input, c.endTag, cursor) == Some(e)
    ensures var a := e + |c.endTag|;
            var next := SkipSpaces(c.input, a);
            && (forall i :: 0 <= i < |c.input[cursor..e]| ==> !OccursAt(c.input[cursor..e] + c.endTag, c.endTag, i))
            && c.input[cursor..e] + c.endTag + c.input[a..next] == c.input[cursor..next]
  {
    hide Find;
    var a := e + |c.endTag|;
    NoOccurrence(c, cursor, a, e - cursor);
    assert c.input[e..a] == c.endTag;
    TwoSlices(c.input, cursor, e, a);
    ThreeSlices(c.input, cursor, e, a, SkipSpaces(c.input, a));
  }

  /** Where a section that is closed at e leads, in the trace and in the turn. */
  lemma ClosedTurn(c: Source, cursor: nat, pending: string, e: nat)
    requires cursor < |c.input| && |c.startTag| + |c.endTag| > 0 && Find(c.input, c.endTag, cursor) == Some(e)
    ensures var (t, step) := (TraceOf(c, cursor), SectionStep(c, cursor, pending));
            var next := SkipSpaces(c.input, e + |c.endTag|);
            var (out, pending') := Section(c, c.input[cursor..e], true, pending);
            && t.Closed? && t.text == c.input[cursor..e] && t.gap == c.input[e + |c.endTag|..next]
            && step.out == out
            && (step.More? ==> next < |c.input| && TagAt(c, next) && TagLength(c, next) == |c.startTag|
                               && step == More(out, next + |c.startTag|, PrefixAfterTag(c, pending'))
                               && t.next == Reopened(TraceOf(c, step.cursor)))
            && (step.Done? ==>
                  if next < |c.input| && TagAt(c, next) then
                    TagLength(c, next) < |c.startTag| && step.end == |c.input| && t.next == Finished(c.input[next..])
                  else step.end == next && t.next == Finished(""))
  {
    hide Section, Find, SkipSpaces, TagAt, PrefixAfterTag;
  }

  /** The last section of a parse. */
  lemma LastSection(c: Source, cursor: nat, pending: string)
    requires cursor < |c.input| && |c.startTag| + |c.endTag| > 0 && SectionStep(c, cursor, pending).Done?
    ensures var t, step := TraceOf(c, cursor), SectionStep(c, cursor, pending);
            && ProperTrace(c, t)
            && Render(c, t) == c.input[cursor..step.end]
            && Emitted(c, t, pending) == step.out
  {
    hide Section, PartialStop, Find, OccursAt, PartialAt, AllSpace, SkipSpaces, TagAt;
    if Find(c.input, c.endTag, cursor).None? {
      LastOpenSection(c, cursor, pending);
    } else {
      LastClosedSection(c, cursor, pending);
    }
  }

  lemma LastOpenSection(c: Source, cursor: nat, pending: string)
    requires cursor < |c.input| && |c.startTag| + |c.endTag| > 0 && Find(c.input, c.endTag, cursor).None?
    ensures var t, step := TraceOf(c, cursor), SectionStep(c, cursor, pending);
            && ProperTrace(c, t)
            && step.Done? && Render(c, t) == c.input[cursor..step.end]
            && Emitted(c, t, pending) == step.out
  {
    hide Section, Find, ProperTrace, OpenEnd, OpenIsClosed, Render;
    UnclosedTrace(c, cursor);
    assert c.input[cursor..|c.input|] == c.input[cursor..];
  }

  lemma LastClosedSection(c: Source, cursor: nat, pending: string)
    requires cursor < |c.input| && |c.startTag| + |c.endTag| > 0 && SectionStep(c, cursor, pending).Done?
    requires Find(c.input, c.endTag, cursor).Some?
    ensures var t, step := TraceOf(c, cursor), SectionStep(c, cursor, pending);
            && ProperTrace(c, t)
            && Render(c, t) == c.input[cursor..step.end]
            && Emitted(c, t, pending) == step.out
  {
    hide Section, Find, AllSpace, SkipSpaces, TagAt, TraceOf, SectionStep;
    var e := Find(c.input, c.endTag, cursor).value;
    var next := SkipSpaces(c.input, e + |c.endTag|);
    ClosedTurn(c, cursor, pending, e);
    ClosedPieces(c, cursor, e);
    var body := c.input[cursor..e] + c.endTag + c.input[e + |c.endTag|..next];
    if next < |c.input| && TagAt(c, next) {
      UnfinishedTag(c, cursor, next);
    } else {
      assert body + "" == body;
    }
  }

  /** A section that another one follows. */
  lemma InnerSection(c: Source, cursor: nat, pending: string)
    requires cursor < |c.input| && |c.startTag| + |c.endTag| > 0 && SectionStep(c, cursor, pending).More?
    ensures var t, step := TraceOf(c, cursor), SectionStep(c, cursor, pending);
            && t.Closed? && t.next.Reopened? && t.next.rest == TraceOf(c, step.cursor)
            && (ProperTrace(c, t.next.rest) ==> ProperTrace(c, t))
            && t.text + c.endTag + t.gap + c.startTag == c.input[cursor..step.cursor]
            && Emitted(c, t, pending) == step.out.Then(Emitted(c, t.next.rest, step.pending))
  {
    hide Section, Find, AllSpace, SkipSpaces, TagAt, TagLength, TraceOf, SectionStep, PrefixAfterTag;
    assert Find(c.input, c.endTag, cursor).Some? by { MoreIsClosed(c, cursor, pending); }
    var e := Find(c.input, c.endTag, cursor).value;
    var next := SkipSpaces(c.input, e + |c.endTag|);
    ClosedTurn(c, cursor, pending, e);
    ClosedPieces(c, cursor, e);
    FullTag(c, next);
    TwoSlices(c.input, cursor, next, next + |c.startTag|);
  }

  lemma MoreIsClosed(c: Source, cursor: nat, pending: string)
    requires cursor <= |c.input| && SectionStep(c, cursor, pending).More?
    ensures Find(c.input, c.endTag, cursor).Some?
  {
    hide Section, Find, AfterSection;
  }

  /** What the section loop consumes and appends is a proper trace, rendered and emitted. */
  lemma {:induction false} SectionsAreTrace(c: Source, cursor: nat, pending: string)
    requires cursor <= |c.input| && |c.startTag| + |c.endTag| > 0
    ensures var t, p := TraceOf(c, cursor), Sections(c, cursor, pending);
            && ProperTrace(c, t)
            && Render(c, t) == c.input[cursor..p.end]
            && Emitted(c, t, pending) == p.out
    decreases |c.input| - cursor
  {
    hide SectionStep, TraceOf, ProperTrace, Emitted;
    if cursor == |c.input| {
      EmptyText(c, pending);
      AtEnd(c, cursor, pending);
      TraceAtEnd(c, cursor, pending);
    } else {
      match SectionStep(c, cursor, pending)
      case Done(_, _) =>
        LastSection(c, cursor, pending);
      case More(_, next, pending') =>
        InnerSection(c, cursor, pending);
        SectionsAreTrace(c, next, pending');
        var end := Sections(c, next, pending').end;
        TwoSlices(c.input, cursor, next, end);
    }
  }

  lemma TraceAtEnd(c: Source, cursor: nat, pending: string)
    requires cursor == |c.input| && |c.startTag| + |c.endTag| > 0
    ensures TraceOf(c, cursor) == Unclosed("", "") && ProperTrace(c, TraceOf(c, cursor))
    ensures Emitted(c, TraceOf(c, cursor), pending) == NOTHING
  {
  }

  lemma EmptyText(c: Source, pending: string)
    ensures Section(c, "", !c.isPartial, pending).0 == NOTHING
  {
  }

  predicate TaggedSections(c: Source, out: Output, used: string, lead: string, t: Trace) {
    used == lead + c.startTag + Render(c, t) && out == Output(lead, "").Then(Emitted(c, t, PrefixAfterTag(c, "")))
  }

  predicate UntaggedSections(c: Source, out: Output, used: string, lead: string, t: Trace) {
    used == lead + Render(c, t) && out == Emitted(c, t, "")
  }

  /**
    A handled attempt consumed leading spaces and then one of: nothing more, an unfinished start
    tag, or a proper trace with its start tag (which only forced-open reasoning may omit); what it
    appended are the trace's sections, after the leading spaces if a tag was there.
   */
  lemma ReasoningIsSegmentation(c: Source, pos: nat)
    requires pos <= |c.input| && Ends(c, pos) && Reasoning(c, pos).Some?
    ensures var p := Reasoning(c, pos).value;
            var w := SkipSpaces(c.input, pos);
            var used, lead := c.input[pos..p.end], c.input[pos..w];
            AllSpace(lead) && (
              || (w == |c.input| && used == lead && p.out == NOTHING)
              || (exists tail :: used == lead + tail && tail != "" && ProperPrefix(tail, c.startTag) && p.out == NOTHING)
              || (exists t :: ProperTrace(c, t) && TaggedSections(c, p.out, used, lead, t))
              || (c.syntax.forcedOpen && exists t :: ProperTrace(c, t) && UntaggedSections(c, p.out, used, lead, t)))
  {
    hide Sections, Section, Emitted, ProperTrace, Render, TraceOf, TagAt;
    var p := Reasoning(c, pos).value;
    var w := SkipSpaces(c.input, pos);
    var lead := c.input[pos..w];
    if w == |c.input| {
      BlankSection(c, pos);
    } else if TagAt(c, w) && TagLength(c, w) < |c.startTag| {
      UnfinishedTag(c, pos, w);
    } else if TagAt(c, w) {
      var b := w + |c.startTag|;
      SectionsAreTrace(c, b, PrefixAfterTag(c, ""));
      FullTag(c, w);
      ThreeSlices(c.input, pos, w, b, p.end);
      assert c.input[pos..p.end] == lead + c.startTag + Render(c, TraceOf(c, b));
      assert TaggedSections(c, p.out, c.input[pos..p.end], lead, TraceOf(c, b));
    } else {
      SectionsAreTrace(c, w, "");
      TwoSlices(c.input, pos, w, p.end);
      assert UntaggedSections(c, p.out, c.input[pos..p.end], lead, TraceOf(c, w));
    }
  }

  lemma FullTag(c: Source, at: nat)
    requires at <= |c.input| && TagAt(c, at) && TagLength(c, at) == |c.startTag|
    ensures at + |c.startTag| <= |c.input| && c.input[at..at + |c.startTag|] == c.startTag
  {
  }

  lemma UnfinishedTag(c: Source, pos: nat, w: nat)
    requires pos <= w < |c.input| && TagAt(c, w) && TagLength(c, w) < |c.startTag|
    ensures c.input[w..] != "" && ProperPrefix(c.input[w..], c.startTag)
    ensures c.input[pos..|c.input|] == c.input[pos..w] + c.input[w..]
  {
  }

  // ---------------------------------------------------------------- when the loop ends

  /** A turn that opens another section stands still exactly when no tag has text and a non-space is at the cursor. */
  lemma StandsStillIff(c: Source, cursor: nat, pending: string)
    requires cursor <= |c.input| && SectionStep(c, cursor, pending).More?
    ensures cursor < |c.input|
    ensures SectionStep(c, cursor, pending).cursor == cursor
            <==> c.startTag == "" && c.endTag == "" && !IsSpace(c.input[cursor])
  {
    if c.endTag == "" {
      assert OccursAt(c.input, "", cursor);
    }
  }

  /** The cursor after n turns of the loop; None if it has stopped by then. */
  function AfterTurns(c: Source, cursor: nat, pending: string, n: nat): Option<nat>
    requires cursor <= |c.input|
    decreases n
  {
    if n == 0 then Some(cursor)
    else
      match SectionStep(c, cursor, pending)
      case Done(_, _) => None
      case More(_, next, pending') => AfterTurns(c, next, pending', n - 1)
  }

  lemma {:induction false} TagsEnd(c: Source, cursor: nat, pending: string)
    requires cursor <= |c.input| && |c.startTag| + |c.endTag| > 0
    ensures AfterTurns(c, cursor, pending, |c.input| - cursor + 1).None?
    decreases |c.input| - cursor
  {
    hide SectionStep;
    match SectionStep(c, cursor, pending)
    case Done(_, _) =>
    case More(_, next, pending') =>
      TagsEnd(c, next, pending');
      StopsLater(c, next, pending', |c.input| - next + 1, |c.input| - cursor);
  }

  /** A loop that has stopped stays stopped. */
  lemma {:induction false} StopsLater(c: Source, cursor: nat, pending: string, n: nat, m: nat)
    requires cursor <= |c.input| && n <= m && AfterTurns(c, cursor, pending, n).None?
    ensures AfterTurns(c, cursor, pending, m).None?
    decreases n
  {
    hide SectionStep;
    match SectionStep(c, cursor, pending)
    case Done(_, _) =>
    case More(_, next, pending') => StopsLater(c, next, pending', n - 1, m - 1);
  }

  /** With two empty tags, a turn goes to the next non-space, and stops if there is none. */
  lemma EmptyTagsTurn(c: Source, cursor: nat, pending: string)
    requires cursor <= |c.input| && c.startTag == "" && c.endTag == ""
    ensures var next := SkipSpaces(c.input, cursor);
            if next == |c.input| then SectionStep(c, cursor, pending).Done?
            else SectionStep(c, cursor, pending).More? && SectionStep(c, cursor, pending).cursor == next
  {
    assert OccursAt(c.input, "", cursor);
  }

  lemma {:induction false} EmptyTagsGoOn(c: Source, cursor: nat, pending: string, n: nat)
    requires cursor <= |c.input| && c.startTag == "" && c.endTag == "" && SkipSpaces(c.input, cursor) < |c.input|
    ensures AfterTurns(c, cursor, pending, n) == Some(if n == 0 then cursor else SkipSpaces(c.input, cursor))
    decreases n
  {
    hide SectionStep;
    EmptyTagsTurn(c, cursor, pending);
    if n > 0 {
      var next := SkipSpaces(c.input, cursor);
      EmptyTagsGoOn(c, next, SectionStep(c, cursor, pending).pending, n - 1);
    }
  }

  /** The section loop ends, after some number of turns, exactly when a tag has text or only spaces are left. */
  lemma LoopEndsIff(c: Source, cursor: nat, pending: string)
    requires cursor <= |c.input|
    ensures (exists n :: AfterTurns(c, cursor, pending, n).None?)
            <==> |c.startTag| + |c.endTag| > 0 || SkipSpaces(c.input, cursor) == |c.input|
  {
    hide SectionStep;
    if |c.startTag| + |c.endTag| > 0 {
      TagsEnd(c, cursor, pending);
    } else if SkipSpaces(c.input, cursor) == |c.input| {
      EmptyTagsTurn(c, cursor, pending);
      assert AfterTurns(c, cursor, pending, 1).None?;
    } else {
      forall n: nat
        ensures AfterTurns(c, cursor, pending, n).Some?
      {
        EmptyTagsGoOn(c, cursor, pending, n);
      }
    }
  }

  /** Where an attempt enters the section loop, if it does, and with what prefix. */
  function LoopEntry(c: Source, pos: nat): Option<(nat, string)>
    requires pos <= |c.input|
  {
    var w := SkipSpaces(c.input, pos);
    if c.syntax.format == NoReasoning || w == |c.input| then None
    else if TagAt(c, w) then
      if TagLength(c, w) < |c.startTag| then None else Some((w + |c.startTag|, PrefixAfterTag(c, "")))
    else if c.syntax.forcedOpen then Some((w, ""))
    else None
  }

  /** An attempt ends, by not entering the loop or by leaving it, on exactly the inputs the parser is specified for. */
  lemma AttemptEndsIff(c: Source, pos: nat)
    requires pos <= |c.input|
    ensures (LoopEntry(c, pos).Some? ==>
               var (cursor, pending) := LoopEntry(c, pos).value;
               cursor <= |c.input| && exists n :: AfterTurns(c, cursor, pending, n).None?)
            <==> Ends(c, pos)
  {
    hide AfterTurns;
    if LoopEntry(c, pos).Some? {
      var (cursor, pending) := LoopEntry(c, pos).value;
      LoopEndsIff(c, cursor, pending);
    }
  }

  // ---------------------------------------------------------------- literals in a growing text

  /** The text before a literal, once shown, is a prefix of what a later read shows. */
  lemma PreludeNeverRetracts(p: string, w: string, isPartial: bool, later: bool, pos: nat, literal: string)
    requires p <= w && pos <= |p|
    requires FindLiteral(p, isPartial, pos, literal).Some? && FindLiteral(w, later, pos, literal).Some?
    ensures FindLiteral(p, isPartial, pos, literal).value.prelude <= FindLiteral(w, later, pos, literal).value.prelude
  {
    var f, g := FindLiteral(p, isPartial, pos, literal).value, FindLiteral(w, later, pos, literal).value;
    if Find(p, literal, pos).Some? {
      FindStays(p, w, literal, pos);
    } else if g.begin < |p| {
      OccursInLonger(p, w, literal, g.begin);
      PartialInShorter(p, w, literal, g.begin);
    }
    assert f.begin <= g.begin;
    SliceExtends(p, w, pos, f.begin, g.begin);
  }

  /**
    On a partial text without the whole literal, a literal that begins at or after the cursor is
    reported unless an earlier beginning straddles the cursor; then it is missed.
   */
  lemma PartialLiteralSeenIff(input: string, pos: nat, literal: string)
    requires pos <= |input| && Find(input, literal, pos).None? && PartialStop(input[pos..], literal).Some?
    ensures FindLiteral(input, true, pos, literal).Some? <==> forall i :: 0 <= i < pos ==> !PartialAt(input, literal, i)
  {
    var at := pos + PartialStop(input[pos..], literal).value;
    assert input[pos..][at - pos..] == input[at..];
    assert PartialAt(input, literal, at);
  }

  /** A beginning of the literal after the cursor is missed when a longer one starts before it. */
  lemma StraddlingLiteralMissed()
    ensures FindLiteral("aa", true, 1, "aab").None? && PartialStop("aa"[1..], "aab").Some?
  {
    assert "aa"[0..] == "aab"[..2];
    assert PartialAt("aa", "aab", 0);
    assert "aa"[1..] == "a";
    assert "a"[0..] == "aab"[..1];
    assert PartialAt("a", "aab", 0);
  }
}
