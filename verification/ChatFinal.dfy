/**
  A final read with reasoning kept inline closes a section that the text left open. When that is
  safe is decided by the text alone.
 */
module ChatFinal {
  import opened Wrappers
  import opened Strings
  import opened ChatParser
  import opened ChatStreaming

  /** A later read of the same message; whether more may still follow it does not matter. */
  ghost predicate Later(c: Source, d: Source) {
    c.input <= d.input && c.syntax == d.syntax && c.startTag == d.startTag && c.endTag == d.endTag
  }

  /** The last section was left open, with text in it, and no end tag begins at its end. */
  predicate LeftOpen(t: Trace) {
    match t
    case Unclosed(text, tail) => Strip(text) != "" && tail == ""
    case Closed(_, _, Finished(_)) => false
    case Closed(_, _, Reopened(rest)) => LeftOpen(rest)
  }

  /** The attempt at a position enters the section loop and ends in a section left open. */
  predicate EndsOpen(c: Source, pos: nat)
    requires pos <= |c.input| && Ends(c, pos)
  {
    match LoopEntry(c, pos)
    case None => false
    case Some((cursor, _)) => LeftOpen(TraceOf(c, cursor))
  }

  function AsPartial(c: Source): Source {
    c.(isPartial := true)
  }

  // ---------------------------------------------------------------- the safe reads

  /** One turn is the same for a partial read unless it closes an open section. */
  lemma StepAsPartial(c: Source, cursor: nat, pending: string)
    requires cursor < |c.input| && |c.startTag| + |c.endTag| > 0
    ensures SectionStep(c, cursor, pending).More? ==> SectionStep(AsPartial(c), cursor, pending) == SectionStep(c, cursor, pending)
    ensures SectionStep(c, cursor, pending).Done? && !LeftOpen(TraceOf(c, cursor)) ==>
              SectionStep(AsPartial(c), cursor, pending) == SectionStep(c, cursor, pending)
  {
    hide Find, PartialStop, Strip, AfterSection, OpenEnd, OpenIsClosed, Section, TraceOf, LeftOpen;
    var p := AsPartial(c);
    var e := Find(c.input, c.endTag, cursor);
    if e.Some? {
      var text := c.input[cursor..e.value];
      ClosedAsPartial(c, text, pending);
      AfterAsPartial(c, e.value + |c.endTag|, Section(c, text, true, pending).0, Section(c, text, true, pending).1);
    } else {
      OpenAsPartial(c, cursor, pending);
    }
  }

  lemma ClosedAsPartial(c: Source, text: string, pending: string)
    ensures Section(AsPartial(c), text, true, pending) == Section(c, text, true, pending)
  {
  }

  /** A section without an end tag is closed only by a final read, and only if no end tag begins at its end. */
  lemma OpenAsPartial(c: Source, cursor: nat, pending: string)
    requires cursor < |c.input| && |c.startTag| + |c.endTag| > 0 && Find(c.input, c.endTag, cursor).None?
    ensures var p := AsPartial(c);
            && OpenEnd(p, cursor) == OpenEnd(c, cursor)
            && (!LeftOpen(TraceOf(c, cursor)) ==>
                  Section(p, c.input[cursor..OpenEnd(c, cursor)], OpenIsClosed(p, cursor), pending)
                  == Section(c, c.input[cursor..OpenEnd(c, cursor)], OpenIsClosed(c, cursor), pending))
  {
    hide Find, PartialStop, Strip;
    UnclosedTrace(c, cursor);
  }

  lemma AfterAsPartial(c: Source, e: nat, out: Output, pending: string)
    requires e <= |c.input|
    ensures AfterSection(AsPartial(c), e, out, pending) == AfterSection(c, e, out, pending)
  {
  }

  lemma {:induction false} SectionsAsPartial(c: Source, cursor: nat, pending: string)
    requires cursor <= |c.input| && |c.startTag| + |c.endTag| > 0 && !LeftOpen(TraceOf(c, cursor))
    ensures Sections(AsPartial(c), cursor, pending) == Sections(c, cursor, pending)
    decreases |c.input| - cursor
  {
    hide SectionStep, TraceOf, LeftOpen;
    if cursor == |c.input| {
      AtEnd(c, cursor, pending);
      AtEnd(AsPartial(c), cursor, pending);
    } else {
      StepAsPartial(c, cursor, pending);
      match SectionStep(c, cursor, pending)
      case Done(_, _) =>
      case More(_, next, pending') =>
        InnerSection(c, cursor, pending);
        RestLeftOpen(TraceOf(c, cursor));
        SectionsAsPartial(c, next, pending');
    }
  }

  lemma RestLeftOpen(t: Trace)
    requires t.Closed? && t.next.Reopened?
    ensures LeftOpen(t) == LeftOpen(t.next.rest)
  {
  }

  lemma ShownAsPartial(c: Source, pos: nat)
    requires pos <= |c.input| && Ends(c, pos) && !EndsOpen(c, pos)
    ensures Ends(AsPartial(c), pos) && Shown(AsPartial(c), pos) == Shown(c, pos)
  {
    hide Sections, Section, Reasoning, TraceOf, LeftOpen, SkipSpaces;
    ReasoningCases(c, pos);
    ReasoningCases(AsPartial(c), pos);
    var w := SkipSpaces(c.input, pos);
    if w == |c.input| {
      BlankSection(c, pos);
      BlankSection(AsPartial(c), pos);
    } else if LoopEntry(c, pos).Some? {
      var (cursor, pending) := LoopEntry(c, pos).value;
      SectionsAsPartial(c, cursor, pending);
    }
  }

  // ---------------------------------------------------------------- the unsafe reads

  /** Text that grows by a non-space keeps its stripped part, and the spaces behind it become visible. */
  lemma StripWith(text: string, x: char) returns (spaces: string)
    requires !IsSpace(x) && Strip(text) != ""
    ensures AllSpace(spaces) && |spaces| <= |text| && text[|text| - |spaces|..] == spaces
    ensures Strip(text + [x]) == Strip(text) + spaces + [x]
  {
    var t := text + [x];
    SkipSpacesGrows(text, t, 0);
    var lo := SkipSpaces(text, 0);
    var e := TrimEnd(text, lo, |text|);
    spaces := text[e..];
    assert text[e..|text|] == spaces;
    assert TrimEnd(t, lo, |t|) == |t|;
    assert t[lo..|t|] == text[lo..e] + text[e..] + [x];
  }

  /** A character that is not in the tag neither completes nor begins one. */
  lemma NoTagWith(s: string, tag: string, x: char, cursor: nat)
    requires cursor <= |s| && x !in tag && Find(s, tag, cursor).None?
    ensures Find(s + [x], tag, cursor).None? && PartialStop((s + [x])[cursor..], tag).None?
  {
    var t := s + [x];
    assert tag != "" by {
      assert OccursAt(s, "", cursor);
    }
    forall i: nat | cursor <= i
      ensures !OccursAt(t, tag, i)
    {
      OccursInLonger(s, t, tag, i);
      OccursUpTo(t, tag, i);
    }
    var u := t[cursor..];
    forall i: nat | i < |u|
      ensures !PartialAt(u, tag, i)
    {
      PartialUpTo(u, tag, i);
    }
  }

  lemma OccursUpTo(t: string, tag: string, i: nat)
    ensures OccursAt(t, tag, i) && i + |tag| == |t| && tag != "" ==> t[|t| - 1] in tag
  {
    if OccursAt(t, tag, i) && i + |tag| == |t| && tag != "" {
      assert t[i..i + |tag|][|tag| - 1] == tag[|tag| - 1];
    }
  }

  lemma PartialUpTo(u: string, tag: string, i: nat)
    ensures PartialAt(u, tag, i) ==> u[|u| - 1] in tag
  {
    if PartialAt(u, tag, i) {
      assert u[i..][|u| - i - 1] == tag[..|u| - i][|u| - i - 1] == tag[|u| - i - 1];
    }
  }

  lemma PrefixOf(close: string, spaces: string, x: char, rest: string)
    ensures close <= spaces + [x] + rest && |close| > |spaces| ==> close[|spaces|] == x
    ensures close <= spaces + [x] + rest && |close| <= |spaces| ==> close <= spaces
  {
    var t := spaces + [x] + rest;
    if close <= t && |close| > |spaces| {
      assert close[|spaces|] == t[|spaces|];
    }
    if close <= t && |close| <= |spaces| {
      assert close == t[..|close|] == spaces[..|close|];
    }
  }

  /** The closing tag that the final read showed is not how the spaces and the next character go on. */
  lemma CloseIsWrong(c: Source, spaces: string, x: char, rest: string)
    requires AllSpace(spaces) && x !in CloseTag(c) && CloseTag(c) != ""
    requires c.syntax.format == Deepseek || !(c.endTag <= spaces)
    ensures !(CloseTag(c) <= spaces + [x] + rest)
  {
    var close := CloseTag(c);
    PrefixOf(close, spaces, x, rest);
    SpacePrefix(close, spaces);
  }

  lemma SpacePrefix(close: string, spaces: string)
    requires AllSpace(spaces) && close != ""
    ensures close <= spaces ==> IsSpace(close[0])
  {
    if close <= spaces {
      assert close[0] == spaces[0];
    }
  }

  lemma PrefixCancel(a: string, u: string, v: string)
    ensures a + u <= a + v ==> u <= v
  {
    if a + u <= a + v {
      assert u == (a + u)[|a|..] && v == (a + v)[|a|..];
    }
  }

  /** What the two reads show of the section that was left open. */
  lemma OpenRetracts(c: Source, d: Source, x: char, cursor: nat, pending: string)
    requires d == c.(input := c.input + [x], isPartial := d.isPartial) && !c.isPartial && c.syntax.inContent
    requires !IsSpace(x) && x !in c.endTag && x !in CloseTag(c)
    requires cursor < |c.input| && |c.startTag| + |c.endTag| > 0 && Find(c.input, c.endTag, cursor).None?
    requires LeftOpen(TraceOf(c, cursor))
    ensures !(SectionStep(c, cursor, pending).out.content <= Sections(d, cursor, pending).out.content)
  {
    hide Find, PartialStop, Strip, SectionStep, Sections, TraceOf, LeftOpen, OpenTag, CloseTag, OpenIsClosed;
    var text := c.input[cursor..];
    FinalShows(c, cursor, pending);
    LaterShows(c, d, x, cursor, pending);
    var spaces := StripWith(text, x);
    var rest := if OpenIsClosed(d, cursor) then CloseTag(c) else "";
    Regroup(OpenTag(c), Strip(text), spaces, x, rest);
    NoTagInSpaces(c, cursor, spaces);
    CloseIsWrong(c, spaces, x, rest);
    PrefixCancel(OpenTag(c) + Strip(text), CloseTag(c), spaces + [x] + rest);
  }

  lemma Regroup(a: string, b: string, spaces: string, x: char, rest: string)
    ensures a + (b + spaces + [x]) + rest == (a + b) + (spaces + [x] + rest)
  {
  }

  /** The final read shows the section with its closing tag. */
  lemma FinalShows(c: Source, cursor: nat, pending: string)
    requires !c.isPartial && c.syntax.inContent
    requires cursor < |c.input| && |c.startTag| + |c.endTag| > 0 && Find(c.input, c.endTag, cursor).None?
    requires LeftOpen(TraceOf(c, cursor))
    ensures Strip(c.input[cursor..]) != ""
    ensures SectionStep(c, cursor, pending).out.content == OpenTag(c) + Strip(c.input[cursor..]) + CloseTag(c)
  {
    hide Find, PartialStop, Strip;
    UnclosedTrace(c, cursor);
    assert c.input[cursor..|c.input|] == c.input[cursor..];
  }

  /** The later read shows the longer section. */
  lemma LaterShows(c: Source, d: Source, x: char, cursor: nat, pending: string)
    requires d == c.(input := c.input + [x], isPartial := d.isPartial) && c.syntax.inContent
    requires !IsSpace(x) && x !in c.endTag
    requires cursor < |c.input| && |c.startTag| + |c.endTag| > 0 && Find(c.input, c.endTag, cursor).None?
    ensures var text := c.input[cursor..] + [x];
            Sections(d, cursor, pending).out.content
            == OpenTag(c) + Strip(text) + (if OpenIsClosed(d, cursor) then CloseTag(c) else "")
  {
    hide Find, PartialStop, Strip;
    NoTagWith(c.input, c.endTag, x, cursor);
    var text := c.input[cursor..] + [x];
    assert d.input[cursor..] == text == d.input[cursor..|d.input|];
    assert !AllSpace(text) by {
      assert !IsSpace(text[|text| - 1]);
    }
    assert OpenEnd(d, cursor) == |d.input|;
    assert SectionStep(d, cursor, pending) == Done(Section(d, text, OpenIsClosed(d, cursor), pending).0, |d.input|);
  }

  lemma NoTagInSpaces(c: Source, cursor: nat, spaces: string)
    requires cursor <= |c.input| && Find(c.input, c.endTag, cursor).None?
    requires |spaces| <= |c.input| - cursor && c.input[cursor..][|c.input| - cursor - |spaces|..] == spaces
    ensures c.endTag != "" && CloseTag(c) != "" && !(c.endTag <= spaces)
  {
    assert OccursAt(c.input, "", cursor);
    var at := |c.input| - |spaces|;
    assert c.input[at..] == spaces;
    BeginsSuffix(c.input, c.endTag, at);
  }

  lemma BeginsSuffix(s: string, tag: string, at: nat)
    requires at <= |s|
    ensures tag <= s[at..] ==> OccursAt(s, tag, at)
  {
    if tag <= s[at..] {
      assert s[at..at + |tag|] == s[at..][..|tag|];
    }
  }

  lemma {:induction false} SectionsRetract(c: Source, d: Source, x: char, cursor: nat, pending: string)
    requires d == c.(input := c.input + [x], isPartial := d.isPartial) && !c.isPartial && c.syntax.inContent
    requires !IsSpace(x) && x !in c.endTag && x !in CloseTag(c)
    requires cursor <= |c.input| && |c.startTag| + |c.endTag| > 0 && LeftOpen(TraceOf(c, cursor))
    ensures !(Sections(c, cursor, pending).out.content <= Sections(d, cursor, pending).out.content)
    decreases |c.input| - cursor
  {
    hide SectionStep, TraceOf, LeftOpen, Find;
    OpenNotAtEnd(c, cursor);
    match SectionStep(c, cursor, pending)
    case Done(out, _) =>
      LastLeftOpen(c, cursor, pending);
      OpenRetracts(c, d, x, cursor, pending);
    case More(out, next, pending') =>
      StepAsPartial(c, cursor, pending);
      StepGrows(AsPartial(c), d, cursor, pending);
      InnerSection(c, cursor, pending);
      RestLeftOpen(TraceOf(c, cursor));
      SectionsRetract(c, d, x, next, pending');
      PrefixCancel(out.content, Sections(c, next, pending').out.content, Sections(d, next, pending').out.content);
  }

  lemma OpenNotAtEnd(c: Source, cursor: nat)
    requires cursor <= |c.input| && |c.startTag| + |c.endTag| > 0 && LeftOpen(TraceOf(c, cursor))
    ensures cursor < |c.input|
  {
  }

  /** If the loop stops in a section left open, no end tag was found. */
  lemma LastLeftOpen(c: Source, cursor: nat, pending: string)
    requires cursor < |c.input| && |c.startTag| + |c.endTag| > 0 && LeftOpen(TraceOf(c, cursor))
    requires SectionStep(c, cursor, pending).Done?
    ensures Find(c.input, c.endTag, cursor).None?
  {
    hide Find, PartialStop, Strip, Section;
  }

  /** The spaces in front of a start tag, which are shown as content. */
  function Lead(c: Source, pos: nat): string
    requires pos <= |c.input|
  {
    var w := SkipSpaces(c.input, pos);
    if w < |c.input| && TagAt(c, w) then c.input[pos..w] else ""
  }

  /** An attempt that enters the section loop shows its leading spaces and what the loop emits. */
  lemma ShownInLoop(c: Source, pos: nat)
    requires pos <= |c.input| && |c.startTag| + |c.endTag| > 0 && LoopEntry(c, pos).Some?
    ensures var (cursor, pending) := LoopEntry(c, pos).value;
            cursor <= |c.input| && Shown(c, pos) == Output(Lead(c, pos), "").Then(Sections(c, cursor, pending).out)
  {
    hide Sections, Reasoning, SkipSpaces, TagAt, PrefixAfterTag;
    ReasoningCases(c, pos);
    var p := Sections(c, LoopEntry(c, pos).value.0, LoopEntry(c, pos).value.1);
    assert "" + p.out.content == p.out.content && "" + p.out.reasoning == p.out.reasoning;
  }

  lemma EntryStays(c: Source, d: Source, pos: nat)
    requires d == c.(input := d.input, isPartial := d.isPartial) && c.input <= d.input
    requires pos <= |c.input| && LoopEntry(c, pos).Some?
    ensures LoopEntry(d, pos) == LoopEntry(c, pos) && Lead(d, pos) == Lead(c, pos)
  {
    hide SkipSpaces, TagAt;
    var w := SkipSpaces(c.input, pos);
    SkipSpacesGrows(c.input, d.input, pos);
    SliceOfPrefix(c.input, d.input, pos, w);
    EntryTag(c, d, w);
  }

  lemma EntryTag(c: Source, d: Source, w: nat)
    requires d == c.(input := d.input, isPartial := d.isPartial) && c.input <= d.input && w < |c.input|
    ensures TagAt(d, w) ==> TagAt(c, w)
    ensures TagAt(c, w) && TagLength(c, w) == |c.startTag| ==> TagAt(d, w) && TagLength(d, w) == |c.startTag|
  {
    TagGrows(AsPartial(c), d, w);
  }

  lemma ShownRetracts(c: Source, d: Source, x: char, pos: nat)
    requires d == c.(input := c.input + [x], isPartial := d.isPartial) && !c.isPartial && c.syntax.inContent
    requires !IsSpace(x) && x !in c.endTag && x !in CloseTag(c)
    requires pos <= |c.input| && |c.startTag| + |c.endTag| > 0 && EndsOpen(c, pos)
    ensures !Extends(Shown(c, pos), Shown(d, pos))
  {
    hide Sections, Shown, LoopEntry, TraceOf, LeftOpen;
    var (cursor, pending) := LoopEntry(c, pos).value;
    EntryStays(c, d, pos);
    ShownInLoop(c, pos);
    ShownInLoop(d, pos);
    SectionsRetract(c, d, x, cursor, pending);
    PrefixCancel(Lead(c, pos), Sections(c, cursor, pending).out.content, Sections(d, cursor, pending).out.content);
  }

  // ---------------------------------------------------------------- main result

  /** Every later read whose attempt ends shows an extension of what this one shows. */
  ghost predicate NeverRetracted(c: Source, pos: nat)
    requires pos <= |c.input| && Ends(c, pos)
  {
    forall d :: Later(c, d) && Ends(d, pos) ==> Extends(Shown(c, pos), Shown(d, pos))
  }

  /**
    What a final read with inline reasoning shows is never taken back by a later read, final or
    not, if and only if its last section is not a section left open: text that is not blank, with
    no end tag beginning at its end. Of the tags only some non-space is asked that is in neither of
    the two that close a section.
   */
  lemma FinalInlineSafeIff(c: Source, pos: nat, x: char)
    requires !c.isPartial && c.syntax.inContent && pos <= |c.input| && Ends(c, pos)
    requires !IsSpace(x) && x !in c.endTag && x !in CloseTag(c)
    ensures NeverRetracted(c, pos) <==> !EndsOpen(c, pos)
  {
    if EndsOpen(c, pos) {
      var d := c.(input := c.input + [x]);
      ShownRetracts(c, d, x, pos);
      assert Later(c, d);
    } else {
      ShownAsPartial(c, pos);
      forall d | Later(c, d) && Ends(d, pos)
        ensures Extends(Shown(c, pos), Shown(d, pos))
      {
        NeverRetracts(AsPartial(c), d, pos);
      }
    }
  }
}
