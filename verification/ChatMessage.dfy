/**
  What a caller of the streaming parser sees of the whole message of a chat without tools: reads of
  a text that grows show a message that grows.
 */
module ChatMessage {
  import opened Wrappers
  import opened Strings
  import opened ChatParser
  import opened ChatStreaming

  // ---------------------------------------------------------------- a longer text shows more

  lemma NoRest(c: Source, p: Parse)
    requires p.end == |c.input|
    ensures WithRest(c, p) == p.out
  {
    assert p.out.content + "" == p.out.content && p.out.reasoning + "" == p.out.reasoning;
  }

  lemma ExtendsSelf(a: Output, more: Output)
    ensures Extends(a, a.Then(more)) && a.Then(NOTHING) == a && NOTHING.Then(a) == a
  {
    assert "" + a.content == a.content && "" + a.reasoning == a.reasoning;
  }

  lemma ThenAssociates(a: Output, b: Output, more: Output)
    ensures a.Then(b.Then(more)) == a.Then(b).Then(more)
  {
    assert a.content + (b.content + more.content) == a.content + b.content + more.content;
    assert a.reasoning + (b.reasoning + more.reasoning) == a.reasoning + b.reasoning + more.reasoning;
  }

  /** A parse that ended inside the text ends there in a longer text too. */
  lemma DoneStays(c: Source, d: Source, cursor: nat, pending: string)
    requires Grows(c, d) && cursor < |c.input|
    requires SectionStep(c, cursor, pending).Done? && SectionStep(c, cursor, pending).end < |c.input|
    ensures SectionStep(d, cursor, pending) == SectionStep(c, cursor, pending)
  {
    hide Section, Find, OpenEnd, OpenIsClosed, Grows, TagAt, TagLength, SkipSpaces;
    GrowsInput(c, d);
    var e := Find(c.input, c.endTag, cursor).value;
    FindStays(c.input, d.input, c.endTag, cursor);
    SliceOfPrefix(c.input, d.input, cursor, e);
    SectionSame(c, d, c.input[cursor..e], pending);
    SkipSpacesGrows(c.input, d.input, e + |c.endTag|);
    TagGrows(c, d, SkipSpaces(c.input, e + |c.endTag|));
  }

  lemma {:induction false} SectionsWithRestGrow(c: Source, d: Source, cursor: nat, pending: string)
    requires Grows(c, d) && cursor <= |c.input| && |c.startTag| + |c.endTag| > 0
    ensures Extends(WithRest(c, Sections(c, cursor, pending)), WithRest(d, Sections(d, cursor, pending)))
    decreases |c.input| - cursor
  {
    hide SectionStep, WithRest, Extends, Grows;
    GrowsInput(c, d);
    if cursor == |c.input| {
      AtEnd(c, cursor, pending);
      NoRest(c, Sections(c, cursor, pending));
      SectionsGrow(c, d, cursor, pending);
      RestExtends(d, Sections(c, cursor, pending).out, Sections(d, cursor, pending));
    } else {
      StepGrows(c, d, cursor, pending);
      match SectionStep(c, cursor, pending)
      case More(out, cursor', pending') =>
        SectionsWithRestGrow(c, d, cursor', pending');
        RestOfMore(c, out, Sections(c, cursor', pending'));
        RestOfMore(d, out, Sections(d, cursor', pending'));
        ExtendsThen(WithRest(c, Sections(c, cursor', pending')), WithRest(d, Sections(d, cursor', pending')), out);
      case Done(out, end) =>
        if end < |c.input| {
          DoneStays(c, d, cursor, pending);
          RestGrows(c, d, out, end);
        } else {
          NoRest(c, Parse(out, end));
          SectionsGrow(c, d, cursor, pending);
          RestExtends(d, out, Sections(d, cursor, pending));
        }
    }
  }

  lemma RestOfMore(c: Source, out: Output, rest: Parse)
    requires rest.end <= |c.input|
    ensures WithRest(c, Parse(out.Then(rest.out), rest.end)) == out.Then(WithRest(c, rest))
  {
    ThenAssociates(out, rest.out, Output(c.input[rest.end..], ""));
  }

  lemma RestExtends(d: Source, a: Output, p: Parse)
    requires p.end <= |d.input| && Extends(a, p.out)
    ensures Extends(a, WithRest(d, p))
  {
    ExtendsThen(a, p.out, Output(d.input[p.end..], ""));
  }

  lemma RestGrows(c: Source, d: Source, out: Output, end: nat)
    requires Grows(c, d) && end <= |c.input|
    ensures Extends(WithRest(c, Parse(out, end)), WithRest(d, Parse(out, end)))
  {
    SuffixGrows(c.input, d.input, end);
    ExtendsThen(Output(c.input[end..], ""), Output(d.input[end..], ""), out);
  }

  lemma SuffixGrows(p: string, w: string, at: nat)
    requires p <= w && at <= |p|
    ensures p[at..] <= w[at..]
  {
    SliceExtends(p, w, at, |p|, |w|);
    assert p[at..|p|] == p[at..] && w[at..|w|] == w[at..];
  }

  // ---------------------------------------------------------------- the whole message

  /** Nothing but spaces so far, where reasoning may still begin. */
  predicate OnlySpaces(c: Source, pos: nat)
    requires pos <= |c.input|
  {
    && c.syntax.format != NoReasoning && !c.syntax.forcedOpen
    && pos < |c.input| && SkipSpaces(c.input, pos) == |c.input|
  }

  /** Where a later read stands that has not begun to show anything: at the beginning of a start tag. */
  predicate ShowsNothing(d: Source, pos: nat)
    requires pos <= |d.input| && Ends(d, pos)
  {
    Message(d, pos) == NOTHING
  }

  lemma MessageCases(c: Source, pos: nat)
    requires pos <= |c.input| && Ends(c, pos)
    ensures var (m, w) := (Message(c, pos), SkipSpaces(c.input, pos));
            if c.syntax.format == NoReasoning then m == Output(c.input[pos..], "")
            else if w == |c.input| then
              m == if c.syntax.forcedOpen then NOTHING else Output(c.input[pos..], "")
            else
              && |c.startTag| + |c.endTag| > 0
              && m == if TagAt(c, w) then
                        if TagLength(c, w) < |c.startTag| then NOTHING
                        else Output(c.input[pos..w], "").Then(WithRest(c, Sections(c, w + |c.startTag|, PrefixAfterTag(c, ""))))
                      else if c.syntax.forcedOpen then WithRest(c, Sections(c, w, ""))
                      else Output(c.input[pos..], "")
  {
    hide Sections, Section, Reasoning, SkipSpaces, TagAt, PrefixAfterTag, WithRest;
    ReasoningCases(c, pos);
    var w := SkipSpaces(c.input, pos);
    NoRest(c, Parse(NOTHING, |c.input|));
    if w == |c.input| {
      BlankSection(c, pos);
    } else if c.syntax.format != NoReasoning && TagAt(c, w) && TagLength(c, w) == |c.startTag| {
      RestOfMore(c, Output(c.input[pos..w], ""), Sections(c, w + |c.startTag|, PrefixAfterTag(c, "")));
    }
  }

  /** A message of which more has arrived than spaces never retracts anything. */
  lemma MessageGrows(c: Source, d: Source, pos: nat)
    requires Grows(c, d) && pos <= |c.input| && Ends(c, pos) && Ends(d, pos) && !OnlySpaces(c, pos)
    ensures Extends(Message(c, pos), Message(d, pos))
  {
    hide Sections, Message, SkipSpaces, TagAt, WithRest;
    MessageCases(c, pos);
    MessageCases(d, pos);
    SuffixGrows(c.input, d.input, pos);
    SkipSpacesGrows(c.input, d.input, pos);
    var w := SkipSpaces(c.input, pos);
    if c.syntax.format != NoReasoning && w < |c.input| {
      TagGrows(c, d, w);
      if TagAt(c, w) && TagLength(c, w) == |c.startTag| {
        var (b, pending) := (w + |c.startTag|, PrefixAfterTag(c, ""));
        SectionsWithRestGrow(c, d, b, pending);
        SliceOfPrefix(c.input, d.input, pos, w);
        ExtendsThen(WithRest(c, Sections(c, b, pending)), WithRest(d, Sections(d, b, pending)), Output(c.input[pos..w], ""));
      } else if !TagAt(c, w) && c.syntax.forcedOpen {
        SectionsWithRestGrow(c, d, w, "");
      }
    } else if w == |c.input| {
      EmptySuffix(c, pos);
    }
  }

  lemma EmptySuffix(c: Source, pos: nat)
    requires pos <= |c.input|
    ensures pos == |c.input| ==> c.input[pos..] == ""
  {
  }

  /** A message of spaces alone is only ever followed by one that shows nothing or begins with them. */
  lemma SpacesGrow(c: Source, d: Source, pos: nat)
    requires Grows(c, d) && pos <= |c.input| && Ends(c, pos) && Ends(d, pos) && OnlySpaces(c, pos)
    ensures ShowsNothing(d, pos) || Extends(Message(c, pos), Message(d, pos))
  {
    hide Sections, Message, SkipSpaces, TagAt, WithRest, PrefixAfterTag;
    MessageCases(c, pos);
    MessageCases(d, pos);
    SuffixGrows(c.input, d.input, pos);
    SkipSpacesGrows(c.input, d.input, pos);
    var w := SkipSpaces(d.input, pos);
    if w < |d.input| && TagAt(d, w) && TagLength(d, w) == |d.startTag| {
      SliceExtends(c.input, d.input, pos, |c.input|, w);
      assert c.input[pos..|c.input|] == c.input[pos..];
      ExtendsSelf(Output(d.input[pos..w], ""), WithRest(d, Sections(d, w + |d.startTag|, PrefixAfterTag(d, ""))));
    }
  }

  /**
    What one read of a message shows is never taken back by a read of a longer text that shows
    anything at all: reads that show nothing are the ones the server passes over.
   */
  lemma MessageNeverRetracts(c: Source, d: Source, pos: nat)
    requires Grows(c, d) && pos <= |c.input| && Ends(c, pos) && Ends(d, pos)
    ensures ShowsNothing(d, pos) || Extends(Message(c, pos), Message(d, pos))
  {
    hide Message;
    if OnlySpaces(c, pos) {
      SpacesGrow(c, d, pos);
    } else {
      MessageGrows(c, d, pos);
    }
  }

  /** Every read of a longer text shows an extension of what this one shows. */
  ghost predicate MessageStays(c: Source, pos: nat)
    requires pos <= |c.input| && Ends(c, pos)
  {
    forall d :: Grows(c, d) && Ends(d, pos) ==> Extends(Message(c, pos), Message(d, pos))
  }

  /**
    Reads that show nothing included, a message is taken back by no longer one if and only if it
    is not spaces alone where reasoning may still begin. The start tag has a beginning of its own
    that is no space.
   */
  lemma MessageStaysIff(c: Source, pos: nat)
    requires pos <= |c.input| && Ends(c, pos) && (c.isPartial || !c.syntax.inContent)
    requires |c.startTag| >= 2 && !IsSpace(c.startTag[0])
    ensures MessageStays(c, pos) <==> !OnlySpaces(c, pos)
  {
    hide Message;
    if OnlySpaces(c, pos) {
      var d := c.(input := c.input + [c.startTag[0]]);
      TagBegins(c, d, pos);
      assert Grows(c, d);
    } else {
      forall d | Grows(c, d) && Ends(d, pos)
        ensures Extends(Message(c, pos), Message(d, pos))
      {
        MessageGrows(c, d, pos);
      }
    }
  }

  /** Behind the spaces, the first character of a start tag makes the message empty. */
  lemma TagBegins(c: Source, d: Source, pos: nat)
    requires pos <= |c.input| && OnlySpaces(c, pos) && |c.startTag| >= 2 && !IsSpace(c.startTag[0])
    requires d == c.(input := c.input + [c.startTag[0]])
    ensures Ends(c, pos) && Ends(d, pos) && !Extends(Message(c, pos), Message(d, pos))
  {
    hide Sections, Message, WithRest, SkipSpaces;
    SkipSpacesGrows(c.input, d.input, pos);
    var w := SkipSpaces(d.input, pos);
    assert w == |c.input| by { SpacesThen(c.input, c.startTag[0], pos); }
    assert d.input[w..w + 1] == c.startTag[..1];
    MessageCases(c, pos);
    MessageCases(d, pos);
    assert Message(c, pos).content == c.input[pos..] != "";
  }

  lemma {:induction false} SpacesThen(s: string, x: char, i: nat)
    requires i <= |s| && SkipSpaces(s, i) == |s| && !IsSpace(x)
    ensures SkipSpaces(s + [x], i) == |s|
    decreases |s| - i
  {
    if i < |s| {
      SpacesThen(s, x, i + 1);
    }
  }
}
