/**
  The streaming chat-message parser: a cursor over the text received so far, literal searches
  that tolerate a truncated end, and the extraction of reasoning sections.
 */
module ChatParser {
  import opened Wrappers
  import opened Strings

  datatype ReasoningFormat = NoReasoning | Auto | DeepseekLegacy | Deepseek

  datatype Syntax = Syntax(format: ReasoningFormat, inContent: bool, forcedOpen: bool)

  /** What a parse reads: the text, whether more may follow, the syntax and the two tags. */
  datatype Source = Source(input: string, isPartial: bool, syntax: Syntax, startTag: string, endTag: string)

  /** Text appended to the message. */
  datatype Output = Output(content: string, reasoning: string) {
    function Then(next: Output): Output {
      Output(content + next.content, reasoning + next.reasoning)
    }
  }

  const NOTHING := Output("", "")

  // ---------------------------------------------------------------- reasoning sections

  function OpenTag(c: Source): string {
    if c.syntax.format == Deepseek then "<think>" else c.startTag
  }

  function CloseTag(c: Source): string {
    if c.syntax.format == Deepseek then "</think>" else c.endTag
  }

  /** One section: what it appends, and the reasoning prefix still pending after it. */
  function Section(c: Source, text: string, closed: bool, pending: string): (Output, string) {
    var stripped := Strip(text);
    if stripped == "" then (NOTHING, pending)
    else if c.syntax.inContent then
      (Output(OpenTag(c) + stripped + (if closed then CloseTag(c) else ""), ""), pending)
    else (Output("", pending + stripped), "")
  }

  /** The prefix to surface with the next section, once a start tag has been read. */
  function PrefixAfterTag(c: Source, pending: string): string {
    if !c.syntax.forcedOpen || c.syntax.inContent then pending else c.startTag
  }

  /** How much of the start tag can be compared at a position. */
  function TagLength(c: Source, at: nat): nat
    requires at <= |c.input|
  {
    if |c.startTag| <= |c.input| - at then |c.startTag| else |c.input| - at
  }

  predicate TagAt(c: Source, at: nat)
    requires at <= |c.input|
  {
    var n := TagLength(c, at);
    c.input[at..at + n] == c.startTag[..n]
  }

  datatype Parse = Parse(out: Output, end: nat)

  /** Text without an end tag, up to where an end tag may be starting. */
  function OpenEnd(c: Source, cursor: nat): (r: nat)
    requires cursor <= |c.input|
    ensures cursor <= r <= |c.input|
  {
    var off := PartialStop(c.input[cursor..], c.endTag);
    if off.Some? then cursor + off.value else |c.input|
  }

  function OpenIsClosed(c: Source, cursor: nat): bool
    requires cursor <= |c.input|
  {
    PartialStop(c.input[cursor..], c.endTag).None? && !c.isPartial
  }

  /** One turn of the section loop: it stops, or another start tag opens the next section. */
  datatype Step = Done(out: Output, end: nat) | More(out: Output, cursor: nat, pending: string)

  /** Where a section that was closed at e leads. */
  function AfterSection(c: Source, e: nat, out: Output, pending: string): (s: Step)
    requires e <= |c.input|
    ensures s.out == out
    ensures s.Done? ==> e <= s.end <= |c.input|
    ensures s.More? ==> e + |c.startTag| <= s.cursor <= |c.input|
  {
    var next := SkipSpaces(c.input, e);
    if next == |c.input| then Done(out, next)
    else if !TagAt(c, next) then Done(out, next)
    else if TagLength(c, next) < |c.startTag| then Done(out, |c.input|)
    else More(out, next + |c.startTag|, PrefixAfterTag(c, pending))
  }

  function SectionStep(c: Source, cursor: nat, pending: string): (s: Step)
    requires cursor <= |c.input|
    ensures s.Done? ==> cursor <= s.end <= |c.input|
    ensures s.More? ==> cursor + |c.endTag| + |c.startTag| <= s.cursor <= |c.input|
  {
    if cursor == |c.input| then Done(NOTHING, |c.input|)
    else
      match Find(c.input, c.endTag, cursor)
      case None =>
        Done(Section(c, c.input[cursor..OpenEnd(c, cursor)], OpenIsClosed(c, cursor), pending).0, |c.input|)
      case Some(e) =>
        var (out, pending') := Section(c, c.input[cursor..e], true, pending);
        AfterSection(c, e + |c.endTag|, out, pending')
  }

  /** All sections from inside an open one. */
  function Sections(c: Source, cursor: nat, pending: string): (p: Parse)
    requires cursor <= |c.input| && |c.startTag| + |c.endTag| > 0
    ensures cursor <= p.end <= |c.input|
    decreases |c.input| - cursor
  {
    match SectionStep(c, cursor, pending)
    case Done(out, end) => Parse(out, end)
    case More(out, cursor', pending') =>
      var rest := Sections(c, cursor', pending');
      Parse(out.Then(rest.out), rest.end)
  }

  /** The attempt at a position ends: a tag has text, or the section loop is never entered. */
  predicate Ends(c: Source, pos: nat)
    requires pos <= |c.input|
  {
    |c.startTag| + |c.endTag| > 0 || c.syntax.format == NoReasoning || SkipSpaces(c.input, pos) == |c.input|
  }

  /** The whole attempt at a position; None when it declines and changes nothing. */
  function Reasoning(c: Source, pos: nat): (r: Option<Parse>)
    requires pos <= |c.input| && Ends(c, pos)
    ensures r.Some? ==> pos <= r.value.end <= |c.input|
  {
    if c.syntax.format == NoReasoning then None
    else
      var w := SkipSpaces(c.input, pos);
      if w == |c.input| then
        if c.syntax.forcedOpen then Some(Parse(Section(c, c.input[pos..], !c.isPartial, "").0, |c.input|)) else None
      else if TagAt(c, w) then
        if TagLength(c, w) < |c.startTag| then Some(Parse(NOTHING, |c.input|))
        else
          var p := Sections(c, w + |c.startTag|, PrefixAfterTag(c, ""));
          Some(Parse(Output(c.input[pos..w], "").Then(p.out), p.end))
      else if c.syntax.forcedOpen then Some(Sections(c, w, ""))
      else None
  }

  /** A message without tools: one attempt at reasoning, and whatever is left of the text as content. */
  function Message(c: Source, pos: nat): Output
    requires pos <= |c.input| && Ends(c, pos)
  {
    match Reasoning(c, pos)
    case None => Output(c.input[pos..], "")
    case Some(p) => WithRest(c, p)
  }

  /** A parse and the text behind it. */
  function WithRest(c: Source, p: Parse): Output
    requires p.end <= |c.input|
  {
    p.out.Then(Output(c.input[p.end..], ""))
  }

  /** The attempt, by the first text behind the spaces. */
  lemma ReasoningCases(c: Source, pos: nat)
    requires pos <= |c.input| && Ends(c, pos)
    ensures var (r, w) := (Reasoning(c, pos), SkipSpaces(c.input, pos));
            if c.syntax.format == NoReasoning then r.None?
            else if w == |c.input| then
              r == if c.syntax.forcedOpen then Some(Parse(Section(c, c.input[pos..], !c.isPartial, "").0, w)) else None
            else
              && |c.startTag| + |c.endTag| > 0
              && r == if TagAt(c, w) then
                        if TagLength(c, w) < |c.startTag| then Some(Parse(NOTHING, |c.input|))
                        else var p := Sections(c, w + |c.startTag|, PrefixAfterTag(c, ""));
                             Some(Parse(Output(c.input[pos..w], "").Then(p.out), p.end))
                      else if c.syntax.forcedOpen then Some(Sections(c, w, ""))
                      else None
  {
    hide Sections, Section, SkipSpaces, TagAt;
  }

  /** Pieces appended one by one. */
  lemma Appended(s: string, t: string, u: string, v: string)
    ensures s + t + u + v == s + (t + u + v) && s + t + u == s + (t + u)
    ensures t == "" ==> s + u == s + (t + u)
    ensures v == "" ==> t + u + v == t + u && s + t + u + v == s + t + u
  {
  }

  lemma NothingAdded(content: string, reasoning: string)
    ensures content + "" == content && reasoning + "" == reasoning
  {
  }

  // ---------------------------------------------------------------- the parser object

  /** A literal found: the text before it and its range. */
  datatype Found = Found(prelude: string, begin: nat, end: nat)

  function FindLiteral(input: string, isPartial: bool, pos: nat, literal: string): Option<Found>
    requires pos <= |input|
  {
    match Find(input, literal, pos)
    case Some(i) => Some(Found(input[pos..i], i, i + |literal|))
    case None =>
      var partialAt := PartialStop(input, literal);
      if isPartial && partialAt.Some? && partialAt.value >= pos then
        Some(Found(input[pos..partialAt.value], partialAt.value, |input|))
      else None
  }

  class Parser {
    const input: string
    const isPartial: bool
    const syntax: Syntax
    var pos: nat
    var content: string
    var reasoning: string

    ghost predicate Valid()
      reads this
    {
      pos <= |input|
    }

    constructor (input: string, isPartial: bool, syntax: Syntax)
      ensures Valid() && pos == 0 && content == "" && reasoning == ""
      ensures this.input == input && this.isPartial == isPartial && this.syntax == syntax
    {
      this.input, this.isPartial, this.syntax := input, isPartial, syntax;
      pos, content, reasoning := 0, "", "";
    }

    method MoveTo(p: nat) returns (ok: bool)
      requires Valid()
      modifies this`pos
      ensures Valid() && ok == (p <= |input|) && pos == if ok then p else old(pos)
    {
      ok := p <= |input|;
      if ok {
        pos := p;
      }
    }

    method MoveBack(n: nat) returns (ok: bool)
      requires Valid()
      modifies this`pos
      ensures Valid() && ok == (n <= old(pos)) && pos == if ok then old(pos) - n else old(pos)
    {
      ok := n <= pos;
      if ok {
        pos := pos - n;
      }
    }

    method AddContent(text: string)
      modifies this`content
      ensures content == old(content) + text
    {
      content := content + text;
    }

    method AddReasoningContent(text: string)
      modifies this`reasoning
      ensures reasoning == old(reasoning) + text
    {
      reasoning := reasoning + text;
    }

    method ConsumeSpaces() returns (consumed: bool)
      requires Valid()
      modifies this`pos
      ensures Valid() && pos == SkipSpaces(input, old(pos)) && consumed == (pos > old(pos))
    {
      consumed := false;
      while pos < |input| && IsSpace(input[pos])
        invariant old(pos) <= pos <= |input| && consumed == (pos > old(pos))
        invariant SkipSpaces(input, pos) == SkipSpaces(input, old(pos))
      {
        pos := pos + 1;
        consumed := true;
      }
    }

    method TryConsumeLiteral(literal: string) returns (ok: bool)
      requires Valid()
      modifies this`pos
      ensures Valid() && ok == OccursAt(input, literal, old(pos))
      ensures pos == if ok then old(pos) + |literal| else old(pos)
    {
      var p := pos;
      for i := 0 to |literal|
        invariant p == pos + i <= |input| && input[pos..p] == literal[..i]
      {
        if p >= |input| {
          return false;
        }
        if input[p] != literal[i] {
          assert OccursAt(input, literal, pos) ==> input[pos..pos + |literal|][i] == literal[i];
          return false;
        }
        assert input[pos..p + 1] == input[pos..p] + [input[p]];
        assert literal[..i + 1] == literal[..i] + [literal[i]];
        p := p + 1;
      }
      assert literal[..|literal|] == literal;
      pos := p;
      return true;
    }

    method TryFindLiteral(literal: string) returns (r: Option<Found>)
      requires Valid()
      modifies this`pos
      ensures Valid() && r == FindLiteral(input, isPartial, old(pos), literal)
      ensures pos == if r.Some? then r.value.end else old(pos)
    {
      var idx := Find(input, literal, pos);
      if idx.Some? {
        r := Some(Found(input[pos..idx.value], idx.value, idx.value + |literal|));
        pos := idx.value + |literal|;
        return;
      }
      if isPartial {
        idx := PartialStop(input, literal);
        if idx.Some? && idx.value >= pos {
          r := Some(Found(input[pos..idx.value], idx.value, |input|));
          pos := |input|;
          return;
        }
      }
      return None;
    }

    ghost function SourceOf(startTag: string, endTag: string): Source {
      Source(input, isPartial, syntax, startTag, endTag)
    }

    /** The handle_reasoning step: appends one section. */
    method HandleReasoning(text: string, closed: bool, pending: string, startTag: string, endTag: string)
      returns (pending': string)
      modifies this`content, this`reasoning
      ensures var (out, next) := Section(SourceOf(startTag, endTag), text, closed, pending);
              && content == old(content) + out.content && reasoning == old(reasoning) + out.reasoning
              && pending' == next
    {
      hide Strip;
      NothingAdded(content, reasoning);
      pending' := pending;
      var stripped := Strip(text);
      if stripped == "" {
        return;
      }
      if syntax.inContent {
        ghost var c := SourceOf(startTag, endTag);
        Appended(content, OpenTag(c), stripped, if closed then CloseTag(c) else "");
        AddContent(if syntax.format == Deepseek then "<think>" else startTag);
        AddContent(stripped);
        if closed {
          AddContent(if syntax.format == Deepseek then "</think>" else endTag);
        }
      } else {
        Appended(reasoning, pending, stripped, "");
        if pending != "" {
          AddReasoningContent(pending);
          pending' := "";
        }
        AddReasoningContent(stripped);
      }
    }

    method SetReasoningPrefix(at: nat, pending: string, startTag: string) returns (pending': string)
      requires at <= |input|
      ensures OccursAt(input, startTag, at) ==>
                forall endTag :: pending' == PrefixAfterTag(SourceOf(startTag, endTag), pending)
    {
      if !syntax.forcedOpen || syntax.inContent {
        return pending;
      }
      if at + |startTag| > |input| {
        return "";
      }
      return input[at..at + |startTag|];
    }

    /** Extracts reasoning at the cursor, whenever the attempt ends. Declining leaves the whole state unchanged. */
    method TryParseReasoning(startTag: string, endTag: string) returns (handled: bool)
      requires Valid() && Ends(SourceOf(startTag, endTag), pos)
      modifies this
      ensures Valid()
      ensures var r := Reasoning(SourceOf(startTag, endTag), old(pos));
              && handled == r.Some?
              && pos == (if handled then r.value.end else old(pos))
              && content == old(content) + (if handled then r.value.out.content else "")
              && reasoning == old(reasoning) + (if handled then r.value.out.reasoning else "")
    {
      hide Sections, Section, PartialStop, Strip, PrefixAfterTag, SkipSpaces, TagAt, TagLength, OccursAt, Reasoning, Ends;
      ghost var c := SourceOf(startTag, endTag);
      ReasoningCases(c, pos);
      NothingAdded(content, reasoning);
      if syntax.format == NoReasoning {
        return false;
      }
      var pending := "";
      var savedPos, savedContent, savedReasoning := pos, |content|, |reasoning|;
      var whitespaceEnd := SpacesFrom(pos);
      if whitespaceEnd >= |input| {
        RestoreState(savedPos, savedContent, savedReasoning);
        assert content == old(content) && reasoning == old(reasoning);
        handled := BlankRest(startTag, endTag);
        return;
      }
      var cursor := whitespaceEnd;
      var startPrefix, hasStartTag := StartTagAt(cursor, startTag, c);
      if hasStartTag && startPrefix < |startTag| {
        pos := |input|;
        return true;
      }
      if hasStartTag {
        OpenTagged(cursor, startTag, endTag);
        return true;
      }
      if !syntax.forcedOpen {
        RestoreState(savedPos, savedContent, savedReasoning);
        assert content == old(content) && reasoning == old(reasoning);
        return false;
      }
      ParseSections(cursor, pending, startTag, endTag);
      return true;
    }

    /** Takes all the text behind the cursor. */
    method ConsumeRest() returns (rest: string)
      requires Valid()
      modifies this`pos
      ensures Valid() && rest == input[old(pos)..] && pos == |input|
    {
      rest := input[pos..];
      pos := |input|;
    }

    /** Parses a message without tools. */
    method ParseContentOnly()
      requires Valid()
      modifies this
      ensures Valid() && pos == |input|
      ensures var m := Message(SourceOf("<think>", "</think>"), old(pos));
              content == old(content) + m.content && reasoning == old(reasoning) + m.reasoning
    {
      hide Reasoning;
      ghost var c := SourceOf("<think>", "</think>");
      ghost var out := Message(c, pos);
      var handled := TryParseReasoning("<think>", "</think>");
      ghost var shown := if handled then Reasoning(c, old(pos)).value.out else NOTHING;
      assert shown.content + input[pos..] == out.content;
      var rest := ConsumeRest();
      AddContent(rest);
      NothingAdded(shown.content, out.reasoning);
      Appended(old(content), shown.content, rest, "");
    }

    /** How much of the start tag fits behind the cursor, and whether the text there agrees with it. */
    method StartTagAt(cursor: nat, startTag: string, ghost c: Source) returns (startPrefix: nat, hasStartTag: bool)
      requires cursor <= |input| && c.input == input && c.startTag == startTag
      ensures startPrefix == TagLength(c, cursor) && hasStartTag == TagAt(c, cursor)
      ensures hasStartTag && startPrefix >= |startTag| ==> OccursAt(input, startTag, cursor)
    {
      startPrefix := if |startTag| <= |input| - cursor then |startTag| else |input| - cursor;
      hasStartTag := input[cursor..cursor + startPrefix] == startTag[..startPrefix];
      assert startTag[..|startTag|] == startTag;
    }

    /** A whole start tag behind leading spaces: the spaces go to the content, then the sections follow. */
    method OpenTagged(at: nat, startTag: string, endTag: string)
      requires Valid() && pos <= at && OccursAt(input, startTag, at) && |startTag| + |endTag| > 0
      modifies this
      ensures Valid()
      ensures var c := SourceOf(startTag, endTag);
              var p := Sections(c, at + |startTag|, PrefixAfterTag(c, ""));
              && pos == p.end && content == old(content) + (input[old(pos)..at] + p.out.content)
              && reasoning == old(reasoning) + p.out.reasoning
    {
      hide Sections, PrefixAfterTag;
      if at > pos {
        AddContent(input[pos..at]);
      }
      assert content == old(content) + input[pos..at];
      var pending := SetReasoningPrefix(at, "", startTag);
      ghost var p := Sections(SourceOf(startTag, endTag), at + |startTag|, pending);
      assert old(content) + (input[pos..at] + p.out.content) == content + p.out.content;
      ParseSections(at + |startTag|, pending, startTag, endTag);
    }

    /** Nothing but spaces is left: forced-open reasoning takes them, otherwise the attempt declines. */
    method BlankRest(startTag: string, endTag: string) returns (handled: bool)
      requires Valid()
      modifies this
      ensures Valid() && handled == syntax.forcedOpen
      ensures var out := if handled then Section(SourceOf(startTag, endTag), input[old(pos)..], !isPartial, "").0 else NOTHING;
              content == old(content) + out.content && reasoning == old(reasoning) + out.reasoning
      ensures pos == if handled then |input| else old(pos)
    {
      if syntax.forcedOpen {
        var rest := input[pos..];
        EmptySection(SourceOf(startTag, endTag), !isPartial, "");
        if rest != "" {
          var _ := HandleReasoning(rest, !isPartial, "", startTag, endTag);
        }
        pos := |input|;
        return true;
      }
      return false;
    }

    /** The loop over sections, from inside an open one. */
    method ParseSections(start: nat, pendingPrefix: string, startTag: string, endTag: string)
      requires start <= |input| && |startTag| + |endTag| > 0
      modifies this
      ensures Valid()
      ensures var p := Sections(SourceOf(startTag, endTag), start, pendingPrefix);
              pos == p.end && content == old(content) + p.out.content && reasoning == old(reasoning) + p.out.reasoning
    {
      hide SectionStep;
      ghost var c := SourceOf(startTag, endTag);
      ghost var goal := Sections(c, start, pendingPrefix);
      ghost var done := NOTHING;
      var cursor, pending := start, pendingPrefix;
      var more := true;
      while more
        invariant cursor <= |input|
        invariant content == old(content) + done.content && reasoning == old(reasoning) + done.reasoning
        invariant more ==> var rest := Sections(c, cursor, pending);
                           goal.end == rest.end && goal.out == done.Then(rest.out)
        invariant !more ==> pos == goal.end && done == goal.out
        decreases |input| - cursor, more
      {
        ghost var step := SectionStep(c, cursor, pending);
        ghost var rest := if step.More? then Sections(c, step.cursor, step.pending).out else NOTHING;
        ThenAssociates(done, step.out, rest);
        more, cursor, pending := ParseSection(cursor, pending, startTag, endTag);
        done := done.Then(step.out);
      }
    }

    lemma ThenAssociates(a: Output, b: Output, c: Output)
      ensures a.Then(b.Then(c)) == a.Then(b).Then(c) && a.Then(NOTHING) == a
    {
      assert a.content + (b.content + c.content) == a.content + b.content + c.content;
      assert a.reasoning + (b.reasoning + c.reasoning) == a.reasoning + b.reasoning + c.reasoning;
    }

    /** One turn of the loop; `more` says whether another section was opened. */
    method ParseSection(cursor: nat, pending: string, startTag: string, endTag: string)
      returns (more: bool, cursor': nat, pending': string)
      requires cursor <= |input|
      modifies this
      ensures var step := SectionStep(SourceOf(startTag, endTag), cursor, pending);
              && content == old(content) + step.out.content && reasoning == old(reasoning) + step.out.reasoning
              && more == step.More?
              && (if more then cursor' == step.cursor && pending' == step.pending && pos == old(pos)
                  else pos == step.end && cursor' == cursor && pending' == pending)
    {
      hide Section, PrefixAfterTag, PartialStop, Find, AfterSection;
      ghost var c := SourceOf(startTag, endTag);
      more, cursor', pending' := false, cursor, pending;
      if cursor >= |input| {
        pos := |input|;
        return;
      }
      var endPos := Find(input, endTag, cursor);
      if endPos.None? {
        OpenSection(cursor, pending, startTag, endTag);
        return;
      }
      EmptySection(c, true, pending);
      assert input[cursor..cursor] == "";
      var left;
      if endPos.value > cursor {
        left := HandleReasoning(input[cursor..endPos.value], true, pending, startTag, endTag);
      } else {
        left := HandleReasoning("", true, pending, startTag, endTag);
      }
      ghost var out := Section(c, input[cursor..endPos.value], true, pending).0;
      var found, next, reopened := AfterEnd(endPos.value + |endTag|, left, startTag, endTag, out);
      if found {
        more, cursor', pending' := true, next, reopened;
      }
    }

    /** The branch without an end tag: the text is taken as far as no end tag may be starting. */
    method OpenSection(cursor: nat, pending: string, startTag: string, endTag: string)
      requires cursor < |input|
      modifies this
      ensures var c := SourceOf(startTag, endTag);
              var out := Section(c, input[cursor..OpenEnd(c, cursor)], OpenIsClosed(c, cursor), pending).0;
              pos == |input| && content == old(content) + out.content && reasoning == old(reasoning) + out.reasoning
    {
      hide Section, PartialStop;
      ghost var c := SourceOf(startTag, endTag);
      var partialOff := PartialStop(input[cursor..], endTag);
      var reasoningEnd := if partialOff.None? then |input| else cursor + partialOff.value;
      EmptySection(c, partialOff.None? && !isPartial, pending);
      assert input[cursor..cursor] == "";
      if reasoningEnd > cursor {
        var _ := HandleReasoning(input[cursor..reasoningEnd], partialOff.None? && !isPartial, pending, startTag, endTag);
      }
      pos := |input|;
    }

    /** The part of the turn behind an end tag: spaces, then perhaps another start tag. */
    method AfterEnd(start: nat, left: string, startTag: string, endTag: string, ghost out: Output)
      returns (more: bool, cursor': nat, pending': string)
      requires start <= |input|
      modifies this`pos
      ensures var step := AfterSection(SourceOf(startTag, endTag), start, out, left);
              && more == step.More?
              && (if more then cursor' == step.cursor && pending' == step.pending && pos == old(pos) else pos == step.end)
    {
      hide PrefixAfterTag;
      more, cursor', pending' := false, 0, left;
      var next := SpacesFrom(start);
      var nextRemaining := |input| - next;
      if nextRemaining == 0 {
        pos := next;
        return;
      }
      var nextPrefix := if |startTag| <= nextRemaining then |startTag| else nextRemaining;
      if input[next..next + nextPrefix] == startTag[..nextPrefix] {
        if nextPrefix < |startTag| {
          pos := |input|;
          return;
        }
        pending' := SetReasoningPrefix(next, left, startTag);
        more, cursor' := true, next + |startTag|;
        return;
      }
      pos := next;
    }

    lemma EmptySection(c: Source, closed: bool, pending: string)
      ensures Section(c, "", closed, pending) == (NOTHING, pending)
    {
    }

    /** The inner loop that steps over spaces. */
    method SpacesFrom(start: nat) returns (cursor: nat)
      requires start <= |input|
      ensures cursor == SkipSpaces(input, start)
    {
      cursor := start;
      while cursor < |input| && IsSpace(input[cursor])
        invariant start <= cursor <= |input|
        invariant SkipSpaces(input, cursor) == SkipSpaces(input, start)
      {
        cursor := cursor + 1;
      }
    }

    /** Back to a saved position, with whatever was appended since cut off. */
    method RestoreState(savedPos: nat, savedContent: nat, savedReasoning: nat)
      requires savedPos <= |input| && savedContent <= |content| && savedReasoning <= |reasoning|
      modifies this
      ensures Valid() && pos == savedPos
      ensures content == old(content)[..savedContent] && reasoning == old(reasoning)[..savedReasoning]
    {
      pos := savedPos;
      content := content[..savedContent];
      reasoning := reasoning[..savedReasoning];
    }
  }
}
