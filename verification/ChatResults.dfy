/** What the chat parser makes of a message, in texts written out. */
module ChatResults {
  import opened Wrappers
  import opened Strings
  import opened ChatParser
  import opened ChatStreaming
  import opened ChatMessage

  // ---------------------------------------------------------------- stripping and searching

  /** The spaces of the C locale: tab, line feed, vertical tab, form feed, carriage return, space. */
  lemma SpacesAre(c: char)
    ensures IsSpace(c) <==> c as int == 32 || c as int == 9 || c as int == 10 || c as int == 11 || c as int == 12 || c as int == 13
  {
  }

  /** Positions x and y enclose a without its outer spaces. */
  predicate Encloses(a: string, x: nat, y: nat) {
    x < y <= |a| && !IsSpace(a[x]) && !IsSpace(a[y - 1]) && AllSpace(a[..x]) && AllSpace(a[y..])
  }

  lemma {:induction false} SkipsTo(s: string, i: nat, x: nat)
    requires i <= x <= |s| && AllSpace(s[i..x]) && (x < |s| ==> !IsSpace(s[x]))
    ensures SkipSpaces(s, i) == x
    decreases x - i
  {
    if i < x {
      assert s[i] == s[i..x][0];
      assert s[i + 1..x] == s[i..x][1..];
      SkipsTo(s, i + 1, x);
    }
  }

  lemma {:induction false} TrimsTo(s: string, lo: nat, y: nat, hi: nat)
    requires lo < y <= hi <= |s| && !IsSpace(s[y - 1]) && forall i :: y <= i < hi ==> IsSpace(s[i])
    ensures TrimEnd(s, lo, hi) == y
    decreases hi - y
  {
    if y < hi {
      TrimsTo(s, lo, y, hi - 1);
    }
  }

  lemma StrippedIs(a: string, x: nat, y: nat)
    requires Encloses(a, x, y)
    ensures Strip(a) == a[x..y]
  {
    assert a[0..x] == a[..x];
    SkipsTo(a, 0, x);
    assert forall i :: y <= i < |a| ==> a[i] == a[y..][i - y];
    TrimsTo(a, x, y, |a|);
  }

  /** The first occurrence of the pattern at or after lo is at e. */
  lemma FindsAt(s: string, pattern: string, lo: nat, e: nat)
    requires lo <= e <= |s| && OccursAt(s, pattern, e) && forall i :: lo <= i < e ==> !OccursAt(s, pattern, i)
    ensures Find(s, pattern, lo) == Some(e)
  {
    hide Find, OccursAt;
  }

  /** A pattern occurs where the text is something, the pattern and something else. */
  lemma OccursIs(s: string, pattern: string, before: string, behind: string)
    ensures OccursAt(before + pattern + behind, pattern, |before|)
    ensures OccursAt(s, pattern, |before|) ==> s == s[..|before|] + pattern + s[|before| + |pattern|..]
  {
  }

  /** What a text is cut off in: the longest of its ends that begin the pattern, and are not empty. */
  lemma CutOffIs(s: string, pattern: string, i: nat)
    ensures PartialStop(s, pattern) == Some(i) <==>
              i < |s| && s[i..] <= pattern && forall k :: 0 <= k < i ==> !(s[k..] <= pattern)
    ensures PartialStop(s, pattern).None? <==> forall k: nat :: k < |s| ==> !(s[k..] <= pattern)
  {
    hide PartialStopFrom;
    assert forall k: nat :: k < |s| && s[k..] <= pattern ==> PartialAt(s, pattern, k);
    assert forall k: nat :: k < |s| && PartialAt(s, pattern, k) ==> s[k..] <= pattern;
  }

  // ---------------------------------------------------------------- a message with one section

  /** The text from pos on: spaces, perhaps the start tag, a section, the end tag, and the rest. */
  predicate Laid(c: Source, pos: nat, lead: string, tag: string, a: string, b: string) {
    pos <= |c.input| && c.input[pos..] == lead + tag + a + c.endTag + b
  }

  /** Where the parts of a text stand. */
  lemma Parts(s: string, pos: nat, p: string, q: string, r: string, t: string, u: string)
    requires pos <= |s| && s[pos..] == p + q + r + t + u
    ensures var (i, j, k, l) := (pos + |p|, pos + |p| + |q|, pos + |p| + |q| + |r|, pos + |p| + |q| + |r| + |t|);
            && l + |u| == |s|
            && s[pos..i] == p && s[i..j] == q && s[j..k] == r && s[k..l] == t && s[l..] == u
  {
    var all := p + q + r + t + u;
    var (i, j, k, l) := (|p|, |p| + |q|, |p| + |q| + |r|, |p| + |q| + |r| + |t|);
    assert all[..i] == p && all[i..j] == q && all[j..k] == r && all[k..l] == t && all[l..] == u;
    assert s[pos..][..i] == s[pos..pos + i] && s[pos..][i..j] == s[pos + i..pos + j];
    assert s[pos..][j..k] == s[pos + j..pos + k] && s[pos..][k..l] == s[pos + k..pos + l] && s[pos..][l..] == s[pos + l..];
  }

  /** No end tag begins in the section. */
  ghost predicate Uninterrupted(a: string, endTag: string) {
    endTag != "" && forall i :: 0 <= i < |a| ==> !OccursAt(a + endTag, endTag, i)
  }

  /** The rest begins with neither a space nor as much of the start tag as fits. */
  predicate Apart(b: string, startTag: string) {
    b != "" ==> !IsSpace(b[0]) && b[..if |b| < |startTag| then |b| else |startTag|] != startTag[..if |b| < |startTag| then |b| else |startTag|]
  }

  lemma EndTagFound(s: string, j: nat, k: nat, l: nat, a: string, endTag: string)
    requires j <= k <= l <= |s| && s[j..k] == a && s[k..l] == endTag && Uninterrupted(a, endTag)
    ensures Find(s, endTag, j) == Some(k)
  {
    TwoSlices(s, j, k, l);
    forall i | j <= i < k
      ensures !OccursAt(s, endTag, i)
    {
      OccursInside(s, j, l, endTag, i);
    }
    FindsAt(s, endTag, j, k);
  }

  lemma OccursInside(s: string, lo: nat, hi: nat, pattern: string, i: nat)
    requires lo <= i && i + |pattern| <= hi <= |s|
    ensures OccursAt(s, pattern, i) ==> OccursAt(s[lo..hi], pattern, i - lo)
  {
    var (n, m) := (|pattern|, i - lo);
    if OccursAt(s, pattern, i) {
      forall k | 0 <= k < n
        ensures s[lo..hi][m..m + n][k] == pattern[k]
      {
        assert s[i..i + n][k] == s[i + k];
      }
    }
  }

  /** Behind the end tag the section loop stops, and leaves the rest. */
  lemma StopsBehind(c: Source, l: nat, out: Output, pending: string)
    requires l <= |c.input| && Apart(c.input[l..], c.startTag)
    ensures AfterSection(c, l, out, pending) == Done(out, l)
  {
    hide SkipSpaces;
    var b := c.input[l..];
    assert c.input[l..l] == [];
    SkipsTo(c.input, l, l);
    if b != "" {
      assert c.input[l] == b[0] && b == c.input[l..|c.input|];
      var n := TagLength(c, l);
      assert c.input[l..l + n] == b[..n];
    }
  }

  /** What one closed section shows, its text without outer spaces. */
  function Shows(c: Source, stripped: string, pending: string): Output {
    if c.syntax.inContent then
      if c.syntax.format == Deepseek then Output("<think>" + stripped + "</think>", "")
      else Output(c.startTag + stripped + c.endTag, "")
    else Output("", pending + stripped)
  }

  lemma OneSection(c: Source, j: nat, a: string, b: string, x: nat, y: nat, pending: string)
    requires j + |a| + |c.endTag| + |b| == |c.input| && c.input[j..j + |a|] == a
    requires c.input[j + |a|..j + |a| + |c.endTag|] == c.endTag && c.input[j + |a| + |c.endTag|..] == b
    requires Encloses(a, x, y) && Uninterrupted(a, c.endTag) && Apart(b, c.startTag)
    ensures WithRest(c, Sections(c, j, pending)) == Shows(c, a[x..y], pending).Then(Output(b, ""))
  {
    hide Find, Strip, SkipSpaces, AfterSection, Uninterrupted, Apart;
    var (k, l) := (j + |a|, j + |a| + |c.endTag|);
    EndTagFound(c.input, j, k, l, a, c.endTag);
    StrippedIs(a, x, y);
    var (out, pending') := Section(c, a, true, pending);
    assert out == Shows(c, a[x..y], pending) by { SectionShows(c, a, a[x..y], pending); }
    StopsBehind(c, l, out, pending');
    assert SectionStep(c, j, pending) == Done(out, l);
  }

  lemma SectionShows(c: Source, a: string, stripped: string, pending: string)
    requires Strip(a) == stripped != ""
    ensures Section(c, a, true, pending).0 == Shows(c, stripped, pending)
  {
    hide Strip;
  }

  /** A text with a start tag, in terms of its sections. */
  lemma TaggedCase(c: Source, pos: nat, w: nat, lead: string)
    requires pos <= w && w + |c.startTag| <= |c.input| && c.input[pos..w] == lead && AllSpace(lead)
    requires c.input[w..w + |c.startTag|] == c.startTag && c.startTag != "" && !IsSpace(c.startTag[0])
    requires c.syntax.format != NoReasoning
    ensures Ends(c, pos)
    ensures Message(c, pos) == Output(lead, "").Then(WithRest(c, Sections(c, w + |c.startTag|, PrefixAfterTag(c, ""))))
  {
    hide Sections, SkipSpaces, WithRest, Message, TagAt, TagLength, PrefixAfterTag;
    assert c.input[w] == c.input[w..w + |c.startTag|][0] == c.startTag[0];
    SkipsTo(c.input, pos, w);
    WholeTag(c, w);
    MessageCases(c, pos);
  }

  /** The same without a start tag, where reasoning is forced open. */
  lemma ForcedCase(c: Source, pos: nat, w: nat)
    requires pos <= w < |c.input| && AllSpace(c.input[pos..w]) && !IsSpace(c.input[w]) && !TagAt(c, w)
    requires c.syntax.format != NoReasoning && c.syntax.forcedOpen && c.endTag != ""
    ensures Ends(c, pos)
    ensures Message(c, pos) == WithRest(c, Sections(c, w, ""))
  {
    hide Sections, SkipSpaces, WithRest, Message, TagAt, TagLength;
    SkipsTo(c.input, pos, w);
    MessageCases(c, pos);
  }

  /** Texts put together. */
  lemma Joined(c: Source, lead: string, stripped: string, b: string, pending: string)
    requires pending == "" || pending == c.startTag
    ensures var out := Output(lead, "").Then(Shows(c, stripped, pending).Then(Output(b, "")));
            if !c.syntax.inContent then out == Output(lead + b, pending + stripped)
            else out == Output(lead + ((if c.syntax.format == Deepseek then "<think>" + stripped + "</think>"
                                        else c.startTag + stripped + c.endTag) + b), "")
    ensures "" + stripped == stripped && "" + b == b
    ensures Output("", "").Then(Shows(c, stripped, pending)) == Shows(c, stripped, pending)
  {
    assert "" + b == b && "" + (pending + stripped) == pending + stripped && pending + stripped + "" == pending + stripped;
    assert "" + stripped == stripped;
  }

  /**
    A message with a start tag: the section without its outer spaces is the reasoning, or stands
    inline between the tags; the spaces in front and the rest are the content. Where the chat
    template had opened the reasoning, a start tag in the text becomes part of it.
   */
  lemma TaggedMessage(c: Source, pos: nat, lead: string, a: string, b: string, x: nat, y: nat)
    requires Laid(c, pos, lead, c.startTag, a, b) && c.syntax.format != NoReasoning
    requires AllSpace(lead) && c.startTag != "" && !IsSpace(c.startTag[0])
    requires Encloses(a, x, y) && Uninterrupted(a, c.endTag) && Apart(b, c.startTag)
    ensures Ends(c, pos)
    ensures !c.syntax.inContent ==>
              Message(c, pos) == Output(lead + b, if c.syntax.forcedOpen then c.startTag + a[x..y] else a[x..y])
    ensures c.syntax.inContent ==>
              Message(c, pos) == Output(lead + ((if c.syntax.format == Deepseek then "<think>" + a[x..y] + "</think>"
                                                else c.startTag + a[x..y] + c.endTag) + b), "")
  {
    hide Sections, WithRest, Uninterrupted, Apart, Encloses, Message, Shows;
    Parts(c.input, pos, lead, c.startTag, a, c.endTag, b);
    var (w, j) := (pos + |lead|, pos + |lead| + |c.startTag|);
    TaggedCase(c, pos, w, lead);
    Enclosed(a, x, y);
    OneSection(c, j, a, b, x, y, PrefixAfterTag(c, ""));
    Joined(c, lead, a[x..y], b, PrefixAfterTag(c, ""));
  }

  lemma Enclosed(a: string, x: nat, y: nat)
    requires Encloses(a, x, y)
    ensures x < y <= |a|
  {
  }

  lemma WholeTag(c: Source, w: nat)
    requires w + |c.startTag| <= |c.input| && c.input[w..w + |c.startTag|] == c.startTag
    ensures TagAt(c, w) && TagLength(c, w) == |c.startTag|
  {
    assert c.startTag[..|c.startTag|] == c.startTag;
  }

  /** The same without a start tag, where the chat template had opened the reasoning. */
  lemma ForcedMessage(c: Source, pos: nat, lead: string, a: string, b: string, x: nat, y: nat)
    requires Laid(c, pos, lead, "", a, b) && c.syntax.format != NoReasoning && c.syntax.forcedOpen
    requires AllSpace(lead) && |a| > 0 && !IsSpace(a[0]) && !TagAt(c, pos + |lead|)
    requires Encloses(a, x, y) && Uninterrupted(a, c.endTag) && Apart(b, c.startTag)
    ensures Ends(c, pos)
    ensures !c.syntax.inContent ==> Message(c, pos) == Output(b, a[x..y])
    ensures c.syntax.inContent ==>
              Message(c, pos) == Output((if c.syntax.format == Deepseek then "<think>" + a[x..y] + "</think>"
                                         else c.startTag + a[x..y] + c.endTag) + b, "")
  {
    hide Sections, WithRest, Uninterrupted, Apart, Encloses, TagAt, Message, Shows;
    assert lead + "" + a + c.endTag + b == lead + a + c.endTag + b;
    Parts(c.input, pos, lead, "", a, c.endTag, b);
    var w := pos + |lead|;
    assert c.input[w] == c.input[w..w + |a|][0] == a[0];
    HasEndTag(a, c.endTag);
    ForcedCase(c, pos, w);
    Enclosed(a, x, y);
    OneSection(c, w, a, b, x, y, "");
    ForcedJoined(c, a[x..y], b);
  }

  lemma ForcedJoined(c: Source, stripped: string, b: string)
    ensures var out := Shows(c, stripped, "").Then(Output(b, ""));
            if !c.syntax.inContent then out == Output(b, stripped)
            else out == Output((if c.syntax.format == Deepseek then "<think>" + stripped + "</think>"
                                else c.startTag + stripped + c.endTag) + b, "")
  {
    assert "" + b == b && "" + stripped == stripped && stripped + "" == stripped;
  }

  lemma HasEndTag(a: string, endTag: string)
    requires Uninterrupted(a, endTag)
    ensures endTag != ""
  {
  }

  /** Without reasoning, or where neither the template nor the text has opened any, the whole text is content. */
  lemma PlainMessage(c: Source, pos: nat)
    requires pos <= |c.input| && Ends(c, pos)
    requires c.syntax.format == NoReasoning
             || (!c.syntax.forcedOpen
                 && (AllSpace(c.input[pos..])
                     || exists w: nat :: pos <= w < |c.input| && AllSpace(c.input[pos..w]) && !IsSpace(c.input[w]) && !TagAt(c, w)))
    ensures Message(c, pos) == Output(c.input[pos..], "")
  {
    hide Sections, SkipSpaces, WithRest, TagAt, Message;
    if c.syntax.format != NoReasoning {
      if AllSpace(c.input[pos..]) {
        assert c.input[pos..] == c.input[pos..|c.input|];
        SkipsTo(c.input, pos, |c.input|);
      } else {
        var w: nat :| pos <= w < |c.input| && AllSpace(c.input[pos..w]) && !IsSpace(c.input[w]) && !TagAt(c, w);
        SkipsTo(c.input, pos, w);
      }
    }
    MessageCases(c, pos);
  }

  // ---------------------------------------------------------------- reasoning apart and inline

  /** Apart from the content, sections show no content; inline, they show no reasoning. */
  lemma {:induction false} SectionsKept(c: Source, cursor: nat, pending: string)
    requires cursor <= |c.input| && |c.startTag| + |c.endTag| > 0
    ensures var out := Sections(c, cursor, pending).out;
            if c.syntax.inContent then out.reasoning == "" else out.content == ""
    decreases |c.input| - cursor
  {
    hide Find, AfterSection, OpenEnd, OpenIsClosed, Strip;
    match SectionStep(c, cursor, pending)
    case Done(_, _) =>
    case More(_, cursor', pending') => SectionsKept(c, cursor', pending');
  }

  /** Of an attempt that was handled only leading spaces are content, or nothing is reasoning. */
  lemma ReasoningKept(c: Source, pos: nat)
    requires pos <= |c.input| && Ends(c, pos) && Reasoning(c, pos).Some?
    ensures var out := Reasoning(c, pos).value.out;
            if c.syntax.inContent then out.reasoning == ""
            else AllSpace(out.content) && out.content <= c.input[pos..]
  {
    hide Sections, SkipSpaces, Strip;
    ReasoningCases(c, pos);
    var w := SkipSpaces(c.input, pos);
    if w == |c.input| {
      BlankSection(c, pos);
    } else if TagAt(c, w) {
      if TagLength(c, w) == |c.startTag| {
        var p := Sections(c, w + |c.startTag|, PrefixAfterTag(c, ""));
        SectionsKept(c, w + |c.startTag|, PrefixAfterTag(c, ""));
        assert c.input[pos..w] + "" == c.input[pos..w] <= c.input[pos..];
      }
    } else {
      SectionsKept(c, w, "");
    }
  }

  /** A section that is still open when the text ends: all of it that is not a beginning of the end tag. */
  lemma OpenMessage(c: Source, pos: nat, lead: string, a: string, tail: string, x: nat, y: nat)
    requires pos <= |c.input| && c.input[pos..] == lead + c.startTag + a + tail && c.syntax.format != NoReasoning
    requires AllSpace(lead) && c.startTag != "" && !IsSpace(c.startTag[0]) && c.endTag != "" && |a| + |tail| > 0
    requires forall i :: 0 <= i ==> !OccursAt(a + tail, c.endTag, i)
    requires forall i :: 0 <= i < |a| ==> !PartialAt(a + tail, c.endTag, i)
    requires tail == "" || (|tail| < |c.endTag| && tail == c.endTag[..|tail|])
    requires Encloses(a, x, y)
    ensures Ends(c, pos)
    ensures !c.syntax.inContent ==>
              Message(c, pos) == Output(lead, if c.syntax.forcedOpen then c.startTag + a[x..y] else a[x..y])
    ensures c.syntax.inContent ==>
              var (open, close) := if c.syntax.format == Deepseek then ("<think>", "</think>") else (c.startTag, c.endTag);
              Message(c, pos) == Output(lead + (open + a[x..y] + (if tail == "" && !c.isPartial then close else "")), "")
  {
    hide Sections, WithRest, Message, OccursAt, PartialAt, AllSpace, Encloses;
    assert lead + c.startTag + a + tail + "" == lead + c.startTag + a + tail;
    Parts(c.input, pos, lead, c.startTag, a, tail, "");
    var (w, j) := (pos + |lead|, pos + |lead| + |c.startTag|);
    TaggedCase(c, pos, w, lead);
    Enclosed(a, x, y);
    OpenSectionShows(c, j, a, tail, x, y, PrefixAfterTag(c, ""));
    assert lead + "" == lead && "" + (c.startTag + a[x..y]) == c.startTag + a[x..y] && "" + a[x..y] == a[x..y];
  }

  lemma OpenSectionShows(c: Source, j: nat, a: string, tail: string, x: nat, y: nat, pending: string)
    requires j + |a| + |tail| == |c.input| && c.input[j..j + |a|] == a && c.input[j + |a|..] == tail && |a| + |tail| > 0
    requires c.endTag != "" && Encloses(a, x, y)
    requires forall i :: 0 <= i ==> !OccursAt(a + tail, c.endTag, i)
    requires forall i :: 0 <= i < |a| ==> !PartialAt(a + tail, c.endTag, i)
    requires tail == "" || (|tail| < |c.endTag| && tail == c.endTag[..|tail|])
    ensures x < y <= |a|
    ensures WithRest(c, Sections(c, j, pending))
            == if !c.syntax.inContent then Output("", pending + a[x..y])
               else Output((if c.syntax.format == Deepseek then "<think>" else c.startTag) + a[x..y]
                           + (if tail != "" || c.isPartial then "" else if c.syntax.format == Deepseek then "</think>" else c.endTag), "")
  {
    hide SkipSpaces, Strip, OccursAt, PartialAt, Find;
    var s := c.input[j..];
    TwoSlices(c.input, j, j + |a|, |c.input|);
    assert s == c.input[j..|c.input|] == a + tail && c.input[j + |a|..|c.input|] == tail;
    NoneFound(c, j);
    PartialIs(a, tail, c.endTag);
    StrippedIs(a, x, y);
    assert OpenEnd(c, j) == j + |a|;
    NoRest(c, Parse(Section(c, a, OpenIsClosed(c, j), pending).0, |c.input|));
    assert a[x..y] != "";
    var open := if c.syntax.format == Deepseek then "<think>" else c.startTag;
    assert open + a[x..y] + "" == open + a[x..y];
  }

  lemma NoneFound(c: Source, j: nat)
    requires j <= |c.input| && forall i :: 0 <= i ==> !OccursAt(c.input[j..], c.endTag, i)
    ensures Find(c.input, c.endTag, j).None?
  {
    hide Find;
    var e := Find(c.input, c.endTag, j);
    assert c.input[j..] == c.input[j..|c.input|];
    if e.Some? {
      OccursInside(c.input, j, |c.input|, c.endTag, e.value);
    }
  }

  lemma PartialIs(a: string, tail: string, endTag: string)
    requires forall i :: 0 <= i < |a| ==> !PartialAt(a + tail, endTag, i)
    requires tail == "" || (|tail| < |endTag| && tail == endTag[..|tail|])
    ensures PartialStop(a + tail, endTag) == if tail == "" then None else Some(|a|)
  {
    hide PartialStopFrom;
    var s := a + tail;
    if tail != "" {
      assert s[|a|..] == tail;
      assert PartialAt(s, endTag, |a|);
    }
  }

  // ---------------------------------------------------------------- any number of sections

  /** The texts of the sections, in order. */
  function Texts(t: Trace): seq<string> {
    match t
    case Unclosed(text, _) => [text]
    case Closed(text, _, Finished(_)) => [text]
    case Closed(text, _, Reopened(rest)) => [text] + Texts(rest)
  }

  /** The last section has its end tag, or the text has ended for good. */
  predicate LastClosed(c: Source, t: Trace) {
    match t
    case Unclosed(_, tail) => tail == "" && !c.isPartial
    case Closed(_, _, Finished(_)) => true
    case Closed(_, _, Reopened(rest)) => LastClosed(c, rest)
  }

  /** A text without outer spaces between two others; nothing for a blank one. */
  function Piece(before: string, text: string, after: string): string {
    if AllSpace(text) then "" else before + Strip(text) + after
  }

  /** Texts one after the other, the first behind `first` and the others behind `later`. */
  function Listed(texts: seq<string>, first: string, later: string): string {
    if texts == [] then "" else Piece(first, texts[0], "") + Listed(texts[1..], later, later)
  }

  /** Texts one after the other, each between two tags but the last perhaps without the second. */
  function Tagged(texts: seq<string>, open: string, close: string, lastClosed: bool): string {
    if texts == [] then ""
    else if |texts| == 1 then Piece(open, texts[0], if lastClosed then close else "")
    else Piece(open, texts[0], close) + Tagged(texts[1..], open, close, lastClosed)
  }

  /** Kept apart, the texts of all sections are the reasoning; where it was forced open, each new one brings its start tag. */
  lemma {:induction false} SectionsApart(c: Source, t: Trace, pending: string)
    requires !c.syntax.inContent && (pending == "" || c.syntax.forcedOpen)
    ensures Emitted(c, t, pending) == Output("", Listed(Texts(t), pending, if c.syntax.forcedOpen then c.startTag else ""))
  {
    hide Strip, AllSpace;
    var later := if c.syntax.forcedOpen then c.startTag else "";
    var (out, pending') := Section(c, t.text, true, pending);
    ApartPiece(c, t.text, t.Closed? || (t.tail == "" && !c.isPartial), pending);
    ApartPiece(c, t.text, true, pending);
    if t.Closed? && t.next.Reopened? {
      assert ([t.text] + Texts(t.next.rest))[1..] == Texts(t.next.rest);
      SectionsApart(c, t.next.rest, PrefixAfterTag(c, pending'));
    } else {
      assert Texts(t)[1..] == [];
      assert Piece(pending, t.text, "") + "" == Piece(pending, t.text, "");
    }
  }

  lemma ApartPiece(c: Source, text: string, closed: bool, pending: string)
    requires !c.syntax.inContent
    ensures Section(c, text, closed, pending) == (Output("", Piece(pending, text, "")), if AllSpace(text) then pending else "")
  {
    assert pending + Strip(text) + "" == pending + Strip(text);
  }

  /** Inline, the texts of all sections are content between their tags. */
  lemma {:induction false} SectionsInline(c: Source, t: Trace, pending: string)
    requires c.syntax.inContent
    ensures var (open, close) := if c.syntax.format == Deepseek then ("<think>", "</think>") else (c.startTag, c.endTag);
            Emitted(c, t, pending) == Output(Tagged(Texts(t), open, close, LastClosed(c, t)), "")
  {
    hide Strip, AllSpace;
    InlinePiece(c, t.text, t.Closed? || (t.tail == "" && !c.isPartial), pending);
    if t.Closed? && t.next.Reopened? {
      assert |Texts(t)| > 1 && ([t.text] + Texts(t.next.rest))[1..] == Texts(t.next.rest) by { SomeText(t.next.rest); }
      SectionsInline(c, t.next.rest, PrefixAfterTag(c, Section(c, t.text, true, pending).1));
    }
  }

  lemma SomeText(t: Trace)
    ensures |Texts(t)| > 0
  {
  }

  lemma InlinePiece(c: Source, text: string, closed: bool, pending: string)
    requires c.syntax.inContent
    ensures var (open, close) := if c.syntax.format == Deepseek then ("<think>", "</think>") else (c.startTag, c.endTag);
            Section(c, text, closed, pending) == (Output(Piece(open, text, if closed then close else ""), ""), pending)
  {
  }

  // ---------------------------------------------------------------- a literal

  /** The literal first occurs, at or after pos, at i. */
  ghost predicate OccursFirst(input: string, literal: string, pos: nat, i: nat) {
    pos <= i && OccursAt(input, literal, i) && forall k :: pos <= k < i ==> !OccursAt(input, literal, k)
  }

  /** The earliest beginning of the literal that the end of the text cuts off is at i. */
  ghost predicate CutFirst(input: string, literal: string, i: nat) {
    PartialAt(input, literal, i) && forall k :: 0 <= k < i ==> !PartialAt(input, literal, k)
  }

  /**
    A search finds the first occurrence at or after the cursor; without one, on a text that may go
    on, the earliest cut-off beginning in the whole text, if that is not before the cursor.
   */
  lemma LiteralSought(input: string, isPartial: bool, pos: nat, literal: string, i: nat)
    requires pos <= |input|
    ensures OccursFirst(input, literal, pos, i) ==>
              i <= |input| && FindLiteral(input, isPartial, pos, literal) == Some(Found(input[pos..i], i, i + |literal|))
    ensures (forall k :: pos <= k ==> !OccursAt(input, literal, k)) && CutFirst(input, literal, i) ==>
              FindLiteral(input, isPartial, pos, literal)
              == if isPartial && pos <= i < |input| then Some(Found(input[pos..i], i, |input|)) else None
    ensures (forall k :: pos <= k ==> !OccursAt(input, literal, k)) && (forall k :: 0 <= k ==> !PartialAt(input, literal, k)) ==>
              FindLiteral(input, isPartial, pos, literal).None?
  {
    hide Find, PartialStop;
    if OccursFirst(input, literal, pos, i) {
      FindsAt(input, literal, pos, i);
    }
  }
}
