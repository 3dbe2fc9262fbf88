/** The report preview's markdown: the text split into lines, each line classified as a
    heading, a list item, a spacer or a paragraph, and the text of each split into plain runs
    and bold `**…**` spans. */
module Markdown {
  import opened Common

  // ---------------------------------------------------------------- lines

  /** The position of the first newline, or the length when there is none. */
  function FirstNewline(s: string): (i: nat)
    ensures i <= |s|
    ensures i < |s| ==> s[i] == '\n'
    ensures forall j :: 0 <= j < i ==> s[j] != '\n'
  {
    if s == [] then 0 else if s[0] == '\n' then 0 else 1 + FirstNewline(s[1..])
  }

  /** `text.split('\n')`. */
  function SplitLines(s: string): (r: seq<string>)
    ensures |r| >= 1
    decreases |s|
  {
    var i := FirstNewline(s);
    if i == |s| then [s] else [s[..i]] + SplitLines(s[i + 1..])
  }

  /** Joining the lines with newlines gives the text back. */
  lemma {:induction false} SplitLinesJoin(s: string)
    ensures Join(SplitLines(s), "\n") == s
    decreases |s|
  {
    var i := FirstNewline(s);
    if i < |s| {
      var rest := s[i + 1..];
      SplitLinesJoin(rest);
      assert SplitLines(s)[1..] == SplitLines(rest);
      assert s == s[..i] + "\n" + rest;
    }
  }

  /** No line holds a newline. */
  lemma {:induction false} SplitLinesNoNewline(s: string)
    ensures forall k :: 0 <= k < |SplitLines(s)| ==> '\n' !in SplitLines(s)[k]
    decreases |s|
  {
    var i := FirstNewline(s);
    assert '\n' !in s[..i];
    if i == |s| {
      assert s[..i] == s;
    } else {
      var rest := s[i + 1..];
      SplitLinesNoNewline(rest);
      assert SplitLines(s) == [s[..i]] + SplitLines(rest);
    }
  }

  /** There is one line more than there are newlines. */
  lemma {:induction false} SplitLinesCount(s: string)
    ensures |SplitLines(s)| == multiset(s)['\n'] + 1
    decreases |s|
  {
    var i := FirstNewline(s);
    if i == |s| {
      NoNewlineCount(s);
    } else {
      SplitLinesCount(s[i + 1..]);
      NewlinesAround(s, i);
    }
  }

  lemma NoNewlineCount(s: string)
    requires forall j :: 0 <= j < |s| ==> s[j] != '\n'
    ensures multiset(s)['\n'] == 0
  {
    assert '\n' !in s;
  }

  lemma NewlinesAround(s: string, i: nat)
    requires i < |s| && s[i] == '\n'
    requires forall j :: 0 <= j < i ==> s[j] != '\n'
    ensures multiset(s)['\n'] == multiset(s[i + 1..])['\n'] + 1
  {
    assert s == s[..i] + [s[i]] + s[i + 1..];
    assert multiset(s) == multiset(s[..i]) + multiset([s[i]]) + multiset(s[i + 1..]);
    NoNewlineCount(s[..i]);
  }

  // ---------------------------------------------------------------- line kinds

  /** What a line of the report is, with the text that follows its markup. */
  datatype Line = Heading(level: nat, text: string) | ListItem(marker: char, text: string) | Spacer | Paragraph(text: string)

  function Hashes(level: nat): string
  {
    seq(level, _ => '#')
  }

  /** The line classifier: `# `, `## `, `### `, then `- ` or `* `, then a blank line, in that
      order; the text is the line without the markup. */
  function Classify(line: string): Line
  {
    if StartsWith(line, "# ") then Heading(1, line[2..])
    else if StartsWith(line, "## ") then Heading(2, line[3..])
    else if StartsWith(line, "### ") then Heading(3, line[4..])
    else if StartsWith(line, "- ") || StartsWith(line, "* ") then ListItem(line[0], line[2..])
    else if Trim(line) == "" then Spacer
    else Paragraph(line)
  }

  /** The markup a classified line is written as. */
  function Markup(l: Line): string
  {
    match l
    case Heading(level, text) => Hashes(level) + " " + text
    case ListItem(marker, text) => [marker, ' '] + text
    case Spacer => ""
    case Paragraph(text) => text
  }

  /** A line is a spacer exactly when it is all white space. */
  lemma ClassifySpacer(line: string)
    ensures Classify(line).Spacer? <==> Trim(line) == ""
  {
    TrimSpec(line);
    if line != [] && (line[0] == '#' || line[0] == '-' || line[0] == '*') {
      assert !IsSpace(line[0]);
    }
  }

  /** Any line but a spacer is its markup followed by its text, so nothing of it is lost. */
  lemma ClassifyRoundTrip(line: string)
    requires !Classify(line).Spacer?
    ensures Markup(Classify(line)) == line
  {
    var l := Classify(line);
    match l
    case Heading(level, text) =>
      assert line[..level + 1] == Hashes(level) + " ";
      assert line == line[..level + 1] + text;
    case ListItem(marker, text) =>
      assert line[..2] == [marker, ' '];
      assert line == line[..2] + text;
    case Paragraph(text) =>
  }

  /** One, two or three `#` and a space make a heading of that level, whatever follows. */
  lemma HeadingLevels(line: string, level: nat)
    requires 1 <= level <= 3 && StartsWith(line, Hashes(level) + " ")
    ensures Classify(line) == Heading(level, line[level + 1..])
  {
    assert line[..level + 1] == Hashes(level) + " ";
    assert line[level] == ' ';
    assert level > 1 ==> line[1] == '#';
    assert level > 2 ==> line[2] == '#';
  }

  /** `- ` or `* ` makes a list item, whatever follows. */
  lemma ListItems(line: string)
    requires StartsWith(line, "- ") || StartsWith(line, "* ")
    ensures Classify(line) == ListItem(line[0], line[2..])
  {
    assert line[..2] == "- " || line[..2] == "* ";
    assert line[0] != '#';
  }

  // ---------------------------------------------------------------- bold spans

  /** The characters the regular expression's `.` does not match. */
  predicate IsLineTerminator(c: char)
  {
    c == '\n' || c == '\r' || c == '\U{2028}' || c == '\U{2029}'
  }

  predicate StarsAt(s: string, i: int)
  {
    0 <= i && i + 1 < |s| && s[i] == '*' && s[i + 1] == '*'
  }

  /** The lazy `.*?\*\*` from `j`: the first `**` at or after `j`, provided no line terminator
      comes before it. */
  function Closing(s: string, j: nat): (r: Option<nat>)
    requires j <= |s|
    ensures r.Some? ==> j <= r.value && StarsAt(s, r.value)
    ensures r.Some? ==> forall k :: j <= k < r.value ==> !StarsAt(s, k) && !IsLineTerminator(s[k])
    decreases |s| - j
  {
    if j + 1 >= |s| then None
    else if StarsAt(s, j) then Some(j)
    else if IsLineTerminator(s[j]) then None
    else Closing(s, j + 1)
  }

  /** The leftmost match of `\*\*.*?\*\*` at or after `from`, as its start and end. */
  function NextSpan(s: string, from: nat): (r: Option<(nat, nat)>)
    requires from <= |s|
    ensures r.Some? ==> from <= r.value.0 && r.value.0 + 4 <= r.value.1 <= |s|
    ensures r.Some? ==> StarsAt(s, r.value.0) && StarsAt(s, r.value.1 - 2)
    decreases |s| - from
  {
    if from == |s| then None
    else if StarsAt(s, from) && Closing(s, from + 2).Some? then Some((from, Closing(s, from + 2).value + 2))
    else NextSpan(s, from + 1)
  }

  /** `line.split(/(\*\*.*?\*\*)/g)`: the run before the first span, the span, the run after
      it up to the next span, and so on, ending with the run after the last span. */
  function SplitSpans(s: string): (parts: seq<string>)
    ensures |parts| % 2 == 1
    decreases |s|
  {
    match NextSpan(s, 0)
    case None => [s]
    case Some((p, e)) => [s[..p], s[p..e]] + SplitSpans(s[e..])
  }

  function Concat(parts: seq<string>): string
  {
    if parts == [] then "" else parts[0] + Concat(parts[1..])
  }

  /** The runs and spans, read in order, are the line. */
  lemma {:induction false} SplitSpansConcat(s: string)
    ensures Concat(SplitSpans(s)) == s
    decreases |s|
  {
    match NextSpan(s, 0)
    case None =>
    case Some((p, e)) =>
      SplitSpansConcat(s[e..]);
      var parts := SplitSpans(s);
      assert parts[1..][1..] == SplitSpans(s[e..]);
      assert s == s[..p] + s[p..e] + s[e..];
  }

  /** At least four characters, opening and closing with `**`. */
  predicate IsSpan(q: string)
  {
    |q| >= 4 && StarsAt(q, 0) && StarsAt(q, |q| - 2)
  }

  /** Every second part is a span. */
  lemma {:induction false} SplitSpansSpans(s: string)
    ensures forall i :: 0 <= i < |SplitSpans(s)| && i % 2 == 1 ==> IsSpan(SplitSpans(s)[i])
    decreases |s|
  {
    var r := NextSpan(s, 0);
    if r.Some? {
      var p, e := r.value.0, r.value.1;
      SplitSpansSpans(s[e..]);
      var parts := SplitSpans(s);
      var rest := SplitSpans(s[e..]);
      var q := s[p..e];
      assert parts == [s[..p], q] + rest;
      assert q[0] == s[p] && q[1] == s[p + 1];
      assert q[|q| - 2] == s[e - 2] && q[|q| - 1] == s[e - 1];
      assert IsSpan(q);
      forall i | 0 <= i < |parts| && i % 2 == 1
        ensures IsSpan(parts[i])
      {
        if i == 1 {
          assert parts[i] == q;
        } else {
          assert (i - 2) % 2 == 1 && 0 <= i - 2 < |rest|;
          assert parts[i] == rest[i - 2];
        }
      }
    }
  }

  /** A span is `**`, its inner text, `**`. */
  lemma SpanShape(q: string)
    requires IsSpan(q)
    ensures q == "**" + Unwrap(q) + "**"
    ensures StartsWith(q, "**") && EndsWith(q, "**")
  {
    assert q[..2] == "**";
    assert q[|q| - 2..] == "**";
    assert q == q[..2] + q[2..|q| - 2] + q[|q| - 2..];
  }

  /** A piece of inline text: plain, or shown in bold. */
  datatype Inline = Plain(text: string) | Bold(text: string)

  /** `part.slice(2, -2)`. */
  function Unwrap(part: string): string
  {
    if |part| >= 4 then part[2..|part| - 2] else ""
  }

  /** `parseInline` as written: a part is bold when it starts and ends with `**`. */
  function ShowPartAsWritten(part: string): Inline
  {
    if StartsWith(part, "**") && EndsWith(part, "**") then Bold(Unwrap(part)) else Plain(part)
  }

  function ParseInlineAsWritten(line: string): seq<Inline>
  {
    var parts := SplitSpans(line);
    seq(|parts|, i requires 0 <= i < |parts| => ShowPartAsWritten(parts[i]))
  }

  /** `parseInline` with the bold decided by the split: the spans are bold, the runs between
      them plain. */
  function ParseInline(line: string): seq<Inline>
  {
    var parts := SplitSpans(line);
    seq(|parts|, i requires 0 <= i < |parts| => if i % 2 == 1 then Bold(Unwrap(parts[i])) else Plain(parts[i]))
  }

  /** The text a run of inline pieces is written as. */
  function InlineMarkup(ps: seq<Inline>): string
  {
    if ps == [] then ""
    else (match ps[0] case Plain(t) => t case Bold(t) => "**" + t + "**") + InlineMarkup(ps[1..])
  }

  lemma {:induction false} InlineMarkupParts(ps: seq<Inline>, parts: seq<string>)
    requires |ps| == |parts|
    requires forall i :: 0 <= i < |ps| ==> (match ps[i] case Plain(t) => t case Bold(t) => "**" + t + "**") == parts[i]
    ensures InlineMarkup(ps) == Concat(parts)
  {
    if ps != [] {
      InlineMarkupParts(ps[1..], parts[1..]);
    }
  }

  /** Writing the pieces back, bold ones between `**`, gives the line: no text is lost. */
  lemma InlineRoundTrip(line: string)
    ensures InlineMarkup(ParseInline(line)) == line
  {
    var parts := SplitSpans(line);
    var ps := ParseInline(line);
    SplitSpansSpans(line);
    SplitSpansConcat(line);
    forall i | 0 <= i < |ps|
      ensures (match ps[i] case Plain(t) => t case Bold(t) => "**" + t + "**") == parts[i]
    {
      if i % 2 == 1 {
        SpanShape(parts[i]);
      }
    }
    InlineMarkupParts(ps, parts);
  }

  /** On the spans, the code as written decides bold as the split does. */
  lemma AsWrittenAgreesOnSpans(line: string, i: nat)
    requires i < |SplitSpans(line)| && i % 2 == 1
    ensures ParseInlineAsWritten(line)[i] == ParseInline(line)[i]
  {
    SplitSpansSpans(line);
    SpanShape(SplitSpans(line)[i]);
  }

  /** A line `***` holds no span, so the split leaves it one run; the code as written still
      starts and ends it with `**`, shows it as an empty bold piece and the stars are lost. */
  lemma StarRunLost()
    ensures SplitSpans("***") == ["***"]
    ensures ParseInlineAsWritten("***") == [Bold("")]
    ensures InlineMarkup(ParseInlineAsWritten("***")) != "***"
    ensures InlineMarkup(ParseInline("***")) == "***"
  {
    var s := "***";
    assert Closing(s, 2) == None;
    assert Closing(s, 3) == None;
    assert NextSpan(s, 3) == None;
    assert !StarsAt(s, 2);
    assert NextSpan(s, 2) == None;
    assert NextSpan(s, 1) == None;
    assert NextSpan(s, 0) == None;
    assert s[..2] == "**" && s[|s| - 2..] == "**";
    InlineRoundTrip(s);
  }

  // ---------------------------------------------------------------- rendering

  /** A rendered line: a heading, a list item, a spacer or a paragraph, with its inline pieces. */
  datatype Block = Title(level: nat, parts: seq<Inline>) | Bullet(parts: seq<Inline>) | Gap | Para(parts: seq<Inline>)

  function RenderLine(line: string): Block
  {
    match Classify(line)
    case Heading(level, text) => Title(level, ParseInline(text))
    case ListItem(_, text) => Bullet(ParseInline(text))
    case Spacer => Gap
    case Paragraph(text) => Para(ParseInline(text))
  }

  /** `renderMarkdown`: one block per line of the text. */
  function RenderMarkdown(text: string): (r: seq<Block>)
    ensures |r| == multiset(text)['\n'] + 1
  {
    SplitLinesCount(text);
    var lines := SplitLines(text);
    seq(|lines|, i requires 0 <= i < |lines| => RenderLine(lines[i]))
  }

  /** A rendered heading or list item written back as markup, with its bold pieces between
      `**`, is the line it came from. */
  lemma RenderLineRoundTrip(line: string)
    requires !Classify(line).Spacer?
    ensures var b := RenderLine(line);
      match b
      case Title(level, parts) => Hashes(level) + " " + InlineMarkup(parts) == line
      case Bullet(parts) => [line[0], ' '] + InlineMarkup(parts) == line
      case Para(parts) => InlineMarkup(parts) == line
      case Gap => false
  {
    ClassifyRoundTrip(line);
    InlineRoundTrip(Classify(line).text);
  }

  /** The line renderer as written, with `parseInline` deciding bold by the part's own stars. */
  function RenderLineAsWritten(line: string): Block
  {
    match Classify(line)
    case Heading(level, text) => Title(level, ParseInlineAsWritten(text))
    case ListItem(_, text) => Bullet(ParseInlineAsWritten(text))
    case Spacer => Gap
    case Paragraph(text) => Para(ParseInlineAsWritten(text))
  }

  /** A list item `- ***` as written renders as an empty bold piece and writes back as
      `- ****`: the round trip of the corrected renderer fails for the code as written. */
  lemma BulletStarRunLost()
    ensures Classify("- ***") == ListItem('-', "***")
    ensures RenderLineAsWritten("- ***") == Bullet([Bold("")])
    ensures ['-', ' '] + InlineMarkup([Bold("")]) != "- ***"
    ensures RenderLine("- ***") == Bullet(ParseInline("***"))
  {
    var line := "- ***";
    assert line[2..] == "***";
    assert !StartsWith(line, "# ") && !StartsWith(line, "## ") && !StartsWith(line, "### ");
    assert StartsWith(line, "- ");
    StarRunLost();
  }
}
