/** The pieces of Python's string handling the renderings use: `str.join`, `str.split`,
    `str.splitlines(keepends=True)`, `str.strip`, left-aligned padding, `textwrap.indent` and
    `textwrap.dedent`. */
module Text {
  import opened Wrappers

  /** Python's `str.isspace` on one character: the characters `str.strip()` removes. */
  predicate IsSpace(c: char) {
    || c == ' ' || c == '\t' || c == '\n' || c == '\r' || c == '\U{000B}' || c == '\U{000C}'
    || ('\U{001C}' <= c <= '\U{001F}') || c == '\U{0085}' || c == '\U{00A0}' || c == '\U{1680}'
    || ('\U{2000}' <= c <= '\U{200A}') || c == '\U{2028}' || c == '\U{2029}' || c == '\U{202F}'
    || c == '\U{205F}' || c == '\U{3000}'
  }

  /** The characters at which `str.splitlines` ends a line. */
  predicate IsLineBreak(c: char) {
    || c == '\n' || c == '\r' || c == '\U{000B}' || c == '\U{000C}' || c == '\U{001C}'
    || c == '\U{001D}' || c == '\U{001E}' || c == '\U{0085}' || c == '\U{2028}' || c == '\U{2029}'
  }

  predicate NoLineBreak(s: string) {
    forall i :: 0 <= i < |s| ==> !IsLineBreak(s[i])
  }

  /** `line.strip()` is empty. */
  predicate IsBlank(s: string) {
    forall i :: 0 <= i < |s| ==> IsSpace(s[i])
  }

  /** A line `textwrap.indent` prefixes and splitting at newlines gives back: no line break, and
      not blank. */
  predicate IsPlainLine(line: string) {
    NoLineBreak(line) && !IsBlank(line)
  }

  lemma IndentedIsPlain(ind: string, line: string)
    requires NoLineBreak(ind) && IsPlainLine(line)
    ensures IsPlainLine(ind + line)
  {
    var i :| 0 <= i < |line| && !IsSpace(line[i]);
    assert (ind + line)[|ind| + i] == line[i];
  }

  /** A plain title line followed by plain lines, each indented: all plain lines. */
  lemma HeadedIndentedArePlain(title: string, lines: seq<string>, ind: string)
    requires IsPlainLine(title) && NoLineBreak(ind)
    requires forall k :: 0 <= k < |lines| ==> IsPlainLine(lines[k])
    ensures var r := [title] + Prefixed(lines, ind); forall k :: 0 <= k < |r| ==> IsPlainLine(r[k])
  {
    var r := [title] + Prefixed(lines, ind);
    forall k | 0 <= k < |r| ensures IsPlainLine(r[k]) {
      if k > 0 {
        assert r[k] == ind + lines[k - 1];
        IndentedIsPlain(ind, lines[k - 1]);
      }
    }
  }

  /** `sep.join(parts)`. */
  function Join(parts: seq<string>, sep: string): (r: string)
    ensures |parts| == 1 ==> r == parts[0]
    decreases |parts|
  {
    if |parts| == 0 then ""
    else if |parts| == 1 then parts[0]
    else parts[0] + sep + Join(parts[1..], sep)
  }

  /** `s.split(sep)` for a one-character separator: never empty, and the pieces hold no separator. */
  function Split(s: string, sep: char): (r: seq<string>)
    ensures |r| > 0
    ensures forall k :: 0 <= k < |r| ==> sep !in r[k]
    ensures Join(r, [sep]) == s
    decreases |s|
  {
    if sep !in s then [s]
    else
      var i := FirstIndex(s, sep);
      assert s == s[..i] + [sep] + s[i + 1..];
      [s[..i]] + Split(s[i + 1..], sep)
  }

  function FirstIndex(s: string, c: char): (i: nat)
    requires c in s
    ensures i < |s| && s[i] == c && c !in s[..i]
  {
    if s[0] == c then 0 else 1 + FirstIndex(s[1..], c)
  }

  /** Splitting the join of separator-free pieces gives the pieces back. */
  lemma {:induction false} SplitJoin(parts: seq<string>, sep: char)
    requires |parts| > 0
    requires forall k :: 0 <= k < |parts| ==> sep !in parts[k]
    ensures Split(Join(parts, [sep]), sep) == parts
    decreases |parts|
  {
    if |parts| > 1 {
      var s := Join(parts, [sep]);
      assert s == parts[0] + [sep] + Join(parts[1..], [sep]);
      assert FirstIndex(s, sep) == |parts[0]| by {
        FirstIndexAfter(parts[0], sep, Join(parts[1..], [sep]));
      }
      assert s[..|parts[0]|] == parts[0];
      assert s[|parts[0]| + 1..] == Join(parts[1..], [sep]);
      SplitJoin(parts[1..], sep);
    }
  }

  lemma {:induction false} FirstIndexAfter(a: string, c: char, b: string)
    requires c !in a
    ensures c in a + [c] + b && FirstIndex(a + [c] + b, c) == |a|
    decreases |a|
  {
    assert (a + [c] + b)[|a|] == c;
    if |a| > 0 {
      assert (a + [c] + b)[1..] == a[1..] + [c] + b;
      FirstIndexAfter(a[1..], c, b);
    }
  }

  /** Length of the first line of `s`, its line break included (`\r\n` counts as one break). */
  function FirstLineLength(s: string): (n: nat)
    requires |s| > 0
    ensures 0 < n <= |s|
    decreases |s|
  {
    if s[0] == '\r' && |s| > 1 && s[1] == '\n' then 2
    else if IsLineBreak(s[0]) || |s| == 1 then 1
    else 1 + FirstLineLength(s[1..])
  }

  /** `s.splitlines(keepends=True)`: the lines, each with its line break, concatenating to `s`. */
  function Lines(s: string): (r: seq<string>)
    ensures forall k :: 0 <= k < |r| ==> |r[k]| > 0
    decreases |s|
  {
    if |s| == 0 then []
    else
      var n := FirstLineLength(s);
      [s[..n]] + Lines(s[n..])
  }

  function Concat(parts: seq<string>): string
    decreases |parts|
  {
    if |parts| == 0 then "" else parts[0] + Concat(parts[1..])
  }

  lemma {:induction false} LinesConcat(s: string)
    ensures Concat(Lines(s)) == s
    decreases |s|
  {
    if |s| > 0 {
      var n := FirstLineLength(s);
      LinesConcat(s[n..]);
      assert Lines(s)[1..] == Lines(s[n..]);
      assert s == s[..n] + s[n..];
    }
  }

  lemma {:induction false} FirstLineOfPlainLine(line: string, rest: string)
    requires |line| > 0 && NoLineBreak(line)
    ensures FirstLineLength(line + "\n" + rest) == |line| + 1
    ensures rest == [] ==> FirstLineLength(line) == |line|
    decreases |line|
  {
    if |line| > 1 {
      assert (line + "\n" + rest)[1..] == line[1..] + "\n" + rest;
      FirstLineOfPlainLine(line[1..], rest);
    }
  }

  /** `textwrap.indent(text, prefix)`: `prefix` before every line that is not blank. */
  function Indent(text: string, prefix: string): (r: string)
    decreases |text|
  {
    if |text| == 0 then ""
    else
      var n := FirstLineLength(text);
      var line := text[..n];
      (if IsBlank(line) then line else prefix + line) + Indent(text[n..], prefix)
  }

  /** A text made only of whitespace has no line worth a prefix and comes back unchanged. */
  lemma {:induction false} IndentOfBlankText(text: string, prefix: string)
    requires IsBlank(text)
    ensures Indent(text, prefix) == text
    decreases |text|
  {
    if |text| > 0 {
      var n := FirstLineLength(text);
      assert IsBlank(text[..n]);
      IndentOfBlankText(text[n..], prefix);
      assert text == text[..n] + text[n..];
    }
  }

  /** Prefix each element: the lines of an indented block of plain lines. */
  function Prefixed(lines: seq<string>, prefix: string): (r: seq<string>)
    ensures |r| == |lines|
    ensures forall k :: 0 <= k < |lines| ==> r[k] == prefix + lines[k]
  {
    seq(|lines|, k requires 0 <= k < |lines| => prefix + lines[k])
  }

  lemma IndentPlainLine(line: string, rest: string, prefix: string)
    requires |line| > 0 && NoLineBreak(line) && !IsBlank(line)
    ensures Indent(line + "\n" + rest, prefix) == prefix + line + "\n" + Indent(rest, prefix)
    ensures Indent(line, prefix) == prefix + line
  {
    var text := line + "\n" + rest;
    FirstLineOfPlainLine(line, rest);
    FirstLineOfPlainLine(line, "");
    assert text[..|line| + 1] == line + "\n";
    assert text[|line| + 1..] == rest;
    assert !IsBlank(line + "\n") by {
      var i :| 0 <= i < |line| && !IsSpace(line[i]);
      assert (line + "\n")[i] == line[i];
    }
    assert line[..|line|] == line;
    assert Indent(line[|line|..], prefix) == "";
  }

  /** Indenting newline-joined lines that are neither blank nor contain a line break puts the
      prefix before each of them. */
  lemma {:induction false} IndentJoin(lines: seq<string>, prefix: string)
    requires forall k :: 0 <= k < |lines| ==> NoLineBreak(lines[k]) && !IsBlank(lines[k])
    ensures Indent(Join(lines, "\n"), prefix) == Join(Prefixed(lines, prefix), "\n")
    decreases |lines|
  {
    if |lines| == 1 {
      IndentPlainLine(lines[0], "", prefix);
    } else if |lines| > 1 {
      assert !IsBlank(lines[0]);
      IndentPlainLine(lines[0], Join(lines[1..], "\n"), prefix);
      IndentJoin(lines[1..], prefix);
      assert Prefixed(lines, prefix)[1..] == Prefixed(lines[1..], prefix);
    }
  }

  /** `f"{s:<width}"`: `s` followed by spaces up to `width` characters. */
  function PadRight(s: string, width: nat): (r: string)
    ensures |r| == if |s| < width then width else |s|
    ensures r[..|s|] == s
    ensures forall i :: |s| <= i < |r| ==> r[i] == ' '
  {
    if |s| < width then s + Spaces(width - |s|) else s
  }

  function Spaces(n: nat): (r: string)
    ensures |r| == n && forall i :: 0 <= i < n ==> r[i] == ' '
  {
    seq(n, _ => ' ')
  }

  function LStrip(s: string): (r: string)
    ensures |r| <= |s| && r == s[|s| - |r|..]
    ensures |r| > 0 ==> !IsSpace(r[0])
    ensures IsBlank(s[..|s| - |r|])
    decreases |s|
  {
    if |s| > 0 && IsSpace(s[0]) then LStrip(s[1..]) else s
  }

  function RStrip(s: string): (r: string)
    ensures |r| <= |s| && r == s[..|r|]
    ensures |r| > 0 ==> !IsSpace(r[|r| - 1])
    ensures IsBlank(s[|r|..])
    decreases |s|
  {
    if |s| > 0 && IsSpace(s[|s| - 1]) then RStrip(s[..|s| - 1]) else s
  }

  /** `s.strip()`: the longest infix with no whitespace at either end. */
  function Strip(s: string): (r: string)
  {
    RStrip(LStrip(s))
  }

  lemma {:induction false} LStripBlankLead(lead: string, body: string)
    requires IsBlank(lead)
    requires |body| > 0 && !IsSpace(body[0])
    ensures LStrip(lead + body) == body
    decreases |lead|
  {
    if |lead| > 0 {
      assert (lead + body)[1..] == lead[1..] + body;
      LStripBlankLead(lead[1..], body);
    }
  }

  lemma {:induction false} RStripBlankTrail(body: string, trail: string)
    requires IsBlank(trail)
    requires |body| > 0 && !IsSpace(body[|body| - 1])
    ensures RStrip(body + trail) == body
    decreases |trail|
  {
    if |trail| > 0 {
      assert (body + trail)[..|body + trail| - 1] == body + trail[..|trail| - 1];
      RStripBlankTrail(body, trail[..|trail| - 1]);
    } else {
      assert body + trail == body;
    }
  }

  /** Stripping removes blank text around a body that starts and ends with text. */
  lemma StripFramed(lead: string, body: string, trail: string)
    requires IsBlank(lead) && IsBlank(trail)
    requires |body| > 0 && !IsSpace(body[0]) && !IsSpace(body[|body| - 1])
    ensures Strip(lead + body + trail) == body
  {
    assert lead + body + trail == lead + (body + trail);
    LStripBlankLead(lead, body + trail);
    RStripBlankTrail(body, trail);
  }

  /** A run of spaces and tabs only: the lines `textwrap.dedent` empties. */
  predicate IsTabsAndSpaces(s: string) {
    forall i :: 0 <= i < |s| ==> s[i] == ' ' || s[i] == '\t'
  }

  /** The leading spaces and tabs of a line. */
  function LeadingWhitespace(s: string): (r: string)
    ensures r <= s && IsTabsAndSpaces(r)
    ensures |r| < |s| ==> s[|r|] != ' ' && s[|r|] != '\t'
    decreases |s|
  {
    if |s| > 0 && (s[0] == ' ' || s[0] == '\t') then [s[0]] + LeadingWhitespace(s[1..]) else ""
  }

  function CommonPrefix(a: string, b: string): (r: string)
    ensures r <= a && r <= b
    decreases |a|
  {
    if |a| > 0 && |b| > 0 && a[0] == b[0] then [a[0]] + CommonPrefix(a[1..], b[1..]) else ""
  }

  /** The common margin of the lines that carry text (not only spaces and tabs); `None` if there
      are none. */
  function Margin(lines: seq<string>): (r: Option<string>)
    ensures r.None? <==> forall k :: 0 <= k < |lines| ==> IsTabsAndSpaces(lines[k])
    ensures r.Some? ==> forall k :: 0 <= k < |lines| && !IsTabsAndSpaces(lines[k]) ==> r.value <= LeadingWhitespace(lines[k])
    decreases |lines|
  {
    if |lines| == 0 then None
    else
      var rest := Margin(lines[1..]);
      if IsTabsAndSpaces(lines[0]) then rest
      else
        var own := LeadingWhitespace(lines[0]);
        if rest.None? then Some(own) else Some(CommonPrefix(own, rest.value))
  }

  function DropPrefix(s: string, prefix: string): string {
    if prefix <= s then s[|prefix|..] else s
  }

  /** The lines of only spaces and tabs emptied. */
  function Cleared(lines: seq<string>): (r: seq<string>)
    ensures |r| == |lines|
    ensures forall k :: 0 <= k < |lines| ==> r[k] == if IsTabsAndSpaces(lines[k]) then "" else lines[k]
  {
    seq(|lines|, k requires 0 <= k < |lines| => if IsTabsAndSpaces(lines[k]) then "" else lines[k])
  }

  /** The emptied lines, and the margin `m` removed from the others. */
  function Dedented(lines: seq<string>, m: string): (r: seq<string>)
    ensures |r| == |lines|
    ensures forall k :: 0 <= k < |lines| ==> r[k] == if IsTabsAndSpaces(lines[k]) then "" else DropPrefix(lines[k], m)
  {
    seq(|lines|, k requires 0 <= k < |lines| => if IsTabsAndSpaces(lines[k]) then "" else DropPrefix(lines[k], m))
  }

  /** `textwrap.dedent(text)`: empty the lines of only spaces and tabs, then remove the longest
      common leading whitespace of the other lines. Lines are separated by `\n` only. */
  function Dedent(text: string): (r: string)
  {
    var lines := Split(text, '\n');
    var margin := Margin(Cleared(lines));
    Join(Dedented(lines, if margin.Some? then margin.value else ""), "\n")
  }

  lemma {:induction false} CommonPrefixKeepsShared(a: string, b: string, m: string)
    requires m <= a && m <= b
    ensures m <= CommonPrefix(a, b)
    decreases |m|
  {
    if |m| > 0 {
      CommonPrefixKeepsShared(a[1..], b[1..], m[1..]);
    }
  }

  /** A margin shared by every line with text is kept in the common margin. */
  lemma {:induction false} MarginKeepsShared(lines: seq<string>, m: string)
    requires forall k :: 0 <= k < |lines| && !IsTabsAndSpaces(lines[k]) ==> m <= LeadingWhitespace(lines[k])
    ensures Margin(lines).Some? ==> m <= Margin(lines).value
    decreases |lines|
  {
    if |lines| > 0 {
      MarginKeepsShared(lines[1..], m);
      var rest := Margin(lines[1..]);
      if !IsTabsAndSpaces(lines[0]) && rest.Some? {
        CommonPrefixKeepsShared(LeadingWhitespace(lines[0]), rest.value, m);
      }
    }
  }

  lemma MarginOfCleared(lines: seq<string>, m: string, k0: nat)
    requires forall k :: 0 <= k < |lines| && !IsTabsAndSpaces(lines[k]) ==> m <= LeadingWhitespace(lines[k])
    requires k0 < |lines| && !IsTabsAndSpaces(lines[k0]) && LeadingWhitespace(lines[k0]) == m
    ensures Margin(Cleared(lines)) == Some(m)
  {
    var cleared := Cleared(lines);
    forall k | 0 <= k < |lines| && !IsTabsAndSpaces(cleared[k])
      ensures m <= LeadingWhitespace(cleared[k])
    {
      assert cleared[k] == lines[k];
    }
    MarginKeepsShared(cleared, m);
    assert cleared[k0] == lines[k0];
    var margin := Margin(cleared);
    assert margin.Some?;
    assert margin.value <= m;
    assert m <= margin.value;
    assert margin.value == m[..|margin.value|] && |margin.value| == |m|;
    assert m[..|m|] == m;
    assert margin.value == m;
  }

  /** Lines with text after whitespace `m`, `m` being the whole leading whitespace of the line
      `k0`: `textwrap.dedent` strips `m` from each and empties the whitespace-only ones. */
  lemma DedentLines(lines: seq<string>, m: string, k0: nat)
    requires forall k :: 0 <= k < |lines| ==> '\n' !in lines[k]
    requires forall k :: 0 <= k < |lines| && !IsTabsAndSpaces(lines[k]) ==> m <= LeadingWhitespace(lines[k])
    requires k0 < |lines| && !IsTabsAndSpaces(lines[k0]) && LeadingWhitespace(lines[k0]) == m
    ensures Dedent(Join(lines, "\n")) == Join(Dedented(lines, m), "\n")
  {
    SplitJoin(lines, '\n');
    MarginOfCleared(lines, m, k0);
  }

  lemma {:induction false} LeadingWhitespaceOf(w: string, t: string)
    requires IsTabsAndSpaces(w) && |t| > 0 && t[0] != ' ' && t[0] != '\t'
    ensures LeadingWhitespace(w + t) == w
    decreases |w|
  {
    if |w| > 0 {
      assert (w + t)[0] == w[0];
      assert (w + t)[1..] == w[1..] + t;
      LeadingWhitespaceOf(w[1..], t);
      assert w == [w[0]] + w[1..];
    } else {
      assert w + t == t;
    }
  }


  lemma DropPrefixOf(p: string, s: string)
    ensures DropPrefix(p + s, p) == s
  {
    assert (p + s)[..|p|] == p;
  }

  lemma {:induction false} JoinAppend(a: seq<string>, b: seq<string>, sep: string)
    requires |a| > 0 && |b| > 0
    ensures Join(a + b, sep) == Join(a, sep) + sep + Join(b, sep)
    decreases |a|
  {
    assert (a + b)[1..] == a[1..] + b;
    if |a| > 1 {
      JoinAppend(a[1..], b, sep);
    }
  }

  /** An empty first and last line put a separator before and after the others. */
  lemma JoinFramed(lines: seq<string>, sep: string)
    requires |lines| > 0
    ensures Join([""] + lines + [""], sep) == sep + Join(lines, sep) + sep
  {
    JoinAppend([""], lines, sep);
    JoinAppend([""] + lines, [""], sep);
  }

  /** Prefixing every piece is prefixing the first and the separator. */
  lemma {:induction false} JoinPrefixed(parts: seq<string>, prefix: string, sep: string)
    requires |parts| > 0
    ensures Join(Prefixed(parts, prefix), sep) == prefix + Join(parts, sep + prefix)
    decreases |parts|
  {
    if |parts| > 1 {
      JoinPrefixed(parts[1..], prefix, sep);
      assert Prefixed(parts, prefix)[1..] == Prefixed(parts[1..], prefix);
    }
  }

  lemma JoinStartsWithFirst(parts: seq<string>, sep: string)
    requires |parts| > 0 && |parts[0]| > 0
    ensures |Join(parts, sep)| > 0 && Join(parts, sep)[0] == parts[0][0]
  {
  }

  lemma {:induction false} JoinEndsWithLast(parts: seq<string>, sep: string)
    requires |parts| > 0 && |parts[|parts| - 1]| > 0
    ensures var j := Join(parts, sep); var l := parts[|parts| - 1]; |j| > 0 && j[|j| - 1] == l[|l| - 1]
    decreases |parts|
  {
    if |parts| > 1 {
      JoinEndsWithLast(parts[1..], sep);
    }
  }

  lemma SpacesHaveNoLineBreak(n: nat)
    ensures NoLineBreak(Spaces(n)) && IsBlank(Spaces(n))
  {
  }

  lemma SpacesAdd(a: nat, b: nat)
    ensures Spaces(a + b) == Spaces(a) + Spaces(b)
  {
  }

  lemma JoinPair(x: string, y: string, sep: string)
    ensures Join([x, y], sep) == x + sep + y
  {
    assert [x, y][1..] == [y];
  }

  /** A title line, then two blocks of plain lines, each indented by `prefix`. */
  lemma IndentedSections(title: string, a: seq<string>, b: seq<string>, prefix: string)
    requires |a| > 0 && |b| > 0
    requires forall k :: 0 <= k < |a| ==> IsPlainLine(a[k])
    requires forall k :: 0 <= k < |b| ==> IsPlainLine(b[k])
    ensures title + "\n" + Join([Indent(Join(a, "\n"), prefix), Indent(Join(b, "\n"), prefix)], "\n")
         == Join([title] + Prefixed(a, prefix) + Prefixed(b, prefix), "\n")
  {
    IndentJoin(a, prefix);
    IndentJoin(b, prefix);
    SectionsJoined(title, Prefixed(a, prefix), Prefixed(b, prefix), "\n");
  }

  /** A title line, then a block of plain lines indented by `prefix`. */
  lemma HeadedIndent(title: string, lines: seq<string>, prefix: string)
    requires |lines| > 0
    requires forall k :: 0 <= k < |lines| ==> IsPlainLine(lines[k])
    ensures title + "\n" + Indent(Join(lines, "\n"), prefix) == Join([title] + Prefixed(lines, prefix), "\n")
  {
    IndentJoin(lines, prefix);
    JoinAppend([title], Prefixed(lines, prefix), "\n");
  }

  /** A title line, then a plain line and a block of plain lines, indented together. */
  lemma HeadedIndentBlock(title: string, first: string, rest: seq<string>, prefix: string)
    requires |rest| > 0 && IsPlainLine(first)
    requires forall k :: 0 <= k < |rest| ==> IsPlainLine(rest[k])
    ensures title + "\n" + Indent(first + "\n" + Join(rest, "\n"), prefix)
         == Join([title] + Prefixed([first] + rest, prefix), "\n")
  {
    var body := [first] + rest;
    JoinAppend([first], rest, "\n");
    forall k | 0 <= k < |body| ensures IsPlainLine(body[k]) {
      if k > 0 {
        assert body[k] == rest[k - 1];
      }
    }
    HeadedIndent(title, body, prefix);
  }

  lemma SectionsJoined(title: string, a: seq<string>, b: seq<string>, sep: string)
    requires |a| > 0 && |b| > 0
    ensures title + sep + Join([Join(a, sep), Join(b, sep)], sep) == Join([title] + a + b, sep)
  {
    var parts := [title] + (a + b);
    assert [title] + a + b == parts;
    assert parts[1..] == a + b;
    JoinPair(Join(a, sep), Join(b, sep), sep);
    JoinAppend(a, b, sep);
  }

}
