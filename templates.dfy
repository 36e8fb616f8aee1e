/** The shape of a triple-quoted f-string template after `textwrap.dedent`: an empty first line,
    a header line at the margin, field lines indented further, and a last line holding only the
    margin, as `Distribution.__str__` writes them in both packages. */
module Templates {
  import opened Text

  /** A field line of the template: text after sixteen spaces, that is four spaces past the
      twelve-space margin. */
  lemma FieldLine(key: string, value: string)
    requires |key| > 0 && key[0] != ' ' && key[0] != '\t'
    ensures var line := Spaces(12) + (Spaces(4) + key + value);
      && !IsTabsAndSpaces(line)
      && Spaces(12) <= LeadingWhitespace(line)
  {
    var line := Spaces(12) + (Spaces(4) + key + value);
    SpacesAdd(12, 4);
    assert line == Spaces(16) + (key + value);
    LeadingWhitespaceOf(Spaces(16), key + value);
    assert line[16] == key[0];
  }

  /** A line of text at a margin of `n` spaces sets that margin. */
  lemma MarginLine(n: nat, text: string)
    requires |text| > 0 && text[0] != ' ' && text[0] != '\t'
    ensures var line := Spaces(n) + text;
      && !IsTabsAndSpaces(line)
      && LeadingWhitespace(line) == Spaces(n)
  {
    var line := Spaces(n) + text;
    LeadingWhitespaceOf(Spaces(n), text);
    assert line[n] == text[0];
  }

  /** Lines of text `a`, `b`, `c`, `d`, the first at the margin `m`, the others at least as far
      in, between an empty line and a line holding only the margin. */
  lemma MarginLines(m: string, a: string, b: string, c: string, d: string)
    requires IsTabsAndSpaces(m)
    requires !IsTabsAndSpaces(a) && LeadingWhitespace(a) == m
    requires !IsTabsAndSpaces(b) && m <= LeadingWhitespace(b)
    requires !IsTabsAndSpaces(c) && m <= LeadingWhitespace(c)
    requires !IsTabsAndSpaces(d) && m <= LeadingWhitespace(d)
    ensures var lines := ["", a, b, c, d, m];
      && (forall k :: 0 <= k < |lines| && !IsTabsAndSpaces(lines[k]) ==> m <= LeadingWhitespace(lines[k]))
      && (forall k :: 1 <= k < 5 ==> !IsTabsAndSpaces(lines[k]))
  {
    var lines := ["", a, b, c, d, m];
    assert IsTabsAndSpaces(lines[0]) && lines[5] == m;
  }

  /** The margin of a header line `m + h` and three more lines of text indented at least as far. */
  lemma MarginShape(m: string, h: string, g: string, i: string, j: string)
    requires IsTabsAndSpaces(m)
    requires !IsTabsAndSpaces(m + h) && LeadingWhitespace(m + h) == m
    requires !IsTabsAndSpaces(m + g) && m <= LeadingWhitespace(m + g)
    requires !IsTabsAndSpaces(m + i) && m <= LeadingWhitespace(m + i)
    requires !IsTabsAndSpaces(m + j) && m <= LeadingWhitespace(m + j)
    ensures var lines := ["", m + h, m + g, m + i, m + j, m];
      && (forall k :: 0 <= k < |lines| && !IsTabsAndSpaces(lines[k]) ==> m <= LeadingWhitespace(lines[k]))
      && (forall k :: 1 <= k < 5 ==> !IsTabsAndSpaces(lines[k]))
  {
    MarginLines(m, m + h, m + g, m + i, m + j);
  }

  /** Lines of text `a`, `b`, `c`, the first at the margin `m`, the others at least as far in,
      between an empty line and a line holding only the margin. */
  lemma MarginLinesThree(m: string, a: string, b: string, c: string)
    requires IsTabsAndSpaces(m)
    requires !IsTabsAndSpaces(a) && LeadingWhitespace(a) == m
    requires !IsTabsAndSpaces(b) && m <= LeadingWhitespace(b)
    requires !IsTabsAndSpaces(c) && m <= LeadingWhitespace(c)
    ensures var lines := ["", a, b, c, m];
      && (forall k :: 0 <= k < |lines| && !IsTabsAndSpaces(lines[k]) ==> m <= LeadingWhitespace(lines[k]))
      && (forall k :: 1 <= k < 4 ==> !IsTabsAndSpaces(lines[k]))
  {
    var lines := ["", a, b, c, m];
    assert IsTabsAndSpaces(lines[0]) && lines[4] == m;
  }

  /** The margin of a header line `m + h` and two more lines of text indented at least as far. */
  lemma MarginShapeThree(m: string, h: string, g: string, i: string)
    requires IsTabsAndSpaces(m)
    requires !IsTabsAndSpaces(m + h) && LeadingWhitespace(m + h) == m
    requires !IsTabsAndSpaces(m + g) && m <= LeadingWhitespace(m + g)
    requires !IsTabsAndSpaces(m + i) && m <= LeadingWhitespace(m + i)
    ensures var lines := ["", m + h, m + g, m + i, m];
      && (forall k :: 0 <= k < |lines| && !IsTabsAndSpaces(lines[k]) ==> m <= LeadingWhitespace(lines[k]))
      && (forall k :: 1 <= k < 4 ==> !IsTabsAndSpaces(lines[k]))
  {
    MarginLinesThree(m, m + h, m + g, m + i);
  }

  /** Dedenting four lines of text and a last blank line by their common margin `m`. */
  lemma DedentedShape(m: string, h: string, g: string, i: string, j: string)
    requires IsTabsAndSpaces(m)
    requires !IsTabsAndSpaces(m + h) && !IsTabsAndSpaces(m + g)
    requires !IsTabsAndSpaces(m + i) && !IsTabsAndSpaces(m + j)
    ensures Dedented(["", m + h, m + g, m + i, m + j, m], m) == ["", h, g, i, j, ""]
  {
    var lines := ["", m + h, m + g, m + i, m + j, m];
    var out := Dedented(lines, m);
    assert IsTabsAndSpaces(lines[0]);
    assert out[1] == h by { DropPrefixOf(m, h); }
    assert out[2] == g by { DropPrefixOf(m, g); }
    assert out[3] == i by { DropPrefixOf(m, i); }
    assert out[4] == j by { DropPrefixOf(m, j); }
  }

  /** Dedenting three lines of text and a last blank line by their common margin `m`. */
  lemma DedentedShapeThree(m: string, h: string, g: string, i: string)
    requires IsTabsAndSpaces(m)
    requires !IsTabsAndSpaces(m + h) && !IsTabsAndSpaces(m + g) && !IsTabsAndSpaces(m + i)
    ensures Dedented(["", m + h, m + g, m + i, m], m) == ["", h, g, i, ""]
  {
    var lines := ["", m + h, m + g, m + i, m];
    var out := Dedented(lines, m);
    assert IsTabsAndSpaces(lines[0]);
    assert out[1] == h by { DropPrefixOf(m, h); }
    assert out[2] == g by { DropPrefixOf(m, g); }
    assert out[3] == i by { DropPrefixOf(m, i); }
  }
}
