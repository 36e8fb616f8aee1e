/** The environment record of `compenv`: distributions identified by name and version, the set
    of installed distributions, the record holding it, and their human-readable renderings
    (compenv/model/record.py). All of them are immutable values compared by value. */
module CompenvRecord {
  import opened Wrappers
  import opened Text
  import opened Ordering
  import opened Templates

  /** A Python distribution. */
  datatype Distribution = Distribution(name: string, version: string)

  /** `Distributions` and its subclass `InstalledDistributions`: frozen sets of distributions. */
  type Distributions = set<Distribution>

  /** The record of an environment: the distributions installed in it. */
  datatype Record = Record(installedDistributions: Distributions)

  /** The longest distribution name: `max(len(d.name) for d in ds)`. */
  ghost function MaxNameLength(ds: Distributions): (r: nat)
    requires ds != {}
    ensures forall d :: d in ds ==> |d.name| <= r
    ensures exists d :: d in ds && |d.name| == r
    decreases |ds|
  {
    var d :| d in ds;
    if ds == {d} then |d.name|
    else
      var rest := MaxNameLength(ds - {d});
      if |d.name| < rest then rest else |d.name|
  }

  /** One line of `str(distributions)`: the name padded to `width`, then the version in
      brackets. */
  function DistributionsLine(d: Distribution, width: nat): (r: string)
  {
    PadRight(d.name, width) + " (" + d.version + ")"
  }

  /** The columns of a line: the padded name, then the version bracket right after it, so the
      brackets of all lines line up. */
  lemma DistributionsLineLayout(d: Distribution, width: nat)
    requires |d.name| <= width
    ensures var r := DistributionsLine(d, width);
      && |r| == width + |d.version| + 3
      && r[..|d.name|] == d.name
      && (forall i :: |d.name| <= i < width ==> r[i] == ' ')
      && r[width..width + 2] == " ("
      && r[width + 2..|r| - 1] == d.version
      && r[|r| - 1] == ')'
  {
    var padded := PadRight(d.name, width);
    var r := DistributionsLine(d, width);
    assert r[..width] == padded;
    assert r[..|d.name|] == padded[..|d.name|];
  }

  /** The lines of `str(distributions)` with names padded to `width`, in the order of `sorted`. */
  ghost function DistributionsLines(ds: Distributions, width: nat): (r: seq<string>)
  {
    StrLtIsStrictTotalOrder();
    SortedImage(ds, (d: Distribution) => DistributionsLine(d, width), StrLt)
  }

  /** One line per distribution, in increasing order. */
  lemma DistributionsLinesShape(ds: Distributions, width: nat)
    ensures var r := DistributionsLines(ds, width); |r| == |ds| && Ordered(r, StrLt)
  {
    StrLtIsStrictTotalOrder();
  }

  /** Every distribution has its line, and every line is the line of a distribution. */
  lemma DistributionsLinesContents(ds: Distributions, width: nat)
    ensures forall d :: d in ds ==> DistributionsLine(d, width) in DistributionsLines(ds, width)
    ensures var r := DistributionsLines(ds, width);
      forall k :: 0 <= k < |r| ==> exists d :: d in ds && r[k] == DistributionsLine(d, width)
  {
    StrLtIsStrictTotalOrder();
    var f := (d: Distribution) => DistributionsLine(d, width);
    var r := SortedImage(ds, f, StrLt);
    forall d | d in ds ensures DistributionsLine(d, width) in r {
      assert f(d) in r;
    }
  }

  /** `str(distributions)`: the sorted lines, names padded to the longest, joined; `max` fails on
      an empty set. */
  ghost function DistributionsStr(ds: Distributions): (r: Result<string>)
    ensures r.Err? <==> ds == {}
    ensures r.Err? ==> r.error.ValueError?
  {
    if ds == {} then Err(ValueError("max() arg is an empty sequence"))
    else Ok(Join(DistributionsLines(ds, MaxNameLength(ds)), "\n"))
  }

  /** With no line break in the name and version, a line is a plain line. */
  lemma DistributionsLineIsPlain(d: Distribution, width: nat)
    requires NoLineBreak(d.name) && NoLineBreak(d.version)
    ensures IsPlainLine(DistributionsLine(d, width))
  {
    var padded := PadRight(d.name, width);
    forall i | 0 <= i < |padded| ensures !IsLineBreak(padded[i]) {
      if i < |d.name| {
        assert padded[i] == padded[..|d.name|][i];
      }
    }
    var r := DistributionsLine(d, width);
    assert r == padded + " (" + d.version + ")";
    assert r[|padded| + 1] == '(';
  }

  lemma DistributionsLinesArePlain(ds: Distributions, width: nat)
    requires forall d :: d in ds ==> NoLineBreak(d.name) && NoLineBreak(d.version)
    ensures forall k :: 0 <= k < |DistributionsLines(ds, width)| ==> IsPlainLine(DistributionsLines(ds, width)[k])
  {
    var lines := DistributionsLines(ds, width);
    DistributionsLinesContents(ds, width);
    forall k | 0 <= k < |lines| ensures IsPlainLine(lines[k]) {
      assert exists d :: d in ds && lines[k] == DistributionsLine(d, width);
      var d :| d in ds && lines[k] == DistributionsLine(d, width);
      DistributionsLineIsPlain(d, width);
    }
  }

  lemma PlainLinesHaveNoNewline(lines: seq<string>)
    requires forall k :: 0 <= k < |lines| ==> IsPlainLine(lines[k])
    ensures forall k :: 0 <= k < |lines| ==> '\n' !in lines[k]
  {
    forall k, i | 0 <= k < |lines| && 0 <= i < |lines[k]| ensures lines[k][i] != '\n' {
      assert !IsLineBreak(lines[k][i]);
    }
  }

  /** With no line break in any name or version, `str(distributions)` splits back into its
      sorted lines. */
  lemma DistributionsStrLines(ds: Distributions)
    requires ds != {}
    requires forall d :: d in ds ==> NoLineBreak(d.name) && NoLineBreak(d.version)
    ensures Split(DistributionsStr(ds).value, '\n') == DistributionsLines(ds, MaxNameLength(ds))
  {
    var lines := DistributionsLines(ds, MaxNameLength(ds));
    DistributionsLinesArePlain(ds, MaxNameLength(ds));
    PlainLinesHaveNoNewline(lines);
    SplitJoin(lines, '\n');
  }

  const InstalledHeader := "Installed Distributions:"

  /** `str(installed)`: the header line, then the base rendering indented by four spaces. */
  ghost function InstalledDistributionsStr(ds: Distributions): (r: Result<string>)
    ensures r.Err? <==> ds == {}
  {
    var base :- DistributionsStr(ds);
    Ok(InstalledHeader + "\n" + Indent(base, Spaces(4)))
  }

  const RecordHeader := "Record:"

  lemma HeadersArePlain()
    ensures IsPlainLine(InstalledHeader) && IsPlainLine(RecordHeader)
  {
    assert InstalledHeader[0] == 'I' && RecordHeader[0] == 'R';
  }

  /** The lines of `str(installed)`. */
  ghost function InstalledLines(ds: Distributions): (r: seq<string>)
    requires ds != {}
  {
    [InstalledHeader] + Prefixed(DistributionsLines(ds, MaxNameLength(ds)), Spaces(4))
  }

  lemma InstalledLinesArePlain(ds: Distributions)
    requires ds != {}
    requires forall d :: d in ds ==> NoLineBreak(d.name) && NoLineBreak(d.version)
    ensures forall k :: 0 <= k < |InstalledLines(ds)| ==> IsPlainLine(InstalledLines(ds)[k])
  {
    DistributionsLinesArePlain(ds, MaxNameLength(ds));
    HeadersArePlain();
    SpacesHaveNoLineBreak(4);
    HeadedIndentedArePlain(InstalledHeader, DistributionsLines(ds, MaxNameLength(ds)), Spaces(4));
  }

  /** With no line break in any name or version, `str(installed)` is the header followed by the
      sorted lines, each indented by four spaces. */
  lemma InstalledDistributionsStrLines(ds: Distributions)
    requires ds != {}
    requires forall d :: d in ds ==> NoLineBreak(d.name) && NoLineBreak(d.version)
    ensures InstalledDistributionsStr(ds).value == Join(InstalledLines(ds), "\n")
  {
    var base := DistributionsLines(ds, MaxNameLength(ds));
    DistributionsLinesShape(ds, MaxNameLength(ds));
    DistributionsLinesArePlain(ds, MaxNameLength(ds));
    HeadedIndent(InstalledHeader, base, Spaces(4));
  }

  /** `str(record)`: "Record:", then the rendering of its one field indented by four spaces. */
  ghost function RecordStr(r: Record): (s: Result<string>)
    ensures s.Err? <==> r.installedDistributions == {}
  {
    var installed :- InstalledDistributionsStr(r.installedDistributions);
    Ok(RecordHeader + "\n" + Join([Indent(installed, Spaces(4))], "\n"))
  }

  /** The lines of `str(record)`. */
  ghost function RecordLines(r: Record): (s: seq<string>)
    requires r.installedDistributions != {}
  {
    [RecordHeader] + Prefixed(InstalledLines(r.installedDistributions), Spaces(4))
  }

  lemma RecordLinesArePlain(r: Record)
    requires r.installedDistributions != {}
    requires forall d :: d in r.installedDistributions ==> NoLineBreak(d.name) && NoLineBreak(d.version)
    ensures forall k :: 0 <= k < |RecordLines(r)| ==> IsPlainLine(RecordLines(r)[k])
  {
    InstalledLinesArePlain(r.installedDistributions);
    HeadersArePlain();
    SpacesHaveNoLineBreak(4);
    HeadedIndentedArePlain(RecordHeader, InstalledLines(r.installedDistributions), Spaces(4));
  }

  /** With no line break in any name or version, `str(record)` is "Record:" followed by the lines
      of `str(installed)`, each indented by four spaces. */
  lemma RecordStrLines(r: Record)
    requires r.installedDistributions != {}
    requires forall d :: d in r.installedDistributions ==> NoLineBreak(d.name) && NoLineBreak(d.version)
    ensures RecordStr(r).value == Join(RecordLines(r), "\n")
  {
    var installed := InstalledLines(r.installedDistributions);
    InstalledDistributionsStrLines(r.installedDistributions);
    InstalledLinesArePlain(r.installedDistributions);
    HeadedIndent(RecordHeader, installed, Spaces(4));
  }

  /** The lines of the f-string that `Distribution.__str__` hands to `textwrap.dedent`: an empty
      first line, the header indented by twelve spaces, the fields by sixteen, and twelve spaces
      before the closing quotes. */
  function TemplateLines(name: string, version: string): (r: seq<string>) {
    ["",
     Spaces(12) + "Distribution:",
     Spaces(16) + "name: " + name,
     Spaces(16) + "version: " + version,
     Spaces(12)]
  }

  /** `str(d)`. */
  function DistributionStr(d: Distribution): string {
    Strip(Dedent(Join(TemplateLines(d.name, d.version), "\n")))
  }

  /** The three lines of `str(d)`. */
  function DistributionLines(name: string, version: string): (r: seq<string>) {
    ["Distribution:", Spaces(4) + "name: " + name, Spaces(4) + "version: " + version]
  }

  lemma TemplateShape(name: string, version: string)
    ensures TemplateLines(name, version)
         == ["", Spaces(12) + "Distribution:", Spaces(12) + (Spaces(4) + "name: " + name),
             Spaces(12) + (Spaces(4) + "version: " + version), Spaces(12)]
  {
    SpacesAdd(12, 4);
    var lines := TemplateLines(name, version);
    assert lines[2] == Spaces(12) + (Spaces(4) + "name: " + name);
    assert lines[3] == Spaces(12) + (Spaces(4) + "version: " + version);
  }

  lemma TemplateHasNoNewline(name: string, version: string)
    requires '\n' !in name && '\n' !in version
    ensures var lines := TemplateLines(name, version); forall k :: 0 <= k < |lines| ==> '\n' !in lines[k]
  {
    var lines := TemplateLines(name, version);
    assert lines[2] == Spaces(16) + ("name: " + name);
    assert lines[3] == Spaces(16) + ("version: " + version);
  }

  lemma TemplateMargin(name: string, version: string)
    ensures var lines := TemplateLines(name, version);
      && (forall k :: 0 <= k < |lines| && !IsTabsAndSpaces(lines[k]) ==> Spaces(12) <= LeadingWhitespace(lines[k]))
      && LeadingWhitespace(lines[1]) == Spaces(12) && !IsTabsAndSpaces(lines[1])
  {
    TemplateShape(name, version);
    MarginLine(12, "Distribution:");
    FieldLine("name: ", name);
    FieldLine("version: ", version);
    MarginShapeThree(Spaces(12), "Distribution:", Spaces(4) + "name: " + name, Spaces(4) + "version: " + version);
  }

  lemma TemplateDedented(name: string, version: string)
    ensures Dedented(TemplateLines(name, version), Spaces(12)) == [""] + DistributionLines(name, version) + [""]
  {
    TemplateShape(name, version);
    MarginLine(12, "Distribution:");
    FieldLine("name: ", name);
    FieldLine("version: ", version);
    DedentedShapeThree(Spaces(12), "Distribution:", Spaces(4) + "name: " + name, Spaces(4) + "version: " + version);
  }

  /** `str(d)` is the three lines "Distribution:", "    name: <name>" and "    version: <version>"
      (when the name and version hold no newline and the version does not end in whitespace,
      which `strip` would remove). */
  lemma DistributionStrLines(d: Distribution)
    requires '\n' !in d.name && '\n' !in d.version
    requires |d.version| > 0 && !IsSpace(d.version[|d.version| - 1])
    ensures DistributionStr(d) == Join(DistributionLines(d.name, d.version), "\n")
  {
    var lines := DistributionLines(d.name, d.version);
    TemplateHasNoNewline(d.name, d.version);
    TemplateMargin(d.name, d.version);
    DedentLines(TemplateLines(d.name, d.version), Spaces(12), 1);
    TemplateDedented(d.name, d.version);
    JoinFramed(lines, "\n");
    var body := Join(lines, "\n");
    JoinStartsWithFirst(lines, "\n");
    JoinEndsWithLast(lines, "\n");
    StripFramed("\n", body, "\n");
  }
}
