/** The environment record of `repro`: modules, distributions as sets of modules, the installed
    distributions and the active modules, and their human-readable renderings
    (repro/model/record.py). All of them are immutable values compared by value. */
module ReproRecord {
  import opened Wrappers
  import opened Text
  import opened Paths
  import opened Ordering
  import opened Templates

  /** A Python module: its file and whether it is loaded. */
  datatype Module = Module(file: Path, isActive: bool)

  /** A distribution is a set of modules with a name and a version. */
  datatype Distribution = Distribution(name: string, version: string, modules: set<Module>)

  type InstalledDistributions = set<Distribution>

  type ActiveModules = set<Module>

  datatype Record = Record(installedDistributions: InstalledDistributions, activeModules: ActiveModules)

  /** `Distribution.is_active`: some module of the distribution is active. */
  predicate IsActive(d: Distribution) {
    exists m :: m in d.modules && m.isActive
  }

  /** `InstalledDistributions.active`. */
  function Active(installed: InstalledDistributions): (r: set<Distribution>)
    ensures r <= installed
    ensures forall d :: d in installed ==> (d in r <==> exists m :: m in d.modules && m.isActive)
  {
    set d | d in installed && IsActive(d)
  }

  /** Taking the active ones again changes nothing, and it distributes over union. */
  lemma ActiveIsAFilter(a: InstalledDistributions, b: InstalledDistributions)
    ensures Active(Active(a)) == Active(a)
    ensures Active(a + b) == Active(a) + Active(b)
    ensures Active(a) == {} <==> forall d :: d in a ==> forall m :: m in d.modules ==> !m.isActive
  {
  }

  /** `m in d`: membership in the module set. */
  function Contains(d: Distribution, m: Module): (r: bool)
    ensures r <==> m in d.modules
  {
    m in d.modules
  }

  /** `len(d)`. */
  function Length(d: Distribution): (r: nat)
    ensures r == |d.modules|
  {
    |d.modules|
  }

  /** `d & other`, `d | other`, `d - other` and `d ^ other` of the `Set` mixin: each builds a
      frozenset from an iteration over the operands, testing membership with `in`. */
  function Intersection(d: Distribution, other: set<Module>): (r: set<Module>)
    ensures r == d.modules * other
  {
    set m | m in other && Contains(d, m)
  }

  function Union(d: Distribution, other: set<Module>): (r: set<Module>)
    ensures r == d.modules + other
  {
    (set m | m in d.modules) + (set m | m in other)
  }

  function Difference(d: Distribution, other: set<Module>): (r: set<Module>)
    ensures r == d.modules - other
  {
    set m | m in d.modules && m !in other
  }

  function SymmetricDifference(d: Distribution, other: set<Module>): (r: set<Module>)
    ensures r == (d.modules - other) + (other - d.modules)
  {
    Union(Distribution(d.name, d.version, Difference(d, other)), set m | m in other && !Contains(d, m))
  }

  /** The set operations of two distributions are those of their module sets, so the usual set
      laws hold: inclusion and exclusion of lengths, and the symmetric difference is what the
      union has beyond the intersection. */
  lemma SetOperationLaws(d1: Distribution, d2: Distribution)
    ensures |Union(d1, d2.modules)| + |Intersection(d1, d2.modules)| == Length(d1) + Length(d2)
    ensures SymmetricDifference(d1, d2.modules) == Union(d1, d2.modules) - Intersection(d1, d2.modules)
    ensures SymmetricDifference(d1, d2.modules) == SymmetricDifference(d2, d1.modules)
    ensures Intersection(d1, d2.modules) == Intersection(d2, d1.modules)
  {
    var a, b := d1.modules, d2.modules;
    assert a + b == (a - b) + b;
    assert a == (a - b) + (a * b);
    assert (a - b) !! b && (a - b) !! (a * b);
  }

  /** `Module` has `order=True`: files first, then `False < True`. */
  predicate ModuleLt(a: Module, b: Module) {
    PathLt(a.file, b.file) || (a.file == b.file && !a.isActive && b.isActive)
  }

  lemma ModuleLtIsStrictTotalOrder()
    ensures IsStrictTotalOrder(ModuleLt)
  {
    PathLtIsStrictTotalOrder();
    forall a: Module, b: Module | a != b ensures ModuleLt(a, b) || ModuleLt(b, a) {
      if a.file == b.file {
        assert a.isActive != b.isActive;
      }
    }
    forall a: Module, b: Module, c: Module ensures TransitiveAt(a, b, c, ModuleLt) {
      assert Ordering.TransitiveAt(a.file, b.file, c.file, PathLt);
    }
  }

  /** The file strings of the modules in `sorted(d.modules)` order. */
  ghost function ModuleFiles(d: Distribution): (r: seq<string>)
    ensures |r| == |d.modules|
  {
    ModuleLtIsStrictTotalOrder();
    var sorted := Sorted(multiset(d.modules), ModuleLt);
    assert |sorted| == |multiset(d.modules)| == |d.modules|;
    seq(|sorted|, k requires 0 <= k < |sorted| => Str(sorted[k].file))
  }

  /** The lines of the f-string that `Distribution.__str__` hands to `textwrap.dedent`: an empty
      first line, the header indented by twelve spaces, the fields by sixteen, and twelve spaces
      before the closing quotes. */
  function TemplateLines(name: string, version: string): (r: seq<string>) {
    ["",
     Spaces(12) + "Distribution:",
     Spaces(16) + "name: " + name,
     Spaces(16) + "version: " + version,
     Spaces(16) + "modules:",
     Spaces(12)]
  }

  function DistributionTemplate(name: string, version: string): string {
    Join(TemplateLines(name, version), "\n")
  }

  /** `str(d)`. */
  ghost function DistributionStr(d: Distribution): string {
    Strip(Dedent(DistributionTemplate(d.name, d.version)) + Spaces(8) + Join(ModuleFiles(d), "\n" + Spaces(8)))
  }

  /** The first four lines of `str(d)`. */
  function DistributionHeader(name: string, version: string): (r: seq<string>) {
    ["Distribution:", Spaces(4) + "name: " + name, Spaces(4) + "version: " + version, Spaces(4) + "modules:"]
  }

  /** The template is a header line and three field lines at the twelve-space margin. */
  lemma TemplateShape(name: string, version: string)
    ensures TemplateLines(name, version)
         == ["", Spaces(12) + "Distribution:", Spaces(12) + (Spaces(4) + "name: " + name),
             Spaces(12) + (Spaces(4) + "version: " + version), Spaces(12) + (Spaces(4) + "modules:"), Spaces(12)]
  {
    SpacesAdd(12, 4);
    var lines := TemplateLines(name, version);
    assert lines[2] == Spaces(12) + (Spaces(4) + "name: " + name);
    assert lines[3] == Spaces(12) + (Spaces(4) + "version: " + version);
    assert lines[4] == Spaces(12) + (Spaces(4) + "modules:");
  }

  lemma TemplateHasNoLineBreak(name: string, version: string)
    requires '\n' !in name && '\n' !in version
    ensures var lines := TemplateLines(name, version); forall k :: 0 <= k < |lines| ==> '\n' !in lines[k]
  {
    var lines := TemplateLines(name, version);
    assert lines[2] == Spaces(16) + ("name: " + name);
    assert lines[3] == Spaces(16) + ("version: " + version);
  }

  lemma TemplateMargin(name: string, version: string)
    ensures var lines := TemplateLines(name, version);
      && (forall k :: 0 <= k < |lines| && !IsTabsAndSpaces(lines[k]) ==> Spaces(12) <= LeadingWhitespace(lines[k]))
      && (forall k :: 1 <= k < 5 ==> !IsTabsAndSpaces(lines[k]))
      && LeadingWhitespace(lines[1]) == Spaces(12)
  {
    TemplateShape(name, version);
    MarginLine(12, "Distribution:");
    FieldLine("name: ", name);
    FieldLine("version: ", version);
    FieldLine("modules:", "");
    assert Spaces(4) + "modules:" + "" == Spaces(4) + "modules:";
    MarginShape(Spaces(12), "Distribution:", Spaces(4) + "name: " + name, Spaces(4) + "version: " + version,
                Spaces(4) + "modules:");
  }

  lemma TemplateDedented(name: string, version: string)
    ensures Dedented(TemplateLines(name, version), Spaces(12)) == [""] + DistributionHeader(name, version) + [""]
  {
    TemplateShape(name, version);
    MarginLine(12, "Distribution:");
    FieldLine("name: ", name);
    FieldLine("version: ", version);
    FieldLine("modules:", "");
    assert Spaces(4) + "modules:" + "" == Spaces(4) + "modules:";
    DedentedShape(Spaces(12), "Distribution:", Spaces(4) + "name: " + name, Spaces(4) + "version: " + version,
                  Spaces(4) + "modules:");
  }

  /** Dedenting the template removes the twelve-space margin of the header line, and empties the
      last line. */
  lemma DedentDistributionTemplate(name: string, version: string)
    requires '\n' !in name && '\n' !in version
    ensures Dedent(DistributionTemplate(name, version)) == Join([""] + DistributionHeader(name, version) + [""], "\n")
  {
    TemplateHasNoLineBreak(name, version);
    TemplateMargin(name, version);
    DedentLines(TemplateLines(name, version), Spaces(12), 1);
    TemplateDedented(name, version);
  }

  /** `str(d)` is the header lines and one line per module file in sorted order, indented by
      eight spaces (when the name and version hold no newline and the last file does not end in
      whitespace, which `strip` would remove). */
  lemma DistributionStrLines(d: Distribution)
    requires '\n' !in d.name && '\n' !in d.version
    requires |ModuleFiles(d)| > 0 ==> var f := ModuleFiles(d)[|ModuleFiles(d)| - 1]; |f| > 0 && !IsSpace(f[|f| - 1])
    ensures DistributionStr(d) == Join(DistributionHeader(d.name, d.version) + Prefixed(ModuleFiles(d), Spaces(8)), "\n")
  {
    var header := DistributionHeader(d.name, d.version);
    DedentDistributionTemplate(d.name, d.version);
    JoinFramed(header, "\n");
    assert header[0][0] == 'D';
    assert header[3][|header[3]| - 1] == ':';
    StripIndentedLines(header, ModuleFiles(d), Spaces(8));
  }

  /** Stripping a block of lines framed by newlines, followed by more lines each after `ind`. */
  lemma StripIndentedLines(header: seq<string>, more: seq<string>, ind: string)
    requires |header| > 0 && |header[0]| > 0 && !IsSpace(header[0][0])
    requires var l := header[|header| - 1]; |l| > 0 && !IsSpace(l[|l| - 1])
    requires IsBlank(ind)
    requires |more| > 0 ==> var f := more[|more| - 1]; |f| > 0 && !IsSpace(f[|f| - 1])
    ensures Strip("\n" + Join(header, "\n") + "\n" + ind + Join(more, "\n" + ind)) == Join(header + Prefixed(more, ind), "\n")
  {
    JoinStartsWithFirst(header, "\n");
    JoinEndsWithLast(header, "\n");
    if |more| == 0 {
      StripNoMoreLines(header, ind);
    } else {
      StripMoreLines(header, more, ind);
    }
  }

  lemma StripNoMoreLines(header: seq<string>, ind: string)
    requires var h := Join(header, "\n"); |h| > 0 && !IsSpace(h[0]) && !IsSpace(h[|h| - 1])
    requires IsBlank(ind)
    ensures Strip("\n" + Join(header, "\n") + "\n" + ind + Join([], "\n" + ind)) == Join(header + Prefixed([], ind), "\n")
  {
    var head := Join(header, "\n");
    assert header + Prefixed([], ind) == header;
    assert "\n" + head + "\n" + ind + Join([], "\n" + ind) == "\n" + head + ("\n" + ind);
    StripFramed("\n", head, "\n" + ind);
  }

  lemma StripMoreLines(header: seq<string>, more: seq<string>, ind: string)
    requires |header| > 0
    requires var h := Join(header, "\n"); |h| > 0 && !IsSpace(h[0])
    requires |more| > 0 && var f := more[|more| - 1]; |f| > 0 && !IsSpace(f[|f| - 1])
    ensures Strip("\n" + Join(header, "\n") + "\n" + ind + Join(more, "\n" + ind)) == Join(header + Prefixed(more, ind), "\n")
  {
    var head := Join(header, "\n");
    var prefixed := Prefixed(more, ind);
    JoinPrefixed(more, ind, "\n");
    JoinAppend(header, prefixed, "\n");
    var body := head + "\n" + Join(prefixed, "\n");
    JoinEndsWithLast(prefixed, "\n");
    assert prefixed[|more| - 1] == ind + more[|more| - 1];
    assert "\n" + head + "\n" + ind + Join(more, "\n" + ind) == "\n" + body + "";
    StripFramed("\n", body, "");
  }

  /** The longest distribution name: `max(len(d.name) for d in ds)`. */
  ghost function MaxNameLength(ds: set<Distribution>): (r: nat)
    requires ds != {}
    ensures forall d :: d in ds ==> |d.name| <= r
    ensures exists d :: d in ds && |d.name| == r
    decreases |ds|
  {
    var d :| d in ds;
    if ds == {d} then |d.name|
    else
      var rest := MaxNameLength(ds - {d});
      if |d.name| < rest then rest else |d.name|
  }

  /** One line of `str(installed)`: activity sign, name padded to `width`, version in brackets. */
  function InstalledLine(d: Distribution, width: nat): (r: string)
  {
    Spaces(4) + (if IsActive(d) then "+" else "-") + " " + PadRight(d.name, width) + " (" + d.version + ")"
  }

  /** The columns of an installed line: the sign at column 4, the padded name from column 6, and
      the version bracket right after it, so the brackets of all lines line up. */
  lemma InstalledLineLayout(d: Distribution, width: nat)
    requires |d.name| <= width
    ensures var r := InstalledLine(d, width);
      && |r| == width + |d.version| + 9
      && r[..4] == Spaces(4)
      && r[4] == (if IsActive(d) then '+' else '-')
      && r[6..6 + width] == PadRight(d.name, width)
      && r[6 + width..8 + width] == " ("
      && r[8 + width..|r| - 1] == d.version
      && r[|r| - 1] == ')'
  {
  }

  lemma InstalledLineIsOneLine(d: Distribution, width: nat)
    requires '\n' !in d.name && '\n' !in d.version
    ensures '\n' !in InstalledLine(d, width)
  {
    var padded := PadRight(d.name, width);
    forall i | 0 <= i < |padded| ensures padded[i] != '\n' {
      if i < |d.name| {
        assert padded[i] == padded[..|d.name|][i];
      }
    }
    var r := InstalledLine(d, width);
    var sign := if IsActive(d) then "+" else "-";
    assert r == Spaces(4) + sign + " " + padded + " (" + d.version + ")";
  }

  const InstalledHeader := "Installed Distributions:"

  lemma HeaderIsOneLine()
    ensures '\n' !in InstalledHeader
  {
  }

  /** The lines of `str(installed)`: the header, then the sorted lines of the distributions with
      names padded to `width`. */
  ghost function InstalledLines(ds: InstalledDistributions, width: nat): (r: seq<string>)
  {
    StrLtIsStrictTotalOrder();
    [InstalledHeader] + SortedImage(ds, (d: Distribution) => InstalledLine(d, width), StrLt)
  }

  /** The header comes first, then one line per installed distribution, in the order of `sorted`. */
  lemma InstalledLinesShape(ds: InstalledDistributions, width: nat)
    ensures var r := InstalledLines(ds, width);
      && |r| == |ds| + 1 && r[0] == InstalledHeader && Ordered(r[1..], StrLt)
  {
    StrLtIsStrictTotalOrder();
    var sorted := SortedImage(ds, (d: Distribution) => InstalledLine(d, width), StrLt);
    assert InstalledLines(ds, width)[1..] == sorted;
  }

  /** Every installed distribution has its line. */
  lemma InstalledLinesCover(ds: InstalledDistributions, width: nat)
    ensures forall d :: d in ds ==> InstalledLine(d, width) in InstalledLines(ds, width)[1..]
  {
    StrLtIsStrictTotalOrder();
    var f := (d: Distribution) => InstalledLine(d, width);
    var sorted := SortedImage(ds, f, StrLt);
    assert InstalledLines(ds, width)[1..] == sorted;
    forall d | d in ds ensures InstalledLine(d, width) in sorted {
      assert f(d) in sorted;
    }
  }

  /** Every line after the header is the line of an installed distribution. */
  lemma InstalledLinesOnly(ds: InstalledDistributions, width: nat)
    ensures var r := InstalledLines(ds, width);
      forall k :: 1 <= k < |r| ==> exists d :: d in ds && r[k] == InstalledLine(d, width)
  {
    StrLtIsStrictTotalOrder();
    HeadedImageOnly(InstalledHeader, ds, (d: Distribution) => InstalledLine(d, width), StrLt);
  }

  /** `str(installed)`: the lines, names padded to the longest, joined; `max` fails on an
      empty set. */
  ghost function InstalledDistributionsStr(ds: InstalledDistributions): (r: Result<string>)
    ensures ds == {} <==> r.Err?
    ensures r.Err? ==> r.error.ValueError?
  {
    if ds == {} then Err(ValueError("max() arg is an empty sequence"))
    else Ok(Join(InstalledLines(ds, MaxNameLength(ds)), "\n"))
  }

  lemma InstalledLinesAreLines(ds: InstalledDistributions, width: nat)
    requires forall d :: d in ds ==> '\n' !in d.name && '\n' !in d.version
    ensures Split(Join(InstalledLines(ds, width), "\n"), '\n') == InstalledLines(ds, width)
  {
    var lines := InstalledLines(ds, width);
    InstalledLinesShape(ds, width);
    InstalledLinesOnly(ds, width);
    forall k | 0 <= k < |lines| ensures '\n' !in lines[k] {
      if k == 0 {
        HeaderIsOneLine();
      } else {
        assert exists d :: d in ds && lines[k] == InstalledLine(d, width);
        var d :| d in ds && lines[k] == InstalledLine(d, width);
        InstalledLineIsOneLine(d, width);
      }
    }
    SplitJoin(lines, '\n');
  }

  /** When no name or version holds a newline, `str(installed)` splits back into its lines. */
  lemma InstalledDistributionsStrLines(ds: InstalledDistributions)
    requires ds != {}
    requires forall d :: d in ds ==> '\n' !in d.name && '\n' !in d.version
    ensures Split(InstalledDistributionsStr(ds).value, '\n') == InstalledLines(ds, MaxNameLength(ds))
  {
    InstalledLinesAreLines(ds, MaxNameLength(ds));
  }

  const ActiveHeader := "Active Modules:"

  /** The lines of `str(active_modules)`: the header, then the sorted file strings, each indented
      by four spaces. */
  ghost function ActiveLines(ms: ActiveModules): (r: seq<string>)
  {
    StrLtIsStrictTotalOrder();
    [ActiveHeader] + SortedImage(ms, ActiveLine, StrLt)
  }

  /** The line of one active module. */
  function ActiveLine(m: Module): string
  {
    Spaces(4) + Str(m.file)
  }

  /** `str(active_modules)`. */
  ghost function ActiveModulesStr(ms: ActiveModules): (r: string)
  {
    Join(ActiveLines(ms), "\n")
  }

  /** The header comes first, then one line per active module, in the order of `sorted`. */
  lemma ActiveLinesShape(ms: ActiveModules)
    ensures var r := ActiveLines(ms);
      && |r| == |ms| + 1 && r[0] == ActiveHeader && Ordered(r[1..], StrLt)
  {
    StrLtIsStrictTotalOrder();
    var sorted := SortedImage(ms, ActiveLine, StrLt);
    assert ActiveLines(ms)[1..] == sorted;
  }

  /** Every active module has its line, and every line after the header is one of them. */
  lemma ActiveLinesContents(ms: ActiveModules)
    ensures forall m :: m in ms ==> ActiveLine(m) in ActiveLines(ms)[1..]
    ensures var r := ActiveLines(ms);
      forall k :: 1 <= k < |r| ==> exists m :: m in ms && r[k] == ActiveLine(m)
  {
    StrLtIsStrictTotalOrder();
    var sorted := SortedImage(ms, ActiveLine, StrLt);
    assert ActiveLines(ms)[1..] == sorted;
    HeadedImageOnly(ActiveHeader, ms, ActiveLine, StrLt);
  }

  lemma InstalledLineIsPlain(d: Distribution, width: nat)
    requires NoLineBreak(d.name) && NoLineBreak(d.version)
    ensures IsPlainLine(InstalledLine(d, width))
  {
    var padded := PadRight(d.name, width);
    forall i | 0 <= i < |padded| ensures !IsLineBreak(padded[i]) {
      if i < |d.name| {
        assert padded[i] == padded[..|d.name|][i];
      }
    }
    var r := InstalledLine(d, width);
    var sign := if IsActive(d) then "+" else "-";
    assert r == Spaces(4) + sign + " " + padded + " (" + d.version + ")";
    assert r[4] == sign[0];
  }

  lemma HeadersArePlain()
    ensures IsPlainLine(InstalledHeader) && IsPlainLine(ActiveHeader)
  {
    assert InstalledHeader[0] == 'I' && ActiveHeader[0] == 'A';
  }

  lemma InstalledLinesArePlain(ds: InstalledDistributions, width: nat)
    requires forall d :: d in ds ==> NoLineBreak(d.name) && NoLineBreak(d.version)
    ensures forall k :: 0 <= k < |InstalledLines(ds, width)| ==> IsPlainLine(InstalledLines(ds, width)[k])
  {
    var lines := InstalledLines(ds, width);
    InstalledLinesShape(ds, width);
    InstalledLinesOnly(ds, width);
    forall k | 0 <= k < |lines| ensures IsPlainLine(lines[k]) {
      if k == 0 {
        HeadersArePlain();
      } else {
        assert exists d :: d in ds && lines[k] == InstalledLine(d, width);
        var d :| d in ds && lines[k] == InstalledLine(d, width);
        InstalledLineIsPlain(d, width);
      }
    }
  }

  lemma ActiveLineIsPlain(m: Module)
    requires IsPlainLine(Str(m.file))
    ensures IsPlainLine(ActiveLine(m))
  {
    IndentedIsPlain(Spaces(4), Str(m.file));
  }

  lemma ActiveLinesArePlain(ms: ActiveModules)
    requires forall m :: m in ms ==> IsPlainLine(Str(m.file))
    ensures forall k :: 0 <= k < |ActiveLines(ms)| ==> IsPlainLine(ActiveLines(ms)[k])
  {
    var lines := ActiveLines(ms);
    ActiveLinesShape(ms);
    ActiveLinesContents(ms);
    forall k | 0 <= k < |lines| ensures IsPlainLine(lines[k]) {
      if k == 0 {
        HeadersArePlain();
      } else {
        assert exists m :: m in ms && lines[k] == ActiveLine(m);
        var m :| m in ms && lines[k] == ActiveLine(m);
        ActiveLineIsPlain(m);
      }
    }
  }

  /** `str(record)`: "Record:" and each field's rendering indented by four spaces. */
  ghost function RecordStr(r: Record): (s: Result<string>)
    ensures s.Err? <==> r.installedDistributions == {}
  {
    var installed :- InstalledDistributionsStr(r.installedDistributions);
    Ok("Record:\n" + Join([Indent(installed, Spaces(4)), Indent(ActiveModulesStr(r.activeModules), Spaces(4))], "\n"))
  }

  lemma RecordStrSections(r: Record)
    requires r.installedDistributions != {}
    ensures RecordStr(r).value
         == "Record:" + "\n" + Join([Indent(Join(InstalledLines(r.installedDistributions, MaxNameLength(r.installedDistributions)), "\n"), Spaces(4)),
                                     Indent(Join(ActiveLines(r.activeModules), "\n"), Spaces(4))], "\n")
  {
    assert "Record:\n" == "Record:" + "\n";
  }

  /** With plain names, versions and files, `str(record)` is the line "Record:" followed by the
      lines of both sections, each indented by four spaces. */
  lemma RecordStrLines(r: Record)
    requires r.installedDistributions != {}
    requires forall d :: d in r.installedDistributions ==> NoLineBreak(d.name) && NoLineBreak(d.version)
    requires forall m :: m in r.activeModules ==> IsPlainLine(Str(m.file))
    ensures RecordStr(r).value
         == Join(["Record:"] + Prefixed(InstalledLines(r.installedDistributions, MaxNameLength(r.installedDistributions)), Spaces(4))
                             + Prefixed(ActiveLines(r.activeModules), Spaces(4)), "\n")
  {
    var installed := InstalledLines(r.installedDistributions, MaxNameLength(r.installedDistributions));
    var active := ActiveLines(r.activeModules);
    InstalledLinesArePlain(r.installedDistributions, MaxNameLength(r.installedDistributions));
    ActiveLinesArePlain(r.activeModules);
    RecordStrSections(r);
    IndentedSections("Record:", installed, active, Spaces(4));
  }
}
