/** Python's loaded module objects, as far as the converters look at them, and the classification
    of `repro/module.py`: built-in modules, modules bundled with the interpreter, and the standard
    library as either. */
module ModuleKinds {
  import opened Wrappers

  /** A module's `__file__`: no such attribute (built-in modules), `None` (namespace packages),
      or a string. */
  datatype FileAttribute = Missing | NoFile | File(path: string)

  /** A module's `__spec__`: `None`, or a spec with an optional origin. */
  datatype LoadedModule = LoadedModule(file: FileAttribute, spec: Option<Option<string>>)

  const BuiltInOrigin := "built-in"

  /** `is_built_in_module`: the spec's origin is `"built-in"`; a module without spec is not
      built-in. */
  predicate IsBuiltIn(m: LoadedModule) {
    m.spec.Some? && m.spec.value == Some(BuiltInOrigin)
  }

  /** The position of the last `/` in `s`, or -1: `str.rfind("/")`. */
  function LastSlash(s: string): (i: int)
    ensures -1 <= i < |s|
    ensures i >= 0 ==> s[i] == '/' && forall j :: i < j < |s| ==> s[j] != '/'
    ensures i == -1 ==> forall j :: 0 <= j < |s| ==> s[j] != '/'
  {
    if |s| == 0 then -1 else if s[|s| - 1] == '/' then |s| - 1 else LastSlash(s[..|s| - 1])
  }

  /** `s.rstrip("/")`. */
  function RStripSlashes(s: string): (r: string)
    ensures r <= s
    ensures |r| > 0 ==> r[|r| - 1] != '/'
    ensures forall j :: |r| <= j < |s| ==> s[j] == '/'
  {
    if |s| > 0 && s[|s| - 1] == '/' then RStripSlashes(s[..|s| - 1]) else s
  }

  predicate AllSlashes(s: string) {
    forall j :: 0 <= j < |s| ==> s[j] == '/'
  }

  /** `os.path.dirname(p)` of POSIX: everything up to the last slash, without the trailing
      slashes unless it is only slashes. */
  function Dirname(p: string): (r: string)
    ensures r <= p
    ensures r == "" <==> '/' !in p
  {
    var head := p[..LastSlash(p) + 1];
    if head != "" && !AllSlashes(head) then RStripSlashes(head)
    else head
  }

  /** The directory of a file directly below a directory is that directory, when the directory
      is written without a trailing slash. */
  lemma DirnameOfFileInDirectory(dir: string, name: string)
    requires |dir| > 0 && dir[|dir| - 1] != '/' && '/' !in name
    ensures Dirname(dir + "/" + name) == dir
  {
    var p := dir + "/" + name;
    assert LastSlash(p) == |dir| by {
      LastSlashAfter(dir + "/", name);
    }
    var head := p[..|dir| + 1];
    assert head == dir + "/";
    assert !AllSlashes(head) by {
      assert head[|dir| - 1] != '/';
    }
    assert head[..|dir|] == dir;
    assert RStripSlashes(head) == dir;
  }

  /** The last slash of a text whose end has none is that of its beginning. */
  lemma {:induction false} LastSlashAfter(a: string, b: string)
    requires '/' !in b && |a| > 0 && a[|a| - 1] == '/'
    ensures LastSlash(a + b) == |a| - 1
    decreases |b|
  {
    if |b| == 0 {
      assert a + b == a;
    } else {
      assert (a + b)[..|a + b| - 1] == a + b[..|b| - 1];
      assert (a + b)[|a + b| - 1] == b[|b| - 1];
      LastSlashAfter(a, b[..|b| - 1]);
    }
  }

  /** `is_bundled_module`: the directory of the module's file is the standard library's
      directory (`sys.prefix/sys.platlibdir/pythonX.Y`, given here); a module without `__file__`
      is not bundled, and a `None` file makes `dirname` raise a TypeError. */
  function IsBundled(m: LoadedModule, stdlibDir: string): (r: Result<bool>)
    ensures r.Err? <==> m.file.NoFile?
    ensures r.Err? ==> r.error == TypeError
    ensures m.file.Missing? ==> r == Ok(false)
    ensures m.file.File? ==> r == Ok(Dirname(m.file.path) == stdlibDir)
  {
    match m.file
    case Missing => Ok(false)
    case NoFile => Err(TypeError)
    case File(path) => Ok(Dirname(path) == stdlibDir)
  }

  /** `is_stdlib_module`: built-in, or else bundled; a built-in module is never asked for its
      file. */
  function IsStdlib(m: LoadedModule, stdlibDir: string): (r: Result<bool>)
    ensures IsBuiltIn(m) ==> r == Ok(true)
    ensures !IsBuiltIn(m) ==> r == IsBundled(m, stdlibDir)
  {
    if IsBuiltIn(m) then Ok(true) else IsBundled(m, stdlibDir)
  }

  /** A module whose file lies directly in the standard library's directory belongs to the
      standard library, and one with neither a built-in origin nor a file does not. */
  lemma StdlibModules(m: LoadedModule, stdlibDir: string, name: string)
    ensures m.file == File(stdlibDir + "/" + name) && |stdlibDir| > 0 && stdlibDir[|stdlibDir| - 1] != '/' && '/' !in name ==>
      IsStdlib(m, stdlibDir) == Ok(true)
    ensures !IsBuiltIn(m) && m.file.Missing? ==> IsStdlib(m, stdlibDir) == Ok(false)
  {
    if m.file == File(stdlibDir + "/" + name) && |stdlibDir| > 0 && stdlibDir[|stdlibDir| - 1] != '/' && '/' !in name {
      DirnameOfFileInDirectory(stdlibDir, name);
    }
  }
}
