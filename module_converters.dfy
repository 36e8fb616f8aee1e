/** The converters from the interpreter's loaded modules to the active modules of a record
    (compenv/adapters/module.py, repro/adapters/module.py): each module with a file becomes an
    active `Module` of that file. The two differ on a module whose `__file__` is the empty string. */
module ModuleConverters {
  import opened Wrappers
  import opened Paths
  import opened ReproRecord
  import opened ModuleKinds

  /** The interpreter's `sys.modules`: module names to module objects. */
  class Interpreter {
    var modules: map<string, LoadedModule>

    constructor (modules: map<string, LoadedModule>)
      ensures this.modules == modules
    {
      this.modules := modules;
    }
  }

  /** `getattr(module, "__file__", None)` is truthy: a file that is not the empty string. */
  predicate HasTruthyFile(m: LoadedModule) {
    m.file.File? && m.file.path != ""
  }

  /** The active modules `compenv` takes from the loaded modules: one per module with a truthy
      file. */
  function ActiveModulesOf(modules: map<string, LoadedModule>): (r: set<Module>)
    ensures forall name | name in modules && HasTruthyFile(modules[name]) :: Module(Parse(modules[name].file.path), true) in r
    ensures forall m | m in r :: m.isActive && exists name :: name in modules && HasTruthyFile(modules[name]) && Parse(modules[name].file.path) == m.file
  {
    set name | name in modules && HasTruthyFile(modules[name]) :: Module(Parse(modules[name].file.path), true)
  }

  /** `ActiveModuleConverter` of `compenv`, whose result is cached on the first call. */
  class ActiveModuleConverter {
    const interpreter: Interpreter
    /** What `lru_cache` remembers of `__call__`. */
    var cache: Option<set<Module>>

    constructor (interpreter: Interpreter)
      ensures this.interpreter == interpreter && cache == None
    {
      this.interpreter := interpreter;
      cache := None;
    }

    /** `__call__()`: the modules with a truthy `__file__`, each as an active module of that file;
        a later call gives the first result again. */
    method Call() returns (r: set<Module>)
      modifies this
      ensures old(cache).Some? ==> r == old(cache).value
      ensures old(cache).None? ==> r == ActiveModulesOf(interpreter.modules)
      ensures cache == Some(r)
    {
      if cache.Some? {
        return cache.value;
      }
      r := Collect(interpreter.modules);
      cache := Some(r);
    }
  }

  /** The loop of `__call__` over the values of `sys.modules`. */
  method Collect(loaded: map<string, LoadedModule>) returns (r: set<Module>)
    ensures r == ActiveModulesOf(loaded)
  {
    r := {};
    var todo := loaded.Keys;
    ghost var done: set<string> := {};
    while todo != {}
      invariant todo + done == loaded.Keys && todo !! done
      invariant r == set name | name in done && HasTruthyFile(loaded[name]) :: Module(Parse(loaded[name].file.path), true)
      decreases todo
    {
      var name :| name in todo;
      var m := loaded[name];
      if m.file.File? && m.file.path != "" {
        r := r + {Module(Parse(m.file.path), true)};
      }
      todo := todo - {name};
      done := done + {name};
    }
  }

  /** Later changes of the loaded modules are not seen: the second call gives the first result. */
  method CallsAreMemoised(converter: ActiveModuleConverter, changed: map<string, LoadedModule>) returns (first: set<Module>, second: set<Module>)
    requires converter.cache == None
    modifies converter, converter.interpreter
    ensures first == ActiveModulesOf(old(converter.interpreter.modules)) && second == first
  {
    first := converter.Call();
    converter.interpreter.modules := changed;
    second := converter.Call();
  }

  /** `_non_builtin_modules`: the modules with a `__file__` attribute. */
  function NonBuiltinModules(modules: map<string, LoadedModule>): (r: map<string, LoadedModule>)
    ensures forall name :: name in r <==> name in modules && !modules[name].file.Missing?
    ensures forall name | name in r :: r[name] == modules[name]
  {
    map name | name in modules && !modules[name].file.Missing? :: modules[name]
  }

  /** `_non_namespace_modules`: of those, the ones whose `__file__` is not `None`. */
  function NonNamespaceModules(modules: map<string, LoadedModule>): (r: map<string, LoadedModule>)
    ensures forall name :: name in r <==> name in modules && modules[name].file.File?
    ensures forall name | name in r :: r[name] == modules[name]
  {
    var nonBuiltin := NonBuiltinModules(modules);
    map name | name in nonBuiltin && !nonBuiltin[name].file.NoFile? :: nonBuiltin[name]
  }

  /** `ActiveModuleConverter.__call__` of `repro`: an active module for the file of each module
      that is neither built-in nor a namespace. */
  function ReproActiveModules(modules: map<string, LoadedModule>): (r: set<Module>)
    ensures forall name | name in modules && modules[name].file.File? :: Module(Parse(modules[name].file.path), true) in r
    ensures forall m | m in r :: m.isActive && exists name :: name in modules && modules[name].file.File? && Parse(modules[name].file.path) == m.file
  {
    var files := NonNamespaceModules(modules);
    set name | name in files :: Module(Parse(files[name].file.path), true)
  }

  /** The two converters agree but for a module with an empty `__file__`, which only `repro`
      keeps, as an active module of the path `.`. */
  lemma ConvertersDifferOnlyInEmptyFiles(modules: map<string, LoadedModule>)
    ensures ActiveModulesOf(modules) <= ReproActiveModules(modules)
    ensures ReproActiveModules(modules) - ActiveModulesOf(modules) <= {Module(Parse(""), true)}
    ensures (exists name :: name in modules && modules[name].file == File("")) ==> Module(Parse(""), true) in ReproActiveModules(modules)
  {
    forall m | m in ReproActiveModules(modules) && m !in ActiveModulesOf(modules)
      ensures m == Module(Parse(""), true)
    {
      var name :| name in modules && modules[name].file.File? && Parse(modules[name].file.path) == m.file;
      assert modules[name].file.path == "";
    }
  }
}
