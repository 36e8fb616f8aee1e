/** The converters from the installed distributions of `importlib.metadata` to those of a record
    (compenv/adapters/distribution.py, repro/adapters/distribution.py) and to the name-indexed
    distributions of `repro/distribution.py`. Whether a path exists (`Path.exists`), the location of a
    distribution's files (`locate`) and the active modules are given to the converters. */
module DistributionConverters {
  import opened Wrappers
  import opened Paths
  import opened ReproRecord

  /** A distribution as `importlib.metadata` shows it: the `Name` and `Version` of its metadata
      and its files, which may be unknown (`None`). */
  datatype MetadataDistribution = MetadataDistribution(name: string, version: string, files: Option<seq<Path>>)

  /** `importlib.metadata.distributions()`, which may change between calls. */
  class Site {
    var distributions: seq<MetadataDistribution>

    constructor (distributions: seq<MetadataDistribution>)
      ensures this.distributions == distributions
    {
      this.distributions := distributions;
    }
  }

  /** `orig_dist.files` is truthy: known, and not empty. */
  predicate HasFiles(d: MetadataDistribution) {
    d.files.Some? && |d.files.value| > 0
  }

  /** The set of files of a distribution with files. */
  function FileSet(d: MetadataDistribution): set<Path>
    requires d.files.Some?
  {
    set f | f in d.files.value
  }

  /** The files of the active modules. */
  function ActiveFiles(active: set<Module>): (r: set<Path>)
    ensures forall p :: p in r <==> exists m :: m in active && m.file == p
  {
    set m | m in active :: m.file
  }

  /** `_convert_files_to_modules(files)`: the `.py` files, located, that exist, each as a module
      that is active exactly when an active module has that file. */
  function ConvertFilesToModules(files: set<Path>, locate: Path -> Path, pathExists: Path -> bool, active: set<Module>): (r: set<Module>)
    ensures forall f | f in files && Suffix(f) == ".py" && pathExists(locate(f)) :: Module(locate(f), locate(f) in ActiveFiles(active)) in r
    ensures forall m | m in r :: pathExists(m.file) && (m.isActive <==> m.file in ActiveFiles(active))
    ensures forall m | m in r :: exists f :: f in files && Suffix(f) == ".py" && locate(f) == m.file
  {
    var valid := set f | f in files && Suffix(f) == ".py";
    var located := set f | f in valid :: locate(f);
    var existing := set p | p in located && pathExists(p);
    var activeFiles := ActiveFiles(active);
    set p | p in existing :: Module(p, p in activeFiles)
  }

  /** No file gives two modules: the modules of a distribution differ in their files. */
  lemma OneModulePerFile(files: set<Path>, locate: Path -> Path, pathExists: Path -> bool, active: set<Module>, m1: Module, m2: Module)
    requires m1 in ConvertFilesToModules(files, locate, pathExists, active)
    requires m2 in ConvertFilesToModules(files, locate, pathExists, active)
    requires m1.file == m2.file
    ensures m1 == m2
  {
  }

  /** `_convert_distribution(orig_dist)`: name and version from the metadata, and the modules of
      its files; none for a distribution whose files are unknown or empty. */
  function ConvertDistribution(d: MetadataDistribution, locate: Path -> Path, pathExists: Path -> bool, active: set<Module>): (r: Distribution)
    ensures r.name == d.name && r.version == d.version
    ensures !HasFiles(d) ==> r.modules == {}
    ensures HasFiles(d) ==> r.modules == ConvertFilesToModules(FileSet(d), locate, pathExists, active)
  {
    var modules := if HasFiles(d) then ConvertFilesToModules(FileSet(d), locate, pathExists, active) else {};
    Distribution(d.name, d.version, modules)
  }

  /** A converted distribution is active exactly when one of its existing `.py` files is the file
      of an active module. */
  lemma ConvertedIsActive(d: MetadataDistribution, locate: Path -> Path, pathExists: Path -> bool, active: set<Module>)
    ensures IsActive(ConvertDistribution(d, locate, pathExists, active)) <==>
      HasFiles(d) && exists f :: f in d.files.value && Suffix(f) == ".py" && pathExists(locate(f)) && locate(f) in ActiveFiles(active)
  {
    var r := ConvertDistribution(d, locate, pathExists, active);
    if HasFiles(d) && exists f :: f in d.files.value && Suffix(f) == ".py" && pathExists(locate(f)) && locate(f) in ActiveFiles(active) {
      var f :| f in d.files.value && Suffix(f) == ".py" && pathExists(locate(f)) && locate(f) in ActiveFiles(active);
      assert f in FileSet(d);
      assert Module(locate(f), true) in r.modules;
    }
    if IsActive(r) {
      var m :| m in r.modules && m.isActive;
      var f :| f in FileSet(d) && Suffix(f) == ".py" && locate(f) == m.file;
    }
  }

  /** `InstalledDistributionConverter`, with the result of its first call cached. */
  class InstalledDistributionConverter {
    const site: Site
    /** `PackagePath.locate`, into the paths of `path_cls`. */
    const locate: Path -> Path
    /** `path_cls.pathExists`. */
    const pathExists: Path -> bool
    /** What the injected `get_active_modules` gives. */
    const activeModules: set<Module>
    /** What `lru_cache` (`cache`) remembers of `__call__`. */
    var cache: Option<set<Distribution>>

    constructor (site: Site, locate: Path -> Path, pathExists: Path -> bool, activeModules: set<Module>)
      ensures this.site == site && this.locate == locate && this.pathExists == pathExists && this.activeModules == activeModules
      ensures cache == None
    {
      this.site := site;
      this.locate := locate;
      this.pathExists := pathExists;
      this.activeModules := activeModules;
      cache := None;
    }

    /** `__call__()`: the conversion of every installed distribution, and nothing else; a later
        call gives the first result again. */
    method Call() returns (r: set<Distribution>)
      modifies this
      ensures old(cache).Some? ==> r == old(cache).value
      ensures old(cache).None? ==>
        && (forall i | 0 <= i < |site.distributions| :: ConvertDistribution(site.distributions[i], locate, pathExists, activeModules) in r)
        && (forall d | d in r :: exists i :: 0 <= i < |site.distributions| && d == ConvertDistribution(site.distributions[i], locate, pathExists, activeModules))
      ensures cache == Some(r)
    {
      if cache.Some? {
        return cache.value;
      }
      r := ConvertAll(site.distributions, locate, pathExists, activeModules);
      cache := Some(r);
    }
  }

  /** The loop of `__call__`. */
  method ConvertAll(ds: seq<MetadataDistribution>, locate: Path -> Path, pathExists: Path -> bool, active: set<Module>) returns (r: set<Distribution>)
    ensures forall i | 0 <= i < |ds| :: ConvertDistribution(ds[i], locate, pathExists, active) in r
    ensures forall d | d in r :: exists i :: 0 <= i < |ds| && d == ConvertDistribution(ds[i], locate, pathExists, active)
  {
    r := {};
    for k := 0 to |ds|
      invariant forall i | 0 <= i < k :: ConvertDistribution(ds[i], locate, pathExists, active) in r
      invariant forall d | d in r :: exists i :: 0 <= i < k && d == ConvertDistribution(ds[i], locate, pathExists, active)
    {
      r := r + {ConvertDistribution(ds[k], locate, pathExists, active)};
    }
  }

  /** Installing a distribution after the first call is not seen by the second. */
  method InstalledCallsAreMemoised(converter: InstalledDistributionConverter, changed: seq<MetadataDistribution>)
      returns (first: set<Distribution>, second: set<Distribution>)
    requires converter.cache == None
    modifies converter, converter.site
    ensures second == first
  {
    first := converter.Call();
    converter.site.distributions := changed;
    second := converter.Call();
  }

  /** A distribution of `repro/distribution.py`: its name, version and the paths of its files. */
  datatype FileDistribution = FileDistribution(name: string, version: string, files: set<string>)

  /** The converted distribution: the string forms of its located files, none when they are
      unknown or empty. */
  function ConvertToFiles(d: MetadataDistribution, locate: Path -> Path): (r: FileDistribution)
    ensures r.name == d.name && r.version == d.version
    ensures !HasFiles(d) ==> r.files == {}
    ensures HasFiles(d) ==> forall s :: s in r.files <==> exists f :: f in d.files.value && Str(locate(f)) == s
  {
    var files := if HasFiles(d) then set f | f in d.files.value :: Str(locate(f)) else {};
    FileDistribution(d.name, d.version, files)
  }

  /** The dictionary that converting `ds` in order fills: each converted distribution under its
      name. */
  function ByName(ds: seq<MetadataDistribution>, locate: Path -> Path): (r: map<string, FileDistribution>)
    ensures r.Keys == set i | 0 <= i < |ds| :: ds[i].name
    decreases |ds|
  {
    if |ds| == 0 then map[]
    else
      var last := ds[|ds| - 1];
      var r := ByName(ds[..|ds| - 1], locate)[last.name := ConvertToFiles(last, locate)];
      assert forall i | 0 <= i < |ds| - 1 :: ds[..|ds| - 1][i] == ds[i];
      r
  }

  /** When two distributions have one name, the later one wins: the entry under a name is the
      conversion of the last distribution with that name. */
  lemma {:induction false} LaterDistributionWins(ds: seq<MetadataDistribution>, locate: Path -> Path, i: nat)
    requires i < |ds|
    requires forall j | i < j < |ds| :: ds[j].name != ds[i].name
    ensures ByName(ds, locate)[ds[i].name] == ConvertToFiles(ds[i], locate)
    decreases |ds|
  {
    if i < |ds| - 1 {
      var front := ds[..|ds| - 1];
      assert front[i] == ds[i];
      assert forall j | i < j < |front| :: front[j] == ds[j];
      LaterDistributionWins(front, locate, i);
    }
  }

  /** `InstalledDistributionConverter` of `repro/distribution.py`, with the result of its first
      call cached. */
  class NamedDistributionConverter {
    const site: Site
    const locate: Path -> Path
    var cache: Option<map<string, FileDistribution>>

    constructor (site: Site, locate: Path -> Path)
      ensures this.site == site && this.locate == locate && cache == None
    {
      this.site := site;
      this.locate := locate;
      cache := None;
    }

    /** `__call__()`: each installed distribution under its name, filled in order; a later call
        gives the first result again. */
    method Call() returns (r: map<string, FileDistribution>)
      modifies this
      ensures old(cache).Some? ==> r == old(cache).value
      ensures old(cache).None? ==> r == ByName(site.distributions, locate)
      ensures cache == Some(r)
    {
      if cache.Some? {
        return cache.value;
      }
      var ds := site.distributions;
      r := map[];
      for k := 0 to |ds|
        invariant r == ByName(ds[..k], locate)
      {
        assert ds[..k + 1][..k] == ds[..k];
        r := r[ds[k].name := ConvertToFiles(ds[k], locate)];
      }
      assert ds[..|ds|] == ds;
      cache := Some(r);
    }
  }
}
