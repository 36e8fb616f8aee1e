/** Package/module hierarchies of Python file paths, and the packages built from them
    (repro/hierarchy.py). */
module ReproHierarchy {
  import opened Wrappers
  import opened Paths
  import opened ReproUnits

  /** A hierarchy as a value: the module paths at its top level and, per `__init__.py` path at
      its top level, the hierarchy of the files below that package's directory. */
  datatype HierarchyValue = HierarchyValue(modulePaths: set<Path>, subHierarchies: map<Path, HierarchyValue>)

  predicate IsInit(p: Path) {
    Name(p) == "__init__.py"
  }

  function InitPaths(paths: set<Path>): (r: set<Path>)
    ensures r <= paths
  {
    set p | p in paths && IsInit(p)
  }

  /** `min(len(ip.parts) for ip in inits)`. */
  ghost function MinDepth(inits: set<Path>): (r: nat)
    requires inits != {}
    ensures forall p :: p in inits ==> r <= |p|
    ensures exists p :: p in inits && |p| == r
    decreases |inits|
  {
    var p :| p in inits;
    if inits == {p} then |p|
    else
      var rest := MinDepth(inits - {p});
      if rest < |p| then rest else |p|
  }

  lemma {:induction false} SubsetIsNoLarger<T>(a: set<T>, b: set<T>)
    requires a <= b
    ensures |a| <= |b|
    decreases |b|
  {
    if a != {} {
      var x :| x in a;
      SubsetIsNoLarger(a - {x}, b - {x});
    }
  }

  /** The paths below the directory of `initPath`. */
  function Below(paths: set<Path>, initPath: Path): (r: set<Path>)
    ensures r <= paths
  {
    set rp | rp in paths && IsRelativeTo(rp, Parent(initPath))
  }

  /** The paths of `inits` with `depth` parts. */
  function AtDepth(inits: set<Path>, depth: nat): (r: set<Path>)
    ensures r <= inits
  {
    set ip | ip in inits && |ip| == depth
  }

  /** The candidates, other than `__init__.py` paths, with one part less than `depth`. */
  function ModulesAt(candidates: set<Path>, initPaths: set<Path>, depth: nat): (r: set<Path>)
    ensures r <= candidates
  {
    set p | p in candidates && p !in initPaths && |p| == depth - 1
  }

  /** The top-level `__init__.py` paths: those of the least depth. */
  ghost function TopInits(paths: set<Path>): (r: set<Path>)
    requires InitPaths(paths) != {}
    ensures r != {} && r <= InitPaths(paths)
  {
    var depth := MinDepth(InitPaths(paths));
    var p :| p in InitPaths(paths) && |p| == depth;
    assert p in AtDepth(InitPaths(paths), depth);
    AtDepth(InitPaths(paths), depth)
  }

  /** The top-level module paths: the paths, other than `__init__.py` ones, one part shallower
      than the top-level `__init__.py` paths. */
  ghost function TopModules(paths: set<Path>): (r: set<Path>)
    requires InitPaths(paths) != {}
  {
    ModulesAt(paths - TopInits(paths), InitPaths(paths), MinDepth(InitPaths(paths)))
  }

  /** The paths left for the sub-hierarchies. */
  ghost function Remaining(paths: set<Path>): (r: set<Path>)
    requires InitPaths(paths) != {}
    ensures r <= paths && |r| < |paths|
  {
    var r := paths - TopInits(paths) - TopModules(paths);
    var ip :| ip in TopInits(paths);
    SubsetIsNoLarger(r, paths - {ip});
    r
  }

  /** `create_hierarchy(paths)`. */
  ghost function HierarchyOf(paths: set<Path>): (h: HierarchyValue)
    decreases |paths|
  {
    if InitPaths(paths) == {} then HierarchyValue(paths, map[])
    else
      var rest := Remaining(paths);
      assert forall ip :: |Below(rest, ip)| < |paths| by {
        forall ip ensures |Below(rest, ip)| < |paths| {
          SubsetIsNoLarger(Below(rest, ip), rest);
        }
      }
      HierarchyValue(TopModules(paths), map ip | ip in TopInits(paths) :: HierarchyOf(Below(rest, ip)))
  }

  /** With no `__init__.py` among the paths, all of them are module paths and there is no
      sub-hierarchy. */
  lemma NoInitsGiveModulesOnly(paths: set<Path>)
    requires forall p :: p in paths ==> !IsInit(p)
    ensures HierarchyOf(paths) == HierarchyValue(paths, map[])
  {
    assert InitPaths(paths) == {};
  }

  /** An `__init__.py` path of least depth among the paths. */
  ghost predicate IsTopInit(paths: set<Path>, ip: Path) {
    ip in InitPaths(paths) && forall q :: q in InitPaths(paths) ==> |ip| <= |q|
  }

  /** The keys of the sub-hierarchies are exactly the `__init__.py` paths of least depth. */
  lemma SubHierarchyKeys(paths: set<Path>)
    ensures forall ip :: ip in HierarchyOf(paths).subHierarchies <==> IsTopInit(paths, ip)
  {
    if InitPaths(paths) != {} {
      var depth := MinDepth(InitPaths(paths));
      assert HierarchyOf(paths).subHierarchies.Keys == TopInits(paths);
      var q :| q in InitPaths(paths) && |q| == depth;
      forall ip ensures ip in TopInits(paths) <==> IsTopInit(paths, ip) {
        if IsTopInit(paths, ip) {
          assert |ip| <= |q|;
        }
      }
    }
  }

  /** The top-level module paths are exactly the other paths one part shallower than the
      top-level `__init__.py` paths. */
  lemma TopLevelModulePaths(paths: set<Path>, initPath: Path)
    requires IsTopInit(paths, initPath)
    ensures HierarchyOf(paths).modulePaths == set p | p in paths && !IsInit(p) && |p| == |initPath| - 1
  {
    var depth := MinDepth(InitPaths(paths));
    var q :| q in InitPaths(paths) && |q| == depth;
    assert |initPath| == depth;
  }

  /** Each top-level `__init__.py` path holds the hierarchy of the remaining paths below its
      directory. */
  lemma SubHierarchyOfInit(paths: set<Path>, initPath: Path)
    requires initPath in HierarchyOf(paths).subHierarchies
    ensures InitPaths(paths) != {}
    ensures HierarchyOf(paths).subHierarchies[initPath] == HierarchyOf(Below(Remaining(paths), initPath))
  {
  }

  /** Every path a hierarchy mentions: its module paths, its keys and those of its
      sub-hierarchies. */
  ghost function AllPaths(h: HierarchyValue): (r: set<Path>)
    decreases h
  {
    h.modulePaths + h.subHierarchies.Keys
      + set ip, p | ip in h.subHierarchies && p in AllPaths(h.subHierarchies[ip]) :: p
  }

  /** A hierarchy holds only paths it was given. */
  lemma {:induction false} HierarchyKeepsToItsPaths(paths: set<Path>)
    ensures AllPaths(HierarchyOf(paths)) <= paths
    decreases |paths|
  {
    if InitPaths(paths) != {} {
      var h := HierarchyOf(paths);
      var rest := Remaining(paths);
      forall ip, p | ip in h.subHierarchies && p in AllPaths(h.subHierarchies[ip]) ensures p in paths {
        SubsetIsNoLarger(Below(rest, ip), rest);
        HierarchyKeepsToItsPaths(Below(rest, ip));
      }
    }
  }

  /** A `Hierarchy` object: its module paths and, per `__init__.py` path, a sub-hierarchy object
      of its own. `model` is the hierarchy the object tree stands for, and `Repr` the set of objects
      of the tree. */
  class Hierarchy {
    var modulePaths: set<Path>
    var subHierarchies: map<Path, Hierarchy>
    ghost var model: HierarchyValue
    ghost var Repr: set<object>

    /** The sub-hierarchies form a tree: each is valid, lies below this object, no two of them
        share an object, and each stands for the sub-hierarchy of `model` under its key. */
    ghost predicate Valid()
      reads this, Repr
      decreases Repr
    {
      && this in Repr
      && model.modulePaths == modulePaths
      && model.subHierarchies.Keys == subHierarchies.Keys
      && (forall ip | ip in subHierarchies ::
            var c := subHierarchies[ip];
            && c != this && c in Repr && c.Repr <= Repr && this !in c.Repr
            && c.model == model.subHierarchies[ip] && c.Valid())
      && (forall ip, jp | ip in subHierarchies && jp in subHierarchies && ip != jp ::
            subHierarchies[ip].Repr !! subHierarchies[jp].Repr)
    }

    /** `Hierarchy()`: no module paths and no sub-hierarchies. */
    constructor()
      ensures Valid() && fresh(Repr)
      ensures model == HierarchyValue({}, map[])
    {
      modulePaths := {};
      subHierarchies := map[];
      model := HierarchyValue({}, map[]);
      Repr := {this};
    }

    /** `self.module_paths.update(paths)`. */
    method AddModulePaths(paths: set<Path>)
      requires Valid()
      modifies this
      ensures Valid() && Repr == old(Repr)
      ensures subHierarchies == old(subHierarchies)
      ensures model == HierarchyValue(old(model.modulePaths) + paths, old(model.subHierarchies))
    {
      modulePaths := modulePaths + paths;
      model := HierarchyValue(model.modulePaths + paths, model.subHierarchies);
    }

    /** `self.module_paths.clear()`. */
    method ClearModulePaths()
      requires Valid()
      modifies this
      ensures Valid() && Repr == old(Repr)
      ensures subHierarchies == old(subHierarchies)
      ensures model == HierarchyValue({}, old(model.subHierarchies))
    {
      modulePaths := {};
      model := HierarchyValue({}, model.subHierarchies);
    }

    /** The tree is valid but for the recorded value of the sub-hierarchy under `initPath`. */
    ghost predicate ValidBut(initPath: Path)
      reads this, Repr
    {
      && this in Repr
      && model.modulePaths == modulePaths
      && model.subHierarchies.Keys == subHierarchies.Keys
      && (forall ip | ip in subHierarchies ::
            var c := subHierarchies[ip];
            && c != this && c in Repr && c.Repr <= Repr && this !in c.Repr
            && (ip != initPath ==> c.model == model.subHierarchies[ip]) && c.Valid())
      && (forall ip, jp | ip in subHierarchies && jp in subHierarchies && ip != jp ::
            subHierarchies[ip].Repr !! subHierarchies[jp].Repr)
    }

    /** Records the new value of the sub-hierarchy under `initPath`, which its object changed. */
    ghost method Replaced(initPath: Path)
      requires initPath in subHierarchies && ValidBut(initPath)
      modifies this
      ensures Valid() && Repr == old(Repr)
      ensures modulePaths == old(modulePaths) && subHierarchies == old(subHierarchies)
      ensures model == HierarchyValue(old(model.modulePaths), old(model.subHierarchies)[initPath := subHierarchies[initPath].model])
    {
      model := HierarchyValue(model.modulePaths, model.subHierarchies[initPath := subHierarchies[initPath].model]);
    }

    /** `self.sub_hierarchies[initPath] = sub` for a new key and a tree of its own. */
    method Attach(initPath: Path, sub: Hierarchy)
      requires Valid() && sub.Valid() && Repr !! sub.Repr
      requires initPath !in subHierarchies
      modifies this
      ensures Valid() && Repr == old(Repr) + sub.Repr
      ensures modulePaths == old(modulePaths) && subHierarchies == old(subHierarchies)[initPath := sub]
      ensures model == HierarchyValue(old(model.modulePaths), old(model.subHierarchies)[initPath := sub.model])
    {
      subHierarchies := subHierarchies[initPath := sub];
      model := HierarchyValue(model.modulePaths, model.subHierarchies[initPath := sub.model]);
      Repr := Repr + sub.Repr;
    }
  }

  /** `min(len(ip.parts) for ip in inits)`, computed by a pass over the set. */
  method MinimumDepth(inits: set<Path>) returns (depth: nat)
    requires inits != {}
    ensures depth == MinDepth(inits)
  {
    var first :| first in inits;
    depth := |first|;
    var todo := inits - {first};
    while todo != {}
      invariant todo <= inits && first !in todo
      invariant forall q :: q in inits - todo ==> depth <= |q|
      invariant exists q :: q in inits - todo && |q| == depth
      decreases todo
    {
      var p :| p in todo;
      if |p| < depth {
        depth := |p|;
      }
      todo := todo - {p};
    }
    ghost var m :| m in inits && |m| == MinDepth(inits);
  }

  /** `create_hierarchy(paths)`: a fresh object tree standing for `HierarchyOf(paths)`; the
      argument, a value, is left as it was. */
  method CreateHierarchy(paths: set<Path>) returns (h: Hierarchy)
    ensures fresh(h.Repr) && h.Valid()
    ensures h.model == HierarchyOf(paths)
    decreases |paths|, 2
  {
    var initPaths := InitPaths(paths);
    if initPaths == {} {
      h := new Hierarchy();
      h.AddModulePaths(paths);
    } else {
      h := CreatePackageHierarchy(paths, initPaths);
    }
  }

  /** `create_hierarchy(paths)` when some of the paths are `__init__.py` paths. */
  method CreatePackageHierarchy(paths: set<Path>, initPaths: set<Path>) returns (h: Hierarchy)
    requires initPaths == InitPaths(paths) != {}
    ensures fresh(h.Repr) && h.Valid()
    ensures h.model == HierarchyOf(paths)
    decreases |paths|, 1
  {
    h := new Hierarchy();
    var depth := MinimumDepth(initPaths);
    var top := AtDepth(initPaths, depth);
    var remaining := paths - top;
    AddTopModulePaths(h, remaining, initPaths, depth);
    remaining := remaining - h.modulePaths;
    AttachSubHierarchies(h, remaining, top);
    HierarchyOfUnfolded(paths);
  }

  /** The first loop of `create_hierarchy`: adds the candidates that are not `__init__.py` paths
      and lie one part above `depth` to the module paths of `h`. */
  method AddTopModulePaths(h: Hierarchy, candidates: set<Path>, initPaths: set<Path>, depth: nat)
    requires h.Valid()
    modifies h
    ensures h.Valid() && h.Repr == old(h.Repr) && h.subHierarchies == old(h.subHierarchies)
    ensures h.model == HierarchyValue(old(h.model.modulePaths) + ModulesAt(candidates, initPaths, depth),
      old(h.model.subHierarchies))
  {
    ghost var m0 := h.model;
    var todo := candidates;
    while todo != {}
      invariant todo <= candidates
      invariant h.Valid() && h.Repr == old(h.Repr) && h.subHierarchies == old(h.subHierarchies)
      invariant h.model == HierarchyValue(m0.modulePaths + ModulesAt(candidates - todo, initPaths, depth),
        m0.subHierarchies)
      decreases todo
    {
      var path :| path in todo;
      if path !in initPaths && |path| == depth - 1 {
        h.AddModulePaths({path});
      }
      todo := todo - {path};
    }
  }

  /** The second loop of `create_hierarchy`: one fresh sub-hierarchy per top-level `__init__.py`
      path, built from the remaining paths below its directory. */
  method AttachSubHierarchies(h: Hierarchy, remaining: set<Path>, top: set<Path>)
    requires h.Valid() && h.subHierarchies == map[]
    modifies h
    ensures h.Valid() && fresh(h.Repr - old(h.Repr))
    ensures h.model == HierarchyValue(old(h.model.modulePaths), Built(remaining, top))
    decreases |remaining|, 3
  {
    ghost var m0 := h.model;
    var pending := top;
    while pending != {}
      invariant pending <= top
      invariant h.Valid() && fresh(h.Repr - old(h.Repr))
      invariant h.model.modulePaths == m0.modulePaths && h.model.subHierarchies.Keys == top - pending
      invariant forall ip :: ip in h.model.subHierarchies ==> h.model.subHierarchies[ip] == HierarchyOf(Below(remaining, ip))
      decreases pending
    {
      var ip :| ip in pending;
      var subPaths := Below(remaining, ip);
      SubsetIsNoLarger(subPaths, remaining);
      var sub := CreateHierarchy(subPaths);
      h.Attach(ip, sub);
      pending := pending - {ip};
    }
    BuiltIsPointwise(h.model.subHierarchies, remaining, top);
  }

  /** The modules of a sub-hierarchy: `Module(mp.stem, str(mp))` per module path. */
  function ModulesOf(modulePaths: set<Path>): (r: set<Unit>)
    ensures forall u :: u in r ==> u.Module?
  {
    set mp | mp in modulePaths :: Module(Stem(mp), Some(Str(mp)))
  }

  /** The package of one `__init__.py` path: named after its directory, its file the init path,
      its units the modules of the sub-hierarchy and the packages below it. */
  ghost function PackageOf(initPath: Path, sub: HierarchyValue): (r: Unit)
    decreases sub, 1
  {
    Package(Name(Parent(initPath)), Some(Str(initPath)), ModulesOf(sub.modulePaths) + PackagesOf(sub))
  }

  /** `create_packages(h)`: one package per sub-hierarchy. */
  ghost function PackagesOf(h: HierarchyValue): (r: set<Unit>)
    decreases h, 0
  {
    set ip | ip in h.subHierarchies :: PackageOf(ip, h.subHierarchies[ip])
  }

  /** The hierarchy with every set of module paths emptied. */
  ghost function Cleared(h: HierarchyValue): (r: HierarchyValue)
    decreases h
  {
    HierarchyValue({}, map ip | ip in h.subHierarchies :: Cleared(h.subHierarchies[ip]))
  }

  /** `create_packages(h)`: returns the packages of the hierarchy and empties the module paths of
      `h` and of every sub-hierarchy. */
  method CreatePackages(h: Hierarchy) returns (packages: set<Unit>)
    requires h.Valid()
    modifies h.Repr
    ensures h.Valid() && h.Repr == old(h.Repr)
    ensures h.subHierarchies == old(h.subHierarchies)
    ensures h.model == Cleared(old(h.model))
    ensures packages == PackagesOf(old(h.model))
    decreases h.Repr, 2
  {
    h.ClearModulePaths();
    packages := CollectPackages(h);
  }

  /** The loop of `create_packages(h)`, once the module paths of `h` are emptied. */
  method CollectPackages(h: Hierarchy) returns (packages: set<Unit>)
    requires h.Valid() && h.modulePaths == {}
    modifies h.Repr
    ensures h.Valid() && h.Repr == old(h.Repr)
    ensures h.subHierarchies == old(h.subHierarchies)
    ensures h.model == Cleared(old(h.model))
    ensures packages == PackagesOf(old(h.model))
    decreases h.Repr, 1
  {
    ghost var m0 := h.model;
    packages := {};
    var keys := h.subHierarchies.Keys;
    var todo := keys;
    while todo != {}
      invariant todo <= keys
      invariant h.Valid() && h.Repr == old(h.Repr)
      invariant h.subHierarchies == old(h.subHierarchies)
      invariant h.model == HierarchyValue({}, PartlyCleared(m0, todo))
      invariant packages == PackagesAmong(m0, keys - todo)
      decreases todo
    {
      var ip :| ip in todo;
      assert h.model.subHierarchies[ip] == m0.subHierarchies[ip];
      var package := CreatePackageOf(h, ip);
      PartlyClearedStep(m0, todo, ip);
      packages := packages + {package};
      PackagesAmongStep(m0, keys - todo, ip);
      todo := todo - {ip};
    }
    PartlyClearedDone(m0);
    PackagesAmongAll(m0);
  }

  /** One round of the loop of `create_packages(h)`: the package of the sub-hierarchy under
      `initPath`, whose module paths are emptied, with those of everything below it. */
  method CreatePackageOf(h: Hierarchy, initPath: Path) returns (package: Unit)
    requires h.Valid() && initPath in h.subHierarchies
    modifies h, h.subHierarchies[initPath].Repr
    ensures h.Valid() && h.Repr == old(h.Repr)
    ensures h.modulePaths == old(h.modulePaths) && h.subHierarchies == old(h.subHierarchies)
    ensures h.model == HierarchyValue(old(h.model.modulePaths),
      old(h.model.subHierarchies)[initPath := Cleared(old(h.model.subHierarchies[initPath]))])
    ensures package == PackageOf(initPath, old(h.model.subHierarchies[initPath]))
    decreases h.Repr, 0
  {
    var sub := h.subHierarchies[initPath];
    assert sub.Repr < h.Repr;
    var units := ModulesOf(sub.modulePaths);
    var subPackages := CreatePackages(sub);
    h.Replaced(initPath);
    units := units + subPackages;
    package := Package(Name(Parent(initPath)), Some(Str(initPath)), units);
  }

  /** The sub-hierarchies of `create_hierarchy` built so far: one per key in `done`. */
  ghost function Built(remaining: set<Path>, done: set<Path>): (r: map<Path, HierarchyValue>)
  {
    map ip | ip in done :: HierarchyOf(Below(remaining, ip))
  }

  lemma BuiltIsPointwise(m: map<Path, HierarchyValue>, remaining: set<Path>, done: set<Path>)
    requires m.Keys == done
    requires forall ip :: ip in m ==> m[ip] == HierarchyOf(Below(remaining, ip))
    ensures m == Built(remaining, done)
  {
  }

  lemma HierarchyOfUnfolded(paths: set<Path>)
    requires InitPaths(paths) != {}
    ensures HierarchyOf(paths) == HierarchyValue(TopModules(paths), Built(Remaining(paths), TopInits(paths)))
  {
  }

  /** The sub-hierarchies of `h` while `create_packages` works through them: those in `todo` as
      they were, the others cleared. */
  ghost function PartlyCleared(h: HierarchyValue, todo: set<Path>): (r: map<Path, HierarchyValue>)
  {
    map ip | ip in h.subHierarchies :: if ip in todo then h.subHierarchies[ip] else Cleared(h.subHierarchies[ip])
  }

  lemma PartlyClearedStep(h: HierarchyValue, todo: set<Path>, ip: Path)
    requires ip in todo && ip in h.subHierarchies
    ensures PartlyCleared(h, todo)[ip := Cleared(h.subHierarchies[ip])] == PartlyCleared(h, todo - {ip})
  {
  }

  lemma PartlyClearedDone(h: HierarchyValue)
    ensures HierarchyValue({}, PartlyCleared(h, {})) == Cleared(h)
  {
  }

  /** The packages of the sub-hierarchies of `h` under the keys in `done`. */
  ghost function PackagesAmong(h: HierarchyValue, done: set<Path>): (r: set<Unit>)
  {
    set ip | ip in done && ip in h.subHierarchies :: PackageOf(ip, h.subHierarchies[ip])
  }

  lemma PackagesAmongStep(h: HierarchyValue, done: set<Path>, ip: Path)
    requires ip in h.subHierarchies
    ensures PackagesAmong(h, done) + {PackageOf(ip, h.subHierarchies[ip])} == PackagesAmong(h, done + {ip})
  {
  }

  lemma PackagesAmongAll(h: HierarchyValue)
    ensures PackagesAmong(h, h.subHierarchies.Keys) == PackagesOf(h)
  {
  }
}
