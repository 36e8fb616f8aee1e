/** The units Python code is organised in, and the distributions that ship them (repro/model.py):
    a module, or a package of further units; containment looks through packages recursively. */
module ReproUnits {
  import opened Wrappers

  /** `Module(name, file)` or `Package(name, file, units)`. Both are immutable values; a package
      is equal to another exactly when name, file and units are. */
  datatype Unit =
    | Module(name: string, file: Option<string>)
    | Package(name: string, file: Option<string>, units: set<Unit>)

  /** The argument of `in`: a unit, or any other Python object. */
  datatype Value = UnitValue(unit: Unit) | Other

  /** `u in self` for a unit `u`: `u` is `self`, or some unit of a package holds it. */
  predicate Holds(self: Unit, u: Unit)
    decreases self
  {
    u == self || (self.Package? && exists v :: v in self.units && Holds(v, u))
  }

  /** `value in self`: only units can be looked for. */
  function Contains(self: Unit, value: Value): (r: Result<bool>)
    ensures r.Err? <==> value.Other?
    ensures r.Err? ==> r.error == TypeError
    ensures value.UnitValue? ==> r.value == Holds(self, value.unit)
  {
    if value.Other? then Err(TypeError) else Ok(Holds(self, value.unit))
  }

  /** A module holds only itself. */
  lemma ModuleHoldsOnlyItself(self: Unit, u: Unit)
    requires self.Module?
    ensures Holds(self, u) <==> u == self
  {
  }

  /** A package holds itself and whatever one of its units holds. */
  lemma PackageHoldsItsUnits(self: Unit, v: Unit, u: Unit)
    requires self.Package? && v in self.units && Holds(v, u)
    ensures Holds(self, u)
  {
  }

  /** Every unit reachable from `self` through packages, `self` included. */
  ghost function Descendants(self: Unit): (r: set<Unit>)
    decreases self
  {
    {self} + (if self.Module? then {} else set v, w | v in self.units && w in Descendants(v) :: w)
  }

  /** Containment is reachability: `u in self` exactly when `u` is a descendant of `self`. */
  lemma {:induction false} HoldsIsDescent(self: Unit, u: Unit)
    ensures Holds(self, u) <==> u in Descendants(self)
    decreases self
  {
    if self.Package? {
      if Holds(self, u) && u != self {
        var v :| v in self.units && Holds(v, u);
        HoldsIsDescent(v, u);
      }
      if u in Descendants(self) && u != self {
        var v :| v in self.units && u in Descendants(v);
        HoldsIsDescent(v, u);
      }
    }
  }

  /** Containment is transitive: a unit held by a held unit is held. */
  lemma {:induction false} HoldsIsTransitive(a: Unit, b: Unit, c: Unit)
    requires Holds(a, b) && Holds(b, c)
    ensures Holds(a, c)
    decreases a
  {
    if a != b {
      var v :| v in a.units && Holds(v, b);
      HoldsIsTransitive(v, b, c);
    }
  }

  /** A distribution of `repro/model.py`: a name, a version and its set of modules. */
  datatype Distribution = Distribution(name: string, version: string, modules: set<Unit>)

  /** `value in d`: false for anything but a module, else membership in the module set. */
  function DistributionContains(d: Distribution, value: Value): (r: bool)
    ensures !(value.UnitValue? && value.unit.Module?) ==> !r
    ensures value.UnitValue? && value.unit.Module? ==> (r <==> value.unit in d.modules)
  {
    value.UnitValue? && value.unit.Module? && value.unit in d.modules
  }

  /** The module set holds modules only, as its annotation says. */
  predicate HoldsModulesOnly(d: Distribution) {
    forall m :: m in d.modules ==> m.Module?
  }

  /** `iter(d)` and `len(d)` are those of the module set, and iterating gives exactly what `in`
      finds. */
  lemma IterationAgreesWithMembership(d: Distribution)
    requires HoldsModulesOnly(d)
    ensures forall u :: DistributionContains(d, UnitValue(u)) <==> u in d.modules
    ensures !DistributionContains(d, Other)
  {
  }
}
