/** The computation engine of `repro` (repro/model/model.py): a computation runs its trigger once
    inside a consistency check, which records the environment before and after the trigger and
    reports whether the two records agree.

    The engine is generic: `W` is the state the injected finders of the environment read (the
    installed distributions and the loaded modules) and `R` is the record taken of it. The trigger
    is arbitrary code, modelled as a change of that state that may end in an exception. */
module ReproModel {
  import opened Wrappers
  import opened ReproRecord

  /** The callable a computation runs: how it changes the environment, and whether it raises. */
  datatype Trigger<!W> = Trigger(effect: W -> W, raises: bool)

  /** The association of an executed computation with the record of its environment. */
  datatype ComputationRecord<R> = ComputationRecord(identifier: string, record: R)

  /** What happens to the environment, in order: records taken of it and calls of a trigger. */
  datatype Event<R> = Recorded(record: R) | Triggered

  const AlreadyExecuted := "Computation already executed!"
  const EnvironmentChanged := "Environment changed during execution!"
  const SuccessInBlock := "Can not access 'success' attribute while still in with block!"
  const RecordInBlock := "Can not access 'record' attribute while still in with block!"

  /** The current execution environment: the state its finders read, and how a record is taken of
      that state. `events` is the history of the environment, kept for stating properties only. */
  class Environment<W, R> {
    var world: W
    const recordOf: W -> R
    ghost var events: seq<Event<R>>

    constructor (world: W, recordOf: W -> R)
      ensures this.world == world && this.recordOf == recordOf && events == []
    {
      this.world := world;
      this.recordOf := recordOf;
      events := [];
    }

    /** `Environment.record()`: a record of the current state, which it leaves as it is. */
    method Record() returns (r: R)
      modifies this
      ensures r == recordOf(world)
      ensures world == old(world) && events == old(events) + [Recorded(r)]
    {
      r := recordOf(world);
      events := events + [Recorded(r)];
    }

    /** Calling the trigger: the state changes by its effect, then it raises or returns. */
    method Run(trigger: Trigger<W>) returns (raised: bool)
      modifies this
      ensures raised == trigger.raises
      ensures world == trigger.effect(old(world)) && events == old(events) + [Triggered]
    {
      world := trigger.effect(world);
      events := events + [Triggered];
      raised := trigger.raises;
    }
  }

  /** `_ConsistencyCheck`: entering records the environment; exiting records it again and compares. */
  class ConsistencyCheck<W, R(==)> {
    const environment: Environment<W, R>
    var success: Option<bool>
    var recordBefore: Option<R>
    var recordAfter: Option<R>

    /** `Environment.consistency_check()`: a check of `environment` that has not been entered. */
    constructor (environment: Environment<W, R>)
      ensures this.environment == environment
      ensures success == None && recordBefore == None && recordAfter == None
    {
      this.environment := environment;
      success := None;
      recordBefore := None;
      recordAfter := None;
    }

    /** `success` is readable only once the block has been exited. */
    method Success() returns (r: Result<bool>)
      ensures success.None? ==> r == Err(RuntimeError(SuccessInBlock))
      ensures success.Some? ==> r == Ok(success.value)
    {
      if success == None {
        return Err(RuntimeError(SuccessInBlock));
      }
      return Ok(success.value);
    }

    /** `record` is readable only once the block has been exited: it is the record taken then. */
    method FinalRecord() returns (r: Result<R>)
      ensures recordAfter.None? ==> r == Err(RuntimeError(RecordInBlock))
      ensures recordAfter.Some? ==> r == Ok(recordAfter.value)
    {
      if recordAfter == None {
        return Err(RuntimeError(RecordInBlock));
      }
      return Ok(recordAfter.value);
    }

    /** `__enter__`: the record before the block. */
    method Enter()
      modifies this, environment
      ensures recordBefore == Some(environment.recordOf(old(environment.world)))
      ensures recordAfter == old(recordAfter) && success == old(success)
      ensures environment.world == old(environment.world)
      ensures environment.events == old(environment.events) + [Recorded(recordBefore.value)]
    {
      var r := environment.Record();
      recordBefore := Some(r);
    }

    /** `__exit__`, with or without an exception: the record after the block, and whether it equals
        the one from before (never equal when the block was not entered). */
    method Exit()
      modifies this, environment
      ensures recordAfter == Some(environment.recordOf(old(environment.world)))
      ensures success == Some(old(recordBefore) == recordAfter)
      ensures recordBefore == old(recordBefore)
      ensures environment.world == old(environment.world)
      ensures environment.events == old(environment.events) + [Recorded(recordAfter.value)]
    {
      var r := environment.Record();
      recordAfter := Some(r);
      success := Some(recordBefore == Some(r));
    }
  }

  /** A computation: an identifier, the environment it runs in and its trigger. It can be executed
      once; `warnings` are the warnings it has issued. */
  class Computation<W, R(==)> {
    const identifier: string
    const environment: Environment<W, R>
    const trigger: Trigger<W>
    var isExecuted: bool
    ghost var warnings: seq<string>

    constructor (identifier: string, environment: Environment<W, R>, trigger: Trigger<W>)
      ensures this.identifier == identifier && this.environment == environment && this.trigger == trigger
      ensures !isExecuted && warnings == []
    {
      this.identifier := identifier;
      this.environment := environment;
      this.trigger := trigger;
      isExecuted := false;
      warnings := [];
    }

    /** `execute()`. A second execution fails and changes nothing. Otherwise the environment is
        recorded, the trigger runs once, and the environment is recorded again, whether or not the
        trigger raised. An exception of the trigger propagates and leaves the computation
        unexecuted; else there is a warning exactly when the two records differ, and the result is
        the record taken after the trigger. */
    method Execute() returns (r: Result<ComputationRecord<R>>)
      modifies this, environment
      ensures old(isExecuted) ==> r == Err(RuntimeError(AlreadyExecuted))
      ensures old(isExecuted) ==> unchanged(this, environment)
      ensures !old(isExecuted) ==>
        var before := environment.recordOf(old(environment.world));
        var after := environment.recordOf(trigger.effect(old(environment.world)));
        && environment.world == trigger.effect(old(environment.world))
        && environment.events == old(environment.events) + [Recorded(before), Triggered, Recorded(after)]
        && (trigger.raises ==> r == Err(Raised) && !isExecuted && warnings == old(warnings))
        && (!trigger.raises ==>
              && r == Ok(ComputationRecord(identifier, after))
              && isExecuted
              && warnings == old(warnings) + (if before == after then [] else [EnvironmentChanged]))
    {
      if isExecuted {
        return Err(RuntimeError(AlreadyExecuted));
      }
      var check := new ConsistencyCheck(environment);
      check.Enter();
      var raised := environment.Run(trigger);
      check.Exit();
      if raised {
        return Err(Raised);
      }
      var success := check.Success();
      if !success.value {
        warnings := warnings + [EnvironmentChanged];
      }
      isExecuted := true;
      var record := check.FinalRecord();
      return Ok(ComputationRecord(identifier, record.value));
    }
  }

  /** What the finders of `repro/model/record.py` return: the installed distributions and the
      loaded modules. */
  datatype World = World(installed: set<Distribution>, activeModules: set<Module>)

  /** The installed distributions that share at least one module with the active ones
      (`id & active_modules` is the intersection of module sets, true when non-empty). */
  function ActiveDistributions(w: World): (r: set<Distribution>)
    ensures r <= w.installed
    ensures forall d :: d in w.installed ==> (d in r <==> exists m :: m in d.modules && m in w.activeModules)
  {
    var r := set d | d in w.installed && d.modules * w.activeModules != {};
    assert forall d :: d in w.installed ==> (d in r <==> exists m :: m in d.modules && m in w.activeModules) by {
      forall d | d in w.installed {
        MeetIffShare(d.modules, w.activeModules);
      }
    }
    r
  }

  /** When the loaded modules are exactly the active modules of the installed distributions, the
      distributions meeting them are the ones `InstalledDistributions.active` keeps. */
  lemma ActiveDistributionsAreActive(w: World)
    requires forall m :: m in w.activeModules ==> m.isActive
    requires forall d :: d in w.installed ==> forall m :: m in d.modules && m.isActive ==> m in w.activeModules
    ensures ActiveDistributions(w) == Active(w.installed)
  {
    forall d | d in w.installed
      ensures d in ActiveDistributions(w) <==> d in Active(w.installed)
    {
      if d in ActiveDistributions(w) {
        var m :| m in d.modules && m in w.activeModules;
        assert m.isActive;
      }
      if d in Active(w.installed) {
        var m :| m in d.modules && m.isActive;
        assert m in w.activeModules;
      }
    }
  }

  lemma MeetIffShare<T>(s: set<T>, t: set<T>)
    ensures s * t != {} <==> exists m :: m in s && m in t
  {
    if s * t != {} {
      var m :| m in s * t;
      assert m in s && m in t;
    } else {
      forall m | m in s ensures m !in t {
        assert m !in s * t;
      }
    }
  }

  /** The field names of `Record`. */
  const RecordFields: set<string> := {"installed_distributions", "active_modules"}

  /** Calling the `Record` dataclass with keyword arguments for `keywords`: any missing or
      unexpected keyword is a TypeError. */
  function MakeRecord(keywords: set<string>, installed: set<Distribution>, activeModules: set<Module>): (r: Result<Record>)
    ensures r.Ok? <==> keywords == RecordFields
    ensures r.Ok? ==> r.value.installedDistributions == installed && r.value.activeModules == activeModules
    ensures r.Err? ==> r.error == TypeError
  {
    if keywords == RecordFields then Ok(Record(installed, activeModules)) else Err(TypeError)
  }

  /** `Environment.record()` as written: it passes the active distributions as a third keyword. */
  function EnvironmentRecordAsWritten(w: World): Result<Record> {
    MakeRecord({"installed_distributions", "active_distributions", "active_modules"}, w.installed, w.activeModules)
  }

  /** As written, recording the environment raises for every environment. */
  lemma EnvironmentRecordAsWrittenFails(w: World)
    ensures EnvironmentRecordAsWritten(w) == Err(TypeError)
  {
    assert "active_distributions" !in RecordFields;
  }

  /** `Environment.record()` as its tests expect it: the installed distributions and the active
      modules, with the keywords `Record` has. */
  function EnvironmentRecord(w: World): (r: Record)
    ensures MakeRecord(RecordFields, w.installed, w.activeModules) == Ok(r)
  {
    Record(w.installed, w.activeModules)
  }

  /** Recording an environment that nothing changed gives the same record twice, so the check of a
      trigger that leaves the state alone succeeds; and records differ exactly when the installed
      distributions or the active modules do. */
  lemma RecordsDifferIffWorldsDo(v: World, w: World)
    ensures EnvironmentRecord(v) == EnvironmentRecord(w) <==> v == w
  {
  }

  /** `repro.service.record`'s computation, on the environment that records with
      `EnvironmentRecord`: executing it once warns exactly when the trigger changed the installed
      distributions or the loaded modules, and the result is the record of the changed state. */
  method ExecuteRecordedComputation(identifier: string, env: Environment<World, Record>, trigger: Trigger<World>)
    returns (r: Result<ComputationRecord<Record>>, c: Computation<World, Record>)
    requires env.recordOf == EnvironmentRecord
    modifies env
    ensures fresh(c) && c.environment == env && c.trigger == trigger
    ensures env.world == trigger.effect(old(env.world))
    ensures trigger.raises ==> r == Err(Raised) && !c.isExecuted && c.warnings == []
    ensures !trigger.raises ==>
      && r == Ok(ComputationRecord(identifier, EnvironmentRecord(trigger.effect(old(env.world)))))
      && c.isExecuted
      && c.warnings == (if trigger.effect(old(env.world)) == old(env.world) then [] else [EnvironmentChanged])
  {
    ghost var before := env.world;
    c := new Computation(identifier, env, trigger);
    r := c.Execute();
    RecordsDifferIffWorldsDo(before, trigger.effect(before));
  }
}
