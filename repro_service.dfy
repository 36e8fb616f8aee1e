/** The record use-case of `repro` (repro/service/record.py): execute a computation and file its
    record in the repository under the computation's identifier. */
module ReproService {
  import opened Wrappers
  import opened ReproModel

  /** The repository the use-case assigns to: computation records by identifier. */
  class ComputationRecordRepository<R> {
    var records: map<string, ComputationRecord<R>>

    constructor ()
      ensures records == map[]
    {
      records := map[];
    }

    /** `repo[identifier] = record`. */
    method Store(identifier: string, record: ComputationRecord<R>)
      modifies this
      ensures records == old(records)[identifier := record]
    {
      records := records[identifier := record];
    }
  }

  /** `record(repo, identifier, trigger)`: a fresh computation in `environment` runs `trigger` once
      between two records of the environment. If the trigger raises, the exception propagates and
      the repository is left alone; else the record taken after the trigger is filed under
      `identifier`, with that identifier, and no other entry changes. */
  method Record<W, R(==)>(repo: ComputationRecordRepository<R>, environment: Environment<W, R>, identifier: string, trigger: Trigger<W>)
      returns (r: Result<()>)
    modifies repo, environment
    ensures
      var before := environment.recordOf(old(environment.world));
      var after := environment.recordOf(trigger.effect(old(environment.world)));
      && environment.world == trigger.effect(old(environment.world))
      && environment.events == old(environment.events) + [Recorded(before), Triggered, Recorded(after)]
      && (trigger.raises ==> r == Err(Raised) && repo.records == old(repo.records))
      && (!trigger.raises ==>
            r == Ok(()) && repo.records == old(repo.records)[identifier := ComputationRecord(identifier, after)])
  {
    var computation := new Computation(identifier, environment, trigger);
    var executed := computation.Execute();
    if executed.Err? {
      return Err(executed.error);
    }
    repo.Store(identifier, executed.value);
    return Ok(());
  }
}
