/** The use cases of `compenv` (compenv/service/abstract.py, compenv/service/record.py,
    compenv/service/diff.py): a service executes a request and passes the response to its output
    port. The record service runs a computation and adds its record to the repository; the diff
    service tells whether two stored records hold different distributions. */
module CompenvServices {
  import opened Wrappers
  import opened DataJoint
  import opened CompenvRecord
  import opened CompenvEntity
  import opened CompenvFacade
  import opened CompenvTranslator
  import opened CompenvRepository
  import ReproModel

  /** Where a service sends its responses; `responses` is what it has received, in order. */
  class OutputPort<V> {
    ghost var responses: seq<V>

    constructor ()
      ensures responses == []
    {
      responses := [];
    }

    method Receive(response: V)
      modifies this
      ensures responses == old(responses) + [response]
    {
      responses := responses + [response];
    }
  }

  datatype RecordRequest<!W> = RecordRequest(identifier: Identifier, trigger: ReproModel.Trigger<W>)
  datatype RecordResponse = RecordResponse
  datatype DiffRequest = DiffRequest(identifier1: Identifier, identifier2: Identifier)
  datatype DiffResponse = DiffResponse(differ: bool)

  /** The outcome of the repository's `add` for a record, on the tables before and after, as seen
      by a caller that lets its exceptions through and otherwise returns something. */
  ghost predicate AddOutcome<T>(repo: DJRepository, compRec: ComputationRecord, r: Result<T>,
                             master: set<Row>, parts: map<string, set<Row>>,
                             master': set<Row>, parts': map<string, set<Row>>)
    requires DistributionPart in parts
    reads repo, repo.translator
  {
    if compRec.identifier !in repo.translator.reverse then
      r == Err(KeyError(compRec.identifier)) && master' == master && parts' == parts
    else
      var primary := repo.KeyOf(compRec.identifier);
      if primary in master then
        r == Err(ValueError(RecordWithIdentifier + compRec.identifier + AlreadyExists)) && master' == master && parts' == parts
      else
        && r.Ok?
        && master' == master + {primary}
        && parts' == parts[DistributionPart := parts[DistributionPart] + PartRows(primary, PersistDists(compRec.distributions))]
  }

  class RecordService<W> {
    const outputPort: OutputPort<RecordResponse>
    const repo: DJRepository
    /** The environment a new `Environment()` observes. */
    const environment: ReproModel.Environment<W, set<Distribution>>
    /** The requests the service was called with, in order. */
    ghost var requests: seq<RecordRequest<W>>

    constructor (outputPort: OutputPort<RecordResponse>, repo: DJRepository, environment: ReproModel.Environment<W, set<Distribution>>)
      ensures this.outputPort == outputPort && this.repo == repo && this.environment == environment
      ensures requests == []
    {
      this.outputPort := outputPort;
      this.repo := repo;
      this.environment := environment;
      requests := [];
    }

    /** What executing a record request does, from the environment's world and events and the
        tables before: the environment is recorded, the trigger runs once, and the environment is
        recorded again; an exception of the trigger propagates with the tables untouched, and
        otherwise the record taken after the trigger goes to `add`. */
    ghost predicate Recorded<T>(request: RecordRequest<W>, r: Result<T>, world: W, events: seq<ReproModel.Event<set<Distribution>>>,
                                master: set<Row>, parts: map<string, set<Row>>)
      requires DistributionPart in parts
      reads this, environment, repo, repo.translator, repo.table, repo.table.factory
    {
      var before := environment.recordOf(world);
      var after := environment.recordOf(request.trigger.effect(world));
      && environment.world == request.trigger.effect(world)
      && environment.events == events + [ReproModel.Recorded(before), ReproModel.Triggered, ReproModel.Recorded(after)]
      && (request.trigger.raises ==>
            r == Err(Raised) && repo.table.factory.master == master && repo.table.factory.parts == parts)
      && (!request.trigger.raises ==>
            AddOutcome(repo, ComputationRecord(request.identifier, after), r, master, parts, repo.table.factory.master, repo.table.factory.parts))
    }

    /** `_execute(request)`: a computation under the request's identifier is executed, and its
        record is added to the repository. */
    method Execute(request: RecordRequest<W>) returns (r: Result<RecordResponse>)
      requires repo.Valid()
      requires request.identifier in repo.translator.reverse ==> repo.KeyOf(request.identifier).Keys == repo.table.factory.heading
      modifies environment, repo.table.factory
      ensures repo.Valid()
      ensures Recorded(request, r, old(environment.world), old(environment.events), old(repo.table.factory.master), old(repo.table.factory.parts)) && (r.Ok? ==> r.value == RecordResponse)
    {
      var computation := new ReproModel.Computation(request.identifier, environment, request.trigger);
      var executed := computation.Execute();
      if executed.Err? {
        return Err(executed.error);
      }
      var added := repo.Add(ComputationRecord(request.identifier, executed.value.record));
      if added.Err? {
        return Err(added.error);
      }
      return Ok(RecordResponse);
    }

    /** `__call__(request)`: the response of a successful execution goes to the output port once;
        an exception reaches the caller and the output port gets nothing. */
    method Call(request: RecordRequest<W>) returns (r: Result<()>)
      requires repo.Valid()
      requires request.identifier in repo.translator.reverse ==> repo.KeyOf(request.identifier).Keys == repo.table.factory.heading
      modifies this, environment, repo.table.factory, outputPort
      ensures repo.Valid()
      ensures requests == old(requests) + [request]
      ensures Recorded(request, r, old(environment.world), old(environment.events), old(repo.table.factory.master), old(repo.table.factory.parts))
      ensures r.Ok? ==> outputPort.responses == old(outputPort.responses) + [RecordResponse]
      ensures r.Err? ==> outputPort.responses == old(outputPort.responses)
    {
      requests := requests + [request];
      var response := Execute(request);
      if response.Err? {
        return Err(response.error);
      }
      outputPort.Receive(response.value);
      return Ok(());
    }
  }

  /** Whether two records differ: exactly when their distributions do. */
  function Differ(a: ComputationRecord, b: ComputationRecord): (r: bool) {
    a.distributions != b.distributions
  }

  /** The diff of two looked-up records: the first KeyError, in order, or whether they differ. */
  function DiffOf(a: Result<ComputationRecord>, b: Result<ComputationRecord>): (r: Result<DiffResponse>)
    ensures r.Ok? <==> a.Ok? && b.Ok?
    ensures a.Err? ==> r == Err(a.error)
    ensures a.Ok? && b.Err? ==> r == Err(b.error)
    ensures r.Ok? ==> (r.value.differ <==> a.value.distributions != b.value.distributions)
  {
    if a.Err? then Err(a.error)
    else if b.Err? then Err(b.error)
    else Ok(DiffResponse(Differ(a.value, b.value)))
  }

  /** A record does not differ from itself, and the diff of two stored records does not depend
      on their order. */
  lemma DiffIsSymmetricAndIrreflexive(a: Result<ComputationRecord>, b: Result<ComputationRecord>)
    ensures a.Ok? ==> DiffOf(a, a) == Ok(DiffResponse(false))
    ensures a.Ok? && b.Ok? ==> DiffOf(a, b) == DiffOf(b, a)
  {
  }

  /** Two stored records differ exactly when some name and version is installed in one of them
      and not in the other. */
  lemma DiffIffSomeRelease(a: ComputationRecord, b: ComputationRecord)
    ensures DiffOf(Ok(a), Ok(b)).Ok?
    ensures DiffOf(Ok(a), Ok(b)).value.differ <==>
      exists name, version :: (Distribution(name, version) in a.distributions) != (Distribution(name, version) in b.distributions)
  {
    if a.distributions != b.distributions {
      var d :| (d in a.distributions) != (d in b.distributions);
      assert (Distribution(d.name, d.version) in a.distributions) != (Distribution(d.name, d.version) in b.distributions);
    }
  }

  class DiffService {
    const outputPort: OutputPort<DiffResponse>
    const repo: DJRepository
    /** The requests the service was called with, in order. */
    ghost var requests: seq<DiffRequest>

    constructor (outputPort: OutputPort<DiffResponse>, repo: DJRepository)
      ensures this.outputPort == outputPort && this.repo == repo && requests == []
    {
      this.outputPort := outputPort;
      this.repo := repo;
      requests := [];
    }

    /** `_execute(request)`: the two records are got in order, and a KeyError of either reaches
        the caller. */
    method Execute(request: DiffRequest) returns (r: Result<DiffResponse>)
      requires repo.Valid()
      ensures r == DiffOf(repo.Lookup(request.identifier1), repo.Lookup(request.identifier2))
    {
      var rec1 :- repo.Get(request.identifier1);
      var rec2 :- repo.Get(request.identifier2);
      return Ok(DiffResponse(rec1.distributions != rec2.distributions));
    }

    /** `__call__(request)`. */
    method Call(request: DiffRequest) returns (r: Result<()>)
      requires repo.Valid()
      modifies this, outputPort
      ensures requests == old(requests) + [request]
      ensures var diff := DiffOf(repo.Lookup(request.identifier1), repo.Lookup(request.identifier2));
        && (diff.Ok? ==> r == Ok(()) && outputPort.responses == old(outputPort.responses) + [diff.value])
        && (diff.Err? ==> r == Err(diff.error) && outputPort.responses == old(outputPort.responses))
    {
      requests := requests + [request];
      var response :- Execute(request);
      outputPort.Receive(response);
      return Ok(());
    }
  }
}
