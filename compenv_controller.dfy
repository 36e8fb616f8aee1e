/** The controller of `compenv` (compenv/adapters/controller.py): it translates DataJoint primary
    keys to identifiers, builds the request of a service from them and calls that service once. */
module CompenvController {
  import opened Wrappers
  import opened PrimaryKeys
  import opened CompenvFacade
  import opened CompenvTranslator
  import opened CompenvRepository
  import opened CompenvServices
  import ReproModel

  class DJController<W> {
    /** `services["record"]` and `services["diff"]`. */
    const recordService: RecordService<W>
    const diffService: DiffService
    const translator: DJTranslator

    /** Both services reach their records through the controller's translator. */
    ghost predicate Valid()
      reads this, recordService, diffService, recordService.repo, diffService.repo
      reads recordService.repo.table, recordService.repo.table.factory, diffService.repo.table, diffService.repo.table.factory
    {
      && recordService.repo.translator == translator && recordService.repo.Valid()
      && diffService.repo.translator == translator && diffService.repo.Valid()
    }

    constructor (recordService: RecordService<W>, diffService: DiffService, translator: DJTranslator)
      ensures this.recordService == recordService && this.diffService == diffService && this.translator == translator
    {
      this.recordService := recordService;
      this.diffService := diffService;
      this.translator := translator;
    }

    /** `record(key, make)`: the key is translated, which files it with the translator, and the
        record service is called once with its identifier and the trigger `make(key)`. */
    method Record(key: PrimaryKey, make: seq<Item> -> ReproModel.Trigger<W>) returns (r: Result<()>)
      requires recordService.repo.translator == translator && recordService.repo.Valid()
      requires AsMap(key.items).Keys == recordService.repo.table.factory.heading
      modifies translator, recordService, recordService.environment, recordService.repo.table.factory, recordService.outputPort
      ensures recordService.repo.Valid()
      ensures var identifier := translator.toIdentifier(key.items);
        && translator.reverse == old(translator.reverse)[identifier := key.items]
        && recordService.requests == old(recordService.requests) + [RecordRequest(identifier, make(key.items))]
        && recordService.Recorded(RecordRequest(identifier, make(key.items)), r, old(recordService.environment.world), old(recordService.environment.events),
                                  old(recordService.repo.table.factory.master), old(recordService.repo.table.factory.parts))
      ensures r.Ok? ==> recordService.outputPort.responses == old(recordService.outputPort.responses) + [RecordResponse]
      ensures r.Err? ==> recordService.outputPort.responses == old(recordService.outputPort.responses)
    {
      var identifier := translator.ToInternal(key);
      var request := RecordRequest(identifier, make(key.items));
      r := recordService.Call(request);
    }

    /** `diff(key1, key2)`: both keys are translated, the first one first, and the diff service is
        called once with the two identifiers in that order. */
    method Diff(key1: PrimaryKey, key2: PrimaryKey) returns (r: Result<()>)
      requires diffService.repo.translator == translator && diffService.repo.Valid()
      modifies translator, diffService, diffService.outputPort
      ensures diffService.repo.Valid()
      ensures var identifier1 := translator.toIdentifier(key1.items);
        var identifier2 := translator.toIdentifier(key2.items);
        && translator.reverse == old(translator.reverse)[identifier1 := key1.items][identifier2 := key2.items]
        && diffService.requests == old(diffService.requests) + [DiffRequest(identifier1, identifier2)]
        && var diff := DiffOf(diffService.repo.Lookup(identifier1), diffService.repo.Lookup(identifier2));
        && (diff.Ok? ==> r == Ok(()) && diffService.outputPort.responses == old(diffService.outputPort.responses) + [diff.value])
        && (diff.Err? ==> r == Err(diff.error) && diffService.outputPort.responses == old(diffService.outputPort.responses))
    {
      var identifier1 := translator.ToInternal(key1);
      var identifier2 := translator.ToInternal(key2);
      r := diffService.Call(DiffRequest(identifier1, identifier2));
    }
  }

  /** After `record(key, …)` the key can be translated back, and a trigger that returns leaves
      the record stored under that very key. */
  method RecordFilesKey<W>(controller: DJController<W>, key: PrimaryKey, make: seq<Item> -> ReproModel.Trigger<W>)
      returns (r: Result<()>, back: Result<seq<Item>>)
    requires controller.recordService.repo.translator == controller.translator && controller.recordService.repo.Valid()
    requires AsMap(key.items).Keys == controller.recordService.repo.table.factory.heading
    modifies controller.translator, controller.recordService, controller.recordService.environment
    modifies controller.recordService.repo.table.factory, controller.recordService.outputPort
    ensures back == Ok(key.items)
    ensures make(key.items).raises ==> r == Err(Wrappers.Raised)
    ensures !make(key.items).raises ==> AsMap(key.items) in controller.recordService.repo.table.factory.master
  {
    ghost var master := controller.recordService.repo.table.factory.master;
    r := controller.Record(key, make);
    var identifier := controller.translator.toIdentifier(key.items);
    assert controller.recordService.repo.KeyOf(identifier) == AsMap(key.items);
    back := controller.translator.ToExternal(identifier);
  }

  /** Diffing a key that matches some stored key, complete or partial, with itself sends
      `differ == false` to the output port. */
  method DiffWithItself<W>(controller: DJController<W>, key: PrimaryKey) returns (r: Result<()>)
    requires controller.Valid() && controller.diffService.repo.table.factory.Contains(AsMap(key.items))
    modifies controller.translator, controller.diffService, controller.diffService.outputPort
    ensures r == Ok(())
    ensures controller.diffService.outputPort.responses == old(controller.diffService.outputPort.responses) + [DiffResponse(false)]
  {
    r := controller.Diff(key, key);
    var identifier := controller.translator.toIdentifier(key.items);
    DiffIsSymmetricAndIrreflexive(controller.diffService.repo.Lookup(identifier), controller.diffService.repo.Lookup(identifier));
  }
}
