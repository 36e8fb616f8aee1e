/** The repository of computation records of `compenv` (compenv/adapters/repository.py): records
    are filed in the DataJoint table facade under the primary key the translator gives back for
    their identifier. The repository and the services see a computation record as its identifier
    with the set of its distributions. */
module CompenvRepository {
  import opened Wrappers
  import opened DataJoint
  import opened PrimaryKeys
  import opened CompenvRecord
  import opened CompenvEntity
  import opened CompenvFacade
  import opened CompenvTranslator

  /** A computation record as the repository stores it. */
  datatype ComputationRecord = ComputationRecord(identifier: Identifier, distributions: set<Distribution>)

  /** `_persist_dists`: only the name and the version of each distribution. */
  function PersistDists(ds: set<Distribution>): (r: set<DJDistribution>)
    ensures forall d :: d in ds ==> DJDistribution(d.name, d.version) in r
    ensures forall e :: e in r ==> Distribution(e.distributionName, e.distributionVersion) in ds
  {
    set d | d in ds :: DJDistribution(d.name, d.version)
  }

  /** `_reconstitue_distributions`. */
  function ReconstituteDists(es: set<DJDistribution>): (r: set<Distribution>)
    ensures forall e :: e in es ==> Distribution(e.distributionName, e.distributionVersion) in r
    ensures forall d :: d in r ==> DJDistribution(d.name, d.version) in es
  {
    set e | e in es :: Distribution(e.distributionName, e.distributionVersion)
  }

  /** Persisting and reconstituting loses nothing, in either order. */
  lemma ReconstitutePersisted(ds: set<Distribution>, es: set<DJDistribution>)
    ensures ReconstituteDists(PersistDists(ds)) == ds
    ensures PersistDists(ReconstituteDists(es)) == es
  {
    assert ReconstituteDists(PersistDists(ds)) == ds by {
      forall d | d in ds ensures d in ReconstituteDists(PersistDists(ds)) {
        assert DJDistribution(d.name, d.version) in PersistDists(ds);
      }
    }
    assert PersistDists(ReconstituteDists(es)) == es by {
      forall e | e in es ensures e in PersistDists(ReconstituteDists(es)) {
        assert Distribution(e.distributionName, e.distributionVersion) in ReconstituteDists(es);
      }
    }
  }

  const RecordWithIdentifier := "Record with identifier '"

  class DJRepository {
    const translator: DJTranslator
    const table: DJTableFacade
    /** How the table writes out one of its keys as a dictionary, in its attribute order. */
    const itemsOf: Row -> seq<Item>

    ghost predicate Valid()
      reads this, table, table.factory
    {
      table.Valid()
    }

    constructor (translator: DJTranslator, table: DJTableFacade, itemsOf: Row -> seq<Item>)
      ensures this.translator == translator && this.table == table && this.itemsOf == itemsOf
    {
      this.translator := translator;
      this.table := table;
      this.itemsOf := itemsOf;
    }

    /** The key the translator gives back for an identifier it handed out, as a table row. */
    ghost function KeyOf(identifier: Identifier): Row
      requires identifier in translator.reverse
      reads this, translator
    {
      AsMap(translator.reverse[identifier])
    }

    /** What `get(identifier)` gives, in terms of the translator and the tables. */
    ghost function Lookup(identifier: Identifier): Result<ComputationRecord>
      requires Valid()
      reads this, translator, table, table.factory
    {
      if identifier !in translator.reverse then Err(KeyError(identifier))
      else
        var primary := KeyOf(identifier);
        if !table.factory.Contains(primary) then Err(KeyError(RecordWithIdentifier + identifier + DoesNotExist))
        else Ok(ComputationRecord(identifier, ReconstituteDists(Entities(table.factory.Fetch(DistributionPart, primary), primary))))
    }

    /** `add(comp_rec)`: the translator's KeyError when it never handed out the identifier; a
        ValueError when a record is stored under its key already; else the record's key and the
        names and versions of its distributions go into the table. */
    method Add(compRec: ComputationRecord) returns (r: Result<()>)
      requires Valid()
      requires compRec.identifier in translator.reverse ==> KeyOf(compRec.identifier).Keys == table.factory.heading
      modifies table.factory
      ensures Valid()
      ensures compRec.identifier !in translator.reverse ==>
        && r == Err(KeyError(compRec.identifier))
        && table.factory.master == old(table.factory.master) && table.factory.parts == old(table.factory.parts)
      ensures compRec.identifier in translator.reverse && KeyOf(compRec.identifier) in old(table.factory.master) ==>
        && r == Err(ValueError(RecordWithIdentifier + compRec.identifier + AlreadyExists))
        && table.factory.master == old(table.factory.master) && table.factory.parts == old(table.factory.parts)
      ensures compRec.identifier in translator.reverse && KeyOf(compRec.identifier) !in old(table.factory.master) ==>
        var primary := KeyOf(compRec.identifier);
        && r == Ok(())
        && table.factory.master == old(table.factory.master) + {primary}
        && table.factory.parts == old(table.factory.parts)[DistributionPart :=
             old(table.factory.parts)[DistributionPart] + PartRows(primary, PersistDists(compRec.distributions))]
    {
      var items :- translator.ToExternal(compRec.identifier);
      var primary := AsMap(items);
      var added := table.Add(DJComputationRecord(primary, PersistDists(compRec.distributions)));
      if added.Err? {
        return Err(ValueError(RecordWithIdentifier + compRec.identifier + AlreadyExists));
      }
      return Ok(());
    }

    /** `get(identifier)`: the translator's KeyError when it never handed out the identifier; a
        KeyError when no stored key matches its key; else the record with the distributions
        reconstituted from the table. */
    method Get(identifier: Identifier) returns (r: Result<ComputationRecord>)
      requires Valid()
      ensures identifier !in translator.reverse ==> r == Err(KeyError(identifier))
      ensures identifier in translator.reverse && !table.factory.Contains(KeyOf(identifier)) ==>
        r == Err(KeyError(RecordWithIdentifier + identifier + DoesNotExist))
      ensures identifier in translator.reverse && table.factory.Contains(KeyOf(identifier)) ==>
        var primary := KeyOf(identifier);
        r == Ok(ComputationRecord(identifier, ReconstituteDists(Entities(table.factory.Fetch(DistributionPart, primary), primary))))
      ensures r == Lookup(identifier)
    {
      var items :- translator.ToExternal(identifier);
      var got := table.Get(AsMap(items));
      if got.Err? {
        return Err(KeyError(RecordWithIdentifier + identifier + DoesNotExist));
      }
      return Ok(ComputationRecord(identifier, ReconstituteDists(got.value.distributions)));
    }

    /** The identifiers `iter(repo)` yields: one per stored key. */
    ghost function Identifiers(): (r: set<Identifier>)
      reads this, table, table.factory, translator
    {
      set p | p in table.factory.master :: translator.toIdentifier(itemsOf(p))
    }

    /** `iter(repo)`, run to the end: `to_internal` of each stored key, which also files each key
        with the translator under its identifier. */
    method Iter() returns (ids: set<Identifier>)
      modifies translator
      ensures ids == Identifiers()
      ensures forall p :: p in table.factory.master ==> translator.toIdentifier(itemsOf(p)) in translator.reverse
      ensures forall id :: id in translator.reverse ==> id in ids || (id in old(translator.reverse) && translator.reverse[id] == old(translator.reverse)[id])
      ensures forall id :: id in ids ==> exists p :: p in table.factory.master && translator.toIdentifier(itemsOf(p)) == id && translator.reverse[id] == itemsOf(p)
    {
      ids := {};
      var todo := table.factory.master;
      ghost var done: set<Row> := {};
      while todo != {}
        invariant todo + done == table.factory.master && todo !! done
        invariant ids == set p | p in done :: translator.toIdentifier(itemsOf(p))
        invariant forall p :: p in done ==> translator.toIdentifier(itemsOf(p)) in translator.reverse
        invariant forall id :: id in translator.reverse ==> id in ids || (id in old(translator.reverse) && translator.reverse[id] == old(translator.reverse)[id])
        invariant forall id :: id in ids ==> exists p :: p in done && translator.toIdentifier(itemsOf(p)) == id && translator.reverse[id] == itemsOf(p)
        decreases todo
      {
        var p :| p in todo;
        var key := new PrimaryKey(itemsOf(p));
        var id := translator.ToInternal(key);
        ids := ids + {id};
        todo := todo - {p};
        done := done + {p};
      }
    }

    /** `len(repo)`: the number of stored records. */
    function Length(): (n: nat)
      requires Valid()
      reads this, table, table.factory
      ensures n == |table.factory.master|
    {
      table.Length()
    }
  }

  /** Adding a record under an identifier the translator handed out, and getting that identifier,
      gives the record back; adding it a second time fails with a ValueError. */
  method AddThenGet(repo: DJRepository, compRec: ComputationRecord)
      returns (added: Result<()>, got: Result<ComputationRecord>, again: Result<()>)
    requires repo.Valid() && compRec.identifier in repo.translator.reverse
    requires repo.KeyOf(compRec.identifier).Keys == repo.table.factory.heading
    requires repo.KeyOf(compRec.identifier) !in repo.table.factory.master
    modifies repo.table.factory
    ensures added == Ok(()) && got == Ok(compRec)
    ensures again == Err(ValueError(RecordWithIdentifier + compRec.identifier + AlreadyExists))
  {
    var primary := repo.KeyOf(compRec.identifier);
    ghost var before := repo.table.factory.parts[DistributionPart];
    UnstoredKeyHasNoPartRows(repo.table.factory, primary);
    added := repo.Add(compRec);
    got := repo.Get(compRec.identifier);
    assert repo.table.factory.partFields[DistributionPart] == DistributionFields;
    GetAfterAdd(before, primary, PersistDists(compRec.distributions));
    ReconstitutePersisted(compRec.distributions, {});
    again := repo.Add(compRec);
  }
}
