/** The facade of `compenv` around its DataJoint record table (compenv/infrastructure/facade.py,
    and the same class in compenv/infrastructure/table.py): a computation record is stored as a
    master row holding its key and one part row per distribution. */
module CompenvFacade {
  import opened Wrappers
  import opened DataJoint
  import opened CompenvEntity

  /** The part rows of a record: its key merged with each distribution's attributes. */
  function PartRows(primary: Row, distributions: set<DJDistribution>): (r: set<Row>)
    ensures forall d :: d in distributions ==> Merge(primary, AsDict(d)) in r
    ensures forall row :: row in r ==> exists d :: d in distributions && row == Merge(primary, AsDict(d))
  {
    set d | d in distributions :: Merge(primary, AsDict(d))
  }

  /** Each part row of a record holds the record's key and a distribution's attributes. */
  lemma PartRowsHaveKey(primary: Row, distributions: set<DJDistribution>)
    requires primary.Keys !! DistributionFields
    ensures forall row :: row in PartRows(primary, distributions) ==>
      row.Keys == primary.Keys + DistributionFields && Project(row, primary.Keys) == primary
  {
    forall row | row in PartRows(primary, distributions)
      ensures row.Keys == primary.Keys + DistributionFields && Project(row, primary.Keys) == primary
    {
      var d :| d in distributions && row == Merge(primary, AsDict(d));
      ProjectMerge(primary, AsDict(d));
    }
  }

  /** The distribution entities rebuilt from part rows of a key: each row with the key stripped,
      read back by `from_mapping`. Rows that do not hold both attributes have no entity. */
  function Entities(rows: set<Row>, primary: Row): (r: set<DJDistribution>)
    ensures forall row :: row in rows && FromMapping(Strip(row, primary)).Ok? ==> FromMapping(Strip(row, primary)).value in r
  {
    set row | row in rows && FromMapping(Strip(row, primary)).Ok? :: FromMapping(Strip(row, primary)).value
  }

  const DoesNotExist := "' does not exist!"
  const AlreadyExists := "' already exists!"
  const RecordWithKey := "Computation record with primary key '"

  class DJTableFacade {
    const factory: Tables
    /** How a key is written in a message. */
    const keyText: Row -> string

    /** The tables have one part, `Distribution`, with the two attributes of a distribution. */
    ghost predicate Valid()
      reads this, factory
    {
      factory.Valid() && factory.partFields == map[DistributionPart := DistributionFields]
    }

    constructor (factory: Tables, keyText: Row -> string)
      ensures this.factory == factory && this.keyText == keyText
    {
      this.factory := factory;
      this.keyText := keyText;
    }

    /** `add(master_entity)`: a ValueError when the key is stored already, and then no part row is
        written; else the key goes into the master table and one part row per distribution into
        the part table. */
    method Add(entity: DJComputationRecord) returns (r: Result<()>)
      requires Valid() && entity.primary.Keys == factory.heading
      modifies factory
      ensures Valid()
      ensures entity.primary in old(factory.master) ==>
        && r == Err(ValueError(RecordWithKey + keyText(entity.primary) + AlreadyExists))
        && factory.master == old(factory.master) && factory.parts == old(factory.parts)
      ensures entity.primary !in old(factory.master) ==>
        && r == Ok(())
        && factory.master == old(factory.master) + {entity.primary}
        && factory.parts == old(factory.parts)[DistributionPart := old(factory.parts)[DistributionPart] + PartRows(entity.primary, entity.distributions)]
    {
      var inserted := factory.Insert1(entity.primary);
      if !inserted {
        return Err(ValueError(RecordWithKey + keyText(entity.primary) + AlreadyExists));
      }
      var rows := PartRows(entity.primary, entity.distributions);
      assert factory.partFields[DistributionPart] == DistributionFields;
      PartRowsHaveKey(entity.primary, entity.distributions);
      factory.Insert(DistributionPart, rows);
      return Ok(());
    }

    /** `get(primary)`: a KeyError when no stored key matches; else the record of the key with the
        distributions rebuilt from the part rows that match it, which for a partial key are the
        rows of every stored key that extends it. */
    method Get(primary: Row) returns (r: Result<DJComputationRecord>)
      requires Valid()
      ensures !factory.Contains(primary) ==> r == Err(KeyError(RecordWithKey + keyText(primary) + DoesNotExist))
      ensures factory.Contains(primary) ==>
        r == Ok(DJComputationRecord(primary, Entities(factory.Fetch(DistributionPart, primary), primary)))
    {
      if !factory.Contains(primary) {
        return Err(KeyError(RecordWithKey + keyText(primary) + DoesNotExist));
      }
      var partEntities := factory.Fetch(DistributionPart, primary);
      var entities := Entities(partEntities, primary);
      return Ok(DJComputationRecord(primary, entities));
    }

    /** `iter(facade)`: the keys of the master table. */
    function Keys(): (r: set<Row>)
      requires Valid()
      reads this, factory
      ensures forall primary :: primary in r <==> primary.Keys == factory.heading && factory.Contains(primary)
    {
      assert forall primary :: primary in factory.master <==> primary.Keys == factory.heading && factory.Contains(primary) by {
        forall primary ensures primary in factory.master <==> primary.Keys == factory.heading && factory.Contains(primary) {
          if primary.Keys == factory.heading {
            ContainsCompleteKey(factory, primary);
          }
        }
      }
      factory.master
    }

    /** `len(facade)`: the number of master rows. */
    function Length(): (n: nat)
      requires Valid()
      reads this, factory
      ensures n == |Keys()|
    {
      |factory.master|
    }
  }

  /** What `get` rebuilds from the part rows of a key that `add` wrote: exactly the distributions
      that were added, provided the part table held no rows of that key before and the entity
      attributes are not key attributes. */
  lemma {:induction false} GetAfterAdd(before: set<Row>, primary: Row, distributions: set<DJDistribution>)
    requires primary.Keys !! DistributionFields
    requires forall row :: row in before ==> !Matches(row, primary)
    ensures Entities(Restrict(before + PartRows(primary, distributions), primary), primary) == distributions
  {
    var rows := Restrict(before + PartRows(primary, distributions), primary);
    assert rows == PartRows(primary, distributions) by {
      forall row | row in PartRows(primary, distributions) ensures Matches(row, primary) {
        var d :| d in distributions && row == Merge(primary, AsDict(d));
      }
    }
    forall d | d in distributions ensures d in Entities(rows, primary) {
      StripMerge(primary, AsDict(d));
      assert Merge(primary, AsDict(d)) in rows;
    }
    forall e | e in Entities(rows, primary) ensures e in distributions {
      var row :| row in rows && FromMapping(Strip(row, primary)).Ok? && FromMapping(Strip(row, primary)).value == e;
      var d :| d in distributions && row == Merge(primary, AsDict(d));
      StripMerge(primary, AsDict(d));
    }
  }

  /** In valid tables, no part row matches a complete key that is not in the master table. */
  lemma UnstoredKeyHasNoPartRows(factory: Tables, primary: Row)
    requires factory.Valid() && primary.Keys == factory.heading && primary !in factory.master
    requires DistributionPart in factory.parts
    ensures forall row :: row in factory.parts[DistributionPart] ==> !Matches(row, primary)
  {
    forall row | row in factory.parts[DistributionPart] ensures !Matches(row, primary) {
      MatchesIsProjection(row, primary);
    }
  }

  /** Adding a record and getting its key again gives the record back. */
  method AddThenGet(facade: DJTableFacade, entity: DJComputationRecord) returns (added: Result<()>, got: Result<DJComputationRecord>)
    requires facade.Valid() && entity.primary.Keys == facade.factory.heading
    requires entity.primary !in facade.factory.master
    modifies facade.factory
    ensures facade.Valid()
    ensures added == Ok(()) && got == Ok(entity)
  {
    var before := facade.factory.parts[DistributionPart];
    UnstoredKeyHasNoPartRows(facade.factory, entity.primary);
    added := facade.Add(entity);
    got := facade.Get(entity.primary);
    GetAfterAdd(before, entity.primary, entity.distributions);
  }
}
