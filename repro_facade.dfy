/** The facade of `repro` around its DataJoint record table (repro/infrastructure/facade.py): a
    record is a master row holding its key and, for each part table, one row per part entity.
    Part entities are modelled by their attribute dictionaries: `dataclasses.asdict(e)` is the
    identity here, and `entity_cls(**e)` is `MakeEntity`. */
module ReproFacade {
  import opened Wrappers
  import opened DataJoint

  /** A computation record entity: its key and, by master attribute, the set of its part entities. */
  datatype DJRecord = DJRecord(primary: Row, entities: map<string, set<Row>>)

  /** `[primary | e for e in entities]`. */
  function PartRows(primary: Row, entities: set<Row>): (r: set<Row>)
    ensures forall e :: e in entities ==> Merge(primary, e) in r
    ensures forall row :: row in r ==> exists e :: e in entities && row == Merge(primary, e)
  {
    set e | e in entities :: Merge(primary, e)
  }

  /** `[dict(e.items() - primary.items()) for e in rows]`. */
  function Stripped(rows: set<Row>, primary: Row): (r: set<Row>)
    ensures forall row :: row in rows ==> Strip(row, primary) in r
    ensures forall e :: e in r ==> exists row :: row in rows && e == Strip(row, primary)
  {
    set row | row in rows :: Strip(row, primary)
  }

  /** `entity_cls(**e)` for a part entity class, a frozen dataclass whose fields are the part's
      attributes `fields`: a missing or unexpected keyword is a TypeError. */
  function MakeEntity(fields: set<string>, e: Row): (r: Result<Row>)
    ensures r.Ok? <==> e.Keys == fields
    ensures r.Ok? ==> r.value == e
    ensures r.Err? ==> r.error == TypeError
  {
    if e.Keys == fields then Ok(e) else Err(TypeError)
  }

  /** The part rows of entities with the attributes `fields` each hold the key and those attributes,
      and their key attributes are the key. */
  lemma PartRowsHaveKey(primary: Row, entities: set<Row>, fields: set<string>)
    requires primary.Keys !! fields
    requires forall e :: e in entities ==> e.Keys == fields
    ensures forall row :: row in PartRows(primary, entities) ==>
      row.Keys == primary.Keys + fields && Project(row, primary.Keys) == primary
  {
    forall row | row in PartRows(primary, entities)
      ensures row.Keys == primary.Keys + fields && Project(row, primary.Keys) == primary
    {
      var e :| e in entities && row == Merge(primary, e);
      ProjectMerge(primary, e);
    }
  }

  /** A key matches every row made by merging it with other attributes. */
  lemma MergeMatches(primary: Row, e: Row)
    requires primary.Keys !! e.Keys
    ensures Matches(Merge(primary, e), primary)
  {
  }

  /** Restricting the rows inserted for a key, alongside rows of other keys, to that key gives the
      inserted rows. */
  lemma RestrictToInserted(before: set<Row>, primary: Row, entities: set<Row>)
    requires forall e :: e in entities ==> primary.Keys !! e.Keys
    requires forall row :: row in before ==> !Matches(row, primary)
    ensures Restrict(before + PartRows(primary, entities), primary) == PartRows(primary, entities)
  {
    forall row | row in PartRows(primary, entities) ensures Matches(row, primary) {
      var e :| e in entities && row == Merge(primary, e);
      MergeMatches(primary, e);
    }
  }

  /** Each entity comes back from its part row. */
  lemma StrippedHasEntities(primary: Row, entities: set<Row>)
    requires forall e :: e in entities ==> primary.Keys !! e.Keys
    ensures entities <= Stripped(PartRows(primary, entities), primary)
  {
    forall e | e in entities ensures e in Stripped(PartRows(primary, entities), primary) {
      StripMerge(primary, e);
    }
  }

  /** Nothing but the entities comes back from their part rows. */
  lemma StrippedOnlyEntities(primary: Row, entities: set<Row>)
    requires forall e :: e in entities ==> primary.Keys !! e.Keys
    ensures Stripped(PartRows(primary, entities), primary) <= entities
  {
    var rows := PartRows(primary, entities);
    forall e | e in Stripped(rows, primary) ensures e in entities {
      var row :| row in rows && e == Strip(row, primary);
      var e' :| e' in entities && row == Merge(primary, e');
      StripMerge(primary, e');
    }
  }

  /** Stripping the key from the rows inserted for it gives the entities back. */
  lemma StripInserted(primary: Row, entities: set<Row>)
    requires forall e :: e in entities ==> primary.Keys !! e.Keys
    ensures Stripped(PartRows(primary, entities), primary) == entities
  {
    StrippedHasEntities(primary, entities);
    StrippedOnlyEntities(primary, entities);
  }

  /** Fetching the part rows of a key that were inserted for it, and stripping the key again, gives
      back the entities inserted, provided no row of that key was there before and no entity
      attribute is a key attribute. */
  lemma FetchAfterInsert(before: set<Row>, primary: Row, entities: set<Row>)
    requires forall e :: e in entities ==> primary.Keys !! e.Keys
    requires forall row :: row in before ==> !Matches(row, primary)
    ensures Stripped(Restrict(before + PartRows(primary, entities), primary), primary) == entities
  {
    RestrictToInserted(before, primary, entities);
    StripInserted(primary, entities);
  }

  /** Deleting the rows of one complete key keeps every row of every other key, and no row of that
      key is left. */
  lemma DeleteKeepsOtherKeys(rows: set<Row>, primary: Row, row: Row)
    requires row in rows && primary.Keys <= row.Keys
    ensures row in rows - Restrict(rows, primary) <==> Project(row, primary.Keys) != primary
  {
    MatchesIsProjection(row, primary);
  }

  const DoesNotExist := "' does not exist!"
  const AlreadyExists := "' already exists!"
  const RecordWithKey := "Computation record with primary key '"

  class RecordTableFacade {
    const table: Tables
    /** `DJComputationRecord.parts`: the master attribute of each part table, by part name. */
    const attrs: map<string, string>
    /** How a key is written in a message. */
    const keyText: Row -> string

    /** The tables have exactly the parts of the record entity. */
    ghost predicate Valid()
      reads this, table
    {
      table.Valid() && table.partFields.Keys == attrs.Keys
    }

    /** No two parts share a master attribute. */
    ghost predicate DistinctAttrs()
      reads this
    {
      forall p, q | p in attrs && q in attrs && p != q :: attrs[p] != attrs[q]
    }

    /** An entity fits the tables when its key is complete and it holds, for the attribute of each
        part, a set of part entities with that part's attributes. */
    ghost predicate Fits(entity: DJRecord)
      reads this, table
    {
      && entity.primary.Keys == table.heading
      && (forall p | p in attrs :: p in table.partFields && attrs[p] in entity.entities &&
            forall e | e in entity.entities[attrs[p]] :: e.Keys == table.partFields[p])
    }

    constructor (table: Tables, attrs: map<string, string>, keyText: Row -> string)
      ensures this.table == table && this.attrs == attrs && this.keyText == keyText
    {
      this.table := table;
      this.attrs := attrs;
      this.keyText := keyText;
    }

    /** `insert(entity)`: a ValueError when the key is stored already, and then no part row is
        written; else the key goes into the master table and, into each part table, the key merged
        with each of the entity's part entities. */
    method Insert(entity: DJRecord) returns (r: Result<()>)
      requires Valid() && Fits(entity)
      modifies table
      ensures Valid()
      ensures entity.primary in old(table.master) ==>
        && r == Err(ValueError(RecordWithKey + keyText(entity.primary) + AlreadyExists))
        && table.master == old(table.master) && table.parts == old(table.parts)
      ensures entity.primary !in old(table.master) ==>
        && r == Ok(())
        && table.master == old(table.master) + {entity.primary}
        && table.parts.Keys == attrs.Keys
        && forall p | p in attrs :: table.parts[p] == old(table.parts)[p] + PartRows(entity.primary, entity.entities[attrs[p]])
    {
      var inserted := table.Insert1(entity.primary);
      if !inserted {
        return Err(ValueError(RecordWithKey + keyText(entity.primary) + AlreadyExists));
      }
      InsertParts(entity);
      return Ok(());
    }

    /** `insert`'s loop over the parts, once the key is stored: the part rows of every part. */
    method InsertParts(entity: DJRecord)
      requires Valid() && Fits(entity) && entity.primary in table.master
      modifies table
      ensures Valid() && table.master == old(table.master)
      ensures table.parts.Keys == attrs.Keys
      ensures forall p | p in attrs :: table.parts[p] == old(table.parts)[p] + PartRows(entity.primary, entity.entities[attrs[p]])
    {
      var todo := attrs.Keys;
      while todo != {}
        invariant todo <= attrs.Keys
        invariant Valid() && table.master == old(table.master)
        invariant table.parts.Keys == attrs.Keys
        invariant forall p | p in attrs :: (table.parts[p] ==
          if p in todo then old(table.parts)[p] else old(table.parts)[p] + PartRows(entity.primary, entity.entities[attrs[p]]))
        decreases todo
      {
        var p :| p in todo;
        InsertPart(entity, p);
        todo := todo - {p};
      }
    }

    /** One pass of `insert`'s loop: the part rows of one part. */
    method InsertPart(entity: DJRecord, p: string)
      requires Valid() && Fits(entity) && entity.primary in table.master && p in attrs
      modifies table
      ensures Valid() && table.master == old(table.master)
      ensures table.parts == old(table.parts)[p := old(table.parts)[p] + PartRows(entity.primary, entity.entities[attrs[p]])]
    {
      var rows := PartRows(entity.primary, entity.entities[attrs[p]]);
      PartRowsHaveKey(entity.primary, entity.entities[attrs[p]], table.partFields[p]);
      table.Insert(p, rows);
    }

    /** `delete(primary)`: a KeyError when no stored key matches; else the rows matching the key
        leave every part table, then the matching keys leave the master table, unless a part
        row still refers to one of them, when the database refuses with an IntegrityError. */
    method Delete(primary: Row) returns (r: Result<()>)
      requires Valid()
      modifies table
      ensures Valid()
      ensures !old(table.Contains(primary)) ==>
        && r == Err(KeyError(RecordWithKey + keyText(primary) + DoesNotExist))
        && table.master == old(table.master) && table.parts == old(table.parts)
      ensures old(table.Contains(primary)) ==>
        && table.parts.Keys == attrs.Keys
        && (forall p | p in attrs :: table.parts[p] == old(table.parts)[p] - Restrict(old(table.parts)[p], primary))
        && (Unreferenced(table.parts, table.heading, primary) ==>
              r == Ok(()) && table.master == old(table.master) - Restrict(old(table.master), primary))
        && (!Unreferenced(table.parts, table.heading, primary) ==>
              r == Err(IntegrityError) && table.master == old(table.master))
    {
      if !table.Contains(primary) {
        return Err(KeyError(RecordWithKey + keyText(primary) + DoesNotExist));
      }
      var todo := attrs.Keys;
      while todo != {}
        invariant todo <= attrs.Keys
        invariant table.Valid() && table.master == old(table.master)
        invariant table.parts.Keys == attrs.Keys
        invariant forall p | p in attrs :: (table.parts[p] ==
          if p in todo then old(table.parts)[p] else old(table.parts)[p] - Restrict(old(table.parts)[p], primary))
        decreases todo
      {
        var p :| p in todo;
        table.DeletePart(p, primary);
        todo := todo - {p};
      }
      var deleted := table.DeleteMaster(primary);
      if !deleted {
        return Err(IntegrityError);
      }
      return Ok(());
    }

    /** The master attributes of some parts. */
    function AttrsOf(parts: set<string>): (r: set<string>)
      requires parts <= attrs.Keys
      reads this
      ensures forall p | p in parts :: attrs[p] in r
      ensures forall a | a in r :: exists p | p in parts :: attrs[p] == a
    {
      set p | p in parts :: attrs[p]
    }

    /** The part entities of an entity that fits share no attribute with the key. */
    lemma FitsIsDisjoint(entity: DJRecord)
      requires Valid() && Fits(entity)
      ensures forall p | p in attrs :: forall e | e in entity.entities[attrs[p]] :: entity.primary.Keys !! e.Keys
    {
    }

    /** The part entities fetched after inserting an entity whose key no part row had are the
        entity's. */
    lemma FetchedIsInserted(before: map<string, set<Row>>, entity: DJRecord, got: map<string, set<Row>>)
      requires forall p | p in attrs :: p in before && attrs[p] in entity.entities
      requires forall p | p in attrs :: forall e | e in entity.entities[attrs[p]] :: entity.primary.Keys !! e.Keys
      requires forall p | p in before :: forall row | row in before[p] :: !Matches(row, entity.primary)
      requires entity.entities.Keys == AttrsOf(attrs.Keys) && got.Keys == AttrsOf(attrs.Keys)
      requires forall p | p in attrs ::
        got[attrs[p]] == Stripped(Restrict(before[p] + PartRows(entity.primary, entity.entities[attrs[p]]), entity.primary), entity.primary)
      ensures got == entity.entities
    {
      forall a | a in got ensures got[a] == entity.entities[a] {
        var p :| p in attrs && attrs[p] == a;
        FetchAfterInsert(before[p], entity.primary, entity.entities[a]);
      }
    }

    /** One more part adds its attribute, which no part before it has. */
    lemma AttrsOfOneMore(done: set<string>, p: string)
      requires DistinctAttrs() && done <= attrs.Keys && p in attrs && p !in done
      ensures AttrsOf(done + {p}) == AttrsOf(done) + {attrs[p]}
      ensures attrs[p] !in AttrsOf(done)
    {
    }

    /** Every part row matching the key becomes an entity of its part once the key's items are
        stripped from it. */
    predicate Buildable(primary: Row)
      requires Valid()
      reads this, table
    {
      forall p | p in attrs :: PartBuildable(p, primary)
    }

    /** The part rows of `p` matching the key become entities of `p` once stripped. */
    predicate PartBuildable(p: string, primary: Row)
      requires Valid() && p in attrs
      reads this, table
    {
      forall row | row in table.Fetch(p, primary) :: MakeEntity(table.partFields[p], Strip(row, primary)).Ok?
    }

    /** `fetch(primary)`: a KeyError when no stored key matches; a TypeError when some part row
        matching the key does not become an entity once stripped; else the record of the key
        whose part entities, under each part's attribute, are that part's rows matching the key
        with the key's items stripped. */
    method Fetch(primary: Row) returns (r: Result<DJRecord>)
      requires Valid() && DistinctAttrs()
      ensures !table.Contains(primary) ==> r == Err(KeyError(RecordWithKey + keyText(primary) + DoesNotExist))
      ensures table.Contains(primary) && !Buildable(primary) ==> r == Err(TypeError)
      ensures table.Contains(primary) && Buildable(primary) ==>
        && r.Ok? && r.value.primary == primary
        && r.value.entities.Keys == AttrsOf(attrs.Keys)
        && forall p | p in attrs :: r.value.entities[attrs[p]] == Stripped(table.Fetch(p, primary), primary)
    {
      if !table.Contains(primary) {
        return Err(KeyError(RecordWithKey + keyText(primary) + DoesNotExist));
      }
      // Fetching changes nothing and every failing part raises the same TypeError, so whether
      // one fails is decided before the loop.
      if !Buildable(primary) {
        return Err(TypeError);
      }
      var parts := table.parts;
      var entities: map<string, set<Row>> := map[];
      var todo := attrs.Keys;
      ghost var done: set<string> := {};
      while todo != {}
        invariant todo + done == attrs.Keys && todo !! done
        invariant entities.Keys == AttrsOf(done)
        invariant forall q | q in done :: entities[attrs[q]] == Stripped(Restrict(parts[q], primary), primary)
        decreases todo
      {
        var p :| p in todo;
        AttrsOfOneMore(done, p);
        entities := entities[attrs[p] := Stripped(Restrict(parts[p], primary), primary)];
        todo := todo - {p};
        done := done + {p};
      }
      return Ok(DJRecord(primary, entities));
    }
  }

  /** In valid tables, no part row matches a complete key that is not in the master table. */
  lemma UnstoredKeyHasNoPartRows(table: Tables, primary: Row)
    requires table.Valid() && primary.Keys == table.heading && primary !in table.master
    ensures forall p | p in table.parts :: forall row | row in table.parts[p] :: !Matches(row, primary)
  {
    forall p, row | p in table.parts && row in table.parts[p] ensures !Matches(row, primary) {
      MatchesIsProjection(row, primary);
    }
  }

  /** Inserting a record and fetching its key gives the record back. */
  method InsertThenFetch(facade: RecordTableFacade, entity: DJRecord) returns (inserted: Result<()>, fetched: Result<DJRecord>)
    requires facade.Valid() && facade.DistinctAttrs() && facade.Fits(entity)
    requires entity.entities.Keys == facade.AttrsOf(facade.attrs.Keys) && entity.primary !in facade.table.master
    modifies facade.table
    ensures inserted == Ok(()) && fetched == Ok(entity)
  {
    ghost var before := facade.table.parts;
    UnstoredKeyHasNoPartRows(facade.table, entity.primary);
    facade.FitsIsDisjoint(entity);
    inserted := facade.Insert(entity);
    forall p | p in facade.attrs ensures facade.PartBuildable(p, entity.primary) {
      FetchAfterInsert(before[p], entity.primary, entity.entities[facade.attrs[p]]);
      forall row | row in facade.table.Fetch(p, entity.primary)
        ensures Strip(row, entity.primary).Keys == facade.table.partFields[p]
      {
        assert Strip(row, entity.primary) in Stripped(facade.table.Fetch(p, entity.primary), entity.primary);
      }
    }
    fetched := facade.Fetch(entity.primary);
    facade.FetchedIsInserted(before, entity, fetched.value.entities);
  }

  /** Deleting a stored record goes through and removes exactly its key, and fetching its key
      afterwards fails with a KeyError. */
  method DeleteThenFetch(facade: RecordTableFacade, primary: Row) returns (deleted: Result<()>, fetched: Result<DJRecord>)
    requires facade.Valid() && facade.DistinctAttrs() && primary in facade.table.master
    modifies facade.table
    ensures deleted == Ok(()) && facade.table.master == old(facade.table.master) - {primary}
    ensures fetched == Err(KeyError(RecordWithKey + facade.keyText(primary) + DoesNotExist))
  {
    ContainsCompleteKey(facade.table, primary);
    ghost var master := facade.table.master;
    deleted := facade.Delete(primary);
    UnreferencedAfterPartDelete(facade.table.parts, facade.table.heading, primary);
    forall row | row in master ensures row in Restrict(master, primary) <==> row == primary {
      MatchesIsProjection(row, primary);
    }
    ContainsCompleteKey(facade.table, primary);
    fetched := facade.Fetch(primary);
  }

  /** Deleting a partial key removes every stored record whose key extends it. */
  method DeletePartialKey(facade: RecordTableFacade, primary: Row) returns (deleted: Result<()>)
    requires facade.Valid() && primary.Keys <= facade.table.heading
    requires facade.table.Contains(primary)
    modifies facade.table
    ensures deleted == Ok(())
    ensures forall row :: row in facade.table.master <==> row in old(facade.table.master) && Project(row, primary.Keys) != primary
  {
    ghost var master := facade.table.master;
    deleted := facade.Delete(primary);
    UnreferencedAfterPartDelete(facade.table.parts, facade.table.heading, primary);
    forall row | row in master ensures row in Restrict(master, primary) <==> Project(row, primary.Keys) == primary {
      MatchesIsProjection(row, primary);
    }
  }

  /** Fetching a partial key that some part row matches raises a TypeError: the stripped row
      still holds the key attributes the partial key does not name, which the part entity class
      does not accept. */
  method FetchPartialKey(facade: RecordTableFacade, primary: Row, p: string, row: Row) returns (fetched: Result<DJRecord>)
    requires facade.Valid() && facade.DistinctAttrs()
    requires primary.Keys < facade.table.heading && p in facade.attrs && row in facade.table.parts[p] && Matches(row, primary)
    ensures fetched == Err(TypeError)
  {
    var key := Project(row, facade.table.heading);
    assert key in facade.table.master && Matches(key, primary);
    var k :| (k in facade.table.heading) != (k in primary.Keys);
    assert k in Strip(row, primary) && k !in facade.table.partFields[p];
    assert !facade.PartBuildable(p, primary);
    fetched := facade.Fetch(primary);
  }
}
