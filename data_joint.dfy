/** The DataJoint tables the facades work on, reduced to what the facades use: a master table of
    primary keys, and part tables whose rows hold a master key and the attributes of one part
    entity. Rows are dictionaries from attribute names to values. */
module DataJoint {
  /** A row, or a primary key: attribute names to values. */
  type Row = map<string, string>

  /** `{**a, **b}` and `a | b`: the attributes of both, with `b`'s value where both have one. */
  function Merge(a: Row, b: Row): (r: Row)
    ensures r.Keys == a.Keys + b.Keys
    ensures forall k :: k in b ==> r[k] == b[k]
    ensures forall k :: k in a && k !in b ==> r[k] == a[k]
  {
    a + b
  }

  /** `dict(e.items() - primary.items())`: the attributes of `e` whose value is not the one
      `primary` gives them. */
  function Strip(e: Row, primary: Row): (r: Row)
    ensures forall k :: k in r <==> k in e && !(k in primary && primary[k] == e[k])
    ensures forall k :: k in r ==> r[k] == e[k]
  {
    map k | k in e && !(k in primary && primary[k] == e[k]) :: e[k]
  }

  /** Stripping the key from a row made by merging it with an entity's attributes gives the
      entity's attributes back, when none of them is a key attribute. */
  lemma StripMerge(primary: Row, e: Row)
    requires primary.Keys !! e.Keys
    ensures Strip(Merge(primary, e), primary) == e
  {
    var r := Strip(Merge(primary, e), primary);
    assert r.Keys == e.Keys;
  }

  /** The key of a row made by merging a key with other attributes is that key. */
  lemma ProjectMerge(primary: Row, e: Row)
    requires primary.Keys !! e.Keys
    ensures Project(Merge(primary, e), primary.Keys) == primary
  {
  }

  /** A row agrees with a key on every attribute the two share. */
  predicate Matches(row: Row, primary: Row) {
    forall k :: k in row && k in primary ==> row[k] == primary[k]
  }

  /** `rows & primary`. */
  function Restrict(rows: set<Row>, primary: Row): (r: set<Row>)
    ensures r <= rows
    ensures forall row :: row in rows ==> (row in r <==> Matches(row, primary))
  {
    set row | row in rows && Matches(row, primary)
  }

  /** The attributes of `row` among `attributes`. */
  function Project(row: Row, attributes: set<string>): (r: Row)
    ensures r.Keys == row.Keys * attributes
    ensures forall k :: k in r ==> r[k] == row[k]
  {
    map k | k in row && k in attributes :: row[k]
  }

  /** For a complete key, a row matches it exactly when the row's key attributes are the key. */
  lemma MatchesIsProjection(row: Row, primary: Row)
    requires primary.Keys <= row.Keys
    ensures Matches(row, primary) <==> Project(row, primary.Keys) == primary
  {
  }

  /** The master table with its part tables, by part name. `heading` holds the primary attributes
      and `partFields` the other attributes of each part. */
  class Tables {
    const heading: set<string>
    const partFields: map<string, set<string>>
    var master: set<Row>
    var parts: map<string, set<Row>>

    /** Every master row is a complete key, every part row is a complete key together with that
        part's attributes, and the key of every part row is in the master table. */
    ghost predicate Valid()
      reads this
    {
      && parts.Keys == partFields.Keys
      && (forall name | name in partFields :: partFields[name] !! heading)
      && (forall row | row in master :: row.Keys == heading)
      && (forall name | name in parts :: forall row | row in parts[name] ::
            row.Keys == heading + partFields[name] && Project(row, heading) in master)
    }

    constructor (heading: set<string>, partFields: map<string, set<string>>)
      requires forall name | name in partFields :: partFields[name] !! heading
      ensures Valid()
      ensures this.heading == heading && this.partFields == partFields
      ensures master == {} && parts == map name | name in partFields :: {}
    {
      this.heading := heading;
      this.partFields := partFields;
      master := {};
      parts := map name | name in partFields :: {};
    }

    /** `primary in table`: DataJoint's `__contains__`, true when restricting the master table
        by the key leaves a row. The key may be partial. */
    function Contains(primary: Row): (r: bool)
      reads this
      ensures r <==> exists row :: row in master && Matches(row, primary)
    {
      Restrict(master, primary) != {}
    }

    /** `table.insert1(primary)`: false, for DataJoint's DuplicateError, when the key is there. */
    method Insert1(primary: Row) returns (inserted: bool)
      requires Valid() && primary.Keys == heading
      modifies this
      ensures Valid()
      ensures inserted <==> primary !in old(master)
      ensures master == old(master) + {primary} && parts == old(parts)
    {
      inserted := primary !in master;
      master := master + {primary};
    }

    /** `part().insert(rows)` of rows that belong to keys of the master table. */
    method Insert(name: string, rows: set<Row>)
      requires Valid() && name in parts
      requires forall row | row in rows :: row.Keys == heading + partFields[name] && Project(row, heading) in master
      modifies this
      ensures Valid()
      ensures master == old(master) && parts == old(parts)[name := old(parts)[name] + rows]
    {
      parts := parts[name := parts[name] + rows];
    }

    /** `(part() & primary).fetch(as_dict=True)`. */
    function Fetch(name: string, primary: Row): (r: set<Row>)
      requires name in parts
      reads this
      ensures r <= parts[name]
      ensures forall row :: row in parts[name] ==> (row in r <==> Matches(row, primary))
    {
      Restrict(parts[name], primary)
    }

    /** `(part() & primary).delete_quick()`. */
    method DeletePart(name: string, primary: Row)
      requires Valid() && name in parts
      modifies this
      ensures Valid()
      ensures master == old(master) && parts == old(parts)[name := old(parts)[name] - Restrict(old(parts)[name], primary)]
    {
      parts := parts[name := parts[name] - Restrict(parts[name], primary)];
    }

    /** `(table & primary).delete_quick()`: every master row matching the key goes, unless a part
        row still refers to one of them, when the database refuses the whole deletion. */
    method DeleteMaster(primary: Row) returns (deleted: bool)
      requires Valid()
      modifies this
      ensures Valid()
      ensures deleted <==> Unreferenced(parts, heading, primary)
      ensures deleted ==> master == old(master) - Restrict(old(master), primary)
      ensures !deleted ==> master == old(master)
      ensures parts == old(parts)
    {
      deleted := Unreferenced(parts, heading, primary);
      if deleted {
        master := master - Restrict(master, primary);
      }
    }
  }

  /** No part row refers to a master key that matches `primary`. */
  predicate Unreferenced(parts: map<string, set<Row>>, heading: set<string>, primary: Row) {
    forall name | name in parts :: forall row | row in parts[name] :: !Matches(Project(row, heading), primary)
  }

  /** For a complete key, containment is membership of the master table. */
  lemma ContainsCompleteKey(t: Tables, primary: Row)
    requires t.Valid() && primary.Keys == t.heading
    ensures t.Contains(primary) <==> primary in t.master
  {
    if t.Contains(primary) {
      var row :| row in t.master && Matches(row, primary);
      assert row == primary;
    }
    if primary in t.master {
      assert Matches(primary, primary);
    }
  }

  /** A partial key is contained exactly when some stored key extends it. */
  lemma ContainsPartialKey(t: Tables, primary: Row)
    requires t.Valid() && primary.Keys <= t.heading
    ensures t.Contains(primary) <==> exists row :: row in t.master && Project(row, primary.Keys) == primary
  {
    forall row | row in t.master ensures Matches(row, primary) <==> Project(row, primary.Keys) == primary {
      MatchesIsProjection(row, primary);
    }
  }

  /** Once the part rows matching a key made of key attributes are gone, nothing refers to the
      master rows matching it, so their deletion goes through. */
  lemma UnreferencedAfterPartDelete(parts: map<string, set<Row>>, heading: set<string>, primary: Row)
    requires primary.Keys <= heading
    requires forall name | name in parts :: forall row | row in parts[name] :: !Matches(row, primary)
    ensures Unreferenced(parts, heading, primary)
  {
  }
}
