/** DataJoint primary keys as the translators see them: dictionaries from attribute names to values,
    iterated in insertion order, and the `blake2b` identifier computed from their JSON serialisation
    with sorted keys (compenv/adapters/translator.py, repro/translator.py). Attribute values are
    modelled by their text, since only their equality matters here. */
module PrimaryKeys {
  import opened Ordering

  /** One attribute of a key: its name and its value. */
  type Item = (string, string)

  /** A dictionary lists each attribute name once. */
  predicate UniqueKeys(items: seq<Item>) {
    forall i, j :: 0 <= i < j < |items| ==> items[i].0 != items[j].0
  }

  /** The dictionary as a mapping: two dictionaries are equal exactly when these are. */
  function AsMap(items: seq<Item>): (r: map<string, string>)
    ensures forall k :: k in r <==> exists i :: 0 <= i < |items| && items[i].0 == k
    decreases |items|
  {
    if |items| == 0 then map[]
    else
      var rest := AsMap(items[1..]);
      assert forall k :: k in rest <==> exists i :: 1 <= i < |items| && items[i].0 == k by {
        forall k ensures k in rest <==> exists i :: 1 <= i < |items| && items[i].0 == k {
          if k in rest {
            var i :| 0 <= i < |items[1..]| && items[1..][i].0 == k;
            assert items[i + 1].0 == k;
          }
          if exists i :: 1 <= i < |items| && items[i].0 == k {
            var i :| 1 <= i < |items| && items[i].0 == k;
            assert items[1..][i - 1].0 == k;
          }
        }
      }
      rest[items[0].0 := items[0].1]
  }

  /** A mutable dictionary object, such as the key a caller passes to a translator. */
  class PrimaryKey {
    var items: seq<Item>

    constructor (items: seq<Item>)
      ensures this.items == items
    {
      this.items := items;
    }
  }

  /** The order of `sort_keys`: by attribute name, then by value. */
  predicate ItemLt(x: Item, y: Item) {
    StrLt(x.0, y.0) || (x.0 == y.0 && StrLt(x.1, y.1))
  }

  lemma ItemLtIsStrictTotalOrder()
    ensures IsStrictTotalOrder(ItemLt)
  {
    StrLtIsStrictTotalOrder();
    forall x: Item ensures !ItemLt(x, x) {
      assert !StrLt(x.0, x.0) && !StrLt(x.1, x.1);
    }
    forall x: Item, y: Item, z: Item ensures TransitiveAt(x, y, z, ItemLt) {
      assert TransitiveAt(x.0, y.0, z.0, StrLt);
      assert TransitiveAt(x.1, y.1, z.1, StrLt);
    }
    forall x: Item, y: Item | x != y ensures ItemLt(x, y) || ItemLt(y, x) {
      if x.0 == y.0 {
        assert x.1 != y.1;
      }
    }
  }

  /** `json.dumps(key, sort_keys=True)`, as the items in the order they are written out. */
  ghost function Serialised(items: seq<Item>): (r: seq<Item>)
    ensures multiset(r) == multiset(items) && Ordered(r, ItemLt)
  {
    ItemLtIsStrictTotalOrder();
    Sorted(multiset(items), ItemLt)
  }

  /** `blake2b(key)`: the digest of the serialisation. The digest itself is a parameter. */
  ghost function Blake2b(digest: seq<Item> -> string, items: seq<Item>): string {
    digest(Serialised(items))
  }

  /** In a dictionary, each item occurs once. */
  lemma {:induction false} CountInUnique(items: seq<Item>, x: Item)
    requires UniqueKeys(items)
    ensures multiset(items)[x] == if x in items then 1 else 0
    decreases |items|
  {
    if |items| > 0 {
      assert items == [items[0]] + items[1..];
      assert UniqueKeys(items[1..]) by {
        forall i, j | 0 <= i < j < |items[1..]| ensures items[1..][i].0 != items[1..][j].0 {
          assert items[1..][i] == items[i + 1] && items[1..][j] == items[j + 1];
        }
      }
      CountInUnique(items[1..], x);
      if x == items[0] {
        assert x !in items[1..] by {
          forall i | 0 <= i < |items[1..]| ensures items[1..][i] != x {
            assert items[1..][i] == items[i + 1];
          }
        }
      }
    }
  }

  /** In a dictionary, an item is listed exactly when the mapping gives its value to its name. */
  lemma ItemOfUnique(items: seq<Item>, x: Item)
    requires UniqueKeys(items)
    ensures x in items <==> x.0 in AsMap(items) && AsMap(items)[x.0] == x.1
  {
    if x in items {
      var i :| 0 <= i < |items| && items[i] == x;
      ValueAt(items, i);
    }
    if x.0 in AsMap(items) && AsMap(items)[x.0] == x.1 {
      var i :| 0 <= i < |items| && items[i].0 == x.0;
      ValueAt(items, i);
      assert items[i] == x;
    }
  }

  lemma {:induction false} ValueAt(items: seq<Item>, i: nat)
    requires UniqueKeys(items) && i < |items|
    ensures AsMap(items)[items[i].0] == items[i].1
    decreases |items|
  {
    if i > 0 {
      assert UniqueKeys(items[1..]) by {
        forall a, b | 0 <= a < b < |items[1..]| ensures items[1..][a].0 != items[1..][b].0 {
          assert items[1..][a] == items[a + 1] && items[1..][b] == items[b + 1];
        }
      }
      assert items[1..][i - 1] == items[i];
      ValueAt(items[1..], i - 1);
    }
  }

  /** Equal dictionaries, in whatever insertion order, hold the same items. */
  lemma SameItems(a: seq<Item>, b: seq<Item>)
    requires UniqueKeys(a) && UniqueKeys(b)
    ensures AsMap(a) == AsMap(b) <==> multiset(a) == multiset(b)
  {
    if AsMap(a) == AsMap(b) {
      forall x ensures multiset(a)[x] == multiset(b)[x] {
        CountInUnique(a, x);
        CountInUnique(b, x);
        ItemOfUnique(a, x);
        ItemOfUnique(b, x);
      }
    }
    if multiset(a) == multiset(b) {
      forall k | k in AsMap(a) ensures k in AsMap(b) && AsMap(b)[k] == AsMap(a)[k] {
        var x := (k, AsMap(a)[k]);
        ItemOfUnique(a, x);
        assert x in multiset(b);
        ItemOfUnique(b, x);
      }
      forall k | k in AsMap(b) ensures k in AsMap(a) {
        var x := (k, AsMap(b)[k]);
        ItemOfUnique(b, x);
        assert x in multiset(a);
        ItemOfUnique(a, x);
      }
    }
  }

  /** `blake2b` depends on the dictionary only, not on the order its keys were inserted in; and for
      a digest without collisions, different dictionaries get different identifiers. */
  lemma Blake2bIsOrderInvariant(digest: seq<Item> -> string, a: seq<Item>, b: seq<Item>)
    requires UniqueKeys(a) && UniqueKeys(b)
    ensures AsMap(a) == AsMap(b) ==> Blake2b(digest, a) == Blake2b(digest, b)
    ensures (forall s, t :: digest(s) == digest(t) ==> s == t) ==>
              (Blake2b(digest, a) == Blake2b(digest, b) <==> AsMap(a) == AsMap(b))
  {
    SameItems(a, b);
    if Serialised(a) == Serialised(b) {
      assert multiset(a) == multiset(b);
    }
  }
}
