/** The translator between DataJoint primary keys and identifiers of `repro` (repro/translator.py).
    Unlike its `compenv` counterpart it remembers the caller's key object itself, not a copy. */
module ReproTranslator {
  import opened Wrappers
  import opened PrimaryKeys

  type Identifier = string

  class DataJointTranslator {
    /** The injected translation of a key's items to an identifier, such as `blake2b`. */
    const toIdentifier: seq<Item> -> Identifier
    /** The reverse translations: for each identifier handed out, the key object it came from. */
    var reverse: map<Identifier, PrimaryKey>

    constructor (toIdentifier: seq<Item> -> Identifier)
      ensures this.toIdentifier == toIdentifier && reverse == map[]
    {
      this.toIdentifier := toIdentifier;
      reverse := map[];
    }

    /** `to_identifier(primary_key)`: the injected identifier, unchanged. The key object itself is
        filed under it, replacing an earlier entry for that identifier; the other entries stay. */
    method ToIdentifier(primary: PrimaryKey) returns (identifier: Identifier)
      modifies this
      ensures identifier == toIdentifier(primary.items)
      ensures reverse == old(reverse)[identifier := primary]
    {
      identifier := toIdentifier(primary.items);
      reverse := reverse[identifier := primary];
    }

    /** `to_primary_key(identifier)`: the key object filed under the identifier; a KeyError for an
        identifier never handed out. */
    method ToPrimaryKey(identifier: Identifier) returns (r: Result<PrimaryKey>)
      ensures identifier in reverse ==> r == Ok(reverse[identifier])
      ensures identifier !in reverse ==> r == Err(KeyError(identifier))
    {
      if identifier !in reverse {
        return Err(KeyError(identifier));
      }
      return Ok(reverse[identifier]);
    }
  }

  /** Translating forth and back gives the caller's key object, so a change the caller makes to it in
      between shows in what comes back. */
  method TranslateBackAfterChange(translator: DataJointTranslator, primary: PrimaryKey, changed: seq<Item>)
      returns (identifier: Identifier, r: Result<PrimaryKey>)
    modifies translator, primary
    ensures identifier == translator.toIdentifier(old(primary.items))
    ensures r == Ok(primary) && primary.items == changed
  {
    identifier := translator.ToIdentifier(primary);
    primary.items := changed;
    r := translator.ToPrimaryKey(identifier);
  }
}
