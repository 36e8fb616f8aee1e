/** The translator between DataJoint primary keys and identifiers of `compenv`
    (compenv/adapters/translator.py). Translating a key to its identifier remembers a copy of the
    key, so that the identifier can be translated back. */
module CompenvTranslator {
  import opened Wrappers
  import opened PrimaryKeys

  type Identifier = string

  class DJTranslator {
    /** The injected translation of a key's items to an identifier, such as `blake2b`. */
    const toIdentifier: seq<Item> -> Identifier
    /** The reverse translations: for each identifier handed out, the key it came from. */
    var reverse: map<Identifier, seq<Item>>

    constructor (toIdentifier: seq<Item> -> Identifier)
      ensures this.toIdentifier == toIdentifier && reverse == map[]
    {
      this.toIdentifier := toIdentifier;
      reverse := map[];
    }

    /** `to_internal(primary)`: the injected identifier of the key. A copy of the key is filed
        under it, replacing whatever an earlier key with the same identifier left there; the other
        entries stay. */
    method ToInternal(primary: PrimaryKey) returns (identifier: Identifier)
      modifies this
      ensures identifier == toIdentifier(primary.items)
      ensures reverse == old(reverse)[identifier := primary.items]
    {
      identifier := toIdentifier(primary.items);
      reverse := reverse[identifier := primary.items];
    }

    /** `to_external(identifier)`: the key filed under the identifier; a KeyError for an
        identifier `to_internal` never handed out. */
    method ToExternal(identifier: Identifier) returns (r: Result<seq<Item>>)
      ensures identifier in reverse ==> r == Ok(reverse[identifier])
      ensures identifier !in reverse ==> r == Err(KeyError(identifier))
    {
      if identifier !in reverse {
        return Err(KeyError(identifier));
      }
      return Ok(reverse[identifier]);
    }
  }

  /** Translating forth and back gives the key as it was when it was translated, even when the
      caller changes its key object in between. */
  method TranslateBackAfterChange(translator: DJTranslator, primary: PrimaryKey, changed: seq<Item>)
      returns (identifier: Identifier, r: Result<seq<Item>>)
    modifies translator, primary
    ensures identifier == translator.toIdentifier(old(primary.items))
    ensures primary.items == changed
    ensures r == Ok(old(primary.items))
  {
    identifier := translator.ToInternal(primary);
    primary.items := changed;
    r := translator.ToExternal(identifier);
  }
}
