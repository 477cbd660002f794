/**
 Record identifiers. Ids travel as 24-character hexadecimal strings; the store casts them to
 ObjectIds, so two spellings that differ only in hex-digit case name the same record. A store is
 keyed by the canonical, lower-case spelling.
 */
module Ids {
  import opened Chars
  import opened Patterns

  type Id = string

  /** The canonical spelling the store keys a record by. */
  function Key(id: string): (k: Id)
    ensures |k| == |id|
  {
    LowerAll(id)
  }

  predicate IsKey(id: Id) {
    IsObjectId(id) && forall i :: 0 <= i < |id| ==> !IsUpper(id[i])
  }

  /** A well-formed id has a canonical key, and the key of a key is itself. */
  lemma KeyOfObjectId(id: string)
    requires IsObjectId(id)
    ensures IsKey(Key(id))
    ensures Key(Key(id)) == Key(id)
  {
  }

  /** A canonical key is its own key. */
  lemma KeyOfKey(id: Id)
    requires IsKey(id)
    ensures Key(id) == id
  {
  }
}
