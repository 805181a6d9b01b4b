/** Redis hashes.  HSET sends one field at a time and stops at the first failure, so any part may be stored. */
module Hashes {

  type Hash = map<string, string>

  /** The hash after the named fields have been written. */
  function Stored(hash: Hash, fields: Hash, names: set<string>): Hash
  {
    hash + map k | k in fields && k in names :: fields[k]
  }

  /** Every field of the one is in the other, with the same text. */
  ghost predicate Part(part: Hash, whole: Hash)
  {
    forall k :: k in part ==> k in whole && part[k] == whole[k]
  }

  lemma StoredIsPart(fields: Hash, names: set<string>)
    ensures Part(Stored(map[], fields, names), fields)
    ensures Stored(map[], fields, names).Keys == fields.Keys * names
  {
  }

  lemma StoredAll(hash: Hash, fields: Hash, names: set<string>)
    requires fields.Keys <= names
    ensures Stored(hash, fields, names) == hash + fields
  {
  }
}
