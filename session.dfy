/** The session lock (backend/app/session.py): the application is unlocked while an encryption
  * key is held in memory. */
module Session {
  import opened Wrappers

  type Bytes = seq<bv8>

  class SessionStore {
    /** The key, when one has been set and not cleared since. */
    var key: Option<Bytes>

    /** `is_unlocked`: a key is held. */
    predicate IsUnlocked()
      reads this
    {
      key.Some?
    }

    /** A new store holds no key, so the application starts locked. */
    constructor()
      ensures key == None && !IsUnlocked()
    {
      key := None;
    }

    /** `set_key`: holds `k`, which unlocks the application. */
    method SetKey(k: Bytes)
      modifies this
      ensures key == Some(k) && IsUnlocked()
    {
      key := Some(k);
    }

    /** `get_key`: the key held, if any. */
    method GetKey() returns (k: Option<Bytes>)
      ensures k == key && (k.Some? <==> IsUnlocked())
    {
      k := key;
    }

    /** `clear_key`: forgets the key, which locks the application. */
    method ClearKey()
      modifies this
      ensures key == None && !IsUnlocked()
    {
      key := None;
    }
  }
}
