/** The preference store of `utils/preference.py`. Every operation there
    loads `preferences.json`, changes the dictionary and writes it back; the
    model keeps the dictionary as the field of a store object, so a load is
    a read of the field and a write-back an assignment to it. */
module Preference {
  import opened Common
  import opened Constants

  /** `preferences.get(key)`: the stored value, `None` for an absent key. */
  function Lookup(prefs: map<string, string>, key: string): (r: Option<string>)
    ensures r.Some? <==> key in prefs
    ensures r.Some? ==> r.value == prefs[key]
  {
    if key in prefs then Some(prefs[key]) else None
  }

  /** The dictionary after `clear_preferences`: same keys, every value "". */
  function ClearedAll(prefs: map<string, string>): (r: map<string, string>)
    ensures r.Keys == prefs.Keys
    ensures forall k :: k in r ==> r[k] == ""
  {
    map k | k in prefs :: ""
  }

  /** The dictionary after `clear_preferences_except_username`: same keys,
      the username kept, every other value "". */
  function ClearedExceptUsername(prefs: map<string, string>): (r: map<string, string>)
    ensures r.Keys == prefs.Keys
    ensures UsernameKey in prefs ==> r[UsernameKey] == prefs[UsernameKey]
    ensures forall k :: k in r && k != UsernameKey ==> r[k] == ""
  {
    map k | k in prefs :: if k == UsernameKey then prefs[k] else ""
  }

  /** Reading a key right after writing it gives the written value; other
      keys read as before. */
  lemma GetAfterUpdate(prefs: map<string, string>, key: string, value: string, other: string)
    ensures Lookup(prefs[key := value], key) == Some(value)
    ensures other != key ==> Lookup(prefs[key := value], other) == Lookup(prefs, other)
  {
  }

  lemma ClearAllIdempotent(prefs: map<string, string>)
    ensures ClearedAll(ClearedAll(prefs)) == ClearedAll(prefs)
  {
  }

  lemma ClearExceptUsernameIdempotent(prefs: map<string, string>)
    ensures ClearedExceptUsername(ClearedExceptUsername(prefs)) == ClearedExceptUsername(prefs)
  {
  }

  /** After a full clear, every key that existed reads as "" and none is
      lost. */
  lemma GetAfterClear(prefs: map<string, string>, key: string)
    requires key in prefs
    ensures Lookup(ClearedAll(prefs), key) == Some("")
  {
  }

  /** The store: the in-memory image of `preferences.json`. */
  class PreferenceStore {
    var prefs: map<string, string>

    constructor (initial: map<string, string>)
      ensures prefs == initial
    {
      prefs := initial;
    }

    /** `get_preference`. */
    function Get(key: string): (r: Option<string>)
      reads this
      ensures r.Some? <==> key in prefs
      ensures r.Some? ==> r.value == prefs[key]
    {
      Lookup(prefs, key)
    }

    /** `update_preferences`: the key is added or overwritten, nothing else
        changes. */
    method Update(key: string, value: string)
      modifies this
      ensures prefs == old(prefs)[key := value]
      ensures prefs.Keys == old(prefs).Keys + {key}
    {
      prefs := prefs[key := value];
    }

    /** `clear_preferences`: a loop over the keys setting each value to "". */
    method Clear()
      modifies this
      ensures prefs == ClearedAll(old(prefs))
    {
      var pending := prefs.Keys;
      ghost var done: set<string> := {};
      while pending != {}
        invariant pending !! done && pending + done == old(prefs).Keys
        invariant prefs.Keys == old(prefs).Keys
        invariant forall k :: k in done ==> prefs[k] == ""
        invariant forall k :: k in pending ==> prefs[k] == old(prefs)[k]
        decreases pending
      {
        var k :| k in pending;
        prefs := prefs[k := ""];
        pending := pending - {k};
        done := done + {k};
      }
    }

    /** `clear_preferences_except_username`: the same loop, skipping the
        "username" key. */
    method ClearExceptUsername()
      modifies this
      ensures prefs == ClearedExceptUsername(old(prefs))
    {
      var pending := prefs.Keys;
      ghost var done: set<string> := {};
      while pending != {}
        invariant pending !! done && pending + done == old(prefs).Keys
        invariant prefs.Keys == old(prefs).Keys
        invariant forall k :: k in done ==> prefs[k] == if k == UsernameKey then old(prefs)[k] else ""
        invariant forall k :: k in pending ==> prefs[k] == old(prefs)[k]
        decreases pending
      {
        var k :| k in pending;
        if k != UsernameKey {
          prefs := prefs[k := ""];
        }
        pending := pending - {k};
        done := done + {k};
      }
    }
  }
}
