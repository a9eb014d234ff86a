/** persist.go: the `Persist` file name with its `.persist` extension, and
    the `Map` of keys stamped with the time they were added, drained by the
    function `Next` returns. */
module PersistGo {
  import opened GoText
  import opened Fields

  const Ext := ".persist"

  /** The name `filename` settles on: the extension appended when missing. */
  function WithExt(name: string): (r: string)
    ensures HasSuffix(r, Ext)
    ensures HasSuffix(name, Ext) ==> r == name
    ensures !HasSuffix(name, Ext) ==> r == name + Ext
  {
    if HasSuffix(name, Ext) then name else
      assert (name + Ext)[|name + Ext| - |Ext|..] == Ext;
      name + Ext
  }

  /** Settling the name twice is settling it once. */
  lemma WithExtIdempotent(name: string)
    ensures WithExt(WithExt(name)) == WithExt(name)
  {
  }

  /** The `Persist` string type; `filename` changes it through its pointer. */
  class Persist {
    var name: string

    constructor (name: string)
      ensures this.name == name
    {
      this.name := name;
    }

    /** `filename`: the extension is appended to the name itself. */
    method Filename() returns (r: string)
      modifies this
      ensures name == WithExt(old(name)) && r == name
    {
      if !HasSuffix(name, Ext) {
        name := name + Ext;
      }
      r := name;
    }
  }

  /** Whether an entry stamped `t` has outlived a non-zero `age` at `now`. */
  predicate Expired(t: int, age: int, now: int) {
    age > 0 && t < now - age
  }

  /** The `Map` type: keys with the time they were added. */
  class StampMap {
    var entries: map<string, int>

    /** `NewMap` */
    constructor ()
      ensures entries == map[]
    {
      entries := map[];
    }

    /** `Add`: an empty key is ignored; any other is stamped `now`, a key
        already there is stamped again. */
    method Add(k: string, now: int)
      modifies this
      ensures entries == if k != "" then old(entries)[k := now] else old(entries)
    {
      if |k| > 0 {
        entries := entries[k := now];
      }
    }

    /** `Next`: whether it returns a function rather than nil. */
    method Next() returns (some: bool)
      ensures some <==> entries != map[]
    {
      some := |entries| != 0;
    }

    /** One call of the function `Next` returns: keys are visited in any
        order; an expired one is deleted and skipped; the first unexpired
        one is deleted and returned. */
    method Take(age: int, now: int) returns (key: string, more: bool)
      modifies this
      ensures entries.Keys <= old(entries).Keys
      ensures forall k :: k in entries ==> entries[k] == old(entries)[k]
      ensures more ==> key in old(entries) && !Expired(old(entries)[key], age, now) && key !in entries
      ensures forall k :: k in old(entries) && k !in entries && !(more && k == key) ==> Expired(old(entries)[k], age, now)
      ensures !more ==> key == "" && entries == map[]
      ensures more ==> |entries| < |old(entries)|
    {
      while entries != map[]
        invariant entries.Keys <= old(entries).Keys
        invariant forall k :: k in entries ==> entries[k] == old(entries)[k]
        invariant forall k :: k in old(entries) && k !in entries ==> Expired(old(entries)[k], age, now)
        invariant |entries| <= |old(entries)|
        decreases |entries|
      {
        var k :| k in entries;
        if age > 0 && entries[k] < now - age {
          entries := entries - {k};
          continue;
        }
        entries := entries - {k};
        return k, true;
      }
      return "", false;
    }

    /** The loop of the usage note: call the function until it reports no
        more. Every unexpired key comes out exactly once and the map ends
        empty. */
    method Drain(age: int, now: int) returns (keys: seq<string>)
      modifies this
      ensures entries == map[]
      ensures forall i, j :: 0 <= i < j < |keys| ==> keys[i] != keys[j]
      ensures forall k :: k in keys <==> k in old(entries) && !Expired(old(entries)[k], age, now)
    {
      keys := [];
      var more := true;
      while more
        invariant entries.Keys <= old(entries).Keys
        invariant forall k :: k in entries ==> entries[k] == old(entries)[k]
        invariant forall i, j :: 0 <= i < j < |keys| ==> keys[i] != keys[j]
        invariant forall k :: k in keys ==> k in old(entries) && k !in entries && !Expired(old(entries)[k], age, now)
        invariant forall k :: k in old(entries) && k !in entries && k !in keys ==> Expired(old(entries)[k], age, now)
        invariant !more ==> entries == map[]
        decreases |entries|, more
      {
        var key;
        key, more := Take(age, now);
        if more {
          keys := keys + [key];
        }
      }
    }
  }
}
