/** The retirement of a pallet namespace: walks over raw storage prefixes, the proof that
    a namespace is idle, and the wipe that proof unlocks. */
module PrefixWalk {
  import opened Sums
  import opened Balances
  import opened Messages
  import opened IsmpHost
  import opened LexKeys

  const RETIRED_VERSION: nat := 1

  /** A pallet's hashed prefix, and the tail its storage-version key has in common with
      every other pallet's. */
  datatype Names = Names(prefixes: seq<Key>, versionTail: Key)
  {
    function VersionKey(prefix: Key): Key { prefix + versionTail }

    predicate IsRetired(k: Key) {
      exists i :: 0 <= i < |prefixes| && StartsWith(k, prefixes[i])
    }

    /** Anything under a prefix but the version key: user data. */
    predicate IsUserKey(k: Key) {
      exists i :: 0 <= i < |prefixes| && StartsWith(k, prefixes[i]) && k != VersionKey(prefixes[i]) && k != prefixes[i]
    }
  }

  function Extra(keys: set<Key>, prefix: Key, version: Key): set<Key> {
    Under(keys, prefix) - {version}
  }

  /** How far a walk has come: the keys under the prefix up to and including `key`. */
  function Visited(keys: set<Key>, prefix: Key, key: Key): set<Key> {
    Under(keys, prefix) - After(keys, key)
  }

  lemma WalkStarts(keys: set<Key>, prefix: Key)
    ensures StartsWith(prefix, prefix) && Visited(keys, prefix, prefix) == {}
  {
    forall k | k in Under(keys, prefix) ensures k in After(keys, prefix) { PrefixComesFirst(k, prefix); }
  }

  /** One step of a walk visits exactly one more key, or everything has been visited. */
  lemma WalkAdvances(keys: set<Key>, prefix: Key, key: Key)
    requires StartsWith(key, prefix)
    ensures var next := NextKey(keys, key);
      if next.Some? && StartsWith(next.value, prefix)
      then && next.value in Under(keys, prefix) && next.value !in Visited(keys, prefix, key)
           && Visited(keys, prefix, next.value) == Visited(keys, prefix, key) + {next.value}
           && |Visited(keys, prefix, key)| < |Under(keys, prefix)|
      else Visited(keys, prefix, key) == Under(keys, prefix)
  {
    NextStaysUnder(keys, prefix, key);
    var next := NextKey(keys, key);
    if next.Some? && StartsWith(next.value, prefix) {
      forall k | k in Under(keys, prefix)
        ensures k in Visited(keys, prefix, next.value) <==> k in Visited(keys, prefix, key) || k == next.value
      {
        VisitedStep(keys, prefix, key, next.value, k);
      }
      ProperlyFewer(Visited(keys, prefix, key), Under(keys, prefix), next.value);
    }
  }

  lemma VisitedStep(keys: set<Key>, prefix: Key, key: Key, next: Key, k: Key)
    requires k in Under(keys, prefix) && next in Under(keys, prefix) && Less(key, next)
    requires forall x :: x in Under(keys, prefix) && Less(key, x) && x != next ==> Less(next, x)
    ensures k in Visited(keys, prefix, next) <==> k in Visited(keys, prefix, key) || k == next
  {
    LessIrreflexive(next);
    if Less(next, k) { LessTransitive(key, next, k); }
  }

  lemma ProperlyFewer(a: set<Key>, b: set<Key>, k: Key)
    requires a <= b && k in b && k !in a
    ensures |a| < |b|
  {
    assert b == a + (b - a);
    assert k in b - a;
  }

  /** The walk ends, and counts exactly the stored keys that properly extend the prefix. */
  method CountKeysWithPrefix(keys: set<Key>, prefix: Key) returns (count: nat)
    ensures count == Min(|Under(keys, prefix)|, MAX_U64)
  {
    hide Under, Visited, StartsWith;
    count := 0;
    var key := prefix;
    WalkStarts(keys, prefix);
    var walking := true;
    while walking
      invariant StartsWith(key, prefix)
      invariant count == Min(|Visited(keys, prefix, key)|, MAX_U64)
      invariant !walking ==> Visited(keys, prefix, key) == Under(keys, prefix)
      invariant |Visited(keys, prefix, key)| <= |Under(keys, prefix)|
      decreases walking, |Under(keys, prefix)| - |Visited(keys, prefix, key)|
    {
      WalkAdvances(keys, prefix, key);
      var next := NextKey(keys, key);
      if next.None? || !StartsWith(next.value, prefix) {
        walking := false;
      } else {
        count := Min(count + 1, MAX_U64);
        key := next.value;
      }
    }
  }

  lemma OneMoreVisited(visited: set<Key>, next: Key, version: Key)
    requires next !in visited
    ensures |visited + {next} - {version}| == |visited - {version}| + if next == version then 0 else 1
  {
    if next == version {
      assert visited + {next} - {version} == visited - {version};
    } else {
      assert visited + {next} - {version} == visited - {version} + {next};
    }
  }

  /** The same walk, skipping the storage-version key when it is there. */
  method CountNonVersionKeys(keys: set<Key>, prefix: Key, version: Key) returns (count: nat)
    ensures count == Min(|Extra(keys, prefix, version)|, MAX_U64)
    ensures |Extra(keys, prefix, version)| == |Under(keys, prefix)| - if version in Under(keys, prefix) then 1 else 0
  {
    hide Under, Visited, StartsWith;
    count := 0;
    var key := prefix;
    WalkStarts(keys, prefix);
    var walking := true;
    while walking
      invariant StartsWith(key, prefix)
      invariant count == Min(|Visited(keys, prefix, key) - {version}|, MAX_U64)
      invariant !walking ==> Visited(keys, prefix, key) == Under(keys, prefix)
      invariant |Visited(keys, prefix, key)| <= |Under(keys, prefix)|
      decreases walking, |Under(keys, prefix)| - |Visited(keys, prefix, key)|
    {
      WalkAdvances(keys, prefix, key);
      var next := NextKey(keys, key);
      if next.None? || !StartsWith(next.value, prefix) {
        walking := false;
      } else {
        OneMoreVisited(Visited(keys, prefix, key), next.value, version);
        if next.value != version { count := Min(count + 1, MAX_U64); }
        key := next.value;
      }
    }
    if version !in Under(keys, prefix) { assert Extra(keys, prefix, version) == Under(keys, prefix); }
  }

  /** The namespace holds nothing but version keys under its prefixes. */
  ghost predicate Idle(keys: set<Key>, names: Names) {
    forall i :: 0 <= i < |names.prefixes| ==> Extra(keys, names.prefixes[i], names.VersionKey(names.prefixes[i])) == {}
  }

  lemma IdleIffNoUserKey(keys: set<Key>, names: Names)
    ensures Idle(keys, names) <==> forall k :: k in keys ==> !names.IsUserKey(k)
  {
    if k :| k in keys && names.IsUserKey(k) {
      var i :| 0 <= i < |names.prefixes| && StartsWith(k, names.prefixes[i])
          && k != names.VersionKey(names.prefixes[i]) && k != names.prefixes[i];
      assert k in Extra(keys, names.prefixes[i], names.VersionKey(names.prefixes[i]));
    }
  }

  function Wiped(keys: set<Key>, names: Names): set<Key> {
    set k | k in keys && !names.IsRetired(k)
  }

  /** Right after the idle assertion, the wipe deletes a key other than a version key if
      and only if some bare prefix is itself a key: the one key the walk cannot see. */
  lemma IdleWipeIsHarmlessIff(keys: set<Key>, names: Names)
    requires Idle(keys, names)
    ensures var deleted := keys - Wiped(keys, names);
      (forall k ::
          k in deleted ==> exists i :: 0 <= i < |names.prefixes| && k == names.VersionKey(names.prefixes[i])) <==>
      (forall i :: 0 <= i < |names.prefixes| && names.prefixes[i] in keys ==>
         exists j :: 0 <= j < |names.prefixes| && names.prefixes[i] == names.VersionKey(names.prefixes[j]))
  {
    var deleted := keys - Wiped(keys, names);
    forall i | 0 <= i < |names.prefixes| && names.prefixes[i] in keys ensures names.prefixes[i] in deleted {
      assert StartsWith(names.prefixes[i], names.prefixes[i]);
    }
    forall k | k in deleted
      ensures (exists i :: 0 <= i < |names.prefixes| && k == names.VersionKey(names.prefixes[i])) || k in names.prefixes
    {
      var i :| 0 <= i < |names.prefixes| && StartsWith(k, names.prefixes[i]);
      assert k !in Extra(keys, names.prefixes[i], names.VersionKey(names.prefixes[i]));
      if k != names.prefixes[i] { assert k == names.VersionKey(names.prefixes[i]); }
    }
  }

  /** An idle namespace whose wipe deletes more than a version key: its bare prefix. */
  lemma BareKeyIsWiped()
    ensures var names, keys: set<Key> := Names([[1]], [2]), {[1]};
      && Idle(keys, names) && [1] in keys - Wiped(keys, names)
      && [1] != names.VersionKey(names.prefixes[0])
  {
    var names, keys: set<Key> := Names([[1]], [2]), {[1]};
    assert Under(keys, [1]) == {};
    assert StartsWith([1], names.prefixes[0]);
    assert |names.VersionKey(names.prefixes[0])| == 2;
  }

  class Namespace {
    var keys: set<Key>
    var idleVersion: nat

    constructor (keys: set<Key>)
      ensures this.keys == keys && idleVersion == 0
    {
      this.keys, idleVersion := keys, 0;
    }

    /** Stamps the version exactly when every prefix is idle; already stamped, it checks
        nothing again. */
    method AssertIdle(names: Names) returns (ok: bool)
      modifies this`idleVersion
      ensures ok <==> old(idleVersion) >= RETIRED_VERSION || Idle(keys, names)
      ensures idleVersion == if ok && old(idleVersion) < RETIRED_VERSION then RETIRED_VERSION else old(idleVersion)
    {
      if idleVersion >= RETIRED_VERSION { return true; }
      for i := 0 to |names.prefixes|
        invariant forall j :: 0 <= j < i ==> Extra(keys, names.prefixes[j], names.VersionKey(names.prefixes[j])) == {}
        invariant idleVersion == old(idleVersion)
      {
        var extra := CountNonVersionKeys(keys, names.prefixes[i], names.VersionKey(names.prefixes[i]));
        if extra > 0 { return false; }
      }
      idleVersion := RETIRED_VERSION;
      ok := true;
    }

    /** The gated wipe: blocked unless stamped, and then every key with a retired prefix
        goes. */
    method RemoveAfterIdle(names: Names) returns (ok: bool)
      modifies this`keys
      ensures ok <==> idleVersion >= RETIRED_VERSION
      ensures keys == if ok then Wiped(old(keys), names) else old(keys)
    {
      if idleVersion < RETIRED_VERSION { return false; }
      for i := 0 to |names.prefixes|
        invariant keys == set k | k in old(keys) && !exists j :: 0 <= j < i && StartsWith(k, names.prefixes[j])
      {
        keys := set k | k in keys && !StartsWith(k, names.prefixes[i]);
      }
      ok := true;
    }

    /** The two migrations in the order they run, from a namespace not yet stamped: either
        nothing is deleted, or no user key was there to delete. */
    method Retire(names: Names) returns (wiped: bool)
      requires idleVersion < RETIRED_VERSION
      modifies this
      ensures wiped <==> forall k :: k in old(keys) ==> !names.IsUserKey(k)
      ensures keys == if wiped then Wiped(old(keys), names) else old(keys)
      ensures forall k :: k in old(keys) && names.IsUserKey(k) ==> k in keys
    {
      IdleIffNoUserKey(keys, names);
      wiped := AssertIdle(names);
      if wiped { wiped := RemoveAfterIdle(names); }
    }
  }
}
