/** Storage keys in lexicographic order: the next key after a key, and the keys that
    extend a prefix, which lie next to each other. */
module LexKeys {
  import opened Balances
  import opened Messages

  type Key = seq<Byte>

  predicate Less(a: Key, b: Key) {
    b != [] && (a == [] || a[0] < b[0] || (a[0] == b[0] && Less(a[1..], b[1..])))
  }

  predicate StartsWith(k: Key, prefix: Key) {
    |prefix| <= |k| && k[..|prefix|] == prefix
  }

  /** The keys that extend the prefix by at least one byte. */
  function Under(keys: set<Key>, prefix: Key): set<Key> {
    set k | k in keys && StartsWith(k, prefix) && k != prefix
  }

  function After(keys: set<Key>, k: Key): set<Key> {
    set x | x in keys && Less(k, x)
  }

  lemma {:induction false} LessIrreflexive(a: Key)
    ensures !Less(a, a)
  {
    if a != [] { LessIrreflexive(a[1..]); }
  }

  lemma {:induction false} LessTransitive(a: Key, b: Key, c: Key)
    requires Less(a, b) && Less(b, c)
    ensures Less(a, c)
  {
    if a != [] && b != [] && a[0] == b[0] == c[0] { LessTransitive(a[1..], b[1..], c[1..]); }
  }

  lemma {:induction false} LessTotal(a: Key, b: Key)
    ensures Less(a, b) || a == b || Less(b, a)
  {
    if a != [] && b != [] && a[0] == b[0] {
      LessTotal(a[1..], b[1..]);
      assert a == [a[0]] + a[1..] && b == [b[0]] + b[1..];
    }
  }

  /** A prefix comes before everything that properly extends it. */
  lemma {:induction false} PrefixComesFirst(k: Key, prefix: Key)
    requires StartsWith(k, prefix) && k != prefix
    ensures Less(prefix, k)
  {
    if prefix != [] {
      assert k[0] == k[..|prefix|][0];
      assert k[1..][..|prefix| - 1] == k[..|prefix|][1..];
      assert k == [k[0]] + k[1..] && prefix == [prefix[0]] + prefix[1..];
      PrefixComesFirst(k[1..], prefix[1..]);
    }
  }

  /** Between two keys with a common prefix every key has it. */
  lemma {:induction false} PrefixIsContiguous(x: Key, y: Key, z: Key, prefix: Key)
    requires StartsWith(x, prefix) && StartsWith(z, prefix) && Less(x, y) && Less(y, z)
    ensures StartsWith(y, prefix)
    decreases |prefix|
  {
    if prefix != [] {
      assert x[0] == x[..|prefix|][0] == prefix[0];
      assert z[0] == z[..|prefix|][0] == prefix[0];
      assert x[1..][..|prefix| - 1] == x[..|prefix|][1..];
      assert z[1..][..|prefix| - 1] == z[..|prefix|][1..];
      PrefixIsContiguous(x[1..], y[1..], z[1..], prefix[1..]);
      assert y[..|prefix|] == [y[0]] + y[1..][..|prefix| - 1];
      assert prefix == [prefix[0]] + prefix[1..];
    }
  }

  predicate IsFirst(keys: set<Key>, n: Key) {
    n in keys && forall x :: x in keys && x != n ==> Less(n, x)
  }

  lemma {:induction false} SomeKeyIsFirst(keys: set<Key>)
    requires keys != {}
    ensures exists n :: IsFirst(keys, n)
    decreases |keys|
  {
    hide Less;
    var a :| a in keys;
    var rest := keys - {a};
    if rest == {} {
      assert keys == {a};
      assert IsFirst(keys, a);
    } else {
      SomeKeyIsFirst(rest);
      var b :| IsFirst(rest, b);
      LessTotal(a, b);
      if Less(a, b) {
        forall x | x in keys && x != a ensures Less(a, x) { if x != b { LessTransitive(a, b, x); } }
        assert IsFirst(keys, a);
      } else {
        assert IsFirst(keys, b);
      }
    }
  }

  lemma FirstIsUnique(keys: set<Key>, n: Key, m: Key)
    requires IsFirst(keys, n) && IsFirst(keys, m)
    ensures n == m
  {
    if n != m {
      LessTransitive(n, m, n);
      LessIrreflexive(n);
      assert false;
    }
  }

  /** The storage's cursor: the first key strictly after `k`. */
  function NextKey(keys: set<Key>, k: Key): (next: Option<Key>)
    ensures next.None? <==> After(keys, k) == {}
    ensures next.Some? ==> IsFirst(After(keys, k), next.value)
  {
    var later := After(keys, k);
    if later == {} then None
    else
      SomeKeyIsFirst(later);
      assert forall n, m :: IsFirst(later, n) && IsFirst(later, m) ==> n == m by {
        forall n, m | IsFirst(later, n) && IsFirst(later, m) ensures n == m { FirstIsUnique(later, n, m); }
      }
      var n :| IsFirst(later, n);
      Some(n)
  }

  /** From the prefix or from a key under it, the next key is under the prefix exactly when
      any key under the prefix is still ahead. */
  lemma NextStaysUnder(keys: set<Key>, prefix: Key, k: Key)
    requires StartsWith(k, prefix)
    ensures var next := NextKey(keys, k);
      (next.Some? && StartsWith(next.value, prefix)) <==> Under(keys, prefix) * After(keys, k) != {}
    ensures var next := NextKey(keys, k);
      next.Some? && StartsWith(next.value, prefix) ==>
        && next.value in Under(keys, prefix) && Less(k, next.value)
        && forall x :: x in Under(keys, prefix) && Less(k, x) && x != next.value ==> Less(next.value, x)
  {
    var next := NextKey(keys, k);
    if next.Some? && StartsWith(next.value, prefix) {
      NotThePrefix(prefix, k, next.value);
      assert next.value in Under(keys, prefix) * After(keys, k);
    }
    if x :| x in Under(keys, prefix) * After(keys, k) {
      assert x in After(keys, k);
      if x != next.value { PrefixIsContiguous(k, next.value, x, prefix); }
    }
  }

  /** Nothing after a key with the prefix is the prefix itself. */
  lemma NotThePrefix(prefix: Key, k: Key, x: Key)
    requires StartsWith(k, prefix) && Less(k, x)
    ensures x != prefix
  {
    LessIrreflexive(k);
    if k != prefix {
      PrefixComesFirst(k, prefix);
      if x == prefix {
        LessTransitive(k, x, k);
        assert false;
      }
    }
  }
}
