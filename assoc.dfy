module Options {
  datatype Option<+T> = None | Some(value: T)
}

/** Python dicts and lists as the translation layer uses them: dicts keep insertion
    order, and every table it builds follows the rule "the first claim of a key wins"
    (`if k not in d: d[k] = v`, `if e not in l: l.append(e)`). */
module Assoc {
  import opened Options

  /** A dict in insertion order: a list of (key, value) entries. */
  type Table<V> = seq<(string, V)>

  function Keys<V>(t: Table<V>): (ks: seq<string>)
    ensures |ks| == |t| && forall i :: 0 <= i < |t| ==> ks[i] == t[i].0
  {
    seq(|t|, i requires 0 <= i < |t| => t[i].0)
  }

  predicate UniqueKeys<V>(t: Table<V>) {
    forall i, j :: 0 <= i < j < |t| ==> t[i].0 != t[j].0
  }

  /** d.get(k): the value of the first entry whose key is k. */
  function Lookup<V>(t: Table<V>, k: string): Option<V>
    decreases |t|
  {
    if t == [] then None else if t[0].0 == k then Some(t[0].1) else Lookup(t[1..], k)
  }

  /** `if k not in d: d[k] = v` (a later claim of k is dropped). */
  function ClaimFirst<V>(t: Table<V>, k: string, v: V): Table<V> {
    if k in Keys(t) then t else t + [(k, v)]
  }

  /** The claims cs offered one after the other to the table t. */
  function FirstClaims<V>(t: Table<V>, cs: Table<V>): Table<V>
    decreases |cs|
  {
    if cs == [] then t else ClaimFirst(FirstClaims(t, cs[..|cs| - 1]), cs[|cs| - 1].0, cs[|cs| - 1].1)
  }

  lemma {:induction false} LookupSomeIffKey<V>(t: Table<V>, k: string)
    ensures Lookup(t, k).Some? <==> k in Keys(t)
    decreases |t|
  {
    if t != [] {
      LookupSomeIffKey(t[1..], k);
      assert Keys(t) == [t[0].0] + Keys(t[1..]);
    }
  }

  lemma {:induction false} LookupAppend<V>(a: Table<V>, b: Table<V>, k: string)
    ensures Lookup(a + b, k) == if Lookup(a, k).Some? then Lookup(a, k) else Lookup(b, k)
    decreases |a|
  {
    if a == [] {
      assert a + b == b;
    } else {
      assert (a + b)[1..] == a[1..] + b;
      LookupAppend(a[1..], b, k);
    }
  }

  /** Earlier entries are never changed or removed by later claims. */
  lemma {:induction false} FirstClaimsExtends<V>(t: Table<V>, cs: Table<V>)
    ensures |FirstClaims(t, cs)| >= |t| && FirstClaims(t, cs)[..|t|] == t
    decreases |cs|
  {
    if cs != [] {
      FirstClaimsExtends(t, cs[..|cs| - 1]);
    }
  }

  /** Offering a + b is offering a, then b. */
  lemma {:induction false} FirstClaimsAppend<V>(t: Table<V>, a: Table<V>, b: Table<V>)
    ensures FirstClaims(t, a + b) == FirstClaims(FirstClaims(t, a), b)
    decreases |b|
  {
    if b == [] {
      assert a + b == a;
    } else {
      assert (a + b)[..|a + b| - 1] == a + b[..|b| - 1];
      FirstClaimsAppend(t, a, b[..|b| - 1]);
    }
  }

  /** No key is ever entered twice. */
  lemma {:induction false} FirstClaimsUnique<V>(t: Table<V>, cs: Table<V>)
    requires UniqueKeys(t)
    ensures UniqueKeys(FirstClaims(t, cs))
    decreases |cs|
  {
    if cs != [] {
      FirstClaimsUnique(t, cs[..|cs| - 1]);
      var prev := FirstClaims(t, cs[..|cs| - 1]);
      var k := cs[|cs| - 1].0;
      if k !in Keys(prev) {
        assert forall i :: 0 <= i < |prev| ==> prev[i].0 != k;
      }
    }
  }

  /** First claim wins: looking a key up in the built table gives the value of its FIRST
      occurrence in the table followed by all the claims, in order. */
  lemma {:induction false} FirstClaimsLookup<V>(t: Table<V>, cs: Table<V>, q: string)
    ensures Lookup(FirstClaims(t, cs), q) == Lookup(t + cs, q)
    decreases |cs|
  {
    if cs == [] {
      assert t + cs == t;
    } else {
      var init := cs[..|cs| - 1];
      var (k, v) := cs[|cs| - 1];
      var prev := FirstClaims(t, init);
      FirstClaimsLookup(t, init, q);
      assert t + cs == (t + init) + [(k, v)];
      LookupAppend(t + init, [(k, v)], q);
      LookupAppend(prev, [(k, v)], q);
      LookupSomeIffKey(prev, k);
    }
  }

  /** The keys of the built table are exactly the keys offered. */
  lemma FirstClaimsKeys<V>(t: Table<V>, cs: Table<V>, q: string)
    ensures q in Keys(FirstClaims(t, cs)) <==> q in Keys(t) || q in Keys(cs)
  {
    FirstClaimsLookup(t, cs, q);
    LookupSomeIffKey(FirstClaims(t, cs), q);
    LookupSomeIffKey(t, q);
    LookupSomeIffKey(cs, q);
    LookupAppend(t, cs, q);
  }

  predicate NoDuplicates(xs: seq<string>) {
    forall i, j :: 0 <= i < j < |xs| ==> xs[i] != xs[j]
  }

  /** `if e not in l: l.append(e)` for every e of cs in order. */
  function AppendNew(xs: seq<string>, cs: seq<string>): seq<string>
    decreases |cs|
  {
    if cs == [] then xs
    else
      var prev := AppendNew(xs, cs[..|cs| - 1]);
      if cs[|cs| - 1] in prev then prev else prev + [cs[|cs| - 1]]
  }

  /** Appending two parts one after the other appends their concatenation. */
  lemma AppendAssoc<T>(t: seq<T>, a: seq<T>, b: seq<T>)
    ensures t + a + b == t + (a + b)
  {
  }

  /** A prefix of a prefix is a prefix. */
  lemma PrefixTransitive<T>(a: seq<T>, b: seq<T>, c: seq<T>)
    requires |a| <= |b| <= |c| && b[..|a|] == a && c[..|b|] == b
    ensures c[..|a|] == a
  {
    assert c[..|a|] == c[..|b|][..|a|];
  }

  /** What c adds to a is what b adds to a, then what c adds to b. */
  lemma TailSplit<T>(a: seq<T>, b: seq<T>, c: seq<T>)
    requires |a| <= |b| <= |c| && c[..|b|] == b
    ensures c[|a|..] == b[|a|..] + c[|b|..]
  {
  }

  lemma {:induction false} AppendNewAppend(xs: seq<string>, a: seq<string>, b: seq<string>)
    ensures AppendNew(xs, a + b) == AppendNew(AppendNew(xs, a), b)
    decreases |b|
  {
    if b == [] {
      assert a + b == a;
    } else {
      assert (a + b)[..|a + b| - 1] == a + b[..|b| - 1];
      AppendNewAppend(xs, a, b[..|b| - 1]);
    }
  }

  /** The list only grows at its end, keeps no duplicate and holds exactly the
      elements offered. */
  lemma {:induction false} AppendNewProperties(xs: seq<string>, cs: seq<string>)
    requires NoDuplicates(xs)
    ensures |AppendNew(xs, cs)| >= |xs| && AppendNew(xs, cs)[..|xs|] == xs
    ensures NoDuplicates(AppendNew(xs, cs))
    ensures forall e :: e in AppendNew(xs, cs) <==> e in xs || e in cs
    decreases |cs|
  {
    if cs != [] {
      var init := cs[..|cs| - 1];
      AppendNewProperties(xs, init);
      assert forall e :: e in cs <==> e in init || e == cs[|cs| - 1];
    }
  }
}
