/**
 * Route tables.  Every table a server owns (`urlHandlers`, `getHandlers`,
 * `postHandlers`, `erorrHandlers`, `blockMimes`) and every object handed to a
 * registration call is a JavaScript object used as a dictionary.  Its `for ... in`
 * order is insertion order, and that order is the router's precedence.  A table is
 * therefore modelled as a sequence of entries; `obj[k] = v` is `Put`, and copying
 * one object into another key by key is `Merge`.
 */
module Tables {

  import opened Options

  datatype Entry<V> = Entry(key: string, value: V)

  type Table<V> = seq<Entry<V>>

  /** The keys in iteration order. */
  function Keys<V>(t: Table<V>): (ks: seq<string>)
    ensures |ks| == |t|
    ensures forall i :: 0 <= i < |t| ==> ks[i] == t[i].key
  {
    seq(|t|, i requires 0 <= i < |t| => t[i].key)
  }

  /** An object never holds the same property twice. */
  predicate Distinct<V>(t: Table<V>)
  {
    forall i, j :: 0 <= i < j < |t| ==> t[i].key != t[j].key
  }

  /** The position of key `k`, if it is present. */
  function Find<V>(t: Table<V>, k: string): (r: Option<nat>)
    ensures r.Some? ==> r.value < |t| && t[r.value].key == k
    ensures r.Some? ==> forall j :: 0 <= j < r.value ==> t[j].key != k
    ensures r.None? <==> k !in Keys(t)
  {
    if t == [] then None
    else if t[0].key == k then Some(0)
    else match Find(t[1..], k)
      case None => (assert Keys(t) == [t[0].key] + Keys(t[1..]); None)
      case Some(i) => Some(i + 1)
  }

  /** `obj[k]`: the value stored under `k`, or `undefined`. */
  function Lookup<V>(t: Table<V>, k: string): Option<V>
  {
    match Find(t, k)
    case None => None
    case Some(i) => Some(t[i].value)
  }

  /** The position `Find` reports is the first one holding the key. */
  lemma FindFirst<V>(t: Table<V>, k: string, i: nat)
    requires i < |t| && t[i].key == k
    requires forall j :: 0 <= j < i ==> t[j].key != k
    ensures Find(t, k) == Some(i)
  {
  }

  /** `obj[k] = v`: an existing key keeps its place and takes the new value; a new key goes last. */
  function Put<V>(t: Table<V>, k: string, v: V): Table<V>
  {
    if t == [] then [Entry(k, v)]
    else if t[0].key == k then [Entry(k, v)] + t[1..]
    else [t[0]] + Put(t[1..], k, v)
  }

  /** After `obj[k] = v`, `obj[k]` is `v`. */
  lemma {:induction false} PutLookup<V>(t: Table<V>, k: string, v: V)
    ensures Lookup(Put(t, k, v), k) == Some(v)
    decreases |t|
  {
    if t != [] && t[0].key != k {
      PutLookup(t[1..], k, v);
      assert Put(t, k, v)[1..] == Put(t[1..], k, v);
    }
  }

  /** A property is found in the first entry or else in the rest. */
  lemma LookupCons<V>(e: Entry<V>, t: Table<V>, k: string)
    ensures Lookup([e] + t, k) == if e.key == k then Some(e.value) else Lookup(t, k)
  {
    var u := [e] + t;
    assert u[0] == e && u[1..] == t;
    if e.key != k {
      match Find(t, k)
      case None =>
      case Some(i) => assert u[i + 1] == t[i];
    }
  }

  /** `obj[k] = v` leaves every other property as it was. */
  lemma {:induction false} PutOther<V>(t: Table<V>, k: string, v: V, k': string)
    requires k' != k
    ensures Lookup(Put(t, k, v), k') == Lookup(t, k')
    decreases |t|
  {
    if t == [] {
      LookupCons(Entry(k, v), [], k');
    } else {
      assert t == [t[0]] + t[1..];
      LookupCons(t[0], t[1..], k');
      if t[0].key == k {
        LookupCons(Entry(k, v), t[1..], k');
      } else {
        PutOther(t[1..], k, v, k');
        LookupCons(t[0], Put(t[1..], k, v), k');
      }
    }
  }

  lemma KeysCons<V>(e: Entry<V>, t: Table<V>)
    ensures Keys([e] + t) == [e.key] + Keys(t)
  {
  }

  /** `obj[k] = v` keeps the key order; a key new to the object goes last. */
  lemma {:induction false} PutKeys<V>(t: Table<V>, k: string, v: V)
    ensures k in Keys(t) ==> Keys(Put(t, k, v)) == Keys(t)
    ensures k !in Keys(t) ==> Keys(Put(t, k, v)) == Keys(t) + [k]
    decreases |t|
  {
    if t == [] {
      assert Keys(Put(t, k, v)) == [k];
    } else {
      var rest := t[1..];
      assert t == [t[0]] + rest;
      KeysCons(t[0], rest);
      if t[0].key == k {
        KeysCons(Entry(k, v), rest);
      } else {
        PutKeys(rest, k, v);
        KeysCons(t[0], Put(rest, k, v));
        assert k in Keys(t) <==> k in Keys(rest);
      }
    }
  }

  /** After `obj[k] = v` the keys are the old ones and `k`. */
  lemma PutKeysMember<V>(t: Table<V>, k: string, v: V, x: string)
    ensures x in Keys(Put(t, k, v)) <==> x in Keys(t) || x == k
  {
    PutKeys(t, k, v);
  }

  /** `obj[k] = v` never duplicates a key. */
  lemma PutDistinct<V>(t: Table<V>, k: string, v: V)
    requires Distinct(t)
    ensures Distinct(Put(t, k, v))
  {
    PutKeys(t, k, v);
    var r := Put(t, k, v);
    forall i, j | 0 <= i < j < |r| ensures r[i].key != r[j].key {
      assert Keys(r)[i] == r[i].key && Keys(r)[j] == r[j].key;
      if k in Keys(t) {
        assert Keys(t)[i] == t[i].key && Keys(t)[j] == t[j].key;
      } else if j < |t| {
        assert Keys(t)[i] == t[i].key && Keys(t)[j] == t[j].key;
      } else {
        assert Keys(t)[i] == t[i].key;
      }
    }
  }

  /** `for (key in u) t[key] = u[key]`: the entries of `u`, in its order, written into `t`. */
  function Merge<V>(t: Table<V>, u: Table<V>): Table<V>
    decreases |u|
  {
    if u == [] then t
    else
      var last := u[|u| - 1];
      Put(Merge(t, u[..|u| - 1]), last.key, last.value)
  }

  /** The keys of `u`, in its order, that `ks` does not already hold. */
  function NewKeys<V>(ks: seq<string>, u: Table<V>): seq<string>
    decreases |u|
  {
    if u == [] then []
    else
      var last := u[|u| - 1];
      NewKeys(ks, u[..|u| - 1]) + (if last.key in ks then [] else [last.key])
  }

  lemma {:induction false} NewKeysFromU<V>(ks: seq<string>, u: Table<V>, x: string)
    requires x in NewKeys(ks, u)
    ensures x in Keys(u) && x !in ks
    decreases |u|
  {
    if u != [] {
      var init := u[..|u| - 1];
      if x in NewKeys(ks, init) {
        NewKeysFromU(ks, init, x);
        assert Keys(u) == Keys(init) + [u[|u| - 1].key];
      }
    }
  }

  /** After a merge, a key of `u` has `u`'s value and every other key keeps its old value. */
  lemma {:induction false} MergeLookup<V>(t: Table<V>, u: Table<V>, k: string)
    requires Distinct(u)
    ensures Lookup(Merge(t, u), k) == if k in Keys(u) then Lookup(u, k) else Lookup(t, k)
    decreases |u|
  {
    if u != [] {
      var init := u[..|u| - 1];
      var last := u[|u| - 1];
      assert Keys(u) == Keys(init) + [last.key];
      MergeLookup(t, init, k);
      if k != last.key {
        PutOther(Merge(t, init), last.key, last.value, k);
        assert Find(u, k) == Find(init, k);
      } else {
        PutLookup(Merge(t, init), last.key, last.value);
        LastKeyFresh(u);
        FindFirst(u, k, |u| - 1);
      }
    }
  }

  /**
   * After a merge the old keys keep their positions, and the keys new to the table
   * follow in `u`'s order: re-registering a key never moves it.
   */
  lemma {:induction false} MergeKeys<V>(t: Table<V>, u: Table<V>)
    requires Distinct(u)
    ensures Keys(Merge(t, u)) == Keys(t) + NewKeys(Keys(t), u)
    decreases |u|
  {
    if u != [] {
      var init := u[..|u| - 1];
      var last := u[|u| - 1];
      MergeKeys(t, init);
      PutKeys(Merge(t, init), last.key, last.value);
      LastKeyFresh(u);
      if last.key !in Keys(t) {
        assert last.key !in Keys(Merge(t, init)) by {
          if last.key in NewKeys(Keys(t), init) {
            NewKeysFromU(Keys(t), init, last.key);
          }
        }
      }
    }
  }

  /** In an object, the last key is not among the keys before it. */
  lemma LastKeyFresh<V>(u: Table<V>)
    requires Distinct(u) && u != []
    ensures u[|u| - 1].key !in Keys(u[..|u| - 1])
  {
    var init := u[..|u| - 1];
    forall i | 0 <= i < |init| ensures Keys(init)[i] != u[|u| - 1].key {
      assert init[i] == u[i];
    }
  }

  /** A merge into an object keeps its keys distinct. */
  lemma {:induction false} MergeDistinct<V>(t: Table<V>, u: Table<V>)
    requires Distinct(t)
    ensures Distinct(Merge(t, u))
    decreases |u|
  {
    if u != [] {
      MergeDistinct(t, u[..|u| - 1]);
      PutDistinct(Merge(t, u[..|u| - 1]), u[|u| - 1].key, u[|u| - 1].value);
    }
  }

  /** Of two registrations of the same key, the later one wins. */
  lemma LaterRegistrationWins<V>(t: Table<V>, u1: Table<V>, u2: Table<V>, k: string)
    requires Distinct(u1) && Distinct(u2)
    requires k in Keys(u2)
    ensures Lookup(Merge(Merge(t, u1), u2), k) == Lookup(u2, k)
  {
    MergeLookup(Merge(t, u1), u2, k);
  }

  /** Merging an object entry by entry from the front: the first entry is written first. */
  lemma {:induction false} MergeCons<V>(t: Table<V>, e: Entry<V>, u: Table<V>)
    ensures Merge(t, [e] + u) == Merge(Put(t, e.key, e.value), u)
    decreases |u|
  {
    if u == [] {
      assert ([e] + u)[..0] == [];
    } else {
      var init := u[..|u| - 1];
      assert ([e] + u)[..|[e] + u| - 1] == [e] + init;
      MergeCons(t, e, init);
    }
  }

  /** Re-registering a key leaves it where it was, so its precedence does not change. */
  lemma MergeKeepsPosition<V>(t: Table<V>, u: Table<V>, k: string)
    requires Distinct(u) && k in Keys(t)
    ensures Find(Merge(t, u), k) == Find(t, k)
  {
    MergeKeys(t, u);
    var i := Find(t, k).value;
    var m := Merge(t, u);
    assert Keys(m)[i] == Keys(t)[i];
    forall j | 0 <= j < i ensures m[j].key != k {
      assert Keys(m)[j] == Keys(t)[j];
    }
    FindFirst(m, k, i);
  }
}
