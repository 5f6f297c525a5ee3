/** The quota ledger: the spawner's ordered map from actor class to the
    number of actors of that class still to spawn (`ActorsToSpawn`).

    The engine's `TMap` is modelled as a dense sequence of (class, amount)
    pairs in the map's iteration order; a key occurs at most once (`DistinctKeys`). */
module Ledger {

  datatype Option<T> = None | Some(value: T)

  /** A class pointer as stored in the map: null, or a class that does or
      does not derive from the engine's actor base class. */
  datatype ClassRef = Null | Class(id: nat, isActor: bool)

  type Entry = (ClassRef, int)

  /** The test of `CheckClassValidity`: non-null and a child of the actor class. */
  predicate IsSpawnable(c: ClassRef) {
    c.Class? && c.isActor
  }

  /** The keys of the map, in iteration order. */
  function Keys(e: seq<Entry>): (ks: seq<ClassRef>)
    ensures |ks| == |e|
    ensures forall i :: 0 <= i < |e| ==> ks[i] == e[i].0
  {
    if e == [] then [] else [e[0].0] + Keys(e[1..])
  }

  predicate DistinctKeys(e: seq<Entry>) {
    forall i, j :: 0 <= i < j < |e| ==> e[i].0 != e[j].0
  }

  /** Every amount in the map is non-negative. */
  predicate NonNegative(e: seq<Entry>) {
    forall i :: 0 <= i < |e| ==> e[i].1 >= 0
  }

  /** Every key of the map passes the validity test. */
  predicate AllSpawnable(e: seq<Entry>) {
    forall i :: 0 <= i < |e| ==> IsSpawnable(e[i].0)
  }

  /** `TMap::Find`: the amount stored for `c`, if `c` is a key. */
  function Find(e: seq<Entry>, c: ClassRef): (r: Option<int>)
    ensures r.Some? <==> c in Keys(e)
  {
    if e == [] then None
    else if e[0].0 == c then Some(e[0].1)
    else Find(e[1..], c)
  }

  /** The sum of all amounts: how many actors the map asks for. */
  function SumCounts(e: seq<Entry>): int {
    if e == [] then 0 else e[0].1 + SumCounts(e[1..])
  }

  /** `TMap::Add` / `FindOrAdd(c) = n`: an existing key keeps its position and
      takes the new amount; a new key goes after the others (the engine's
      reuse of a slot freed by an earlier removal is not modelled). */
  function Put(e: seq<Entry>, c: ClassRef, n: int): (r: seq<Entry>)
    ensures Keys(r) == if c in Keys(e) then Keys(e) else Keys(e) + [c]
  {
    if e == [] then [(c, n)]
    else if e[0].0 == c then [(c, n)] + e[1..]
    else [e[0]] + Put(e[1..], c, n)
  }

  /** `TMap::Append`: every pair of `o`, in `o`'s order, is `Put` into `e`. */
  function Merge(e: seq<Entry>, o: seq<Entry>): (r: seq<Entry>)
    ensures |e| <= |r| <= |e| + |o|
    decreases |o|
  {
    if o == [] then e else Merge(Put(e, o[0].0, o[0].1), o[1..])
  }

  /** `TMap::Remove(c)`. */
  function Without(e: seq<Entry>, c: ClassRef): seq<Entry> {
    RemoveAll(e, [c])
  }

  /** The map without the pairs whose key is one of `ks`. */
  function RemoveAll(e: seq<Entry>, ks: seq<ClassRef>): (r: seq<Entry>)
    ensures |r| <= |e|
  {
    if e == [] then []
    else (if e[0].0 in ks then [] else [e[0]]) + RemoveAll(e[1..], ks)
  }

  /** The map that `CheckClassValidity` leaves: the pairs with a spawnable key,
      in their original order. */
  function Validated(e: seq<Entry>): (r: seq<Entry>)
    ensures AllSpawnable(r)
    ensures |r| <= |e|
  {
    if e == [] then []
    else (if IsSpawnable(e[0].0) then [e[0]] else []) + Validated(e[1..])
  }

  // ---------------------------------------------------------------------
  // Lemmas

  lemma {:induction false} DistinctKeysTail(e: seq<Entry>)
    requires DistinctKeys(e) && e != []
    ensures DistinctKeys(e[1..]) && e[0].0 !in Keys(e[1..])
  {
    var t := e[1..];
    forall j | 0 <= j < |t| ensures Keys(t)[j] != e[0].0 {
      assert t[j] == e[j + 1];
    }
  }

  lemma {:induction false} DistinctKeysCons(x: Entry, t: seq<Entry>)
    requires DistinctKeys(t) && x.0 !in Keys(t)
    ensures DistinctKeys([x] + t)
  {
    var e := [x] + t;
    forall i, j | 0 <= i < j < |e| ensures e[i].0 != e[j].0 {
      if i == 0 {
        assert e[j].0 == Keys(t)[j - 1];
      } else {
        assert e[i] == t[i - 1] && e[j] == t[j - 1];
      }
    }
  }

  /** After `Put(e, c, n)` the map sends `c` to `n` and every other key to
      what it was sent to before. */
  lemma {:induction false} PutFind(e: seq<Entry>, c: ClassRef, n: int, d: ClassRef)
    ensures Find(Put(e, c, n), d) == if d == c then Some(n) else Find(e, d)
  {
    if e != [] && e[0].0 != c {
      PutFind(e[1..], c, n, d);
    }
  }

  /** `Put` leaves every pair with another key where it was. */
  lemma {:induction false} PutKeepsOthers(e: seq<Entry>, c: ClassRef, n: int, i: int)
    requires 0 <= i < |e| && e[i].0 != c
    ensures |Put(e, c, n)| >= |e| && Put(e, c, n)[i] == e[i]
  {
    if i > 0 && e[0].0 != c {
      PutKeepsOthers(e[1..], c, n, i - 1);
    }
  }

  /** `Put` keeps the keys distinct. */
  lemma {:induction false} PutDistinct(e: seq<Entry>, c: ClassRef, n: int)
    requires DistinctKeys(e)
    ensures DistinctKeys(Put(e, c, n))
  {
    var r := Put(e, c, n);
    forall i, j | 0 <= i < j < |r| ensures r[i].0 != r[j].0 {
      assert Keys(r)[i] == r[i].0 && Keys(r)[j] == r[j].0;
      if c in Keys(e) {
        assert Keys(e)[i] == e[i].0 && Keys(e)[j] == e[j].0;
      } else if j < |e| {
        assert Keys(e)[i] == e[i].0 && Keys(e)[j] == e[j].0;
      } else {
        assert Keys(e)[i] == e[i].0;
      }
    }
  }

  /** After `Append`, a key of `o` has `o`'s amount, any other key keeps its
      amount, and the keys are still distinct. */
  lemma {:induction false} MergeFind(e: seq<Entry>, o: seq<Entry>)
    requires DistinctKeys(e) && DistinctKeys(o)
    ensures DistinctKeys(Merge(e, o))
    ensures forall d :: Find(Merge(e, o), d) == if d in Keys(o) then Find(o, d) else Find(e, d)
    decreases |o|
  {
    if o != [] {
      var e1 := Put(e, o[0].0, o[0].1);
      PutDistinct(e, o[0].0, o[0].1);
      DistinctKeysTail(o);
      MergeFind(e1, o[1..]);
      assert Keys(o) == [o[0].0] + Keys(o[1..]);
      forall d ensures Find(Merge(e, o), d) == if d in Keys(o) then Find(o, d) else Find(e, d) {
        PutFind(e, o[0].0, o[0].1, d);
      }
    }
  }

  /** `Append` keeps the existing keys in their order and adds only keys of `o`. */
  lemma {:induction false} MergeKeys(e: seq<Entry>, o: seq<Entry>)
    ensures Keys(e) <= Keys(Merge(e, o))
    ensures forall d :: d in Keys(Merge(e, o)) <==> d in Keys(e) || d in Keys(o)
    decreases |o|
  {
    if o != [] {
      var e1 := Put(e, o[0].0, o[0].1);
      MergeKeys(e1, o[1..]);
      assert Keys(o) == [o[0].0] + Keys(o[1..]);
    }
  }

  /** Removing no key changes nothing. */
  lemma {:induction false} RemoveNone(e: seq<Entry>)
    ensures RemoveAll(e, []) == e
  {
    if e != [] {
      RemoveNone(e[1..]);
    }
  }

  /** Removing keys one at a time is removing them all at once. */
  lemma {:induction false} RemoveAllSnoc(e: seq<Entry>, ks: seq<ClassRef>, c: ClassRef)
    ensures Without(RemoveAll(e, ks), c) == RemoveAll(e, ks + [c])
  {
    if e != [] {
      RemoveAllSnoc(e[1..], ks, c);
      var head := if e[0].0 in ks then [] else [e[0]];
      assert RemoveAll(e, ks) == head + RemoveAll(e[1..], ks);
      if head == [] {
        assert e[0].0 in ks + [c];
        assert RemoveAll(e, ks) == RemoveAll(e[1..], ks);
        assert RemoveAll(e, ks + [c]) == RemoveAll(e[1..], ks + [c]);
      } else {
        assert RemoveAll(e, ks)[0] == e[0];
        assert RemoveAll(e, ks)[1..] == RemoveAll(e[1..], ks);
      }
    }
  }

  /** Removing exactly the invalid keys is `Validated`. */
  lemma {:induction false} RemoveInvalidIsValidated(e: seq<Entry>, ks: seq<ClassRef>)
    requires forall i :: 0 <= i < |e| ==> (e[i].0 in ks <==> !IsSpawnable(e[i].0))
    ensures RemoveAll(e, ks) == Validated(e)
  {
    if e != [] {
      assert e[0].0 in ks <==> !IsSpawnable(e[0].0);
      forall i | 0 <= i < |e[1..]| ensures e[1..][i].0 in ks <==> !IsSpawnable(e[1..][i].0) {
        assert e[1..][i] == e[i + 1];
      }
      RemoveInvalidIsValidated(e[1..], ks);
    }
  }

  /** The validity pass keeps the amount of every spawnable key and drops every other key. */
  lemma {:induction false} ValidatedFind(e: seq<Entry>, c: ClassRef)
    ensures Find(Validated(e), c) == if IsSpawnable(c) then Find(e, c) else None
  {
    if e != [] {
      ValidatedFind(e[1..], c);
      var v := Validated(e[1..]);
      if IsSpawnable(e[0].0) {
        assert Validated(e) == [e[0]] + v;
        assert ([e[0]] + v)[1..] == v;
      } else {
        assert Validated(e) == v;
      }
    }
  }

  /** `ValidatedFind` for every key at once. */
  lemma ValidatedFindAll(e: seq<Entry>)
    ensures forall c :: Find(Validated(e), c) == if IsSpawnable(c) then Find(e, c) else None
  {
    forall c ensures Find(Validated(e), c) == if IsSpawnable(c) then Find(e, c) else None {
      ValidatedFind(e, c);
    }
  }

  /** The validity pass keeps amounts non-negative. */
  lemma {:induction false} ValidatedNonNegative(e: seq<Entry>)
    requires NonNegative(e)
    ensures NonNegative(Validated(e))
  {
    if e != [] {
      assert NonNegative(e[1..]) by {
        forall i | 0 <= i < |e| - 1 ensures e[1..][i].1 >= 0 { assert e[1..][i] == e[i + 1]; }
      }
      ValidatedNonNegative(e[1..]);
    }
  }

  /** A map whose keys are all spawnable is left as it is by the validity pass. */
  lemma {:induction false} ValidatedOfValid(e: seq<Entry>)
    requires AllSpawnable(e)
    ensures Validated(e) == e
  {
    if e != [] {
      assert IsSpawnable(e[0].0);
      ValidatedOfValid(e[1..]);
    }
  }

  /** Running the validity pass twice gives the same map as running it once. */
  lemma ValidatedIdempotent(e: seq<Entry>)
    ensures Validated(Validated(e)) == Validated(e)
  {
    ValidatedOfValid(Validated(e));
  }

  /** The validity pass keeps the pairs it keeps in order, so it keeps keys distinct. */
  lemma {:induction false} ValidatedDistinct(e: seq<Entry>)
    requires DistinctKeys(e)
    ensures DistinctKeys(Validated(e))
  {
    if e != [] {
      DistinctKeysTail(e);
      ValidatedDistinct(e[1..]);
      if IsSpawnable(e[0].0) {
        ValidatedFind(e[1..], e[0].0);
        assert Find(Validated(e[1..]), e[0].0) == None;
        DistinctKeysCons(e[0], Validated(e[1..]));
      }
    }
  }

  // ---------------------------------------------------------------------
  // Finding: the removal loop as written logs `Class->GetName()` for every
  // key it removes, including a null key, which dereferences null.

  /** The keys `CheckClassValidity`'s first loop collects, in map order. */
  function InvalidKeys(e: seq<Entry>): (ks: seq<ClassRef>)
    ensures forall i :: 0 <= i < |e| ==> (e[i].0 in ks <==> !IsSpawnable(e[i].0))
    ensures forall k :: k in ks ==> !IsSpawnable(k) && k in Keys(e)
  {
    if e == [] then []
    else (if IsSpawnable(e[0].0) then [] else [e[0].0]) + InvalidKeys(e[1..])
  }

  /** The second loop as written: `None` stands for the null dereference in
      the log line that precedes each removal. */
  function RemoveLoggedAsWritten(e: seq<Entry>, ks: seq<ClassRef>): Option<seq<Entry>>
    decreases |ks|
  {
    if ks == [] then Some(e)
    else if ks[0].Null? then None
    else RemoveLoggedAsWritten(Without(e, ks[0]), ks[1..])
  }

  /** The pass as written fails exactly when the map holds a null key, and
      otherwise leaves what the corrected pass leaves. */
  function CheckClassValidityAsWritten(e: seq<Entry>): (r: Option<seq<Entry>>)
    ensures r.None? <==> Null in Keys(e)
    ensures r.Some? ==> r.value == Validated(e)
  {
    var ks := InvalidKeys(e);
    RemoveLoggedIsRemoveAll(e, ks);
    RemoveInvalidIsValidated(e, ks);
    NullKeyCollected(e);
    RemoveLoggedAsWritten(e, ks)
  }

  /** The first loop collects the null key exactly when the map holds one. */
  lemma NullKeyCollected(e: seq<Entry>)
    ensures Null in InvalidKeys(e) <==> Null in Keys(e)
  {
    if Null in Keys(e) {
      var i :| 0 <= i < |e| && Keys(e)[i] == Null;
      assert e[i].0 in InvalidKeys(e);
    }
  }

  /** Removing `a` and then `b` is removing `a + b`. */
  lemma {:induction false} RemoveAllTwice(e: seq<Entry>, a: seq<ClassRef>, b: seq<ClassRef>)
    ensures RemoveAll(RemoveAll(e, a), b) == RemoveAll(e, a + b)
  {
    if e != [] {
      RemoveAllTwice(e[1..], a, b);
      assert e[0].0 in a + b <==> e[0].0 in a || e[0].0 in b;
      if e[0].0 !in a {
        var x := RemoveAll(e, a);
        assert x == [e[0]] + RemoveAll(e[1..], a);
        assert x[0] == e[0] && x[1..] == RemoveAll(e[1..], a);
      } else {
        assert RemoveAll(e, a) == RemoveAll(e[1..], a);
        assert RemoveAll(e, a + b) == RemoveAll(e[1..], a + b);
      }
    }
  }

  /** The logging loop, when it does not fail, removes exactly the keys `ks`. */
  lemma {:induction false} RemoveLoggedIsRemoveAll(e: seq<Entry>, ks: seq<ClassRef>)
    ensures RemoveLoggedAsWritten(e, ks) == if Null in ks then None else Some(RemoveAll(e, ks))
    decreases |ks|
  {
    if ks == [] {
      RemoveNone(e);
    } else if ks[0].Class? {
      RemoveLoggedIsRemoveAll(Without(e, ks[0]), ks[1..]);
      RemoveAllTwice(e, [ks[0]], ks[1..]);
      assert ks == [ks[0]] + ks[1..];
    }
  }

  /** A map holding a null key (what the editor puts in a fresh map row)
      makes the pass as written fail instead of dropping the key, while the
      corrected pass drops it. */
  lemma NullKeyCrashesAsWritten(n: int)
    ensures CheckClassValidityAsWritten([(Null, n)]) == None
    ensures Validated([(Null, n)]) == []
  {
    assert InvalidKeys([(Null, n)]) == [Null];
  }
}
