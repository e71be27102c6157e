/**
 * Sequence operations standing for the few document-store primitives the
 * server relies on: `find` with a filter, `findOne` (first match in natural
 * order), `deleteOne` and `updateOne` with `upsert: true`, together with the
 * in-application `Array.prototype.filter` calls.  A collection is a sequence
 * of documents in natural (insertion) order.
 */
module Collections {

  datatype Option<T> = None | Some(value: T)

  /** `a` is obtained from `b` by deleting elements, keeping the rest in order. */
  predicate Subsequence<T(==)>(a: seq<T>, b: seq<T>)
    decreases |b|
  {
    if a == [] then true
    else if b == [] then false
    else if a[0] == b[0] then Subsequence(a[1..], b[1..])
    else Subsequence(a, b[1..])
  }

  /**
   * `r` keeps, in their original order, exactly the elements of `s` that
   * satisfy `p`, each as many times as it occurs in `s`.
   */
  ghost predicate IsSelection<T(!new)>(r: seq<T>, s: seq<T>, p: T -> bool)
  {
    && Subsequence(r, s)
    && forall x :: multiset(r)[x] == if p(x) then multiset(s)[x] else 0
  }

  /** `Array.prototype.filter`. */
  function Filter<T(==,!new)>(s: seq<T>, p: T -> bool): (r: seq<T>)
    ensures forall x :: x in r <==> x in s && p(x)
    ensures IsSelection(r, s, p)
  {
    if s == [] then []
    else
      var rest := Filter(s[1..], p);
      assert s == [s[0]] + s[1..];
      if p(s[0]) then
        assert ([s[0]] + rest)[1..] == rest;
        [s[0]] + rest
      else
        assert rest != [] ==> rest[0] in rest && rest[0] != s[0];
        rest
  }

  lemma {:induction false} SubsequenceCount<T>(a: seq<T>, b: seq<T>, x: T)
    requires Subsequence(a, b)
    ensures multiset(a)[x] <= multiset(b)[x]
    decreases |b|
  {
    if a == [] {
    } else if b == [] {
    } else {
      assert b == [b[0]] + b[1..];
      if a[0] == b[0] {
        assert a == [a[0]] + a[1..];
        SubsequenceCount(a[1..], b[1..], x);
      } else {
        SubsequenceCount(a, b[1..], x);
      }
    }
  }

  /**
   * A selection is unique: `Filter`'s contract determines its result, so
   * any list with the same elements in store order is the filtered list.
   */
  lemma {:induction false} SelectionUnique<T(!new)>(r1: seq<T>, r2: seq<T>, s: seq<T>, p: T -> bool)
    requires IsSelection(r1, s, p) && IsSelection(r2, s, p)
    ensures r1 == r2
    decreases |s|
  {
    if s == [] {
    } else {
      var a, t := s[0], s[1..];
      assert s == [a] + t;
      SelectionTail(r1, s, p);
      SelectionTail(r2, s, p);
      if p(a) {
        SelectionUnique(r1[1..], r2[1..], t, p);
        assert r1 == [r1[0]] + r1[1..];
        assert r2 == [r2[0]] + r2[1..];
      } else {
        SelectionUnique(r1, r2, t, p);
      }
    }
  }

  /** How a selection from a non-empty sequence splits over its head. */
  lemma {:induction false} SelectionTail<T(!new)>(r: seq<T>, s: seq<T>, p: T -> bool)
    requires s != [] && IsSelection(r, s, p)
    ensures p(s[0]) ==> r != [] && r[0] == s[0] && IsSelection(r[1..], s[1..], p)
    ensures !p(s[0]) ==> IsSelection(r, s[1..], p)
  {
    var a, t := s[0], s[1..];
    assert s == [a] + t;
    if p(a) {
      assert multiset(r)[a] == multiset(s)[a] >= 1;
      assert r != [];
      assert r == [r[0]] + r[1..];
      if r[0] != a {
        SubsequenceCount(r, t, a);
        assert false;
      }
      forall x ensures multiset(r[1..])[x] == if p(x) then multiset(t)[x] else 0 {
        assert multiset(r) == multiset{a} + multiset(r[1..]);
      }
    } else {
      assert multiset(r)[a] == 0;
      if r != [] {
        assert r[0] in multiset(r);
        assert r[0] != a;
      }
      forall x ensures multiset(r)[x] == if p(x) then multiset(t)[x] else 0 {
        assert multiset(s) == multiset{a} + multiset(t);
      }
    }
  }

  /** Index of the first element whose key is `k` (what `findOne` returns). */
  function FirstIndex<T, K(==)>(s: seq<T>, key: T -> K, k: K): (r: Option<nat>)
    ensures r.Some? ==> r.value < |s| && key(s[r.value]) == k
    ensures r.Some? ==> forall j :: 0 <= j < r.value ==> key(s[j]) != k
    ensures r.None? <==> forall j :: 0 <= j < |s| ==> key(s[j]) != k
  {
    if s == [] then None
    else if key(s[0]) == k then Some(0)
    else match FirstIndex(s[1..], key, k)
      case None => None
      case Some(i) => Some(i + 1)
  }

  /** The first position carrying `k` is the one `FirstIndex` reports. */
  lemma {:induction false} FirstIndexIs<T, K>(s: seq<T>, key: T -> K, k: K, i: nat)
    requires i < |s| && key(s[i]) == k
    requires forall j :: 0 <= j < i ==> key(s[j]) != k
    ensures FirstIndex(s, key, k) == Some(i)
  {
    if i > 0 {
      FirstIndexIs(s[1..], key, k, i - 1);
    }
  }

  /** Quantified form of `FirstIndexIs`. */
  lemma FirstIndexUnique<T, K>(s: seq<T>, key: T -> K, k: K)
    ensures forall i :: 0 <= i < |s| && key(s[i]) == k && (forall j :: 0 <= j < i ==> key(s[j]) != k)
                        ==> FirstIndex(s, key, k) == Some(i)
  {
    forall i | 0 <= i < |s| && key(s[i]) == k && (forall j :: 0 <= j < i ==> key(s[j]) != k)
      ensures FirstIndex(s, key, k) == Some(i)
    {
      FirstIndexIs(s, key, k, i);
    }
  }

  /** `findOne({key: k})`: the first document in natural order whose key is `k`. */
  function FindOne<T, K(==)>(s: seq<T>, key: T -> K, k: K): (r: Option<T>)
    ensures r.Some? <==> exists j :: 0 <= j < |s| && key(s[j]) == k
    ensures r.Some? ==> r.value in s && key(r.value) == k
    ensures r.Some? ==> exists i :: 0 <= i < |s| && s[i] == r.value && forall j :: 0 <= j < i ==> key(s[j]) != k
  {
    match FirstIndex(s, key, k)
    case None => None
    case Some(i) => Some(s[i])
  }

  /** Number of documents whose key is `k`. */
  function KeyCount<T, K(==)>(s: seq<T>, key: T -> K, k: K): nat
  {
    if s == [] then 0
    else (if key(s[0]) == k then 1 else 0) + KeyCount(s[1..], key, k)
  }

  lemma {:induction false} KeyCountAppend<T, K>(s: seq<T>, t: seq<T>, key: T -> K, k: K)
    ensures KeyCount(s + t, key, k) == KeyCount(s, key, k) + KeyCount(t, key, k)
  {
    if s == [] {
      assert s + t == t;
    } else {
      assert (s + t)[1..] == s[1..] + t;
      KeyCountAppend(s[1..], t, key, k);
    }
  }

  /** No document carries `k` exactly when `findOne` finds nothing. */
  lemma {:induction false} KeyCountZero<T, K>(s: seq<T>, key: T -> K, k: K)
    ensures KeyCount(s, key, k) == 0 <==> FirstIndex(s, key, k).None?
  {
    if s != [] {
      KeyCountZero(s[1..], key, k);
    }
  }

  /** Every key occurs at most once. */
  ghost predicate KeysDistinct<T, K>(s: seq<T>, key: T -> K)
  {
    forall i, j :: 0 <= i < j < |s| ==> key(s[i]) != key(s[j])
  }

  lemma {:induction false} DistinctKeyCount<T, K>(s: seq<T>, key: T -> K, k: K)
    requires KeysDistinct(s, key)
    ensures KeyCount(s, key, k) <= 1
  {
    if s != [] {
      assert KeysDistinct(s[1..], key) by {
        forall i, j | 0 <= i < j < |s[1..]| ensures key(s[1..][i]) != key(s[1..][j]) {
          assert s[1..][i] == s[i + 1] && s[1..][j] == s[j + 1];
        }
      }
      DistinctKeyCount(s[1..], key, k);
      if key(s[0]) == k {
        KeyCountZero(s[1..], key, k);
      }
    }
  }

  /** `deleteOne({key: k})`: removes the first document whose key is `k`, if any. */
  function DeleteOne<T(==,!new), K(==)>(s: seq<T>, key: T -> K, k: K): (r: seq<T>)
    ensures |r| == if KeyCount(s, key, k) == 0 then |s| else |s| - 1
    ensures FirstIndex(s, key, k).Some? ==>
      var i := FirstIndex(s, key, k).value; r[..i] == s[..i] && r[i..] == s[i + 1..]
    ensures FirstIndex(s, key, k).None? ==> r == s
  {
    KeyCountZero(s, key, k);
    match FirstIndex(s, key, k)
    case None =>
      SubsequenceReflexive(s);
      s
    case Some(i) =>
      RemoveAtCount(s, i, key, k);
      SubsequenceRemoveAt(s, i);
      s[..i] + s[i + 1..]
  }

  /** Deleting removes exactly one occurrence of the first document with the key, and nothing else. */
  lemma DeleteOneMultiset<T(!new), K>(s: seq<T>, key: T -> K, k: K)
    ensures FirstIndex(s, key, k).Some? ==>
      multiset(DeleteOne(s, key, k)) == multiset(s) - multiset{s[FirstIndex(s, key, k).value]}
    ensures forall x :: key(x) != k ==> multiset(DeleteOne(s, key, k))[x] == multiset(s)[x]
    ensures KeyCount(DeleteOne(s, key, k), key, k) == if KeyCount(s, key, k) == 0 then 0 else KeyCount(s, key, k) - 1
    ensures Subsequence(DeleteOne(s, key, k), s)
    ensures forall x :: x in DeleteOne(s, key, k) ==> x in s
  {
    var r := DeleteOne(s, key, k);
    match FirstIndex(s, key, k)
    case None =>
      SubsequenceReflexive(s);
    case Some(i) =>
      assert r == s[..i] + s[i + 1..] by {
        assert r == r[..i] + r[i..];
      }
      RemoveAtCount(s, i, key, k);
      SubsequenceRemoveAt(s, i);
  }

  /** Deleting one document keeps the keys of the others distinct. */
  lemma DeleteOneKeepsDistinct<T(!new), K>(s: seq<T>, key: T -> K, k: K)
    requires KeysDistinct(s, key)
    ensures KeysDistinct(DeleteOne(s, key, k), key)
  {
    match FirstIndex(s, key, k)
    case None =>
    case Some(i) =>
      RemoveAtKeepsDistinct(s, i, key);
  }

  /** Removing one position from a sequence with distinct keys keeps them distinct. */
  lemma RemoveAtKeepsDistinct<T, K>(s: seq<T>, i: nat, key: T -> K)
    requires i < |s| && KeysDistinct(s, key)
    ensures KeysDistinct(s[..i] + s[i + 1..], key)
  {
    var r := s[..i] + s[i + 1..];
    forall a, b | 0 <= a < b < |r| ensures key(r[a]) != key(r[b]) {
      if b < i {
        assert r[a] == s[a] && r[b] == s[b];
      } else if a < i {
        assert r[a] == s[a] && r[b] == s[b + 1];
      } else {
        assert r[a] == s[a + 1] && r[b] == s[b + 1];
      }
    }
  }

  lemma RemoveAtCount<T, K>(s: seq<T>, i: nat, key: T -> K, k: K)
    requires i < |s| && key(s[i]) == k
    ensures KeyCount(s[..i] + s[i + 1..], key, k) == KeyCount(s, key, k) - 1
    ensures forall x :: key(x) != k ==> multiset(s[..i] + s[i + 1..])[x] == multiset(s)[x]
    ensures multiset(s[..i] + s[i + 1..]) == multiset(s) - multiset{s[i]}
  {
    assert s == s[..i] + [s[i]] + s[i + 1..];
    KeyCountAppend(s[..i], s[i + 1..], key, k);
    KeyCountAppend(s[..i] + [s[i]], s[i + 1..], key, k);
    KeyCountAppend(s[..i], [s[i]], key, k);
    assert KeyCount([s[i]], key, k) == 1 by {
      assert [s[i]][1..] == [];
    }
  }

  /** Removing one position leaves a subsequence. */
  lemma {:induction false} SubsequenceRemoveAt<T>(s: seq<T>, i: nat)
    requires i < |s|
    ensures Subsequence(s[..i] + s[i + 1..], s)
  {
    if i == 0 {
      assert s[..0] + s[1..] == s[1..];
      SubsequenceDropHead(s[1..], s);
    } else {
      var r := s[..i] + s[i + 1..];
      var t := s[1..];
      SubsequenceRemoveAt(t, i - 1);
      assert r[0] == s[0];
      assert r[1..] == t[..i - 1] + t[i..];
    }
  }

  lemma {:induction false} SubsequenceReflexive<T>(s: seq<T>)
    ensures Subsequence(s, s)
  {
    if s != [] {
      SubsequenceReflexive(s[1..]);
    }
  }

  lemma SubsequenceDropHead<T>(t: seq<T>, s: seq<T>)
    requires s != [] && t == s[1..]
    ensures Subsequence(t, s)
  {
    SubsequenceReflexive(t);
    SubsequenceWeaken(t, s[1..], s[0]);
  }

  /** A subsequence stays one when an element is put in front of the larger sequence. */
  lemma {:induction false} SubsequenceWeaken<T>(a: seq<T>, b: seq<T>, x: T)
    requires Subsequence(a, b)
    ensures Subsequence(a, [x] + b)
    decreases |b|, 1
  {
    assert ([x] + b)[1..] == b;
    if a != [] && a[0] == x {
      SubsequenceTail(a, b);
    }
  }

  /** Dropping the first element of a subsequence leaves a subsequence. */
  lemma {:induction false} SubsequenceTail<T>(a: seq<T>, b: seq<T>)
    requires a != [] && Subsequence(a, b)
    ensures Subsequence(a[1..], b)
    decreases |b|, 0
  {
    assert b != [];
    assert [b[0]] + b[1..] == b;
    if a[0] == b[0] {
      SubsequenceWeaken(a[1..], b[1..], b[0]);
    } else {
      SubsequenceTail(a, b[1..]);
      SubsequenceWeaken(a[1..], b[1..], b[0]);
    }
  }

  /**
   * `updateOne({key: k}, update, {upsert: true})`: the first document whose
   * key is `k` is replaced by its updated form; when there is none,
   * `inserted` is appended.
   */
  function Upsert<T, K(==)>(s: seq<T>, key: T -> K, k: K, update: T -> T, inserted: T): (r: seq<T>)
    ensures match FirstIndex(s, key, k)
      case None => r == s + [inserted]
      case Some(i) => r == s[i := update(s[i])]
  {
    if s == [] then [inserted]
    else if key(s[0]) == k then [update(s[0])] + s[1..]
    else
      var rest := Upsert(s[1..], key, k, update, inserted);
      assert s == [s[0]] + s[1..];
      [s[0]] + rest
  }
}
