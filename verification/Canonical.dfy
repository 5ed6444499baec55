/** The canonical text of a JSON value (ai/app/pipeline/early_stop.py, _canonical). */
module Canonical {
  import opened Json

  // ---------- sorting values by their text ----------

  predicate TextLe(a: Json, b: Json) {
    StrLe(Encode(a), Encode(b))
  }

  /** Inserts behind every element that is not greater: the sort is stable. */
  function Insert(x: Json, sorted: seq<Json>): seq<Json> {
    if sorted == [] || !TextLe(sorted[0], x) then [x] + sorted else [sorted[0]] + Insert(x, sorted[1..])
  }

  function Sort(xs: seq<Json>): seq<Json> {
    if xs == [] then [] else Insert(xs[|xs| - 1], Sort(xs[..|xs| - 1]))
  }

  ghost predicate Sorted(xs: seq<Json>) {
    forall i, j :: 0 <= i < j < |xs| ==> TextLe(xs[i], xs[j])
  }

  lemma {:induction false} InsertValues(x: Json, xs: seq<Json>)
    ensures multiset(Insert(x, xs)) == multiset(xs) + multiset{x}
  {
    if xs != [] && TextLe(xs[0], x) {
      InsertValues(x, xs[1..]);
      assert xs == [xs[0]] + xs[1..];
    }
  }

  lemma SortedFront(x: Json, xs: seq<Json>)
    requires Sorted(xs) && forall y :: y in multiset(xs) ==> TextLe(x, y)
    ensures Sorted([x] + xs)
  {
    forall j | 0 <= j < |xs| ensures TextLe(x, xs[j]) {
      assert xs[j] in multiset(xs);
    }
  }

  lemma {:induction false} InsertSorted(x: Json, xs: seq<Json>)
    requires Sorted(xs)
    ensures Sorted(Insert(x, xs))
  {
    if xs == [] {
    } else if !TextLe(xs[0], x) {
      StrLeTotal(Encode(x), Encode(xs[0]));
      forall y | y in multiset(xs) ensures TextLe(x, y) {
        var j := PlaceOf(y, xs);
        if j > 0 {
          StrLeTransitive(Encode(x), Encode(xs[0]), Encode(y));
        }
      }
      SortedFront(x, xs);
    } else {
      InsertSorted(x, xs[1..]);
      InsertValues(x, xs[1..]);
      forall y | y in multiset(Insert(x, xs[1..])) ensures TextLe(xs[0], y) {
        if y != x {
          var j := PlaceOf(y, xs[1..]);
          assert xs[1..][j] == xs[j + 1];
        }
      }
      SortedFront(xs[0], Insert(x, xs[1..]));
    }
  }

  lemma {:induction false} SortKeeps(xs: seq<Json>)
    ensures Sorted(Sort(xs)) && multiset(Sort(xs)) == multiset(xs)
  {
    if xs != [] {
      SortKeeps(xs[..|xs| - 1]);
      InsertValues(xs[|xs| - 1], Sort(xs[..|xs| - 1]));
      InsertSorted(xs[|xs| - 1], Sort(xs[..|xs| - 1]));
      assert xs == xs[..|xs| - 1] + [xs[|xs| - 1]];
    }
  }

  lemma TailMultiset<T>(xs: seq<T>)
    requires xs != []
    ensures multiset(xs[1..]) == multiset(xs) - multiset{xs[0]}
  {
    assert xs == [xs[0]] + xs[1..];
  }

  lemma PlaceOf<T>(x: T, xs: seq<T>) returns (k: nat)
    requires x in multiset(xs)
    ensures k < |xs| && xs[k] == x
  {
    assert x in xs;
    k :| 0 <= k < |xs| && xs[k] == x;
  }

  /** Two sorted lists of the same values are the same list: values with equal texts are equal. */
  lemma {:induction false} SortedUnique(xs: seq<Json>, ys: seq<Json>)
    requires Sorted(xs) && Sorted(ys) && multiset(xs) == multiset(ys)
    requires forall i :: 0 <= i < |xs| ==> WellFormed(xs[i])
    ensures xs == ys
  {
    hide TextLe, WellFormed;
    assert |ys| == |multiset(ys)| == |multiset(xs)| == |xs|;
    if xs != [] {
      assert xs[0] in multiset(xs) && ys[0] in multiset(ys);
      var k := PlaceOf(xs[0], ys);
      var l := PlaceOf(ys[0], xs);
      HeadsEqual(xs, l, ys, k);
      TailMultiset(xs);
      TailMultiset(ys);
      SortedUnique(xs[1..], ys[1..]);
      assert xs == [xs[0]] + xs[1..] && ys == [ys[0]] + ys[1..];
    }
  }

  lemma HeadsEqual(xs: seq<Json>, l: nat, ys: seq<Json>, k: nat)
    requires Sorted(xs) && Sorted(ys) && l < |xs| && k < |ys| && xs[l] == ys[0] && ys[k] == xs[0]
    requires WellFormed(xs[0]) && WellFormed(xs[l])
    ensures xs[0] == ys[0]
  {
    if l > 0 && k > 0 {
      assert TextLe(xs[0], xs[l]) && TextLe(ys[0], ys[k]);
      StrLeAntisymmetric(Encode(xs[0]), Encode(ys[0]));
      EncodeInjective(xs[0], ys[0]);
    }
  }

  // ---------- normalizing ----------

  const ORDERED_KEY := "hs_code_candidates"

  /** Sorts every list by text, except a list that stands directly under the ordered key. */
  function Normalize(j: Json, ordered: bool): Json {
    match j
    case Arr(items) =>
      var normal := seq(|items|, i requires 0 <= i < |items| => Normalize(items[i], false));
      Arr(if ordered then normal else Sort(normal))
    case Obj(fields) => Obj(map k | k in fields :: Normalize(fields[k], k == ORDERED_KEY))
    case _ => j
  }

  function CanonicalText(j: Json): string {
    Encode(Normalize(j, false))
  }

  // ---------- equality up to list order ----------

  predicate Permutation(p: seq<nat>) {
    && (forall i :: 0 <= i < |p| ==> p[i] < |p|)
    && forall i, j :: 0 <= i < j < |p| ==> p[i] != p[j]
  }

  /** Equal up to reordering lists at any depth, except lists directly under the ordered key. */
  ghost predicate Same(a: Json, b: Json, ordered: bool) {
    match (a, b)
    case (Arr(xs), Arr(ys)) =>
      && |xs| == |ys|
      && if ordered then forall i :: 0 <= i < |xs| ==> Same(xs[i], ys[i], false)
         else exists p: seq<nat> :: Permutation(p) && |p| == |xs|
                && forall i :: 0 <= i < |xs| ==> Same(xs[i], ys[p[i]], false)
    case (Obj(f), Obj(g)) => f.Keys == g.Keys && forall k :: k in f ==> Same(f[k], g[k], k == ORDERED_KEY)
    case _ => a == b
  }

  // ---------- permutations and multisets ----------

  /** Moving the value at place k of ys to the end. */
  lemma Without<T>(ys: seq<T>, k: nat)
    requires k < |ys|
    ensures multiset(ys) == multiset(ys[..k] + ys[k + 1..]) + multiset{ys[k]}
  {
    assert ys == ys[..k] + [ys[k]] + ys[k + 1..];
  }

  lemma CancelOne<T>(a: multiset<T>, b: multiset<T>, x: T)
    requires a + multiset{x} == b + multiset{x}
    ensures a == b
  {
    assert a == a + multiset{x} - multiset{x};
    assert b == b + multiset{x} - multiset{x};
  }

  /** A permutation onto ys without its place k, extended by that place. */
  lemma ExtendPermutation<T>(xs: seq<T>, ys: seq<T>, k: nat, q: seq<nat>) returns (p: seq<nat>)
    requires |xs| == |ys| && k < |ys| && ys[k] == xs[|xs| - 1]
    requires Permutation(q) && |q| == |xs| - 1
    requires forall i :: 0 <= i < |q| ==> xs[i] == (ys[..k] + ys[k + 1..])[q[i]]
    ensures Permutation(p) && |p| == |xs| && forall i :: 0 <= i < |xs| ==> xs[i] == ys[p[i]]
  {
    p := seq(|q|, i requires 0 <= i < |q| => if q[i] < k then q[i] else q[i] + 1) + [k];
  }

  /** Lists of the same values are permutations of each other. */
  lemma {:induction false} PermutationFromMultisets<T>(xs: seq<T>, ys: seq<T>) returns (p: seq<nat>)
    requires multiset(xs) == multiset(ys)
    ensures Permutation(p) && |p| == |xs| == |ys| && forall i :: 0 <= i < |xs| ==> xs[i] == ys[p[i]]
  {
    assert |xs| == |multiset(xs)| == |multiset(ys)| == |ys|;
    if xs == [] {
      p := [];
    } else {
      var n := |xs| - 1;
      assert xs[n] in multiset(xs);
      var k := PlaceOf(xs[n], ys);
      Without(xs, n);
      Without(ys, k);
      assert xs[..n] + xs[n + 1..] == xs[..n];
      CancelOne(multiset(xs[..n]), multiset(ys[..k] + ys[k + 1..]), xs[n]);
      var q := PermutationFromMultisets(xs[..n], ys[..k] + ys[k + 1..]);
      p := ExtendPermutation(xs, ys, k, q);
    }
  }

  /** A permutation keeps the values. */
  lemma {:induction false} MultisetsFromPermutation<T>(xs: seq<T>, ys: seq<T>, p: seq<nat>)
    requires Permutation(p) && |p| == |xs| == |ys| && forall i :: 0 <= i < |xs| ==> xs[i] == ys[p[i]]
    ensures multiset(xs) == multiset(ys)
  {
    if xs != [] {
      var n := |xs| - 1;
      var k := p[n];
      Without(ys, k);
      var q := seq(n, i requires 0 <= i < n => if p[i] < k then p[i] else p[i] - 1);
      MultisetsFromPermutation(xs[..n], ys[..k] + ys[k + 1..], q);
      assert xs == xs[..n] + [xs[n]];
    }
  }

  // ---------- main results ----------

  lemma {:induction false} NormalWellFormed(j: Json, ordered: bool)
    requires WellFormed(j)
    ensures WellFormed(Normalize(j, ordered))
  {
    match j
    case Arr(items) =>
      var normal := seq(|items|, i requires 0 <= i < |items| => Normalize(items[i], false));
      forall i | 0 <= i < |items| ensures WellFormed(normal[i]) {
        NormalWellFormed(items[i], false);
      }
      SortKeeps(normal);
      forall i | 0 <= i < |Sort(normal)| ensures WellFormed(Sort(normal)[i]) {
        assert Sort(normal)[i] in multiset(Sort(normal));
        assert Sort(normal)[i] in normal;
      }
      assert |Normalize(j, ordered).items| == |if ordered then normal else Sort(normal)|;
    case Obj(fields) =>
      forall k | k in fields ensures WellFormed(Normalize(fields[k], k == ORDERED_KEY)) {
        NormalWellFormed(fields[k], k == ORDERED_KEY);
      }
    case _ =>
  }

  ghost function NormalItems(items: seq<Json>): seq<Json> {
    seq(|items|, i requires 0 <= i < |items| => Normalize(items[i], false))
  }

  lemma SortedNormalWellFormed(xs: seq<Json>)
    requires forall i :: 0 <= i < |xs| ==> WellFormed(xs[i])
    ensures var s := Sort(NormalItems(xs)); forall i :: 0 <= i < |s| ==> WellFormed(s[i])
  {
    var ms := NormalItems(xs);
    SortKeeps(ms);
    forall i | 0 <= i < |Sort(ms)| ensures WellFormed(Sort(ms)[i]) {
      assert Sort(ms)[i] in multiset(Sort(ms));
      var k := PlaceOf(Sort(ms)[i], ms);
      NormalWellFormed(xs[k], false);
    }
  }

  lemma UnorderedSame(xs: seq<Json>, ys: seq<Json>)
    requires forall i :: 0 <= i < |xs| ==> WellFormed(xs[i])
    requires forall i, k :: 0 <= i < |xs| && 0 <= k < |ys| && Same(xs[i], ys[k], false) ==>
               Normalize(xs[i], false) == Normalize(ys[k], false)
    requires Same(Arr(xs), Arr(ys), false)
    ensures Sort(NormalItems(xs)) == Sort(NormalItems(ys))
  {
    var ms, ns := NormalItems(xs), NormalItems(ys);
    var p: seq<nat> :| Permutation(p) && |p| == |xs| && forall i :: 0 <= i < |xs| ==> Same(xs[i], ys[p[i]], false);
    forall i | 0 <= i < |ms| ensures ms[i] == ns[p[i]] {
      assert Same(xs[i], ys[p[i]], false);
    }
    MultisetsFromPermutation(ms, ns, p);
    SortKeeps(ms);
    SortKeeps(ns);
    SortedNormalWellFormed(xs);
    SortedUnique(Sort(ms), Sort(ns));
  }

  lemma UnorderedBack(xs: seq<Json>, ys: seq<Json>)
    requires forall i, k :: 0 <= i < |xs| && 0 <= k < |ys| && Normalize(xs[i], false) == Normalize(ys[k], false) ==>
               Same(xs[i], ys[k], false)
    requires Sort(NormalItems(xs)) == Sort(NormalItems(ys))
    ensures Same(Arr(xs), Arr(ys), false)
  {
    var ms, ns := NormalItems(xs), NormalItems(ys);
    SortKeeps(ms);
    SortKeeps(ns);
    var p := PermutationFromMultisets(ms, ns);
    forall i | 0 <= i < |xs| ensures Same(xs[i], ys[p[i]], false) {
      assert ms[i] == ns[p[i]];
    }
  }

  lemma OrderedExactly(xs: seq<Json>, ys: seq<Json>)
    requires forall i, k :: 0 <= i < |xs| && 0 <= k < |ys| ==>
               (Same(xs[i], ys[k], false) <==> Normalize(xs[i], false) == Normalize(ys[k], false))
    ensures Same(Arr(xs), Arr(ys), true) <==> NormalItems(xs) == NormalItems(ys)
  {
    var ms, ns := NormalItems(xs), NormalItems(ys);
    assert |ms| == |xs| && |ns| == |ys|;
    if ms == ns {
      forall i | 0 <= i < |xs| ensures Same(xs[i], ys[i], false) {
        assert ms[i] == ns[i];
      }
    }
  }

  lemma FieldsExactly(f: map<string, Json>, g: map<string, Json>, ordered: bool)
    requires forall k :: k in f && k in g ==>
               (Same(f[k], g[k], k == ORDERED_KEY) <==> Normalize(f[k], k == ORDERED_KEY) == Normalize(g[k], k == ORDERED_KEY))
    ensures Same(Obj(f), Obj(g), ordered) <==> Normalize(Obj(f), ordered) == Normalize(Obj(g), ordered)
  {
    var m := map k | k in f :: Normalize(f[k], k == ORDERED_KEY);
    var n := map k | k in g :: Normalize(g[k], k == ORDERED_KEY);
    assert m.Keys == f.Keys && n.Keys == g.Keys;
    if m == n {
      forall k | k in f ensures Same(f[k], g[k], k == ORDERED_KEY) {
        assert k in m.Keys && k in n.Keys && m[k] == n[k];
      }
    }
    if Same(Obj(f), Obj(g), ordered) {
      assert m == n;
    }
  }

  /** Two values have the same normal form exactly when they are equal up to list order. */
  lemma {:induction false} NormalExactly(a: Json, b: Json, ordered: bool)
    requires WellFormed(a) && WellFormed(b)
    ensures Same(a, b, ordered) <==> Normalize(a, ordered) == Normalize(b, ordered)
  {
    if a.Arr? && b.Arr? {
      forall i, k | 0 <= i < |a.items| && 0 <= k < |b.items|
        ensures Same(a.items[i], b.items[k], false) <==> Normalize(a.items[i], false) == Normalize(b.items[k], false)
      {
        NormalExactly(a.items[i], b.items[k], false);
      }
      if ordered {
        OrderedExactly(a.items, b.items);
      } else {
        if Same(a, b, false) {
          UnorderedSame(a.items, b.items);
        }
        if Sort(NormalItems(a.items)) == Sort(NormalItems(b.items)) {
          UnorderedBack(a.items, b.items);
        }
      }
    } else if a.Obj? && b.Obj? {
      forall k | k in a.fields && k in b.fields
        ensures Same(a.fields[k], b.fields[k], k == ORDERED_KEY)
            <==> Normalize(a.fields[k], k == ORDERED_KEY) == Normalize(b.fields[k], k == ORDERED_KEY)
      {
        NormalExactly(a.fields[k], b.fields[k], k == ORDERED_KEY);
      }
      FieldsExactly(a.fields, b.fields, ordered);
    }
  }

  /** The canonical text is exact: two values share it exactly when they are equal up to reordering lists at any
      depth, lists directly under the ordered key excepted. Duplicates count. */
  lemma CanonicalExactly(a: Json, b: Json)
    requires WellFormed(a) && WellFormed(b)
    ensures CanonicalText(a) == CanonicalText(b) <==> Same(a, b, false)
  {
    NormalExactly(a, b, false);
    NormalWellFormed(a, false);
    NormalWellFormed(b, false);
    if CanonicalText(a) == CanonicalText(b) {
      EncodeInjective(Normalize(a, false), Normalize(b, false));
    }
  }
}
