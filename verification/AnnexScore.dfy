/** Pairing the rows of a parsed table with the expected ones (ai/app/eval/annex_scoring.py). */
module AnnexScore {
  import opened Common

  /** A row with its normalized key (number and name). The two views are what the score compares after pairing. */
  datatype Item = Item(key: string, category: string, fields: string, description: string)

  datatype Pair = Pair(expected: Item, actual: Item)

  datatype Score = Score(
    matched: nat, missing: seq<Item>, extra: seq<Item>, categoryErrors: seq<Pair>, fieldErrors: seq<Pair>)

  // ---------- one pass ----------

  /** The place of the first row with a key, or the length if there is none. */
  function FirstWith(rows: seq<Item>, key: string): (i: nat)
    ensures i <= |rows|
  {
    if rows == [] || rows[0].key == key then 0 else 1 + FirstWith(rows[1..], key)
  }

  /** list.remove: takes out the first row equal to `row`. */
  function Remove(rows: seq<Item>, row: Item): seq<Item> {
    if rows == [] then [] else if rows[0] == row then rows[1..] else [rows[0]] + Remove(rows[1..], row)
  }

  lemma {:induction false} FirstFound(rows: seq<Item>, key: string)
    ensures var i := FirstWith(rows, key);
      && (i < |rows| ==> rows[i].key == key && Remove(rows, rows[i]) == rows[..i] + rows[i + 1..])
      && forall j :: 0 <= j < i ==> rows[j].key != key
  {
    if rows != [] && rows[0].key != key {
      FirstFound(rows[1..], key);
      var i := FirstWith(rows[1..], key);
      assert rows == [rows[0]] + rows[1..];
      assert i < |rows| - 1 ==> rows[..i + 1] + rows[i + 2..] == [rows[0]] + (rows[1..][..i] + rows[1..][i + 1..]);
    }
  }

  /** The pairs the pass makes, the expected rows it finds no partner for, and the rows left over. */
  datatype Pairing = Pairing(pairs: seq<Pair>, missing: seq<Item>, remaining: seq<Item>)

  function PairUp(expected: seq<Item>, actual: seq<Item>): Pairing {
    if expected == [] then Pairing([], [], actual)
    else
      var before, row := PairUp(expected[..|expected| - 1], actual), expected[|expected| - 1];
      var i := FirstWith(before.remaining, row.key);
      if i == |before.remaining| then before.(missing := before.missing + [row])
      else before.(pairs := before.pairs + [Pair(row, before.remaining[i])],
                   remaining := Remove(before.remaining, before.remaining[i]))
  }

  predicate WrongCategory(p: Pair) {
    p.actual.category != p.expected.category
  }

  predicate WrongFields(p: Pair) {
    p.actual.fields != p.expected.fields
  }

  lemma PairStepOf(expected: seq<Item>, actual: seq<Item>, i: nat)
    requires i < |expected|
    ensures var before, after := PairUp(expected[..i], actual), PairUp(expected[..i + 1], actual);
      var k := FirstWith(before.remaining, expected[i].key);
      if k == |before.remaining| then after == before.(missing := before.missing + [expected[i]])
      else after == before.(pairs := before.pairs + [Pair(expected[i], before.remaining[k])],
                            remaining := Remove(before.remaining, before.remaining[k]))
  {
    assert expected[..i + 1][..i] == expected[..i];
  }

  /** The loop of `score_annex`. */
  method ScoreRows(expected: seq<Item>, actual: seq<Item>) returns (score: Score)
    ensures var p := PairUp(expected, actual);
      && score.matched == |p.pairs| && score.missing == p.missing && score.extra == p.remaining
      && score.categoryErrors == Filter(p.pairs, WrongCategory) && score.fieldErrors == Filter(p.pairs, WrongFields)
  {
    var remaining := actual;
    score := Score(0, [], [], [], []);
    for i := 0 to |expected|
      invariant var p := PairUp(expected[..i], actual);
        && remaining == p.remaining && score.missing == p.missing && score.matched == |p.pairs|
        && score.categoryErrors == Filter(p.pairs, WrongCategory) && score.fieldErrors == Filter(p.pairs, WrongFields)
    {
      var row := expected[i];
      ghost var pairs := PairUp(expected[..i], actual).pairs;
      PairStepOf(expected, actual, i);
      var k := FirstWith(remaining, row.key);
      if k == |remaining| {
        score := score.(missing := score.missing + [row]);
      } else {
        var found := remaining[k];
        FilterSnoc(pairs, Pair(row, found), WrongCategory);
        FilterSnoc(pairs, Pair(row, found), WrongFields);
        remaining := Remove(remaining, found);
        score := score.(matched := score.matched + 1);
        if found.category != row.category {
          score := score.(categoryErrors := score.categoryErrors + [Pair(row, found)]);
        }
        if found.fields != row.fields {
          score := score.(fieldErrors := score.fieldErrors + [Pair(row, found)]);
        }
      }
    }
    assert expected[..|expected|] == expected;
    score := score.(extra := remaining);
  }

  // ---------- the pairing is as large as it can be ----------

  function KeysOf(rows: seq<Item>): seq<string> {
    seq(|rows|, i requires 0 <= i < |rows| => rows[i].key)
  }

  /** The rows with a key, in order. */
  function With(rows: seq<Item>, key: string): seq<Item> {
    if rows == [] then []
    else
      var before, row := With(rows[..|rows| - 1], key), rows[|rows| - 1];
      if row.key == key then before + [row] else before
  }

  function ExpectedOf(pairs: seq<Pair>): seq<Item> {
    seq(|pairs|, i requires 0 <= i < |pairs| => pairs[i].expected)
  }

  function ActualOf(pairs: seq<Pair>): seq<Item> {
    seq(|pairs|, i requires 0 <= i < |pairs| => pairs[i].actual)
  }

  lemma WithSnoc(rows: seq<Item>, row: Item, key: string)
    ensures With(rows + [row], key) == if row.key == key then With(rows, key) + [row] else With(rows, key)
  {
    assert (rows + [row])[..|rows|] == rows;
  }

  lemma Regroup(a: seq<Item>, b: seq<Item>, c: seq<Item>)
    ensures a + b + c == a + (b + c)
  {
  }

  lemma {:induction false} WithConcat(a: seq<Item>, b: seq<Item>, key: string)
    ensures With(a + b, key) == With(a, key) + With(b, key)
  {
    if b == [] {
      assert a + b == a;
    } else {
      hide With;
      var init, last := b[..|b| - 1], b[|b| - 1];
      WithConcat(a, init, key);
      Regroup(a, init, [last]);
      assert b == init + [last];
      WithSnoc(init, last, key);
      WithSnoc(a + init, last, key);
      Regroup(With(a, key), With(init, key), [last]);
    }
  }

  lemma {:induction false} WithNone(rows: seq<Item>, key: string)
    requires forall i :: 0 <= i < |rows| ==> rows[i].key != key
    ensures With(rows, key) == []
  {
    if rows != [] {
      WithNone(rows[..|rows| - 1], key);
    }
  }

  lemma TakeFrom(a: seq<Item>, row: Item, b: seq<Item>, key: string)
    requires key == row.key ==> With(a, key) == []
    ensures With(a + [row] + b, key) == if key == row.key then [row] + With(a + b, key) else With(a + b, key)
  {
    hide With;
    WithConcat(a + [row], b, key);
    WithConcat(a, b, key);
    WithSnoc(a, row, key);
  }

  /** Taking out the first row with a key takes the first of that key and leaves the other keys alone. */
  lemma TakeFirst(rows: seq<Item>, i: nat, key: string)
    requires i < |rows| && forall j :: 0 <= j < i ==> rows[j].key != rows[i].key
    ensures var rest := With(rows[..i] + rows[i + 1..], key);
      With(rows, key) == if key == rows[i].key then [rows[i]] + rest else rest
  {
    hide With;
    if key == rows[i].key {
      WithNone(rows[..i], key);
    }
    TakeFrom(rows[..i], rows[i], rows[i + 1..], key);
    assert rows == rows[..i] + [rows[i]] + rows[i + 1..];
  }

  /** Rows with the same key are paired in source order, and none is left over on both sides. */
  ghost predicate PairedInOrder(expected: seq<Item>, actual: seq<Item>, p: Pairing, key: string) {
    && With(expected, key) == With(ExpectedOf(p.pairs), key) + With(p.missing, key)
    && With(actual, key) == With(ActualOf(p.pairs), key) + With(p.remaining, key)
    && |With(ExpectedOf(p.pairs), key)| == |With(ActualOf(p.pairs), key)|
    && (With(p.missing, key) == [] || With(p.remaining, key) == [])
  }

  lemma {:induction false} NotFound(rows: seq<Item>, key: string)
    requires FirstWith(rows, key) == |rows|
    ensures With(rows, key) == []
  {
    FirstFound(rows, key);
    WithNone(rows, key);
  }

  lemma MissingStep(expected: seq<Item>, actual: seq<Item>, before: Pairing, row: Item, key: string)
    requires PairedInOrder(expected, actual, before, key)
    requires FirstWith(before.remaining, row.key) == |before.remaining|
    ensures PairedInOrder(expected + [row], actual, before.(missing := before.missing + [row]), key)
  {
    NotFound(before.remaining, row.key);
    WithSnoc(expected, row, key);
    WithSnoc(before.missing, row, key);
  }

  lemma PairStep(expected: seq<Item>, actual: seq<Item>, before: Pairing, row: Item, i: nat, key: string)
    requires PairedInOrder(expected, actual, before, key)
    requires i == FirstWith(before.remaining, row.key) && i < |before.remaining|
    ensures PairedInOrder(expected + [row], actual,
              before.(pairs := before.pairs + [Pair(row, before.remaining[i])],
                      remaining := Remove(before.remaining, before.remaining[i])), key)
  {
    hide With, Remove, FirstWith;
    var found := before.remaining[i];
    var pairs := before.pairs + [Pair(row, found)];
    FirstFound(before.remaining, row.key);
    TakeFirst(before.remaining, i, key);
    WithSnoc(expected, row, key);
    assert ExpectedOf(pairs) == ExpectedOf(before.pairs) + [row];
    assert ActualOf(pairs) == ActualOf(before.pairs) + [found];
    WithSnoc(ExpectedOf(before.pairs), row, key);
    WithSnoc(ActualOf(before.pairs), found, key);
    if key == row.key {
      MoveFirst(With(expected, key), With(ExpectedOf(before.pairs), key), With(before.missing, key), With(actual, key),
                With(ActualOf(before.pairs), key), With(before.remaining, key), row, found,
                With(before.remaining[..i] + before.remaining[i + 1..], key));
    }
  }

  lemma MoveFirst(expected: seq<Item>, paired: seq<Item>, missing: seq<Item>, actual: seq<Item>, taken: seq<Item>,
      remaining: seq<Item>, row: Item, found: Item, rest: seq<Item>)
    requires expected == paired + missing && actual == taken + remaining && (missing == [] || remaining == [])
    requires remaining == [found] + rest
    ensures missing == [] && expected + [row] == (paired + [row]) + missing && actual == (taken + [found]) + rest
  {
  }

  /** For every key, the j-th expected row with it is paired with the j-th actual one, as far as both go. */
  lemma {:induction false} PairsInOrder(expected: seq<Item>, actual: seq<Item>, key: string)
    ensures PairedInOrder(expected, actual, PairUp(expected, actual), key)
    ensures forall p :: p in PairUp(expected, actual).pairs ==> p.expected.key == p.actual.key
  {
    if expected == [] {
      assert ExpectedOf([]) == [] && ActualOf([]) == [];
    } else {
      var init, row := expected[..|expected| - 1], expected[|expected| - 1];
      PairsInOrder(init, actual, key);
      assert expected == init + [row];
      var before := PairUp(init, actual);
      var i := FirstWith(before.remaining, row.key);
      FirstFound(before.remaining, row.key);
      if i == |before.remaining| {
        MissingStep(init, actual, before, row, key);
      } else {
        PairStep(init, actual, before, row, i, key);
      }
    }
  }

  lemma {:induction false} CountWith(rows: seq<Item>, key: string)
    ensures multiset(KeysOf(rows))[key] == |With(rows, key)|
  {
    if rows != [] {
      var init, row := rows[..|rows| - 1], rows[|rows| - 1];
      CountWith(init, key);
      assert rows == init + [row];
      assert KeysOf(rows) == KeysOf(init) + [row.key];
    }
  }

  lemma Sizes(expected: seq<Item>, actual: seq<Item>)
    ensures |PairUp(expected, actual).pairs| + |PairUp(expected, actual).missing| == |expected|
    ensures |PairUp(expected, actual).pairs| + |PairUp(expected, actual).remaining| == |actual|
  {
    if expected != [] {
      var init, row := expected[..|expected| - 1], expected[|expected| - 1];
      Sizes(init, actual);
      FirstFound(PairUp(init, actual).remaining, row.key);
    }
  }

  lemma CommonKeys(expected: seq<Item>, actual: seq<Item>)
    ensures multiset(KeysOf(ExpectedOf(PairUp(expected, actual).pairs))) ==
            multiset(KeysOf(expected)) * multiset(KeysOf(actual))
  {
    var p := PairUp(expected, actual);
    var e, a, m := multiset(KeysOf(expected)), multiset(KeysOf(actual)), multiset(KeysOf(ExpectedOf(p.pairs)));
    forall key ensures m[key] == (e * a)[key] {
      PairsInOrder(expected, actual, key);
      CountWith(expected, key);
      CountWith(actual, key);
      CountWith(ExpectedOf(p.pairs), key);
    }
  }

  /** The number of matched rows is the sum over all keys of the smaller of the two counts, which no pairing of rows with
      equal keys can exceed; matched and missing rows make up the expected ones, matched and extra rows the actual ones. */
  lemma PairingIsLargest(expected: seq<Item>, actual: seq<Item>)
    ensures var p := PairUp(expected, actual);
      && |p.pairs| == |multiset(KeysOf(expected)) * multiset(KeysOf(actual))|
      && |p.pairs| + |p.missing| == |expected| && |p.pairs| + |p.remaining| == |actual|
    ensures forall common: multiset<string> ::
              common <= multiset(KeysOf(expected)) && common <= multiset(KeysOf(actual)) ==>
                |common| <= |PairUp(expected, actual).pairs|
  {
    CommonKeys(expected, actual);
    Sizes(expected, actual);
    var all := multiset(KeysOf(expected)) * multiset(KeysOf(actual));
    forall common: multiset<string> | common <= multiset(KeysOf(expected)) && common <= multiset(KeysOf(actual))
      ensures |common| <= |all|
    {
      assert common <= all;
      assert all == common + (all - common);
    }
  }
}
