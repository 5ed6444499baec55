/** Cutting tall images into overlapping tiles, and reporting it (ai/app/pipeline/image_split.py, diagnosis/tracing.py). */
module ImageSplit {
  import opened Common

  /** round(width * 0.8): a fifth of a whole number is never a half, so rounding has no ties. */
  function Step(width: nat): nat {
    if (8 * width + 5) / 10 < 1 then 1 else (8 * width + 5) / 10
  }

  /** Taller than one and a half times its width. */
  predicate Tall(width: nat, height: nat) {
    2 * height > 3 * width
  }

  /** range(from, to, step) */
  function Range(from: nat, to: nat, step: nat): seq<nat>
    requires step >= 1
    decreases if from < to then to - from else 0
  {
    if from >= to then [] else [from] + Range(from + step, to, step)
  }

  function Tops(width: nat, height: nat): seq<nat>
    requires width <= height
  {
    Range(0, height - width, Step(width)) + [height - width]
  }

  /** A square tile over the whole width: the pixel rows from `top` up to `bottom`. */
  datatype Tile = Tile(top: nat, bottom: nat)

  /** The tiles of a tall image from the top down; None for an image that is not tall. */
  method SplitTallImage(width: nat, height: nat) returns (tiles: Option<seq<Tile>>)
    ensures tiles.None? <==> 2 * height <= 3 * width
    ensures tiles.Some? ==> tiles == Some(TilesOf(width, height))
  {
    if !Tall(width, height) {
      return None;
    }
    var tops := Tops(width, height);
    var done: seq<Tile> := [];
    for i := 0 to |tops|
      invariant |done| == i && forall j :: 0 <= j < i ==> done[j] == Tile(tops[j], tops[j] + width)
    {
      done := done + [Tile(tops[i], tops[i] + width)];
    }
    assert done == TilesOf(width, height);
    tiles := Some(done);
  }

  function TilesOf(width: nat, height: nat): seq<Tile>
    requires width <= height
  {
    var tops := Tops(width, height);
    seq(|tops|, i requires 0 <= i < |tops| => Tile(tops[i], tops[i] + width))
  }

  // ---------- the tiles cover the image ----------

  lemma {:induction false} RangeSteps(from: nat, to: nat, step: nat)
    requires step >= 1
    ensures forall i :: 0 <= i < |Range(from, to, step)| ==> from <= Range(from, to, step)[i] < to
    ensures from < to ==> Range(from, to, step) != [] && Range(from, to, step)[0] == from
    ensures forall i, j :: 0 <= i && j == i + 1 < |Range(from, to, step)| ==>
              Range(from, to, step)[j] == Range(from, to, step)[i] + step
    ensures var r := Range(from, to, step); r != [] ==> r[|r| - 1] + step >= to
    decreases if from < to then to - from else 0
  {
    if from < to {
      RangeSteps(from + step, to, step);
    }
  }

  /** The tops start at 0, end at the tile that touches the bottom, and rise by at most one step. */
  lemma TopsRise(width: nat, height: nat)
    requires width < height
    ensures var t := Tops(width, height);
      && |t| >= 2 && t[0] == 0 && t[|t| - 1] == height - width
      && forall i :: 0 <= i < |t| - 1 ==> t[i] < t[i + 1] <= t[i] + Step(width)
  {
    RangeSteps(0, height - width, Step(width));
    var r, t := Range(0, height - width, Step(width)), Tops(width, height);
    forall i | 0 <= i < |t| - 1 ensures t[i] < t[i + 1] <= t[i] + Step(width) {
      assert i == |r| - 1 || t[i + 1] == r[i + 1];
    }
  }

  lemma {:induction false} TopsIncrease(width: nat, height: nat, i: nat, j: nat)
    requires width < height && i < j < |Tops(width, height)|
    ensures Tops(width, height)[i] < Tops(width, height)[j]
  {
    hide Tops;
    TopsRise(width, height);
    if i < j - 1 {
      TopsIncrease(width, height, i, j - 1);
    }
  }

  /** The last top that is not below a row. */
  lemma {:induction false} TopAbove(width: nat, height: nat, row: nat, i: nat) returns (k: nat)
    requires width < height && i < |Tops(width, height)| && Tops(width, height)[i] <= row
    ensures i <= k < |Tops(width, height)| && Tops(width, height)[k] <= row
    ensures k == |Tops(width, height)| - 1 || row < Tops(width, height)[k + 1]
    decreases |Tops(width, height)| - i
  {
    hide Tops;
    if i < |Tops(width, height)| - 1 && Tops(width, height)[i + 1] <= row {
      k := TopAbove(width, height, row, i + 1);
    } else {
      k := i;
    }
  }

  /** Some tile shows all rows from `top` up to `bottom`. */
  predicate ShownWhole(tiles: seq<Tile>, top: nat, bottom: nat) {
    exists k :: 0 <= k < |tiles| && tiles[k].top <= top && bottom <= tiles[k].bottom
  }

  predicate RowShown(tiles: seq<Tile>, row: nat) {
    ShownWhole(tiles, row, row + 1)
  }

  lemma {:induction false} RangeAt(from: nat, to: nat, step: nat, i: nat)
    requires step >= 1 && i < |Range(from, to, step)|
    ensures Range(from, to, step)[i] == from + i * step
    decreases i
  {
    if i > 0 {
      RangeAt(from + step, to, step, i - 1);
    }
  }

  lemma OneStepMore(n: nat, step: nat)
    ensures n * step + step == (n + 1) * step
  {
  }

  /** The tops are the multiples of the step, as many as are needed, and the one that touches the bottom. */
  lemma TilesAt(width: nat, height: nat)
    requires width >= 1 && Tall(width, height)
    ensures var ts, step := TilesOf(width, height), Step(width);
      && -5 < 10 * step - 8 * width < 5 && step >= 1
      && |ts| >= 2 && ts[|ts| - 1].top == height - width
      && (forall i :: 0 <= i < |ts| - 1 ==> ts[i].top == i * step)
      && (|ts| - 2) * step < height - width <= (|ts| - 1) * step
  {
    var ts, step, r := TilesOf(width, height), Step(width), Range(0, height - width, Step(width));
    StepWithin(width);
    RangeSteps(0, height - width, step);
    forall i | 0 <= i < |r| ensures ts[i].top == i * step {
      RangeAt(0, height - width, step, i);
    }
    RangeAt(0, height - width, step, |r| - 1);
    OneStepMore(|r| - 1, step);
  }

  /** Tiles rise strictly and lie in the image, and every band of rows that is at most one row taller than the overlap
      lies whole in one tile. So no row is missed. */
  lemma TilesCover(width: nat, height: nat)
    requires width >= 1 && Tall(width, height)
    ensures forall i, j :: 0 <= i < j < |TilesOf(width, height)| ==> TilesOf(width, height)[i].top < TilesOf(width, height)[j].top
    ensures forall t :: t in TilesOf(width, height) ==> t.bottom == t.top + width <= height
    ensures forall top: nat, bottom: nat ::
              top <= bottom <= height && bottom - top <= width - Step(width) + 1 ==>
                ShownWhole(TilesOf(width, height), top, bottom)
    ensures forall row: nat :: row < height ==> RowShown(TilesOf(width, height), row)
  {
    hide Tops;
    var ts, tops := TilesOf(width, height), Tops(width, height);
    TopsRise(width, height);
    StepWithin(width);
    forall i, j | 0 <= i < j < |ts| ensures ts[i].top < ts[j].top {
      TopsIncrease(width, height, i, j);
    }
    forall i | 0 <= i < |ts| ensures ts[i].bottom <= height {
      if i < |ts| - 1 {
        TopsIncrease(width, height, i, |ts| - 1);
      }
    }
    forall top: nat, bottom: nat | top <= bottom <= height && bottom - top <= width - Step(width) + 1
      ensures ShownWhole(ts, top, bottom)
    {
      var k := TopAbove(width, height, top, 0);
      assert ts[k].top <= top && bottom <= ts[k].bottom;
    }
  }

  /** The step is the whole number nearest to 0.8 of the width, with no tie. */
  lemma StepWithin(width: nat)
    requires width >= 1
    ensures 1 <= Step(width) <= width
    ensures -5 < 10 * Step(width) - 8 * width < 5
  {
  }

  // ---------- the tile budget ----------

  /** An image as the model gets it: its address, or a tile of it as data. */
  datatype Sent = Address(url: string) | TileData(data: string)

  datatype Result = NotSplit | OverLimit(tiles: nat) | Split(tiles: nat)

  /** What becomes of each image: `counts` holds the tiles of each, None if it is not cut. */
  function Results(counts: seq<Option<nat>>, max: int): seq<Result> {
    if counts == [] then []
    else
      var before, last := Results(counts[..|counts| - 1], max), counts[|counts| - 1];
      before + [match last
                case None => NotSplit
                case Some(n) => if TilesIn(before) + n > max then OverLimit(n) else Split(n)]
  }

  function TilesIn(rs: seq<Result>): nat {
    if rs == [] then 0
    else TilesIn(rs[..|rs| - 1]) + if rs[|rs| - 1].Split? then rs[|rs| - 1].tiles else 0
  }

  function CountsOf(tiles: seq<Option<seq<string>>>): seq<Option<nat>> {
    seq(|tiles|, i requires 0 <= i < |tiles| => if tiles[i].None? then None else Some(|tiles[i].value|))
  }

  function Data(tiles: seq<string>): seq<Sent> {
    seq(|tiles|, i requires 0 <= i < |tiles| => TileData(tiles[i]))
  }

  /** What is sent for one image: its tiles if it was split, else its address. */
  function SentFor(url: string, tiles: Option<seq<string>>, r: Result): (sent: seq<Sent>)
    ensures r.Split? && tiles.Some? ==>
              |sent| == |tiles.value| && forall k :: 0 <= k < |sent| ==> sent[k] == TileData(tiles.value[k])
    ensures !(r.Split? && tiles.Some?) ==> sent == [Address(url)]
  {
    if r.Split? && tiles.Some? then Data(tiles.value) else [Address(url)]
  }

  /** What is sent for the first `n` images, in their order. */
  function SentAll(urls: seq<string>, tiles: seq<Option<seq<string>>>, rs: seq<Result>, n: nat): seq<Sent>
    requires |tiles| == |urls| == |rs| && n <= |urls|
  {
    if n == 0 then [] else SentAll(urls, tiles, rs, n - 1) + SentFor(urls[n - 1], tiles[n - 1], rs[n - 1])
  }

  lemma {:induction false} ResultsPrefix(counts: seq<Option<nat>>, max: int, n: nat)
    requires n <= |counts|
    ensures |Results(counts, max)| == |counts| && Results(counts, max)[..n] == Results(counts[..n], max)
  {
    if n == |counts| {
      assert counts[..n] == counts;
      if n > 0 {
        ResultsPrefix(counts[..n - 1], max, n - 1);
      }
    } else {
      ResultsPrefix(counts[..|counts| - 1], max, n);
      assert counts[..|counts| - 1][..n] == counts[..n];
    }
  }

  /** `prepare`: `tiles` are what cutting each address gives. */
  method Prepare(urls: seq<string>, tiles: seq<Option<seq<string>>>, max: int) returns (prepared: seq<Sent>)
    requires |tiles| == |urls|
    ensures |Results(CountsOf(tiles), max)| == |urls|
    ensures prepared == SentAll(urls, tiles, Results(CountsOf(tiles), max), |urls|)
  {
    hide Results;
    prepared := [];
    var used := 0;
    ghost var rs := Results(CountsOf(tiles), max);
    ResultsPrefix(CountsOf(tiles), max, |urls|);
    for i := 0 to |urls|
      invariant prepared == SentAll(urls, tiles, rs, i)
      invariant used == TilesIn(rs[..i])
    {
      ResultAt(CountsOf(tiles), max, i);
      assert rs[..i + 1][..i] == rs[..i];
      match tiles[i]
      case None => prepared := prepared + [Address(urls[i])];
      case Some(ts) =>
        if used + |ts| > max {
          prepared := prepared + [Address(urls[i])];
        } else {
          used := used + |ts|;
          prepared := prepared + Data(ts);
        }
    }
  }

  lemma ResultAt(counts: seq<Option<nat>>, max: int, i: nat)
    requires i < |counts|
    ensures |Results(counts, max)| == |counts|
    ensures Results(counts, max)[i] ==
      match counts[i]
      case None => NotSplit
      case Some(n) => if TilesIn(Results(counts, max)[..i]) + n > max then OverLimit(n) else Split(n)
  {
    ResultsPrefix(counts, max, i);
    ResultsPrefix(counts, max, i + 1);
    ResultsPrefix(counts[..i], max, i);
    assert counts[..i + 1][..i] == counts[..i];
    assert Results(counts, max)[..i + 1][i] == Results(counts, max)[i];
  }

  lemma TilesMore(rs: seq<Result>, r: Result)
    ensures TilesIn(rs + [r]) == TilesIn(rs) + if r.Split? then r.tiles else 0
  {
    assert (rs + [r])[..|rs|] == rs;
  }

  lemma ResultsMore(counts: seq<Option<nat>>, max: int, i: nat)
    requires i < |counts|
    ensures Results(counts[..i + 1], max) == Results(counts[..i], max) +
      [match counts[i]
       case None => NotSplit
       case Some(n) => if TilesIn(Results(counts[..i], max)) + n > max then OverLimit(n) else Split(n)]
  {
    assert counts[..i + 1][..i] == counts[..i];
  }

  /** `_image_results`: classifies the images on its own, from the counts alone. */
  method ImageResults(counts: seq<Option<nat>>, max: int) returns (results: seq<Result>)
    ensures results == Results(counts, max)
  {
    results := [];
    var total := 0;
    for i := 0 to |counts|
      invariant results == Results(counts[..i], max)
      invariant total == TilesIn(results)
    {
      hide TilesIn, Results;
      ResultsMore(counts, max, i);
      match counts[i]
      case None =>
        TilesMore(results, NotSplit);
        results := results + [NotSplit];
      case Some(n) =>
        if total + n > max {
          TilesMore(results, OverLimit(n));
          results := results + [OverLimit(n)];
        } else {
          TilesMore(results, Split(n));
          total := total + n;
          results := results + [Split(n)];
        }
    }
    assert counts[..|counts|] == counts;
  }

  /** The images a report says were sent: the tiles of a split image, one for any other. */
  function SentCount(rs: seq<Result>): nat {
    if rs == [] then 0
    else SentCount(rs[..|rs| - 1]) + if rs[|rs| - 1].Split? then rs[|rs| - 1].tiles else 1
  }

  /** The budget holds, and an image is left whole for the limit only if its tiles would exceed it. */
  lemma {:induction false} BudgetHolds(counts: seq<Option<nat>>, max: int)
    ensures max >= 0 ==> TilesIn(Results(counts, max)) <= max
    ensures |Results(counts, max)| == |counts|
    ensures forall i :: 0 <= i < |counts| ==>
      match counts[i]
      case None => Results(counts, max)[i] == NotSplit
      case Some(n) =>
        Results(counts, max)[i] == if TilesIn(Results(counts, max)[..i]) + n > max then OverLimit(n) else Split(n)
  {
    forall i | 0 <= i < |counts| {
      ResultAt(counts, max, i);
    }
    ResultsPrefix(counts, max, |counts|);
    if counts != [] {
      BudgetHolds(counts[..|counts| - 1], max);
    }
  }

  lemma {:induction false} CountedAsSent(urls: seq<string>, tiles: seq<Option<seq<string>>>, max: int, n: nat)
    requires |tiles| == |urls| && n <= |urls| && |Results(CountsOf(tiles), max)| == |urls|
    ensures SentCount(Results(CountsOf(tiles), max)[..n]) == |SentAll(urls, tiles, Results(CountsOf(tiles), max), n)|
  {
    hide Results;
    var rs := Results(CountsOf(tiles), max);
    if n > 0 {
      CountedAsSent(urls, tiles, max, n - 1);
      ResultAt(CountsOf(tiles), max, n - 1);
      assert rs[..n][..n - 1] == rs[..n - 1];
    }
  }

  /** The two computations agree: the images a report counts as sent are those that were prepared. */
  lemma ReportMatches(urls: seq<string>, tiles: seq<Option<seq<string>>>, max: int)
    requires |tiles| == |urls|
    ensures var rs := Results(CountsOf(tiles), max);
      |rs| == |urls| && SentCount(rs) == |SentAll(urls, tiles, rs, |urls|)|
  {
    var rs := Results(CountsOf(tiles), max);
    ResultsPrefix(CountsOf(tiles), max, |urls|);
    CountedAsSent(urls, tiles, max, |urls|);
    assert rs[..|urls|] == rs;
  }
}
