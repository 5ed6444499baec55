/** Matching kept lines against the source from the back (ai/scripts/make_seller_region_skeletons.py, unknown_boundaries). */
module Embedding {
  import opened Common

  /** Places that show `kept` as a subsequence of `lines`. */
  ghost predicate Embeds(d: seq<nat>, lines: seq<string>, kept: seq<string>) {
    && |d| == |kept|
    && (forall k :: 0 <= k < |d| ==> d[k] < |lines| && lines[d[k]] == kept[k])
    && forall k, l :: 0 <= k < l < |d| ==> d[k] < d[l]
  }

  /** An embedding none of whose places is to the left of that of any other embedding. */
  ghost predicate Rightmost(d: seq<nat>, lines: seq<string>, kept: seq<string>) {
    Embeds(d, lines, kept) && forall e :: Embeds(e, lines, kept) ==> forall k :: 0 <= k < |e| == |d| ==> e[k] <= d[k]
  }

  /** The places the backward loop finds, if it finds all. */
  ghost function FromBack(lines: seq<string>, kept: seq<string>): Option<seq<nat>> {
    if kept == [] then Some([])
    else if lines == [] then None
    else
      var n, m := |lines| - 1, |kept| - 1;
      if lines[n] == kept[m] then Push(FromBack(lines[..n], kept[..m]), n) else FromBack(lines[..n], kept)
  }

  function Push(d: Option<seq<nat>>, n: nat): Option<seq<nat>> {
    if d.None? then None else Some(d.value + [n])
  }

  lemma {:induction false} FoundEmbeds(lines: seq<string>, kept: seq<string>)
    requires FromBack(lines, kept).Some?
    ensures Embeds(FromBack(lines, kept).value, lines, kept)
  {
    if kept != [] {
      var n, m := |lines| - 1, |kept| - 1;
      if lines[n] == kept[m] {
        FoundEmbeds(lines[..n], kept[..m]);
      } else {
        FoundEmbeds(lines[..n], kept);
      }
    }
  }

  /** The backward match is found whenever any embedding exists, and lies to the right of every one of them. */
  lemma {:induction false} FoundIsRightmost(lines: seq<string>, kept: seq<string>, d: seq<nat>)
    requires Embeds(d, lines, kept)
    ensures FromBack(lines, kept).Some? && |FromBack(lines, kept).value| == |d|
    ensures forall k :: 0 <= k < |d| ==> d[k] <= FromBack(lines, kept).value[k]
  {
    if kept != [] {
      var n, m := |lines| - 1, |kept| - 1;
      assert d[m] < |lines|;
      if lines[n] == kept[m] {
        FoundIsRightmost(lines[..n], kept[..m], d[..m]);
      } else {
        assert d[m] != n;
        FoundIsRightmost(lines[..n], kept, d);
      }
    }
  }

  /** A match exists exactly when the kept lines are a subsequence of the source; then it is the rightmost one. */
  lemma FoundExactly(lines: seq<string>, kept: seq<string>)
    ensures FromBack(lines, kept).Some? <==> exists d :: Embeds(d, lines, kept)
    ensures forall d :: Embeds(d, lines, kept) ==>
              FromBack(lines, kept).Some? && |FromBack(lines, kept).value| == |d|
              && forall k :: 0 <= k < |d| ==> d[k] <= FromBack(lines, kept).value[k]
  {
    if FromBack(lines, kept).Some? {
      FoundEmbeds(lines, kept);
    }
    forall d | Embeds(d, lines, kept)
      ensures FromBack(lines, kept).Some? && |FromBack(lines, kept).value| == |d|
      ensures forall k :: 0 <= k < |d| ==> d[k] <= FromBack(lines, kept).value[k]
    {
      FoundIsRightmost(lines, kept, d);
    }
  }

  // ---------- the loop ----------

  function Append(d: Option<seq<nat>>, tail: seq<nat>): Option<seq<nat>> {
    if d.None? then None else Some(d.value + tail)
  }

  /** Fills the flags from the back; `j` is the index of the last kept line not yet found. */
  method MatchFromBack(lines: seq<string>, kept: seq<string>) returns (flags: array<bool>, j: int)
    ensures fresh(flags) && flags.Length == |lines|
    ensures j < 0 <==> FromBack(lines, kept).Some?
    ensures j < 0 ==> forall i :: 0 <= i < |lines| ==> (flags[i] <==> i in FromBack(lines, kept).value)
  {
    flags := new bool[|lines|](_ => false);
    j := |kept| - 1;
    ghost var tail: seq<nat> := [];
    assert lines[..|lines|] == lines && kept[..|kept|] == kept;
    AppendNothing(FromBack(lines, kept));
    for i := |lines| downto 0
      invariant -1 <= j < |kept|
      invariant FromBack(lines, kept) == Append(FromBack(lines[..i], kept[..j + 1]), tail)
      invariant forall x :: x in tail ==> i <= x < |lines|
      invariant forall x :: 0 <= x < |lines| ==> (flags[x] <==> x in tail)
    {
      assert lines[..i + 1][..i] == lines[..i];
      if j >= 0 && lines[i] == kept[j] {
        assert kept[..j + 1][..j] == kept[..j];
        AppendPush(FromBack(lines[..i], kept[..j]), i, tail);
        flags[i] := true;
        j := j - 1;
        tail := [i] + tail;
      }
    }
    assert lines[..0] == [];
    assert j < 0 ==> [] + tail == tail;
  }

  lemma AppendNothing(d: Option<seq<nat>>)
    ensures Append(d, []) == d
  {
    if d.Some? {
      assert d.value + [] == d.value;
    }
  }

  lemma AppendPush(d: Option<seq<nat>>, n: nat, tail: seq<nat>)
    ensures Append(Push(d, n), tail) == Append(d, [n] + tail)
  {
    if d.Some? {
      assert d.value + [n] + tail == d.value + ([n] + tail);
    }
  }

  // ---------- the boundaries ----------

  datatype Problem = NotInOrder | EndBoundary(line: string) | StartBoundary(line: string)

  predicate EndsBadly(lines: seq<string>, flags: seq<bool>, marker: string -> bool, i: nat)
    requires |flags| == |lines| && i + 1 < |lines|
  {
    flags[i] && !flags[i + 1] && !marker(lines[i + 1])
  }

  predicate StartsBadly(lines: seq<string>, flags: seq<bool>, marker: string -> bool, i: nat)
    requires |flags| == |lines| && i + 1 < |lines|
  {
    !flags[i] && flags[i + 1] && !(marker(lines[i]) || marker(lines[i + 1]))
  }

  function Shown(line: string): string {
    if |line| <= 20 then line else line[..20]
  }

  /** The problems at the first `n` pairs of neighbouring lines. */
  function Problems(lines: seq<string>, flags: seq<bool>, marker: string -> bool, n: nat): seq<Problem>
    requires |flags| == |lines| && (n == 0 || n < |lines|)
  {
    if n == 0 then []
    else
      var before := Problems(lines, flags, marker, n - 1);
      var ended := if EndsBadly(lines, flags, marker, n - 1) then before + [EndBoundary(Shown(lines[n]))] else before;
      if StartsBadly(lines, flags, marker, n - 1) then ended + [StartBoundary(Shown(lines[n]))] else ended
  }

  function FlagsOf(lines: seq<string>, places: seq<nat>): seq<bool> {
    seq(|lines|, i requires 0 <= i < |lines| => i in places)
  }

  function Pairs(lines: seq<string>): nat {
    if lines == [] then 0 else |lines| - 1
  }

  /** The problems of a text: one if the kept lines are not a subsequence, else those of the rightmost match. */
  ghost function ProblemsOf(lines: seq<string>, kept: seq<string>, marker: string -> bool): seq<Problem> {
    match FromBack(lines, kept)
    case None => [NotInOrder]
    case Some(places) => Problems(lines, FlagsOf(lines, places), marker, Pairs(lines))
  }

  method UnknownBoundaries(lines: seq<string>, kept: seq<string>, marker: string -> bool) returns (problems: seq<Problem>)
    ensures problems == ProblemsOf(lines, kept, marker)
  {
    var marks, j := MatchFromBack(lines, kept);
    if j >= 0 {
      return [NotInOrder];
    }
    ghost var flags := FlagsOf(lines, FromBack(lines, kept).value);
    assert marks[..] == flags;
    problems := [];
    for i := 0 to Pairs(lines)
      invariant problems == Problems(lines, flags, marker, i)
    {
      assert marks[i] == marks[..][i] && marks[i + 1] == marks[..][i + 1];
      if marks[i] && !marks[i + 1] && !marker(lines[i + 1]) {
        problems := problems + [EndBoundary(Shown(lines[i + 1]))];
      }
      if !marks[i] && marks[i + 1] && !(marker(lines[i]) || marker(lines[i + 1])) {
        problems := problems + [StartBoundary(Shown(lines[i + 1]))];
      }
    }
  }

  lemma {:induction false} ProblemsExactly(lines: seq<string>, flags: seq<bool>, marker: string -> bool, n: nat)
    requires |flags| == |lines| && (n == 0 || n < |lines|)
    ensures NotInOrder !in Problems(lines, flags, marker, n)
    ensures Problems(lines, flags, marker, n) == [] <==> forall i :: 0 <= i < n ==>
              !EndsBadly(lines, flags, marker, i) && !StartsBadly(lines, flags, marker, i)
  {
    if n > 0 {
      ProblemsExactly(lines, flags, marker, n - 1);
    }
  }

  /** Each reported line is the start, at most twenty characters, of the line behind a boundary without a marker. */
  lemma {:induction false} LinesReported(lines: seq<string>, flags: seq<bool>, marker: string -> bool, n: nat, x: string)
    requires |flags| == |lines| && (n == 0 || n < |lines|)
    ensures EndBoundary(x) in Problems(lines, flags, marker, n) <==>
            exists i :: 0 <= i < n && EndsBadly(lines, flags, marker, i) && Begins(x, lines[i + 1])
    ensures StartBoundary(x) in Problems(lines, flags, marker, n) <==>
            exists i :: 0 <= i < n && StartsBadly(lines, flags, marker, i) && Begins(x, lines[i + 1])
  {
    if n > 0 {
      hide Shown, Begins, EndsBadly, StartsBadly;
      LinesReported(lines, flags, marker, n - 1, x);
      ShownBegins(x, lines[n]);
      var before := Problems(lines, flags, marker, n - 1);
      var ended := if EndsBadly(lines, flags, marker, n - 1) then before + [EndBoundary(Shown(lines[n]))] else before;
      assert EndBoundary(x) in ended <==>
        EndBoundary(x) in before || (EndsBadly(lines, flags, marker, n - 1) && Begins(x, lines[n]));
      assert StartBoundary(x) in ended <==> StartBoundary(x) in before;
    }
  }

  lemma ShownBegins(x: string, line: string)
    ensures Begins(x, line) <==> x == Shown(line)
  {
  }

  /** The first twenty characters of the line, or all of it. */
  predicate Begins(x: string, line: string) {
    x <= line && |x| == if |line| < 20 then |line| else 20
  }

  /** "Not found in order" is reported exactly when the kept lines are not a subsequence of the source. Nothing is
      reported exactly when they are, and a marker stands at every boundary of the rightmost match. */
  lemma ReportExactly(lines: seq<string>, kept: seq<string>, marker: string -> bool)
    ensures NotInOrder in ProblemsOf(lines, kept, marker) <==> forall d :: !Embeds(d, lines, kept)
    ensures ProblemsOf(lines, kept, marker) == [] <==>
            exists d ::
              && Rightmost(d, lines, kept)
              && forall i :: 0 <= i < Pairs(lines) ==>
                !EndsBadly(lines, FlagsOf(lines, d), marker, i) && !StartsBadly(lines, FlagsOf(lines, d), marker, i)
  {
    FoundExactly(lines, kept);
    match FromBack(lines, kept)
    case None =>
    case Some(found) =>
      FoundEmbeds(lines, kept);
      ProblemsExactly(lines, FlagsOf(lines, found), marker, Pairs(lines));
      assert Rightmost(found, lines, kept);
      forall d | Rightmost(d, lines, kept) ensures d == found
      {
        assert Embeds(found, lines, kept);
        forall k | 0 <= k < |d| ensures d[k] == found[k] {
          assert d[k] <= found[k] && found[k] <= d[k];
        }
      }
  }
}
