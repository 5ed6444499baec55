/** Strings as Python treats them: decimal numbers, whitespace, and a separator inside a line. */
module Text {
  import opened Common

  // ---------- decimal numbers ----------

  function Digit(n: nat): char
    requires n < 10
  {
    ('0' as int + n) as char
  }

  predicate IsDigit(c: char) {
    '0' <= c <= '9'
  }

  function Decimal(n: nat): string {
    if n < 10 then [Digit(n)] else Decimal(n / 10) + [Digit(n % 10)]
  }

  lemma {:induction false} DecimalDigits(n: nat)
    ensures Decimal(n) != "" && forall i :: 0 <= i < |Decimal(n)| ==> IsDigit(Decimal(n)[i])
  {
    if n >= 10 {
      DecimalDigits(n / 10);
    }
  }

  lemma {:induction false} DecimalInjective(m: nat, n: nat)
    requires Decimal(m) == Decimal(n)
    ensures m == n
  {
    DecimalDigits(m / 10);
    DecimalDigits(n / 10);
    var s, t := Decimal(m), Decimal(n);
    assert s[|s| - 1] == Digit(m % 10) && t[|t| - 1] == Digit(n % 10);
    if m >= 10 && n >= 10 {
      assert Decimal(m / 10) == s[..|s| - 1] && Decimal(n / 10) == t[..|t| - 1];
      DecimalInjective(m / 10, n / 10);
    }
  }

  // ---------- whitespace ----------

  /** The characters str.isspace and str.strip count as whitespace. */
  predicate IsSpace(c: char) {
    var n := c as int;
    || 0x09 <= n <= 0x0D || 0x1C <= n <= 0x20 || n == 0x85 || n == 0xA0 || n == 0x1680 || 0x2000 <= n <= 0x200A
    || n == 0x2028 || n == 0x2029 || n == 0x202F || n == 0x205F || n == 0x3000
  }

  /** The White_Space property of Unicode: what `\s` stands for in the pattern of a schema field. */
  predicate IsWhiteSpace(c: char) {
    IsSpace(c) && !(0x1C <= c as int <= 0x1F)
  }

  function StripLeft(s: string): string {
    if s != "" && IsSpace(s[0]) then StripLeft(s[1..]) else s
  }

  function StripRight(s: string): string {
    if s != "" && IsSpace(s[|s| - 1]) then StripRight(s[..|s| - 1]) else s
  }

  function Strip(s: string): string {
    StripRight(StripLeft(s))
  }

  /** No whitespace at either end. */
  predicate Stripped(s: string) {
    s == "" || (!IsSpace(s[0]) && !IsSpace(s[|s| - 1]))
  }

  lemma {:induction false} StripRightKeeps(s: string)
    ensures var t := StripRight(s);
            |t| <= |s| && t == s[..|t|] && (t == "" || !IsSpace(t[|t| - 1]))
  {
    if s != "" && IsSpace(s[|s| - 1]) {
      StripRightKeeps(s[..|s| - 1]);
    }
  }

  lemma {:induction false} StripLeftKeeps(s: string)
    ensures var t := StripLeft(s);
            |t| <= |s| && (t == "" || !IsSpace(t[0]))
  {
    if s != "" && IsSpace(s[0]) {
      StripLeftKeeps(s[1..]);
    }
  }

  lemma StripIsStripped(s: string)
    ensures Stripped(Strip(s)) && |Strip(s)| <= |s|
  {
    StripLeftKeeps(s);
    StripRightKeeps(StripLeft(s));
  }

  predicate AllSpace(s: string) {
    forall i :: 0 <= i < |s| ==> IsSpace(s[i])
  }

  lemma {:induction false} StripLeftSplit(s: string) returns (a: string)
    ensures s == a + StripLeft(s) && AllSpace(a)
  {
    hide IsSpace;
    if s != "" && IsSpace(s[0]) {
      var b := StripLeftSplit(s[1..]);
      a := [s[0]] + b;
      assert s == [s[0]] + s[1..];
    } else {
      a := "";
    }
  }

  lemma {:induction false} StripRightSplit(s: string) returns (b: string)
    ensures s == StripRight(s) + b && AllSpace(b)
  {
    hide IsSpace;
    if s != "" && IsSpace(s[|s| - 1]) {
      var c := StripRightSplit(s[..|s| - 1]);
      b := c + [s[|s| - 1]];
      assert s == s[..|s| - 1] + [s[|s| - 1]];
    } else {
      b := "";
    }
  }

  /** Stripping takes whitespace off both ends, all of it and nothing else. */
  lemma StripExactly(s: string)
    ensures Stripped(Strip(s)) && exists a, b :: AllSpace(a) && AllSpace(b) && s == a + Strip(s) + b
  {
    StripIsStripped(s);
    var a := StripLeftSplit(s);
    var b := StripRightSplit(StripLeft(s));
    assert s == a + Strip(s) + b;
  }

  lemma StrippedStays(s: string)
    requires Stripped(s)
    ensures Strip(s) == s && Strip(" " + s) == s
  {
    assert IsSpace(' ');
    assert (" " + s)[1..] == s;
    assert StripLeft(" " + s) == StripLeft(s) == s;
  }

  // ---------- the arrow between question and answer ----------

  const ARROW := " → "

  /** Where the arrow stands in a text. */
  predicate ArrowAt(s: string, k: nat) {
    k + 3 <= |s| && s[k] == ' ' && s[k + 1] == '→' && s[k + 2] == ' '
  }

  predicate HasArrow(s: string) {
    exists k: nat :: k < |s| && ArrowAt(s, k)
  }

  /** `s.split(" → ")[0]`: the text before the first arrow, or all of it. */
  function BeforeArrow(s: string): string {
    if s == "" || ArrowAt(s, 0) then "" else [s[0]] + BeforeArrow(s[1..])
  }

  lemma ArrowText(x: string, a: string, k: nat)
    ensures var line := x + ARROW + a;
            && (k + 2 <= |x| ==> (ArrowAt(line, k) <==> ArrowAt(x + " ", k)))
            && (k + 1 == |x| ==> !ArrowAt(line, k))
            && (k == |x| ==> ArrowAt(line, k))
  {
    assert |ARROW| == 3 && ARROW[0] == ' ' && ARROW[1] == '→' && ARROW[2] == ' ';
  }

  /** What stands before the arrow is found exactly when it has no arrow of its own, a trailing blank included. */
  lemma {:induction false} BeforeArrowExactly(x: string, a: string)
    ensures !HasArrow(x + " ") ==> BeforeArrow(x + ARROW + a) == x
    ensures HasArrow(x + " ") ==> |BeforeArrow(x + ARROW + a)| + 2 <= |x|
  {
    var line := x + ARROW + a;
    ArrowText(x, a, 0);
    if x == "" {
      assert line != "" && ArrowAt(line, 0);
    } else {
      BeforeArrowExactly(x[1..], a);
      assert line[1..] == x[1..] + ARROW + a;
      TailArrow(x);
      if !ArrowAt(x + " ", 0) {
        assert !ArrowAt(line, 0);
        assert x == [x[0]] + x[1..];
      }
    }
  }

  lemma TailArrow(x: string)
    requires x != ""
    ensures HasArrow(x + " ") <==> ArrowAt(x + " ", 0) || HasArrow(x[1..] + " ")
  {
    var s, t := x + " ", x[1..] + " ";
    assert s[1..] == t;
    if HasArrow(s) {
      var k: nat :| k < |s| && ArrowAt(s, k);
      if k > 0 {
        assert ArrowAt(t, k - 1);
      }
    }
    if HasArrow(t) {
      var k: nat :| k < |t| && ArrowAt(t, k);
      assert ArrowAt(s, k + 1);
    }
  }
}
