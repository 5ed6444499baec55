/** JSON values and their text as json.dumps(..., sort_keys=True, ensure_ascii=False) prints it. */
module Json {
  /** A number is held as the text Python prints for it. */
  datatype Json =
    | Null
    | Bool(b: bool)
    | Num(text: string)
    | Str(s: string)
    | Arr(items: seq<Json>)
    | Obj(fields: map<string, Json>)

  predicate NumberChar(c: char) {
    || '0' <= c <= '9' || c == '+' || c == '-' || c == '.' || c == 'e' || c == 'E'
    || c == 'N' || c == 'a' || c == 'I' || c == 'n' || c == 'f' || c == 'i' || c == 't' || c == 'y'
  }

  predicate NumberStart(c: char) {
    '0' <= c <= '9' || c == '-' || c == 'N' || c == 'I'
  }

  /** Integers, floats, NaN and the infinities, as printed. */
  predicate NumberText(t: string) {
    t != "" && NumberStart(t[0]) && forall i :: 0 <= i < |t| ==> NumberChar(t[i])
  }

  predicate WellFormed(j: Json) {
    match j
    case Num(t) => NumberText(t)
    case Arr(items) => forall i :: 0 <= i < |items| ==> WellFormed(items[i])
    case Obj(fields) => forall k :: k in fields ==> WellFormed(fields[k])
    case _ => true
  }

  // ---------- strings in code point order ----------

  predicate StrLe(a: string, b: string) {
    a == "" || (b != "" && (a[0] < b[0] || (a[0] == b[0] && StrLe(a[1..], b[1..]))))
  }

  lemma {:induction false} StrLeTotal(a: string, b: string)
    ensures StrLe(a, b) || StrLe(b, a)
  {
    if a != "" && b != "" && a[0] == b[0] {
      StrLeTotal(a[1..], b[1..]);
    }
  }

  lemma {:induction false} StrLeAntisymmetric(a: string, b: string)
    requires StrLe(a, b) && StrLe(b, a)
    ensures a == b
  {
    if a != "" && b != "" {
      StrLeAntisymmetric(a[1..], b[1..]);
      assert a == [a[0]] + a[1..] && b == [b[0]] + b[1..];
    }
  }

  lemma {:induction false} StrLeTransitive(a: string, b: string, c: string)
    requires StrLe(a, b) && StrLe(b, c)
    ensures StrLe(a, c)
  {
    if a != "" && a[0] == b[0] == c[0] {
      StrLeTransitive(a[1..], b[1..], c[1..]);
    }
  }

  // ---------- object keys in order ----------

  ghost predicate IsKeyList(keys: seq<string>, names: set<string>) {
    && (forall k :: k in keys <==> k in names)
    && (forall i, j :: 0 <= i < j < |keys| ==> keys[i] != keys[j] && StrLe(keys[i], keys[j]))
  }

  predicate Least(k: string, names: set<string>) {
    forall y :: y in names ==> StrLe(k, y)
  }

  lemma {:induction false} LeastExists(names: set<string>)
    requires names != {}
    ensures exists k :: k in names && Least(k, names)
    ensures forall k, l :: k in names && Least(k, names) && l in names && Least(l, names) ==> k == l
  {
    forall k, l | k in names && Least(k, names) && l in names && Least(l, names) ensures k == l {
      StrLeAntisymmetric(k, l);
    }
    var k :| k in names;
    StrLeTotal(k, k);
    if names != {k} {
      LeastExists(names - {k});
      var l :| l in names - {k} && Least(l, names - {k});
      StrLeTotal(k, l);
      forall y | y in names ensures StrLe(if StrLe(k, l) then k else l, y) {
        if y != k && StrLe(k, l) {
          StrLeTransitive(k, l, y);
        }
      }
      assert Least(if StrLe(k, l) then k else l, names);
    } else {
      assert Least(k, names);
    }
  }

  /** The keys of an object in the order sort_keys prints them. */
  function SortedKeys(names: set<string>): (keys: seq<string>)
    ensures IsKeyList(keys, names)
  {
    if names == {} then []
    else
      LeastExists(names);
      var k :| k in names && Least(k, names);
      [k] + SortedKeys(names - {k})
  }

  // ---------- printing ----------

  function HexDigit(n: nat): char
    requires n < 16
  {
    if n < 10 then ('0' as int + n) as char else ('a' as int + n - 10) as char
  }

  function EscapeChar(c: char): string {
    if c == '"' then "\\\""
    else if c == '\\' then "\\\\"
    else if c == '\n' then "\\n"
    else if c == '\r' then "\\r"
    else if c == '\t' then "\\t"
    else if c == '\U{0008}' then "\\b"
    else if c == '\U{000C}' then "\\f"
    else if c < ' ' then "\\u00" + [HexDigit(c as int / 16), HexDigit(c as int % 16)]
    else [c]
  }

  function Escape(s: string): string {
    if s == "" then "" else EscapeChar(s[0]) + Escape(s[1..])
  }

  function Quote(s: string): string {
    "\"" + Escape(s) + "\""
  }

  function Join(parts: seq<string>): string {
    if parts == [] then "" else if |parts| == 1 then parts[0] else parts[0] + ", " + Join(parts[1..])
  }

  function Encode(j: Json): string {
    match j
    case Null => "null"
    case Bool(b) => if b then "true" else "false"
    case Num(t) => t
    case Str(s) => Quote(s)
    case Arr(items) => "[" + Join(seq(|items|, i requires 0 <= i < |items| => Encode(items[i]))) + "]"
    case Obj(fields) =>
      var keys := SortedKeys(fields.Keys);
      "{" + Join(seq(|keys|, i requires 0 <= i < |keys| => Quote(keys[i]) + ": " + Encode(fields[keys[i]]))) + "}"
  }

  // ---------- the text determines the value ----------

  /** What may follow a value inside a text: nothing, or a character that ends it. */
  predicate Ends(r: string) {
    r == "" || Delimiter(r[0])
  }

  predicate Delimiter(c: char) {
    c == ',' || c == ']' || c == '}'
  }

  lemma Cancel(x: string, r: string, s: string)
    requires x + r == x + s
    ensures r == s
  {
    assert (x + r)[|x|..] == r && (x + s)[|x|..] == s;
  }

  lemma Heads(a: string, r: string, b: string, s: string)
    requires a != "" && b != "" && a + r == b + s
    ensures a[0] == b[0] && a[1..] + r == b[1..] + s
  {
    assert (a + r)[0] == a[0] && (b + s)[0] == b[0];
    assert (a + r)[1..] == a[1..] + r && (b + s)[1..] == b[1..] + s;
  }

  lemma Regroup(a: string, b: string, c: string)
    ensures a + b + c == a + (b + c)
  {
  }

  /** The escapes of two different characters differ at some place both have. */
  lemma EscapesDiffer(c: char, r: string, d: char, s: string)
    requires c != d
    ensures EscapeChar(c) + r != EscapeChar(d) + s
  {
    var x, y := EscapeChar(c), EscapeChar(d);
    var i := if x[0] != y[0] then 0 else if x[1] != y[1] then 1 else if x[4] != y[4] then 4 else 5;
    assert (x + r)[i] == x[i] && (y + s)[i] == y[i];
  }

  lemma EscapeCharUnambiguous(c: char, r: string, d: char, s: string)
    requires EscapeChar(c) + r == EscapeChar(d) + s
    ensures c == d && r == s
  {
    if c != d {
      EscapesDiffer(c, r, d, s);
    }
    Cancel(EscapeChar(c), r, s);
  }

  /** Only the closing quote looks like a quote. */
  lemma EscapeStep(a: string, r: string)
    ensures Escape(a) + "\"" + r != ""
    ensures a == "" <==> (Escape(a) + "\"" + r)[0] == '"'
    ensures a == "" ==> Escape(a) + "\"" + r == "\"" + r
    ensures a != "" ==> Escape(a) + "\"" + r == EscapeChar(a[0]) + (Escape(a[1..]) + "\"" + r)
  {
    if a != "" {
      EscapeStartsOpen(a[0]);
      var x, y := EscapeChar(a[0]), Escape(a[1..]);
      assert x + y + "\"" + r == x + (y + "\"" + r);
      assert (x + (y + "\"" + r))[0] == x[0];
    }
  }

  lemma EscapeStartsOpen(c: char)
    ensures EscapeChar(c) != "" && EscapeChar(c)[0] != '"'
  {
  }

  lemma {:induction false} EscapeUnambiguous(a: string, r: string, b: string, s: string)
    requires Escape(a) + "\"" + r == Escape(b) + "\"" + s
    ensures a == b && r == s
  {
    EscapeStep(a, r);
    EscapeStep(b, s);
    if a == "" {
      Cancel("\"", r, s);
    } else {
      EscapeCharUnambiguous(a[0], Escape(a[1..]) + "\"" + r, b[0], Escape(b[1..]) + "\"" + s);
      EscapeUnambiguous(a[1..], r, b[1..], s);
      assert a == [a[0]] + a[1..] && b == [b[0]] + b[1..];
    }
  }

  lemma QuoteUnambiguous(a: string, r: string, b: string, s: string)
    requires Quote(a) + r == Quote(b) + s
    ensures a == b && r == s
  {
    assert Quote(a) + r == "\"" + (Escape(a) + "\"" + r);
    assert Quote(b) + s == "\"" + (Escape(b) + "\"" + s);
    Cancel("\"", Escape(a) + "\"" + r, Escape(b) + "\"" + s);
    EscapeUnambiguous(a, r, b, s);
  }

  /** A number text is not empty where a value ends. */
  lemma NumberGoesOn(b: string, r: string, s: string)
    requires Ends(r) && forall i :: 0 <= i < |b| ==> NumberChar(b[i])
    ensures b != "" ==> r != b + s
  {
  }

  lemma {:induction false} NumberUnambiguous(a: string, r: string, b: string, s: string)
    requires (forall i :: 0 <= i < |a| ==> NumberChar(a[i])) && (forall i :: 0 <= i < |b| ==> NumberChar(b[i]))
    requires Ends(r) && Ends(s) && a + r == b + s
    ensures a == b && r == s
  {
    NumberGoesOn(b, r, s);
    NumberGoesOn(a, s, r);
    assert "" + r == r && "" + s == s;
    if a == "" {
      assert b == "";
    } else {
      assert b != "";
      Heads(a, r, b, s);
      NumberUnambiguous(a[1..], r, b[1..], s);
      assert a == [a[0]] + a[1..] && b == [b[0]] + b[1..];
    }
  }

  /** The first character of a printed value of this kind, '0' standing for every number start. */
  function Mark(j: Json): char {
    match j
    case Null => 'n'
    case Bool(b) => if b then 't' else 'f'
    case Num(_) => '0'
    case Str(_) => '"'
    case Arr(_) => '['
    case Obj(_) => '{'
  }

  /** The first character tells the kind of value, and never ends one. */
  lemma FirstChar(j: Json)
    requires WellFormed(j)
    ensures Encode(j) != "" && !Delimiter(Encode(j)[0])
    ensures if j.Num? then NumberStart(Encode(j)[0]) else Encode(j)[0] == Mark(j)
  {
  }

  ghost function Items(items: seq<Json>): seq<string> {
    seq(|items|, i requires 0 <= i < |items| => Encode(items[i]))
  }

  ghost function Fields(keys: seq<string>, fields: map<string, Json>): seq<string>
    requires forall k :: k in keys ==> k in fields
  {
    seq(|keys|, i requires 0 <= i < |keys| => Quote(keys[i]) + ": " + Encode(fields[keys[i]]))
  }

  /** The text after the first part of a joined list that `close` follows. */
  function Rest(parts: seq<string>, close: string): string
    requires parts != []
  {
    if |parts| == 1 then close else ", " + (Join(parts[1..]) + close)
  }

  lemma JoinFirst(parts: seq<string>, close: string)
    requires parts != []
    ensures Join(parts) + close == parts[0] + Rest(parts, close)
  {
  }

  /** Whether a text closes a list. */
  predicate Closes(r: string) {
    r != "" && r[0] in "]}"
  }

  lemma RestEnds(parts: seq<string>, close: string)
    requires parts != [] && Closes(close)
    ensures Ends(Rest(parts, close)) && Rest(parts, close) != ""
    ensures Rest(parts, close)[0] == if |parts| == 1 then close[0] else ','
  {
  }

  /** Equal rests end at the same place or go on in the same way. */
  lemma RestUnambiguous(ps: seq<string>, r: string, qs: seq<string>, s: string)
    requires ps != [] && qs != [] && Closes(r) && Closes(s)
    requires Rest(ps, r) == Rest(qs, s)
    ensures |ps| == 1 <==> |qs| == 1
    ensures |ps| == 1 ==> r == s
    ensures |ps| > 1 ==> Join(ps[1..]) + r == Join(qs[1..]) + s
  {
    RestEnds(ps, r);
    RestEnds(qs, s);
    if |ps| > 1 {
      Cancel(", ", Join(ps[1..]) + r, Join(qs[1..]) + s);
    }
  }

  /** A list with parts does not read as a closed list. */
  lemma PartsFirst(ps: seq<string>, r: string, s: string)
    requires Closes(s) && (ps != [] ==> ps[0] != "" && !Delimiter(ps[0][0]))
    ensures ps != [] ==> Join(ps) + r != s
    ensures ps == [] ==> Join(ps) + r == r
  {
    if ps != [] {
      JoinFirst(ps, r);
      assert (ps[0] + Rest(ps, r))[0] == ps[0][0];
    }
  }

  lemma BracketUnambiguous(x: string, r: string, y: string, s: string, open: char, close: char)
    requires [open] + x + [close] + r == [open] + y + [close] + s
    ensures x + ([close] + r) == y + ([close] + s)
  {
    assert [open] + x + [close] + r == [open] + (x + ([close] + r));
    assert [open] + y + [close] + s == [open] + (y + ([close] + s));
    Cancel([open], x + ([close] + r), y + ([close] + s));
  }

  lemma SameKind(a: Json, b: Json)
    requires WellFormed(a) && WellFormed(b) && Encode(a) != "" && Encode(b) != "" && Encode(a)[0] == Encode(b)[0]
    ensures Mark(a) == Mark(b)
  {
    FirstChar(a);
    FirstChar(b);
  }

  /** Equal texts, with anything after that ends a value, mean equal values. */
  lemma {:induction false} Unambiguous(a: Json, r: string, b: Json, s: string)
    requires WellFormed(a) && WellFormed(b) && Ends(r) && Ends(s)
    requires Encode(a) + r == Encode(b) + s
    ensures a == b && r == s
    decreases a, 1, 0
  {
    FirstChar(a);
    FirstChar(b);
    Heads(Encode(a), r, Encode(b), s);
    SameKind(a, b);
    match a
    case Null => Cancel("null", r, s);
    case Bool(v) => Cancel(Encode(a), r, s);
    case Num(t) => NumberUnambiguous(t, r, b.text, s);
    case Str(x) => QuoteUnambiguous(x, r, b.s, s);
    case Arr(xs) =>
      BracketUnambiguous(Join(Items(xs)), r, Join(Items(b.items)), s, '[', ']');
      ItemsUnambiguous(xs, "]" + r, b.items, "]" + s);
      Cancel("]", r, s);
    case Obj(f) =>
      var g := b.fields;
      var ka, kb := SortedKeys(f.Keys), SortedKeys(g.Keys);
      BracketUnambiguous(Join(Fields(ka, f)), r, Join(Fields(kb, g)), s, '{', '}');
      FieldsUnambiguous(a, ka, "}" + r, g, kb, "}" + s);
      SameFields(f, g, ka);
      Cancel("}", r, s);
  }

  lemma SameFields(f: map<string, Json>, g: map<string, Json>, keys: seq<string>)
    requires IsKeyList(keys, f.Keys) && IsKeyList(keys, g.Keys) && forall k :: k in keys ==> k in f && k in g && f[k] == g[k]
    ensures f == g
  {
    assert forall k :: k in f.Keys <==> k in keys;
    assert forall k :: k in g.Keys <==> k in keys;
  }

  lemma ItemsFirst(xs: seq<Json>, r: string, s: string)
    requires Closes(s) && forall i :: 0 <= i < |xs| ==> WellFormed(xs[i])
    ensures xs != [] ==> Join(Items(xs)) + r != s
    ensures xs == [] ==> Join(Items(xs)) + r == r
  {
    if xs != [] {
      FirstChar(xs[0]);
    }
    PartsFirst(Items(xs), r, s);
  }

  lemma {:induction false} ItemsUnambiguous(xs: seq<Json>, r: string, ys: seq<Json>, s: string)
    requires (forall i :: 0 <= i < |xs| ==> WellFormed(xs[i])) && (forall i :: 0 <= i < |ys| ==> WellFormed(ys[i]))
    requires Closes(r) && Closes(s) && Join(Items(xs)) + r == Join(Items(ys)) + s
    ensures xs == ys && r == s
    decreases xs, 0, 0
  {
    hide Encode;
    var ps, qs := Items(xs), Items(ys);
    ItemsFirst(xs, r, s);
    ItemsFirst(ys, s, r);
    if xs == [] {
      assert ys == [];
    } else {
      FirstChar(xs[0]);
      assert ys != [];
      JoinFirst(ps, r);
      JoinFirst(qs, s);
      RestEnds(ps, r);
      RestEnds(qs, s);
      Unambiguous(xs[0], Rest(ps, r), ys[0], Rest(qs, s));
      RestUnambiguous(ps, r, qs, s);
      if |xs| > 1 {
        assert Items(xs[1..]) == ps[1..] && Items(ys[1..]) == qs[1..];
        ItemsUnambiguous(xs[1..], r, ys[1..], s);
      }
      assert xs == [xs[0]] + xs[1..] && ys == [ys[0]] + ys[1..];
    }
  }

  lemma FieldText(k: string, v: string, rest: string)
    ensures Quote(k) + ": " + v + rest == Quote(k) + (": " + (v + rest))
    ensures (Quote(k) + ": " + v) != "" && (Quote(k) + ": " + v)[0] == '"'
  {
  }

  /** Equal first fields have the same key and the same text after it. */
  lemma FieldUnambiguous(k: string, v: string, r: string, l: string, w: string, s: string)
    requires Quote(k) + ": " + v + r == Quote(l) + ": " + w + s
    ensures k == l && v + r == w + s
  {
    FieldText(k, v, r);
    FieldText(l, w, s);
    QuoteUnambiguous(k, ": " + (v + r), l, ": " + (w + s));
    Cancel(": ", v + r, w + s);
  }

  lemma FieldsFirst(keys: seq<string>, f: map<string, Json>, r: string)
    requires keys != [] && Closes(r) && forall k :: k in keys ==> k in f
    ensures var v := Encode(f[keys[0]]);
            var rest := Rest(Fields(keys, f), r);
            Join(Fields(keys, f)) + r == Quote(keys[0]) + ": " + v + rest && Ends(rest)
  {
    JoinFirst(Fields(keys, f), r);
    RestEnds(Fields(keys, f), r);
  }

  lemma FieldsEmpty(keys: seq<string>, f: map<string, Json>, r: string, s: string)
    requires Closes(s) && forall k :: k in keys ==> k in f
    ensures keys != [] ==> Join(Fields(keys, f)) + r != s
    ensures keys == [] ==> Join(Fields(keys, f)) + r == r
  {
    PartsFirst(Fields(keys, f), r, s);
  }

  lemma FieldsTail(keys: seq<string>, f: map<string, Json>)
    requires keys != [] && forall k :: k in keys ==> k in f
    ensures Fields(keys[1..], f) == Fields(keys, f)[1..]
  {
  }

  lemma {:induction false} FirstFieldUnambiguous(a: Json, ka: seq<string>, r: string, g: map<string, Json>,
                                                 kb: seq<string>, s: string)
    requires a.Obj? && WellFormed(a) && (forall k :: k in g ==> WellFormed(g[k])) && ka != [] && kb != []
    requires (forall k :: k in ka ==> k in a.fields) && (forall k :: k in kb ==> k in g)
    requires Closes(r) && Closes(s) && Join(Fields(ka, a.fields)) + r == Join(Fields(kb, g)) + s
    ensures ka[0] == kb[0] && a.fields[ka[0]] == g[kb[0]]
    ensures |ka| == 1 <==> |kb| == 1
    ensures |ka| == 1 ==> r == s
    ensures |ka| > 1 ==> Join(Fields(ka[1..], a.fields)) + r == Join(Fields(kb[1..], g)) + s
    decreases a, 0, |ka|, 0
  {
    FieldsFirst(ka, a.fields, r);
    FieldsFirst(kb, g, s);
    var v, w := a.fields[ka[0]], g[kb[0]];
    var x, y := Rest(Fields(ka, a.fields), r), Rest(Fields(kb, g), s);
    FieldUnambiguous(ka[0], Encode(v), x, kb[0], Encode(w), y);
    Unambiguous(v, x, w, y);
    RestUnambiguous(Fields(ka, a.fields), r, Fields(kb, g), s);
    FieldsTail(ka, a.fields);
    FieldsTail(kb, g);
  }

  lemma {:induction false} FieldsUnambiguous(a: Json, ka: seq<string>, r: string, g: map<string, Json>, kb: seq<string>,
                                             s: string)
    requires a.Obj? && WellFormed(a) && forall k :: k in g ==> WellFormed(g[k])
    requires (forall k :: k in ka ==> k in a.fields) && (forall k :: k in kb ==> k in g)
    requires Closes(r) && Closes(s) && Join(Fields(ka, a.fields)) + r == Join(Fields(kb, g)) + s
    ensures ka == kb && r == s
    ensures forall k :: k in ka ==> a.fields[k] == g[k]
    decreases a, 0, |ka|, 1
  {
    FieldsEmpty(ka, a.fields, r, s);
    FieldsEmpty(kb, g, s, r);
    if ka == [] {
      assert kb == [];
    } else {
      assert kb != [];
      FirstFieldUnambiguous(a, ka, r, g, kb, s);
      assert ka == [ka[0]] + ka[1..] && kb == [kb[0]] + kb[1..];
      if |ka| > 1 {
        FieldsUnambiguous(a, ka[1..], r, g, kb[1..], s);
      }
    }
  }

  /** Printing is injective: two values with the same text are the same value. */
  lemma EncodeInjective(a: Json, b: Json)
    requires WellFormed(a) && WellFormed(b) && Encode(a) == Encode(b)
    ensures a == b
  {
    assert Encode(a) + "" == Encode(a) && Encode(b) + "" == Encode(b);
    Unambiguous(a, "", b, "");
  }
}
