/**
 The canonical JSON a ToolFunction identity is hashed over: objects with ascending keys, no white
 space, and encoding/json's string escapes. Two trees have the same bytes only if they are the same
 tree. Characters stand for Unicode code points, whose order is the order of their UTF-8 bytes.
 */
module CanonicalJson {

  datatype Json =
    | Bool(b: bool)
    | Num(n: int)
    | Str(s: string)
    | Arr(items: seq<Json>)
    | Obj(fields: seq<Field>)

  datatype Field = Field(key: string, value: Json)

  // ── encoding ────────────────────────────────────────────────────────────────

  /** Characters encoding/json writes as they are inside a string. */
  predicate Plain(c: char) {
    var n := c as int;
    n >= 0x20 && c !in {'"', '\\', '<', '>', '&'} && n != 0x2028 && n != 0x2029
  }

  /** The letter of a two-character escape, for the characters that have one. */
  function Short(c: char): (r: char)
    ensures r != 'u'
  {
    if c == '"' then '"' else if c == '\\' then '\\'
    else if c as int == 8 then 'b' else if c as int == 12 then 'f'
    else if c == '\n' then 'n' else if c == '\r' then 'r' else if c == '\t' then 't'
    else '?'
  }

  function Hex(n: nat): char
    requires n < 16
  {
    "0123456789abcdef"[n]
  }

  function Hex4(n: nat): (s: string)
    requires n < 0x10000
    ensures |s| == 4
  {
    [Hex(n / 16 / 16 / 16), Hex(n / 16 / 16 % 16), Hex(n / 16 % 16), Hex(n % 16)]
  }

  /** A character that is neither plain nor short is below 0x2030, so four digits are enough. */
  function EscapeChar(c: char): (e: string)
    ensures e != "" && e[0] != '"'
  {
    if Plain(c) then [c]
    else if Short(c) != '?' then ['\\', Short(c)]
    else "\\u" + Hex4(c as int)
  }

  function Escape(s: string): string {
    if s == "" then "" else EscapeChar(s[0]) + Escape(s[1..])
  }

  predicate IsDigit(c: char) { '0' <= c <= '9' }

  function DigitChar(n: nat): char
    requires n < 10
  {
    "0123456789"[n]
  }

  function Digits(n: nat): (d: string)
    ensures |d| >= 1 && (n < 10 <==> |d| == 1)
    ensures forall i :: 0 <= i < |d| ==> IsDigit(d[i])
  {
    if n < 10 then [DigitChar(n)] else Digits(n / 10) + [DigitChar(n % 10)]
  }

  function NumberText(n: int): (t: string)
    ensures |t| >= 1 && forall i :: 0 <= i < |t| ==> t[i] == '-' || IsDigit(t[i])
  {
    if n < 0 then "-" + Digits(-n) else Digits(n)
  }

  function Encode(j: Json): (e: string)
    ensures |e| >= 1
    decreases j, 1
  {
    match j
    case Bool(b) => if b then "true" else "false"
    case Num(n) => NumberText(n)
    case Str(s) => "\"" + Escape(s) + "\""
    case Arr(items) => "[" + EncodeItems(items) + "]"
    case Obj(fields) => "{" + EncodeFields(fields) + "}"
  }

  /** Each item is preceded by a comma, except the first. */
  function EncodeItems(items: seq<Json>): string
    decreases items, 0
  {
    if items == [] then ""
    else if |items| == 1 then Encode(items[0])
    else Encode(items[0]) + "," + EncodeItems(items[1..])
  }

  function EncodeFields(fields: seq<Field>): string
    decreases fields, 0
  {
    if fields == [] then ""
    else
      var first := FieldText(fields[0]);
      if |fields| == 1 then first else first + "," + EncodeFields(fields[1..])
  }

  function FieldText(f: Field): string
    decreases f, 2
  {
    "\"" + Escape(f.key) + "\":" + Encode(f.value)
  }

  // ── strings are read back uniquely ──────────────────────────────────────────

  lemma HexInjective(a: nat, b: nat)
    requires a < 16 && b < 16 && Hex(a) == Hex(b)
    ensures a == b
  {
    assert forall i, j :: 0 <= i < j < 16 ==> "0123456789abcdef"[i] != "0123456789abcdef"[j];
  }

  lemma Hex4Injective(a: nat, b: nat)
    requires a < 0x10000 && b < 0x10000 && Hex4(a) == Hex4(b)
    ensures a == b
  {
    assert Hex4(a)[0] == Hex4(b)[0] && Hex4(a)[1] == Hex4(b)[1] && Hex4(a)[2] == Hex4(b)[2] && Hex4(a)[3] == Hex4(b)[3];
    HexInjective(a / 16 / 16 / 16, b / 16 / 16 / 16);
    HexInjective(a / 16 / 16 % 16, b / 16 / 16 % 16);
    HexInjective(a / 16 % 16, b / 16 % 16);
    HexInjective(a % 16, b % 16);
  }

  /** Escapes form a prefix code, and none of them starts with a quote. */
  lemma EscapeCharReads(c: char, x: string, d: char, y: string)
    requires EscapeChar(c) + x == EscapeChar(d) + y
    ensures c == d && x == y
  {
    var l, r := EscapeChar(c) + x, EscapeChar(d) + y;
    assert l[0] == EscapeChar(c)[0] && r[0] == EscapeChar(d)[0];
    assert Plain(c) == Plain(d);
    if !Plain(c) {
      assert l[1] == EscapeChar(c)[1] && r[1] == EscapeChar(d)[1];
      if Short(c) == '?' {
        assert l[2..6] == Hex4(c as int) && r[2..6] == Hex4(d as int);
        Hex4Injective(c as int, d as int);
      }
    }
    assert l[|EscapeChar(c)|..] == x && r[|EscapeChar(d)|..] == y;
  }

  lemma {:induction false} EscapeReads(s: string, x: string, t: string, y: string)
    requires Escape(s) + "\"" + x == Escape(t) + "\"" + y
    ensures s == t && x == y
    decreases |s|
  {
    hide EscapeChar;
    var l, r := Escape(s) + "\"" + x, Escape(t) + "\"" + y;
    if s == "" || t == "" {
      EscapeStart(s, x);
      EscapeStart(t, y);
      assert l[1..] == x && r[1..] == y;
    } else {
      var l', r' := Escape(s[1..]) + "\"" + x, Escape(t[1..]) + "\"" + y;
      assert l == EscapeChar(s[0]) + l' && r == EscapeChar(t[0]) + r';
      EscapeCharReads(s[0], l', t[0], r');
      EscapeReads(s[1..], x, t[1..], y);
      assert s == [s[0]] + s[1..] && t == [t[0]] + t[1..];
    }
  }

  /** Only the empty string's text begins with the closing quote. */
  lemma EscapeStart(s: string, x: string)
    ensures (Escape(s) + "\"" + x)[0] == '"' <==> s == ""
  {
    if s != "" {
      assert (Escape(s) + "\"" + x)[0] == EscapeChar(s[0])[0];
    }
  }

  // ── so are numbers ──────────────────────────────────────────────────────────

  /** What may follow a value: nothing, a comma, or a closing bracket. */
  predicate Ends(x: string) {
    x == "" || x[0] == ',' || x[0] == ']' || x[0] == '}'
  }

  lemma {:induction false} DigitsInjective(a: nat, b: nat)
    requires Digits(a) == Digits(b)
    ensures a == b
  {
    assert forall i, j :: 0 <= i < j < 10 ==> "0123456789"[i] != "0123456789"[j];
    var d := Digits(a);
    assert d[|d| - 1] == DigitChar(a % 10) == DigitChar(b % 10);
    if a >= 10 && b >= 10 {
      assert d[..|d| - 1] == Digits(a / 10) == Digits(b / 10);
      DigitsInjective(a / 10, b / 10);
    }
  }

  /** How far a text goes on looking like a number. */
  function NumberPrefix(s: string): nat {
    if s != "" && (s[0] == '-' || IsDigit(s[0])) then 1 + NumberPrefix(s[1..]) else 0
  }

  lemma {:induction false} NumberPrefixIs(t: string, x: string)
    requires Ends(x) && forall i :: 0 <= i < |t| ==> t[i] == '-' || IsDigit(t[i])
    ensures NumberPrefix(t + x) == |t|
    decreases |t|
  {
    if t == "" {
      assert t + x == x;
    } else {
      assert (t + x)[1..] == t[1..] + x;
      NumberPrefixIs(t[1..], x);
    }
  }

  lemma NumberReads(a: int, x: string, b: int, y: string)
    requires Ends(x) && Ends(y) && NumberText(a) + x == NumberText(b) + y
    ensures a == b && x == y
  {
    var s, t := NumberText(a), NumberText(b);
    NumberPrefixIs(s, x);
    NumberPrefixIs(t, y);
    assert (s + x)[0] == s[0] && (t + y)[0] == t[0];
    assert (s + x)[..|s|] == s && (t + y)[..|t|] == t;
    assert (s + x)[|s|..] == x && (t + y)[|t|..] == y;
    if a < 0 {
      assert s[1..] == Digits(-a) && t[1..] == Digits(-b);
      DigitsInjective(-a, -b);
    } else {
      DigitsInjective(a, b);
    }
  }

  // ── and whole trees ─────────────────────────────────────────────────────────

  /** The first character of an encoding gives away the kind of the value. */
  lemma FirstChar(j: Json)
    ensures var c := Encode(j)[0];
            match j
            case Bool(b) => c == if b then 't' else 'f'
            case Num(_) => c == '-' || IsDigit(c)
            case Str(_) => c == '"'
            case Arr(_) => c == '['
            case Obj(_) => c == '{'
  {
  }

  lemma SameKind(a: Json, x: string, b: Json, y: string)
    requires Encode(a) + x == Encode(b) + y
    ensures a.Bool? == b.Bool? && a.Num? == b.Num? && a.Str? == b.Str? && a.Arr? == b.Arr? && a.Obj? == b.Obj?
    ensures a.Bool? ==> a == b
  {
    hide Encode;
    FirstChar(a);
    FirstChar(b);
    assert (Encode(a) + x)[0] == Encode(a)[0] && (Encode(b) + y)[0] == Encode(b)[0];
  }

  lemma Rest(p: string, l: string, q: string, r: string)
    requires |p| == |q| && p + l == q + r
    ensures p == q && l == r
  {
    assert (p + l)[..|p|] == p && (q + r)[..|q|] == q;
    assert (p + l)[|p|..] == l && (q + r)[|q|..] == r;
  }

  lemma {:induction false} EncodeReads(a: Json, x: string, b: Json, y: string)
    requires Ends(x) && Ends(y) && Encode(a) + x == Encode(b) + y
    ensures a == b && x == y
    decreases a, 1
  {
    hide Escape, NumberText, Ends, Encode, EncodeItems, EncodeFields;
    SameKind(a, x, b, y);
    Unwrap(a, x);
    Unwrap(b, y);
    match a
    case Bool(_) =>
      Rest(Encode(a), x, Encode(b), y);
    case Num(n) =>
      NumberReads(n, x, b.n, y);
    case Str(s) =>
      Rest("\"", Escape(s) + "\"" + x, "\"", Escape(b.s) + "\"" + y);
      EscapeReads(s, x, b.s, y);
    case Arr(items) =>
      Rest("[", EncodeItems(items) + ("]" + x), "[", EncodeItems(b.items) + ("]" + y));
      ItemsRead(items, "]" + x, b.items, "]" + y);
      Rest("]", x, "]", y);
    case Obj(fields) =>
      Rest("{", EncodeFields(fields) + ("}" + x), "{", EncodeFields(b.fields) + ("}" + y));
      FieldsRead(fields, "}" + x, b.fields, "}" + y);
      Rest("}", x, "}", y);
  }

  lemma Unwrap(j: Json, x: string)
    ensures j.Num? ==> Encode(j) == NumberText(j.n)
    ensures j.Str? ==> Encode(j) + x == "\"" + (Escape(j.s) + "\"" + x)
    ensures j.Arr? ==> Encode(j) + x == "[" + (EncodeItems(j.items) + ("]" + x))
    ensures j.Obj? ==> Encode(j) + x == "{" + (EncodeFields(j.fields) + ("}" + x))
  {
    hide Escape, NumberText, EncodeItems, EncodeFields;
    if j.Str? { assert ("\"" + Escape(j.s) + "\"") + x == "\"" + (Escape(j.s) + "\"" + x); }
  }

  lemma ItemsStart(a: seq<Json>, x: string)
    requires x != "" && x[0] == ']'
    ensures (EncodeItems(a) + x)[0] == ']' <==> a == []
  {
    if a != [] {
      FirstChar(a[0]);
      assert (EncodeItems(a) + x)[0] == Encode(a[0])[0];
    }
  }

  lemma FieldsStart(a: seq<Field>, x: string)
    requires x != "" && x[0] == '}'
    ensures (EncodeFields(a) + x)[0] == '}' <==> a == []
  {
    if a != [] {
      assert (EncodeFields(a) + x)[0] == FieldText(a[0])[0];
    }
  }

  lemma {:induction false} ItemsRead(a: seq<Json>, x: string, b: seq<Json>, y: string)
    requires x != "" && x[0] == ']' && y != "" && y[0] == ']'
    requires EncodeItems(a) + x == EncodeItems(b) + y
    ensures a == b && x == y
    decreases a, 0
  {
    hide Encode;
    ItemsStart(a, x);
    ItemsStart(b, y);
    if a == [] {
      assert EncodeItems(a) + x == x && EncodeItems(b) + y == y;
    } else {
      var x' := if |a| == 1 then x else "," + (EncodeItems(a[1..]) + x);
      var y' := if |b| == 1 then y else "," + (EncodeItems(b[1..]) + y);
      assert EncodeItems(a) + x == Encode(a[0]) + x' && EncodeItems(b) + y == Encode(b[0]) + y';
      EncodeReads(a[0], x', b[0], y');
      assert a == [a[0]] + a[1..] && b == [b[0]] + b[1..];
      if |a| > 1 {
        Rest(",", EncodeItems(a[1..]) + x, ",", EncodeItems(b[1..]) + y);
        ItemsRead(a[1..], x, b[1..], y);
      }
    }
  }

  lemma {:induction false} FieldsRead(a: seq<Field>, x: string, b: seq<Field>, y: string)
    requires x != "" && x[0] == '}' && y != "" && y[0] == '}'
    requires EncodeFields(a) + x == EncodeFields(b) + y
    ensures a == b && x == y
    decreases a, 0
  {
    hide Encode, Escape;
    FieldsStart(a, x);
    FieldsStart(b, y);
    if a == [] {
      assert EncodeFields(a) + x == x && EncodeFields(b) + y == y;
    } else {
      var x' := if |a| == 1 then x else "," + (EncodeFields(a[1..]) + x);
      var y' := if |b| == 1 then y else "," + (EncodeFields(b[1..]) + y);
      FieldReads(a[0], x', b[0], y') by {
        FirstFieldText(a, x);
        FirstFieldText(b, y);
      }
      assert a == [a[0]] + a[1..] && b == [b[0]] + b[1..];
      if |a| > 1 {
        Rest(",", EncodeFields(a[1..]) + x, ",", EncodeFields(b[1..]) + y);
        FieldsRead(a[1..], x, b[1..], y);
      }
    }
  }

  lemma FirstFieldText(a: seq<Field>, x: string)
    requires a != []
    ensures EncodeFields(a) + x == FieldText(a[0]) + if |a| == 1 then x else "," + (EncodeFields(a[1..]) + x)
  {
    hide FieldText;
  }

  lemma {:induction false} FieldReads(f: Field, x: string, g: Field, y: string)
    requires Ends(x) && Ends(y) && FieldText(f) + x == FieldText(g) + y
    ensures f == g && x == y
    decreases f, 2
  {
    hide Encode, Escape;
    var l, r := ":" + (Encode(f.value) + x), ":" + (Encode(g.value) + y);
    assert FieldText(f) + x == "\"" + (Escape(f.key) + "\"" + l);
    assert FieldText(g) + y == "\"" + (Escape(g.key) + "\"" + r);
    Rest("\"", Escape(f.key) + "\"" + l, "\"", Escape(g.key) + "\"" + r);
    EscapeReads(f.key, l, g.key, r);
    Rest(":", Encode(f.value) + x, ":", Encode(g.value) + y);
    EncodeReads(f.value, x, g.value, y);
  }

  /** Equal bytes, equal trees. */
  lemma EncodeInjective(a: Json, b: Json)
    requires Encode(a) == Encode(b)
    ensures a == b
  {
    assert Encode(a) + "" == Encode(b) + "";
    EncodeReads(a, "", b, "");
  }
}
