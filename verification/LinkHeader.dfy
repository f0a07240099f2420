/**
 The quote- and angle-aware splitter behind Link headers (section 3 of RFC 8288), quoted-string
 decoding (section 5.6.4 of RFC 9110), and the "next" relation read through both.
 */
module LinkHeader {
  import opened Wrappers

  // ── the scanner ─────────────────────────────────────────────────────────────

  /** What the scanner remembers between characters. */
  datatype Scan = Scan(inAngle: bool, inQuote: bool, escaped: bool)
  {
    predicate Neutral() { !inAngle && !inQuote && !escaped }
  }

  const START := Scan(false, false, false)

  /** Separator and whether <...> targets are recognized. */
  datatype Mode = Mode(sep: char, angleAware: bool)

  function Step(st: Scan, r: char, m: Mode): Scan {
    if st.escaped then st.(escaped := false)
    else if st.inQuote && r == '\\' then st.(escaped := true)
    else if r == '"' then st.(inQuote := !st.inQuote)
    else if st.inQuote then st
    else if m.angleAware && r == '<' then st.(inAngle := true)
    else if m.angleAware && r == '>' then st.(inAngle := false)
    else st
  }

  /** The character is a separator outside every quote, angle and escape. */
  predicate Cuts(st: Scan, r: char, m: Mode) {
    && st.Neutral() && r == m.sep
    && r != '"' && !(m.angleAware && (r == '<' || r == '>'))
  }

  function Run(s: string, st: Scan, m: Mode): Scan
    decreases |s|
  {
    if s == "" then st else Run(s[1..], Step(st, s[0], m), m)
  }

  /** No separator is cut anywhere in s, scanned from st. */
  predicate Uncut(s: string, st: Scan, m: Mode)
    decreases |s|
  {
    s == "" || (!Cuts(st, s[0], m) && Uncut(s[1..], Step(st, s[0], m), m))
  }

  /** The position of the first cut, or the length. */
  function FirstCut(s: string, st: Scan, m: Mode): (k: nat)
    ensures k <= |s|
    decreases |s|
  {
    if s == "" || Cuts(st, s[0], m) then 0 else 1 + FirstCut(s[1..], Step(st, s[0], m), m)
  }

  /** Cut at the first neutral separator, and again in what follows it. */
  function Pieces(s: string, m: Mode): (p: seq<string>)
    ensures |p| >= 1
    decreases |s|
  {
    var k := FirstCut(s, START, m);
    if k == |s| then [s] else [s[..k]] + Pieces(s[k + 1..], m)
  }

  /** strings.TrimSpace's notion of white space. */
  predicate IsSpace(c: char) {
    var n := c as int;
    || 9 <= n <= 13 || n == 32 || n == 0x85 || n == 0xa0 || n == 0x1680 || 0x2000 <= n <= 0x200a
    || n == 0x2028 || n == 0x2029 || n == 0x202f || n == 0x205f || n == 0x3000
  }

  predicate Blank(s: string) {
    forall i :: 0 <= i < |s| ==> IsSpace(s[i])
  }

  /** Only a blank last piece is dropped. */
  function WithoutBlankTail(p: seq<string>): seq<string>
    requires |p| >= 1
  {
    if Blank(p[|p| - 1]) then p[..|p| - 1] else p
  }

  // ── scanning lemmas ─────────────────────────────────────────────────────────

  lemma {:induction false} RunConcat(a: string, b: string, st: Scan, m: Mode)
    ensures Run(a + b, st, m) == Run(b, Run(a, st, m), m)
    decreases |a|
  {
    if a == "" {
      assert a + b == b;
    } else {
      assert (a + b)[1..] == a[1..] + b;
      RunConcat(a[1..], b, Step(st, a[0], m), m);
    }
  }

  lemma {:induction false} UncutConcat(a: string, b: string, st: Scan, m: Mode)
    ensures Uncut(a + b, st, m) <==> Uncut(a, st, m) && Uncut(b, Run(a, st, m), m)
    decreases |a|
  {
    if a == "" {
      assert a + b == b;
    } else {
      assert (a + b)[1..] == a[1..] + b;
      UncutConcat(a[1..], b, Step(st, a[0], m), m);
    }
  }

  /** FirstCut stops exactly at the end of the longest uncut prefix. */
  lemma {:induction false} FirstCutSpec(s: string, st: Scan, m: Mode)
    ensures var k := FirstCut(s, st, m);
            && Uncut(s[..k], st, m)
            && (k < |s| ==> Cuts(Run(s[..k], st, m), s[k], m))
    decreases |s|
  {
    var k := FirstCut(s, st, m);
    if s != "" && !Cuts(st, s[0], m) {
      FirstCutSpec(s[1..], Step(st, s[0], m), m);
      assert s[..k][1..] == s[1..][..k - 1];
    }
  }

  lemma {:induction false} FirstCutIs(s: string, k: nat, st: Scan, m: Mode)
    requires k <= |s| && Uncut(s[..k], st, m)
    requires k < |s| ==> Cuts(Run(s[..k], st, m), s[k], m)
    ensures FirstCut(s, st, m) == k
    decreases k
  {
    if k > 0 {
      assert s[..k][1..] == s[1..][..k - 1];
      FirstCutIs(s[1..], k - 1, Step(st, s[0], m), m);
    }
  }

  // ── the loop ────────────────────────────────────────────────────────────────

  /** splitUnquoted: one pass with a buffer. */
  method SplitUnquoted(s: string, sep: char, angleAware: bool) returns (parts: seq<string>, complete: bool)
    ensures parts == WithoutBlankTail(Pieces(s, Mode(sep, angleAware)))
    ensures complete == Run(s, START, Mode(sep, angleAware)).Neutral()
  {
    hide Run, Uncut, Pieces, IsSpace;
    ghost var m := Mode(sep, angleAware);
    ScanEmpty(m);
    parts := [];
    var buf := "";
    var inAngle, inQuote, escaped := false, false, false;
    var i := 0;
    ghost var start := 0;
    while i < |s|
      invariant 0 <= start <= i <= |s| && buf == s[start..i]
      invariant Scan(inAngle, inQuote, escaped) == Run(buf, START, m) == Run(s[..i], START, m)
      invariant Uncut(buf, START, m)
      invariant Pieces(s, m) == parts + Pieces(s[start..], m)
    {
      var r := s[i];
      ghost var st := Scan(inAngle, inQuote, escaped);
      Advance(s, start, i, m);
      if escaped {
        escaped := false;
      } else if inQuote && r == '\\' {
        escaped := true;
      } else if r == '"' {
        inQuote := !inQuote;
      } else if inQuote {
      } else if angleAware && r == '<' {
        inAngle := true;
      } else if angleAware && r == '>' {
        inAngle := false;
      } else if r == sep && !inAngle {
        CutHere(s, start, i, m);
        parts := parts + [buf];
        buf := "";
        i := i + 1;
        start := i;
        continue;
      }
      buf := buf + [r];
      i := i + 1;
    }
    assert s[..i] == s && s[start..] == buf;
    LastPiece(buf, m);
    if !Blank(buf) {
      parts := parts + [buf];
    }
    complete := !inQuote && !inAngle && !escaped;
  }

  lemma ScanEmpty(m: Mode)
    ensures Run("", START, m) == START && Uncut("", START, m)
  {
  }

  /** Scanning one more character of s, seen from the buffer and from the start. */
  lemma Advance(s: string, start: nat, i: nat, m: Mode)
    requires start <= i < |s|
    ensures s[start..i + 1] == s[start..i] + [s[i]] && s[..i + 1] == s[..i] + [s[i]]
    ensures Run(s[start..i + 1], START, m) == Step(Run(s[start..i], START, m), s[i], m)
    ensures Run(s[..i + 1], START, m) == Step(Run(s[..i], START, m), s[i], m)
    ensures Uncut(s[start..i + 1], START, m) <==>
              Uncut(s[start..i], START, m) && !Cuts(Run(s[start..i], START, m), s[i], m)
  {
    assert s[start..i + 1] == s[start..i] + [s[i]] && s[..i + 1] == s[..i] + [s[i]];
    OneMore(s[start..i], s[i], m);
    OneMore(s[..i], s[i], m);
  }

  lemma OneMore(a: string, r: char, m: Mode)
    ensures Run(a + [r], START, m) == Step(Run(a, START, m), r, m)
    ensures Uncut(a + [r], START, m) <==> Uncut(a, START, m) && !Cuts(Run(a, START, m), r, m)
  {
    RunConcat(a, [r], START, m);
    UncutConcat(a, [r], START, m);
    assert [r][1..] == "";
    assert Run([r], Run(a, START, m), m) == Run("", Step(Run(a, START, m), r, m), m);
  }

  lemma CutHere(s: string, start: nat, i: nat, m: Mode)
    requires start <= i < |s| && Uncut(s[start..i], START, m) && Cuts(Run(s[start..i], START, m), s[i], m)
    ensures Pieces(s[start..], m) == [s[start..i]] + Pieces(s[i + 1..], m)
  {
    var t := s[start..];
    assert t[..i - start] == s[start..i] && t[i - start + 1..] == s[i + 1..];
    FirstCutIs(t, i - start, START, m);
  }

  lemma LastPiece(t: string, m: Mode)
    requires Uncut(t, START, m)
    ensures Pieces(t, m) == [t]
  {
    assert t[..|t|] == t;
    FirstCutIs(t, |t|, START, m);
  }

  // ── what splitting promises ─────────────────────────────────────────────────

  function Join(p: seq<string>, sep: char): string {
    if p == [] then "" else if |p| == 1 then p[0] else p[0] + [sep] + Join(p[1..], sep)
  }

  /** Scanned on its own, a piece contains no separator to cut and ends outside everything. */
  predicate Closed(p: string, m: Mode) {
    Uncut(p, START, m) && Run(p, START, m).Neutral()
  }

  /** Nothing is lost: putting the separators back gives the input. Only a blank tail is dropped. */
  lemma {:induction false} PiecesLoseNothing(s: string, m: Mode)
    ensures Join(Pieces(s, m), m.sep) == s
    decreases |s|
  {
    var k := FirstCut(s, START, m);
    FirstCutSpec(s, START, m);
    if k < |s| {
      PiecesLoseNothing(s[k + 1..], m);
      assert ([s[..k]] + Pieces(s[k + 1..], m))[1..] == Pieces(s[k + 1..], m);
      assert s == s[..k] + [m.sep] + s[k + 1..];
    }
  }

  /**
   The cuts are exactly the neutral separators: every piece before the last is closed, the last one
   has nothing left to cut, and the field is complete exactly when the last piece is closed too.
   */
  lemma {:induction false} PiecesAreClosed(s: string, m: Mode)
    ensures var p := Pieces(s, m);
            && (forall i :: 0 <= i < |p| - 1 ==> Closed(p[i], m))
            && Uncut(p[|p| - 1], START, m)
            && (Run(s, START, m).Neutral() <==> Closed(p[|p| - 1], m))
    decreases |s|
  {
    hide Run, Uncut, FirstCut;
    var k := FirstCut(s, START, m);
    FirstCutSpec(s, START, m);
    if k < |s| {
      PiecesAreClosed(s[k + 1..], m);
      assert s == s[..k] + [s[k]] + s[k + 1..];
      RunConcat(s[..k] + [s[k]], s[k + 1..], START, m);
      OneMore(s[..k], s[k], m);
    } else {
      assert s[..k] == s;
    }
  }

  /** Splitting undoes joining. */
  lemma {:induction false} SplitOfJoin(p: seq<string>, m: Mode)
    requires |p| >= 1 && forall i :: 0 <= i < |p| ==> Closed(p[i], m)
    requires m.sep != '"' && (m.angleAware ==> m.sep != '<' && m.sep != '>')
    ensures Pieces(Join(p, m.sep), m) == p
    ensures Run(Join(p, m.sep), START, m).Neutral()
    decreases |p|
  {
    hide Run, Uncut, Pieces;
    if |p| == 1 {
      LastPiece(p[0], m);
    } else {
      SplitOfJoin(p[1..], m);
      CutFirst(p[0], Join(p[1..], m.sep), m);
      assert p == [p[0]] + p[1..];
    }
  }

  lemma CutFirst(first: string, rest: string, m: Mode)
    requires Closed(first, m) && m.sep != '"' && (m.angleAware ==> m.sep != '<' && m.sep != '>')
    ensures Pieces(first + [m.sep] + rest, m) == [first] + Pieces(rest, m)
    ensures Run(first + [m.sep] + rest, START, m) == Run(rest, START, m)
  {
    hide Run, Uncut, Pieces;
    var s, k := first + [m.sep] + rest, |first|;
    assert s[0..] == s && s[0..k] == first && s[k] == m.sep && s[k + 1..] == rest;
    CutHere(s, 0, k, m);
    RunConcat(first + [m.sep], rest, START, m);
    OneMore(first, m.sep, m);
  }

  /**
   The round trip: parts that each end neutral and hide no neutral separator, the last of them not
   blank, come back from a join as they went in, with the field reported complete.
   */
  lemma SplitRoundTrip(p: seq<string>, m: Mode)
    requires |p| >= 1 && !Blank(p[|p| - 1]) && forall i :: 0 <= i < |p| ==> Closed(p[i], m)
    requires m.sep != '"' && (m.angleAware ==> m.sep != '<' && m.sep != '>')
    ensures WithoutBlankTail(Pieces(Join(p, m.sep), m)) == p
    ensures Run(Join(p, m.sep), START, m).Neutral()
  {
    hide Pieces, Run, Closed, Join;
    SplitOfJoin(p, m);
  }

  // ── quoted-string ───────────────────────────────────────────────────────────

  function TrimLeft(s: string): string {
    if s != "" && IsSpace(s[0]) then TrimLeft(s[1..]) else s
  }

  function TrimRight(s: string): string {
    if s != "" && IsSpace(s[|s| - 1]) then TrimRight(s[..|s| - 1]) else s
  }

  function Trim(s: string): string {
    TrimRight(TrimLeft(s))
  }

  /** Drop each backslash and keep the character after it; a dangling backslash is dropped. */
  function Unescape(s: string): string {
    if s == "" then ""
    else if s[0] == '\\' then (if |s| == 1 then "" else [s[1]] + Unescape(s[2..]))
    else [s[0]] + Unescape(s[1..])
  }

  function Unquote(v: string): string {
    var t := Trim(v);
    if |t| < 2 || t[0] != '"' || t[|t| - 1] != '"' then t else Unescape(t[1..|t| - 1])
  }

  method UnquoteParamValue(value: string) returns (r: string)
    ensures r == Unquote(value)
  {
    hide Trim, Unescape, Pending;
    var v := Trim(value);
    if |v| < 2 || v[0] != '"' || v[|v| - 1] != '"' {
      return v;
    }
    var inner := v[1..|v| - 1];
    r := "";
    var escaped := false;
    var i := 0;
    UnescapeStart(inner);
    while i < |inner|
      invariant 0 <= i <= |inner|
      invariant Unescape(inner) == r + Pending(inner, i, escaped)
    {
      UnescapeAt(inner, i, r);
      if escaped {
        r := r + [inner[i]];
        escaped := false;
      } else if inner[i] == '\\' {
        escaped := true;
      } else {
        r := r + [inner[i]];
      }
      i := i + 1;
    }
    UnescapeEnd(inner, r, escaped);
  }

  /** What is still to come at position i, the character there taken as it is after a backslash. */
  function Pending(s: string, i: nat, escaped: bool): string
    requires i <= |s|
  {
    if escaped then (if i == |s| then "" else [s[i]] + Unescape(s[i + 1..])) else Unescape(s[i..])
  }

  lemma UnescapeAt(s: string, i: nat, r: string)
    requires i < |s|
    ensures r + Pending(s, i, true) == r + [s[i]] + Pending(s, i + 1, false)
    ensures Pending(s, i, false)
            == if s[i] == '\\' then Pending(s, i + 1, true) else [s[i]] + Pending(s, i + 1, false)
    ensures s[i] != '\\' ==> r + Pending(s, i, false) == r + [s[i]] + Pending(s, i + 1, false)
  {
    assert s[i..][1..] == s[i + 1..];
    assert |s[i..]| >= 2 ==> s[i..][2..] == s[i + 2..];
  }

  lemma UnescapeStart(s: string)
    ensures "" + Pending(s, 0, false) == Unescape(s)
  {
    assert s[0..] == s;
  }

  lemma UnescapeEnd(s: string, r: string, escaped: bool)
    ensures r + Pending(s, |s|, escaped) == r
  {
    assert s[|s|..] == "";
  }

  /** e spells v inside a quoted-string: quotes and backslashes escaped, anything else optionally so. */
  predicate Spells(e: string, v: string)
    decreases |e|
  {
    if e == "" then v == ""
    else if e[0] == '"' then false
    else if e[0] == '\\' then |e| >= 2 && v != "" && e[1] == v[0] && Spells(e[2..], v[1..])
    else v != "" && e[0] == v[0] && Spells(e[1..], v[1..])
  }

  lemma {:induction false} UnescapeInvertsSpelling(e: string, v: string)
    requires Spells(e, v)
    ensures Unescape(e) == v
    decreases |e|
  {
    if e != "" {
      UnescapeInvertsSpelling(if e[0] == '\\' then e[2..] else e[1..], v[1..]);
    }
  }

  lemma {:induction false} TrimPadded(a: string, t: string, b: string)
    requires Blank(a) && Blank(b) && t != "" && !IsSpace(t[0]) && !IsSpace(t[|t| - 1])
    ensures Trim(a + t + b) == t
    decreases |a| + |b|
  {
    if a != "" {
      assert (a + t + b)[1..] == a[1..] + t + b;
      TrimPadded(a[1..], t, b);
    } else if b != "" {
      var s := a + t + b;
      assert TrimLeft(s) == s;
      assert s[..|s| - 1] == a + t + b[..|b| - 1];
      TrimPadded(a, t, b[..|b| - 1]);
      assert TrimLeft(a + t + b[..|b| - 1]) == a + t + b[..|b| - 1];
    } else {
      assert a + t + b == t;
    }
  }

  /** Every spelling of v as a quoted-string, padded or not, is read back as v. */
  lemma UnquoteInvertsQuoting(a: string, e: string, v: string, b: string)
    requires Spells(e, v) && Blank(a) && Blank(b)
    ensures Unquote(a + "\"" + e + "\"" + b) == v
  {
    var t := "\"" + e + "\"";
    assert a + "\"" + e + "\"" + b == a + t + b;
    TrimPadded(a, t, b);
    assert t[1..|t| - 1] == e;
    UnescapeInvertsSpelling(e, v);
  }

  // ── the next relation ───────────────────────────────────────────────────────

  function LowerChar(c: char): char {
    if 'A' <= c <= 'Z' then c + ' ' else c
  }

  /** Case-insensitive equality with a lower-case ASCII word free of k and s. */
  predicate EqualFold(s: string, word: string) {
    |s| == |word| && forall i :: 0 <= i < |s| ==> LowerChar(s[i]) == word[i]
  }

  /** The white-space separated words of a value. */
  function Fields(s: string): seq<string>
    decreases |s|
  {
    var k := WordEnd(s);
    if s == "" then [] else if k == 0 then Fields(s[1..]) else [s[..k]] + Fields(s[k..])
  }

  function WordEnd(s: string): (k: nat)
    ensures k <= |s|
  {
    if s == "" || IsSpace(s[0]) then 0 else 1 + WordEnd(s[1..])
  }

  predicate NamesNext(value: string) {
    exists i :: 0 <= i < |Fields(value)| && EqualFold(Fields(value)[i], "next")
  }

  /** The position of the first '=', or the length. */
  function EqualsAt(s: string): (k: nat)
    ensures k <= |s| && (k < |s| ==> s[k] == '=') && forall i :: 0 <= i < k ==> s[i] != '='
  {
    if s == "" || s[0] == '=' then 0 else 1 + EqualsAt(s[1..])
  }

  predicate IsRel(piece: string) {
    var k := EqualsAt(piece);
    k < |piece| && EqualFold(Trim(piece[..k]), "rel")
  }

  /** The first rel parameter alone decides. */
  predicate FirstRelNamesNext(pieces: seq<string>)
    decreases |pieces|
  {
    pieces != [] &&
    if IsRel(pieces[0]) then NamesNext(Unquote(pieces[0][EqualsAt(pieces[0]) + 1..]))
    else FirstRelNamesNext(pieces[1..])
  }

  method AnyFieldIsNext(value: string) returns (next: bool)
    ensures next == NamesNext(value)
  {
    var rels := Fields(value);
    var k := 0;
    while k < |rels|
      invariant 0 <= k <= |rels|
      invariant forall n :: 0 <= n < k ==> !EqualFold(rels[n], "next")
    {
      if EqualFold(rels[k], "next") {
        return true;
      }
      k := k + 1;
    }
    return false;
  }

  method HasNextRelation(params: string) returns (next: bool)
    ensures next == FirstRelNamesNext(WithoutBlankTail(Pieces(params, Mode(';', false))))
  {
    hide NamesNext, Pieces, Trim, EqualFold, Unquote;
    var parts, _ := SplitUnquoted(params, ';', false);
    var i := 0;
    while i < |parts|
      invariant 0 <= i <= |parts|
      invariant FirstRelNamesNext(parts) == FirstRelNamesNext(parts[i..])
    {
      var param := parts[i];
      var at := EqualsAt(param);
      assert parts[i..][0] == param && parts[i..][1..] == parts[i + 1..];
      if at < |param| && EqualFold(Trim(param[..at]), "rel") {
        var value := UnquoteParamValue(param[at + 1..]);
        next := AnyFieldIsNext(value);
        return;
      }
      i := i + 1;
    }
    return false;
  }

  /**
   A parameter value as a sender may write it, with blanks around the '=': left out, as a token, or as a
   quoted-string that spells it.
   */
  datatype Value =
    | NoValue
    | Token(left: string, right: string, text: string)
    | Quoted(left: string, right: string, spelled: string, text: string)

  /** A parameter between two separators, with blanks around it; it may be missing altogether. */
  datatype Param = Nothing(pad: string) | Param(lead: string, name: string, value: Value, trail: string)

  /** No character that could be taken for syntax. */
  predicate Plain(t: string) {
    forall i :: 0 <= i < |t| ==> t[i] !in {';', ',', '"', '<', '>'}
  }

  predicate Word(t: string) {
    t != "" && Plain(t) && forall i :: 0 <= i < |t| ==> !IsSpace(t[i])
  }

  predicate ProperValue(v: Value) {
    match v
    case NoValue => true
    case Token(left, right, text) => Blank(left) && Blank(right) && Word(text)
    case Quoted(left, right, spelled, text) => Blank(left) && Blank(right) && Spells(spelled, text)
  }

  predicate ProperParam(p: Param) {
    match p
    case Nothing(pad) => Blank(pad)
    case Param(lead, name, value, trail) =>
      Blank(lead) && Blank(trail) && Word(name) && '=' !in name && ProperValue(value)
  }

  function ValueText(v: Value): string {
    match v
    case NoValue => ""
    case Token(left, right, text) => left + "=" + right + text
    case Quoted(left, right, spelled, _) => left + "=" + right + "\"" + spelled + "\""
  }

  function ParamText(p: Param): string {
    match p
    case Nothing(pad) => pad
    case Param(lead, name, value, trail) => lead + name + ValueText(value) + trail
  }

  function ParamTexts(ps: seq<Param>): seq<string> {
    if ps == [] then [] else [ParamText(ps[0])] + ParamTexts(ps[1..])
  }

  predicate DeclaresRel(p: Param) {
    p.Param? && !p.value.NoValue? && EqualFold(p.name, "rel")
  }

  /** The first rel parameter with a value says what the entry is. */
  predicate MeansNext(ps: seq<Param>) {
    ps != [] && if DeclaresRel(ps[0]) then NamesNext(ps[0].value.text) else MeansNext(ps[1..])
  }

  lemma {:induction false} PlainTextStaysOutside(t: string, m: Mode)
    requires forall i :: 0 <= i < |t| ==> t[i] !in {'"', '<', '>', m.sep}
    ensures Run(t, START, m) == START && Uncut(t, START, m)
    decreases |t|
  {
    if t != "" { PlainTextStaysOutside(t[1..], m); }
  }

  lemma {:induction false} SpelledTextStaysQuoted(e: string, v: string, m: Mode)
    requires Spells(e, v)
    ensures var quoted := Scan(false, true, false); Run(e, quoted, m) == quoted && Uncut(e, quoted, m)
    decreases |e|
  {
    var quoted := Scan(false, true, false);
    if e != "" {
      if e[0] == '\\' {
        SpelledTextStaysQuoted(e[2..], v[1..], m);
        assert e[1..][1..] == e[2..] && e[1..][0] == e[1];
        assert Step(Scan(false, true, true), e[1], m) == quoted;
      } else {
        SpelledTextStaysQuoted(e[1..], v[1..], m);
      }
    }
  }

  lemma BlankIsPlain(t: string)
    requires Blank(t)
    ensures Plain(t) && '=' !in t
  {
  }

  lemma PlainIsClosed(t: string, m: Mode)
    requires Plain(t) && (m.sep == ';' || m.sep == ',')
    ensures Closed(t, m)
  {
    PlainTextStaysOutside(t, m);
  }

  lemma ClosedConcat(a: string, b: string, m: Mode)
    requires Closed(a, m) && Closed(b, m)
    ensures Closed(a + b, m)
  {
    RunConcat(a, b, START, m);
    UncutConcat(a, b, START, m);
    assert Run(a, START, m) == START;
  }

  lemma QuotedIsClosed(e: string, v: string, m: Mode)
    requires Spells(e, v) && (m.sep == ';' || m.sep == ',')
    ensures Closed("\"" + e + "\"", m)
  {
    OneMore("", '"', m);
    assert "" + ['"'] == "\"";
    SpelledTextStaysQuoted(e, v, m);
    RunConcat("\"", e, START, m);
    UncutConcat("\"", e, START, m);
    OneMore("\"" + e, '"', m);
  }

  lemma ParamTextClosed(p: Param, m: Mode)
    requires ProperParam(p) && (m.sep == ';' || m.sep == ',')
    ensures Closed(ParamText(p), m)
  {
    hide Closed, Blank, Spells, IsSpace;
    match p
    case Nothing(pad) =>
      BlankIsPlain(pad);
      PlainIsClosed(pad, m);
    case Param(lead, name, value, trail) =>
      BlankIsPlain(lead);
      BlankIsPlain(trail);
      match value {
        case NoValue => PlainIsClosed(lead + name + "" + trail, m);
        case Token(left, right, text) =>
          BlankIsPlain(left);
          BlankIsPlain(right);
          PlainIsClosed(lead + name + (left + "=" + right + text) + trail, m);
        case Quoted(left, right, spelled, text) =>
          BlankIsPlain(left);
          BlankIsPlain(right);
          var head := lead + name + left + "=" + right;
          PlainIsClosed(head, m);
          QuotedIsClosed(spelled, text, m);
          PlainIsClosed(trail, m);
          ClosedConcat(head, "\"" + spelled + "\"", m);
          ClosedConcat(head + ("\"" + spelled + "\""), trail, m);
          assert ParamText(p) == head + ("\"" + spelled + "\"") + trail;
      }
  }

  lemma EqualsAtIs(a: string, b: string)
    requires '=' !in a
    ensures EqualsAt(a + "=" + b) == |a|
    ensures (a + "=" + b)[..|a|] == a && (a + "=" + b)[|a| + 1..] == b
  {
    var s := a + "=" + b;
    assert s[|a|] == '=' && forall i :: 0 <= i < |a| ==> s[i] == a[i];
    var k := EqualsAt(s);
    assert !(k < |a|) && !(|a| < k);
  }

  lemma NoEquals(s: string)
    requires '=' !in s
    ensures EqualsAt(s) == |s|
  {
  }

  lemma TrimWord(a: string, t: string, b: string)
    requires Blank(a) && Blank(b) && Word(t)
    ensures Trim(a + t + b) == t
  {
    hide Trim;
    TrimPadded(a, t, b);
  }

  lemma UnquoteToken(a: string, t: string, b: string)
    requires Blank(a) && Blank(b) && Word(t)
    ensures Unquote(a + t + b) == t
  {
    hide Trim;
    TrimWord(a, t, b);
  }

  lemma Regroup(x: string, left: string, right: string, text: string, trail: string)
    ensures x + (left + "=" + right + text) + trail == x + left + "=" + (right + text + trail)
  {
    var tail := right + text + trail;
    assert left + "=" + right + text + trail == left + "=" + tail;
    assert x + (left + "=" + tail) == x + left + "=" + tail;
    assert x + (left + "=" + right + text) + trail == x + (left + "=" + right + text + trail);
  }

  lemma ValuedSplits(p: Param)
    requires p.Param? && !p.value.NoValue?
    ensures var v := p.value;
            var written := if v.Token? then v.text else "\"" + v.spelled + "\"";
            ParamText(p) == p.lead + p.name + v.left + "=" + (v.right + written + p.trail)
  {
    var v := p.value;
    var written := if v.Token? then v.text else "\"" + v.spelled + "\"";
    Regroup(p.lead + p.name, v.left, v.right, written, p.trail);
    assert v.Quoted? ==> v.left + "=" + v.right + "\"" + v.spelled + "\"" == v.left + "=" + v.right + written;
  }

  lemma ReadsBack(v: Value, trail: string)
    requires ProperValue(v) && !v.NoValue? && Blank(trail)
    ensures var written := if v.Token? then v.text else "\"" + v.spelled + "\"";
            Unquote(v.right + written + trail) == v.text
  {
    hide Unquote, Blank, Spells, IsSpace;
    if v.Token? {
      UnquoteToken(v.right, v.text, trail);
    } else {
      UnquoteInvertsQuoting(v.right, v.spelled, v.text, trail);
      assert v.right + "\"" + v.spelled + "\"" + trail == v.right + ("\"" + v.spelled + "\"") + trail;
    }
  }

  lemma NoEqualsBefore(p: Param)
    requires ProperParam(p) && p.Param? && !p.value.NoValue?
    ensures Blank(p.value.left) && '=' !in p.lead + p.name + p.value.left
  {
    hide Spells, Blank, IsSpace;
    BlankIsPlain(p.lead);
    BlankIsPlain(p.value.left);
  }

  /** What is left of the '=' and right of it, for a parameter with a value. */
  lemma ValuedText(p: Param)
    requires ProperParam(p) && p.Param? && !p.value.NoValue?
    ensures var t, k := ParamText(p), EqualsAt(ParamText(p));
            && k < |t| && Trim(t[..k]) == p.name && Unquote(t[k + 1..]) == p.value.text
  {
    hide Trim, Unquote, Spells, EqualsAt, IsSpace, ParamText, Blank, Word;
    var v := p.value;
    var a, written := p.lead + p.name + v.left, if v.Token? then v.text else "\"" + v.spelled + "\"";
    NoEqualsBefore(p);
    TrimWord(p.lead, p.name, v.left);
    ValuedSplits(p);
    EqualsAtIs(a, v.right + written + p.trail);
    ReadsBack(v, p.trail);
  }

  lemma ParamTextReads(p: Param)
    requires ProperParam(p)
    ensures IsRel(ParamText(p)) <==> DeclaresRel(p)
    ensures DeclaresRel(p) ==> Unquote(ParamText(p)[EqualsAt(ParamText(p)) + 1..]) == p.value.text
  {
    hide EqualFold, Trim, Unquote, EqualsAt, IsSpace;
    match p
    case Nothing(pad) =>
      BlankIsPlain(pad);
      NoEquals(pad);
    case Param(lead, name, value, trail) =>
      if value.NoValue? {
        BlankIsPlain(lead);
        BlankIsPlain(trail);
        NoEquals(ParamText(p));
      } else {
        ValuedText(p);
      }
  }

  lemma {:induction false} ParamTextsMean(ps: seq<Param>)
    requires forall i :: 0 <= i < |ps| ==> ProperParam(ps[i])
    ensures |ParamTexts(ps)| == |ps|
    ensures forall i :: 0 <= i < |ps| ==> ParamTexts(ps)[i] == ParamText(ps[i])
    ensures FirstRelNamesNext(ParamTexts(ps)) <==> MeansNext(ps)
    decreases |ps|
  {
    hide IsRel, Unquote, EqualsAt, ParamText, ProperParam, NamesNext, EqualFold;
    if ps != [] {
      ParamTextsMean(ps[1..]);
      ParamTextReads(ps[0]);
      assert ParamTexts(ps)[1..] == ParamTexts(ps[1..]);
    }
  }

  /** A parameter section: every parameter behind its separator. */
  function Section(ps: seq<Param>): string {
    if ps == [] then "" else ";" + Join(ParamTexts(ps), ';')
  }

  /**
   However a sender writes its parameters, as tokens, without values or as quoted-strings with separators, quotes
   and backslashes inside them, with blanks anywhere around them or nothing between two separators: the section is
   read as declaring the next relation exactly when its first rel parameter with a value names it.
   */
  lemma NextRelationRoundTrip(ps: seq<Param>)
    requires forall i :: 0 <= i < |ps| ==> ProperParam(ps[i])
    ensures FirstRelNamesNext(WithoutBlankTail(Pieces(Section(ps), Mode(';', false)))) <==> MeansNext(ps)
  {
    hide Pieces, Closed, FirstRelNamesNext, MeansNext, ParamText, ProperParam, Blank;
    var m := Mode(';', false);
    ParamTextsMean(ps);
    var texts := ParamTexts(ps);
    var all := [""] + texts;
    forall i | 0 <= i < |all|
      ensures Closed(all[i], m)
    {
      if i == 0 { EmptyIsClosed(m); } else { ParamTextClosed(ps[i - 1], m); }
    }
    if ps != [] { LeadingSeparator(texts); } else { assert Join(all, ';') == ""; }
    FirstIsEmpty(texts);
    SplitOfJoin(all, m);
    BlankTailSaysNothing(all);
  }

  lemma EmptyIsClosed(m: Mode)
    ensures Closed("", m)
  {
  }

  lemma {:induction false} BlankTailSaysNothing(p: seq<string>)
    requires |p| >= 1
    ensures FirstRelNamesNext(WithoutBlankTail(p)) == FirstRelNamesNext(p)
    decreases |p|
  {
    hide NamesNext, IsSpace, Unquote;
    if |p| == 1 {
      assert p[1..] == [];
      if Blank(p[0]) {
        BlankIsPlain(p[0]);
        NoEquals(p[0]);
      }
    } else {
      BlankTailSaysNothing(p[1..]);
      assert WithoutBlankTail(p)[1..] == WithoutBlankTail(p[1..]) && WithoutBlankTail(p)[0] == p[0];
    }
  }

  /** A parameter section opens with its separator, which reads as an empty first piece. */
  lemma LeadingSeparator(texts: seq<string>)
    requires texts != []
    ensures Join([""] + texts, ';') == ";" + Join(texts, ';')
  {
    var all := [""] + texts;
    assert all[1..] == texts;
  }

  lemma FirstIsEmpty(texts: seq<string>)
    ensures FirstRelNamesNext([""] + texts) == FirstRelNamesNext(texts)
  {
    hide NamesNext;
    var all := [""] + texts;
    assert all[1..] == texts;
    assert !IsRel("");
  }

  // ── the next page ───────────────────────────────────────────────────────────

  /** What one comma-separated entry of a Link field says about the continuation. */
  datatype Verdict = Skip | Malformed | Advertises(target: string)

  function IndexOf(s: string, c: char): (k: int)
    ensures -1 <= k < |s|
    ensures k >= 0 ==> s[k] == c && forall i :: 0 <= i < k ==> s[i] != c
    ensures k < 0 ==> forall i :: 0 <= i < |s| ==> s[i] != c
  {
    if s == "" then -1
    else if s[0] == c then 0
    else
      var k := IndexOf(s[1..], c);
      if k < 0 then -1 else k + 1
  }

  predicate DeclaresNext(params: string) {
    FirstRelNamesNext(WithoutBlankTail(Pieces(params, Mode(';', false))))
  }

  function Judge(entry: string): Verdict {
    var t := Trim(entry);
    var lo, hi := IndexOf(t, '<'), IndexOf(t, '>');
    if lo != 0 || hi < lo then
      if DeclaresNext(t) then Malformed else Skip
    else
      var params := Trim(t[hi + 1..]);
      if !DeclaresNext(params) then Skip
      else if params != "" && params[0] != ';' then Malformed
      else Advertises(Trim(t[1..hi]))
  }

  /** NoNext: the listing ends here. Indeterminate: a continuation may exist and cannot be followed. */
  datatype Continuation = NoNext | Follow(url: string) | Indeterminate

  function Entries(link: string): seq<string> {
    WithoutBlankTail(Pieces(link, Mode(',', true)))
  }

  predicate Complete(link: string) {
    Run(link, START, Mode(',', true)).Neutral()
  }

  /** The first entry that says anything decides. */
  function FirstSaying(entries: seq<string>): Verdict {
    if entries == [] then Skip
    else
      var v := Judge(entries[0]);
      if v.Skip? then FirstSaying(entries[1..]) else v
  }

  function FirstSayingOf(links: seq<string>): Verdict {
    if links == [] then Skip
    else
      var v := FirstSaying(Entries(links[0]));
      if v.Skip? then FirstSayingOf(links[1..]) else v
  }

  /** Resolving a target parses it against the current page and checks the origin. */
  function NextPage(links: seq<string>, resolve: string -> Option<string>): Continuation {
    match FirstSayingOf(links)
    case Malformed => Indeterminate
    case Advertises(t) =>
      (match resolve(t)
       case Some(url) => Follow(url)
       case None => Indeterminate)
    case Skip =>
      if exists i :: 0 <= i < |links| && !Complete(links[i]) then Indeterminate else NoNext
  }

  method JudgeEntry(entry: string) returns (v: Verdict)
    ensures v == Judge(entry)
  {
    hide Pieces, FirstRelNamesNext, Trim;
    var t := Trim(entry);
    var lo, hi := IndexOf(t, '<'), IndexOf(t, '>');
    if lo != 0 || hi < lo {
      var next := HasNextRelation(t);
      return if next then Malformed else Skip;
    }
    var params := Trim(t[hi + 1..]);
    var next := HasNextRelation(params);
    if params != "" && params[0] != ';' {
      return if next then Malformed else Skip;
    }
    return if next then Advertises(Trim(t[lo + 1..hi])) else Skip;
  }

  method NextPageURL(links: seq<string>, resolve: string -> Option<string>) returns (c: Continuation)
    ensures c == NextPage(links, resolve)
  {
    hide Pieces, Run, Judge;
    var malformed := false;
    var i := 0;
    while i < |links|
      invariant 0 <= i <= |links|
      invariant FirstSayingOf(links) == FirstSayingOf(links[i..])
      invariant malformed <==> exists k :: 0 <= k < i && !Complete(links[k])
    {
      var entries, complete := SplitUnquoted(links[i], ',', true);
      if !complete {
        malformed := true;
      }
      assert complete == Complete(links[i]) && entries == Entries(links[i]);
      var v := FirstSayingEntry(entries);
      assert links[i..][0] == links[i] && links[i..][1..] == links[i + 1..];
      if v.Malformed? {
        return Indeterminate;
      }
      if v.Advertises? {
        var url := resolve(v.target);
        return if url.Some? then Follow(url.value) else Indeterminate;
      }
      i := i + 1;
    }
    return if malformed then Indeterminate else NoNext;
  }

  method FirstSayingEntry(entries: seq<string>) returns (v: Verdict)
    ensures v == FirstSaying(entries)
  {
    hide Judge;
    v := Skip;
    var k := 0;
    while k < |entries|
      invariant 0 <= k <= |entries|
      invariant FirstSaying(entries) == FirstSaying(entries[k..])
      invariant v.Skip?
    {
      assert entries[k..][0] == entries[k] && entries[k..][1..] == entries[k + 1..];
      v := JudgeEntry(entries[k]);
      if !v.Skip? {
        return;
      }
      k := k + 1;
    }
  }

  lemma {:induction false} SayingNothing(entries: seq<string>)
    ensures FirstSaying(entries).Skip? <==> forall k :: 0 <= k < |entries| ==> Judge(entries[k]).Skip?
  {
    hide Judge;
    if entries != [] {
      SayingNothing(entries[1..]);
      assert forall k :: 1 <= k < |entries| ==> entries[k] == entries[1..][k - 1];
    }
  }

  lemma {:induction false} SayingNothingOf(links: seq<string>)
    ensures FirstSayingOf(links).Skip? <==>
            forall i, k :: 0 <= i < |links| && 0 <= k < |Entries(links[i])| ==> Judge(Entries(links[i])[k]).Skip?
  {
    hide Judge, Entries;
    if links != [] {
      SayingNothing(Entries(links[0]));
      SayingNothingOf(links[1..]);
      assert forall i :: 1 <= i < |links| ==> links[i] == links[1..][i - 1];
    }
  }

  /**
   A listing is declared finished exactly when every Link field was read to its end and no entry in
   any of them, however malformed, declares the next relation.
   */
  lemma NoNextExact(links: seq<string>, resolve: string -> Option<string>)
    ensures NextPage(links, resolve).NoNext? <==>
            && (forall i :: 0 <= i < |links| ==> Complete(links[i]))
            && (forall i, k :: 0 <= i < |links| && 0 <= k < |Entries(links[i])| ==> Judge(Entries(links[i])[k]).Skip?)
  {
    hide Judge, Entries, Complete;
    SayingNothingOf(links);
  }

  /** An entry as a sender means it: a target and its parameters, with blanks before it and behind the target. */
  datatype Link = Link(lead: string, target: string, gap: string, params: seq<Param>)

  predicate ProperLink(l: Link) {
    && Blank(l.lead) && Blank(l.gap)
    && (forall i :: 0 <= i < |l.target| ==> l.target[i] !in {'<', '>', '"'})
    && forall i :: 0 <= i < |l.params| ==> ProperParam(l.params[i])
  }

  function Angled(l: Link): string {
    "<" + l.target + ">"
  }

  function LinkText(l: Link): string {
    l.lead + (Angled(l) + (l.gap + Section(l.params)))
  }

  lemma {:induction false} TargetStaysInside(t: string, m: Mode)
    requires m == Mode(',', true) && forall i :: 0 <= i < |t| ==> t[i] !in {'<', '>', '"'}
    ensures var inside := Scan(true, false, false); Run(t, inside, m) == inside && Uncut(t, inside, m)
    decreases |t|
  {
    if t != "" { TargetStaysInside(t[1..], m); }
  }

  lemma {:induction false} ParamTextsClosed(ps: seq<Param>, m: Mode)
    requires m == Mode(',', true) && forall i :: 0 <= i < |ps| ==> ProperParam(ps[i])
    ensures Closed(Join(ParamTexts(ps), ';'), m)
    decreases |ps|
  {
    hide ProperParam, ParamText;
    if ps == [] {
      EmptyIsClosed(m);
    } else {
      ParamTextClosed(ps[0], m);
      ParamTextsClosed(ps[1..], m);
      assert ParamTexts(ps)[1..] == ParamTexts(ps[1..]);
      PlainTextStaysOutside(";", m);
      ClosedConcat(ParamText(ps[0]), ";", m);
      ClosedConcat(ParamText(ps[0]) + ";", Join(ParamTexts(ps[1..]), ';'), m);
    }
  }

  lemma AngledClosed(l: Link)
    requires ProperLink(l)
    ensures Closed(Angled(l), Mode(',', true))
  {
    var m := Mode(',', true);
    OneMore("", '<', m);
    assert "" + ['<'] == "<";
    TargetStaysInside(l.target, m);
    RunConcat("<", l.target, START, m);
    UncutConcat("<", l.target, START, m);
    OneMore("<" + l.target, '>', m);
  }

  lemma SectionClosed(ps: seq<Param>)
    requires forall i :: 0 <= i < |ps| ==> ProperParam(ps[i])
    ensures Closed(Section(ps), Mode(',', true))
  {
    hide ParamTexts, Join, ProperParam;
    var m := Mode(',', true);
    EmptyIsClosed(m);
    PlainTextStaysOutside(";", m);
    ParamTextsClosed(ps, m);
    ClosedConcat(";", Join(ParamTexts(ps), ';'), m);
  }

  lemma LinkTextClosed(l: Link)
    requires ProperLink(l)
    ensures Closed(LinkText(l), Mode(',', true))
  {
    hide Closed, Angled, Section, Blank;
    var m := Mode(',', true);
    BlankIsPlain(l.lead);
    BlankIsPlain(l.gap);
    PlainIsClosed(l.lead, m);
    PlainIsClosed(l.gap, m);
    AngledClosed(l);
    SectionClosed(l.params);
    ClosedConcat(l.gap, Section(l.params), m);
    ClosedConcat(Angled(l), l.gap + Section(l.params), m);
    ClosedConcat(l.lead, Angled(l) + (l.gap + Section(l.params)), m);
  }

  // ── trimming an entry ───────────────────────────────────────────────────────

  /** The parameters without the blanks behind the last one. */
  function Trimmed(ps: seq<Param>): seq<Param>
    requires ps != []
  {
    var last := ps[|ps| - 1];
    ps[..|ps| - 1] + [if last.Nothing? then Nothing("") else last.(trail := "")]
  }

  function LastBlanks(ps: seq<Param>): string
    requires ps != []
  {
    var last := ps[|ps| - 1];
    if last.Nothing? then last.pad else last.trail
  }

  lemma {:induction false} TrimmedMeans(ps: seq<Param>)
    requires ps != []
    ensures MeansNext(Trimmed(ps)) <==> MeansNext(ps)
    decreases |ps|
  {
    hide NamesNext, EqualFold;
    if |ps| > 1 {
      assert Trimmed(ps)[1..] == Trimmed(ps[1..]) && Trimmed(ps)[0] == ps[0];
      TrimmedMeans(ps[1..]);
    } else {
      assert ps[1..] == [] && Trimmed(ps)[1..] == [];
    }
  }

  lemma {:induction false} SectionEnds(ps: seq<Param>)
    requires ps != [] && ProperParam(ps[|ps| - 1])
    ensures Section(ps) == Section(Trimmed(ps)) + LastBlanks(ps)
    ensures var s := Section(Trimmed(ps)); s != "" && !IsSpace(s[|s| - 1]) && s[0] == ';'
    decreases |ps|
  {
    hide ProperParam, ParamText, Section, IsSpace;
    if |ps| == 1 {
      SectionOfOne(ps);
      SectionOfOne(Trimmed(ps));
      TextEnds(ps[0]);
    } else {
      var rest := ps[1..];
      SectionEnds(rest);
      assert Trimmed(ps) == [ps[0]] + Trimmed(rest) && Trimmed(ps)[1..] == Trimmed(rest);
      assert LastBlanks(ps) == LastBlanks(rest);
      SectionUnfolds(ps);
      SectionUnfolds(Trimmed(ps));
    }
  }

  lemma SectionOfOne(ps: seq<Param>)
    requires |ps| == 1
    ensures Section(ps) == ";" + ParamText(ps[0])
  {
    hide ParamText;
    assert ParamTexts(ps) == [ParamText(ps[0])];
  }

  lemma SectionUnfolds(ps: seq<Param>)
    requires |ps| > 1
    ensures Section(ps) == ";" + ParamText(ps[0]) + Section(ps[1..])
  {
    assert ParamTexts(ps)[1..] == ParamTexts(ps[1..]);
  }

  /** The blanks behind a parameter are the last thing of its text, and nothing blank is before them. */
  lemma TextEnds(p: Param)
    requires ProperParam(p)
    ensures var t := ParamText(Trimmed([p])[0]);
            && ParamText(p) == t + LastBlanks([p])
            && (t == "" || !IsSpace(t[|t| - 1])) && !IsSpace(';')
  {
    hide Spells, Blank;
  }

  lemma SectionTrims(gap: string, ps: seq<Param>)
    requires Blank(gap) && forall i :: 0 <= i < |ps| ==> ProperParam(ps[i])
    ensures Trim(gap + Section(ps)) == if ps == [] then "" else Section(Trimmed(ps))
  {
    hide Trim, ProperParam, ParamTexts, Join;
    if ps == [] {
      BlankTrims(gap);
      assert gap + "" == gap;
    } else {
      var s, b := Section(Trimmed(ps)), LastBlanks(ps);
      SectionEnds(ps);
      LastBlanksBlank(ps);
      TrimPadded(gap, s, b);
      assert gap + Section(ps) == gap + s + b;
    }
  }

  lemma LastBlanksBlank(ps: seq<Param>)
    requires ps != [] && ProperParam(ps[|ps| - 1])
    ensures Blank(LastBlanks(ps))
  {
  }

  lemma {:induction false} BlankTrims(t: string)
    requires Blank(t)
    ensures Trim(t) == ""
    decreases |t|
  {
    if t != "" { BlankTrims(t[1..]); }
  }

  /** An entry without its outer blanks: the target in angle brackets, and then what follows it. */
  lemma EntryTrims(l: Link)
    requires ProperLink(l)
    ensures Trim(LinkText(l))
            == Angled(l) + (if l.params == [] then "" else l.gap + Section(Trimmed(l.params)))
  {
    hide Trim, Section, Blank, ProperParam;
    if l.params == [] {
      TrimPadded(l.lead, Angled(l), l.gap);
      assert Section([]) == "" by { NoSection(); }
      assert LinkText(l) == l.lead + Angled(l) + l.gap && Angled(l) + "" == Angled(l);
    } else {
      SectionEnds(l.params);
      LastBlanksBlank(l.params);
      var t := Angled(l) + (l.gap + Section(Trimmed(l.params)));
      TrimPadded(l.lead, t, LastBlanks(l.params));
      assert LinkText(l) == l.lead + t + LastBlanks(l.params);
    }
  }

  lemma NoSection()
    ensures Section([]) == ""
  {
  }

  lemma AngledParts(l: Link, rest: string)
    requires ProperLink(l)
    ensures var t, hi := Angled(l) + rest, |l.target| + 1;
            IndexOf(t, '<') == 0 && IndexOf(t, '>') == hi && t[hi + 1..] == rest && t[1..hi] == l.target
  {
    hide ProperParam;
    var t, hi := Angled(l) + rest, |l.target| + 1;
    assert t[0] == '<' && t[hi] == '>' && t[1..hi] == l.target;
    assert forall i :: 1 <= i < hi ==> t[i] == l.target[i - 1];
    assert IndexOf(t, '>') >= 0 && IndexOf(t, '<') >= 0;
  }

  lemma LinkTextJudged(l: Link)
    requires ProperLink(l)
    ensures Judge(LinkText(l)) == if MeansNext(l.params) then Advertises(Trim(l.target)) else Skip
  {
    hide Pieces, FirstRelNamesNext, Trim, Section, MeansNext, LinkText, Angled, IndexOf, ProperParam, Blank;
    EntryTrims(l);
    if l.params == [] {
      AngledParts(l, "");
      EmptySaysNothing();
      NextRelationRoundTrip([]);
      NoSection();
    } else {
      var ps := Trimmed(l.params);
      AngledParts(l, l.gap + Section(ps));
      TrimmedIsProper(l.params);
      SectionTrims(l.gap, ps);
      SectionEnds(ps);
      TrimmedTwice(l.params);
      NextRelationRoundTrip(ps);
      TrimmedMeans(l.params);
    }
  }

  lemma EmptySaysNothing()
    ensures Trim("") == "" && !MeansNext([])
  {
  }

  lemma TrimmedIsProper(ps: seq<Param>)
    requires ps != [] && forall i :: 0 <= i < |ps| ==> ProperParam(ps[i])
    ensures forall i :: 0 <= i < |Trimmed(ps)| ==> ProperParam(Trimmed(ps)[i])
  {
  }

  lemma TrimmedTwice(ps: seq<Param>)
    requires ps != []
    ensures Trimmed(ps) != [] && Trimmed(Trimmed(ps)) == Trimmed(ps)
  {
  }

  function LinkTexts(ls: seq<Link>): seq<string> {
    seq(|ls|, i requires 0 <= i < |ls| => LinkText(ls[i]))
  }

  function FirstMeantNext(ls: seq<Link>): Option<string> {
    if ls == [] then None
    else if MeansNext(ls[0].params) then Some(Trim(ls[0].target))
    else FirstMeantNext(ls[1..])
  }

  lemma {:induction false} LinkTextsSay(ls: seq<Link>)
    requires forall i :: 0 <= i < |ls| ==> ProperLink(ls[i])
    ensures FirstSaying(LinkTexts(ls)) == match FirstMeantNext(ls) case None => Skip case Some(t) => Advertises(t)
    decreases |ls|
  {
    hide Judge, MeansNext, LinkText;
    if ls != [] {
      LinkTextJudged(ls[0]);
      LinkTextsSay(ls[1..]);
      assert LinkTexts(ls)[1..] == LinkTexts(ls[1..]);
    }
  }

  /**
   The whole reading of a Link field: for any list of properly written entries, however their parameters are
   written and whatever quoted ones contain, the page walk continues to the first one meant as next, and ends if
   none is.
   */
  lemma LinkFieldRoundTrip(ls: seq<Link>, resolve: string -> Option<string>)
    requires |ls| >= 1 && forall i :: 0 <= i < |ls| ==> ProperLink(ls[i])
    ensures NextPage([Join(LinkTexts(ls), ',')], resolve) ==
            match FirstMeantNext(ls)
            case None => NoNext
            case Some(t) => if resolve(t).Some? then Follow(resolve(t).value) else Indeterminate
  {
    hide Judge, MeansNext, Pieces, Run, Closed, Blank, LinkText, ProperLink, Entries, Complete;
    var m := Mode(',', true);
    var texts := LinkTexts(ls);
    forall i | 0 <= i < |ls|
      ensures Closed(texts[i], m) && !Blank(texts[i])
    {
      LinkTextClosed(ls[i]);
      LinkTextNotBlank(ls[i]);
    }
    SplitRoundTrip(texts, m);
    LinkTextsSay(ls);
    OneField(Join(texts, ','), texts, resolve);
  }

  /** The page walk on a single field. */
  lemma OneField(link: string, texts: seq<string>, resolve: string -> Option<string>)
    requires WithoutBlankTail(Pieces(link, Mode(',', true))) == texts && Run(link, START, Mode(',', true)).Neutral()
    ensures NextPage([link], resolve) ==
            match FirstSaying(texts)
            case Malformed => Indeterminate
            case Advertises(t) => if resolve(t).Some? then Follow(resolve(t).value) else Indeterminate
            case Skip => NoNext
  {
    hide Judge, Pieces, Run;
    assert Entries(link) == texts && Complete(link);
    assert [link][1..] == [] && FirstSayingOf([]) == Skip;
  }

  lemma LinkTextNotBlank(l: Link)
    ensures !Blank(LinkText(l))
  {
    assert LinkText(l)[|l.lead|] == '<';
  }
}
