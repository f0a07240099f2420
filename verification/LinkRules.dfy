/**
 How a Link field of any kind, well written or not, is read: what each character does to the scanner, what counts as
 a word, a quoted value and a rel parameter, and which entry decides where a page walk goes.
 */
module LinkRules {
  import opened Wrappers
  import opened LinkHeader

  // ── characters ──────────────────────────────────────────────────────────────

  /**
   After a backslash inside quotes the next character means nothing. Inside quotes only the backslash and the
   closing quote mean anything. Outside, a quote opens quotes; where targets are recognized an angle opens or closes
   one; and any other character, a backslash too, means nothing.
   */
  lemma CharacterRule(st: Scan, r: char, m: Mode)
    ensures var next := Step(st, r, m);
            && (st.escaped ==> next == Scan(st.inAngle, st.inQuote, false))
            && (!st.escaped && st.inQuote && r == '\\' ==> next == Scan(st.inAngle, true, true))
            && (!st.escaped && st.inQuote && r == '"' ==> next == Scan(st.inAngle, false, false))
            && (!st.escaped && st.inQuote && r != '\\' && r != '"' ==> next == st)
            && (!st.escaped && !st.inQuote && r == '"' ==> next == Scan(st.inAngle, true, false))
            && (!st.escaped && !st.inQuote && r == '<' && m.angleAware ==> next == Scan(true, false, false))
            && (!st.escaped && !st.inQuote && r == '>' && m.angleAware ==> next == Scan(false, false, false))
            && (!st.escaped && !st.inQuote && r != '"' && !(m.angleAware && r in {'<', '>'}) ==> next == st)
    ensures Cuts(st, r, m) <==>
              !st.inAngle && !st.inQuote && !st.escaped && r == m.sep && r != '"'
              && !(m.angleAware && r in {'<', '>'})
  {
  }

  /** The characters that count as white space. */
  lemma SpaceRule(c: char)
    ensures IsSpace(c) <==>
              (c as int) in {0x09, 0x0a, 0x0b, 0x0c, 0x0d, 0x20, 0x85, 0xa0, 0x1680,
                             0x2000, 0x2001, 0x2002, 0x2003, 0x2004, 0x2005, 0x2006, 0x2007, 0x2008, 0x2009, 0x200a,
                             0x2028, 0x2029, 0x202f, 0x205f, 0x3000}
  {
  }

  // ── words and values ────────────────────────────────────────────────────────

  /** Trimming cuts off all white space at both ends and nothing else. */
  lemma {:induction false} TrimRule(s: string) returns (lo: nat, hi: nat)
    ensures lo <= hi <= |s| && Trim(s) == s[lo..hi]
    ensures Blank(s[..lo]) && Blank(s[hi..])
    ensures lo < hi ==> !IsSpace(s[lo]) && !IsSpace(s[hi - 1])
  {
    hide IsSpace;
    lo := TrimmedLeft(s);
    hi := TrimmedRight(s[lo..]);
    hi := lo + hi;
    assert s[lo..][..hi - lo] == s[lo..hi] && s[lo..][hi - lo..] == s[hi..];
  }

  lemma {:induction false} TrimmedLeft(s: string) returns (lo: nat)
    ensures lo <= |s| && TrimLeft(s) == s[lo..] && Blank(s[..lo]) && (lo < |s| ==> !IsSpace(s[lo]))
    decreases |s|
  {
    hide IsSpace;
    lo := 0;
    if s != "" && IsSpace(s[0]) {
      var rest := TrimmedLeft(s[1..]);
      lo := rest + 1;
      assert s[1..][rest..] == s[lo..];
      assert forall i :: 1 <= i < lo ==> s[..lo][i] == s[1..][..rest][i - 1];
    }
  }

  lemma {:induction false} TrimmedRight(s: string) returns (hi: nat)
    ensures hi <= |s| && TrimRight(s) == s[..hi] && Blank(s[hi..]) && (0 < hi ==> !IsSpace(s[hi - 1]))
    decreases |s|
  {
    hide IsSpace;
    hi := |s|;
    assert s[..|s|] == s;
    if s != "" && IsSpace(s[|s| - 1]) {
      var last := |s| - 1;
      hi := TrimmedRight(s[..last]);
      assert s[..last][..hi] == s[..hi];
      assert forall i :: 0 <= i < |s| - hi ==>
          s[hi..][i] == if hi + i < last then s[..last][hi..][i] else s[last];
    }
  }

  /** A value that is not in quotes at both ends is taken as it is, and of a quoted one each backslash goes. */
  lemma ValueRule(t: string, c: char)
    ensures (|Trim(t)| < 2 || Trim(t)[0] != '"' || Trim(t)[|Trim(t)| - 1] != '"') ==> Unquote(t) == Trim(t)
    ensures |Trim(t)| >= 2 && Trim(t)[0] == '"' && Trim(t)[|Trim(t)| - 1] == '"' ==>
              Unquote(t) == Unescape(Trim(t)[1..|Trim(t)| - 1])
    ensures Unescape("") == "" && Unescape("\\") == ""
    ensures Unescape(['\\', c] + t) == [c] + Unescape(t)
    ensures c != '\\' ==> Unescape([c] + t) == [c] + Unescape(t)
  {
    hide Trim;
    assert (['\\', c] + t)[2..] == t && ([c] + t)[1..] == t;
  }

  /** A quoted value may be written with a backslash before any character, and must be before a quote or a backslash. */
  lemma SpellingRule(c: char, e: string, v: string)
    ensures Spells("", v) <==> v == ""
    ensures Spells([c] + e, [c] + v) && c != '\\' <==> c != '"' && c != '\\' && Spells(e, v)
    ensures Spells(['\\', c] + e, [c] + v) <==> Spells(e, v)
  {
    assert ([c] + e)[1..] == e && ([c] + v)[1..] == v && (['\\', c] + e)[2..] == e;
  }

  /** Between white space or the ends, exactly these four letters, in either case. */
  predicate NextStandsAt(value: string, i: nat) {
    && i + 4 <= |value|
    && value[i] in {'n', 'N'} && value[i + 1] in {'e', 'E'} && value[i + 2] in {'x', 'X'} && value[i + 3] in {'t', 'T'}
    && (i == 0 || IsSpace(value[i - 1]))
    && (i + 4 == |value| || IsSpace(value[i + 4]))
  }

  lemma FoldsToNext(w: string)
    ensures EqualFold(w, "next") <==>
              |w| == 4 && w[0] in {'n', 'N'} && w[1] in {'e', 'E'} && w[2] in {'x', 'X'} && w[3] in {'t', 'T'}
  {
    if |w| == 4 {
      LowerIs(w[0], 'n');
      LowerIs(w[1], 'e');
      LowerIs(w[2], 'x');
      LowerIs(w[3], 't');
      assert EqualFold(w, "next") ==> LowerChar(w[0]) == 'n' && LowerChar(w[1]) == 'e'
                                      && LowerChar(w[2]) == 'x' && LowerChar(w[3]) == 't';
    }
  }

  lemma LowerIs(c: char, l: char)
    requires 'a' <= l <= 'z'
    ensures LowerChar(c) == l <==> c == l || c == l - ' '
  {
  }

  lemma FoldsToRel(w: string)
    ensures EqualFold(w, "rel") <==> |w| == 3 && w[0] in {'r', 'R'} && w[1] in {'e', 'E'} && w[2] in {'l', 'L'}
  {
    if |w| == 3 {
      LowerIs(w[0], 'r');
      LowerIs(w[1], 'e');
      LowerIs(w[2], 'l');
      assert EqualFold(w, "rel") ==> LowerChar(w[0]) == 'r' && LowerChar(w[1]) == 'e' && LowerChar(w[2]) == 'l';
    }
  }

  lemma {:induction false} WordEnds(s: string)
    ensures var k := WordEnd(s);
            && (forall i :: 0 <= i < k ==> !IsSpace(s[i]))
            && (k < |s| ==> IsSpace(s[k]))
    decreases |s|
  {
    hide IsSpace;
    if s != "" && !IsSpace(s[0]) {
      WordEnds(s[1..]);
      assert forall i :: 1 <= i < |s| ==> s[i] == s[1..][i - 1];
    }
  }

  /** A value names the next relation exactly when "next" stands in it as a word. */
  lemma NextWordRule(value: string)
    ensures NamesNext(value) <==> exists i :: 0 <= i < |value| && NextStandsAt(value, i)
  {
    NextWordFrom(value);
  }

  lemma {:induction false} NextWordFrom(s: string)
    ensures NamesNext(s) <==> exists i :: 0 <= i < |s| && NextStandsAt(s, i)
    decreases |s|
  {
    hide IsSpace, EqualFold, WordEnd;
    var k := WordEnd(s);
    WordEnds(s);
    if s != "" {
      FoldsToNext(s[..k]);
      if k == 0 {
        NextWordFrom(s[1..]);
        assert IsSpace(s[k]) && Fields(s) == Fields(s[1..]);
        BehindSpace(s);
      } else {
        NextWordFrom(s[k..]);
        WordThenRest(s, k);
      }
    }
  }

  /** A word after a leading space is a word of what follows the space. */
  lemma BehindSpace(s: string)
    requires s != "" && IsSpace(s[0])
    ensures (exists i :: 0 <= i < |s| && NextStandsAt(s, i))
            <==> exists i :: 0 <= i < |s[1..]| && NextStandsAt(s[1..], i)
  {
    SpaceIsNoLetter(s[0]);
    if i :| 0 <= i < |s| && NextStandsAt(s, i) { assert NextStandsAt(s[1..], i - 1); }
    if i :| 0 <= i < |s[1..]| && NextStandsAt(s[1..], i) { assert NextStandsAt(s, i + 1); }
  }

  lemma SpaceIsNoLetter(c: char)
    requires IsSpace(c)
    ensures !('A' <= c <= 'Z') && !('a' <= c <= 'z')
  {
  }

  /** The words of s are its first word and those of the rest. */
  lemma WordThenRest(s: string, k: nat)
    requires 0 < k <= |s| && (forall i :: 0 <= i < k ==> !IsSpace(s[i])) && (k < |s| ==> IsSpace(s[k]))
    ensures (exists i :: 0 <= i < |s| && NextStandsAt(s, i))
            <==> EqualFold(s[..k], "next") || exists i :: 0 <= i < |s[k..]| && NextStandsAt(s[k..], i)
    ensures NamesNext(s) <==> EqualFold(s[..k], "next") || NamesNext(s[k..])
  {
    hide IsSpace, EqualFold;
    FoldsToNext(s[..k]);
    WordEnds(s);
    assert WordEnd(s) == k;
    assert Fields(s) == [s[..k]] + Fields(s[k..]);
    if EqualFold(s[..k], "next") { assert Fields(s)[0] == s[..k]; }
    if NamesNext(s[k..]) {
      var j :| 0 <= j < |Fields(s[k..])| && EqualFold(Fields(s[k..])[j], "next");
      assert Fields(s)[j + 1] == Fields(s[k..])[j];
    }
    WordPositions(s, k);
  }

  lemma WordPositions(s: string, k: nat)
    requires 0 < k <= |s| && (forall i :: 0 <= i < k ==> !IsSpace(s[i])) && (k < |s| ==> IsSpace(s[k]))
    ensures (exists i :: 0 <= i < |s| && NextStandsAt(s, i))
            <==> (k == 4 && NextStandsAt(s, 0)) || exists i :: 0 <= i < |s[k..]| && NextStandsAt(s[k..], i)
  {
    hide IsSpace;
    if k < |s| { SpaceIsNoLetter(s[k]); }
    if i :| 0 <= i < |s| && NextStandsAt(s, i) {
      if i >= k { assert NextStandsAt(s[k..], i - k); }
    }
    if i :| 0 <= i < |s[k..]| && NextStandsAt(s[k..], i) { assert NextStandsAt(s, i + k); }
  }

  // ── parameters ──────────────────────────────────────────────────────────────

  /** The piece has an '=', and what stands before the first one is "rel", in either case and with blanks around. */
  predicate RelAt(piece: string, eq: nat) {
    && eq < |piece| && piece[eq] == '=' && (forall i :: 0 <= i < eq ==> piece[i] != '=')
    && var name := Trim(piece[..eq]);
       |name| == 3 && name[0] in {'r', 'R'} && name[1] in {'e', 'E'} && name[2] in {'l', 'L'}
  }

  lemma RelRule(piece: string, eq: nat)
    ensures IsRel(piece) <==> exists k :: 0 <= k < |piece| && RelAt(piece, k)
    ensures RelAt(piece, eq) ==> EqualsAt(piece) == eq
  {
    hide Trim, EqualFold;
    var at := EqualsAt(piece);
    FoldsToRel(Trim(piece[..at]));
    if k :| 0 <= k < |piece| && RelAt(piece, k) { assert k == at; }
    if IsRel(piece) { assert RelAt(piece, at); }
  }

  /** The first rel piece, wherever it stands, decides alone: its value names the next relation or does not. */
  lemma {:induction false} FirstRelRule(pieces: seq<string>, i: nat, eq: nat)
    ensures (forall j :: 0 <= j < |pieces| ==> !IsRel(pieces[j])) ==> !FirstRelNamesNext(pieces)
    ensures i < |pieces| && RelAt(pieces[i], eq) && (forall j :: 0 <= j < i ==> !IsRel(pieces[j])) ==>
              (FirstRelNamesNext(pieces) <==> NamesNext(Unquote(pieces[i][eq + 1..])))
    decreases |pieces|
  {
    hide IsRel, NamesNext, Unquote, EqualsAt, Trim;
    if pieces != [] {
      RelRule(pieces[0], eq);
      if !IsRel(pieces[0]) {
        FirstRelRule(pieces[1..], if i == 0 then 0 else i - 1, eq);
        assert forall j :: 1 <= j < |pieces| ==> pieces[j] == pieces[1..][j - 1];
      }
    }
  }

  // ── entries ─────────────────────────────────────────────────────────────────

  /** The trimmed entry starts with a target that ends at this angle. */
  predicate TargetEndsAt(t: string, hi: nat) {
    0 < hi < |t| && t[0] == '<' && t[hi] == '>' && forall i :: 0 <= i < hi ==> t[i] != '>'
  }

  /** What is read as the entry's parameters: what follows the target, or all of an entry that has none. */
  function ParametersOf(entry: string): string {
    var t := Trim(entry);
    var hi := IndexOf(t, '>');
    if hi > 0 && t[0] == '<' then Trim(t[hi + 1..]) else t
  }

  /**
   An entry says something exactly when its parameters declare the next relation. It advertises its trimmed target
   if it has one and its parameters start with a separator; otherwise it is malformed.
   */
  lemma EntryRule(entry: string, hi: nat)
    ensures var t := Trim(entry);
            && (Judge(entry).Skip? <==> !DeclaresNext(ParametersOf(entry)))
            && (TargetEndsAt(t, hi) ==> ParametersOf(entry) == Trim(t[hi + 1..]))
            && (TargetEndsAt(t, hi) && DeclaresNext(ParametersOf(entry)) ==>
                  Judge(entry) == if ParametersOf(entry)[..1] == ";" then Advertises(Trim(t[1..hi])) else Malformed)
            && ((forall k :: 0 <= k < |t| ==> !TargetEndsAt(t, k)) ==>
                  ParametersOf(entry) == t && Judge(entry) == if DeclaresNext(t) then Malformed else Skip)
  {
    hide Trim, DeclaresNext;
    var t := Trim(entry);
    NothingDeclaresNothing();
    var at := IndexOf(t, '>');
    assert TargetEndsAt(t, hi) ==> at == hi;
    assert at > 0 && t[0] == '<' ==> TargetEndsAt(t, at);
  }

  lemma NothingDeclaresNothing()
    ensures !DeclaresNext("")
  {
    assert FirstCut("", START, Mode(';', false)) == 0;
    assert Pieces("", Mode(';', false)) == [""];
    assert Blank("");
    assert WithoutBlankTail([""]) == [];
  }

  // ── the walk ────────────────────────────────────────────────────────────────

  predicate SaysNothing(entry: string) {
    !DeclaresNext(ParametersOf(entry))
  }

  lemma {:induction false} FirstEntryDecides(entries: seq<string>, k: nat)
    requires k < |entries| && !SaysNothing(entries[k])
    requires forall j :: 0 <= j < k ==> SaysNothing(entries[j])
    ensures FirstSaying(entries) == Judge(entries[k]) && !Judge(entries[k]).Skip?
    decreases k
  {
    hide Judge, ParametersOf, DeclaresNext;
    EntryRule(entries[0], 0);
    if k > 0 { FirstEntryDecides(entries[1..], k - 1); }
  }

  lemma {:induction false} FirstFieldDecides(links: seq<string>, i: nat, k: nat)
    requires i < |links| && k < |Entries(links[i])| && !SaysNothing(Entries(links[i])[k])
    requires forall j :: 0 <= j < k ==> SaysNothing(Entries(links[i])[j])
    requires forall h, j :: 0 <= h < i && 0 <= j < |Entries(links[h])| ==> SaysNothing(Entries(links[h])[j])
    ensures FirstSayingOf(links) == Judge(Entries(links[i])[k]) && !Judge(Entries(links[i])[k]).Skip?
    decreases i
  {
    hide Judge, SaysNothing, Entries;
    if i == 0 {
      FirstEntryDecides(Entries(links[0]), k);
    } else {
      SayingNothing(Entries(links[0]));
      forall j | 0 <= j < |Entries(links[0])| ensures Judge(Entries(links[0])[j]).Skip? {
        EntryRule(Entries(links[0])[j], 0);
        SaysNothingIs(Entries(links[0])[j]);
      }
      FirstFieldDecides(links[1..], i - 1, k);
    }
  }

  lemma SaysNothingIs(entry: string)
    ensures SaysNothing(entry) <==> !DeclaresNext(ParametersOf(entry))
  {
  }

  /**
   The first entry that declares the next relation, in the order of the fields, decides the walk, whatever follows
   it: its target is followed if it has one and resolves, and the continuation is unknown otherwise.
   */
  lemma WalkRule(links: seq<string>, resolve: string -> Option<string>, i: nat, k: nat)
    requires i < |links| && k < |Entries(links[i])| && !SaysNothing(Entries(links[i])[k])
    requires forall j :: 0 <= j < k ==> SaysNothing(Entries(links[i])[j])
    requires forall h, j :: 0 <= h < i && 0 <= j < |Entries(links[h])| ==> SaysNothing(Entries(links[h])[j])
    ensures NextPage(links, resolve) ==
            match Judge(Entries(links[i])[k])
            case Advertises(t) => if resolve(t).Some? then Follow(resolve(t).value) else Indeterminate
            case _ => Indeterminate
  {
    hide Judge, SaysNothing, Entries;
    FirstFieldDecides(links, i, k);
  }

  /** With no such entry the walk ends exactly when every field was read to its end, and is unknown otherwise. */
  lemma EndRule(links: seq<string>, resolve: string -> Option<string>)
    requires forall h, j :: 0 <= h < |links| && 0 <= j < |Entries(links[h])| ==> SaysNothing(Entries(links[h])[j])
    ensures NextPage(links, resolve) ==
            if forall h :: 0 <= h < |links| ==> Complete(links[h]) then NoNext else Indeterminate
  {
    hide Judge, Entries, ParametersOf, DeclaresNext, Complete;
    SayingNothingOf(links);
    forall h, j | 0 <= h < |links| && 0 <= j < |Entries(links[h])| ensures Judge(Entries(links[h])[j]).Skip? {
      EntryRule(Entries(links[h])[j], 0);
    }
  }
}
