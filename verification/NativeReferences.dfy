/** Which character references are read, and as what. */
module NativeReferences {
  import opened Text
  import opened NativeHtml

  const DIGITS := "0123456789abcdef"

  /** The value of a digit in this base, in either case. */
  predicate IsDigitOf(c: char, base: nat, d: nat) { d < base <= 16 && DIGITS[d] == LowerChar(c) }

  /** The digits of `s` after the number `before` say `n`. */
  predicate Spells(before: nat, s: string, base: nat, n: nat)
    decreases |s|
  {
    if s == "" then n == before
    else exists d: nat :: d < 16 && IsDigitOf(s[0], base, d) && Spells(before * base + d, s[1..], base, n)
  }

  predicate Scalar(n: nat) { 0 < n < 0xD800 || 0xE000 <= n <= 0x10FFFF }

  const NAMES := map[
    "amp" := '&', "lt" := '<', "gt" := '>', "quot" := '"', "apos" := '\'', "nbsp" := '\U{A0}' ]

  /** What a reference with this name stands for. */
  predicate Denotes(name: string, c: char) {
    (name in NAMES && NAMES[name] == c) || (Scalar(c as int) && Numbered(name, c as int))
  }

  predicate Numbered(name: string, n: nat) {
    && |name| >= 2 && name[0] == '#'
    && (Spells(0, name[1..], 10, n)
        || ((name[1] == 'x' || name[1] == 'X') && |name| >= 3 && Spells(0, name[2..], 16, n)))
  }

  /** The text with every reference in it replaced by what it stands for. */
  ghost predicate Reads(s: string, v: string)
    decreases |s|
  {
    if s == "" then v == ""
    else if s[0] != '&' then v != "" && v[0] == s[0] && Reads(s[1..], v[1..])
    else
      exists n: nat :: && 1 < n < |s| && s[n] == ';' && ';' !in s[1..n]
                       && v != "" && Denotes(s[1..n], v[0]) && Reads(s[n + 1..], v[1..])
  }

  // ---------- Numbers ----------

  lemma DigitIs(c: char, base: nat, d: nat)
    requires base == 10 || base == 16
    ensures IsDigitOf(c, base, d) <==> (if base == 10 then IsDigit(c) else IsHexDigit(c)) && d == HexValue(c)
  {
    assert DIGITS[0..10] == "0123456789";
  }

  predicate AllDigits(s: string, base: nat) { forall c :: c in s ==> if base == 10 then IsDigit(c) else IsHexDigit(c) }

  lemma HexDigits(s: string, base: nat)
    requires AllDigits(s, base)
    ensures forall c :: c in s ==> IsHexDigit(c)
  {
  }

  lemma NumberNext(p: string, c: char, base: nat)
    requires AllDigits(p + [c], base)
    ensures AllDigits(p, base) && (forall x :: x in p ==> IsHexDigit(x)) && (forall x :: x in p + [c] ==> IsHexDigit(x)) && IsHexDigit(c)
    ensures NumberIn(p + [c], base) == NumberIn(p, base) * base + HexValue(c)
  {
    assert c in p + [c] && forall x :: x in p ==> x in p + [c];
    assert (p + [c])[..|p|] == p;
  }

  lemma {:induction false} SpellsIs(p: string, s: string, base: nat, n: nat)
    requires (base == 10 || base == 16) && AllDigits(p, base) && forall x :: x in p ==> IsHexDigit(x)
    ensures Spells(NumberIn(p, base), s, base, n) <==>
              AllDigits(s, base) && (forall x :: x in p + s ==> IsHexDigit(x)) && n == NumberIn(p + s, base)
    decreases |s|
  {
    hide NumberIn, IsDigitOf, HexValue;
    if s == "" {
      assert p + s == p;
    } else {
      var c, rest := s[0], s[1..];
      assert p + s == p + [c] + rest;
      forall d: nat | d < 16 ensures IsDigitOf(c, base, d) <==> (if base == 10 then IsDigit(c) else IsHexDigit(c)) && d == HexValue(c) {
        DigitIs(c, base, d);
      }
      HexSmall(c);
      if if base == 10 then IsDigit(c) else IsHexDigit(c) {
        assert AllDigits(p + [c], base);
        NumberNext(p, c, base);
        SpellsIs(p + [c], rest, base, n);
        assert IsDigitOf(c, base, HexValue(c));
        assert AllDigits(s, base) <==> AllDigits(rest, base) by { DigitsFirst(s, base); }
      } else {
        assert c in s;
      }
    }
  }

  lemma DigitsFirst(s: string, base: nat)
    requires s != ""
    ensures AllDigits(s, base) <==> AllDigits([s[0]], base) && AllDigits(s[1..], base)
  {
    assert forall c :: c in s <==> c == s[0] || c in s[1..];
  }

  lemma HexSmall(c: char)
    ensures IsHexDigit(c) ==> HexValue(c) < 16
  {
  }

  // ---------- Names ----------

  lemma NamedNames(name: string)
    requires name in NAMES
    ensures Named(name) == Some(NAMES[name]) && (forall x :: x in name ==> IsLetter(x))
  {
    hide Numeric;
  }

  lemma NamedOthers(name: string)
    requires name !in NAMES
    ensures Named(name) == Numeric(name)
  {
    hide Numeric;
  }

  lemma NumericIs(name: string, c: char)
    ensures Numeric(name) == Some(c) <==> Scalar(c as int) && Numbered(name, c as int)
  {
    hide NumberIn, Spells;
    assert NumberIn("", 10) == 0 && NumberIn("", 16) == 0 by { NoDigits(); }
    if |name| >= 2 && name[0] == '#' {
      var d, h := name[1..], if |name| >= 3 then name[2..] else "";
      assert "" + d == d && "" + h == h;
      forall n ensures Spells(0, d, 10, n) <==> AllDigits(d, 10) && (forall x :: x in d ==> IsHexDigit(x)) && n == NumberIn(d, 10) {
        SpellsIs("", d, 10, n);
      }
      forall n ensures Spells(0, h, 16, n) <==> AllDigits(h, 16) && (forall x :: x in h ==> IsHexDigit(x)) && n == NumberIn(h, 16) {
        SpellsIs("", h, 16, n);
      }
      assert name[1] == d[0] && d[0] in d;
      if AllDigits(d, 10) {
        HexDigits(d, 10);
        assert Numbered(name, NumberIn(d, 10));
      } else if |name| >= 3 && AllDigits(h, 16) && (name[1] == 'x' || name[1] == 'X') {
        HexDigits(h, 16);
        assert Numbered(name, NumberIn(h, 16));
      }
    }
  }

  lemma NoDigits()
    ensures NumberIn("", 10) == 0 && NumberIn("", 16) == 0
  {
  }

  /** A reference is known exactly when it denotes a character, and it denotes at most one. */
  lemma NamedExact(name: string, c: char)
    ensures Named(name) == Some(c) <==> Denotes(name, c)
  {
    hide Named, Numeric, Numbered;
    NumericIs(name, c);
    if name in NAMES {
      NamedNames(name);
      LettersOnly(name);
    } else {
      NamedOthers(name);
    }
  }

  lemma LettersOnly(name: string)
    requires forall x :: x in name ==> IsLetter(x)
    ensures forall n :: !Numbered(name, n)
  {
    hide Spells;
    if name != "" { assert name[0] in name; }
  }

  // ---------- Whole texts ----------

  lemma DenotesPlainly(name: string, c: char)
    requires Denotes(name, c)
    ensures name != "" && forall x :: x in name ==> IsReferenceChar(x)
  {
    hide Spells;
    if name in NAMES {
      NamedNames(name);
    } else {
      NumberedPlainly(name, c as int);
    }
  }

  lemma NumberedPlainly(name: string, n: nat)
    requires Numbered(name, n)
    ensures forall x :: x in name ==> IsReferenceChar(x)
  {
    hide Spells;
    if Spells(0, name[1..], 10, n) {
      SpelledPlainly(0, name[1..], 10, n);
      assert forall x :: x in name <==> x == name[0] || x in name[1..];
    } else {
      SpelledPlainly(0, name[2..], 16, n);
      assert forall x :: x in name <==> x == name[0] || x == name[1] || x in name[2..];
    }
  }

  lemma {:induction false} SpelledPlainly(before: nat, s: string, base: nat, n: nat)
    requires Spells(before, s, base, n) && (base == 10 || base == 16)
    ensures forall x :: x in s ==> IsReferenceChar(x)
    decreases |s|
  {
    hide IsDigitOf, IsReferenceChar, IsHexDigit, IsDigit, HexValue;
    if s != "" {
      var d: nat :| d < 16 && IsDigitOf(s[0], base, d) && Spells(before * base + d, s[1..], base, n);
      DigitIs(s[0], base, d);
      DigitPlain(s[0]);
      SpelledPlainly(before * base + d, s[1..], base, n);
    }
  }

  lemma DigitPlain(c: char)
    requires IsDigit(c) || IsHexDigit(c)
    ensures IsReferenceChar(c)
  {
  }

  lemma ReferenceEnds(s: string, n: nat, c: char)
    requires 1 < n < |s| && s[n] == ';' && Denotes(s[1..n], c)
    ensures End(s, 1, IsReferenceChar) == n
  {
    hide Denotes;
    DenotesPlainly(s[1..n], c);
    assert forall k :: 1 <= k < n ==> s[k] == s[1..n][k - 1] && s[k] in s[1..n];
    EndIs(s, 1, n, IsReferenceChar);
  }

  lemma EntitiesPlain(s: string)
    requires s != "" && s[0] != '&'
    ensures Entities(s).unsupported == Entities(s[1..]).unsupported && Entities(s).value == [s[0]] + Entities(s[1..]).value
  {
  }

  /** The reference that an ampersand at the front begins, if it is a known one. */
  lemma EntitiesAt(s: string) returns (n: nat, known: bool)
    requires s != "" && s[0] == '&'
    ensures n == End(s, 1, IsReferenceChar) && 1 <= n <= |s| && ';' !in s[1..n]
    ensures known <==> n < |s| && s[n] == ';' && Named(s[1..n]).Some?
    ensures !Entities(s).unsupported ==> known
    ensures known ==> Entities(s).unsupported == Entities(s[n + 1..]).unsupported
                      && Entities(s).value == [Named(s[1..n]).value] + Entities(s[n + 1..]).value
  {
    hide Named, LiteralAmpersand, IsSpace;
    n := End(s, 1, IsReferenceChar);
    known := n < |s| && s[n] == ';' && Named(s[1..n]).Some?;
  }

  /** A text is read without doubt exactly when every ampersand in it begins a known reference, and then
      it is read as what its references stand for. */
  lemma {:induction false} ReferencesExact(s: string, v: string)
    ensures Reads(s, v) <==> !Entities(s).unsupported && v == Entities(s).value
    decreases |s|
  {
    hide Denotes, Named, LiteralAmpersand, IsReferenceChar, Entities;
    if s == "" {
      NoEntities();
    } else if s[0] != '&' {
      EntitiesPlain(s);
      if v != "" { ReferencesExact(s[1..], v[1..]); }
    } else {
      var n, known := EntitiesAt(s);
      if Reads(s, v) { ReadsKnown(s, v, n); }
      if known && v != "" {
        NamedExact(s[1..n], v[0]);
        ReferencesExact(s[n + 1..], v[1..]);
        if Denotes(s[1..n], v[0]) { DenotesPlainly(s[1..n], v[0]); }
      }
    }
  }

  lemma NoEntities()
    ensures Entities("") == Unescaped("", false, true)
  {
  }

  /** The reference that is read at the front is the known one there. */
  lemma ReadsKnown(s: string, v: string, n: nat)
    requires s != "" && s[0] == '&' && Reads(s, v) && n == End(s, 1, IsReferenceChar)
    ensures 1 < n < |s| && s[n] == ';' && v != "" && Named(s[1..n]) == Some(v[0]) && Denotes(s[1..n], v[0]) && Reads(s[n + 1..], v[1..])
  {
    hide Denotes, Named, IsReferenceChar, End;
    var k: nat :| 1 < k < |s| && s[k] == ';' && ';' !in s[1..k] && v != "" && Denotes(s[1..k], v[0]) && Reads(s[k + 1..], v[1..]);
    ReferenceEnds(s, k, v[0]);
    NamedExact(s[1..k], v[0]);
  }
}
