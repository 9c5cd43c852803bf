/** Tags as anybody may write them, in any case and with any white space, and how they are read. */
module NativeLexing {
  import opened Text
  import opened NativeHtml

  predicate Spaces(s: string) { forall i :: 0 <= i < |s| ==> IsSpace(s[i]) }

  /** A letter, and then letters, digits, colons, underscores and hyphens. */
  predicate Name(s: string) {
    && s != "" && IsLetter(s[0])
    && forall i :: 0 <= i < |s| ==> IsLetter(s[i]) || IsDigit(s[i]) || s[i] in {':', '_', '-'}
  }

  /** How the value of an attribute is quoted. */
  datatype Quoting = Double | Single | Bare

  predicate Quotable(q: Quoting, value: string) {
    match q
    case Double => '"' !in value
    case Single => '\'' !in value
    case Bare => value != "" && forall c :: c in value ==> !IsSpace(c) && c !in {'"', '\'', '=', '<', '>', '`'}
  }

  function Quote(q: Quoting, value: string): string {
    match q case Double => "\"" + value + "\"" case Single => "'" + value + "'" case Bare => value
  }

  /** What may follow an attribute: white space or the end of the tag. */
  predicate Ends(rest: string) { rest != "" && (IsSpace(rest[0]) || rest[0] == '>') }

  function Written(before: string, name: string, left: string, right: string, q: Quoting, value: string): string {
    before + name + left + "=" + right + Quote(q, value)
  }

  /** What stands at `i`, to the end of the text. */
  predicate From(s: string, i: nat, rest: string) { i <= |s| && s[i..] == rest }

  lemma Past(s: string, i: nat, x: string, rest: string)
    requires From(s, i, x + rest)
    ensures From(s, i + |x|, rest)
    ensures forall k :: i <= k < i + |x| ==> s[k] == x[k - i]
    ensures rest != "" ==> i + |x| < |s| && s[i + |x|] == rest[0]
  {
    assert s[i + |x|..] == s[i..][|x|..];
    assert forall k :: i <= k < i + |x| ==> s[k] == s[i..][k - i];
    if rest != "" { assert s[i + |x|] == s[i..][|x|]; }
  }

  lemma Skip(s: string, i: nat, x: string, rest: string)
    requires From(s, i, x + rest)
    ensures i + |x| <= |s| && From(s, i + |x|, rest)
    ensures x != "" ==> i < |s| && s[i] == x[0]
    ensures rest != "" ==> i + |x| < |s| && s[i + |x|] == rest[0]
  {
    Past(s, i, x, rest);
  }

  lemma SpacesPast(s: string, i: nat, x: string, rest: string)
    requires From(s, i, x + rest) && Spaces(x) && (rest != "" ==> !IsSpace(rest[0]))
    ensures End(s, i, IsSpace) == i + |x|
  {
    Past(s, i, x, rest);
    hide IsSpace;
    EndIs(s, i, i + |x|, IsSpace);
  }

  lemma NamePast(s: string, i: nat, name: string, rest: string)
    requires From(s, i, name + rest) && Name(name) && (rest != "" ==> !IsNameChar(rest[0]))
    ensures NameEnd(s, i) == i + |name| && s[i..i + |name|] == name
  {
    Past(s, i, name, rest);
    assert forall k :: 0 <= k < |name| ==> IsNameChar(name[k]);
    hide IsNameChar;
    EndIs(s, i, i + |name|, IsNameChar);
    assert s[i] == name[0];
  }

  lemma {:induction false} ValuePast(s: string, i: nat, q: Quoting, value: string, rest: string)
    requires From(s, i, Quote(q, value) + rest) && Quotable(q, value) && Ends(rest)
    ensures LexValue(s, i) == Some((value, i + |Quote(q, value)|))
  {
    hide IsSpace;
    match q
    case Bare =>
      Past(s, i, value, rest);
      BareEnd(rest[0]);
      assert forall k :: 0 <= k < |value| ==> value[k] in value;
      EndIs(s, i, i + |value|, IsUnquoted);
      assert s[i] == value[0] && s[i..i + |value|] == value;
    case Double => QuotedPast(s, i, '"', value, rest);
    case Single => QuotedPast(s, i, '\'', value, rest);
  }

  lemma BareEnd(c: char)
    requires IsSpace(c) || c == '>'
    ensures !IsUnquoted(c)
  {
  }

  lemma {:induction false} QuotedPast(s: string, i: nat, quote: char, value: string, rest: string)
    requires (quote == '"' || quote == '\'') && quote !in value && From(s, i, [quote] + value + [quote] + rest)
    ensures LexValue(s, i) == Some((value, i + |value| + 2))
  {
    hide IsSpace;
    assert [quote] + value + [quote] + rest == [quote] + (value + ([quote] + rest));
    Past(s, i, [quote], value + ([quote] + rest));
    Past(s, i + 1, value, [quote] + rest);
    assert forall k :: 0 <= k < |value| ==> value[k] in value;
    var e := i + 1 + |value|;
    EndIs(s, i + 1, e, if quote == '"' then NotDoubleQuote else NotSingleQuote);
    assert s[i + 1..e] == value;
  }

  lemma NameStops(c: char)
    requires IsSpace(c) || c == '='
    ensures !IsNameChar(c)
  {
  }

  lemma NameNoSpace(name: string)
    requires Name(name)
    ensures !IsSpace(name[0])
  {
  }

  lemma {:induction false} SpacedName(s: string, i: nat, before: string, name: string, rest: string)
    requires From(s, i, before + (name + rest)) && Spaces(before) && Name(name) && (rest != "" ==> !IsNameChar(rest[0]))
    ensures var a := i + |before|;
            && End(s, i, IsSpace) == a && NameEnd(s, a) == a + |name| <= |s| && s[a..a + |name|] == name && From(s, a + |name|, rest)
            && a < |s| && s[a] != '>' && s[a] != '/' && name != ""
  {
    hide IsSpace, Name, NameEnd, From, End;
    NameNoSpace(name);
    NameHead(name);
    SpacesPast(s, i, before, name + rest);
    Skip(s, i, before, name + rest);
    NamePast(s, i + |before|, name, rest);
    Skip(s, i + |before|, name, rest);
  }

  lemma {:induction false} SpacedEquals(s: string, i: nat, left: string, right: string, tail: string)
    requires From(s, i, left + ("=" + (right + tail))) && Spaces(left) && Spaces(right) && tail != "" && !IsSpace(tail[0])
    ensures var m, v := i + |left|, i + |left| + 1 + |right|;
            End(s, i, IsSpace) == m < |s| && s[m] == '=' && End(s, m + 1, IsSpace) == v && From(s, v, tail)
  {
    hide IsSpace, From, End;
    EqualsNoSpace();
    SpacesPast(s, i, left, "=" + (right + tail));
    Skip(s, i, left, "=" + (right + tail));
    Skip(s, i + |left|, "=", right + tail);
    SpacesPast(s, i + |left| + 1, right, tail);
    Skip(s, i + |left| + 1, right, tail);
  }

  /** The name of an attribute and the equals sign. */
  lemma {:induction false} AttrNameSpelt(s: string, i: nat, before: string, name: string, left: string, right: string, tail: string)
    requires From(s, i, before + (name + (left + ("=" + (right + tail)))))
    requires before != "" && Spaces(before) && Spaces(left) && Spaces(right) && Name(name) && tail != "" && !IsSpace(tail[0])
    ensures var v := i + |before| + |name| + |left| + 1 + |right|;
            LexTagEnd(s, i) == None && From(s, v, tail) && LexAttrName(s, i) == Some((Lower(name), v))
  {
    hide IsSpace, Name, NameEnd, From, End, Lower, Spaces, IsNameChar;
    if left != "" { SpacesFirst(left); NameStops(left[0]); } else { NameStops('='); }
    SpacedName(s, i, before, name, left + ("=" + (right + tail)));
    SpacedEquals(s, i + |before| + |name|, left, right, tail);
  }

  lemma SpacesFirst(x: string)
    requires Spaces(x) && x != ""
    ensures IsSpace(x[0])
  {
  }

  /** An attribute is read with its name in small letters and its value without its quotes, whatever the
      white space around its parts. */
  lemma {:induction false} AttributeSpelt(s: string, i: nat, before: string, name: string, left: string, right: string, q: Quoting,
                                          value: string, rest: string)
    requires From(s, i, Written(before, name, left, right, q, value) + rest)
    requires before != "" && Spaces(before) && Spaces(left) && Spaces(right) && Name(name) && Quotable(q, value) && Ends(rest)
    ensures LexTagEnd(s, i) == None
    ensures LexAttr(s, i) == Some(RawAttr(Lower(name), value, i + |Written(before, name, left, right, q, value)|))
  {
    hide IsSpace, LexValue, LexAttrName, LexTagEnd, Name, Quotable, Quote, NameEnd, Ends, Lower;
    var tail := Quote(q, value) + rest;
    assert Written(before, name, left, right, q, value) + rest == before + (name + (left + ("=" + (right + tail))));
    QuoteNoSpace(q, value, rest);
    AttrNameSpelt(s, i, before, name, left, right, tail);
    ValuePast(s, i + |before| + |name| + |left| + 1 + |right|, q, value, rest);
  }

  lemma EqualsNoSpace()
    ensures !IsSpace('=')
  {
  }

  lemma NameHead(name: string)
    requires Name(name)
    ensures name != "" && name[0] != '>' && name[0] != '/'
  {
  }

  lemma QuoteNoSpace(q: Quoting, value: string, rest: string)
    requires Quotable(q, value)
    ensures Quote(q, value) != "" && !IsSpace((Quote(q, value) + rest)[0])
  {
    if q.Bare? { assert value[0] in value; }
  }

  /** The end of a tag, after white space. */
  lemma TagEndSpelt(s: string, i: nat, before: string, slash: bool, rest: string)
    requires Spaces(before) && From(s, i, before + ((if slash then "/>" else ">") + rest))
    ensures LexTagEnd(s, i) == Some((slash, i + |before| + if slash then 2 else 1))
  {
    hide IsSpace;
    var end := if slash then "/>" else ">";
    SpacesPast(s, i, before, end + rest) by { EndNoSpace(); }
    Past(s, i, before, end + rest);
    Past(s, i + |before|, end, rest);
  }

  lemma EndNoSpace()
    ensures !IsSpace('/') && !IsSpace('>')
  {
  }

  /** A closing tag is read with its name in small letters. */
  lemma {:induction false} ClosingSpelt(s: string, name: string, before: string, rest: string)
    requires Name(name) && Spaces(before) && From(s, 0, "</" + (name + (before + (">" + rest))))
    ensures LexClose(s) == Some((Lower(name), 3 + |name| + |before|))
  {
    hide IsSpace, Name, NameEnd, From, End, Lower, Spaces, IsNameChar;
    var tail := before + (">" + rest);
    Skip(s, 0, "</", name + tail);
    SecondIs(s, name + tail);
    if before != "" { SpacesFirst(before); NameStops(before[0]); } else { GreaterStops(); }
    NoSpaces();
    assert "" + (name + tail) == name + tail;
    SpacedName(s, 2, "", name, tail);
    SpacedGreater(s, 2 + |name|, before, rest);
  }

  lemma NoSpaces()
    ensures Spaces("")
  {
  }

  lemma SpacedGreater(s: string, i: nat, before: string, rest: string)
    requires From(s, i, before + (">" + rest)) && Spaces(before)
    ensures End(s, i, IsSpace) == i + |before| < |s| && s[i + |before|] == '>'
  {
    hide IsSpace, From, End;
    EndNoSpace();
    SpacesPast(s, i, before, ">" + rest);
    Skip(s, i, before, ">" + rest);
  }

  lemma SecondIs(s: string, rest: string)
    requires From(s, 0, "</" + rest)
    ensures |s| >= 2 && s[0] == '<' && s[1] == '/'
  {
    Past(s, 0, "</", rest);
  }

  lemma GreaterStops()
    ensures !IsNameChar('>')
  {
  }
}
