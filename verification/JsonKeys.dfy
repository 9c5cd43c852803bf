/** The one-pass scan for duplicate top-level keys, against the grammar of RFC 8259, sections 2 to
    7: objects, arrays, numbers and strings with insignificant white space anywhere it may stand. */
module JsonKeys {
  import opened Text

  // ---------- JSON texts ----------

  /** A value as it is written. `Str` holds what stands between the quotes; a list holds the
      white space between its brackets when it is empty. */
  datatype Value =
    | Plain(text: string)
    | Str(body: string)
    | Arr(inside: string, items: seq<Padded>)
    | Obj(inside: string, members: seq<Member>)

  datatype Padded = Padded(before: string, value: Value, after: string)

  datatype Member = Member(before: string, name: string, mid: string, value: Padded)

  /** White space of section 2. */
  predicate IsBlank(c: char) { c == ' ' || c == '\t' || c == '\n' || c == '\r' }

  predicate Blanks(s: string) { forall i :: 0 <= i < |s| ==> IsBlank(s[i]) }

  /** The digits of section 6. */
  predicate Digits(s: string) { s != "" && forall i :: 0 <= i < |s| ==> IsDigit(s[i]) }

  predicate IntegerPart(s: string) { Digits(s) && (s[0] == '0' ==> |s| == 1) }

  predicate ExponentPart(s: string) {
    && |s| > 1 && (s[0] == 'e' || s[0] == 'E')
    && Digits(if s[1] == '+' || s[1] == '-' then s[2..] else s[1..])
  }

  /** `[ minus ] int [ frac ] [ exp ]`, as its four parts. */
  predicate NumberOf(s: string, minus: string, integer: string, fraction: string, exponent: string) {
    && s == minus + integer + fraction + exponent
    && (minus == "" || minus == "-") && IntegerPart(integer)
    && (fraction == "" || (fraction[0] == '.' && Digits(fraction[1..])))
    && (exponent == "" || ExponentPart(exponent))
  }

  ghost predicate IsNumber(s: string) { exists m, i, f, e :: NumberOf(s, m, i, f, e) }

  predicate IsShortEscape(c: char) {
    c == '"' || c == '\\' || c == '/' || c == 'b' || c == 'f' || c == 'n' || c == 'r' || c == 't'
  }

  /** The characters of section 7. */
  predicate ValidBody(s: string)
    decreases |s|
  {
    if s == "" then true
    else if s[0] == '\\' then
      if |s| >= 2 && IsShortEscape(s[1]) then ValidBody(s[2..])
      else |s| >= 6 && s[1] == 'u' && (forall i :: 2 <= i < 6 ==> IsHexDigit(s[i])) && ValidBody(s[6..])
    else s[0] != '"' && s[0] as int >= 32 && ValidBody(s[1..])
  }

  function ShortEscape(c: char): nat {
    if c == 'b' then 8 else if c == 'f' then 12 else if c == 'n' then 10 else if c == 'r' then 13
    else if c == 't' then 9 else c as int
  }

  /** The UTF-16 code units of a character. */
  function Units(c: char): seq<nat> {
    var n := c as int;
    if n < 0x10000 then [n] else [0xD800 + (n - 0x10000) / 0x400, 0xDC00 + (n - 0x10000) % 0x400]
  }

  /** What a string stands for, in UTF-16 code units. */
  function Decoded(s: string): seq<nat>
    requires ValidBody(s)
    decreases |s|
  {
    if s == "" then []
    else if s[0] == '\\' then
      if IsShortEscape(s[1]) then [ShortEscape(s[1])] + Decoded(s[2..])
      else
        [HexValue(s[2]) * 0x1000 + HexValue(s[3]) * 0x100 + HexValue(s[4]) * 0x10 + HexValue(s[5])] + Decoded(s[6..])
    else Units(s[0]) + Decoded(s[1..])
  }

  ghost predicate ValidValue(v: Value)
    decreases v, 0
  {
    match v
    case Plain(t) => t == "true" || t == "false" || t == "null" || IsNumber(t)
    case Str(body) => ValidBody(body)
    case Arr(inside, items) => Blanks(inside) && ValidItems(items)
    case Obj(inside, members) => Blanks(inside) && ValidMembers(members)
  }

  ghost predicate ValidPadded(p: Padded)
    decreases p, 1
  {
    Blanks(p.before) && ValidValue(p.value) && Blanks(p.after)
  }

  ghost predicate ValidItems(items: seq<Padded>)
    decreases items, 2
  {
    items != [] ==> ValidPadded(items[0]) && ValidItems(items[1..])
  }

  ghost predicate ValidMembers(ms: seq<Member>)
    decreases ms, 2
  {
    ms != [] ==>
      && Blanks(ms[0].before) && ValidBody(ms[0].name) && Blanks(ms[0].mid) && ValidPadded(ms[0].value)
      && ValidMembers(ms[1..])
  }

  function Quoted(body: string): string { "\"" + body + "\"" }

  function Print(v: Value): string
    decreases v, 0
  {
    match v
    case Plain(t) => t
    case Str(body) => Quoted(body)
    case Arr(inside, items) => "[" + (if items == [] then inside else PrintItems(items)) + "]"
    case Obj(inside, members) => "{" + (if members == [] then inside else PrintMembers(members)) + "}"
  }

  function PrintPadded(p: Padded): string
    decreases p, 1
  {
    p.before + Print(p.value) + p.after
  }

  function PrintItems(items: seq<Padded>): string
    decreases items, 2
  {
    if items == [] then ""
    else PrintPadded(items[0]) + if |items| == 1 then "" else "," + PrintItems(items[1..])
  }

  function PrintMembers(ms: seq<Member>): string
    decreases ms, 2
  {
    if ms == [] then ""
    else
      ms[0].before + Quoted(ms[0].name) + ms[0].mid + ":" + PrintPadded(ms[0].value)
      + if |ms| == 1 then "" else "," + PrintMembers(ms[1..])
  }

  // ---------- The scanner ----------

  /** How long the string is whose opening quote has been read, with its closing quote. */
  function StringLength(s: string, escaped: bool): (n: nat)
    ensures n <= |s|
    decreases |s|
  {
    if s == "" then 0
    else if escaped then 1 + StringLength(s[1..], false)
    else if s[0] == '\\' then 1 + StringLength(s[1..], true)
    else if s[0] == '"' then 1
    else 1 + StringLength(s[1..], false)
  }

  /** `JSON.parse` of a name and the white space after it. */
  function ParseName(s: string): seq<nat> {
    var n := StringLength(s[if s == "" then 0 else 1..], false);
    if s != "" && 1 <= n && ValidBody(s[1..n]) then Decoded(s[1..n]) else []
  }

  /** The scan of what is left of the text. */
  function Scan(s: string, depth: int, seen: set<seq<nat>>): bool
    decreases |s|
  {
    if s == "" then false
    else if s[0] == '"' then
      var e := 1 + StringLength(s[1..], false);
      if depth == 1 then
        var k := End(s, e, IsSpace);
        if k < |s| && s[k] == ':' then
          ParseName(s[..k]) in seen || Scan(s[k..], depth, seen + {ParseName(s[..k])})
        else Scan(s[k..], depth, seen)
      else Scan(s[e..], depth, seen)
    else Scan(s[1..], if s[0] == '{' then depth + 1 else if s[0] == '}' then depth - 1 else depth, seen)
  }

  /** The inner loop: where the string that starts at `start` ends. */
  method SkipString(raw: string, start: nat) returns (index: nat)
    requires start < |raw|
    ensures index == start + 1 + StringLength(raw[start + 1..], false)
  {
    index := start + 1;
    var escaped := false;
    while index < |raw|
      invariant start < index <= |raw|
      invariant StringLength(raw[start + 1..], false) == index - start - 1 + StringLength(raw[index..], escaped)
      decreases |raw| - index
    {
      var current := raw[index];
      assert raw[index..][1..] == raw[index + 1..];
      index := index + 1;
      if escaped {
        escaped := false;
      } else if current == '\\' {
        escaped := true;
      } else if current == '"' {
        return;
      }
    }
  }

  lemma {:induction false} ScanString(s: string, depth: int, seen: set<seq<nat>>)
    requires s != "" && s[0] == '"'
    ensures var e := 1 + StringLength(s[1..], false);
            var k := End(s, e, IsSpace);
            Scan(s, depth, seen)
            == if depth != 1 then Scan(s[e..], depth, seen)
               else if k < |s| && s[k] == ':' then
                 ParseName(s[..k]) in seen || Scan(s[k..], depth, seen + {ParseName(s[..k])})
               else Scan(s[k..], depth, seen)
  {
    hide StringLength, ParseName, IsSpace;
  }

  /** What one turn of the outer loop does at a string. */
  lemma {:induction false} StringTurn(raw: string, i: nat, depth: int, seen: set<seq<nat>>)
    requires i < |raw| && raw[i] == '"'
    ensures var e := i + 1 + StringLength(raw[i + 1..], false);
            var k := End(raw, e, IsSpace);
            Scan(raw[i..], depth, seen)
            == if depth != 1 then Scan(raw[e..], depth, seen)
               else if k < |raw| && raw[k] == ':' then
                 ParseName(raw[i..k]) in seen || Scan(raw[k..], depth, seen + {ParseName(raw[i..k])})
               else Scan(raw[k..], depth, seen)
  {
    hide *;
    var s, n := raw[i..], 1 + StringLength(raw[i + 1..], false);
    Slices(raw, i, 1);
    ScanString(s, depth, seen);
    Slices(raw, i, n);
    EndShifts(raw, i, i + n);
    Slices(raw, i, End(s, n, IsSpace));
  }

  lemma Slices(raw: string, i: nat, k: nat)
    requires i + k <= |raw|
    ensures raw[i..][k..] == raw[i + k..] && raw[i..][..k] == raw[i..i + k]
    ensures i + k < |raw| ==> raw[i..][k] == raw[i + k]
  {
  }

  lemma EndShifts(raw: string, i: nat, e: nat)
    requires i <= e <= |raw|
    ensures End(raw, e, IsSpace) == i + End(raw[i..], e - i, IsSpace)
    decreases |raw| - e
  {
    if e < |raw| && IsSpace(raw[e]) { EndShifts(raw, i, e + 1); }
  }

  lemma {:induction false} CharTurn(raw: string, i: nat, depth: int, seen: set<seq<nat>>)
    requires i < |raw| && raw[i] != '"'
    ensures Scan(raw[i..], depth, seen)
         == Scan(raw[i + 1..], if raw[i] == '{' then depth + 1 else if raw[i] == '}' then depth - 1 else depth, seen)
  {
    assert raw[i..][1..] == raw[i + 1..];
  }

  lemma ScanNothing(depth: int, seen: set<seq<nat>>)
    ensures !Scan("", depth, seen)
  {
  }

  /** The loop over the white space after a string. */
  method SkipSpace(raw: string, start: nat) returns (index: nat)
    requires start <= |raw|
    ensures index == End(raw, start, IsSpace)
  {
    hide IsSpace;
    index := start;
    while index < |raw| && IsSpace(raw[index])
      invariant start <= index <= |raw| && End(raw, index, IsSpace) == End(raw, start, IsSpace)
    {
      index := index + 1;
    }
  }

  /** `hasDuplicateTopLevelKeys` */
  method HasDuplicateTopLevelKeys(raw: string) returns (duplicate: bool)
    ensures duplicate == Scan(raw, 0, {})
  {
    hide StringLength, IsSpace, End, ParseName, Scan;
    var seen: set<seq<nat>> := {};
    var depth, index := 0, 0;
    assert raw[0..] == raw;
    while index < |raw|
      invariant index <= |raw| && Scan(raw[index..], depth, seen) == Scan(raw, 0, {})
      decreases |raw| - index
    {
      var character := raw[index];
      if character == '"' {
        StringTurn(raw, index, depth, seen);
        var start := index;
        index := SkipString(raw, start);
        if depth == 1 {
          index := SkipSpace(raw, index);
          if index < |raw| && raw[index] == ':' {
            var key := ParseName(raw[start..index]);
            if key in seen {
              return true;
            }
            seen := seen + {key};
          }
        }
      } else {
        CharTurn(raw, index, depth, seen);
        if character == '{' {
          depth := depth + 1;
        } else if character == '}' {
          depth := depth - 1;
        }
        index := index + 1;
      }
    }
    assert raw[index..] == "";
    ScanNothing(depth, seen);
    duplicate := false;
  }

  // ---------- What the scanner does on the grammar ----------

  lemma {:induction false} BodyLength(body: string, rest: string)
    requires ValidBody(body)
    ensures StringLength(body + "\"" + rest, false) == |body| + 1
    decreases |body|
  {
    var s := body + "\"" + rest;
    if body == "" {
      assert s[0] == '"';
    } else if body[0] == '\\' {
      assert s[1..][1..] == body[2..] + "\"" + rest;
      if IsShortEscape(body[1]) {
        BodyLength(body[2..], rest);
      } else {
        BodyLength(body[6..], rest);
        HexLength(s[2..], body[6..] + "\"" + rest);
        assert s[2..] == s[2..6] + (body[6..] + "\"" + rest);
      }
    } else {
      assert s[1..] == body[1..] + "\"" + rest;
      BodyLength(body[1..], rest);
    }
  }

  lemma {:induction false} HexLength(s: string, rest: string)
    requires |s| >= 4 && (forall i :: 0 <= i < 4 ==> IsHexDigit(s[i])) && s[4..] == rest
    ensures StringLength(s, false) == 4 + StringLength(rest, false)
  {
    assert forall i :: 0 <= i < 4 ==> s[i] != '"' && s[i] != '\\';
    assert s[1..][1..] == s[2..] && s[2..][1..] == s[3..] && s[3..][1..] == s[4..];
    assert StringLength(s[3..], false) == 1 + StringLength(rest, false);
    assert StringLength(s[2..], false) == 2 + StringLength(rest, false);
    assert StringLength(s[1..], false) == 3 + StringLength(rest, false);
  }

  function Depth(c: char, depth: int): int { if c == '{' then depth + 1 else if c == '}' then depth - 1 else depth }

  lemma {:induction false} ScanChar(c: char, rest: string, depth: int, seen: set<seq<nat>>)
    requires c != '"'
    ensures Scan([c] + rest, depth, seen) == Scan(rest, Depth(c, depth), seen)
  {
    assert ([c] + rest)[1..] == rest;
  }

  /** Text the scanner steps over without a trace. */
  predicate IsFlat(t: string) { forall i :: 0 <= i < |t| ==> t[i] != '"' && t[i] != '{' && t[i] != '}' }

  /** Text without quotes or braces is skipped. */
  lemma {:induction false} ScanFlat(t: string, rest: string, depth: int, seen: set<seq<nat>>)
    requires IsFlat(t)
    ensures Scan(t + rest, depth, seen) == Scan(rest, depth, seen)
    decreases |t|
  {
    hide Scan;
    if t == "" {
      assert t + rest == rest;
    } else {
      assert t + rest == [t[0]] + (t[1..] + rest);
      ScanChar(t[0], t[1..] + rest, depth, seen);
      ScanFlat(t[1..], rest, depth, seen);
    }
  }

  lemma {:induction false} ScanBlanks(t: string, rest: string, depth: int, seen: set<seq<nat>>)
    requires Blanks(t)
    ensures Scan(t + rest, depth, seen) == Scan(rest, depth, seen)
  {
    hide Scan;
    ScanFlat(t, rest, depth, seen);
  }

  lemma DigitsFlat(head: string, t: string)
    requires IsFlat(head) && Digits(t)
    ensures IsFlat(head + t)
  {
  }

  lemma FlatJoin(a: string, b: string)
    requires IsFlat(a) && IsFlat(b)
    ensures IsFlat(a + b)
  {
  }

  lemma NumberFlat(t: string)
    requires IsNumber(t)
    ensures IsFlat(t)
  {
    var m, n, f, e :| NumberOf(t, m, n, f, e);
    assert IsFlat(m) && IsFlat(n);
    if f != "" {
      DigitsFlat(f[..1], f[1..]);
      assert f == f[..1] + f[1..];
    }
    if e != "" {
      var k := if Digits(e[1..]) then 1 else 2;
      DigitsFlat(e[..k], e[k..]);
      assert e == e[..k] + e[k..];
    }
    FlatJoin(m, n);
    FlatJoin(m + n, f);
    FlatJoin(m + n + f, e);
  }

  /** What follows a string that is a value is not a colon. */
  predicate NoColon(rest: string) {
    var k := End(rest, 0, IsSpace);
    k < |rest| ==> rest[k] != ':'
  }

  /** A string that is a value is skipped. */
  lemma {:induction false} ScanValueString(body: string, rest: string, depth: int, seen: set<seq<nat>>)
    requires ValidBody(body) && (depth == 1 ==> NoColon(rest))
    ensures Scan(Quoted(body) + rest, depth, seen) == Scan(rest, depth, seen)
  {
    hide StringLength, ParseName, Scan, ValidBody;
    var s := Quoted(body) + rest;
    assert s[1..] == body + "\"" + rest;
    BodyLength(body, rest);
    var e := |body| + 2;
    ScanString(s, depth, seen);
    assert s[e..] == rest;
    EndShifts(s, e, e);
    var k := End(rest, 0, IsSpace);
    assert s[e + k..] == rest[k..];
    if depth == 1 {
      assert rest == rest[..k] + rest[k..];
      SpacesFlat(rest[..k]);
      ScanFlat(rest[..k], rest[k..], depth, seen);
    }
  }

  lemma SpacesFlat(t: string)
    requires forall i :: 0 <= i < |t| ==> IsSpace(t[i])
    ensures forall i :: 0 <= i < |t| ==> t[i] != '"' && t[i] != '{' && t[i] != '}'
  {
  }

  lemma NameSlices(name: string, mid: string, rest: string)
    ensures var s, e := Quoted(name) + mid + ":" + rest, |name| + 2;
            var k := e + |mid|;
            && s[0] == '"' && s[1..] == name + "\"" + (mid + ":" + rest)
            && |s| == k + 1 + |rest| && s[k] == ':' && s[..k] == Quoted(name) + mid && s[k..] == [':'] + rest
            && (forall i :: e <= i < k ==> s[i] == mid[i - e])
  {
  }

  lemma BlanksAreSpace(s: string)
    requires Blanks(s)
    ensures forall i :: 0 <= i < |s| ==> IsSpace(s[i])
  {
  }

  /** At depth one a name is compared with the names seen, and remembered. */
  lemma {:induction false} ScanName(name: string, mid: string, rest: string, seen: set<seq<nat>>)
    requires ValidBody(name) && Blanks(mid)
    ensures Scan(Quoted(name) + mid + ":" + rest, 1, seen)
         == (Decoded(name) in seen || Scan(rest, 1, seen + {Decoded(name)}))
  {
    hide ValidBody, Decoded, End;
    var s, tail := Quoted(name) + mid + ":" + rest, mid + ":" + rest;
    NameSlices(name, mid, rest);
    BodyLength(name, tail);
    var e, k := |name| + 2, |name| + 2 + |mid|;
    ScanString(s, 1, seen);
    BlanksAreSpace(mid);
    assert forall i :: e <= i < k ==> s[i] == mid[i - e] && IsSpace(s[i]);
    assert !IsSpace(s[k]);
    EndIs(s, e, k, IsSpace);
    NameParsed(name, mid);
    ScanChar(':', rest, 1, seen + {Decoded(name)});
  }

  lemma {:induction false} NameParsed(name: string, mid: string)
    requires ValidBody(name)
    ensures ParseName(Quoted(name) + mid) == Decoded(name)
  {
    hide StringLength, ValidBody;
    var s := Quoted(name) + mid;
    assert s[1..] == name + "\"" + mid;
    BodyLength(name, mid);
    assert s[1..|name| + 1] == name;
  }

  // ---------- Values inside the object ----------

  lemma BlanksNoColon(t: string, c: char, rest: string)
    requires Blanks(t) && !IsSpace(c) && c != ':'
    ensures NoColon(t + [c] + rest)
  {
    var s := t + [c] + rest;
    assert forall i :: 0 <= i < |t| ==> s[i] == t[i] && IsBlank(t[i]) && IsSpace(s[i]);
    assert s[|t|] == c;
    assert End(s, 0, IsSpace) == |t|;
  }

  /** Inside the object a whole value is skipped, whatever it holds. */
  lemma {:induction false} ScanValue(v: Value, rest: string, depth: int, seen: set<seq<nat>>)
    requires ValidValue(v) && depth >= 1 && (depth == 1 ==> NoColon(rest))
    ensures Scan(Print(v) + rest, depth, seen) == Scan(rest, depth, seen)
    decreases v, 0
  {
    hide Scan, IsNumber, ValidBody, NoColon, PrintItems, PrintMembers, ValidItems, ValidMembers;
    match v
    case Plain(t) =>
      if t != "true" && t != "false" && t != "null" { NumberFlat(t); }
      ScanFlat(t, rest, depth, seen);
    case Str(body) => ScanValueString(body, rest, depth, seen);
    case Arr(inside, items) =>
      var inner := if items == [] then inside else PrintItems(items);
      assert Print(v) + rest == ['['] + (inner + ("]" + rest));
      ScanChar('[', inner + ("]" + rest), depth, seen);
      if items == [] { ScanBlanks(inside, "]" + rest, depth, seen); } else { ScanItems(items, rest, depth, seen); }
      ScanChar(']', rest, depth, seen);
    case Obj(inside, members) =>
      var inner := if members == [] then inside else PrintMembers(members);
      assert Print(v) + rest == ['{'] + (inner + ("}" + rest));
      ScanChar('{', inner + ("}" + rest), depth, seen);
      if members == [] { ScanBlanks(inside, "}" + rest, depth + 1, seen); } else { ScanMembers(members, rest, depth + 1, seen); }
      ScanChar('}', rest, depth + 1, seen);
  }

  lemma {:induction false} ScanPadded(p: Padded, c: char, rest: string, depth: int, seen: set<seq<nat>>)
    requires ValidPadded(p) && depth >= 1 && !IsSpace(c) && c != ':'
    ensures Scan(PrintPadded(p) + ([c] + rest), depth, seen) == Scan([c] + rest, depth, seen)
    decreases p, 1
  {
    hide Scan, NoColon, IsSpace, Print, ValidValue;
    var tail := [c] + rest;
    assert PrintPadded(p) + tail == p.before + (Print(p.value) + (p.after + tail));
    ScanBlanks(p.before, Print(p.value) + (p.after + tail), depth, seen);
    BlanksNoColon(p.after, c, rest);
    assert p.after + [c] + rest == p.after + tail;
    ScanValue(p.value, p.after + tail, depth, seen);
    ScanBlanks(p.after, tail, depth, seen);
  }

  lemma {:induction false} ScanItems(items: seq<Padded>, rest: string, depth: int, seen: set<seq<nat>>)
    requires items != [] && ValidItems(items) && depth >= 1
    ensures Scan(PrintItems(items) + ("]" + rest), depth, seen) == Scan("]" + rest, depth, seen)
    decreases items, 2
  {
    hide Scan, PrintPadded, ValidPadded;
    assert !IsSpace(']') && !IsSpace(',');
    if |items| == 1 {
      assert PrintItems(items) == PrintPadded(items[0]) + "";
      assert PrintItems(items) + ("]" + rest) == PrintPadded(items[0]) + ([']'] + rest);
      ScanPadded(items[0], ']', rest, depth, seen);
      assert "]" + rest == [']'] + rest;
    } else {
      var more := PrintItems(items[1..]) + ("]" + rest);
      assert PrintItems(items) + ("]" + rest) == PrintPadded(items[0]) + ([','] + more);
      ScanPadded(items[0], ',', more, depth, seen);
      ScanChar(',', more, depth, seen);
      ScanItems(items[1..], rest, depth, seen);
    }
  }

  /** Below the object's own level, names are strings like others. */
  lemma {:induction false} ScanMembers(ms: seq<Member>, rest: string, depth: int, seen: set<seq<nat>>)
    requires ms != [] && ValidMembers(ms) && depth >= 2
    ensures Scan(PrintMembers(ms) + ("}" + rest), depth, seen) == Scan("}" + rest, depth, seen)
    decreases ms, 2
  {
    hide Scan, PrintPadded, ValidPadded, ValidBody, IsSpace;
    var m := ms[0];
    var tail := if |ms| == 1 then "}" + rest else [','] + (PrintMembers(ms[1..]) + ("}" + rest));
    MembersText(ms, rest);
    ScanBlanks(m.before, Quoted(m.name) + m.mid + ":" + (PrintPadded(m.value) + tail), depth, seen);
    var after := m.mid + ":" + (PrintPadded(m.value) + tail);
    assert Quoted(m.name) + m.mid + ":" + (PrintPadded(m.value) + tail) == Quoted(m.name) + after;
    ScanValueString(m.name, after, depth, seen);
    assert after == m.mid + ([':'] + (PrintPadded(m.value) + tail));
    ScanBlanks(m.mid, [':'] + (PrintPadded(m.value) + tail), depth, seen);
    ScanChar(':', PrintPadded(m.value) + tail, depth, seen);
    MemberEnds(m.value, ms, rest, tail, depth, seen);
    if |ms| > 1 {
      ScanChar(',', PrintMembers(ms[1..]) + ("}" + rest), depth, seen);
      ScanMembers(ms[1..], rest, depth, seen);
    }
  }

  lemma {:induction false} MemberEnds(p: Padded, ms: seq<Member>, rest: string, tail: string, depth: int,
                                      seen: set<seq<nat>>)
    requires ms != [] && ValidPadded(p) && depth >= 1
    requires tail == if |ms| == 1 then "}" + rest else [','] + (PrintMembers(ms[1..]) + ("}" + rest))
    ensures Scan(PrintPadded(p) + tail, depth, seen) == Scan(tail, depth, seen)
    decreases p, 2
  {
    hide Scan, PrintPadded, ValidPadded, PrintMembers;
    assert !IsSpace('}') && !IsSpace(',');
    if |ms| == 1 { ScanPadded(p, '}', rest, depth, seen); }
    else { ScanPadded(p, ',', PrintMembers(ms[1..]) + ("}" + rest), depth, seen); }
  }

  /** The text of an object's members, split after the first colon and value. */
  lemma {:induction false} MembersText(ms: seq<Member>, rest: string)
    requires ms != []
    ensures var m := ms[0];
            var tail := if |ms| == 1 then "}" + rest else [','] + (PrintMembers(ms[1..]) + ("}" + rest));
            PrintMembers(ms) + ("}" + rest) == m.before + (Quoted(m.name) + m.mid + ":" + (PrintPadded(m.value) + tail))
  {
    hide *;
    var m, more := ms[0], MoreMembers(ms);
    MembersFirst(ms);
    Grouped(m.before, Quoted(m.name), m.mid, PrintPadded(m.value), more, "}" + rest);
    MoreText(ms, rest);
  }

  function MoreMembers(ms: seq<Member>): string
    requires ms != []
  {
    if |ms| == 1 then "" else "," + PrintMembers(ms[1..])
  }

  lemma {:induction false} MembersFirst(ms: seq<Member>)
    requires ms != []
    ensures var m := ms[0];
            PrintMembers(ms) == m.before + Quoted(m.name) + m.mid + ":" + PrintPadded(m.value) + MoreMembers(ms)
  {
    hide PrintPadded, Quoted;
  }

  lemma MoreText(ms: seq<Member>, rest: string)
    requires ms != []
    ensures MoreMembers(ms) + ("}" + rest) == if |ms| == 1 then "}" + rest else [','] + (PrintMembers(ms[1..]) + ("}" + rest))
  {
    hide PrintMembers;
    if |ms| == 1 { assert "" + ("}" + rest) == "}" + rest; }
  }

  lemma Grouped(a: string, b: string, c: string, d: string, e: string, f: string)
    ensures a + b + c + ":" + d + e + f == a + (b + c + ":" + (d + (e + f)))
  {
    assert a + b + c + ":" + d + e + f == a + b + c + ":" + d + (e + f);
    var x := e + f;
    assert a + b + c + ":" + d + x == a + b + c + ":" + (d + x);
    var y := d + x;
    assert a + b + c + ":" + y == a + (b + c + ":") + y;
    var z := b + c + ":";
    assert a + z + y == a + (z + y);
  }

  // ---------- The scan is exact ----------

  function Names(ms: seq<Member>): (ns: seq<seq<nat>>)
    requires forall i :: 0 <= i < |ms| ==> ValidBody(ms[i].name)
    ensures |ns| == |ms|
  {
    seq(|ms|, i requires 0 <= i < |ms| => Decoded(ms[i].name))
  }

  /** Some two of the members, or one of them and `seen`, have the same decoded name. */
  predicate Repeats(ns: seq<seq<nat>>, seen: set<seq<nat>>) {
    || (exists i :: 0 <= i < |ns| && ns[i] in seen)
    || (exists i, j :: 0 <= i < j < |ns| && ns[i] == ns[j])
  }

  lemma RepeatsFirst(ns: seq<seq<nat>>, seen: set<seq<nat>>)
    requires ns != []
    ensures Repeats(ns, seen) <==> ns[0] in seen || Repeats(ns[1..], seen + {ns[0]})
  {
    var t := ns[1..];
    if Repeats(ns, seen) && ns[0] !in seen {
      if i :| 0 <= i < |ns| && ns[i] in seen {
        assert t[i - 1] in seen + {ns[0]};
      } else {
        var i, j :| 0 <= i < j < |ns| && ns[i] == ns[j];
        if i == 0 { assert t[j - 1] in seen + {ns[0]}; } else { assert t[i - 1] == t[j - 1]; }
      }
    }
    if Repeats(t, seen + {ns[0]}) {
      if i :| 0 <= i < |t| && t[i] in seen + {ns[0]} {
        if t[i] in seen { assert ns[i + 1] in seen; } else { assert ns[0] == ns[i + 1]; }
      } else {
        var i, j :| 0 <= i < j < |t| && t[i] == t[j];
        assert ns[i + 1] == ns[j + 1];
      }
    }
  }

  lemma {:induction false} ValidNames(ms: seq<Member>)
    requires ValidMembers(ms)
    ensures forall i :: 0 <= i < |ms| ==> ValidBody(ms[i].name)
  {
    hide ValidBody, ValidPadded;
    if ms != [] { ValidNames(ms[1..]); }
  }

  lemma {:induction false} ScanTop(ms: seq<Member>, rest: string, seen: set<seq<nat>>)
    requires ms != [] && ValidMembers(ms) && Blanks(rest)
    ensures forall i :: 0 <= i < |ms| ==> ValidBody(ms[i].name)
    ensures Scan(PrintMembers(ms) + ("}" + rest), 1, seen) == Repeats(Names(ms), seen)
    decreases ms
  {
    ValidNames(ms);
    var m := ms[0];
    var tail := if |ms| == 1 then "}" + rest else [','] + (PrintMembers(ms[1..]) + ("}" + rest));
    var seen' := seen + {Decoded(m.name)};
    MembersText(ms, rest);
    ScanBlanks(m.before, Quoted(m.name) + m.mid + ":" + (PrintPadded(m.value) + tail), 1, seen);
    ScanName(m.name, m.mid, PrintPadded(m.value) + tail, seen);
    MemberEnds(m.value, ms, rest, tail, 1, seen');
    RepeatsFirst(Names(ms), seen);
    assert Names(ms)[0] == Decoded(m.name);
    if |ms| == 1 {
      ScanChar('}', rest, 1, seen');
      ScanRest(rest, 0, seen');
      assert Names(ms)[1..] == [];
      assert !Repeats([], seen');
    } else {
      ScanChar(',', PrintMembers(ms[1..]) + ("}" + rest), 1, seen');
      ScanTop(ms[1..], rest, seen');
      assert Names(ms)[1..] == Names(ms[1..]);
    }
  }

  lemma {:induction false} ScanRest(rest: string, depth: int, seen: set<seq<nat>>)
    requires Blanks(rest)
    ensures !Scan(rest, depth, seen)
  {
    ScanBlanks(rest, "", depth, seen);
    assert rest + "" == rest;
  }

  lemma ObjectText(before: string, inside: string, members: seq<Member>, after: string)
    ensures before + Print(Obj(inside, members)) + after
         == before + (['{'] + ((if members == [] then inside else PrintMembers(members)) + ("}" + after)))
  {
    hide PrintMembers;
  }

  lemma NamesRepeat(ms: seq<Member>)
    requires forall i :: 0 <= i < |ms| ==> ValidBody(ms[i].name)
    ensures Repeats(Names(ms), {}) <==> exists i, j :: 0 <= i < j < |ms| && Decoded(ms[i].name) == Decoded(ms[j].name)
  {
    hide ValidBody, Decoded;
    var ns := Names(ms);
    assert forall i :: 0 <= i < |ms| ==> ns[i] == Decoded(ms[i].name);
  }

  /** The scan is exact: for every JSON text whose value is an object, with white space anywhere,
      it answers yes exactly when two members of that object have the same decoded name, whatever
      is nested in strings, arrays and inner objects. */
  lemma {:induction false} ScanExact(before: string, inside: string, members: seq<Member>, after: string)
    requires Blanks(before) && ValidValue(Obj(inside, members)) && Blanks(after)
    ensures forall i :: 0 <= i < |members| ==> ValidBody(members[i].name)
    ensures Scan(before + Print(Obj(inside, members)) + after, 0, {})
       <==> exists i, j :: 0 <= i < j < |members| && Decoded(members[i].name) == Decoded(members[j].name)
  {
    ValidNames(members);
    var tail := (if members == [] then inside else PrintMembers(members)) + ("}" + after);
    ObjectText(before, inside, members, after);
    ScanBlanks(before, ['{'] + tail, 0, {});
    ScanChar('{', tail, 0, {});
    if members == [] {
      ScanBlanks(inside, "}" + after, 1, {});
      ScanChar('}', after, 1, {});
      ScanRest(after, 0, {});
    } else {
      ScanTop(members, after, {});
      NamesRepeat(members);
    }
  }
}
