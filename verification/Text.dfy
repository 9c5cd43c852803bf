/** Characters and strings as both note codecs see them: JavaScript strings without lone
    surrogates, which both codecs refuse, are sequences of Unicode scalar values. */
module Text {

  datatype Option<+T> = None | Some(value: T)

  datatype Result<+T, +E> = Ok(value: T) | Err(error: E) {
    predicate IsFailure() { Err? }

    function PropagateFailure<U>(): Result<U, E>
      requires Err?
    {
      Err(error)
    }

    function Extract(): T
      requires Ok?
    {
      value
    }
  }

  /** What `\s` and `trim` treat as white space. */
  predicate IsSpace(c: char) {
    var n := c as int;
    9 <= n <= 13 || n == 32 || n == 0xA0 || n == 0x1680 || 0x2000 <= n <= 0x200A ||
    n == 0x2028 || n == 0x2029 || n == 0x202F || n == 0x205F || n == 0x3000 || n == 0xFEFF
  }

  predicate NotSpace(c: char) { !IsSpace(c) }

  /** Neither codec lets another character pass. */
  predicate CleanChar(c: char) {
    var n := c as int;
    (n >= 32 || n == 9 || n == 10) && n != 127
  }

  predicate CleanText(s: string) { forall i :: 0 <= i < |s| ==> CleanChar(s[i]) }

  lemma CleanBoth(a: string, b: string)
    ensures CleanText(a + b) <==> CleanText(a) && CleanText(b)
  {
    hide CleanChar;
    if CleanText(a + b) {
      assert forall i :: 0 <= i < |a| ==> a[i] == (a + b)[i];
      assert forall i :: 0 <= i < |b| ==> b[i] == (a + b)[|a| + i];
    }
  }

  predicate IsDigit(c: char) { '0' <= c <= '9' }

  predicate IsHexDigit(c: char) { IsDigit(c) || 'a' <= c <= 'f' || 'A' <= c <= 'F' }

  function HexValue(c: char): (n: nat)
    requires IsHexDigit(c)
  {
    if IsDigit(c) then c as int - '0' as int else LowerChar(c) as int - 'a' as int + 10
  }

  predicate IsLetter(c: char) { 'a' <= c <= 'z' || 'A' <= c <= 'Z' }

  predicate IsWord(c: char) { IsLetter(c) || IsDigit(c) }

  function LowerChar(c: char): char {
    if 'A' <= c <= 'Z' then ((c as int) + 32) as char else c
  }

  /** ASCII lower-casing; every string it is applied to has matched an ASCII pattern. */
  function Lower(s: string): (r: string)
    ensures |r| == |s|
  {
    seq(|s|, i requires 0 <= i < |s| => LowerChar(s[i]))
  }

  /** Where the run of characters satisfying `p` that starts at `i` ends. */
  function End(s: string, i: nat, p: char -> bool): (e: nat)
    requires i <= |s|
    ensures i <= e <= |s|
    ensures forall k :: i <= k < e ==> p(s[k])
    ensures e < |s| ==> !p(s[e])
    decreases |s| - i
  {
    if i < |s| && p(s[i]) then End(s, i + 1, p) else i
  }

  /** No other place ends the run. */
  lemma EndIs(s: string, i: nat, e: nat, p: char -> bool)
    requires i <= e <= |s| && (forall k :: i <= k < e ==> p(s[k])) && (e < |s| ==> !p(s[e]))
    ensures End(s, i, p) == e
  {
  }

  /** `trim()` leaves nothing. */
  predicate Blank(s: string) { forall c :: c in s ==> IsSpace(c) }

  predicate StartsWith(s: string, p: string) { p <= s }

  /** UTF-8 length, as `Buffer.byteLength` counts it. */
  function Utf8(s: string): (n: nat)
    ensures n >= |s|
  {
    if s == [] then 0 else Utf8Char(s[0]) + Utf8(s[1..])
  }

  function Utf8Char(c: char): (n: nat)
    ensures 1 <= n <= 4
  {
    var k := c as int;
    if k < 0x80 then 1 else if k < 0x800 then 2 else if k < 0x10000 then 3 else 4
  }

  /** `length` of a JavaScript string. */
  function Utf16(s: string): nat {
    if s == "" then 0 else (if s[0] as int < 0x10000 then 1 else 2) + Utf16(s[1..])
  }
}
