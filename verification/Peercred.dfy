/** The peer-credential helper: decimal numbers and `/etc/group` lookup over fixed buffers, and
    the one line it writes. A `char` is a byte; the machine's unsigned long has 64 bits. */
module Peercred {
  import opened Text

  const MAX_ULONG := 0xFFFF_FFFF_FFFF_FFFF

  // ---------- Decimal numbers ----------

  predicate AllDigits(s: string) { forall i :: 0 <= i < |s| ==> IsDigit(s[i]) }

  function DigitValue(c: char): (n: nat)
    requires IsDigit(c)
    ensures n < 10
  {
    c as int - '0' as int
  }

  /** The number that a string of digits stands for. */
  function ValueOf(s: string): nat
    requires AllDigits(s)
  {
    if s == "" then 0 else ValueOf(s[..|s| - 1]) * 10 + DigitValue(s[|s| - 1])
  }

  function DigitChar(n: nat): (c: char)
    requires n < 10
    ensures IsDigit(c) && DigitValue(c) == n
  {
    ('0' as int + n) as char
  }

  function Decimal(n: nat): (s: string)
    ensures s != "" && AllDigits(s)
  {
    if n < 10 then [DigitChar(n)] else Decimal(n / 10) + [DigitChar(n % 10)]
  }

  /** Printing and reading are inverse: every number, and every string of digits without a leading
      zero. */
  lemma {:induction false} DecimalInverse(n: nat)
    ensures ValueOf(Decimal(n)) == n
    ensures Decimal(n)[0] == '0' ==> n == 0
  {
    if n < 10 {
      assert ValueOf("") == 0;
      assert Decimal(n)[..0] == "";
    } else {
      DecimalInverse(n / 10);
      assert Decimal(n)[..|Decimal(n)| - 1] == Decimal(n / 10);
    }
  }

  lemma {:induction false} ValueInverse(s: string)
    requires s != "" && AllDigits(s) && (s[0] == '0' ==> |s| == 1)
    ensures Decimal(ValueOf(s)) == s
  {
    var front, last := s[..|s| - 1], s[|s| - 1];
    if front == "" {
      assert ValueOf(s) == DigitValue(last);
      assert s == [last];
    } else {
      ValueInverse(front);
      ValuePositive(front);
      assert s == front + [last];
    }
  }

  lemma {:induction false} ValuePositive(s: string)
    requires s != "" && AllDigits(s) && s[0] != '0'
    ensures ValueOf(s) > 0
  {
    if |s| > 1 { ValuePositive(s[..|s| - 1]); }
  }

  lemma {:induction false} ValueGrows(s: string, k: nat)
    requires AllDigits(s) && k <= |s|
    ensures ValueOf(s[..k]) <= ValueOf(s)
    decreases |s| - k
  {
    if k < |s| {
      ValueGrows(s, k + 1);
      assert s[..k + 1][..k] == s[..k];
    } else {
      assert s[..k] == s;
    }
  }

  /** What `parse_uint` accepts: digits, at least one, with a value that an unsigned long holds. */
  predicate Parses(s: string) { s != "" && AllDigits(s) && ValueOf(s) <= MAX_ULONG }

  /** `parse_uint` on the bytes from `begin` to `end`. */
  method ParseUint(text: array<char>, begin: nat, end: nat) returns (ok: bool, value: nat)
    requires begin <= end <= text.Length
    ensures ok <==> Parses(text[begin..end])
    ensures ok ==> value == ValueOf(text[begin..end])
  {
    value := 0;
    if begin == end {
      return false, 0;
    }
    var parsed := 0;
    ghost var s := text[begin..end];
    var cursor := begin;
    while cursor != end
      invariant begin <= cursor <= end && AllDigits(s[..cursor - begin])
      invariant parsed == ValueOf(s[..cursor - begin]) <= MAX_ULONG
      decreases end - cursor
    {
      ghost var k := cursor - begin;
      var c := text[cursor];
      assert s[k] == c;
      if c < '0' || c > '9' {
        assert !AllDigits(s);
        return false, 0;
      }
      var digit := DigitValue(c);
      assert s[..k + 1] == s[..k] + [c];
      assert s[..k + 1][..k] == s[..k];
      if parsed > (MAX_ULONG - digit) / 10 {
        if AllDigits(s) { ValueGrows(s, k + 1); }
        return false, 0;
      }
      parsed := parsed * 10 + digit;
      cursor := cursor + 1;
    }
    assert s[..end - begin] == s;
    return true, parsed;
  }

  // ---------- Appending to the output ----------

  /** What an append that wrote `text` or failed leaves behind: what was there, and after it, in the
      end, the whole text; nothing new when the length is past the capacity already. */
  twostate predicate Appended(output: array<char>, length: nat, text: string, ok: bool, length': nat)
    reads output
  {
    if length > output.Length then
      !ok && length' == length && output[..] == old(output[..])
    else
      && length <= length' <= output.Length && output[..length] == old(output[..length])
      && (ok ==> length' == length + |text| && output[..length'] == old(output[..length]) + text)
  }

  method AppendBytes(output: array<char>, length: nat, value: seq<char>) returns (ok: bool, length': nat)
    modifies output
    ensures ok <==> length + |value| <= output.Length
    ensures Appended(output, length, value, ok, length')
    ensures !ok ==> length' == length && output[..] == old(output[..])
  {
    if length > output.Length || |value| > output.Length - length {
      return false, length;
    }
    var index := 0;
    while index < |value|
      invariant index <= |value|
      invariant output[..length + index] == old(output[..length]) + value[..index]
      decreases |value| - index
    {
      output[length + index] := value[index];
      assert output[..length + index + 1] == output[..length + index] + [value[index]];
      index := index + 1;
    }
    assert value[..|value|] == value;
    assert output[..length] == output[..length + |value|][..length];
    return true, length + |value|;
  }

  method AppendChar(output: array<char>, length: nat, value: char) returns (ok: bool, length': nat)
    modifies output
    ensures ok <==> length < output.Length
    ensures Appended(output, length, [value], ok, length')
    ensures !ok ==> length' == length && output[..] == old(output[..])
  {
    ok, length' := AppendBytes(output, length, [value]);
  }

  lemma {:induction false} DecimalLength(n: nat, k: nat)
    requires k > 0 && n < Power(k)
    ensures |Decimal(n)| <= k
  {
    if n >= 10 {
      assert k > 1;
      DecimalLength(n / 10, k - 1);
    }
  }

  function Power(k: nat): nat { if k == 0 then 1 else 10 * Power(k - 1) }

  lemma UlongShort()
    ensures MAX_ULONG < Power(20)
  {
    assert Power(5) == 100_000;
    assert Power(10) == 100_000 * Power(5);
    assert Power(15) == 100_000 * Power(10);
    assert Power(20) == 100_000 * Power(15);
  }

  /** The first loop of `append_uint`: the digits from the last to the first, in a buffer of 32. */
  method ProduceDigits(value: nat) returns (digits: array<char>, count: nat)
    requires value <= MAX_ULONG
    ensures fresh(digits) && count == |Decimal(value)| <= digits.Length
    ensures forall i :: 0 <= i < count ==> digits[i] == Decimal(value)[count - 1 - i]
  {
    digits := new char[32];
    UlongShort();
    DecimalLength(value, 20);
    var left: nat := value / 10;
    digits[0], count := DigitChar(value % 10), 1;
    DecimalStep(value);
    while left != 0 && count < 32
      invariant 1 <= count <= |Decimal(value)| <= 20
      invariant left == 0 ==> count == |Decimal(value)|
      invariant left != 0 ==> count < |Decimal(value)| && Decimal(left) == Decimal(value)[..|Decimal(value)| - count]
      invariant forall i :: 0 <= i < count ==> digits[i] == Decimal(value)[|Decimal(value)| - 1 - i]
      decreases left
    {
      DecimalStep(left);
      digits[count] := DigitChar(left % 10);
      assert digits[count] == Decimal(value)[|Decimal(value)| - 1 - count];
      count, left := count + 1, left / 10;
    }
  }

  lemma {:induction false} DecimalStep(n: nat)
    ensures var d := Decimal(n);
            d[|d| - 1] == DigitChar(n % 10) && (if n < 10 then |d| == 1 else |d| > 1 && d[..|d| - 1] == Decimal(n / 10))
  {
    if n >= 10 { assert (Decimal(n / 10) + [DigitChar(n % 10)])[..|Decimal(n / 10)|] == Decimal(n / 10); }
  }

  /** `append_uint` */
  method AppendUint(output: array<char>, length: nat, value: nat) returns (ok: bool, length': nat)
    requires value <= MAX_ULONG
    modifies output
    ensures ok <==> length + |Decimal(value)| <= output.Length
    ensures Appended(output, length, Decimal(value), ok, length')
  {
    hide Decimal;
    var digits, count := ProduceDigits(value);
    ghost var all, n := Decimal(value), count;
    length' := length;
    while count > 0
      invariant 0 <= count <= n == |all| <= digits.Length && length' == length + (n - count)
      invariant forall i :: 0 <= i < n ==> digits[i] == all[n - 1 - i]
      invariant if length > output.Length then count == n && output[..] == old(output[..])
                else length' <= output.Length && output[..length'] == old(output[..length]) + all[..n - count]
      decreases count
    {
      count := count - 1;
      ok, length' := AppendChar(output, length', digits[count]);
      if !ok {
        assert length <= output.Length ==> output[..length] == output[..length'][..length];
        return false, length';
      }
      assert all[..n - count] == all[..n - count - 1] + [all[n - count - 1]];
    }
    assert all[..n] == all;
    assert output[..length] == output[..length'][..length];
    ok := true;
  }

  // ---------- The group file ----------

  predicate IsGroupChar(c: char) { IsLetter(c) || IsDigit(c) || c == '_' || c == '-' || c == '.' || c == '+' }

  /** A name that is one token of the output. */
  predicate SafeName(s: string) { 0 < |s| <= 64 && forall i :: 0 <= i < |s| ==> IsGroupChar(s[i]) }

  method SafeGroupName(text: array<char>, begin: nat, end: nat) returns (safe: bool)
    requires begin <= end <= text.Length
    ensures safe == SafeName(text[begin..end])
  {
    if begin == end || end - begin > 64 {
      return false;
    }
    var index := begin;
    while index < end
      invariant begin <= index <= end && forall i :: 0 <= i < index - begin ==> IsGroupChar(text[begin..end][i])
      decreases end - index
    {
      assert text[begin..end][index - begin] == text[index];
      if !IsGroupChar(text[index]) {
        return false;
      }
      index := index + 1;
    }
    return true;
  }

  function Not(sep: char): char -> bool { (c: char) => c != sep }

  /** The parts of `s` between occurrences of `sep`. */
  function SplitAt(s: string, sep: char): (parts: seq<string>)
    ensures parts != []
    decreases |s|
  {
    var n := End(s, 0, Not(sep));
    if n == |s| then [s] else [s[..n]] + SplitAt(s[n + 1..], sep)
  }

  /** A line whose third field is the group id, whose name is safe and fits a buffer of this size,
      and which has a fourth field. */
  predicate Names(line: string, id: nat, capacity: nat) {
    var fields := SplitAt(line, ':');
    && |fields| >= 4 && Parses(fields[2]) && ValueOf(fields[2]) == id
    && SafeName(fields[0]) && |fields[0]| < capacity
  }

  /** The name on the first line that names this group. */
  function FirstName(lines: seq<string>, id: nat, capacity: nat): Option<string> {
    if lines == [] then None
    else if Names(lines[0], id, capacity) then Some(SplitAt(lines[0], ':')[0])
    else FirstName(lines[1..], id, capacity)
  }

  /** The local name of a group, by splitting the file into lines and its lines into fields. */
  function GroupName(file: string, id: nat, capacity: nat): Option<string> {
    FirstName(SplitAt(file, '\n'), id, capacity)
  }

  lemma {:induction false} SplitFirst(s: string, n: nat, sep: char)
    requires n <= |s| && (forall i :: 0 <= i < n ==> s[i] != sep) && (n < |s| ==> s[n] == sep)
    ensures SplitAt(s, sep) == if n == |s| then [s] else [s[..n]] + SplitAt(s[n + 1..], sep)
  {
    EndIs(s, 0, n, Not(sep));
  }

  /** The first `c` from `begin` on, or `end`. */
  method Find(text: array<char>, begin: nat, end: nat, c: char) returns (at: nat)
    requires begin <= end <= text.Length
    ensures begin <= at <= end && (forall i :: begin <= i < at ==> text[i] != c) && (at < end ==> text[at] == c)
  {
    at := begin;
    while at < end && text[at] != c
      invariant begin <= at <= end && forall i :: begin <= i < at ==> text[i] != c
      decreases end - at
    {
      at := at + 1;
    }
  }

  /** The field that ends at `b`, and what follows it, in a line from `a` on. */
  lemma NextField(line: string, a: nat, b: nat)
    requires a <= b < |line| && line[b] == ':' && forall i :: a <= i < b ==> line[i] != ':'
    ensures SplitAt(line[a..], ':') == [line[a..b]] + SplitAt(line[b + 1..], ':')
  {
    hide SplitAt;
    var x := line[a..];
    assert forall i :: 0 <= i < b - a ==> x[i] == line[a + i];
    assert x[b - a] == ':';
    SplitFirst(x, b - a, ':');
    assert x[..b - a] == line[a..b] && x[b - a + 1..] == line[b + 1..];
  }

  /** The first three fields of a line that has four or more. */
  lemma {:induction false} FourFields(line: string, a: nat, b: nat, c: nat)
    requires a < b < c < |line| && line[a] == ':' && line[b] == ':' && line[c] == ':'
    requires forall i :: 0 <= i < c && i != a && i != b ==> line[i] != ':'
    ensures var fields := SplitAt(line, ':');
            |fields| >= 4 && fields[0] == line[..a] && fields[2] == line[b + 1..c]
  {
    hide SplitAt;
    assert line[0..] == line && line[0..a] == line[..a];
    NextField(line, 0, a);
    NextField(line, a + 1, b);
    NextField(line, b + 1, c);
  }

  /** A line with fewer than three colons names nothing. */
  lemma FewFields(line: string, a: nat, b: nat, c: nat, id: nat, capacity: nat)
    requires a <= b <= c <= |line| && (forall i :: 0 <= i < c && i != a && i != b ==> line[i] != ':')
    requires a == |line| || (line[a] == ':' && a < b && (b == |line| || (line[b] == ':' && c == |line|)))
    ensures !Names(line, id, capacity)
  {
    hide SplitAt, Parses, SafeName;
    SplitFirst(line, a, ':');
    if a < |line| {
      var x := line[a + 1..];
      assert forall i :: 0 <= i < b - a - 1 ==> x[i] == line[a + 1 + i];
      SplitFirst(x, b - a - 1, ':');
      if b < |line| {
        assert x[b - a..] == line[b + 1..];
        var y := line[b + 1..];
        assert forall i :: 0 <= i < |y| ==> y[i] == line[b + 1 + i];
        SplitFirst(y, |y|, ':');
      }
    }
  }

  /** One line: its name, when it is the line looked for. */
  method LineNames(file: array<char>, begin: nat, end: nat, id: nat, capacity: nat) returns (found: bool, nameEnd: nat)
    requires begin <= end <= file.Length
    ensures found == Names(file[begin..end], id, capacity)
    ensures begin <= nameEnd <= end
    ensures found ==> file[begin..nameEnd] == SplitAt(file[begin..end], ':')[0]
  {
    hide SplitAt, Parses, ValueOf;
    ghost var line := file[begin..end];
    nameEnd := Find(file, begin, end, ':');
    if nameEnd == end {
      FewFields(line, |line|, |line|, |line|, id, capacity);
      return false, nameEnd;
    }
    var passwordEnd := Find(file, nameEnd + 1, end, ':');
    if passwordEnd == end {
      FewFields(line, nameEnd - begin, |line|, |line|, id, capacity);
      return false, nameEnd;
    }
    var gidEnd := Find(file, passwordEnd + 1, end, ':');
    if gidEnd == end {
      FewFields(line, nameEnd - begin, passwordEnd - begin, |line|, id, capacity);
      return false, nameEnd;
    }
    FourFields(line, nameEnd - begin, passwordEnd - begin, gidEnd - begin);
    assert line[..nameEnd - begin] == file[begin..nameEnd];
    assert line[passwordEnd + 1 - begin..gidEnd - begin] == file[passwordEnd + 1..gidEnd];
    var ok, value := ParseUint(file, passwordEnd + 1, gidEnd);
    var safe := SafeGroupName(file, begin, nameEnd);
    found := ok && value == id && safe && nameEnd - begin < capacity;
  }

  lemma {:induction false} FirstNameStep(line: string, lines: seq<string>, id: nat, capacity: nat)
    ensures FirstName([line] + lines, id, capacity)
         == if Names(line, id, capacity) then Some(SplitAt(line, ':')[0]) else FirstName(lines, id, capacity)
  {
    hide Names, SplitAt;
    assert ([line] + lines)[1..] == lines;
  }

  lemma LinesFrom(file: string, begin: nat, end: nat, id: nat, capacity: nat)
    requires begin <= end <= |file| && (forall i :: begin <= i < end ==> file[i] != '\n') && (end < |file| ==> file[end] == '\n')
    ensures GroupName(file[begin..], id, capacity)
         == if Names(file[begin..end], id, capacity) then Some(SplitAt(file[begin..end], ':')[0])
            else if end < |file| then GroupName(file[end + 1..], id, capacity) else None
  {
    hide SplitAt;
    var s, n := file[begin..], end - begin;
    assert forall i :: 0 <= i < n ==> s[i] == file[begin + i];
    SplitFirst(s, n, '\n');
    assert s[..n] == file[begin..end];
    if end < |file| {
      assert s[n] == file[end] && s[n + 1..] == file[end + 1..];
      FirstNameStep(file[begin..end], SplitAt(s[n + 1..], '\n'), id, capacity);
    } else {
      assert s == file[begin..end] && [s] + [] == [s];
      FirstNameStep(s, [], id, capacity);
      assert FirstName([], id, capacity) == None;
    }
  }

  lemma NothingNamed(id: nat, capacity: nat)
    ensures GroupName("", id, capacity) == None
  {
    SplitFirst("", 0, '\n');
    SplitFirst("", 0, ':');
    var none: seq<string> := [];
    assert [""][1..] == none && FirstName(none, id, capacity) == None;
  }

  /** `resolve_local_group_name`: the first matching line of the file, whose name is copied with a
      zero byte after it. Nothing outside the buffers is read or written. */
  method ResolveLocalGroupName(id: nat, file: array<char>, length: nat, name: array<char>) returns (found: bool)
    requires length <= file.Length && name != file
    modifies name
    ensures found == GroupName(file[..length], id, name.Length).Some?
    ensures found ==>
              var token := GroupName(file[..length], id, name.Length).value;
              |token| < name.Length && name[..|token|] == token && name[|token|] == '\0' && SafeName(token)
  {
    hide SplitAt;
    ghost var text := file[..length];
    assert text[0..] == text;
    var lineStart := 0;
    while lineStart < length
      invariant 0 <= lineStart <= length + 1 && file[..length] == text
      invariant GroupName(text, id, name.Length)
             == if lineStart <= length then GroupName(text[lineStart..], id, name.Length) else None
      decreases length + 1 - lineStart
    {
      var lineEnd := Find(file, lineStart, length, '\n');
      LinesFrom(text, lineStart, lineEnd, id, name.Length);
      assert text[lineStart..lineEnd] == file[lineStart..lineEnd];
      var names, nameEnd := LineNames(file, lineStart, lineEnd, id, name.Length);
      if names {
        ghost var token := SplitAt(file[lineStart..lineEnd], ':')[0];
        assert |token| < name.Length && SafeName(token);
        var n := nameEnd - lineStart;
        for index := 0 to n
          invariant file[..length] == text && name[..index] == token[..index]
        {
          name[index] := file[lineStart + index];
          assert token[index] == file[lineStart..nameEnd][index];
        }
        name[n] := '\0';
        assert name[..n] == token;
        return true;
      }
      lineStart := lineEnd + 1;
    }
    if lineStart == length {
      assert text[length..] == "";
      NothingNamed(id, name.Length);
    }
    found := false;
  }

  // ---------- The output line ----------

  const MAX_GROUPS := 64

  /** How one group is written: its local name, or its number. */
  function Token(file: string, id: nat): (t: string)
    ensures SafeName(t) || AllDigits(t)
  {
    match GroupName(file, id, 65)
    case Some(name) => NamedSafe(file, id, 65); name
    case None => Decimal(id)
  }

  lemma NamedSafe(file: string, id: nat, capacity: nat)
    ensures GroupName(file, id, capacity).Some? ==> SafeName(GroupName(file, id, capacity).value)
  {
    FirstSafe(SplitAt(file, '\n'), id, capacity);
  }

  lemma {:induction false} FirstSafe(lines: seq<string>, id: nat, capacity: nat)
    ensures FirstName(lines, id, capacity).Some? ==> SafeName(FirstName(lines, id, capacity).value)
  {
    if lines != [] { FirstSafe(lines[1..], id, capacity); }
  }

  /** A space and a token for each group. */
  function GroupsText(file: string, groups: seq<nat>): string {
    if groups == [] then "" else GroupsText(file, groups[..|groups| - 1]) + " " + Token(file, groups[|groups| - 1])
  }

  /** `string_length`, which needs a zero byte. */
  method StringLength(value: array<char>, ghost end: nat) returns (length: nat)
    requires end < value.Length && value[end] == '\0'
    ensures length <= end && value[length] == '\0' && forall i :: 0 <= i < length ==> value[i] != '\0'
  {
    length := 0;
    while value[length] != '\0'
      invariant length <= end && forall i :: 0 <= i < length ==> value[i] != '\0'
      decreases end - length
    {
      length := length + 1;
    }
  }

  /** `append_peer_groups`, given the groups of the socket. */
  method AppendPeerGroups(output: array<char>, length: nat, groups: seq<nat>, file: array<char>, fileLength: nat)
    returns (ok: bool, length': nat)
    requires fileLength <= file.Length && output != file
    requires forall i :: 0 <= i < |groups| ==> groups[i] <= 0xFFFF_FFFF
    modifies output
    ensures ok <==> 0 < |groups| <= MAX_GROUPS && length + |GroupsText(file[..fileLength], groups)| <= output.Length
    ensures Appended(output, length, GroupsText(file[..fileLength], groups), ok, length')
  {
    hide Token;
    ghost var text := file[..fileLength];
    assert GroupsText(text, groups[..0]) == "";
    length' := length;
    if |groups| == 0 || |groups| > MAX_GROUPS {
      return false, length;
    }
    var index := 0;
    while index < |groups|
      invariant 0 <= index <= |groups| && file[..fileLength] == text
      invariant length' == length + |GroupsText(text, groups[..index])|
      invariant if length > output.Length then index == 0 && output[..] == old(output[..])
                else length' <= output.Length && output[..length'] == old(output[..length]) + GroupsText(text, groups[..index])
      decreases |groups| - index
    {
      GroupsStep(text, groups, index);
      ok, length' := AppendGroup(output, length', groups[index], file, fileLength);
      if !ok {
        assert length <= output.Length ==> output[..length] == output[..length'][..length];
        GroupsLonger(text, groups, index + 1);
        return false, length';
      }
      index := index + 1;
    }
    assert groups[..|groups|] == groups;
    assert output[..length] == output[..length'][..length];
    ok := true;
  }

  lemma {:induction false} GroupsStep(file: string, groups: seq<nat>, index: nat)
    requires index < |groups|
    ensures GroupsText(file, groups[..index + 1]) == GroupsText(file, groups[..index]) + (" " + Token(file, groups[index]))
  {
    hide Token;
    assert groups[..index + 1][..index] == groups[..index];
  }

  lemma {:induction false} GroupsLonger(file: string, groups: seq<nat>, index: nat)
    requires index <= |groups|
    ensures |GroupsText(file, groups[..index])| <= |GroupsText(file, groups)|
    decreases |groups| - index
  {
    if index < |groups| {
      GroupsStep(file, groups, index);
      GroupsLonger(file, groups, index + 1);
    } else {
      assert groups[..index] == groups;
    }
  }

  /** One group: a space, then its name or its number. */
  method AppendGroup(output: array<char>, length: nat, id: nat, file: array<char>,
                     fileLength: nat) returns (ok: bool, length': nat)
    requires fileLength <= file.Length && output != file && id <= 0xFFFF_FFFF
    modifies output
    ensures ok <==> length + |" " + Token(file[..fileLength], id)| <= output.Length
    ensures Appended(output, length, " " + Token(file[..fileLength], id), ok, length')
  {
    hide GroupName, Decimal;
    ghost var text := file[..fileLength];
    var name := new char[65];
    ok, length' := AppendChar(output, length, ' ');
    if !ok {
      return;
    }
    ghost var spaced := output[..length'];
    var found := ResolveLocalGroupName(id, file, fileLength, name);
    if found {
      ghost var token := GroupName(text, id, 65).value;
      var n := StringLength(name, |token|);
      assert n == |token| by { assert forall i :: 0 <= i < |token| ==> name[i] == token[i] && IsGroupChar(token[i]); }
      ok, length' := AppendBytes(output, length', name[..n]);
    } else {
      ok, length' := AppendUint(output, length', id);
    }
    assert spaced[..length] == output[..length];
  }

  function Identity(uid: nat, gid: nat, pid: nat): string { Decimal(uid) + " " + Decimal(gid) + " " + Decimal(pid) }

  /** The whole output: user, group and process, then the groups. */
  function Line(file: string, uid: nat, gid: nat, pid: nat, groups: seq<nat>): string {
    Identity(uid, gid, pid) + GroupsText(file, groups) + "\n"
  }

  method AppendIdentity(output: array<char>, uid: nat, gid: nat, pid: nat) returns (ok: bool, length: nat)
    requires uid <= 0xFFFF_FFFF && gid <= 0xFFFF_FFFF && pid <= 0x7FFF_FFFF
    modifies output
    ensures ok <==> |Identity(uid, gid, pid)| <= output.Length
    ensures length <= output.Length && (ok ==> output[..length] == Identity(uid, gid, pid))
  {
    hide Decimal;
    length := 0;
    ok, length := AppendUint(output, length, uid);
    if !ok { return; }
    ok, length := AppendChar(output, length, ' ');
    if !ok { return; }
    ok, length := AppendUint(output, length, gid);
    if !ok { return; }
    ok, length := AppendChar(output, length, ' ');
    if !ok { return; }
    ok, length := AppendUint(output, length, pid);
  }

  /** The output is assembled whole, or not at all. */
  method AssembleLine(output: array<char>, uid: nat, gid: nat, pid: nat, groups: seq<nat>, file: array<char>,
                      fileLength: nat)
    returns (ok: bool, length: nat)
    requires fileLength <= file.Length && output != file
    requires uid <= 0xFFFF_FFFF && gid <= 0xFFFF_FFFF && pid <= 0x7FFF_FFFF
    requires forall i :: 0 <= i < |groups| ==> groups[i] <= 0xFFFF_FFFF
    modifies output
    ensures ok <==> 0 < |groups| <= MAX_GROUPS && |Line(file[..fileLength], uid, gid, pid, groups)| <= output.Length
    ensures ok ==> length <= output.Length && output[..length] == Line(file[..fileLength], uid, gid, pid, groups)
  {
    hide Identity, GroupsText;
    ok, length := AppendIdentity(output, uid, gid, pid);
    if !ok { return; }
    ok, length := AppendPeerGroups(output, length, groups, file, fileLength);
    if !ok { return; }
    ok, length := AppendChar(output, length, '\n');
  }

  function Tokens(file: string, groups: seq<nat>): seq<string> {
    seq(|groups|, i requires 0 <= i < |groups| => Token(file, groups[i]))
  }

  lemma TokenSolid(file: string, id: nat)
    ensures forall i :: 0 <= i < |Token(file, id)| ==> Token(file, id)[i] != ' '
  {
    hide GroupName, Decimal;
  }

  /** One more token at the end of a line is one more part of it. */
  lemma {:induction false} SplitLast(s: string, t: string)
    requires forall i :: 0 <= i < |t| ==> t[i] != ' '
    ensures SplitAt(s + " " + t, ' ') == SplitAt(s, ' ') + [t]
    decreases |s|
  {
    hide SplitAt;
    var n := End(s, 0, Not(' '));
    var whole := s + " " + t;
    assert forall i :: 0 <= i < n ==> whole[i] == s[i] && Not(' ')(s[i]);
    SplitFirst(s, n, ' ');
    if n == |s| {
      assert whole[n] == ' ' && whole[..n] == s && whole[n + 1..] == t;
      SplitFirst(whole, n, ' ');
      SplitFirst(t, |t|, ' ');
    } else {
      assert whole[n] == s[n] && whole[..n] == s[..n] && whole[n + 1..] == s[n + 1..] + " " + t;
      SplitFirst(whole, n, ' ');
      SplitLast(s[n + 1..], t);
    }
  }

  lemma {:induction false} GroupTokens(front: string, file: string, groups: seq<nat>)
    ensures SplitAt(front + GroupsText(file, groups), ' ') == SplitAt(front, ' ') + Tokens(file, groups)
    decreases |groups|
  {
    hide SplitAt, Token;
    if groups == [] {
      assert front + "" == front && SplitAt(front, ' ') + [] == SplitAt(front, ' ');
    } else {
      var n := |groups| - 1;
      GroupTokens(front, file, groups[..n]);
      TokenSolid(file, groups[n]);
      var before := front + GroupsText(file, groups[..n]);
      assert front + GroupsText(file, groups) == before + " " + Token(file, groups[n]);
      SplitLast(before, Token(file, groups[n]));
      assert Tokens(file, groups) == Tokens(file, groups[..n]) + [Token(file, groups[n])];
    }
  }

  /** The line splits back into what it was made of: no group name, whatever the file holds, adds
      or breaks a token, and the numbers are read back as they were. */
  lemma {:induction false} LineTokens(file: string, uid: nat, gid: nat, pid: nat, groups: seq<nat>)
    ensures var line := Line(file, uid, gid, pid, groups);
            && SplitAt(line[..|line| - 1], ' ') == [Decimal(uid), Decimal(gid), Decimal(pid)] + Tokens(file, groups)
            && ValueOf(Decimal(uid)) == uid && ValueOf(Decimal(gid)) == gid && ValueOf(Decimal(pid)) == pid
  {
    hide SplitAt, Decimal, GroupsText;
    DecimalInverse(uid);
    DecimalInverse(gid);
    DecimalInverse(pid);
    assert forall i :: 0 <= i < |Decimal(uid)| ==> IsDigit(Decimal(uid)[i]);
    SplitFirst(Decimal(uid), |Decimal(uid)|, ' ');
    SplitLast(Decimal(uid), Decimal(gid));
    SplitLast(Decimal(uid) + " " + Decimal(gid), Decimal(pid));
    var front := Decimal(uid) + " " + Decimal(gid) + " " + Decimal(pid);
    GroupTokens(front, file, groups);
    var line := Line(file, uid, gid, pid, groups);
    assert line[..|line| - 1] == front + GroupsText(file, groups);
  }
}
