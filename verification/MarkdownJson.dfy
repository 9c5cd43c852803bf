/** The JSON of table bodies and list titles. Only the canonical spelling is accepted, so reading
    is the exact inverse of printing. Strings hold no control characters but tab and newline:
    the scan of the whole text refuses the others. */
module MarkdownJson {
  import opened Text

  function QuoteChar(c: char): string {
    if c == '"' then "\\\"" else if c == '\\' then "\\\\"
    else if c == '\n' then "\\n" else if c == '\t' then "\\t"
    else [c]
  }

  function QuoteBody(s: string): string {
    if s == "" then "" else QuoteChar(s[0]) + QuoteBody(s[1..])
  }

  function Quote(s: string): string { "\"" + QuoteBody(s) + "\"" }

  predicate Plain(c: char) { c as int >= 32 || c == '\n' || c == '\t' }

  predicate PlainText(s: string) { forall i :: 0 <= i < |s| ==> Plain(s[i]) }

  function Unquote(c: char): Option<char> {
    if c == '"' || c == '\\' then Some(c) else if c == 'n' then Some('\n') else if c == 't' then Some('\t') else None
  }

  type Reading<T> = Option<(T, string)>

  /** The string whose body is at the front, and what follows its closing quote. */
  function ReadBody(s: string): Reading<string>
    decreases |s|
  {
    if s == "" then None
    else if s[0] == '"' then Some(("", s[1..]))
    else if s[0] == '\\' then
      if |s| < 2 || Unquote(s[1]) == None then None
      else Push(Unquote(s[1]).value, ReadBody(s[2..]))
    else if s[0] as int < 32 then None
    else Push(s[0], ReadBody(s[1..]))
  }

  function Push(c: char, r: Reading<string>): Reading<string> {
    if r == None then None else Some(([c] + r.value.0, r.value.1))
  }

  function ReadQuoted(s: string): Reading<string> {
    if s == "" || s[0] != '"' then None else ReadBody(s[1..])
  }

  /** The reader undoes the printer, and accepts nothing but what the printer writes. */
  lemma {:induction false} BodyRead(v: string, rest: string)
    requires PlainText(v)
    ensures ReadBody(QuoteBody(v) + "\"" + rest) == Some((v, rest))
    decreases |v|
  {
    var s := QuoteBody(v) + "\"" + rest;
    if v == "" {
      assert s[1..] == rest;
    } else {
      BodyRead(v[1..], rest);
      var tail := QuoteBody(v[1..]) + "\"" + rest;
      assert s == QuoteChar(v[0]) + tail;
      QuoteCharRead(v[0], tail);
      assert [v[0]] + v[1..] == v;
    }
  }

  lemma {:induction false} QuoteCharRead(c: char, tail: string)
    requires Plain(c)
    ensures ReadBody(QuoteChar(c) + tail) == Push(c, ReadBody(tail))
  {
    var s := QuoteChar(c) + tail;
    if |QuoteChar(c)| == 2 { assert s[2..] == tail; } else { assert s[1..] == tail; }
  }

  lemma {:induction false} BodyExact(s: string)
    requires ReadBody(s).Some?
    ensures var (v, rest) := ReadBody(s).value; s == QuoteBody(v) + "\"" + rest && PlainText(v)
    decreases |s|
  {
    var (v, rest) := ReadBody(s).value;
    if s[0] == '"' {
      assert QuoteBody("") == "";
      assert s == "" + "\"" + s[1..];
    } else if s[0] == '\\' {
      BodyExact(s[2..]);
      PushExact(s, Unquote(s[1]).value, s[2..]);
    } else {
      BodyExact(s[1..]);
      PushExact(s, s[0], s[1..]);
    }
  }

  lemma {:induction false} PushExact(s: string, c: char, tail: string)
    requires ReadBody(tail).Some? && s == QuoteChar(c) + tail && Plain(c)
    requires var (v, rest) := ReadBody(tail).value; tail == QuoteBody(v) + "\"" + rest && PlainText(v)
    ensures var (v, rest) := Push(c, ReadBody(tail)).value; s == QuoteBody(v) + "\"" + rest && PlainText(v)
  {
    hide ReadBody, QuoteChar, Plain;
    var (v, rest) := ReadBody(tail).value;
    assert ([c] + v)[1..] == v;
  }

  lemma QuotedRead(v: string, rest: string)
    requires PlainText(v)
    ensures ReadQuoted(Quote(v) + rest) == Some((v, rest))
  {
    BodyRead(v, rest);
    assert (Quote(v) + rest)[1..] == QuoteBody(v) + "\"" + rest;
  }

  lemma QuotedExact(s: string)
    requires ReadQuoted(s).Some?
    ensures var (v, rest) := ReadQuoted(s).value; s == Quote(v) + rest && PlainText(v)
  {
    BodyExact(s[1..]);
    assert s == "\"" + s[1..];
  }

  // ---------- Arrays ----------

  /** What follows the opening bracket: the elements, then the closing bracket. */
  function StringsTail(ss: seq<string>): string {
    if ss == [] then "]"
    else Quote(ss[0]) + if |ss| == 1 then "]" else "," + StringsTail(ss[1..])
  }

  function StringsJson(ss: seq<string>): string { "[" + StringsTail(ss) }

  predicate PlainTexts(ss: seq<string>) { forall i :: 0 <= i < |ss| ==> PlainText(ss[i]) }

  /** One or more strings and the closing bracket. */
  function ReadMore(s: string): Reading<seq<string>>
    decreases |s|
  {
    var head := ReadQuoted(s);
    if head == None then None
    else
      var (v, rest) := head.value;
      if rest == "" || |rest| >= |s| then None
      else if rest[0] == ']' then Some(([v], rest[1..]))
      else if rest[0] != ',' then None
      else
        var more := ReadMore(rest[1..]);
        if more == None then None else Some(([v] + more.value.0, more.value.1))
  }

  function ReadStrings(s: string): Reading<seq<string>> {
    if s == "" || s[0] != '[' then None
    else if |s| > 1 && s[1] == ']' then Some(([], s[2..]))
    else ReadMore(s[1..])
  }

  lemma Regroup(a: string, b: string, c: string)
    ensures a + b + c == a + (b + c)
  {
  }

  lemma FirstOff(c: char, s: string, rest: string)
    ensures ([c] + s + rest)[0] == c && ([c] + s + rest)[1..] == s + rest
  {
  }

  /** What follows the first of the strings that are left. */
  function TextEnd(ss: seq<string>): (s: string)
    requires ss != []
    ensures s != ""
  {
    if |ss| == 1 then "]" else "," + StringsTail(ss[1..])
  }

  lemma StringsTailStep(ss: seq<string>, rest: string)
    requires ss != []
    ensures StringsTail(ss) + rest == Quote(ss[0]) + (TextEnd(ss) + rest)
    ensures var after := TextEnd(ss) + rest;
            if |ss| == 1 then after[0] == ']' && after[1..] == rest
            else after[0] == ',' && after[1..] == StringsTail(ss[1..]) + rest
  {
    hide Quote;
    assert StringsTail(ss) == Quote(ss[0]) + TextEnd(ss);
    Regroup(Quote(ss[0]), TextEnd(ss), rest);
    if |ss| == 1 {
      FirstOff(']', "", rest);
      assert [']'] + "" + rest == TextEnd(ss) + rest && "" + rest == rest;
    } else {
      FirstOff(',', StringsTail(ss[1..]), rest);
    }
  }

  lemma {:induction false} MoreRead(ss: seq<string>, rest: string)
    requires ss != [] && PlainTexts(ss)
    ensures ReadMore(StringsTail(ss) + rest) == Some((ss, rest))
    decreases |ss|
  {
    var s := StringsTail(ss) + rest;
    var after := TextEnd(ss) + rest;
    StringsTailStep(ss, rest);
    QuotedRead(ss[0], after);
    QuoteLength(ss[0]);
    assert |s| > |after| > 0;
    if |ss| == 1 {
      assert ss == [ss[0]];
    } else {
      MoreRead(ss[1..], rest);
      assert [ss[0]] + ss[1..] == ss;
    }
  }

  lemma QuoteLength(v: string)
    ensures |Quote(v)| >= 2 && Quote(v)[0] == '"'
  {
  }

  lemma {:induction false} MoreExact(s: string)
    requires ReadMore(s).Some?
    ensures var (ss, rest) := ReadMore(s).value; ss != [] && s == StringsTail(ss) + rest && PlainTexts(ss)
    decreases |s|
  {
    hide ReadQuoted, Quote, PlainText;
    QuotedExact(s);
    var (v, after) := ReadQuoted(s).value;
    if after[0] == ']' {
      assert s == Quote(v) + "]" + after[1..];
    } else {
      MoreExact(after[1..]);
      var (ss, rest) := ReadMore(after[1..]).value;
      assert ([v] + ss)[1..] == ss;
      assert s == Quote(v) + ("," + StringsTail(ss) + rest);
      assert s == StringsTail([v] + ss) + rest;
    }
  }

  lemma StringsRead(ss: seq<string>, rest: string)
    requires PlainTexts(ss)
    ensures ReadStrings(StringsJson(ss) + rest) == Some((ss, rest))
  {
    hide ReadMore, Quote;
    var s := StringsJson(ss) + rest;
    assert s[1..] == StringsTail(ss) + rest;
    if ss == [] {
      assert s[2..] == rest;
    } else {
      QuoteLength(ss[0]);
      assert s[1] == Quote(ss[0])[0];
      MoreRead(ss, rest);
    }
  }

  lemma StringsExact(s: string)
    requires ReadStrings(s).Some?
    ensures var (ss, rest) := ReadStrings(s).value; s == StringsJson(ss) + rest && PlainTexts(ss)
  {
    hide ReadMore, Quote;
    if |s| > 1 && s[1] == ']' {
      assert s == "[" + "]" + s[2..];
    } else {
      MoreExact(s[1..]);
      assert s == "[" + s[1..];
    }
  }

  function RowsTail(rows: seq<seq<string>>): string {
    if rows == [] then "]"
    else StringsJson(rows[0]) + if |rows| == 1 then "]" else "," + RowsTail(rows[1..])
  }

  function RowsJson(rows: seq<seq<string>>): string { "[" + RowsTail(rows) }

  predicate PlainRows(rows: seq<seq<string>>) { forall i :: 0 <= i < |rows| ==> PlainTexts(rows[i]) }

  function ReadMoreRows(s: string): Reading<seq<seq<string>>>
    decreases |s|
  {
    var head := ReadStrings(s);
    if head == None then None
    else
      var (v, rest) := head.value;
      if rest == "" || |rest| >= |s| then None
      else if rest[0] == ']' then Some(([v], rest[1..]))
      else if rest[0] != ',' then None
      else
        var more := ReadMoreRows(rest[1..]);
        if more == None then None else Some(([v] + more.value.0, more.value.1))
  }

  function ReadRows(s: string): Reading<seq<seq<string>>> {
    if s == "" || s[0] != '[' then None
    else if |s| > 1 && s[1] == ']' then Some(([], s[2..]))
    else ReadMoreRows(s[1..])
  }

  lemma StringsLength(ss: seq<string>)
    ensures |StringsJson(ss)| >= 2 && StringsJson(ss)[0] == '['
  {
    hide Quote;
  }

  /** What follows the first of the rows that are left. */
  function RowEnd(rows: seq<seq<string>>): (s: string)
    requires rows != []
    ensures s != ""
  {
    if |rows| == 1 then "]" else "," + RowsTail(rows[1..])
  }

  lemma RowsTailStep(rows: seq<seq<string>>, rest: string)
    requires rows != []
    ensures RowsTail(rows) + rest == StringsJson(rows[0]) + (RowEnd(rows) + rest)
    ensures var after := RowEnd(rows) + rest;
            if |rows| == 1 then after[0] == ']' && after[1..] == rest
            else after[0] == ',' && after[1..] == RowsTail(rows[1..]) + rest
  {
    hide StringsJson;
    assert RowsTail(rows) == StringsJson(rows[0]) + RowEnd(rows);
    Regroup(StringsJson(rows[0]), RowEnd(rows), rest);
    if |rows| == 1 {
      FirstOff(']', "", rest);
      assert [']'] + "" + rest == RowEnd(rows) + rest && "" + rest == rest;
    } else {
      FirstOff(',', RowsTail(rows[1..]), rest);
    }
  }

  lemma {:induction false} MoreRowsRead(rows: seq<seq<string>>, rest: string)
    requires rows != [] && PlainRows(rows)
    ensures ReadMoreRows(RowsTail(rows) + rest) == Some((rows, rest))
    decreases |rows|
  {
    hide RowsTail;
    var s := RowsTail(rows) + rest;
    var after := RowEnd(rows) + rest;
    RowsTailStep(rows, rest);
    StringsRead(rows[0], after);
    StringsLength(rows[0]);
    assert |s| > |after| > 0;
    if |rows| == 1 {
      assert rows == [rows[0]];
    } else {
      MoreRowsRead(rows[1..], rest);
      assert [rows[0]] + rows[1..] == rows;
    }
  }

  lemma {:induction false} MoreRowsExact(s: string)
    requires ReadMoreRows(s).Some?
    ensures var (rows, rest) := ReadMoreRows(s).value; rows != [] && s == RowsTail(rows) + rest && PlainRows(rows)
    decreases |s|
  {
    hide ReadStrings, StringsJson, PlainTexts;
    StringsExact(s);
    var (v, after) := ReadStrings(s).value;
    if after[0] == ']' {
      assert s == StringsJson(v) + "]" + after[1..];
    } else {
      MoreRowsExact(after[1..]);
      var (rows, rest) := ReadMoreRows(after[1..]).value;
      assert ([v] + rows)[1..] == rows;
      assert s == StringsJson(v) + ("," + RowsTail(rows) + rest);
      assert s == RowsTail([v] + rows) + rest;
    }
  }

  lemma RowsRead(rows: seq<seq<string>>, rest: string)
    requires PlainRows(rows)
    ensures ReadRows(RowsJson(rows) + rest) == Some((rows, rest))
  {
    hide ReadMoreRows, StringsJson;
    var s := RowsJson(rows) + rest;
    assert s[1..] == RowsTail(rows) + rest;
    if rows == [] {
      assert s[2..] == rest;
    } else {
      StringsLength(rows[0]);
      assert s[1] == StringsJson(rows[0])[0];
      MoreRowsRead(rows, rest);
    }
  }

  lemma RowsExact(s: string)
    requires ReadRows(s).Some?
    ensures var (rows, rest) := ReadRows(s).value; s == RowsJson(rows) + rest && PlainRows(rows)
  {
    hide ReadMoreRows, StringsJson;
    if |s| > 1 && s[1] == ']' {
      assert s == "[" + "]" + s[2..];
    } else {
      MoreRowsExact(s[1..]);
      assert s == "[" + s[1..];
    }
  }

  // ---------- The body of a table ----------

  const COLUMNS := "{\"columns\":"
  const ROWS := ",\"rows\":"

  function TableJson(columns: seq<string>, rows: seq<seq<string>>): string {
    COLUMNS + StringsJson(columns) + ROWS + RowsJson(rows) + "}"
  }

  function ReadTable(s: string): Option<(seq<string>, seq<seq<string>>)> {
    if !StartsWith(s, COLUMNS) then None
    else
      var columns := ReadStrings(s[|COLUMNS|..]);
      if columns == None || !StartsWith(columns.value.1, ROWS) then None
      else
        var rows := ReadRows(columns.value.1[|ROWS|..]);
        if rows == None || rows.value.1 != "}" then None
        else Some((columns.value.0, rows.value.0))
  }

  /** A table body is read exactly from its canonical JSON. */
  lemma TableExact(s: string, columns: seq<string>, rows: seq<seq<string>>)
    ensures ReadTable(s) == Some((columns, rows))
       <==> s == TableJson(columns, rows) && PlainTexts(columns) && PlainRows(rows)
  {
    hide ReadStrings, ReadRows, StringsJson, RowsJson, PlainTexts, PlainRows, COLUMNS, ROWS;
    if ReadTable(s) == Some((columns, rows)) {
      var after := s[|COLUMNS|..];
      StringsExact(after);
      var tail := ReadStrings(after).value.1;
      RowsExact(tail[|ROWS|..]);
      assert s == COLUMNS + after && tail == ROWS + tail[|ROWS|..];
      assert s == COLUMNS + (StringsJson(columns) + (ROWS + (RowsJson(rows) + "}")));
    }
    if s == TableJson(columns, rows) && PlainTexts(columns) && PlainRows(rows) {
      var tail := RowsJson(rows) + "}";
      assert s == COLUMNS + (StringsJson(columns) + (ROWS + tail));
      assert s[|COLUMNS|..] == StringsJson(columns) + (ROWS + tail);
      StringsRead(columns, ROWS + tail);
      assert (ROWS + tail)[|ROWS|..] == tail;
      RowsRead(rows, "}");
    }
  }
}
