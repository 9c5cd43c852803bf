/** Escaped text is read back as it was, but for backslashes directly before a digit. */
module MarkdownEscape {
  import opened Text
  import opened NoteDocument
  import opened Markdown

  /** What reading makes of escaped text: a backslash directly before a digit is lost. */
  function Drop(t: string): string {
    if t == "" then ""
    else if t[0] == '\\' && |t| > 1 && IsDigit(t[1]) then Drop(t[1..])
    else [t[0]] + Drop(t[1..])
  }

  predicate NoBackslashDigit(t: string) {
    forall i :: 0 <= i < |t| - 1 ==> t[i] == '\\' ==> !IsDigit(t[i + 1])
  }

  lemma {:induction false} DropKeeps(t: string)
    ensures |Drop(t)| <= |t|
    ensures Drop(t) == t <==> NoBackslashDigit(t)
    ensures t != "" ==> Drop(t) != ""
  {
    if t != "" {
      DropKeeps(t[1..]);
      if NoBackslashDigit(t) {
        assert NoBackslashDigit(t[1..]);
      } else {
        var i :| 0 <= i < |t| - 1 && t[i] == '\\' && IsDigit(t[i + 1]);
        if i > 0 { assert t[1..][i - 1] == '\\' && IsDigit(t[1..][i]); }
      }
    }
  }

  // ---------- Text without marks ----------

  /** What text that opens no mark is read as, after the character `prev`. */
  function Plain(prev: Option<char>, s: string): Option<string>
    decreases |s|
  {
    if s == "" then Some("")
    else
      var c, next := s[0], Head(s[1..]);
      if c == '\\' && next.Some? && IsEscapable(next.value) then With(next.value, Plain(next, s[2..]))
      else if IsSyntax(c) && !(c == '_' && IsWordAt(prev) && IsWordAt(next)) then None
      else With(c, Plain(Some(c), s[1..]))
  }

  function With(c: char, rest: Option<string>): Option<string> {
    if rest.Some? then Some([c] + rest.value) else None
  }

  lemma {:induction false} PlainEscape(prev: Option<char>, c: char, rest: string)
    requires IsEscapable(c)
    ensures Plain(prev, ['\\', c] + rest) == With(c, Plain(Some(c), rest))
  {
    var s := ['\\', c] + rest;
    assert s[1..] == [c] + rest && s[2..] == rest;
  }

  lemma {:induction false} PlainChar(prev: Option<char>, c: char, rest: string)
    requires c != '\\' || rest == "" || !IsEscapable(rest[0])
    requires IsSyntax(c) ==> c == '_' && IsWordAt(prev) && rest != "" && IsWord(rest[0])
    ensures Plain(prev, [c] + rest) == With(c, Plain(Some(c), rest))
  {
    var s := [c] + rest;
    assert s[1..] == rest;
  }

  /** The first character of escaped text. */
  lemma {:induction false} EscapedHead(prev: Option<char>, t: string)
    requires t != ""
    ensures var e := EscapeSyntax(prev, t);
            e != "" && (e[0] == t[0] || (e[0] == '\\' && IsSyntax(t[0])))
            && (IsWord(t[0]) ==> e[0] == t[0])
  {
  }

  lemma {:induction false} EscapeStep(prev: Option<char>, t: string)
    requires t != ""
    ensures var c, next := t[0], Head(t[1..]);
            EscapeSyntax(prev, t)
            == (if c == '\\' then (if next.Some? && IsPunctuation(next.value) then "\\\\" else "\\")
                else if c == '_' && IsWordAt(prev) && IsWordAt(next) then "_"
                else if IsSyntax(c) then ['\\', c]
                else [c])
               + EscapeSyntax(Some(c), t[1..])
  {
  }

  /** Reading undoes the first pass. */
  lemma {:induction false} SyntaxUndone(prev: Option<char>, t: string)
    ensures Plain(prev, EscapeSyntax(prev, t)) == Some(Drop(t))
    decreases |t|
  {
    if t != "" {
      var c, rest := t[0], EscapeSyntax(Some(t[0]), t[1..]);
      EscapeStep(prev, t);
      SyntaxUndone(Some(c), t[1..]);
      if |t| > 1 { EscapedHead(Some(c), t[1..]); }
      else { assert rest == ""; }
      if c == '\\' && |t| > 1 && IsPunctuation(t[1]) {
        PlainEscape(prev, c, rest);
        assert "\\\\" == ['\\', c];
      } else if c == '\\' && |t| > 1 && IsDigit(t[1]) {
        DigitUndone(prev, t);
      } else if c != '\\' && IsSyntax(c) && !(c == '_' && IsWordAt(prev) && IsWordAt(Head(t[1..]))) {
        PlainEscape(prev, c, rest);
      } else {
        PlainChar(prev, c, rest);
      }
    } else {
    }
  }

  /** A backslash before a digit is read as an escape of the digit. */
  lemma {:induction false} DigitUndone(prev: Option<char>, t: string)
    requires |t| > 1 && t[0] == '\\' && IsDigit(t[1])
    requires Plain(Some('\\'), EscapeSyntax(Some('\\'), t[1..])) == Some(Drop(t[1..]))
    ensures Plain(prev, EscapeSyntax(prev, t)) == Some(Drop(t))
  {
    hide EscapeSyntax, Plain;
    var d, tail := t[1], EscapeSyntax(Some(t[1]), t[1..][1..]);
    EscapeStep(prev, t);
    EscapeStep(Some('\\'), t[1..]);
    assert EscapeSyntax(prev, t) == "\\" + ([d] + tail);
    assert EscapeSyntax(prev, t) == ['\\', d] + tail;
    PlainEscape(prev, d, tail);
    PlainChar(Some('\\'), d, tail);
  }

  lemma {:induction false} StartsStep(at: bool, s: string)
    requires s != ""
    ensures EscapeStarts(at, s)
         == (if at && StartsBlock(s) then "\\" else "") + [s[0]] + EscapeStarts(EndsLine(s[0]), s[1..])
  {
    hide StartsBlock;
  }

  lemma {:induction false} StartsHead(s: string)
    requires s != ""
    ensures EscapeStarts(false, s) != "" && EscapeStarts(false, s)[0] == s[0]
  {
    StartsStep(false, s);
  }

  lemma StartsBlockHead(s: string)
    requires StartsBlock(s)
    ensures IsEscapable(s[0]) && s[0] != '\\' && (IsSyntax(s[0]) ==> s[0] == '>')
  {
  }

  /** The second pass adds nothing that reading does not take away. */
  lemma {:induction false} StartsUndone(prev: Option<char>, at: bool, s: string)
    requires Plain(prev, s).Some?
    ensures Plain(prev, EscapeStarts(at, s)) == Plain(prev, s)
    decreases |s|
  {
    hide Plain;
    if s == "" {
    } else {
      var c, tail := s[0], s[1..];
      PlainStep(prev, s);
      StartsStep(at, s);
      if c == '\\' && tail != "" && IsEscapable(tail[0]) {
        StartsUndone(Some(tail[0]), false, s[2..]);
        StartsStep(false, tail);
        assert !StartsBlock(s);
        assert tail[1..] == s[2..];
        assert EscapeStarts(at, s) == ['\\', tail[0]] + EscapeStarts(false, s[2..]);
        PlainEscape(prev, tail[0], EscapeStarts(false, s[2..]));
      } else {
        var rest := EscapeStarts(EndsLine(c), tail);
        StartsUndone(Some(c), EndsLine(c), tail);
        if at && StartsBlock(s) {
          StartsBlockHead(s);
          assert EscapeStarts(at, s) == ['\\', c] + rest;
          PlainEscape(prev, c, rest);
        } else {
          if tail != "" { StartsHead(tail); } else { assert rest == ""; }
          assert EscapeStarts(at, s) == [c] + rest;
          PlainChar(prev, c, rest);
        }
      }
    }
  }

  lemma {:induction false} PlainStep(prev: Option<char>, s: string)
    requires s != "" && Plain(prev, s).Some?
    ensures var c, tail := s[0], s[1..];
            if c == '\\' && tail != "" && IsEscapable(tail[0]) then
              Plain(prev, s) == With(tail[0], Plain(Some(tail[0]), s[2..])) && Plain(Some(tail[0]), s[2..]).Some?
            else
              && Plain(prev, s) == With(c, Plain(Some(c), tail)) && Plain(Some(c), tail).Some?
              && (IsSyntax(c) ==> c == '_' && IsWordAt(prev) && tail != "" && IsWord(tail[0]))
  {
  }

  lemma {:induction false} RulesStep(at: bool, s: string)
    requires s != ""
    ensures EscapeRules(at, s)
         == if at && IsRule(s) then "\\-\\-\\-" + EscapeRules(false, s[3..])
            else [s[0]] + EscapeRules(EndsLine(s[0]), s[1..])
  {
  }

  lemma {:induction false} RulesHead(s: string)
    requires s != ""
    ensures EscapeRules(false, s) != "" && EscapeRules(false, s)[0] == s[0]
  {
  }

  lemma {:induction false} ThreeDashes(prev: Option<char>, rest: string)
    ensures Plain(prev, "---" + rest) == With('-', With('-', With('-', Plain(Some('-'), rest))))
    ensures Plain(prev, "\\-\\-\\-" + rest) == With('-', With('-', With('-', Plain(Some('-'), rest))))
  {
    hide Plain;
    PlainChar(Some('-'), '-', rest);
    PlainChar(Some('-'), '-', "-" + rest);
    PlainChar(prev, '-', "--" + rest);
    assert "--" + rest == ['-'] + ("-" + rest) && "---" + rest == ['-'] + ("--" + rest);
    PlainEscape(Some('-'), '-', rest);
    PlainEscape(Some('-'), '-', "\\-" + rest);
    PlainEscape(prev, '-', "\\-\\-" + rest);
    assert "\\-\\-" + rest == ['\\', '-'] + ("\\-" + rest);
    assert "\\-\\-\\-" + rest == ['\\', '-'] + ("\\-\\-" + rest);
  }

  /** Nor does the third. */
  lemma {:induction false} RulesUndone(prev: Option<char>, at: bool, s: string)
    requires Plain(prev, s).Some?
    ensures Plain(prev, EscapeRules(at, s)) == Plain(prev, s)
    decreases |s|
  {
    hide Plain;
    if s == "" {
    } else {
      var c, tail := s[0], s[1..];
      RulesStep(at, s);
      if at && IsRule(s) {
        assert |s| >= 3 && s == "---" + s[3..];
        ThreeDashes(prev, s[3..]);
        ThreeDashes(prev, EscapeRules(false, s[3..]));
        RulesUndone(Some('-'), false, s[3..]);
      } else {
        PlainStep(prev, s);
        if c == '\\' && tail != "" && IsEscapable(tail[0]) {
          RulesUndone(Some(tail[0]), false, s[2..]);
          RulesStep(false, tail);
          assert tail[1..] == s[2..];
          assert EscapeRules(at, s) == ['\\', tail[0]] + EscapeRules(false, s[2..]);
          PlainEscape(prev, tail[0], EscapeRules(false, s[2..]));
        } else {
          var rest := EscapeRules(EndsLine(c), tail);
          RulesUndone(Some(c), EndsLine(c), tail);
          if tail != "" && !EndsLine(c) { RulesHead(tail); }
          else if tail == "" { assert rest == ""; }
          PlainChar(prev, c, rest);
        }
      }
    }
  }

  /** Text without marks is read without marks. */
  lemma {:induction false} EscapedPlain(t: string)
    ensures Plain(None, EscapeText(t)) == Some(Drop(t))
  {
    hide Plain, EscapeSyntax, EscapeStarts, EscapeRules, Drop;
    SyntaxUndone(None, t);
    StartsUndone(None, true, EscapeSyntax(None, t));
    RulesUndone(None, true, EscapeStarts(true, EscapeSyntax(None, t)));
  }

  // ---------- The reader on plain text ----------

  /** The reader's loop on plain text collects it and flushes it once. */
  lemma {:induction false} SequencePlain(url: UrlCheck, s: string, pos: nat, text: string)
    requires pos <= |s| && Plain(Before(s, pos), s[pos..]).Some?
    ensures Sequence(url, s, pos, text, [], None, [])
         == match Add([], text + Plain(Before(s, pos), s[pos..]).value, [])
            case Ok(out) => Ok(Read(|s|, out))
            case Err(e) => Err(e)
    decreases |s| - pos
  {
    hide Add, Sequence, IsEscapable;
    if pos == |s| {
      assert s[pos..] == "";
      SequenceEnds(url, s, text);
      assert Plain(Before(s, pos), "") == Some("");
      assert text + "" == text;
    } else {
      var c, tail := s[pos], s[pos..][1..];
      PlainStep(Before(s, pos), s[pos..]);
      assert tail == s[pos + 1..];
      if c == '\\' && tail != "" && IsEscapable(tail[0]) {
        assert s[pos..][2..] == s[pos + 2..] && tail[0] == s[pos + 1];
        SequenceStep(url, s, pos, text);
        SequencePlain(url, s, pos + 2, text + [s[pos + 1]]);
        var rest := Plain(Some(s[pos + 1]), s[pos + 2..]).value;
        assert text + ([s[pos + 1]] + rest) == text + [s[pos + 1]] + rest;
      } else {
        SequenceStep(url, s, pos, text);
        SequencePlain(url, s, pos + 1, text + [c]);
        var rest := Plain(Some(c), s[pos + 1..]).value;
        assert text + ([c] + rest) == text + [c] + rest;
      }
    }
  }

  lemma NoDelimiter(s: string, pos: nat)
    requires pos < |s| && !IsSyntax(s[pos])
    ensures DelimiterAt(s, pos) == None
  {
    AtHead(s, pos, "**");
    AtHead(s, pos, "*");
    AtHead(s, pos, "__");
    AtHead(s, pos, "~~");
  }

  lemma AtHead(s: string, pos: nat, d: string)
    requires pos < |s| && d != ""
    ensures At(s, pos, d) ==> s[pos] == d[0]
  {
    if At(s, pos, d) { assert s[pos..pos + |d|][0] == s[pos]; }
  }

  lemma {:induction false} SequenceEnds(url: UrlCheck, s: string, text: string)
    ensures Sequence(url, s, |s|, text, [], None, [])
         == match Add([], text, []) case Ok(out) => Ok(Read(|s|, out)) case Err(e) => Err(e)
  {
    hide Add;
  }

  lemma SequenceStep(url: UrlCheck, s: string, pos: nat, text: string)
    requires pos < |s|
    requires var c, next := s[pos], CharAt(s, pos + 1);
             IsSyntax(c) ==> c == '_' && IsWordAt(Before(s, pos)) && IsWordAt(next)
    ensures var c, next := s[pos], CharAt(s, pos + 1);
            Sequence(url, s, pos, text, [], None, [])
            == if c == '\\' && next.Some? && IsEscapable(next.value) then
                 Sequence(url, s, pos + 2, text + [next.value], [], None, [])
               else Sequence(url, s, pos + 1, text + [c], [], None, [])
  {
    hide Add, DelimiterAt, Before, IsWord;
    if !IsSyntax(s[pos]) { NoDelimiter(s, pos); }
  }

  lemma {:induction false} AddFirst(t: string)
    requires t != "" && Utf8(t) <= MAX_INLINE_BYTES
    ensures Add([], t, []) == Ok([Inline(t, None)])
  {
    hide Utf8;
    assert [] + [MarkedRun(t, [])] == [MarkedRun(t, [])];
  }

  /** The inline escaping round trip: escaped text is read as one run without marks whose text is
      the original's but for backslashes directly before a digit. */
  lemma {:induction false} EscapeRoundTrip(url: UrlCheck, t: string)
    requires t != "" && Utf8(Drop(t)) <= MAX_INLINE_BYTES
    ensures ParseInlines(url, EscapeText(t)) == Ok([Inline(Drop(t), None)])
  {
    hide EscapeText, Drop, Utf8, Sequence, Plain;
    EscapedPlain(t);
    DropKeeps(t);
    var e := EscapeText(t);
    assert e[0..] == e && Before(e, 0) == None;
    SequencePlain(url, e, 0, "");
    assert "" + Drop(t) == Drop(t);
    AddFirst(Drop(t));
  }

  /** Exactly the texts without a backslash directly before a digit come back as themselves. */
  lemma {:induction false} EscapeExact(url: UrlCheck, t: string)
    requires t != "" && Utf8(t) <= MAX_INLINE_BYTES
    ensures ParseInlines(url, EscapeText(t)) == Ok([Inline(t, None)]) <==> NoBackslashDigit(t)
  {
    hide EscapeText, Drop, ParseInlines;
    DropKeeps(t);
    DropSmaller(t);
    EscapeRoundTrip(url, t);
  }

  lemma {:induction false} DropSmaller(t: string)
    ensures Utf8(Drop(t)) <= Utf8(t)
  {
    if t != "" {
      DropSmaller(t[1..]);
      assert ([t[0]] + Drop(t[1..]))[1..] == Drop(t[1..]);
    }
  }

  /** The shortest text that does not come back: its backslash is lost. */
  lemma BackslashDigitLost(url: UrlCheck)
    ensures !NoBackslashDigit("\\1") && ParseInlines(url, EscapeText("\\1")) == Ok([Inline("1", None)])
  {
    var t := "\\1";
    assert t[1..] == "1" && "1"[1..] == "";
    assert Drop("1") == "1" && Drop(t) == "1";
    EscapeRoundTrip(url, t);
  }
}
