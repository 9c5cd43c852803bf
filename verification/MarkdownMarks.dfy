/** Text with one mark: what is printed for it is read back. */
module MarkdownMarks {
  import opened Text
  import opened NoteDocument
  import opened Markdown
  import opened MarkdownEscape
  import MarkdownRoundTrip

  // ---------- The reader inside a mark ----------

  /** A delimiter that escaped text never holds. */
  predicate Stop(stop: string) { stop == "**" || stop == "*" || stop == "__" || stop == "~~" || stop == "]" }

  lemma PlainAfter(p: Option<char>, q: Option<char>, s: string)
    requires !IsWordAt(p) && !IsWordAt(q)
    ensures Plain(p, s) == Plain(q, s)
  {
  }

  lemma PlainFirst(p: Option<char>, s: string)
    requires s != "" && !IsWordAt(p) && Plain(p, s).Some?
    ensures !IsSyntax(s[0])
  {
  }

  lemma {:induction false} InnerStep(url: UrlCheck, s: string, pos: nat, text: string, ms: seq<Mark>, stop: string, out: seq<Inline>)
    requires pos < |s| && Stop(stop)
    requires var c, next := s[pos], CharAt(s, pos + 1);
             IsSyntax(c) ==> c == '_' && IsWordAt(Before(s, pos)) && IsWordAt(next)
    ensures var c, next := s[pos], CharAt(s, pos + 1);
            Sequence(url, s, pos, text, ms, Some(stop), out)
            == if c == '\\' && next.Some? && IsEscapable(next.value) then
                 Sequence(url, s, pos + 2, text + [next.value], ms, Some(stop), out)
               else Sequence(url, s, pos + 1, text + [c], ms, Some(stop), out)
  {
    hide Add, DelimiterAt, Before, IsWord, CodeSequence, LinkSequence, Enter;
    if !IsSyntax(s[pos]) { NoDelimiter(s, pos); }
    NotStopped(s, pos, stop);
  }

  lemma NotStopped(s: string, pos: nat, stop: string)
    requires pos < |s| && Stop(stop) && (IsSyntax(s[pos]) ==> s[pos] == '_' && IsWordAt(CharAt(s, pos + 1)))
    ensures !At(s, pos, stop)
  {
    AtHead(s, pos, stop);
    if |stop| == 2 { AtSecond(s, pos, stop); }
  }

  lemma AtSecond(s: string, pos: nat, d: string)
    requires |d| == 2
    ensures At(s, pos, d) ==> pos + 1 < |s| && s[pos + 1] == d[1]
  {
    if At(s, pos, d) { assert s[pos..pos + 2][1] == s[pos + 1]; }
  }

  /** The reader's loop on plain text in front of the delimiter collects it. */
  lemma {:induction false} InnerPlain(url: UrlCheck, s: string, pos: nat, z: nat, text: string, ms: seq<Mark>, stop: string,
                                      out: seq<Inline>)
    requires pos <= z < |s| && Stop(stop) && Plain(Before(s, pos), s[pos..z]).Some? && (pos < z ==> s[z - 1] != '\\')
    ensures Sequence(url, s, pos, text, ms, Some(stop), out)
         == Sequence(url, s, z, text + Plain(Before(s, pos), s[pos..z]).value, ms, Some(stop), out)
    decreases z - pos
  {
    hide Sequence, IsEscapable, Stop;
    if pos == z {
      assert s[pos..z] == "" && text + "" == text;
    } else {
      var e := s[pos..z];
      var c, tail := e[0], e[1..];
      PlainStep(Before(s, pos), e);
      assert tail == s[pos + 1..z] && c == s[pos];
      InnerStep(url, s, pos, text, ms, stop, out);
      if c == '\\' && tail != "" && IsEscapable(tail[0]) {
        assert e[2..] == s[pos + 2..z] && tail[0] == s[pos + 1];
        InnerPlain(url, s, pos + 2, z, text + [s[pos + 1]], ms, stop, out);
        var rest := Plain(Some(s[pos + 1]), s[pos + 2..z]).value;
        assert text + ([s[pos + 1]] + rest) == text + [s[pos + 1]] + rest;
      } else {
        InnerPlain(url, s, pos + 1, z, text + [c], ms, stop, out);
        var rest := Plain(Some(c), s[pos + 1..z]).value;
        assert text + ([c] + rest) == text + [c] + rest;
      }
    }
  }

  lemma {:induction false} InnerStops(url: UrlCheck, s: string, z: nat, text: string, ms: seq<Mark>, stop: string, out: seq<Inline>)
    requires z <= |s| && stop != "" && At(s, z, stop)
    ensures Sequence(url, s, z, text, ms, Some(stop), out)
         == match Add(out, text, ms) case Ok(o) => Ok(Read(z + |stop|, o)) case Err(e) => Err(e)
  {
    hide Add;
  }

  // ---------- Emphasis ----------

  predicate Emphasis(m: Mark) { m.Bold? || m.Italic? || m.Underline? || m.Strike? }

  lemma DelimiterStops(m: Mark)
    requires Emphasis(m)
    ensures Stop(Delimiter(m)) && Delimiter(m) != "]" && IsSyntax(Delimiter(m)[0]) && !IsWord(Delimiter(m)[|Delimiter(m)| - 1])
  {
  }

  /** The delimiter of a mark in front of text that does not begin with its character. */
  lemma DelimiterRead(m: Mark, s: string)
    requires Emphasis(m) && At(s, 0, Delimiter(m)) && |s| > |Delimiter(m)| && !IsSyntax(s[|Delimiter(m)|])
    ensures DelimiterAt(s, 0) == Some(m)
  {
    AtHead(s, 0, Delimiter(m));
    AtHead(s, 0, "**");
    AtHead(s, 0, "*");
    AtHead(s, 0, "__");
    AtHead(s, 0, "~~");
    AtSecond(s, 0, "**");
  }

  lemma ParseIs(url: UrlCheck, s: string)
    ensures ParseInlines(url, s)
         == match Sequence(url, s, 0, "", [], None, []) case Ok(r) => Ok(r.out) case Err(e) => Err(e)
  {
    hide Sequence;
  }

  /** A mark around the whole text. */
  lemma {:induction false} MarkTurn(url: UrlCheck, s: string, m: Mark)
    requires s != "" && IsSyntax(s[0]) && s[0] != '`' && s[0] != '[' && DelimiterAt(s, 0) == Some(m)
    ensures Sequence(url, s, 0, "", [], None, [])
         == match Sequence(url, s, |Delimiter(m)|, "", [m], Some(Delimiter(m)), [])
            case Ok(inner) => Sequence(url, s, inner.pos, "", [], None, inner.out)
            case Err(e) => Err(e)
  {
    assert Add([], "", []) == Ok([]);
    hide Add;
    assert [] + [m] == [m];
    assert Before(s, 0) == None;
  }

  /** What is printed for one run of text. */
  lemma {:induction false} MarkPrinted(url: UrlCheck, m: Mark, t: string)
    requires Emphasis(m)
    ensures RenderInlines(url, [MarkedRun(t, [m])]) == Ok(Delimiter(m) + EscapeText(t) + Delimiter(m))
  {
    hide EscapeText, Delimiter;
    var rs, open := [MarkedRun(t, [m])], Delimiter(m);
    var none: seq<Mark> := [];
    assert MarksOf(rs[0]) == [m] && rs[1..] == [] && none[0..] == none && [m][0..] == [m] && [m][1..] == none;
    assert CheckLinks(url, [m][1..]) == Ok(());
    assert RenderRuns(url, [], [m]) == Ok(CloseMarks([m]));
    assert CloseMarks(none) == "" && OpenMarks(none) == "";
    assert OpenMarks([m]) == open + "" == open && CloseMarks([m]) == "" + open == open;
    assert "" + open + EscapeText(t) + open == open + EscapeText(t) + open;
  }

  lemma AddMarked(t: string, ms: seq<Mark>)
    requires t != "" && Utf8(t) <= MAX_INLINE_BYTES
    ensures Add([], t, ms) == Ok([MarkedRun(t, ms)])
  {
    hide Utf8;
    assert [] + [MarkedRun(t, ms)] == [MarkedRun(t, ms)];
  }

  predicate SameEnd(a: string, b: string) { a != "" && b != "" && a[|a| - 1] == b[|b| - 1] }

  lemma EndJoined(front: string, a: string, b: string)
    requires SameEnd(a, b)
    ensures SameEnd(front + a, b)
  {
  }

  lemma {:induction false} SyntaxEnd(prev: Option<char>, s: string)
    requires s != "" && s[|s| - 1] != '\\'
    ensures SameEnd(EscapeSyntax(prev, s), s)
    decreases |s|
  {
    hide IsPunctuation, IsWord;
    if |s| == 1 {
      assert EscapeSyntax(Some(s[0]), s[1..]) == "";
    } else {
      SyntaxEnd(Some(s[0]), s[1..]);
      var rest := EscapeSyntax(Some(s[0]), s[1..]);
      assert EscapeSyntax(prev, s)[|EscapeSyntax(prev, s)| - |rest|..] == rest;
      EndJoined(EscapeSyntax(prev, s)[..|EscapeSyntax(prev, s)| - |rest|], rest, s[1..]);
    }
  }

  lemma {:induction false} StartsEnd(at: bool, s: string)
    requires s != ""
    ensures SameEnd(EscapeStarts(at, s), s)
    decreases |s|
  {
    hide StartsBlock;
    if |s| == 1 {
      assert EscapeStarts(EndsLine(s[0]), s[1..]) == "";
    } else {
      StartsEnd(EndsLine(s[0]), s[1..]);
    }
  }

  lemma {:induction false} RulesEnd(at: bool, s: string)
    requires s != ""
    ensures SameEnd(EscapeRules(at, s), s)
    decreases |s|
  {
    if at && IsRule(s) {
      if |s| == 3 { assert s[3..] == "" && EscapeRules(false, s[3..]) == ""; } else { RulesEnd(false, s[3..]); }
    } else if |s| == 1 {
      assert EscapeRules(EndsLine(s[0]), s[1..]) == "";
    } else {
      RulesEnd(EndsLine(s[0]), s[1..]);
    }
  }

  /** Escaped text ends as the text does. */
  lemma EscapedEnd(t: string)
    requires t != "" && t[|t| - 1] != '\\'
    ensures SameEnd(EscapeText(t), t)
  {
    hide EscapeSyntax, EscapeStarts, EscapeRules;
    SyntaxEnd(None, t);
    StartsEnd(true, EscapeSyntax(None, t));
    RulesEnd(true, EscapeStarts(true, EscapeSyntax(None, t)));
  }

  /** Escaped text up to the delimiter is read as one run. */
  lemma {:induction false} InsideReads(url: UrlCheck, s: string, lo: nat, z: nat, e: string, ms: seq<Mark>, stop: string, t: string)
    requires lo < z < |s| && s[lo..z] == e && e[|e| - 1] != '\\' && Plain(None, e) == Some(t) && !IsWordAt(Before(s, lo))
    requires Stop(stop) && At(s, z, stop) && t != "" && Utf8(t) <= MAX_INLINE_BYTES
    ensures Sequence(url, s, lo, "", ms, Some(stop), []) == Ok(Read(z + |stop|, [MarkedRun(t, ms)]))
  {
    hide Utf8, Sequence, Plain, Add, IsWord, At, Before;
    PlainAfter(Before(s, lo), None, e);
    assert s[z - 1] == e[|e| - 1];
    InnerPlain(url, s, lo, z, "", ms, stop, []);
    assert "" + t == t;
    InnerStops(url, s, z, t, ms, stop, []);
    AddMarked(t, ms);
  }

  /** A text between two delimiters. */
  lemma Around(d: string, e: string, after: string)
    requires d != "" && e != ""
    ensures var s, z := d + e + after, |d| + |e|;
            && s[..|d|] == d && At(s, 0, d) && s[|d|..z] == e && At(s, z, after) && |s| == z + |after|
            && s[0] == d[0] && s[|d|] == e[0] && Before(s, |d|) == Some(d[|d| - 1])
  {
    var s, z := d + e + after, |d| + |e|;
    assert s[z..z + |after|] == after;
  }

  /** Text that does not end with a backslash, in bold, italics, underlined or struck out, is read back
      with its mark, and its text is the original's but for backslashes directly before a digit. */
  lemma {:induction false} EmphasisReads(url: UrlCheck, m: Mark, t: string)
    requires Emphasis(m) && t != "" && t[|t| - 1] != '\\' && Utf8(t) <= MAX_INLINE_BYTES
    ensures var s := Delimiter(m) + EscapeText(t) + Delimiter(m);
            && RenderInlines(url, [MarkedRun(t, [m])]) == Ok(s)
            && ParseInlines(url, s) == Ok([MarkedRun(Drop(t), [m])])
  {
    hide EscapeText, Drop, Utf8, Sequence, Plain, Delimiter, DelimiterAt, IsSyntax, IsWord, Stop, At, Before;
    MarkPrinted(url, m, t);
    DropKeeps(t);
    DropSmaller(t);
    EscapedPlain(t);
    EscapedEnd(t);
    var d, e := Delimiter(m), EscapeText(t);
    var s, z := d + e + d, |d| + |e|;
    DelimiterStops(m);
    PlainFirst(None, e);
    Around(d, e, d);
    DelimiterRead(m, s);
    NotOpen(d, s);
    MarkTurn(url, s, m);
    InsideReads(url, s, |d|, z, e, [m], d, Drop(t));
    Flushed(url, s, [MarkedRun(Drop(t), [m])]);
    ParseIs(url, s);
  }

  lemma NotOpen(d: string, s: string)
    requires Stop(d) && d != "]" && s != "" && s[0] == d[0]
    ensures s[0] != '`' && s[0] != '[' && IsSyntax(s[0])
  {
  }

  lemma {:induction false} Flushed(url: UrlCheck, s: string, out: seq<Inline>)
    ensures Sequence(url, s, |s|, "", [], None, out) == Ok(Read(|s|, out))
  {
  }

  // ---------- Links ----------

  lemma {:induction false} LinkPrinted(url: UrlCheck, href: string, t: string)
    requires Href(url, href).Ok?
    ensures RenderInlines(url, [MarkedRun(t, [Link(href)])]) == Ok("[" + EscapeText(t) + "](" + href + ")")
  {
    hide EscapeText, Href;
    var m := Link(href);
    var rs := [MarkedRun(t, [m])];
    var none: seq<Mark> := [];
    assert MarksOf(rs[0]) == [m] && rs[1..] == [] && none[0..] == none && [m][0..] == [m] && [m][1..] == none;
    assert CheckLinks(url, none) == Ok(()) && CheckLinks(url, [m]) == Ok(());
    assert RenderRuns(url, [], [m]) == Ok(CloseMarks([m]));
    assert CloseMarks(none) == "" && OpenMarks(none) == "";
    assert OpenMarks([m]) == "[" + "" == "[" && CloseMarks([m]) == "" + ("](" + href + ")") == "](" + href + ")";
    assert "" + "[" + EscapeText(t) + ("](" + href + ")") == "[" + EscapeText(t) + "](" + href + ")";
  }

  /** A link around the whole text. */
  lemma {:induction false} LinkTurn(url: UrlCheck, s: string, z: nat, href: string, out: seq<Inline>)
    requires s != "" && s[0] == '[' && z + 3 + |href| == |s| && At(s, z, "](") && s[z + 2..|s| - 1] == href && s[|s| - 1] == ')'
    requires Href(url, href).Ok?
    requires Sequence(url, s, 1, "", [PENDING], Some("]"), []) == Ok(Read(z + 1, out))
    ensures Sequence(url, s, 0, "", [], None, []) == Sequence(url, s, |s|, "", [], None, ResolveFrom(out, 0, href))
  {
    assert Add([], "", []) == Ok([]);
    hide Add, ResolveFrom, Href, Find;
    assert [] + [PENDING] == [PENDING];
    assert s[z + 1] == '(' by { AtSecond(s, z, "]("); }
    LinkEnds(url, s, z + 2, href);
    assert LinkSequence(url, s, 0, "", [], None, []) == Sequence(url, s, |s|, "", [], None, ResolveFrom(out, 0, href));
  }

  lemma {:induction false} LinkEnds(url: UrlCheck, s: string, i: nat, href: string)
    requires i + |href| + 1 == |s| && s[i..|s| - 1] == href && s[|s| - 1] == ')' && Href(url, href).Ok?
    ensures Find(s, ")", i) == Some(|s| - 1)
  {
    HrefOpen(url, href);
    assert forall k :: i <= k < |s| - 1 ==> s[k] == href[k - i];
    forall k | i <= k < |s| - 1 ensures !At(s, k, ")") { AtHead(s, k, ")"); }
    assert s[|s| - 1..|s|] == ")";
    FindFirst(s, ")", i, |s| - 1);
  }

  lemma HrefOpen(url: UrlCheck, href: string)
    requires Href(url, href).Ok?
    ensures forall k :: 0 <= k < |href| ==> href[k] != ')'
  {
    var n: nat :| n in {7, 8} && HrefAfter(href, n);
    forall k | 0 <= k < |href| ensures href[k] != ')' {
      if k < n { assert href[k] == href[..n][k]; }
    }
  }

  lemma {:induction false} FindFirst(s: string, d: string, i: nat, e: nat)
    requires i <= e && At(s, e, d) && forall k :: i <= k < e ==> !At(s, k, d)
    ensures Find(s, d, i) == Some(e)
    decreases e - i
  {
    if i < e {
      assert !At(s, i, d);
      FindFirst(s, d, i + 1, e);
    }
  }

  /** Text that does not end with a backslash, in a link that the URL check lets through, is read back
      with the link. */
  lemma {:induction false} LinkReads(url: UrlCheck, href: string, t: string)
    requires Href(url, href).Ok? && t != "" && t[|t| - 1] != '\\' && Utf8(t) <= MAX_INLINE_BYTES
    ensures var s := "[" + EscapeText(t) + "](" + href + ")";
            && RenderInlines(url, [MarkedRun(t, [Link(href)])]) == Ok(s)
            && ParseInlines(url, s) == Ok([MarkedRun(Drop(t), [Link(href)])])
  {
    hide EscapeText, Drop, Utf8, Sequence, Plain, IsSyntax, IsWord, Stop, At, Before, Href, ResolveFrom;
    LinkPrinted(url, href, t);
    DropKeeps(t);
    DropSmaller(t);
    EscapedPlain(t);
    EscapedEnd(t);
    var e, after := EscapeText(t), "](" + href + ")";
    var s, z := "[" + e + after, 1 + |e|;
    assert s == "[" + EscapeText(t) + "](" + href + ")";
    Around("[", e, after);
    LinkTail(s, z, href);
    BracketStops();
    InsideReads(url, s, 1, z, e, [PENDING], "]", Drop(t));
    var out := [MarkedRun(Drop(t), [PENDING])];
    LinkTurn(url, s, z, href, out);
    Resolved(Drop(t), href);
    Flushed(url, s, [MarkedRun(Drop(t), [Link(href)])]);
    ParseIs(url, s);
  }

  lemma BracketStops()
    ensures Stop("]") && !IsWord('[')
  {
  }

  lemma LinkTail(s: string, z: nat, href: string)
    requires At(s, z, "](" + href + ")") && |s| == z + 3 + |href|
    ensures At(s, z, "](") && At(s, z, "]") && s[z + 2..|s| - 1] == href && s[|s| - 1] == ')'
  {
    var after := "](" + href + ")";
    assert s[z..z + |after|] == after && z + |after| == |s|;
    assert s[z..] == after;
    assert s[z..z + 2] == s[z..z + |after|][..2];
    assert after == "](" + (href + ")") && after[..2] == "](";
    assert after[..1] == [after[0]] == "]";
    assert s[z..z + 1] == s[z..z + |after|][..1];
    assert forall i :: 0 <= i < |href| ==> s[z + 2 + i] == s[z..][2 + i] == href[i];
    assert s[|s| - 1] == after[|after| - 1];
  }

  lemma Resolved(t: string, href: string)
    ensures ResolveFrom([MarkedRun(t, [PENDING])], 0, href) == [MarkedRun(t, [Link(href)])]
  {
    var out := ResolveFrom([MarkedRun(t, [PENDING])], 0, href);
    assert Resolve([PENDING], href) == [Link(href)];
  }

  // ---------- Code ----------

  lemma {:induction false} CodePrinted(url: UrlCheck, t: string)
    requires InlineCode(t).Ok?
    ensures RenderInlines(url, [MarkedRun(t, [Code])]) == InlineCode(t)
  {
    hide InlineCode;
    var rs := [MarkedRun(t, [Code])];
    var none: seq<Mark> := [];
    assert MarksOf(rs[0]) == [Code] && rs[1..] == [] && none[0..] == none && [Code][..0] == none && [Code][1..] == none;
    assert CheckLinks(url, none) == Ok(()) && CheckLinks(url, [Code]) == Ok(());
    assert RenderRuns(url, [], none) == Ok("");
    assert CloseMarks(none) + OpenMarks(none) + InlineCode(t).value + "" == InlineCode(t).value;
  }

  /** No run of as many backticks as the fence has begins before its end. */
  lemma {:induction false} FenceFound(t: string, d: string)
    requires t != "" && t[0] != '`' && t[|t| - 1] != '`' && d == Repeat('`', LongestRun(t, 0) + 1)
    ensures var s := d + t + d; End(s, 0, IsTick) == |d| && Find(s, d, |d|) == Some(|d| + |t|)
  {
    var s, n := d + t + d, |d| + |t|;
    EndIs(s, 0, |d|, IsTick);
    assert s[n..n + |d|] == d;
    forall k | |d| <= k < n ensures !At(s, k, d) {
      TicksInside(t, d, k);
    }
    FindFirst(s, d, |d|, n);
  }

  lemma {:induction false} TicksInside(t: string, d: string, k: nat)
    requires t != "" && t[|t| - 1] != '`' && d == Repeat('`', LongestRun(t, 0) + 1) && |d| <= k < |d| + |t|
    ensures !At(d + t + d, k, d)
  {
    var s, i := d + t + d, k - |d|;
    if i + |d| <= |t| {
      assert s[k..k + |d|] == t[i..i + |d|];
      if t[i..i + |d|] == d { TicksCounted(t, i, d); }
      assert At(s, k, d) <==> t[i..i + |d|] == d;
    } else if k + |d| <= |s| {
      assert s[k..k + |d|][|t| - 1 - i] == t[|t| - 1] != d[|t| - 1 - i];
    }
  }

  lemma TicksCounted(t: string, i: nat, d: string)
    requires i + |d| <= |t| && t[i..i + |d|] == d && d == Repeat('`', |d|)
    ensures LongestRun(t, 0) >= |d|
  {
    assert t == t[..i] + d + t[i + |d|..];
    MarkdownRoundTrip.TicksCounted(t[..i], |d|, t[i + |d|..], 0);
  }

  lemma {:induction false} CodeTurn(url: UrlCheck, t: string, d: string)
    requires t != "" && '\n' !in t && Utf8(t) <= MAX_INLINE_BYTES && d != "" && d[0] == '`'
    requires var s := d + t + d; End(s, 0, IsTick) == |d| && Find(s, d, |d|) == Some(|d| + |t|)
    ensures var s := d + t + d; Sequence(url, s, 0, "", [], None, []) == Sequence(url, s, |s|, "", [], None, [MarkedRun(t, [Code])])
  {
    var s := d + t + d;
    assert Add([], "", []) == Ok([]);
    AddMarked(t, [Code]);
    hide Add, End, Find, Utf8;
    assert s[0..|d|] == d && s[|d|..|d| + |t|] == t && [] + [Code] == [Code];
    assert CodeSequence(url, s, 0, "", [], None, []) == Sequence(url, s, |s|, "", [], None, [MarkedRun(t, [Code])]);
  }

  /** Inline code that can be printed is read back as it is, whatever runs of backticks it holds. */
  lemma {:induction false} CodeReads(url: UrlCheck, t: string)
    requires t != "" && '\n' !in t && t[0] != '`' && t[|t| - 1] != '`' && Utf8(t) <= MAX_INLINE_BYTES
    ensures RenderInlines(url, [MarkedRun(t, [Code])]).Ok?
    ensures ParseInlines(url, RenderInlines(url, [MarkedRun(t, [Code])]).value) == Ok([MarkedRun(t, [Code])])
  {
    hide Sequence, Utf8, Find, End, LongestRun, RenderInlines, ParseInlines;
    var d := Repeat('`', LongestRun(t, 0) + 1);
    assert InlineCode(t) == Ok(d + t + d);
    CodePrinted(url, t);
    FenceFound(t, d);
    CodeTurn(url, t, d);
    Flushed(url, d + t + d, [MarkedRun(t, [Code])]);
    ParseIs(url, d + t + d);
  }
}
