/** Lines: splitting and joining, and what escaping makes of the lines of a text. */
module MarkdownLines {
  import opened Text
  import opened Markdown
  import opened MarkdownBlocks
  import opened MarkdownEscape

  predicate NoNewline(s: string) { forall i :: 0 <= i < |s| ==> s[i] != '\n' }

  lemma {:induction false} SplitOne(s: string)
    requires NoNewline(s)
    ensures Split(s) == [s]
  {
    assert End(s, 0, NotNewline) == |s|;
  }

  lemma {:induction false} SplitStep(a: string, b: string)
    requires NoNewline(a)
    ensures Split(a + "\n" + b) == [a] + Split(b)
  {
    var s := a + "\n" + b;
    assert s[|a|] == '\n';
    assert forall i :: 0 <= i < |a| ==> s[i] == a[i];
    assert End(s, 0, NotNewline) == |a|;
    assert s[..|a|] == a && s[|a| + 1..] == b;
  }

  /** The first line, and the rest when there is one. */
  lemma SplitCases(s: string) returns (a: string, b: string)
    ensures NoNewline(a)
    ensures NoNewline(s) ==> a == s
    ensures !NoNewline(s) ==> s == a + "\n" + b && |b| < |s|
  {
    var n := End(s, 0, NotNewline);
    a, b := s[..n], if n < |s| then s[n + 1..] else "";
    assert forall i :: 0 <= i < n ==> NotNewline(s[i]) && a[i] == s[i];
    if n < |s| {
      assert s[n] == '\n';
      assert s == a + "\n" + b;
    } else {
      assert a == s;
    }
  }

  lemma {:induction false} SplitOf(a: string, b: string)
    ensures Split(a + "\n" + b) == Split(a) + Split(b)
    decreases |a|
  {
    hide Split;
    var x, y := SplitCases(a);
    if NoNewline(a) {
      SplitOne(a);
      SplitStep(a, b);
    } else {
      SplitOf(y, b);
      assert a + "\n" + b == x + "\n" + (y + "\n" + b);
      SplitStep(x, y + "\n" + b);
      SplitStep(x, y);
    }
  }

  lemma {:induction false} JoinFirst(a: string, ls: seq<string>, sep: string)
    requires ls != []
    ensures Join([a] + ls, sep) == a + sep + Join(ls, sep)
  {
    assert ([a] + ls)[1..] == ls;
  }

  lemma {:induction false} JoinSplit(s: string)
    ensures Join(Split(s), "\n") == s
    decreases |s|
  {
    var a, b := SplitCases(s);
    if NoNewline(s) {
      SplitOne(s);
      assert Join([s], "\n") == s;
    } else {
      SplitStep(a, b);
      JoinSplit(b);
      JoinFirst(a, Split(b), "\n");
    }
  }

  predicate NoNewlines(ls: seq<string>) { forall i :: 0 <= i < |ls| ==> NoNewline(ls[i]) }

  lemma {:induction false} SplitLines(s: string)
    ensures NoNewlines(Split(s))
    decreases |s|
  {
    hide Split, NoNewline;
    var a, b := SplitCases(s);
    if NoNewline(s) {
      SplitOne(s);
    } else {
      SplitStep(a, b);
      SplitLines(b);
    }
  }

  lemma {:induction false} SplitJoin(ls: seq<string>)
    requires ls != [] && NoNewlines(ls)
    ensures Split(Join(ls, "\n")) == ls
  {
    hide Split, NoNewline;
    if |ls| == 1 {
      SplitOne(ls[0]);
      assert ls == [ls[0]];
    } else {
      assert ls == [ls[0]] + ls[1..];
      JoinFirst(ls[0], ls[1..], "\n");
      SplitJoin(ls[1..]);
      SplitStep(ls[0], Join(ls[1..], "\n"));
    }
  }

  // ---------- Escaping line by line ----------

  /** What escaping makes of one character between its neighbours. */
  function Piece(prev: Option<char>, c: char, next: Option<char>): string {
    if c == '\\' then (if next.Some? && IsPunctuation(next.value) then "\\\\" else "\\")
    else if c == '_' && IsWordAt(prev) && IsWordAt(next) then "_"
    else if IsSyntax(c) then ['\\', c]
    else [c]
  }

  lemma {:induction false} PieceStep(prev: Option<char>, c: char, t: string)
    ensures EscapeSyntax(prev, [c] + t) == Piece(prev, c, Head(t)) + EscapeSyntax(Some(c), t)
  {
    EscapeStep(prev, [c] + t);
    assert ([c] + t)[1..] == t;
  }

  /** A newline is neither a word character nor punctuation, so escaping does not look past it. */
  lemma {:induction false} SyntaxSplits(prev: Option<char>, a: string, b: string)
    ensures EscapeSyntax(prev, a + "\n" + b) == EscapeSyntax(prev, a) + "\n" + EscapeSyntax(Some('\n'), b)
    decreases |a|
  {
    var s := a + "\n" + b;
    if a == "" {
      PieceStep(prev, '\n', b);
      assert s == ['\n'] + b;
      assert Piece(prev, '\n', Head(b)) == "\n";
      assert EscapeSyntax(prev, a) == "";
    } else {
      var c, t := a[0], a[1..];
      assert a == [c] + t;
      PieceStep(prev, c, t);
      PieceStep(prev, c, t + "\n" + b);
      SyntaxSplits(Some(c), t, b);
      PieceNewline(prev, c, t, b);
      Regroup([c], t, b);
      Regroup(Piece(prev, c, Head(t)), EscapeSyntax(Some(c), t), EscapeSyntax(Some('\n'), b));
    }
  }

  lemma Regroup(p: string, x: string, y: string)
    ensures p + x + "\n" + y == p + (x + "\n" + y)
  {
  }

  lemma PieceNewline(prev: Option<char>, c: char, t: string, b: string)
    ensures Piece(prev, c, Head(t + "\n" + b)) == Piece(prev, c, Head(t))
  {
  }

  lemma {:induction false} SyntaxPrev(a: Option<char>, b: Option<char>, s: string)
    requires !IsWordAt(a) && !IsWordAt(b)
    ensures EscapeSyntax(a, s) == EscapeSyntax(b, s)
  {
  }

  lemma StartsBlockSplits(a: string, b: string)
    requires a != ""
    ensures StartsBlock(a + "\n" + b) == StartsBlock(a)
  {
    var s := a + "\n" + b;
    assert s[|a|] == '\n' && forall i :: 0 <= i < |a| ==> s[i] == a[i];
    assert StartsWith(s, "- ") == StartsWith(a, "- ") by {
      if |a| >= 2 { assert s[..2] == a[..2]; } else { assert s[1] == '\n'; }
    }
    var n := End(a, 0, IsDigit);
    assert forall i :: 0 <= i < n ==> IsDigit(s[i]);
    assert End(s, 0, IsDigit) == n;
  }

  lemma {:induction false} StartsSplits(at: bool, a: string, b: string)
    ensures EscapeStarts(at, a + "\n" + b) == EscapeStarts(at, a) + "\n" + EscapeStarts(true, b)
    decreases |a|
  {
    var s := a + "\n" + b;
    StartsStep(at, s);
    if a == "" {
      assert s == "\n" + b && s[1..] == b && EndsLine(s[0]);
      assert EscapeStarts(at, a) == "";
      EndIs(s, 0, 0, IsDigit);
      assert !StartsBlock(s);
    } else {
      assert s[0] == a[0] && s[1..] == a[1..] + "\n" + b;
      StartsSplits(EndsLine(a[0]), a[1..], b);
      StartsStep(at, a);
      StartsBlockSplits(a, b);
      Regroup((if at && StartsBlock(a) then "\\" else "") + [a[0]], EscapeStarts(EndsLine(a[0]), a[1..]), EscapeStarts(true, b));
    }
  }

  lemma IsRuleSplits(a: string, b: string)
    ensures IsRule(a + "\n" + b) == IsRule(a)
  {
    var s := a + "\n" + b;
    assert s[|a|] == '\n' && forall i :: 0 <= i < |a| ==> s[i] == a[i];
    if |a| >= 3 { assert s[..3] == a[..3]; }
    else if |s| >= 3 { assert s[..3][|a|] == '\n'; }
  }

  lemma {:induction false} RulesSplits(at: bool, a: string, b: string)
    ensures EscapeRules(at, a + "\n" + b) == EscapeRules(at, a) + "\n" + EscapeRules(true, b)
    decreases |a|
  {
    var s := a + "\n" + b;
    RulesStep(at, s);
    IsRuleSplits(a, b);
    if a == "" {
      assert s == "\n" + b && s[1..] == b && EndsLine(s[0]);
      assert EscapeRules(at, a) == "";
      assert !IsRule(a);
    } else {
      RulesStep(at, a);
      assert s[0] == a[0];
      if at && IsRule(a) {
        assert |a| >= 3;
        assert s[3..] == a[3..] + "\n" + b;
        RulesSplits(false, a[3..], b);
        Regroup("\\-\\-\\-", EscapeRules(false, a[3..]), EscapeRules(true, b));
      } else {
        assert s[1..] == a[1..] + "\n" + b;
        RulesSplits(EndsLine(a[0]), a[1..], b);
        Regroup([a[0]], EscapeRules(EndsLine(a[0]), a[1..]), EscapeRules(true, b));
      }
    }
  }

  /** Escaping goes line by line. */
  lemma EscapeSplits(a: string, b: string)
    ensures EscapeText(a + "\n" + b) == EscapeText(a) + "\n" + EscapeText(b)
  {
    SyntaxSplits(None, a, b);
    SyntaxPrev(Some('\n'), None, b);
    StartsSplits(true, EscapeSyntax(None, a), EscapeSyntax(None, b));
    RulesSplits(true, EscapeStarts(true, EscapeSyntax(None, a)), EscapeStarts(true, EscapeSyntax(None, b)));
  }

  // ---------- What an escaped line starts with ----------

  /** Escaping adds nothing but backslashes. */
  ghost predicate AddsBackslashes(e: string, t: string) { forall c :: c in e ==> c in t || c == '\\' }

  lemma {:induction false} SyntaxAdds(prev: Option<char>, t: string)
    ensures AddsBackslashes(EscapeSyntax(prev, t), t)
    decreases |t|
  {
    if t == "" {
    } else {
      PieceStep(prev, t[0], t[1..]);
      assert t == [t[0]] + t[1..];
      SyntaxAdds(Some(t[0]), t[1..]);
    }
  }

  lemma {:induction false} StartsAdds(at: bool, t: string)
    ensures AddsBackslashes(EscapeStarts(at, t), t)
    decreases |t|
  {
    if t == "" {
    } else {
      StartsStep(at, t);
      assert t == [t[0]] + t[1..];
      StartsAdds(EndsLine(t[0]), t[1..]);
    }
  }

  lemma {:induction false} RulesAdds(at: bool, t: string)
    ensures AddsBackslashes(EscapeRules(at, t), t)
    decreases |t|
  {
    if t == "" {
    } else {
      RulesStep(at, t);
      if at && IsRule(t) {
        RulesAdds(false, t[3..]);
        assert t[0] == '-' && t == t[..3] + t[3..];
      } else {
        assert t == [t[0]] + t[1..];
        RulesAdds(EndsLine(t[0]), t[1..]);
      }
    }
  }

  lemma EscapeAdds(t: string)
    ensures AddsBackslashes(EscapeText(t), t)
  {
    hide EscapeSyntax, EscapeStarts, EscapeRules;
    SyntaxAdds(None, t);
    StartsAdds(true, EscapeSyntax(None, t));
    RulesAdds(true, EscapeStarts(true, EscapeSyntax(None, t)));
  }

  lemma EscapedText(t: string)
    ensures NoNewline(t) ==> NoNewline(EscapeText(t))
    ensures OneLine(t) ==> OneLine(EscapeText(t))
    ensures CleanText(t) ==> CleanText(EscapeText(t))
  {
    hide EscapeText;
    EscapeAdds(t);
    forall i | 0 <= i < |EscapeText(t)| ensures EscapeText(t)[i] in t || EscapeText(t)[i] == '\\' {
      assert EscapeText(t)[i] in EscapeText(t);
    }
  }

  predicate NotEnd(c: char) { !EndsLine(c) }

  /** `e` is `s` up to and including the first line terminator of `s`. */
  ghost predicate SameFront(s: string, e: string) {
    var m := End(s, 0, NotEnd);
    if m == |s| then e == s else |e| > m && e[..m + 1] == s[..m + 1]
  }

  lemma {:induction false} StartsKeepsFront(s: string)
    ensures SameFront(s, EscapeStarts(false, s))
    decreases |s|
  {
    if s == "" {
    } else {
      StartsStep(false, s);
      if !EndsLine(s[0]) {
        StartsKeepsFront(s[1..]);
        FrontFirst(s, EscapeStarts(false, s[1..]));
      } else {
        assert End(s, 0, NotEnd) == 0;
      }
    }
  }

  lemma FrontFirst(s: string, e: string)
    requires s != "" && !EndsLine(s[0]) && SameFront(s[1..], e)
    ensures SameFront(s, [s[0]] + e)
  {
    EndShift(s);
    var m := End(s[1..], 0, NotEnd);
    if m < |s[1..]| {
      assert ([s[0]] + e)[..m + 2] == [s[0]] + e[..m + 1] == [s[0]] + s[1..][..m + 1] == s[..m + 2];
    }
  }

  lemma {:induction false} EndShift(s: string)
    requires s != "" && !EndsLine(s[0])
    ensures End(s, 0, NotEnd) == End(s[1..], 0, NotEnd) + 1
  {
    var m := End(s[1..], 0, NotEnd);
    assert forall i :: 1 <= i < m + 1 ==> s[i] == s[1..][i - 1];
    assert forall i :: 0 <= i < m + 1 ==> NotEnd(s[i]);
    assert m + 1 < |s| ==> s[m + 1] == s[1..][m];
  }

  lemma {:induction false} RulesKeepsFront(s: string)
    ensures SameFront(s, EscapeRules(false, s))
    decreases |s|
  {
    if s == "" {
    } else {
      RulesStep(false, s);
      if !EndsLine(s[0]) {
        RulesKeepsFront(s[1..]);
        FrontFirst(s, EscapeRules(false, s[1..]));
      } else {
        assert End(s, 0, NotEnd) == 0;
      }
    }
  }

  /** What block a line starts, and whether it is a rule, is decided before any line terminator. */
  lemma FrontDecides(s: string, e: string)
    requires s != "" && SameFront(s, e)
    ensures e != "" && e[0] == s[0]
    ensures StartsBlock(e) ==> StartsBlock(s)
    ensures e == "---" ==> s == "---"
  {
    var m := End(s, 0, NotEnd);
    if m < |s| {
      assert forall i :: 0 <= i <= m ==> e[i] == e[..m + 1][i] == s[i];
      assert EndsLine(e[m]);
      var n := End(e, 0, IsDigit);
      assert forall i :: 0 <= i < n ==> !EndsLine(e[i]);
      if StartsOrdered(e) {
        assert n + 1 < m;
        assert End(s, 0, IsDigit) == n;
      }
      if StartsWith(e, "- ") {
        assert e[..2] == "- ";
        assert e[0] == '-' && e[1] == ' ';
        assert m >= 2;
        assert s[..2] == "- ";
      }
    }
  }

  /** The passes after the first keep the front of a line, or put a backslash before it. */
  lemma {:induction false} LineFront(s: string)
    requires s != ""
    ensures var e := EscapeRules(true, EscapeStarts(true, s));
            e != "" && (e[0] == '\\' || e[0] == s[0]) && !StartsBlock(e) && e != "---"
  {
    hide EscapeStarts, EscapeRules, StartsBlock, IsRule;
    var e1 := EscapeStarts(true, s);
    StartsStep(true, s);
    StartsStep(false, s);
    StartsKeepsFront(s);
    FrontDecides(s, EscapeStarts(false, s));
    var e2 := EscapeRules(true, e1);
    RulesStep(true, e1);
    RulesStep(false, e1);
    RulesKeepsFront(e1);
    FrontDecides(e1, EscapeRules(false, e1));
    BackslashStarts(e1);
    BackslashStarts(e2);
  }

  lemma BackslashStarts(e: string)
    requires e != ""
    ensures e[0] == '\\' ==> !StartsBlock(e) && e != "---"
    ensures !IsRule(e) ==> e != "---"
  {
  }

  /** A line of escaped text is read as part of a paragraph and as no other kind of block. */
  lemma EscapedLine(l: string)
    requires l != "" && NoNewline(l) && !IsSpace(l[0])
    ensures ParagraphLine(EscapeText(l)) && NoNewline(EscapeText(l)) && EscapeText(l)[0] != '`'
  {
    EscapedText(l);
    SyntaxHead(l);
    LineFront(EscapeSyntax(None, l));
    assert !IsSpace('\\');
  }

  lemma {:induction false} SyntaxHead(l: string)
    requires l != ""
    ensures var e := EscapeSyntax(None, l); e != "" && (e[0] == '\\' || (e[0] == l[0] && !IsSyntax(e[0])))
  {
  }

  /** The text of an item is empty with the original and never opens a check box. */
  lemma EscapedItem(t: string)
    ensures EscapeText(t) == "" <==> t == ""
    ensures t != "" ==> EscapeText(t)[0] != '['
  {
    if t == "" {
    } else {
      SyntaxHead(t);
      LineFront(EscapeSyntax(None, t));
    }
  }
}
