/** Documents of unmarked runs survive printing and parsing: every kind of block, task forests of
    any shape, code with any backticks, quotes and callouts nested to the depth cap. */
module MarkdownRoundTrip {
  import opened Text
  import opened NoteDocument
  import opened Markdown
  import opened MarkdownEscape
  import opened MarkdownBlocks
  import opened MarkdownLines

  // ---------- Runs ----------

  /** At most one run, without marks, not empty. */
  predicate SimpleRuns(rs: seq<Inline>) {
    |rs| <= 1 && forall i :: 0 <= i < |rs| ==>
      rs[i].marks == None && rs[i].text != "" && CleanText(rs[i].text) && Utf8(rs[i].text) <= MAX_INLINE_BYTES
  }

  function TextOf(rs: seq<Inline>): string { if rs == [] then "" else rs[0].text }

  predicate LineRuns(rs: seq<Inline>) { SimpleRuns(rs) && OneLine(TextOf(rs)) }

  function DropRuns(rs: seq<Inline>): (r: seq<Inline>)
    ensures |r| == |rs|
  {
    seq(|rs|, i requires 0 <= i < |rs| => rs[i].(text := Drop(rs[i].text)))
  }

  lemma EscapeNothing()
    ensures EscapeText("") == ""
  {
  }

  lemma RunsReads(url: UrlCheck, rs: seq<Inline>)
    requires SimpleRuns(rs)
    ensures RenderInlines(url, rs) == Ok(EscapeText(TextOf(rs)))
    ensures ParseInlines(url, EscapeText(TextOf(rs))) == Ok(DropRuns(rs))
  {
    hide EscapeText, Drop, Utf8, CleanText;
    if rs == [] {
      EscapeNothing();
      assert ParseInlines(url, "") == Ok([]);
    } else {
      DropSmaller(rs[0].text);
      EscapeRoundTrip(url, rs[0].text);
      assert DropRuns(rs) == [Inline(Drop(rs[0].text), None)];
      RenderOne(url, rs[0].text);
      assert rs == [Inline(rs[0].text, None)];
    }
  }

  lemma RenderOne(url: UrlCheck, t: string)
    ensures RenderInlines(url, [Inline(t, None)]) == Ok(EscapeText(t))
  {
    hide EscapeText;
    var rs, text := [Inline(t, None)], EscapeText(t);
    var none: seq<Mark> := [];
    assert rs[1..] == [] && MarksOf(rs[0]) == none && none[0..] == none;
    assert RenderRuns(url, [], none) == Ok("");
    assert CloseMarks(none) + OpenMarks(none) + text + "" == text;
  }

  // ---------- The documents ----------

  predicate SimpleTask(t: TaskItem, depth: nat)
    decreases t, 0
  {
    LineRuns(t.inlines) && depth + 1 <= MAX_DEPTH && |t.children| <= MAX_LIST_ITEMS && SimpleTasks(t.children, depth + 1)
  }

  predicate SimpleTasks(ts: seq<TaskItem>, depth: nat)
    decreases ts, 1
  {
    ts != [] ==> SimpleTask(ts[0], depth) && SimpleTasks(ts[1..], depth)
  }

  predicate SimpleItems(items: seq<ListItem>) {
    forall i :: 0 <= i < |items| ==> items[i].Item? && LineRuns(items[i].inlines)
  }

  predicate ParagraphText(s: string) {
    forall i :: 0 <= i < |Split(s)| ==> Split(s)[i] != "" && !IsSpace(Split(s)[i][0])
  }

  predicate SimpleTitle(kind: Option<ListKind>, title: Option<string>) {
    title.Some? ==> kind == Some(RichTaskList) && title.value != "" && TitleText(title.value)
  }

  /** The blocks of this class that the parser is promised to read back, at this depth. */
  predicate Simple(b: Block, depth: nat)
    decreases b, 0
  {
    match b
    case Paragraph(inlines) => SimpleRuns(inlines) && inlines != [] && ParagraphText(TextOf(inlines))
    case Heading(level, inlines) => 1 <= level <= 3 && LineRuns(inlines)
    case BulletList(items) => 0 < |items| <= MAX_LIST_ITEMS && SimpleItems(items)
    case OrderedList(items) => 0 < |items| <= MAX_LIST_ITEMS && SimpleItems(items)
    case TaskList(kind, title, tasks) =>
      SimpleTitle(kind, title) && 0 < |tasks| <= MAX_LIST_ITEMS && SimpleTasks(tasks, depth) && depth + 1 <= MAX_DEPTH
    case Blockquote(blocks) => blocks != [] && SimpleAll(blocks, depth + 1) && Count(blocks) <= MAX_BLOCKS
    case Callout(_, blocks) => blocks != [] && SimpleAll(blocks, depth + 1)
    case CodeBlock(text, language) => CleanText(text)
    case Table(columns, rows) =>
      AllClean(columns) && (forall i :: 0 <= i < |rows| ==> AllClean(rows[i])) && Validate([b]) == None
    case HorizontalRule => true
    case Opaque(_, _) => true
    case Reference(_) => false
  }

  predicate SimpleAll(bs: seq<Block>, depth: nat)
    decreases bs, 1
  {
    depth <= MAX_DEPTH && (bs != [] ==> Simple(bs[0], depth) && SimpleAll(bs[1..], depth))
  }

  /** How many blocks one parser counts: those inside a quote are counted by a parser of their own. */
  function Count(bs: seq<Block>): nat
    decreases bs, 1
  {
    if bs == [] then 0 else 1 + CountIn(bs[0]) + Count(bs[1..])
  }

  function CountIn(b: Block): nat
    decreases b, 0
  {
    match b
    case Callout(_, blocks) => Count(blocks)
    case _ => 0
  }

  function DropTasks(ts: seq<TaskItem>): (r: seq<TaskItem>)
    ensures |r| == |ts|
  {
    if ts == [] then []
    else [TaskItem(ts[0].checked, DropRuns(ts[0].inlines), DropTasks(ts[0].children))] + DropTasks(ts[1..])
  }

  function DropItems(items: seq<ListItem>): (r: seq<ListItem>)
    ensures |r| == |items|
  {
    seq(|items|, i requires 0 <= i < |items| => Item(DropRuns(items[i].inlines)))
  }

  /** The document without the backslashes that reading loses. */
  function Dropped(b: Block): Block
    decreases b, 0
  {
    match b
    case Paragraph(inlines) => Paragraph(DropRuns(inlines))
    case Heading(level, inlines) => Heading(level, DropRuns(inlines))
    case BulletList(items) => BulletList(DropItems(items))
    case OrderedList(items) => OrderedList(DropItems(items))
    case TaskList(kind, title, tasks) => TaskList(kind, title, DropTasks(tasks))
    case Blockquote(blocks) => Blockquote(DroppedAll(blocks))
    case Callout(v, blocks) => Callout(v, DroppedAll(blocks))
    case _ => b
  }

  function DroppedAll(bs: seq<Block>): (r: seq<Block>)
    ensures |r| == |bs|
    decreases bs, 1
  {
    if bs == [] then [] else [Dropped(bs[0])] + DroppedAll(bs[1..])
  }

  // ---------- Where a block stands ----------

  /** The lines of `text` stand at `pos`. */
  ghost predicate Stands(lines: seq<string>, pos: nat, text: string) {
    pos + |Split(text)| <= |lines| && lines[pos..pos + |Split(text)|] == Split(text)
  }

  /** Nothing, a blank line or a closing directive follows. */
  predicate Ended(lines: seq<string>, pos: nat) {
    pos <= |lines| && (pos < |lines| ==> lines[pos] == "" || lines[pos] == CLOSE)
  }

  lemma {:induction false} StandsLine(lines: seq<string>, pos: nat, text: string)
    requires Stands(lines, pos, text) && NoNewline(text)
    ensures pos < |lines| && lines[pos] == text && |Split(text)| == 1
  {
    SplitOne(text);
    assert lines[pos..pos + 1][0] == lines[pos];
  }

  lemma {:induction false} StandsSplit(lines: seq<string>, pos: nat, a: string, b: string)
    requires Stands(lines, pos, a + "\n" + b)
    ensures Stands(lines, pos, a) && Stands(lines, pos + |Split(a)|, b)
    ensures |Split(a + "\n" + b)| == |Split(a)| + |Split(b)|
  {
    hide Split;
    SplitOf(a, b);
    var n, m := |Split(a)|, |Split(b)|;
    var all := lines[pos..pos + n + m];
    assert all == Split(a) + Split(b);
    assert lines[pos..pos + n] == all[..n];
    assert lines[pos + n..pos + n + m] == all[n..];
  }

  lemma {:induction false} StandsJoined(lines: seq<string>, pos: nat, text: string)
    requires Stands(lines, pos, text)
    ensures Join(lines[pos..pos + |Split(text)|], "\n") == text
  {
    JoinSplit(text);
  }

  /** The block at `pos` is read as `b`, and the parser stands after its lines. */
  ghost predicate ReadsBlock(url: UrlCheck, lines: seq<string>, pos: nat, count: nat, depth: nat, text: string,
                             b: Block) {
    && Stands(lines, pos, text) && pos < |lines| && depth <= MAX_DEPTH
    && lines[pos] != "" && lines[pos] != CLOSE
    && BlockAt(url, lines, pos, count, depth) == Ok(Parsed(Dropped(b), pos + |Split(text)|, count + CountIn(b)))
  }

  lemma LineKinds(l: string)
    ensures !StartsWith(l, CLOSE) ==> l != CLOSE
    ensures StartsWith(l, "- ") || StartsOrdered(l) || StartsTask(l) || FenceLine(l).Some? ==> l != ""
  {
  }

  // ---------- Headings, rules and paragraphs ----------

  lemma HeadingLine(level: nat, e: string)
    requires 1 <= level <= 3 && OneLine(e)
    ensures var l := Repeat('#', level) + " " + e;
            && ReadHeading(l) == Some((level, e))
            && !StartsWith(l, CLOSE) && FenceLine(l) == None && !StartsTask(l) && l != "---"
            && !StartsWith(l, "- ") && !StartsOrdered(l) && !IsQuoteLine(l) && NoNewline(l)
  {
    var l := Repeat('#', level) + " " + e;
    assert l[0] == '#';
    assert forall i :: 0 <= i < level ==> l[i] == '#';
    assert l[level] == ' ';
    EndIs(l, 0, level, IsHash);
    assert l[level + 1..] == e;
    EndNone(l, IsTick);
    EndNone(l, IsDigit);
  }

  lemma {:induction false} EndNone(s: string, p: char -> bool)
    requires s == "" || !p(s[0])
    ensures End(s, 0, p) == 0
  {
  }

  lemma TaskDash(l: string)
    ensures StartsTask(l) ==> StartsWith(l, "- ")
  {
    if StartsTask(l) { assert l[..2] == l[..3][..2]; }
  }

  lemma HeadingReads(url: UrlCheck, level: nat, rs: seq<Inline>, lines: seq<string>, pos: nat, count: nat, depth: nat)
    requires 1 <= level <= 3 && LineRuns(rs) && depth <= MAX_DEPTH
    requires var text := Repeat('#', level) + " " + EscapeText(TextOf(rs)); Stands(lines, pos, text)
    ensures ReadsBlock(url, lines, pos, count, depth, Repeat('#', level) + " " + EscapeText(TextOf(rs)), Heading(level, rs))
  {
    hide EscapeText, StartsTask, StartsOrdered, Split, SimpleRuns, OneLine, FenceLine, ReadHeading;
    EscapedText(TextOf(rs));
    HeadingLine(level, EscapeText(TextOf(rs)));
    StandsLine(lines, pos, Repeat('#', level) + " " + EscapeText(TextOf(rs)));
    RunsReads(url, rs);
  }

  lemma RuleReads(url: UrlCheck, lines: seq<string>, pos: nat, count: nat, depth: nat)
    requires depth <= MAX_DEPTH && Stands(lines, pos, "---")
    ensures ReadsBlock(url, lines, pos, count, depth, "---", HorizontalRule)
  {
    hide Split;
    StandsLine(lines, pos, "---");
    EndNone("---", IsTick);
  }

  function EscapedLines(ls: seq<string>): (r: seq<string>)
    ensures |r| == |ls|
  {
    seq(|ls|, i requires 0 <= i < |ls| => EscapeText(ls[i]))
  }

  lemma {:induction false} EscapeLines(t: string)
    ensures Split(EscapeText(t)) == EscapedLines(Split(t))
    decreases |t|
  {
    hide Split, EscapeText;
    var a, b := SplitCases(t);
    EscapedText(a);
    if NoNewline(t) {
      SplitOne(t);
      SplitOne(EscapeText(t));
    } else {
      SplitStep(a, b);
      EscapeSplits(a, b);
      SplitStep(EscapeText(a), EscapeText(b));
      EscapeLines(b);
      assert EscapedLines([a] + Split(b)) == [EscapeText(a)] + EscapedLines(Split(b));
    }
  }

  /** The lines of an escaped paragraph are paragraph lines that open no fence. */
  lemma ParagraphLines(t: string)
    requires ParagraphText(t)
    ensures forall i :: 0 <= i < |Split(EscapeText(t))| ==>
              ParagraphLine(Split(EscapeText(t))[i]) && Split(EscapeText(t))[i][0] != '`'
  {
    EscapeLines(t);
    SplitLines(t);
    forall i | 0 <= i < |Split(t)|
      ensures ParagraphLine(EscapeText(Split(t)[i])) && EscapeText(Split(t)[i]) != "" && EscapeText(Split(t)[i])[0] != '`'
    {
      EscapedLine(Split(t)[i]);
    }
  }

  /** A paragraph line is read as nothing else. */
  lemma OnlyParagraph(l: string)
    requires ParagraphLine(l) && l[0] != '`'
    ensures !StartsWith(l, CLOSE) && FenceLine(l) == None && !StartsTask(l) && l != "---"
    ensures !StartsWith(l, "- ") && !StartsOrdered(l) && !IsQuoteLine(l) && ReadHeading(l) == None
    ensures !EndsParagraph(l)
  {
    hide IsSpace, StartsOrdered;
    EndNone(l, IsTick);
    EndNone(l, IsHash);
    TaskDash(l);
  }

  lemma {:induction false} FirstLineIs(lines: seq<string>, pos: nat, e: nat, p: string -> bool)
    requires pos <= e <= |lines| && (forall i :: pos <= i < e ==> !p(lines[i])) && (e < |lines| ==> p(lines[e]))
    ensures FirstLine(lines, pos, p) == e
  {
  }

  lemma ParagraphReads(url: UrlCheck, rs: seq<Inline>, lines: seq<string>, pos: nat, count: nat, depth: nat)
    requires SimpleRuns(rs) && rs != [] && ParagraphText(TextOf(rs)) && depth <= MAX_DEPTH
    requires Stands(lines, pos, EscapeText(TextOf(rs))) && Ended(lines, pos + |Split(EscapeText(TextOf(rs)))|)
    ensures ReadsBlock(url, lines, pos, count, depth, EscapeText(TextOf(rs)), Paragraph(rs))
  {
    hide EscapeText, StartsTask, StartsOrdered, Split, SimpleRuns, FenceLine, ReadHeading, ParagraphText,
      ParagraphLine, IsQuoteLine, FirstLine;
    var text := EscapeText(TextOf(rs));
    var n := |Split(text)|;
    ParagraphLines(TextOf(rs));
    forall i | pos <= i < pos + n ensures ParagraphLine(lines[i]) && !EndsParagraph(lines[i]) {
      assert lines[i] == lines[pos..pos + n][i - pos] == Split(text)[i - pos];
      OnlyParagraph(lines[i]);
    }
    assert lines[pos] == lines[pos..pos + n][0] == Split(text)[0];
    OnlyParagraph(lines[pos]);
    FirstLineIs(lines, pos + 1, pos + n, EndsParagraph);
    StandsJoined(lines, pos, text);
    RunsReads(url, rs);
  }

  // ---------- Code ----------

  /** Every line of `s` that is all backticks is no longer than its longest run of them. */
  lemma {:induction false} RunsBound(s: string, run: nat)
    ensures LongestRun(s, run) >= run
    decreases |s|
  {
    if s != "" {
      if s[0] == '`' { RunsBound(s[1..], run + 1); }
    }
  }

  lemma {:induction false} TicksCounted(a: string, n: nat, b: string, run: nat)
    ensures LongestRun(a + Repeat('`', n) + b, run) >= n
    decreases |a| + n
  {
    var s := a + Repeat('`', n) + b;
    if a != "" {
      assert s[1..] == a[1..] + Repeat('`', n) + b;
      TicksCounted(a[1..], n, b, if s[0] == '`' then run + 1 else 0);
    } else {
      TicksFront(n, b, run);
      assert s == Repeat('`', n) + b;
    }
  }

  lemma {:induction false} TicksFront(n: nat, b: string, run: nat)
    ensures LongestRun(Repeat('`', n) + b, run) >= run + n
  {
    var s := Repeat('`', n) + b;
    if n == 0 {
      RunsBound(s, run);
    } else {
      assert s[1..] == Repeat('`', n - 1) + b;
      TicksFront(n - 1, b, run + 1);
    }
  }

  /** Every line of a text is a part of it. */
  lemma {:induction false} LineInside(s: string, i: nat) returns (a: string, b: string)
    requires i < |Split(s)|
    ensures s == a + Split(s)[i] + b
    decreases |s|
  {
    hide Split;
    var x, y := SplitCases(s);
    if NoNewline(s) {
      SplitOne(s);
      a, b := "", "";
    } else {
      SplitStep(x, y);
      if i == 0 {
        a, b := "", "\n" + y;
      } else {
        var a', b' := LineInside(y, i - 1);
        a, b := x + "\n" + a', b';
      }
    }
  }

  lemma {:induction false} TickLine(s: string, i: nat, n: nat)
    requires i < |Split(s)| && Split(s)[i] == Repeat('`', n)
    ensures n <= LongestRun(s, 0)
  {
    hide Split;
    var a, b := LineInside(s, i);
    TicksCounted(a, n, b, 0);
  }

  /** No line of the text closes the fence. */
  lemma {:induction false} FenceUnlike(s: string, i: nat)
    requires i < |Split(s)|
    ensures Split(s)[i] != Fence(s)
  {
    hide Split;
    if Split(s)[i] == Fence(s) { TickLine(s, i, |Fence(s)|); }
  }

  lemma FenceOpens(text: string, language: string)
    requires language == "" || LanguageText(language)
    ensures var l := Fence(text) + language;
            FenceLine(l) == Some((Fence(text), language)) && !StartsWith(l, CLOSE) && NoNewline(l) && NoNewline(Fence(text))
  {
    var l := Fence(text) + language;
    assert l[0] == '`';
    assert forall i :: 0 <= i < |Fence(text)| ==> l[i] == '`';
    EndIs(l, 0, |Fence(text)|, IsTick);
    assert l[..|Fence(text)|] == Fence(text) && l[|Fence(text)|..] == language;
  }

  lemma {:induction false} CodeReads(url: UrlCheck, text: string, language: Option<string>, lines: seq<string>,
                                     pos: nat, count: nat, depth: nat)
    requires depth <= MAX_DEPTH && Utf8(text) <= MAX_INLINE_BYTES && (language.Some? ==> LanguageText(language.value))
    requires var name := if language.Some? then language.value else "";
             Stands(lines, pos, Fence(text) + name + "\n" + text + "\n" + Fence(text))
    ensures var name := if language.Some? then language.value else "";
            ReadsBlock(url, lines, pos, count, depth, Fence(text) + name + "\n" + text + "\n" + Fence(text), CodeBlock(text, language))
  {
    hide Count, DropTasks, DropItems, DroppedAll, StartsOrdered, Fence, ParseInlines, Split, Join, FenceLine,
      StartsTask, IsQuoteLine, ReadHeading, ParagraphLine, TasksAt, FirstLine, EndsParagraph, UnquotedAll, Blocks,
      CodeAt, DirectiveAt, NoNewline, MAX_DEPTH, StartsWith;
    var name := if language.Some? then language.value else "";
    var n := |Split(text)|;
    FenceOpens(text, name);
    assert Fence(text) + name + "\n" + text + "\n" + Fence(text) == (Fence(text) + name + "\n" + text) + "\n" + Fence(text);
    StandsSplit(lines, pos, Fence(text) + name + "\n" + text, Fence(text));
    StandsSplit(lines, pos, Fence(text) + name, text);
    StandsLine(lines, pos, Fence(text) + name);
    StandsLine(lines, pos + 1 + n, Fence(text));
    forall i | pos + 1 <= i < pos + 1 + n ensures lines[i] != Fence(text) {
      assert lines[i] == lines[pos + 1..pos + 1 + n][i - pos - 1] == Split(text)[i - pos - 1];
      FenceUnlike(text, i - pos - 1);
    }
    LineKinds(Fence(text) + name);
    FirstLineIs(lines, pos + 1, pos + 1 + n, l => l == Fence(text));
    StandsJoined(lines, pos + 1, text);
    CodeIs(lines, pos, count, (Fence(text), name), pos + 1 + n);
    assert language == (if name == "" then None else Some(name));
  }

  lemma {:induction false} CodeIs(lines: seq<string>, pos: nat, count: nat, fence: (string, string), end: nat)
    requires pos < end < |lines| && FirstLine(lines, pos + 1, l => l == fence.0) == end
    requires Utf8(Join(lines[pos + 1..end], "\n")) <= MAX_INLINE_BYTES
    ensures CodeAt(lines, pos, count, fence)
         == Ok(Parsed(CodeBlock(Join(lines[pos + 1..end], "\n"), if fence.1 == "" then None else Some(fence.1)), end + 1, count))
  {
    hide Utf8, Join, FirstLine;
  }

  // ---------- Tables and opaque blocks ----------

  /** A directive line is read by its keyword. */
  lemma DirectiveLine(rest: string)
    ensures StartsWith(DIRECTIVE + rest, CLOSE) && DIRECTIVE + rest != "" && DIRECTIVE + rest != CLOSE
  {
    assert (DIRECTIVE + rest)[..3] == ":::";
  }

  lemma TableLine()
    ensures NoNewline(DIRECTIVE + "table") && NoNewline(CLOSE)
  {
  }

  lemma {:induction false} QuoteNoNewline(s: string)
    ensures NoNewline(MarkdownJson.QuoteBody(s))
  {
    if s != "" {
      QuoteNoNewline(s[1..]);
      assert NoNewline(MarkdownJson.QuoteChar(s[0]));
    }
  }

  lemma {:induction false} StringsNoNewline(ss: seq<string>)
    ensures NoNewline(MarkdownJson.StringsTail(ss))
  {
    if ss != [] {
      QuoteNoNewline(ss[0]);
      StringsNoNewline(ss[1..]);
    }
  }

  lemma {:induction false} RowsNoNewline(rows: seq<seq<string>>)
    ensures NoNewline(MarkdownJson.RowsTail(rows))
  {
    if rows != [] {
      StringsNoNewline(rows[0]);
      RowsNoNewline(rows[1..]);
    }
  }

  lemma TableNoNewline(columns: seq<string>, rows: seq<seq<string>>)
    ensures NoNewline(MarkdownJson.TableJson(columns, rows))
  {
    StringsNoNewline(columns);
    RowsNoNewline(rows);
    hide MarkdownJson.StringsTail, MarkdownJson.RowsTail;
    assert NoNewline(MarkdownJson.COLUMNS) && NoNewline(MarkdownJson.ROWS);
  }

  lemma TableReads(url: UrlCheck, columns: seq<string>, rows: seq<seq<string>>, lines: seq<string>, pos: nat,
                   count: nat, depth: nat)
    requires depth <= MAX_DEPTH && MarkdownJson.PlainTexts(columns) && MarkdownJson.PlainRows(rows)
    requires Validate([Table(columns, rows)]) == None && Utf8(MarkdownJson.TableJson(columns, rows)) <= MAX_BLOCK_BYTES
    requires Stands(lines, pos, DIRECTIVE + "table\n" + MarkdownJson.TableJson(columns, rows) + "\n" + CLOSE)
    ensures ReadsBlock(url, lines, pos, count, depth, DIRECTIVE + "table\n" + MarkdownJson.TableJson(columns, rows) + "\n" + CLOSE, Table(columns, rows))
  {
    hide Split, NoNewline, Utf8, Validate, MarkdownJson.TableJson, MarkdownJson.ReadTable, MarkdownJson.PlainTexts,
      MarkdownJson.PlainRows, DIRECTIVE;
    var json := MarkdownJson.TableJson(columns, rows);
    TableLine();
    TableNoNewline(columns, rows);
    DirectiveLine("table");
    assert DIRECTIVE + "table\n" + json + "\n" + CLOSE == (DIRECTIVE + "table" + "\n" + json) + "\n" + CLOSE;
    StandsSplit(lines, pos, DIRECTIVE + "table" + "\n" + json, CLOSE);
    StandsSplit(lines, pos, DIRECTIVE + "table", json);
    StandsLine(lines, pos, DIRECTIVE + "table");
    StandsLine(lines, pos + 1, json);
    StandsLine(lines, pos + 2, CLOSE);
    MarkdownJson.TableExact(json, columns, rows);
    assert BlockAt(url, lines, pos, count, depth) == DirectiveAt(url, lines, pos, count, depth);
  }

  lemma OpaqueLine(nodeType: string, rest: string)
    requires NodeTypeText(nodeType)
    ensures var l := DIRECTIVE + "opaque " + nodeType;
            && NoNewline(l) && l != DIRECTIVE + "table" && Word(l, DIRECTIVE + "callout ") == None
            && ListLine(l, DIRECTIVE + "list ") == None
            && StartsWith(l, DIRECTIVE + "opaque ") && l[|DIRECTIVE| + 7..] == nodeType
  {
    var n := |DIRECTIVE|;
    var l := DIRECTIVE + "opaque " + nodeType;
    assert l[n] == 'o' && (DIRECTIVE + "callout ")[n] == 'c' && (DIRECTIVE + "list ")[n] == 'l' && (DIRECTIVE + "table")[n] == 't';
    assert l[..n + 7] == DIRECTIVE + "opaque ";
  }

  lemma ReferenceLine(source: SentinelSource, token: string)
    requires TokenText(token)
    ensures var l := "ref:1:" + SourceName(source) + ":" + token;
            NoNewline(l) && ReadReference(l) == Some(Sentinel(source, token))
  {
    var l := "ref:1:" + SourceName(source) + ":" + token;
    var prefix := "ref:1:" + SourceName(source) + ":";
    assert l == prefix + token && NoNewline(prefix);
    assert NoNewline(token);
    if source == NativeHtml {
      assert prefix == "ref:1:native-html:" && l[18..] == token;
    } else {
      assert prefix == "ref:1:native-tiptap:" && l[20..] == token;
      assert l[13] == 't' && "ref:1:native-html:"[13] == 'h';
    }
  }

  lemma OpaqueReads(url: UrlCheck, nodeType: string, sentinel: Sentinel, lines: seq<string>, pos: nat, count: nat,
                    depth: nat)
    requires depth <= MAX_DEPTH && NodeTypeText(nodeType) && TokenText(sentinel.token) && Utf8(sentinel.token) <= MAX_SENTINEL_BYTES
    requires Stands(lines, pos, DIRECTIVE + "opaque " + nodeType + "\nref:1:" + SourceName(sentinel.source) + ":" + sentinel.token + "\n" + CLOSE)
    ensures ReadsBlock(url, lines, pos, count, depth, DIRECTIVE + "opaque " + nodeType + "\nref:1:" + SourceName(sentinel.source) + ":" + sentinel.token + "\n" + CLOSE,
                       Opaque(nodeType, sentinel))
  {
    hide Split, NoNewline, Utf8, NodeTypeText, TokenText, SourceName, ReadReference, Word, ListLine, DIRECTIVE;
    var l, ref := DIRECTIVE + "opaque " + nodeType, "ref:1:" + SourceName(sentinel.source) + ":" + sentinel.token;
    OpaqueLine(nodeType, "");
    ReferenceLine(sentinel.source, sentinel.token);
    TableLine();
    DirectiveLine("opaque " + nodeType);
    assert DIRECTIVE + "opaque " + nodeType == DIRECTIVE + ("opaque " + nodeType);
    assert DIRECTIVE + "opaque " + nodeType + "\nref:1:" + SourceName(sentinel.source) + ":" + sentinel.token + "\n" + CLOSE
        == (l + "\n" + ref) + "\n" + CLOSE;
    StandsSplit(lines, pos, l + "\n" + ref, CLOSE);
    StandsSplit(lines, pos, l, ref);
    StandsLine(lines, pos, l);
    StandsLine(lines, pos + 1, ref);
    StandsLine(lines, pos + 2, CLOSE);
    assert BlockAt(url, lines, pos, count, depth) == DirectiveAt(url, lines, pos, count, depth);
    assert DirectiveAt(url, lines, pos, count, depth) == OpaqueAt(lines, pos, count, nodeType);
  }

  // ---------- Ordinary lists ----------

  function Power(k: nat): nat { if k == 0 then 1 else 10 * Power(k - 1) }

  lemma {:induction false} DecimalShort(n: nat, k: nat)
    requires k > 0 && n < Power(k)
    ensures 1 <= |Decimal(n)| <= k && forall i :: 0 <= i < |Decimal(n)| ==> IsDigit(Decimal(n)[i])
  {
    if n >= 10 {
      assert k > 1;
      assert n / 10 < Power(k - 1);
      DecimalShort(n / 10, k - 1);
    }
  }

  lemma {:induction false} OrderedLine(i: nat, e: string)
    requires i < 10_000 && OneLine(e)
    ensures var l := Decimal(i) + ". " + e;
            && StartsOrdered(l) && ReadItem(l, true) == Some(e) && NoNewline(l)
            && !StartsWith(l, CLOSE) && FenceLine(l) == None && !StartsTask(l) && l != "---"
  {
    assert Power(4) == 10_000;
    DecimalShort(i, 4);
    var d := Decimal(i);
    var l := d + ". " + e;
    assert l[|d|] == '.' && l[|d| + 1] == ' ';
    assert forall j :: 0 <= j < |d| ==> l[j] == d[j];
    EndIs(l, 0, |d|, IsDigit);
    assert l[|d| + 2..] == e;
    EndNone(l, IsTick);
  }

  lemma BulletLine(e: string)
    requires OneLine(e) && (e != "" ==> e[0] != '[')
    ensures var l := "- " + e;
            && StartsWith(l, "- ") && !StartsOrdered(l) && ReadItem(l, false) == Some(e) && NoNewline(l)
            && !StartsWith(l, CLOSE) && FenceLine(l) == None && !StartsTask(l) && l != "---"
  {
    var l := "- " + e;
    assert l[..2] == "- " && l[2..] == e && l[1] == ' ';
    EndNone(l, IsTick);
    EndNone(l, IsDigit);
    if |l| >= 3 { assert l[2] == e[0] && l[..3][2] == l[2]; }
  }

  /** The line of one item. */
  lemma ItemLine(ordered: bool, i: nat, e: string)
    requires i < 10_000 && OneLine(e) && (e != "" ==> e[0] != '[')
    ensures var l := ItemPrefix(ordered, i) + e;
            && ReadItem(l, ordered) == Some(e) && NoNewline(l) && StartsOrdered(l) == ordered
            && (StartsWith(l, "- ") || StartsOrdered(l))
            && !StartsWith(l, CLOSE) && FenceLine(l) == None && !StartsTask(l) && l != "---"
  {
    hide ReadItem, StartsOrdered, NoNewline, OneLine, FenceLine, StartsTask, Decimal;
    if ordered { OrderedLine(i, e); } else { BulletLine(e); }
  }

  lemma EndsItems(lines: seq<string>, pos: nat, ordered: bool)
    requires Ended(lines, pos)
    ensures pos == |lines| || ReadItem(lines[pos], ordered) == None
  {
    EndNone("", IsDigit);
    EndNone(CLOSE, IsDigit);
  }

  function ItemText(ordered: bool, i: nat, item: ListItem): string {
    ItemPrefix(ordered, i) + EscapeText(TextOf(item.inlines))
  }

  function ItemTexts(items: seq<ListItem>, ordered: bool, i: nat): string {
    if items == [] then ""
    else if |items| == 1 then ItemText(ordered, i, items[0])
    else ItemText(ordered, i, items[0]) + "\n" + ItemTexts(items[1..], ordered, i + 1)
  }

  lemma {:induction false} ItemsRendered(url: UrlCheck, items: seq<ListItem>, ordered: bool, i: nat)
    requires SimpleItems(items)
    ensures RenderItems(url, items, ordered, i) == Ok(ItemTexts(items, ordered, i))
  {
    hide RenderInlines, SimpleRuns, ItemPrefix, EscapeText;
    if items != [] {
      RunsReads(url, items[0].inlines);
      ItemsRendered(url, items[1..], ordered, i + 1);
    }
  }

  lemma SimpleItem(item: ListItem)
    requires LineRuns(item.inlines)
    ensures var e := EscapeText(TextOf(item.inlines)); OneLine(e) && (e != "" ==> e[0] != '[')
  {
    hide EscapeText, SimpleRuns;
    EscapedText(TextOf(item.inlines));
    EscapedItem(TextOf(item.inlines));
  }

  lemma ItemFirst(items: seq<ListItem>, ordered: bool, i: nat, lines: seq<string>, pos: nat)
    requires items != [] && SimpleItems(items) && i + |items| < 10_000
    requires Stands(lines, pos, ItemTexts(items, ordered, i))
    ensures pos < |lines| && lines[pos] == ItemText(ordered, i, items[0])
    ensures ReadItem(lines[pos], ordered) == Some(EscapeText(TextOf(items[0].inlines)))
    ensures |items| > 1 ==> Stands(lines, pos + 1, ItemTexts(items[1..], ordered, i + 1))
  {
    hide Split, ReadItem, StartsOrdered, NoNewline, OneLine, FenceLine, StartsTask, EscapeText, ItemPrefix,
      SimpleRuns, ItemTexts;
    SimpleItem(items[0]);
    ItemLine(ordered, i, EscapeText(TextOf(items[0].inlines)));
    var l := ItemText(ordered, i, items[0]);
    SplitOne(l);
    ItemTextsStep(items, ordered, i);
    if |items| > 1 { StandsSplit(lines, pos, l, ItemTexts(items[1..], ordered, i + 1)); }
    StandsLine(lines, pos, l);
  }

  lemma {:induction false} ItemsReads(url: UrlCheck, items: seq<ListItem>, ordered: bool, i: nat, lines: seq<string>,
                                      pos: nat, n: nat)
    requires items != [] && SimpleItems(items) && i + |items| < 10_000 && n + |items| <= MAX_LIST_ITEMS
    requires Stands(lines, pos, ItemTexts(items, ordered, i)) && Ended(lines, pos + |items|)
    ensures Items(url, lines, pos, ordered, n) == Ok(Parsed(DropItems(items), pos + |items|, 0))
    decreases |items|
  {
    hide SimpleRuns, TextOf, DropRuns, DropItems, Stands, ItemText, ItemTexts, EscapeText, RenderInlines,
      ParseInlines, CLOSE, OneLine, ReadItem, Items, MAX_LIST_ITEMS;
    ItemFirst(items, ordered, i, lines, pos);
    RunsReads(url, items[0].inlines);
    if |items| == 1 {
      EndsItems(lines, pos + 1, ordered);
      assert pos + 1 <= |lines|;
      ItemsEnd(url, lines, pos + 1, ordered, n + 1);
    } else {
      ItemsReads(url, items[1..], ordered, i + 1, lines, pos + 1, n + 1);
    }
    ItemsStep(url, lines, pos, ordered, n);
    DropItemsStep(items);
  }

  lemma ItemTextsStep(items: seq<ListItem>, ordered: bool, i: nat)
    requires items != []
    ensures ItemTexts(items, ordered, i)
         == if |items| == 1 then ItemText(ordered, i, items[0])
            else ItemText(ordered, i, items[0]) + "\n" + ItemTexts(items[1..], ordered, i + 1)
  {
    hide ItemText;
  }

  lemma {:induction false} ItemsEnd(url: UrlCheck, lines: seq<string>, pos: nat, ordered: bool, n: nat)
    requires pos <= |lines| && (pos == |lines| || ReadItem(lines[pos], ordered) == None)
    ensures Items(url, lines, pos, ordered, n) == Ok(Parsed([], pos, 0))
  {
  }

  lemma ItemsStep(url: UrlCheck, lines: seq<string>, pos: nat, ordered: bool, n: nat)
    requires pos < |lines| && ReadItem(lines[pos], ordered).Some? && n < MAX_LIST_ITEMS
    requires ParseInlines(url, ReadItem(lines[pos], ordered).value).Ok? && Items(url, lines, pos + 1, ordered, n + 1).Ok?
    ensures var rest := Items(url, lines, pos + 1, ordered, n + 1).value;
            Items(url, lines, pos, ordered, n)
            == Ok(Parsed([Item(ParseInlines(url, ReadItem(lines[pos], ordered).value).value)] + rest.value, rest.pos, 0))
  {
    hide ReadItem, ParseInlines;
  }

  lemma DropItemsStep(items: seq<ListItem>)
    requires items != []
    ensures DropItems(items) == [Item(DropRuns(items[0].inlines))] + DropItems(items[1..])
    ensures |items| == 1 ==> DropItems(items) == [Item(DropRuns(items[0].inlines))] + []
  {
    hide DropRuns;
  }

  lemma {:induction false} ListReads(url: UrlCheck, items: seq<ListItem>, ordered: bool, lines: seq<string>,
                                     pos: nat, count: nat, depth: nat)
    requires depth <= MAX_DEPTH && 0 < |items| <= MAX_LIST_ITEMS && SimpleItems(items)
    requires Stands(lines, pos, ItemTexts(items, ordered, 1)) && Ended(lines, pos + |Split(ItemTexts(items, ordered, 1))|)
    ensures ReadsBlock(url, lines, pos, count, depth, ItemTexts(items, ordered, 1), if ordered then OrderedList(items) else BulletList(items))
  {
    hide Split, ReadItem, StartsOrdered, NoNewline, OneLine, FenceLine, StartsTask, EscapeText, ItemPrefix,
      SimpleRuns, Items, ItemTexts, Ended;
    ItemCount(items, ordered, 1);
    ItemsReads(url, items, ordered, 1, lines, pos, 0);
    ItemFirst(items, ordered, 1, lines, pos);
    SimpleItem(items[0]);
    ItemLine(ordered, 1, EscapeText(TextOf(items[0].inlines)));
    LineKinds(lines[pos]);
  }

  lemma {:induction false} ItemCount(items: seq<ListItem>, ordered: bool, i: nat)
    requires items != [] && SimpleItems(items) && i + |items| < 10_000
    ensures |Split(ItemTexts(items, ordered, i))| == |items|
    decreases |items|
  {
    hide Split, EscapeText, ItemPrefix, SimpleRuns, OneLine, NoNewline, ItemTexts;
    SimpleItem(items[0]);
    ItemLine(ordered, i, EscapeText(TextOf(items[0].inlines)));
    ItemTextsStep(items, ordered, i);
    SplitOne(ItemText(ordered, i, items[0]));
    if |items| > 1 {
      ItemCount(items[1..], ordered, i + 1);
      SplitOf(ItemText(ordered, i, items[0]), ItemTexts(items[1..], ordered, i + 1));
    }
  }

  // ---------- Task forests ----------

  function TaskText(level: nat, t: TaskItem): string { TaskPrefix(level, t.checked) + EscapeText(TextOf(t.inlines)) }

  /** The lines of a forest of tasks: each task, its children one level deeper, the next task. */
  function TaskLines(ts: seq<TaskItem>, level: nat): seq<string> {
    if ts == [] then [] else [TaskText(level, ts[0])] + TaskLines(ts[0].children, level + 1) + TaskLines(ts[1..], level)
  }

  function Box(checked: bool): string { "- [" + (if checked then "x" else " ") + "] " }

  lemma BoxReads(checked: bool, e: string)
    ensures var t := Box(checked) + e;
            && StartsWith(t, "- [") && |t| >= 6 && t[3] == (if checked then 'x' else ' ') && t[4] == ']' && t[5] == ' '
            && t[6..] == e && t[0] == '-'
  {
    var t := Box(checked) + e;
    assert |Box(checked)| == 6;
    assert forall i :: 0 <= i < 6 ==> t[i] == Box(checked)[i];
    assert t[..3] == "- [";
  }

  lemma TaskLineReads(level: nat, checked: bool, e: string)
    requires OneLine(e)
    ensures var l := TaskPrefix(level, checked) + e;
            && ReadTask(l) == Some(TaskLine(2 * level, checked, e)) && NestedIndent(l) == 2 * level && NoNewline(l)
            && (level == 0 ==> StartsTask(l) && !StartsWith(l, CLOSE) && FenceLine(l) == None)
  {
    var l, n, t := TaskPrefix(level, checked) + e, 2 * level, Box(checked) + e;
    assert NoNewline(Repeat(' ', n)) && NoNewline(t);
    assert l == Repeat(' ', n) + t;
    hide OneLine, Box, IsWord, IsDigit, IsLetter, EndsLine, IsLanguageChar;
    BoxReads(checked, e);
    assert forall i :: 0 <= i < n ==> l[i] == ' ';
    assert l[n] == t[0];
    EndIs(l, 0, n, IsBlank);
    assert l[n..] == t;
    if level == 0 {
      assert l == t;
      EndNone(l, IsTick);
    }
  }

  lemma {:induction false} JoinBoth(a: seq<string>, b: seq<string>)
    requires a != [] && b != []
    ensures Join(a + b, "\n") == Join(a, "\n") + "\n" + Join(b, "\n")
  {
    if |a| == 1 {
      assert a == [a[0]];
      JoinFirst(a[0], b, "\n");
    } else {
      assert a == [a[0]] + a[1..] && a + b == [a[0]] + (a[1..] + b);
      JoinFirst(a[0], a[1..], "\n");
      JoinFirst(a[0], a[1..] + b, "\n");
      JoinBoth(a[1..], b);
      assert a[0] + "\n" + (Join(a[1..], "\n") + "\n" + Join(b, "\n")) == a[0] + "\n" + Join(a[1..], "\n") + "\n" + Join(b, "\n");
    }
  }

  lemma {:induction false} TaskRendered(url: UrlCheck, t: TaskItem, level: nat, depth: nat)
    requires SimpleTask(t, depth)
    ensures RenderTask(url, t, level) == Ok(Join([TaskText(level, t)] + TaskLines(t.children, level + 1), "\n"))
    decreases t, 0
  {
    RunsReads(url, t.inlines);
    if t.children == [] {
      assert TaskLines([], level + 1) == [];
      assert [TaskText(level, t)] + [] == [TaskText(level, t)];
      assert Join([TaskText(level, t)], "\n") == TaskText(level, t);
    } else {
      TasksRendered(url, t.children, level + 1, depth + 1);
      assert TaskLines(t.children, level + 1) != [];
      JoinFirst(TaskText(level, t), TaskLines(t.children, level + 1), "\n");
    }
  }

  lemma {:induction false} TasksRendered(url: UrlCheck, ts: seq<TaskItem>, level: nat, depth: nat)
    requires SimpleTasks(ts, depth)
    ensures RenderTasks(url, ts, level) == Ok(Join(TaskLines(ts, level), "\n"))
    decreases ts, 1
  {
    if ts == [] {
    } else {
      TaskRendered(url, ts[0], level, depth);
      TasksRendered(url, ts[1..], level, depth);
      var first, rest := [TaskText(level, ts[0])] + TaskLines(ts[0].children, level + 1), TaskLines(ts[1..], level);
      if |ts| == 1 {
        assert first + rest == first;
      } else {
        assert rest != [];
        JoinBoth(first, rest);
      }
    }
  }

  lemma {:induction false} TaskLinesClean(url: UrlCheck, ts: seq<TaskItem>, level: nat, depth: nat)
    requires SimpleTasks(ts, depth)
    ensures NoNewlines(TaskLines(ts, level))
    decreases ts
  {
    hide NoNewline, TaskText;
    if ts != [] {
      TaskTextReads(url, level, ts[0], depth);
      TaskLinesClean(url, ts[0].children, level + 1, depth + 1);
      TaskLinesClean(url, ts[1..], level, depth);
    }
  }

  /** Neither a task of this level or a deeper one, nor the start of a nested list. */
  predicate EndsTasks(lines: seq<string>, pos: nat, level: nat) {
    pos <= |lines| && (pos < |lines| ==>
      && (ReadTask(lines[pos]) == None || ReadTask(lines[pos]).value.indent < 2 * level)
      && NestedIndent(lines[pos]) <= 2 * level)
  }

  ghost predicate LinesAt(lines: seq<string>, pos: nat, ls: seq<string>) {
    pos + |ls| <= |lines| && lines[pos..pos + |ls|] == ls
  }

  lemma LinesAtBoth(lines: seq<string>, pos: nat, a: seq<string>, b: seq<string>)
    requires LinesAt(lines, pos, a + b)
    ensures LinesAt(lines, pos, a) && LinesAt(lines, pos + |a|, b)
    ensures a != [] ==> lines[pos] == a[0]
    ensures b != [] ==> lines[pos + |a|] == b[0]
  {
    var all := lines[pos..pos + |a| + |b|];
    assert lines[pos..pos + |a|] == all[..|a|];
    assert lines[pos + |a|..pos + |a| + |b|] == all[|a|..];
    assert a != [] ==> all[0] == a[0];
    assert b != [] ==> all[|a|] == b[0];
  }

  /** One turn of the loop over tasks. */
  lemma TasksTurn(url: UrlCheck, lines: seq<string>, pos: nat, depth: nat, indent: nat, n: nat, text: string,
                  checked: bool,
                  inlines: seq<Inline>, children: Parsed<seq<TaskItem>>)
    requires pos < |lines| && n < MAX_LIST_ITEMS && ReadTask(lines[pos]) == Some(TaskLine(indent, checked, text))
    requires ParseInlines(url, text) == Ok(inlines) && pos < children.pos <= |lines|
    requires if pos + 1 < |lines| && NestedIndent(lines[pos + 1]) > indent then
               depth + 2 <= MAX_DEPTH && Tasks(url, lines, pos + 1, depth + 1, indent + 2, 0) == Ok(children)
             else children == Parsed([], pos + 1, 0)
    requires Tasks(url, lines, children.pos, depth, indent, n + 1).Ok?
    ensures var rest := Tasks(url, lines, children.pos, depth, indent, n + 1).value;
            Tasks(url, lines, pos, depth, indent, n)
            == Ok(Parsed([TaskItem(checked, inlines, children.value)] + rest.value, rest.pos, 0))
  {
    hide ReadTask, NestedIndent, ParseInlines;
  }

  /** The line of a task, and its text. */
  lemma {:induction false} TaskTextReads(url: UrlCheck, level: nat, t: TaskItem, depth: nat)
    requires SimpleTask(t, depth)
    ensures var l, e := TaskText(level, t), EscapeText(TextOf(t.inlines));
            && ReadTask(l) == Some(TaskLine(2 * level, t.checked, e)) && NestedIndent(l) == 2 * level && NoNewline(l)
            && (level == 0 ==> StartsTask(l) && !StartsWith(l, CLOSE) && FenceLine(l) == None)
            && ParseInlines(url, e) == Ok(DropRuns(t.inlines))
  {
    hide ReadTask, NestedIndent, ParseInlines, SimpleRuns, OneLine, NoNewline, TaskPrefix, EscapeText, DropRuns,
      StartsTask, FenceLine, SimpleTasks;
    EscapedText(TextOf(t.inlines));
    TaskLineReads(level, t.checked, EscapeText(TextOf(t.inlines)));
    RunsReads(url, t.inlines);
  }

  /** What follows the lines of a task's children, at their level. */
  lemma {:induction false} EndsChildren(url: UrlCheck, lines: seq<string>, pos: nat, level: nat, rest: seq<TaskItem>,
                                        depth: nat)
    requires pos <= |lines| && (rest != [] ==> SimpleTask(rest[0], depth))
    requires rest == [] ==> EndsTasks(lines, pos, level)
    requires rest != [] ==> pos < |lines| && lines[pos] == TaskText(level, rest[0])
    ensures EndsTasks(lines, pos, level + 1)
    ensures pos < |lines| ==> NestedIndent(lines[pos]) <= 2 * level
  {
    hide ReadTask, NestedIndent, TaskText, SimpleTask;
    if rest != [] { TaskTextReads(url, level, rest[0], depth); }
  }

  lemma TaskLinesStep(ts: seq<TaskItem>, level: nat)
    requires ts != []
    ensures TaskLines(ts, level) == [TaskText(level, ts[0])] + (TaskLines(ts[0].children, level + 1) + TaskLines(ts[1..], level))
    ensures TaskLines(ts, level)[0] == TaskText(level, ts[0])
  {
    hide TaskText;
  }

  /** Where the parts of a forest stand. */
  lemma ForestParts(ts: seq<TaskItem>, level: nat, lines: seq<string>, pos: nat)
    requires ts != [] && LinesAt(lines, pos, TaskLines(ts, level))
    ensures var kids, tail := TaskLines(ts[0].children, level + 1), TaskLines(ts[1..], level);
            && pos < |lines| && lines[pos] == TaskText(level, ts[0])
            && LinesAt(lines, pos + 1, kids) && LinesAt(lines, pos + 1 + |kids|, tail)
            && |TaskLines(ts, level)| == 1 + |kids| + |tail| && pos + 1 + |kids| + |tail| <= |lines|
  {
    hide TaskLines, TaskText;
    var kids, tail := TaskLines(ts[0].children, level + 1), TaskLines(ts[1..], level);
    TaskLinesStep(ts, level);
    LinesAtBoth(lines, pos, [TaskText(level, ts[0])], kids + tail);
    LinesAtBoth(lines, pos + 1, kids, tail);
  }

  lemma {:induction false} ForestFirst(ts: seq<TaskItem>, level: nat, lines: seq<string>, pos: nat)
    requires LinesAt(lines, pos, TaskLines(ts, level))
    ensures ts == [] ==> TaskLines(ts, level) == []
    ensures ts != [] ==> pos < |lines| && lines[pos] == TaskText(level, ts[0])
  {
    hide TaskText;
    if ts != [] { ForestParts(ts, level, lines, pos); }
  }

  /** A forest of tasks of any shape is read back. */
  lemma {:induction false} TasksReads(url: UrlCheck, ts: seq<TaskItem>, level: nat, lines: seq<string>, pos: nat,
                                      depth: nat, n: nat)
    requires SimpleTasks(ts, depth) && n + |ts| <= MAX_LIST_ITEMS
    requires LinesAt(lines, pos, TaskLines(ts, level)) && EndsTasks(lines, pos + |TaskLines(ts, level)|, level)
    ensures Tasks(url, lines, pos, depth, 2 * level, n) == Ok(Parsed(DropTasks(ts), pos + |TaskLines(ts, level)|, 0))
    decreases ts, 1
  {
    hide TextOf, SimpleTask, TaskText, TaskLines, EndsTasks, LinesAt, CLOSE, FenceLine, ReadTask, StartsTask,
      NestedIndent, Tasks, MAX_LIST_ITEMS, StartsWith;
    ForestFirst(ts, level, lines, pos);
    if ts == [] {
      TasksEnd(url, lines, pos, depth, level, n);
      assert DropTasks(ts) == [];
    } else {
      var t, rest := ts[0], ts[1..];
      var kids, tail := TaskLines(t.children, level + 1), TaskLines(rest, level);
      assert SimpleTask(t, depth) && SimpleTasks(rest, depth);
      ForestParts(ts, level, lines, pos);
      ForestFirst(rest, level, lines, pos + 1 + |kids|);
      assert rest != [] ==> SimpleTask(rest[0], depth);
      EndsChildren(url, lines, pos + 1 + |kids|, level, rest, depth);
      TasksReads(url, rest, level, lines, pos + 1 + |kids|, depth, n + 1);
      ChildrenRead(url, t, level, lines, pos, depth);
      TaskTextReads(url, level, t, depth);
      TasksTurn(url, lines, pos, depth, 2 * level, n, EscapeText(TextOf(t.inlines)), t.checked, DropRuns(t.inlines),
                Parsed(DropTasks(t.children), pos + 1 + |kids|, 0));
      assert DropTasks(ts) == [TaskItem(t.checked, DropRuns(t.inlines), DropTasks(t.children))] + DropTasks(rest);
    }
  }

  /** The children of a task, when it has any, and nothing otherwise. */
  lemma {:induction false} ChildrenRead(url: UrlCheck, t: TaskItem, level: nat, lines: seq<string>, pos: nat,
                                        depth: nat)
    requires SimpleTask(t, depth) && pos < |lines| && LinesAt(lines, pos + 1, TaskLines(t.children, level + 1))
    requires var end := pos + 1 + |TaskLines(t.children, level + 1)|;
             EndsTasks(lines, end, level + 1) && (end < |lines| ==> NestedIndent(lines[end]) <= 2 * level)
    ensures var children := Parsed(DropTasks(t.children), pos + 1 + |TaskLines(t.children, level + 1)|, 0);
            if pos + 1 < |lines| && NestedIndent(lines[pos + 1]) > 2 * level then
              depth + 2 <= MAX_DEPTH && Tasks(url, lines, pos + 1, depth + 1, 2 * level + 2, 0) == Ok(children)
            else children == Parsed([], pos + 1, 0)
    decreases t, 0
  {
    hide TextOf, LineRuns, EndsTasks, EscapeText, FenceLine, ReadTask, Tasks, NoNewline, MAX_DEPTH;
    assert SimpleTasks(t.children, depth + 1) && |t.children| <= MAX_LIST_ITEMS;
    ForestFirst(t.children, level + 1, lines, pos + 1);
    if t.children == [] {
      assert DropTasks(t.children) == [];
    } else {
      assert SimpleTask(t.children[0], depth + 1);
      assert depth + 2 <= MAX_DEPTH;
      TaskTextReads(url, level + 1, t.children[0], depth + 1);
      TasksReads(url, t.children, level + 1, lines, pos + 1, depth + 1, 0);
    }
  }

  lemma {:induction false} TasksEnd(url: UrlCheck, lines: seq<string>, pos: nat, depth: nat, level: nat, n: nat)
    requires EndsTasks(lines, pos, level)
    ensures Tasks(url, lines, pos, depth, 2 * level, n) == Ok(Parsed([], pos, 0))
  {
    hide ReadTask;
  }

  lemma EndedTasks(lines: seq<string>, pos: nat)
    requires Ended(lines, pos)
    ensures EndsTasks(lines, pos, 0)
  {
    EndNone("", IsBlank);
    EndNone(CLOSE, IsBlank);
    if pos < |lines| { assert lines[pos][0..] == lines[pos]; }
  }

  lemma {:induction false} ForestText(url: UrlCheck, ts: seq<TaskItem>, depth: nat)
    requires ts != [] && SimpleTasks(ts, depth)
    ensures Split(Join(TaskLines(ts, 0), "\n")) == TaskLines(ts, 0) && |TaskLines(ts, 0)| > 0
  {
    hide Split, Join, NoNewline, TaskLines;
    TaskLinesClean(url, ts, 0, depth);
    TaskLinesStep(ts, 0);
    SplitJoin(TaskLines(ts, 0));
  }

  lemma {:induction false} ForestAt(url: UrlCheck, ts: seq<TaskItem>, lines: seq<string>, pos: nat, depth: nat)
    requires 0 < |ts| <= MAX_LIST_ITEMS && SimpleTasks(ts, depth) && depth + 1 <= MAX_DEPTH
    requires Stands(lines, pos, Join(TaskLines(ts, 0), "\n")) && Ended(lines, pos + |Split(Join(TaskLines(ts, 0), "\n"))|)
    ensures pos < |lines| && StartsTask(lines[pos]) && !StartsWith(lines[pos], CLOSE) && FenceLine(lines[pos]) == None
    ensures TasksAt(url, lines, pos, depth)
         == Ok(Parsed(DropTasks(ts), pos + |Split(Join(TaskLines(ts, 0), "\n"))|, 0)) && DropTasks(ts) != []
  {
    hide Split, Join, TaskLines, SimpleTask, Tasks, Ended, StartsTask, FenceLine, ReadTask, NestedIndent, TaskText;
    ForestText(url, ts, depth);
    ForestFirst(ts, 0, lines, pos);
    TaskTextReads(url, 0, ts[0], depth);
    EndedTasks(lines, pos + |TaskLines(ts, 0)|);
    TasksReads(url, ts, 0, lines, pos, depth, 0);
  }

  lemma {:induction false} TasksBlockReads(url: UrlCheck, ts: seq<TaskItem>, lines: seq<string>, pos: nat,
                                           count: nat, depth: nat)
    requires 0 < |ts| <= MAX_LIST_ITEMS && SimpleTasks(ts, depth) && depth + 1 <= MAX_DEPTH
    requires Stands(lines, pos, Join(TaskLines(ts, 0), "\n")) && Ended(lines, pos + |Split(Join(TaskLines(ts, 0), "\n"))|)
    ensures ReadsBlock(url, lines, pos, count, depth, Join(TaskLines(ts, 0), "\n"), TaskList(None, None, ts))
  {
    hide Split, Join, TaskLines, SimpleTasks, Tasks, Ended, StartsTask, FenceLine;
    ForestAt(url, ts, lines, pos, depth);
    LineKinds(lines[pos]);
  }

  function ListDirective(kind: ListKind, title: Option<string>): string {
    DIRECTIVE + "list " + KindName(kind) + TitlePrinted(title)
  }

  lemma KindWord(kind: ListKind)
    ensures KindOf(KindName(kind)) == Some(kind) && KindName(kind) != ""
    ensures forall i :: 0 <= i < |KindName(kind)| ==> NotSpace(KindName(kind)[i])
  {
  }

  lemma ListDirectiveHead(kind: ListKind, title: Option<string>)
    ensures var l := ListDirective(kind, title);
            && l != DIRECTIVE + "table" && Word(l, DIRECTIVE + "callout ") == None
            && StartsWith(l, CLOSE) && |l| > |DIRECTIVE| + 5 && StartsWith(l, DIRECTIVE + "list ")
            && l[|DIRECTIVE| + 5..] == KindName(kind) + TitlePrinted(title)
  {
    hide TitlePrinted, KindName;
    var n := |DIRECTIVE|;
    var l := ListDirective(kind, title);
    KindWord(kind);
    assert l == DIRECTIVE + ("list " + KindName(kind) + TitlePrinted(title));
    DirectiveLine("list " + KindName(kind) + TitlePrinted(title));
    assert l[n] == 'l' && (DIRECTIVE + "callout ")[n] == 'c' && (DIRECTIVE + "table")[n] == 't';
    assert l[..n + 5] == DIRECTIVE + "list ";
  }

  lemma WordEnds(prefix: string, name: string, rest: string)
    requires (forall i :: 0 <= i < |name| ==> NotSpace(name[i])) && (rest != "" ==> rest[0] == ' ')
    ensures var l, n := prefix + name + rest, |prefix|;
            && End(l, n, NotSpace) == n + |name| && l[n..n + |name|] == name && l[n + |name|..] == rest && StartsWith(l, prefix)
  {
    var l, n := prefix + name + rest, |prefix|;
    assert l[..n] == prefix;
    assert forall i :: n <= i < n + |name| ==> l[i] == name[i - n];
    assert rest != "" ==> l[n + |name|] == rest[0];
    EndFrom(l, n, n + |name|, NotSpace);
  }

  lemma ListLineReads(prefix: string, name: string, json: Option<string>)
    requires name != "" && forall i :: 0 <= i < |name| ==> NotSpace(name[i])
    ensures ListLine(prefix + name + (if json == None then "" else TITLE + json.value), prefix) == Some((name, json))
  {
    hide NotSpace;
    var rest := if json == None then "" else TITLE + json.value;
    WordEnds(prefix, name, rest);
    var l := prefix + name + rest;
    if json == None {
      assert l[|prefix|..] == name;
    } else {
      assert l[|prefix| + |name| + |TITLE|..] == rest[|TITLE|..] == json.value;
    }
  }

  lemma ListDirectiveReads(kind: ListKind, title: Option<string>)
    requires SimpleTitle(Some(kind), title)
    ensures ListLine(ListDirective(kind, title), DIRECTIVE + "list ")
         == Some((KindName(kind), if title == None then None else Some(MarkdownJson.Quote(title.value))))
  {
    hide KindName, DIRECTIVE, MarkdownJson.Quote, ListLine;
    KindWord(kind);
    ListLineReads(DIRECTIVE + "list ", KindName(kind), if title == None then None else Some(MarkdownJson.Quote(title.value)));
  }

  lemma {:induction false} EndFrom(s: string, i: nat, e: nat, p: char -> bool)
    requires i <= e <= |s| && (forall k :: i <= k < e ==> p(s[k])) && (e < |s| ==> !p(s[e]))
    ensures End(s, i, p) == e
  {
  }

  lemma TitleReads(kind: ListKind, title: Option<string>)
    requires SimpleTitle(Some(kind), title)
    ensures ReadTitle(if title == None then None else Some(MarkdownJson.Quote(title.value)), kind) == Ok(title)
    ensures title.Some? ==> NoNewline(MarkdownJson.Quote(title.value))
  {
    if title.Some? {
      assert MarkdownJson.PlainText(title.value) by {
        forall i | 0 <= i < |title.value| ensures MarkdownJson.Plain(title.value[i]) { assert title.value[i] in title.value; }
      }
      MarkdownJson.QuotedRead(title.value, "");
      assert MarkdownJson.Quote(title.value) + "" == MarkdownJson.Quote(title.value);
      QuoteNoNewline(title.value);
    }
  }

  lemma DirectiveNoNewline(kind: ListKind, title: Option<string>)
    requires SimpleTitle(Some(kind), title)
    ensures NoNewline(ListDirective(kind, title))
  {
    hide MarkdownJson.Quote;
    TitleReads(kind, title);
    assert NoNewline(DIRECTIVE) && NoNewline(KindName(kind)) && NoNewline(" title=");
  }

  lemma {:induction false} KindListReads(url: UrlCheck, kind: ListKind, title: Option<string>, ts: seq<TaskItem>,
                                         lines: seq<string>, pos: nat, count: nat, depth: nat)
    requires 0 < |ts| <= MAX_LIST_ITEMS && SimpleTasks(ts, depth) && depth + 1 <= MAX_DEPTH && SimpleTitle(Some(kind), title)
    requires Stands(lines, pos, ListDirective(kind, title) + "\n" + Join(TaskLines(ts, 0), "\n") + "\n" + CLOSE)
    ensures ReadsBlock(url, lines, pos, count, depth, ListDirective(kind, title) + "\n" + Join(TaskLines(ts, 0), "\n") + "\n" + CLOSE,
                       TaskList(Some(kind), title, ts))
  {
    hide Split, Join, TaskLines, SimpleTasks, SimpleTitle, TasksAt, StartsTask, FenceLine, ListDirective, DIRECTIVE,
      ListLine, Word, ReadTitle, NoNewline, KindOf, KindName;
    var l, items := ListDirective(kind, title), Join(TaskLines(ts, 0), "\n");
    var n := |Split(items)|;
    TableLine();
    StandsSplit(lines, pos, l + "\n" + items, CLOSE);
    StandsSplit(lines, pos, l, items);
    DirectiveNoNewline(kind, title);
    StandsLine(lines, pos, l);
    StandsLine(lines, pos + 1 + n, CLOSE);
    ForestAt(url, ts, lines, pos + 1, depth);
    ListDirectiveHead(kind, title);
    ListDirectiveReads(kind, title);
    TitleReads(kind, title);
    KindWord(kind);
    assert BlockAt(url, lines, pos, count, depth) == DirectiveAt(url, lines, pos, count, depth);
  }

  // ---------- Quotes and callouts ----------

  lemma QuotedLine(l: string)
    ensures var q := if l == "" then ">" else "> " + l;
            && IsQuoteLine(q) && Unquoted(q) == l && q[0] == '>' && q != CLOSE && (NoNewline(l) ==> NoNewline(q))
            && !StartsWith(q, CLOSE) && FenceLine(q) == None && !StartsTask(q) && q != "---" && !StartsWith(q, "- ") && !StartsOrdered(q)
  {
    var q := if l == "" then ">" else "> " + l;
    EndNone(q, IsTick);
    EndNone(q, IsDigit);
    if l != "" { assert q[..2] == "> " && q[2..] == l; }
  }

  lemma QuotedLines(ls: seq<string>)
    requires NoNewlines(ls)
    ensures NoNewlines(Quoted(ls)) && UnquotedAll(Quoted(ls)) == ls
  {
    hide NoNewline, StartsTask, StartsOrdered, FenceLine;
    forall i | 0 <= i < |ls| ensures NoNewline(Quoted(ls)[i]) && Unquoted(Quoted(ls)[i]) == ls[i] { QuotedLine(ls[i]); }
  }

  lemma NotQuotes()
    ensures !IsQuoteLine("") && !IsQuoteLine(CLOSE)
  {
    assert CLOSE[0] == ':' && "> "[0] == '>';
  }

  /** A quote starts at `pos`, and its lines without their prefix are those of `inner`. */
  lemma {:induction false} QuoteFound(inner: string, lines: seq<string>, pos: nat)
    requires Stands(lines, pos, Join(Quoted(Split(inner)), "\n")) && Ended(lines, pos + |Split(Join(Quoted(Split(inner)), "\n"))|)
    ensures var n := |Split(inner)|;
            && |Split(Join(Quoted(Split(inner)), "\n"))| == n && pos + n <= |lines|
            && UnquotedAll(lines[pos..pos + n]) == Split(inner)
            && FirstLine(lines, pos + 1, l => !IsQuoteLine(l)) == pos + n
            && lines[pos] == Quoted(Split(inner))[0]
  {
    hide Split, Join, NoNewline, StartsTask, StartsOrdered, FenceLine, IsQuoteLine, FirstLine;
    var ls := Split(inner);
    var n := |ls|;
    SplitLines(inner);
    QuotedLines(ls);
    SplitJoin(Quoted(ls));
    forall i | pos <= i < pos + n ensures IsQuoteLine(lines[i]) {
      QuotedLine(ls[i - pos]);
      assert lines[i] == lines[pos..pos + n][i - pos] == Quoted(ls)[i - pos];
    }
    assert lines[pos] == lines[pos..pos + n][0];
    NotQuotes();
    FirstLineIs(lines, pos + 1, pos + n, l => !IsQuoteLine(l));
  }

  lemma {:induction false} QuoteReads(url: UrlCheck, blocks: seq<Block>, inner: string, lines: seq<string>, pos: nat,
                                      count: nat, depth: nat)
    requires depth <= MAX_DEPTH
    requires Stands(lines, pos, Join(Quoted(Split(inner)), "\n")) && Ended(lines, pos + |Split(Join(Quoted(Split(inner)), "\n"))|)
    requires Blocks(url, Split(inner), 0, 0, depth + 1, false) == Ok(Parsed(DroppedAll(blocks), |Split(inner)|, Count(blocks)))
    ensures ReadsBlock(url, lines, pos, count, depth, Join(Quoted(Split(inner)), "\n"), Blockquote(blocks))
  {
    hide Split, Join, NoNewline, StartsTask, StartsOrdered, FenceLine, IsQuoteLine, FirstLine, Blocks, UnquotedAll,
      Ended, DroppedAll;
    QuoteFound(inner, lines, pos);
    QuotedLine(Split(inner)[0]);
  }

  lemma VariantWord(v: Variant)
    ensures var name := VariantName(v);
            name != "" && VariantOf(name) == Some(v) && forall i :: 0 <= i < |name| ==> NotSpace(name[i]) && name[i] != '\n'
  {
  }

  lemma CalloutLine(v: Variant)
    ensures var l := DIRECTIVE + "callout " + VariantName(v);
            && NoNewline(l) && l != DIRECTIVE + "table" && Word(l, DIRECTIVE + "callout ") == Some(VariantName(v))
            && VariantOf(VariantName(v)) == Some(v) && StartsWith(l, CLOSE) && l != CLOSE
  {
    var prefix, name := DIRECTIVE + "callout ", VariantName(v);
    var l, n := prefix + name, |DIRECTIVE|;
    VariantWord(v);
    WordEnds(prefix, name, "");
    assert l + "" == l && l[|prefix|..] == name;
    assert l == DIRECTIVE + ("callout " + name);
    DirectiveLine("callout " + name);
    assert l[n] == 'c' && (DIRECTIVE + "table")[n] == 't';
    assert NoNewline(prefix);
  }

  lemma {:induction false} CalloutReads(url: UrlCheck, v: Variant, blocks: seq<Block>, inner: string,
                                        lines: seq<string>, pos: nat, count: nat, depth: nat)
    requires depth <= MAX_DEPTH
    requires Stands(lines, pos, DIRECTIVE + "callout " + VariantName(v) + "\n" + inner + "\n" + CLOSE) && pos + 1 <= |lines|
    requires Blocks(url, lines, pos + 1, count, depth + 1, true)
          == Ok(Parsed(DroppedAll(blocks), pos + 1 + |Split(inner)| + 1, count + Count(blocks)))
    ensures ReadsBlock(url, lines, pos, count, depth, DIRECTIVE + "callout " + VariantName(v) + "\n" + inner + "\n" + CLOSE, Callout(v, blocks))
  {
    hide Split, NoNewline, FenceLine, Blocks, DIRECTIVE, VariantName, VariantOf, Word, DroppedAll;
    var l := DIRECTIVE + "callout " + VariantName(v);
    CalloutLine(v);
    TableLine();
    StandsSplit(lines, pos, l + "\n" + inner, CLOSE);
    StandsSplit(lines, pos, l, inner);
    StandsLine(lines, pos, l);
    SplitOne(CLOSE);
    assert BlockAt(url, lines, pos, count, depth) == DirectiveAt(url, lines, pos, count, depth);
  }

  /** Where the text inside a callout stands. */
  lemma {:induction false} CalloutInside(v: Variant, inner: string, lines: seq<string>, pos: nat)
    requires Stands(lines, pos, DIRECTIVE + "callout " + VariantName(v) + "\n" + inner + "\n" + CLOSE)
    ensures Stands(lines, pos + 1, inner)
    ensures pos + 1 + |Split(inner)| < |lines| && lines[pos + 1 + |Split(inner)|] == CLOSE
  {
    hide Split, NoNewline, DIRECTIVE, VariantName;
    var l := DIRECTIVE + "callout " + VariantName(v);
    CalloutLine(v);
    TableLine();
    StandsSplit(lines, pos, l + "\n" + inner, CLOSE);
    StandsSplit(lines, pos, l, inner);
    StandsLine(lines, pos, l);
    StandsLine(lines, pos + 1 + |Split(inner)|, CLOSE);
  }

  // ---------- Every block, every document ----------

  lemma {:induction false} BoundedText(url: UrlCheck, b: Block, depth: nat, text: string)
    requires RenderBlock(url, b, depth) == Ok(text)
    ensures RenderContent(url, b, depth) == Ok(text) && Utf8(text) <= MAX_BLOCK_BYTES
  {
    hide RenderContent, Utf8;
  }

  lemma {:induction false} HeadingText(url: UrlCheck, level: nat, rs: seq<Inline>, depth: nat)
    requires SimpleRuns(rs)
    ensures RenderContent(url, Heading(level, rs), depth) == Ok(Repeat('#', level) + " " + EscapeText(TextOf(rs)))
    ensures RenderContent(url, Paragraph(rs), depth) == Ok(EscapeText(TextOf(rs)))
  {
    hide RenderInlines, EscapeText, SimpleRuns;
    RunsReads(url, rs);
  }

  lemma {:induction false} TasksText(url: UrlCheck, kind: Option<ListKind>, title: Option<string>, ts: seq<TaskItem>,
                                     depth: nat)
    requires SimpleTasks(ts, depth) && SimpleTitle(kind, title)
    ensures RenderContent(url, TaskList(kind, title, ts), depth)
         == Ok(if kind == None then Join(TaskLines(ts, 0), "\n")
               else ListDirective(kind.value, title) + "\n" + Join(TaskLines(ts, 0), "\n") + "\n" + CLOSE)
  {
    hide RenderTasks, Join, TaskLines, DIRECTIVE, MarkdownJson.Quote;
    TasksRendered(url, ts, 0, depth);
  }

  /** A block that holds no blocks is read back from what it is printed as. */
  lemma {:induction false} FlatReads(url: UrlCheck, b: Block, depth: nat, text: string, lines: seq<string>, pos: nat,
                                     count: nat)
    requires Simple(b, depth) && !b.Blockquote? && !b.Callout? && depth <= MAX_DEPTH && RenderBlock(url, b, depth) == Ok(text)
    requires Stands(lines, pos, text) && Ended(lines, pos + |Split(text)|)
    ensures ReadsBlock(url, lines, pos, count, depth, text, b)
  {
    hide SimpleRuns, TextOf, SimpleTasks, SimpleItems, SimpleTitle, Count, Stands, ReadsBlock, TaskLines,
      ListDirective, CleanText, Split, CLOSE, RenderContent, RenderBlock, OneLine, AllClean, MAX_BLOCKS, MAX_DEPTH,
      Validate, Utf8;
    BoundedText(url, b, depth, text);
    match b
    case Paragraph(rs) =>
      HeadingText(url, 1, rs, depth);
      ParagraphReads(url, rs, lines, pos, count, depth);
    case Heading(level, rs) =>
      assert SimpleRuns(rs);
      HeadingText(url, level, rs, depth);
      HeadingReads(url, level, rs, lines, pos, count, depth);
    case BulletList(items) => FlatList(url, items, false, depth, text, lines, pos, count);
    case OrderedList(items) => FlatList(url, items, true, depth, text, lines, pos, count);
    case TaskList(kind, title, ts) =>
      TasksText(url, kind, title, ts, depth);
      FlatTasks(url, kind, title, ts, depth, text, lines, pos, count);
    case CodeBlock(code, language) => FlatCode(url, code, language, depth, text, lines, pos, count);
    case Table(columns, rows) => FlatTable(url, columns, rows, depth, text, lines, pos, count);
    case HorizontalRule => FlatRule(url, depth, text, lines, pos, count);
    case Opaque(nodeType, sentinel) => FlatOpaque(url, nodeType, sentinel, depth, text, lines, pos, count);
  }

  lemma FlatList(url: UrlCheck, items: seq<ListItem>, ordered: bool, depth: nat, text: string, lines: seq<string>,
                 pos: nat, count: nat)
    requires depth <= MAX_DEPTH && 0 < |items| <= MAX_LIST_ITEMS && SimpleItems(items)
    requires var b := if ordered then OrderedList(items) else BulletList(items); RenderContent(url, b, depth) == Ok(text)
    requires Stands(lines, pos, text) && Ended(lines, pos + |Split(text)|)
    ensures ReadsBlock(url, lines, pos, count, depth, text, if ordered then OrderedList(items) else BulletList(items))
  {
    hide Ended, ReadsBlock, ItemTexts, Fence, RenderInlines, Split, MarkdownJson.TableJson;
    ItemsRendered(url, items, ordered, 1);
    ListReads(url, items, ordered, lines, pos, count, depth);
  }

  lemma {:induction false} FlatRule(url: UrlCheck, depth: nat, text: string, lines: seq<string>, pos: nat, count: nat)
    requires depth <= MAX_DEPTH && RenderContent(url, HorizontalRule, depth) == Ok(text) && Stands(lines, pos, text)
    ensures ReadsBlock(url, lines, pos, count, depth, text, HorizontalRule)
  {
    hide Split, ReadsBlock;
    RuleReads(url, lines, pos, count, depth);
  }

  lemma {:induction false} FlatTable(url: UrlCheck, columns: seq<string>, rows: seq<seq<string>>, depth: nat,
                                     text: string, lines: seq<string>, pos: nat, count: nat)
    requires depth <= MAX_DEPTH && AllClean(columns) && forall i :: 0 <= i < |rows| ==> AllClean(rows[i])
    requires Validate([Table(columns, rows)]) == None && Utf8(text) <= MAX_BLOCK_BYTES
    requires RenderContent(url, Table(columns, rows), depth) == Ok(text) && Stands(lines, pos, text)
    ensures ReadsBlock(url, lines, pos, count, depth, text, Table(columns, rows))
  {
    hide ReadsBlock, Bounded, Repeat, RenderInlines, Quoted, LanguageText, NodeTypeText, DIRECTIVE, CLOSE, Plain,
      MAX_SENTINEL_BYTES, KindName, Validate;
    assert MarkdownJson.PlainTexts(columns) && MarkdownJson.PlainRows(rows);
    TableBytes(columns, rows);
    TableReads(url, columns, rows, lines, pos, count, depth);
  }

  lemma {:induction false} FlatTasks(url: UrlCheck, kind: Option<ListKind>, title: Option<string>, ts: seq<TaskItem>,
                                     depth: nat, text: string,
                  lines: seq<string>, pos: nat, count: nat)
    requires 0 < |ts| <= MAX_LIST_ITEMS && SimpleTasks(ts, depth) && depth + 1 <= MAX_DEPTH && SimpleTitle(kind, title)
    requires text == if kind == None then Join(TaskLines(ts, 0), "\n")
                     else ListDirective(kind.value, title) + "\n" + Join(TaskLines(ts, 0), "\n") + "\n" + CLOSE
    requires Stands(lines, pos, text) && Ended(lines, pos + |Split(text)|)
    ensures ReadsBlock(url, lines, pos, count, depth, text, TaskList(kind, title, ts))
  {
    hide SimpleTasks, Stands, Ended, ReadsBlock, TaskLines, ListDirective, Split, Join, CLOSE, MAX_LIST_ITEMS,
      MAX_DEPTH, TitleText;
    if kind == None {
      assert title == None;
      TasksBlockReads(url, ts, lines, pos, count, depth);
    } else {
      assert SimpleTitle(Some(kind.value), title);
      KindListReads(url, kind.value, title, ts, lines, pos, count, depth);
    }
  }

  lemma {:induction false} FlatCode(url: UrlCheck, code: string, language: Option<string>, depth: nat, text: string,
                                    lines: seq<string>, pos: nat, count: nat)
    requires depth <= MAX_DEPTH && RenderContent(url, CodeBlock(code, language), depth) == Ok(text) && Stands(lines, pos, text)
    ensures ReadsBlock(url, lines, pos, count, depth, text, CodeBlock(code, language))
  {
    hide Fence, LanguageText, Utf8, Split, ReadsBlock;
    CodeReads(url, code, language, lines, pos, count, depth);
  }

  lemma {:induction false} FlatOpaque(url: UrlCheck, nodeType: string, sentinel: Sentinel, depth: nat, text: string,
                                      lines: seq<string>, pos: nat, count: nat)
    requires depth <= MAX_DEPTH && RenderContent(url, Opaque(nodeType, sentinel), depth) == Ok(text) && Stands(lines, pos, text)
    ensures ReadsBlock(url, lines, pos, count, depth, text, Opaque(nodeType, sentinel))
  {
    hide NodeTypeText, TokenText, Utf8, Split, ReadsBlock, DIRECTIVE, SourceName;
    OpaqueReads(url, nodeType, sentinel, lines, pos, count, depth);
  }

  lemma {:induction false} Utf8Of(a: string, b: string)
    ensures Utf8(a + b) == Utf8(a) + Utf8(b)
  {
    if a == "" {
      assert a + b == b;
    } else {
      assert (a + b)[1..] == a[1..] + b;
      Utf8Of(a[1..], b);
    }
  }

  lemma TableBytes(columns: seq<string>, rows: seq<seq<string>>)
    ensures Utf8(MarkdownJson.TableJson(columns, rows)) <= Utf8(DIRECTIVE + "table\n" + MarkdownJson.TableJson(columns, rows) + "\n" + CLOSE)
  {
    hide MarkdownJson.TableJson, Utf8;
    var json := MarkdownJson.TableJson(columns, rows);
    Utf8Of(DIRECTIVE + "table\n", json);
    Utf8Of(DIRECTIVE + "table\n" + json, "\n");
    Utf8Of(DIRECTIVE + "table\n" + json + "\n", CLOSE);
  }

  lemma ContainerTexts(url: UrlCheck, b: Block, blocks: seq<Block>, depth: nat, text: string) returns (inner: string)
    requires b == Blockquote(blocks) || (b.Callout? && b.blocks == blocks)
    requires RenderBlock(url, b, depth) == Ok(text)
    ensures depth + 1 <= MAX_DEPTH && RenderEach(url, blocks, depth + 1) == Ok(inner)
    ensures text == if b.Blockquote? then Join(Quoted(Split(inner)), "\n")
                    else DIRECTIVE + "callout " + VariantName(b.variant) + "\n" + inner + "\n" + CLOSE
  {
    BoundedText(url, b, depth, text);
    hide RenderEach, Utf8, Join, Split, DIRECTIVE, VariantName;
    inner := RenderBlocks(url, blocks, depth + 1).value;
  }

  lemma EachStep(url: UrlCheck, bs: seq<Block>, depth: nat, text: string) returns (head: string, tail: string)
    requires bs != [] && RenderEach(url, bs, depth) == Ok(text)
    ensures RenderBlock(url, bs[0], depth) == Ok(head) && (|bs| == 1 ==> text == head)
    ensures |bs| > 1 ==> RenderEach(url, bs[1..], depth) == Ok(tail) && text == head + "\n" + ("" + "\n" + tail)
  {
    hide RenderBlock;
    head := RenderBlock(url, bs[0], depth).value;
    tail := if |bs| > 1 then RenderEach(url, bs[1..], depth).value else "";
    assert head + "\n\n" + tail == head + "\n" + ("" + "\n" + tail);
  }

  /** What ends a list of blocks: the closing directive inside a callout, the last line elsewhere. */
  predicate Closed(lines: seq<string>, pos: nat, nested: bool) {
    if nested then pos < |lines| && lines[pos] == CLOSE else pos == |lines|
  }

  lemma ClosedEnds(lines: seq<string>, pos: nat, nested: bool)
    requires Closed(lines, pos, nested)
    ensures Ended(lines, pos)
  {
  }

  /** One turn of the loop over blocks. */
  lemma LoopTurn(url: UrlCheck, lines: seq<string>, pos: nat, count: nat, depth: nat, nested: bool, text: string,
                 b: Block)
    requires ReadsBlock(url, lines, pos, count + 1, depth, text, b) && count < MAX_BLOCKS && Utf8(text) <= MAX_BLOCK_BYTES
    ensures var next, total := pos + |Split(text)|, count + 1 + CountIn(b);
            && next <= |lines|
            && (Closed(lines, next, nested) ==>
                  BlockLoop(url, lines, pos, count, depth, nested)
                  == Ok(Parsed([Dropped(b)], if nested then next + 1 else next, total)))
            && (next + 1 < |lines| && lines[next] == "" && lines[next + 1] != "" && BlockLoop(url, lines, next + 1, total, depth, nested).Ok? ==>
                  var rest := BlockLoop(url, lines, next + 1, total, depth, nested).value;
                  BlockLoop(url, lines, pos, count, depth, nested) == Ok(Parsed([Dropped(b)] + rest.value, rest.pos, rest.count)))
  {
    hide BlockAt, Split, Utf8, Dropped, CountIn, Join;
    StandsJoined(lines, pos, text);
    var next := pos + |Split(text)|;
    assert CLOSE != "";
    if Closed(lines, next, nested) && nested {
      assert BlockLoop(url, lines, next, count + 1 + CountIn(b), depth, nested) == Ok(Parsed([], next + 1, count + 1 + CountIn(b)));
      assert [Dropped(b)] + [] == [Dropped(b)];
    }
  }

  lemma {:induction false} SimpleStep(bs: seq<Block>, depth: nat)
    requires bs != [] && SimpleAll(bs, depth)
    ensures Simple(bs[0], depth) && SimpleAll(bs[1..], depth) && depth <= MAX_DEPTH
    ensures Count(bs) == 1 + CountIn(bs[0]) + Count(bs[1..])
    ensures DroppedAll(bs) == [Dropped(bs[0])] + DroppedAll(bs[1..])
    ensures |bs| == 1 ==> Count(bs[1..]) == 0 && DroppedAll(bs) == [Dropped(bs[0])]
  {
    hide Simple, CountIn, Dropped;
  }

  /** Where two texts with one line between them stand. */
  lemma {:induction false} EachParts(head: string, line: string, tail: string, lines: seq<string>, pos: nat)
    requires Stands(lines, pos, head + "\n" + (line + "\n" + tail)) && NoNewline(line)
    ensures var next := pos + |Split(head)|;
            && Stands(lines, pos, head) && next < |lines| && lines[next] == line && Stands(lines, next + 1, tail)
            && |Split(head + "\n" + (line + "\n" + tail))| == |Split(head)| + 1 + |Split(tail)|
  {
    hide Split, Stands, NoNewline;
    StandsSplit(lines, pos, head, line + "\n" + tail);
    StandsSplit(lines, pos + |Split(head)|, line, tail);
    StandsLine(lines, pos + |Split(head)|, line);
  }

  lemma {:induction false} BlocksReads(url: UrlCheck, bs: seq<Block>, depth: nat, text: string, lines: seq<string>,
                                       pos: nat, count: nat, nested: bool)
    requires bs != [] && SimpleAll(bs, depth) && RenderEach(url, bs, depth) == Ok(text) && count + Count(bs) <= MAX_BLOCKS
    requires Stands(lines, pos, text) && Closed(lines, pos + |Split(text)|, nested) && depth <= MAX_DEPTH
    ensures pos < |lines| && lines[pos] != ""
    ensures BlockLoop(url, lines, pos, count, depth, nested)
         == Ok(Parsed(DroppedAll(bs), pos + |Split(text)| + (if nested then 1 else 0), count + Count(bs)))
    decreases bs, 1
  {
    hide Simple, Count, CountIn, DroppedAll, Stands, Closed, Split, RenderContent, RenderEach, BlockLoop, BlockAt,
      MAX_BLOCK_BYTES, MAX_DEPTH, Utf8;
    var head, tail := EachStep(url, bs, depth, text);
    SimpleStep(bs, depth);
    BoundedText(url, bs[0], depth, head);
    if |bs| == 1 {
      ClosedEnds(lines, pos + |Split(text)|, nested);
      BlockReads(url, bs[0], depth, head, lines, pos, count + 1);
      LoopTurn(url, lines, pos, count, depth, nested, head, bs[0]);
    } else {
      assert NoNewline("");
      EachParts(head, "", tail, lines, pos);
      assert Stands(lines, pos, head + "\n" + ("" + "\n" + tail));
      var next := pos + |Split(head)|;
      assert Ended(lines, next);
      BlockReads(url, bs[0], depth, head, lines, pos, count + 1);
      LoopTurn(url, lines, pos, count, depth, nested, head, bs[0]);
      BlocksReads(url, bs[1..], depth, tail, lines, next + 1, count + 1 + CountIn(bs[0]), nested);
    }
    assert pos < |lines| && lines[pos] != "";
  }

  lemma {:induction false} BlockReads(url: UrlCheck, b: Block, depth: nat, text: string, lines: seq<string>,
                                      pos: nat, count: nat)
    requires Simple(b, depth) && depth <= MAX_DEPTH && RenderBlock(url, b, depth) == Ok(text) && count + CountIn(b) <= MAX_BLOCKS
    requires Stands(lines, pos, text) && Ended(lines, pos + |Split(text)|)
    ensures ReadsBlock(url, lines, pos, count, depth, text, b)
    decreases b, 1
  {
    hide *;
    if b.Blockquote? || b.Callout? {
      ContainerReads(url, b, b.blocks, depth, text, lines, pos, count);
    } else {
      FlatReads(url, b, depth, text, lines, pos, count);
    }
  }

  lemma {:induction false} ContainerReads(url: UrlCheck, b: Block, blocks: seq<Block>, depth: nat, text: string,
                                          lines: seq<string>, pos: nat, count: nat)
    requires b == Blockquote(blocks) || (b.Callout? && b.blocks == blocks)
    requires Simple(b, depth) && depth <= MAX_DEPTH && RenderBlock(url, b, depth) == Ok(text) && count + CountIn(b) <= MAX_BLOCKS
    requires Stands(lines, pos, text) && Ended(lines, pos + |Split(text)|)
    ensures ReadsBlock(url, lines, pos, count, depth, text, b)
    decreases blocks, 2
  {
    hide SimpleRuns, TextOf, SimpleTasks, SimpleItems, SimpleAll, DroppedAll, Stands, ReadsBlock, CleanText, Split,
      Join, RenderBlock, BlockLoop, AllClean, MAX_DEPTH, VariantName, Validate;
    var inner := ContainerTexts(url, b, blocks, depth, text);
    assert blocks != [] && SimpleAll(blocks, depth + 1);
    if b.Blockquote? {
      var ls := Split(inner);
      assert Count(blocks) <= MAX_BLOCKS;
      WholeStands(inner);
      assert Closed(ls, |ls|, false);
      BlocksReads(url, blocks, depth + 1, inner, ls, 0, 0, false);
      assert Blocks(url, ls, 0, 0, depth + 1, false) == BlockLoop(url, ls, 0, 0, depth + 1, false);
      QuoteReads(url, blocks, inner, lines, pos, count, depth);
    } else {
      CalloutInside(b.variant, inner, lines, pos);
      assert Closed(lines, pos + 1 + |Split(inner)|, true);
      assert CountIn(b) == Count(blocks);
      BlocksReads(url, blocks, depth + 1, inner, lines, pos + 1, count, true);
      assert Blocks(url, lines, pos + 1, count, depth + 1, true) == BlockLoop(url, lines, pos + 1, count, depth + 1, true);
      CalloutReads(url, b.variant, blocks, inner, lines, pos, count, depth);
    }
  }

  lemma {:induction false} WholeStands(text: string)
    ensures Stands(Split(text), 0, text)
  {
    hide Split;
  }
}
