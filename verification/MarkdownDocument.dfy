/** Whole documents: what the printer writes for a simple document is read back as that document,
    exactly when no text holds a backslash directly before a digit. */
module MarkdownDocument {
  import opened Text
  import opened NoteDocument
  import opened Markdown
  import opened MarkdownEscape
  import opened MarkdownBlocks
  import opened MarkdownLines
  import opened MarkdownRoundTrip
  import MarkdownJson

  // ---------- What is printed holds no control characters ----------

  lemma {:induction false} JoinClean(ls: seq<string>)
    requires AllClean(ls)
    ensures CleanText(Join(ls, "\n"))
  {
    assert CleanChar('\n');
    if |ls| > 1 { JoinClean(ls[1..]); }
  }

  lemma {:induction false} SplitClean(s: string)
    requires CleanText(s)
    ensures AllClean(Split(s))
    decreases |s|
  {
    hide Split, CleanChar;
    var a, b := SplitCases(s);
    if NoNewline(s) {
      SplitOne(s);
    } else {
      SplitStep(a, b);
      assert forall i :: 0 <= i < |a| ==> a[i] == s[i];
      assert forall i :: 0 <= i < |b| ==> b[i] == s[|a| + 1 + i];
      SplitClean(b);
    }
  }

  lemma QuotedClean(ls: seq<string>)
    requires AllClean(ls)
    ensures AllClean(Quoted(ls))
  {
    assert CleanText(">") && CleanText("> ");
  }

  lemma {:induction false} QuoteClean(s: string)
    requires CleanText(s)
    ensures CleanText(MarkdownJson.QuoteBody(s))
  {
    if s != "" {
      QuoteClean(s[1..]);
      assert CleanChar(s[0]);
      assert CleanText(MarkdownJson.QuoteChar(s[0]));
    }
  }

  lemma {:induction false} StringsClean(ss: seq<string>)
    requires AllClean(ss)
    ensures CleanText(MarkdownJson.StringsTail(ss))
  {
    if ss != [] {
      assert CleanText("\"") && CleanText("]") && CleanText(",");
      QuoteClean(ss[0]);
      StringsClean(ss[1..]);
    }
  }

  lemma {:induction false} RowsClean(rows: seq<seq<string>>)
    requires forall i :: 0 <= i < |rows| ==> AllClean(rows[i])
    ensures CleanText(MarkdownJson.RowsTail(rows))
  {
    if rows != [] {
      hide AllClean;
      StringsClean(rows[0]);
      RowsClean(rows[1..]);
    }
  }

  lemma TableClean(columns: seq<string>, rows: seq<seq<string>>)
    requires AllClean(columns) && forall i :: 0 <= i < |rows| ==> AllClean(rows[i])
    ensures CleanText(MarkdownJson.TableJson(columns, rows))
  {
    StringsClean(columns);
    RowsClean(rows);
    hide MarkdownJson.StringsTail, MarkdownJson.RowsTail;
    assert CleanText(MarkdownJson.COLUMNS) && CleanText(MarkdownJson.ROWS);
  }

  lemma RunsTextClean(rs: seq<Inline>)
    requires SimpleRuns(rs)
    ensures CleanText(EscapeText(TextOf(rs)))
  {
    hide EscapeText;
    EscapedText(TextOf(rs));
  }

  lemma {:induction false} TaskLinesAreClean(ts: seq<TaskItem>, level: nat, depth: nat)
    requires SimpleTasks(ts, depth)
    ensures AllClean(TaskLines(ts, level))
    decreases ts
  {
    hide EscapeText;
    if ts != [] {
      RunsTextClean(ts[0].inlines);
      assert CleanText(TaskPrefix(level, ts[0].checked));
      TaskLinesAreClean(ts[0].children, level + 1, depth + 1);
      TaskLinesAreClean(ts[1..], level, depth);
    }
  }

  lemma {:induction false} DecimalClean(i: nat)
    ensures CleanText(Decimal(i))
  {
    if i >= 10 { DecimalClean(i / 10); }
  }

  lemma {:induction false} ItemTextsClean(items: seq<ListItem>, ordered: bool, i: nat)
    requires SimpleItems(items)
    ensures CleanText(ItemTexts(items, ordered, i))
  {
    hide EscapeText, OneLine, Decimal;
    if items != [] {
      DecimalClean(i);
      RunsTextClean(items[0].inlines);
      assert CleanText(". ") && CleanText("- ") && CleanText("\n");
      ItemTextsClean(items[1..], ordered, i + 1);
    }
  }

  lemma Words()
    ensures CleanText(DIRECTIVE) && CleanText(CLOSE) && CleanText("\n") && CleanText("list ") && CleanText(" title=")
    ensures CleanText("table\n") && CleanText("callout ") && CleanText("opaque ") && CleanText("\nref:1:") && CleanText(":")
    ensures CleanText("\"")
  {
  }

  lemma NamesClean(kind: ListKind, v: Variant, source: SentinelSource)
    ensures CleanText(KindName(kind)) && CleanText(VariantName(v)) && CleanText(SourceName(source))
  {
    hide CleanText, KindName, VariantName, SourceName;
    KindClean(kind);
    VariantClean(v);
    SourceClean(source);
  }

  lemma KindClean(kind: ListKind)
    ensures CleanText(KindName(kind))
  {
  }

  lemma VariantClean(v: Variant)
    ensures CleanText(VariantName(v))
  {
  }

  lemma SourceClean(source: SentinelSource)
    ensures CleanText(SourceName(source))
  {
  }

  lemma DirectiveClean(kind: ListKind, title: Option<string>)
    requires SimpleTitle(Some(kind), title)
    ensures CleanText(ListDirective(kind, title))
  {
    if title.Some? {
      assert CleanText(title.value) by {
        forall i | 0 <= i < |title.value| ensures CleanChar(title.value[i]) { assert title.value[i] in title.value; }
      }
      QuoteClean(title.value);
    }
    hide CleanChar, MarkdownJson.QuoteBody, KindName, DIRECTIVE;
    Words();
    NamesClean(kind, Info, NativeHtml);
  }

  lemma {:induction false} FlatClean(url: UrlCheck, b: Block, depth: nat, text: string)
    requires Simple(b, depth) && !b.Blockquote? && !b.Callout? && RenderContent(url, b, depth) == Ok(text)
    ensures CleanText(text)
  {
    hide EscapeText, Join, ItemTexts, DIRECTIVE, MarkdownJson.TableJson, Fence, LanguageText, Utf8, TokenText,
      SourceName, Validate, SimpleTitle, SimpleTasks;
    Words();
    match b
    case Paragraph(rs) =>
      HeadingText(url, 1, rs, depth);
      RunsTextClean(rs);
    case Heading(level, rs) =>
      HeadingText(url, level, rs, depth);
      RunsTextClean(rs);
      assert CleanText(Repeat('#', level)) && CleanText(" ");
    case BulletList(items) =>
      ItemsRendered(url, items, false, 1);
      ItemTextsClean(items, false, 1);
    case OrderedList(items) =>
      ItemsRendered(url, items, true, 1);
      ItemTextsClean(items, true, 1);
    case TaskList(kind, title, ts) => FlatTasksClean(url, kind, title, ts, depth, text);
    case CodeBlock(code, language) => FlatCodeClean(url, code, language, depth, text);
    case Table(columns, rows) => TableClean(columns, rows);
    case HorizontalRule => assert CleanText("---");
    case Opaque(nodeType, sentinel) => FlatOpaqueClean(url, nodeType, sentinel, depth, text);
  }

  lemma {:induction false} FlatTasksClean(url: UrlCheck, kind: Option<ListKind>, title: Option<string>,
                                          ts: seq<TaskItem>, depth: nat, text: string)
    requires SimpleTasks(ts, depth) && SimpleTitle(kind, title) && RenderContent(url, TaskList(kind, title, ts), depth) == Ok(text)
    ensures CleanText(text)
  {
    hide CleanChar, Join, TaskLines, DIRECTIVE, CLOSE, ListDirective, RenderContent, SimpleTitle, SimpleTasks;
    Words();
    TasksText(url, kind, title, ts, depth);
    TaskLinesAreClean(ts, 0, depth);
    JoinClean(TaskLines(ts, 0));
    if kind.Some? {
      assert SimpleTitle(Some(kind.value), title);
      DirectiveClean(kind.value, title);
    }
  }

  lemma {:induction false} FlatCodeClean(url: UrlCheck, code: string, language: Option<string>, depth: nat,
                                         text: string)
    requires CleanText(code) && RenderContent(url, CodeBlock(code, language), depth) == Ok(text)
    ensures CleanText(text)
  {
    hide Utf8;
    assert CleanText(Fence(code));
    if language.Some? { assert CleanText(language.value); }
    hide Fence, CleanChar, LanguageText;
    Words();
  }

  lemma {:induction false} FlatOpaqueClean(url: UrlCheck, nodeType: string, sentinel: Sentinel, depth: nat,
                                           text: string)
    requires RenderContent(url, Opaque(nodeType, sentinel), depth) == Ok(text)
    ensures CleanText(text)
  {
    hide Utf8;
    assert CleanText(nodeType) && CleanText(sentinel.token);
    hide CleanChar, TokenText, DIRECTIVE, CLOSE, SourceName;
    Words();
    NamesClean(RichTaskList, Info, sentinel.source);
  }

  lemma {:induction false} BlockClean(url: UrlCheck, b: Block, depth: nat, text: string)
    requires Simple(b, depth) && RenderBlock(url, b, depth) == Ok(text)
    ensures CleanText(text)
    decreases b, 1
  {
    hide CleanChar, Join, Split, Quoted, DIRECTIVE, CLOSE, VariantName, RenderContent, Utf8, RenderBlock, RenderEach;
    BoundedText(url, b, depth, text);
    if b.Blockquote? || b.Callout? {
      var inner := ContainerTexts(url, b, b.blocks, depth, text);
      EachClean(url, b.blocks, depth + 1, inner);
      Words();
      if b.Callout? {
        NamesClean(RichTaskList, b.variant, NativeHtml);
      } else {
        SplitClean(inner);
        QuotedClean(Split(inner));
        JoinClean(Quoted(Split(inner)));
      }
    } else {
      FlatClean(url, b, depth, text);
    }
  }

  lemma {:induction false} EachClean(url: UrlCheck, bs: seq<Block>, depth: nat, text: string)
    requires SimpleAll(bs, depth) && RenderEach(url, bs, depth) == Ok(text)
    ensures CleanText(text)
    decreases bs, 2
  {
    hide CleanChar, RenderBlock, Simple;
    if bs != [] {
      var head, tail := EachStep(url, bs, depth, text);
      BlockClean(url, bs[0], depth, head);
      if |bs| > 1 {
        EachClean(url, bs[1..], depth, tail);
        Words();
      }
    }
  }

  // ---------- The strings of what is read back ----------

  lemma AllCleanBoth(a: seq<string>, b: seq<string>)
    requires AllClean(a) && AllClean(b)
    ensures AllClean(a + b)
  {
    hide CleanText;
  }

  lemma {:induction false} DropClean(t: string)
    requires CleanText(t)
    ensures CleanText(Drop(t))
  {
    hide CleanChar;
    if t != "" { DropClean(t[1..]); }
  }

  lemma RunsStringsClean(rs: seq<Inline>)
    requires SimpleRuns(rs)
    ensures AllClean(RunStrings(DropRuns(rs)))
  {
    hide CleanText, Utf8, Drop;
    var ds := DropRuns(rs);
    if rs != [] {
      DropClean(rs[0].text);
      assert ds[1..] == [] && MarkStrings([]) == [] && RunStrings([]) == [];
      assert RunStrings(ds) == [ds[0].text];
    }
  }

  lemma {:induction false} TasksStringsClean(ts: seq<TaskItem>, depth: nat)
    requires SimpleTasks(ts, depth)
    ensures AllClean(TaskStrings(DropTasks(ts)))
    decreases ts
  {
    hide AllClean, RunStrings, OneLine, SimpleRuns, DropRuns;
    if ts == [] {
      NoStrings();
    } else {
      var ds := DropTasks(ts);
      assert ds[1..] == DropTasks(ts[1..]);
      RunsStringsClean(ts[0].inlines);
      TasksStringsClean(ts[0].children, depth + 1);
      TasksStringsClean(ts[1..], depth);
      AllCleanBoth(RunStrings(ds[0].inlines), TaskStrings(ds[0].children));
      AllCleanBoth(RunStrings(ds[0].inlines) + TaskStrings(ds[0].children), TaskStrings(ds[1..]));
    }
  }

  lemma NoStrings()
    ensures AllClean([])
  {
  }

  lemma {:induction false} ItemsStringsClean(items: seq<ListItem>)
    requires SimpleItems(items)
    ensures AllClean(ItemStrings(DropItems(items)))
  {
    hide AllClean, RunStrings, OneLine, SimpleRuns, DropRuns;
    if items == [] {
      NoStrings();
    } else {
      var ds := DropItems(items);
      assert ds[1..] == DropItems(items[1..]);
      RunsStringsClean(items[0].inlines);
      ItemsStringsClean(items[1..]);
      assert RunStrings(ds[0].inlines) + [] == RunStrings(ds[0].inlines);
      AllCleanBoth(RunStrings(ds[0].inlines), ItemStrings(ds[1..]));
    }
  }

  lemma {:induction false} RowsStringsClean(rows: seq<seq<string>>)
    requires forall i :: 0 <= i < |rows| ==> AllClean(rows[i])
    ensures AllClean(AllOf(rows))
  {
    hide AllClean;
    if rows == [] {
      NoStrings();
    } else {
      RowsStringsClean(rows[1..]);
      AllCleanBoth(rows[0], AllOf(rows[1..]));
    }
  }

  lemma {:induction false} BlockStringsClean(url: UrlCheck, b: Block, depth: nat)
    requires Simple(b, depth) && RenderBlock(url, b, depth).Ok?
    ensures AllClean(BlockStrings(Dropped(b)))
    decreases b, 1
  {
    hide RenderBlock, RenderEach, RunStrings, DropRuns, SimpleTasks, TaskStrings, DropTasks, DropItems, ItemStrings, SimpleItems,
      SimpleRuns, ParagraphText, Strings, DroppedAll, CleanText, SimpleAll, Validate, OneLine;
    var text := RenderBlock(url, b, depth).value;
    match b
    case Paragraph(rs) => RunsStringsClean(rs);
    case Heading(_, rs) => RunsStringsClean(rs);
    case BulletList(items) => ItemsStringsClean(items);
    case OrderedList(items) => ItemsStringsClean(items);
    case TaskList(kind, title, ts) =>
      TasksStringsClean(ts, depth);
      TitleStringsClean(kind, title);
      AllCleanBoth(if title.Some? then [title.value] else [], TaskStrings(DropTasks(ts)));
    case Blockquote(blocks) => ContainerStringsClean(url, b, blocks, depth);
    case Callout(_, blocks) => ContainerStringsClean(url, b, blocks, depth);
    case CodeBlock(code, language) => CodeStringsClean(url, code, language, depth);
    case Table(columns, rows) =>
      RowsStringsClean(rows);
      AllCleanBoth(columns, AllOf(rows));
    case HorizontalRule => NoStrings();
    case Opaque(nodeType, sentinel) => OpaqueStringsClean(url, nodeType, sentinel, depth);
  }

  lemma TitleStringsClean(kind: Option<ListKind>, title: Option<string>)
    requires SimpleTitle(kind, title)
    ensures AllClean(if title.Some? then [title.value] else [])
  {
    if title.Some? {
      assert forall i :: 0 <= i < |title.value| ==> title.value[i] in title.value;
    }
  }

  lemma CodeStringsClean(url: UrlCheck, code: string, language: Option<string>, depth: nat)
    requires CleanText(code) && RenderBlock(url, CodeBlock(code, language), depth).Ok?
    ensures AllClean([code] + (if language.Some? then [language.value] else []))
  {
    hide Utf8, Fence;
    if language.Some? { assert CleanText(language.value); }
  }

  lemma OpaqueStringsClean(url: UrlCheck, nodeType: string, sentinel: Sentinel, depth: nat)
    requires RenderBlock(url, Opaque(nodeType, sentinel), depth).Ok?
    ensures AllClean([nodeType, sentinel.token])
  {
    hide Utf8;
    assert CleanText(nodeType) && CleanText(sentinel.token);
  }

  lemma {:induction false} ContainerStringsClean(url: UrlCheck, b: Block, blocks: seq<Block>, depth: nat)
    requires b == Blockquote(blocks) || (b.Callout? && b.blocks == blocks)
    requires Simple(b, depth) && RenderBlock(url, b, depth).Ok?
    ensures AllClean(Strings(DroppedAll(blocks)))
    decreases blocks, 3
  {
    hide RenderBlock, RenderEach, Strings, DroppedAll, SimpleAll, Quoted, Split, Join, AllClean;
    var text := RenderBlock(url, b, depth).value;
    BoundedText(url, b, depth, text);
    var inner := ContainerTexts(url, b, blocks, depth, text);
    EachStringsClean(url, blocks, depth + 1);
  }

  lemma {:induction false} EachStringsClean(url: UrlCheck, bs: seq<Block>, depth: nat)
    requires SimpleAll(bs, depth) && RenderEach(url, bs, depth).Ok?
    ensures AllClean(Strings(DroppedAll(bs)))
    decreases bs, 2
  {
    hide RenderBlock, RenderEach, Simple, AllClean, BlockStrings, Dropped;
    if bs == [] {
      NoStrings();
    } else {
      var ds := DroppedAll(bs);
      assert ds[1..] == DroppedAll(bs[1..]);
      EachRest(url, bs, depth);
      BlockStringsClean(url, bs[0], depth);
      EachStringsClean(url, bs[1..], depth);
      AllCleanBoth(BlockStrings(ds[0]), Strings(ds[1..]));
    }
  }

  lemma EachRest(url: UrlCheck, bs: seq<Block>, depth: nat)
    requires bs != [] && RenderEach(url, bs, depth).Ok?
    ensures RenderBlock(url, bs[0], depth).Ok? && RenderEach(url, bs[1..], depth).Ok?
  {
    hide RenderBlock;
  }

  // ---------- Documents ----------

  /** Every block is one the parser is promised to read back, within its caps on depth and count. */
  predicate SimpleDocument(doc: seq<Block>) { SimpleAll(doc, 1) && Count(doc) <= MAX_BLOCKS }

  lemma EmitSteps(url: UrlCheck, doc: seq<Block>, text: string) returns (body: string)
    requires Emit(url, doc) == Ok(text)
    ensures RenderEach(url, doc, 1) == Ok(body) && Utf8(text) <= MAX_MARKDOWN_BYTES
    ensures text == HEADER + if doc == [] then "" else "\n" + body + "\n"
  {
    hide RenderEach, Utf8, HEADER;
    body := RenderEach(url, doc, 1).value;
  }

  /** The document inside the envelope of header and newlines. */
  lemma {:induction false} DecodeSteps(url: UrlCheck, body: string)
    requires Utf8(HEADER + "\n" + body + "\n") <= MAX_MARKDOWN_BYTES && CleanText(HEADER + "\n" + body + "\n")
    ensures Decode(url, HEADER + "\n" + body + "\n")
         == match Blocks(url, Split(body), 0, 0, 1, false)
            case Err(code) => Err(code)
            case Ok(doc) =>
              match Safe(doc.value) case Err(code) => Err(code) case Ok(_) => Ok(doc.value)
  {
    hide Utf8, CleanText, HEADER, Blocks, Split, Safe;
    var text, rest := HEADER + "\n" + body + "\n", "\n" + body + "\n";
    assert text == HEADER + rest;
    assert text[..|HEADER|] == HEADER && text[|HEADER|..] == rest;
    assert rest[1..|rest| - 1] == body;
  }

  lemma HeaderClean()
    ensures CleanText(HEADER)
  {
  }

  /** What is printed for a simple document is read as the document without the backslashes that
      stand directly before a digit. */
  lemma {:induction false} DocumentReads(url: UrlCheck, doc: seq<Block>, text: string)
    requires SimpleDocument(doc) && Emit(url, doc) == Ok(text)
    ensures Decode(url, text)
         == match Validate(DroppedAll(doc)) case Some(code) => Err(code) case None => Ok(DroppedAll(doc))
  {
    hide CleanChar, Split, CLOSE, RenderEach, BlockLoop, SimpleAll, Validate;
    var body := EmitSteps(url, doc, text);
    HeaderClean();
    if doc == [] {
      EmptyReads(url);
    } else {
      EachClean(url, doc, 1, body);
      Words();
      assert text == HEADER + "\n" + body + "\n";
      assert CleanText(text);
      DecodeSteps(url, body);
      WholeStands(body);
      assert Closed(Split(body), |Split(body)|, false);
      assert 1 <= MAX_DEPTH;
      BlocksReads(url, doc, 1, body, Split(body), 0, 0, false);
      EachStringsClean(url, doc, 1);
      assert Blocks(url, Split(body), 0, 0, 1, false) == BlockLoop(url, Split(body), 0, 0, 1, false);
    }
  }

  lemma EmptyReads(url: UrlCheck)
    ensures Decode(url, HEADER + "") == match Validate(DroppedAll([])) case Some(code) => Err(code) case None => Ok(DroppedAll([]))
  {
    HeaderClean();
    HeaderShort();
    hide HEADER, CleanText, Utf8, Blocks, Split;
    assert HEADER + "" == HEADER && HEADER[|HEADER|..] == "" && HEADER <= HEADER;
    assert Validate([]) == None;
  }

  lemma HeaderShort()
    ensures Utf8(HEADER) <= MAX_MARKDOWN_BYTES
  {
    Utf8Bound(HEADER);
    hide Utf8;
    assert |HEADER| < 1000;
  }

  lemma {:induction false} Utf8Bound(s: string)
    ensures Utf8(s) <= 4 * |s|
  {
    if s != "" { Utf8Bound(s[1..]); }
  }

  // ---------- Exactly when ----------

  predicate KeepsRuns(rs: seq<Inline>) { forall i :: 0 <= i < |rs| ==> NoBackslashDigit(rs[i].text) }

  predicate KeepsTasks(ts: seq<TaskItem>) {
    ts != [] ==> KeepsRuns(ts[0].inlines) && KeepsTasks(ts[0].children) && KeepsTasks(ts[1..])
  }

  /** No text of the document holds a backslash directly before a digit. */
  predicate Keeps(b: Block)
    decreases b, 0
  {
    match b
    case Paragraph(inlines) => KeepsRuns(inlines)
    case Heading(_, inlines) => KeepsRuns(inlines)
    case BulletList(items) => forall i :: 0 <= i < |items| ==> KeepsRuns(items[i].inlines)
    case OrderedList(items) => forall i :: 0 <= i < |items| ==> KeepsRuns(items[i].inlines)
    case TaskList(_, _, tasks) => KeepsTasks(tasks)
    case Blockquote(blocks) => KeepsAll(blocks)
    case Callout(_, blocks) => KeepsAll(blocks)
    case _ => true
  }

  predicate KeepsAll(bs: seq<Block>)
    decreases bs, 1
  {
    bs != [] ==> Keeps(bs[0]) && KeepsAll(bs[1..])
  }

  lemma RunsKept(rs: seq<Inline>)
    ensures DropRuns(rs) == rs <==> KeepsRuns(rs)
  {
    hide Drop, NoBackslashDigit;
    forall i | 0 <= i < |rs| ensures DropRuns(rs)[i] == rs[i] <==> NoBackslashDigit(rs[i].text) {
      DropKeeps(rs[i].text);
    }
  }

  lemma {:induction false} TasksKept(ts: seq<TaskItem>)
    ensures DropTasks(ts) == ts <==> KeepsTasks(ts)
    decreases ts
  {
    hide DropRuns, KeepsRuns;
    if ts != [] {
      RunsKept(ts[0].inlines);
      TasksKept(ts[0].children);
      TasksKept(ts[1..]);
      assert ts == [ts[0]] + ts[1..];
      assert DropTasks(ts)[1..] == DropTasks(ts[1..]);
    }
  }

  lemma ItemsKept(items: seq<ListItem>)
    requires SimpleItems(items)
    ensures DropItems(items) == items <==> forall i :: 0 <= i < |items| ==> KeepsRuns(items[i].inlines)
  {
    hide DropRuns, KeepsRuns, LineRuns;
    forall i | 0 <= i < |items| ensures DropItems(items)[i] == items[i] <==> KeepsRuns(items[i].inlines) {
      RunsKept(items[i].inlines);
    }
  }

  lemma {:induction false} BlockKept(b: Block, depth: nat)
    requires Simple(b, depth)
    ensures Dropped(b) == b <==> Keeps(b)
    decreases b, 0
  {
    hide DropRuns, KeepsRuns, DropTasks, KeepsTasks, DropItems, SimpleItems, SimpleRuns, SimpleAll, DroppedAll,
      Validate, CleanText;
    match b
    case Paragraph(inlines) => RunsKept(inlines);
    case Heading(_, inlines) => RunsKept(inlines);
    case BulletList(items) => ItemsKept(items);
    case OrderedList(items) => ItemsKept(items);
    case TaskList(_, _, tasks) => TasksKept(tasks);
    case Blockquote(blocks) => AllKept(blocks, depth + 1);
    case Callout(_, blocks) => AllKept(blocks, depth + 1);
    case _ =>
  }

  lemma {:induction false} AllKept(bs: seq<Block>, depth: nat)
    requires SimpleAll(bs, depth)
    ensures DroppedAll(bs) == bs <==> KeepsAll(bs)
    decreases bs, 1
  {
    hide Simple, Dropped, Keeps;
    if bs != [] {
      BlockKept(bs[0], depth);
      AllKept(bs[1..], depth);
      assert bs == [bs[0]] + bs[1..];
      assert DroppedAll(bs)[1..] == DroppedAll(bs[1..]);
    }
  }

  /** The block round trip: a simple document that the validator accepts is read back as itself
      exactly when no text holds a backslash directly before a digit. */
  lemma {:induction false} MarkdownRoundTrips(url: UrlCheck, doc: seq<Block>, text: string)
    requires SimpleDocument(doc) && Emit(url, doc) == Ok(text) && Validate(doc) == None
    ensures Decode(url, text) == Ok(doc) <==> KeepsAll(doc)
  {
    hide Emit, Decode;
    DocumentReads(url, doc, text);
    AllKept(doc, 1);
  }

  // ---------- What is printed ----------

  /** A code block of one piece with a language of one word, a region with names the grammar knows. */
  predicate Printable(b: Block)
    decreases b, 0
  {
    match b
    case Blockquote(blocks) => PrintableAll(blocks)
    case Callout(_, blocks) => PrintableAll(blocks)
    case CodeBlock(text, language) => Utf8(text) <= MAX_INLINE_BYTES && (language.Some? ==> LanguageText(language.value))
    case Opaque(nodeType, sentinel) =>
      NodeTypeText(nodeType) && TokenText(sentinel.token) && Utf8(sentinel.token) <= MAX_SENTINEL_BYTES
    case _ => true
  }

  predicate PrintableAll(bs: seq<Block>)
    decreases bs, 1
  {
    bs != [] ==> Printable(bs[0]) && PrintableAll(bs[1..])
  }

  predicate OnlyTooLarge<T>(r: Outcome<T>) { r.Ok? || r == Err(OversizeBlock) || r == Err(OversizeDocument) }

  lemma {:induction false} ItemsPrint(url: UrlCheck, items: seq<ListItem>, ordered: bool, i: nat)
    requires SimpleItems(items)
    ensures RenderItems(url, items, ordered, i).Ok?
    decreases items
  {
    hide RenderInlines, EscapeText, SimpleRuns, OneLine, ItemPrefix;
    if items != [] {
      RunsReads(url, items[0].inlines);
      ItemsPrint(url, items[1..], ordered, i + 1);
    }
  }

  lemma {:induction false} ContentPrints(url: UrlCheck, b: Block, depth: nat)
    requires Simple(b, depth) && Printable(b)
    ensures OnlyTooLarge(RenderContent(url, b, depth))
    decreases b, 0
  {
    hide RenderInlines, RenderItems, RenderTasks, RenderEach, SimpleAll, PrintableAll, SimpleTasks, SimpleItems, SimpleRuns, OneLine,
      ParagraphText, EscapeText, Utf8, LanguageText, NodeTypeText, TokenText, Fence, Validate, TitlePrinted, Quoted, Split, Join,
      MarkdownJson.TableJson;
    match b
    case Paragraph(inlines) => RunsReads(url, inlines);
    case Heading(_, inlines) => RunsReads(url, inlines);
    case BulletList(items) => ItemsPrint(url, items, false, 1);
    case OrderedList(items) => ItemsPrint(url, items, true, 1);
    case TaskList(_, _, tasks) => TasksRendered(url, tasks, 0, depth);
    case Blockquote(blocks) => AllPrint(url, blocks, depth + 1);
    case Callout(_, blocks) => AllPrint(url, blocks, depth + 1);
    case _ =>
  }

  lemma {:induction false} AllPrint(url: UrlCheck, bs: seq<Block>, depth: nat)
    requires SimpleAll(bs, depth) && PrintableAll(bs)
    ensures OnlyTooLarge(RenderEach(url, bs, depth)) && depth <= MAX_DEPTH
    decreases bs, 1
  {
    hide RenderContent, Simple, Printable, Utf8;
    if bs != [] {
      ContentPrints(url, bs[0], depth);
      AllPrint(url, bs[1..], depth);
    }
  }

  /** Every simple document is printed, unless a block or the whole comes out too large. */
  lemma SimplePrints(url: UrlCheck, doc: seq<Block>)
    requires SimpleDocument(doc) && PrintableAll(doc)
    ensures OnlyTooLarge(Emit(url, doc))
  {
    hide RenderEach, SimpleAll, PrintableAll, Utf8, HEADER;
    AllPrint(url, doc, 1);
  }
}
