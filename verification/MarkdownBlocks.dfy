/** Blocks in Markdown: the printer, and the line parser as functions of its position. */
module MarkdownBlocks {
  import opened Text
  import opened NoteDocument
  import opened Markdown
  import MarkdownJson

  // ---------- Lines ----------

  predicate NotNewline(c: char) { c != '\n' }

  /** `split("\n")` */
  function Split(s: string): (ls: seq<string>)
    ensures ls != []
    decreases |s|
  {
    var n := End(s, 0, NotNewline);
    if n == |s| then [s] else [s[..n]] + Split(s[n + 1..])
  }

  /** `join(sep)` */
  function Join(ss: seq<string>, sep: string): string {
    if ss == [] then "" else if |ss| == 1 then ss[0] else ss[0] + sep + Join(ss[1..], sep)
  }

  // ---------- Printing ----------

  function Decimal(n: nat): string {
    if n < 10 then [('0' as int + n) as char] else Decimal(n / 10) + [('0' as int + n % 10) as char]
  }

  function Quoted(lines: seq<string>): seq<string> {
    seq(|lines|, i requires 0 <= i < |lines| => if lines[i] == "" then ">" else "> " + lines[i])
  }

  predicate IsTokenChar(c: char) { IsWord(c) || c == '_' || c == '-' }

  predicate TokenText(s: string) { s != "" && forall i :: 0 <= i < |s| ==> IsTokenChar(s[i]) }

  predicate NodeTypeText(s: string) { TokenText(s) && IsLetter(s[0]) }

  const DIRECTIVE := ":::nookbridge "
  const CLOSE := ":::"

  function TaskPrefix(level: nat, checked: bool): string {
    Repeat(' ', 2 * level) + "- [" + (if checked then "x" else " ") + "] "
  }

  function RenderTask(url: UrlCheck, t: TaskItem, level: nat): Outcome<string>
    decreases t, 0
  {
    var text :- RenderInlines(url, t.inlines);
    if t.children == [] then Ok(TaskPrefix(level, t.checked) + text)
    else
      var nested :- RenderTasks(url, t.children, level + 1);
      Ok(TaskPrefix(level, t.checked) + text + "\n" + nested)
  }

  function RenderTasks(url: UrlCheck, ts: seq<TaskItem>, level: nat): Outcome<string>
    decreases ts, 1
  {
    if ts == [] then Ok("")
    else
      var head :- RenderTask(url, ts[0], level);
      if |ts| == 1 then Ok(head)
      else
        var tail :- RenderTasks(url, ts[1..], level);
        Ok(head + "\n" + tail)
  }

  function ItemPrefix(ordered: bool, i: nat): string { if ordered then Decimal(i) + ". " else "- " }

  /** The items from the one numbered `i` on. */
  function RenderItems(url: UrlCheck, items: seq<ListItem>, ordered: bool, i: nat): Outcome<string> {
    if items == [] then Ok("")
    else if items[0].ItemWith? && items[0].blocks != [] then Err(UnsupportedNode)
    else
      var text :- RenderInlines(url, items[0].inlines);
      if |items| == 1 then Ok(ItemPrefix(ordered, i) + text)
      else
        var tail :- RenderItems(url, items[1..], ordered, i + 1);
        Ok(ItemPrefix(ordered, i) + text + "\n" + tail)
  }

  function TitlePrinted(title: Option<string>): string {
    if title == None || title.value == "" then "" else " title=" + MarkdownJson.Quote(title.value)
  }

  /** One block without the bound on its size. */
  function RenderContent(url: UrlCheck, b: Block, depth: nat): Outcome<string>
    decreases b, 0
  {
    match b
    case Paragraph(inlines) => RenderInlines(url, inlines)
    case Heading(level, inlines) =>
      var text :- RenderInlines(url, inlines);
      Ok(Repeat('#', level) + " " + text)
    case CodeBlock(text, language) =>
      var _ :- Bounded(text, MAX_INLINE_BYTES, OversizeInline);
      if language.Some? && !LanguageText(language.value) then Err(InvalidShape)
      else
        Ok(Fence(text) + (if language.Some? then language.value else "") + "\n" + text + "\n" + Fence(text))
    case Table(columns, rows) =>
      Ok(DIRECTIVE + "table\n" + MarkdownJson.TableJson(columns, rows) + "\n" + CLOSE)
    case Callout(v, blocks) =>
      var inner :- RenderBlocks(url, blocks, depth + 1);
      Ok(DIRECTIVE + "callout " + VariantName(v) + "\n" + inner + "\n" + CLOSE)
    case Blockquote(blocks) =>
      var inner :- RenderBlocks(url, blocks, depth + 1);
      Ok(Join(Quoted(Split(inner)), "\n"))
    case BulletList(items) => RenderItems(url, items, false, 1)
    case OrderedList(items) => RenderItems(url, items, true, 1)
    case TaskList(kind, title, tasks) =>
      var items :- RenderTasks(url, tasks, 0);
      Ok(if kind == None then items
         else DIRECTIVE + "list " + KindName(kind.value) + TitlePrinted(title) + "\n" + items + "\n" + CLOSE)
    case Opaque(nodeType, sentinel) =>
      if !NodeTypeText(nodeType) || !TokenText(sentinel.token) then Err(OpaquePayloadForbidden)
      else
        var _ :- Bounded(sentinel.token, MAX_SENTINEL_BYTES, OversizeSentinel);
        Ok(DIRECTIVE + "opaque " + nodeType + "\nref:1:" + SourceName(sentinel.source) + ":" + sentinel.token + "\n" + CLOSE)
    case HorizontalRule => Ok("---")
    case Reference(_) => Err(UnsupportedNode)
  }

  function RenderBlock(url: UrlCheck, b: Block, depth: nat): Outcome<string>
    decreases b, 1
  {
    var out :- RenderContent(url, b, depth);
    var _ :- Bounded(out, MAX_BLOCK_BYTES, OversizeBlock);
    Ok(out)
  }

  function RenderEach(url: UrlCheck, bs: seq<Block>, depth: nat): Outcome<string>
    decreases bs, 2
  {
    if bs == [] then Ok("")
    else
      var head :- RenderBlock(url, bs[0], depth);
      if |bs| == 1 then Ok(head)
      else
        var tail :- RenderEach(url, bs[1..], depth);
        Ok(head + "\n\n" + tail)
  }

  /** `renderBlocks` */
  function RenderBlocks(url: UrlCheck, bs: seq<Block>, depth: nat): Outcome<string>
    decreases bs, 3
  {
    if depth > MAX_DEPTH then Err(DepthExceeded) else RenderEach(url, bs, depth)
  }

  function Emit(url: UrlCheck, doc: seq<Block>): Outcome<string> {
    var body :- RenderBlocks(url, doc, 1);
    var text := HEADER + if doc == [] then "" else "\n" + body + "\n";
    var _ :- Bounded(text, MAX_MARKDOWN_BYTES, OversizeDocument);
    Ok(text)
  }

  // ---------- What one line is ----------

  predicate IsBlank(c: char) { c == ' ' }

  /** The rest of the line, which `(.*)$` matches unless it holds a line terminator. */
  predicate OneLine(s: string) { forall i :: 0 <= i < |s| ==> !EndsLine(s[i]) }

  /** An opening code fence: its backticks and its language. */
  function FenceLine(l: string): Option<(string, string)> {
    var n := End(l, 0, IsTick);
    if n >= 3 && forall i :: n <= i < |l| ==> IsLanguageChar(l[i]) then Some((l[..n], l[n..])) else None
  }

  datatype TaskLine = TaskLine(indent: nat, checked: bool, text: string)

  function ReadTask(l: string): Option<TaskLine> {
    var n := End(l, 0, IsBlank);
    var t := l[n..];
    if StartsWith(t, "- [") && |t| >= 6 && (t[3] == 'x' || t[3] == ' ') && t[4] == ']' && t[5] == ' ' && OneLine(t[6..]) then
      Some(TaskLine(n, t[3] == 'x', t[6..]))
    else None
  }

  /** `^- \[[ x]\] ` */
  predicate StartsTask(l: string) {
    StartsWith(l, "- [") && |l| >= 6 && (l[3] == 'x' || l[3] == ' ') && l[4] == ']' && l[5] == ' '
  }

  /** The indent of `^( +)- \[`, zero when the line is not one. */
  function NestedIndent(l: string): nat {
    var n := End(l, 0, IsBlank);
    if StartsWith(l[n..], "- [") then n else 0
  }

  /** The text of an ordinary list item. */
  function ReadItem(l: string, ordered: bool): Option<string> {
    if ordered then
      if StartsOrdered(l) && OneLine(l[End(l, 0, IsDigit) + 2..]) then Some(l[End(l, 0, IsDigit) + 2..]) else None
    else if StartsWith(l, "- ") && OneLine(l[2..]) then Some(l[2..])
    else None
  }

  predicate IsQuoteLine(l: string) { l == ">" || StartsWith(l, "> ") }

  function Unquoted(l: string): string { if |l| < 2 then "" else l[2..] }

  predicate IsHash(c: char) { c == '#' }

  function ReadHeading(l: string): Option<(nat, string)> {
    var n := End(l, 0, IsHash);
    if 1 <= n <= 3 && n < |l| && l[n] == ' ' && OneLine(l[n + 1..]) then Some((n, l[n + 1..])) else None
  }

  /** A line that a paragraph may hold. */
  predicate ParagraphLine(l: string) {
    && l != "" && !IsSpace(l[0])
    && l[0] != '#' && l[0] != '>' && l[0] != ':' && l[0] != '!' && l[0] != '|'
    && !StartsWith(l, "- ") && !StartsOrdered(l) && l != "---"
  }

  /** `(\S+)$` after this prefix. */
  function Word(l: string, prefix: string): Option<string> {
    if StartsWith(l, prefix) && |l| > |prefix| && End(l, |prefix|, NotSpace) == |l| then Some(l[|prefix|..]) else None
  }

  const TITLE := " title="

  /** `(\S+?)(?: title=([\s\S]*))?$` after this prefix: a word, and what follows ` title=`. */
  function ListLine(l: string, prefix: string): Option<(string, Option<string>)> {
    if !StartsWith(l, prefix) then None
    else
      var n := End(l, |prefix|, NotSpace);
      if n == |prefix| then None
      else if n == |l| then Some((l[|prefix|..], None))
      else if StartsWith(l[n..], TITLE) then Some((l[|prefix|..n], Some(l[n + |TITLE|..])))
      else None
  }

  function KindOf(name: string): Option<ListKind> {
    match name
    case "simple-checklist" => Some(SimpleChecklist) case "task-list" => Some(RichTaskList)
    case _ => None
  }

  /** The title after ` title=`: canonical JSON of a string. */
  function ReadTitle(title: Option<string>, kind: ListKind): Outcome<Option<string>> {
    match title
    case None => Ok(None)
    case Some(json) =>
      if kind != RichTaskList then Err(InvalidShape)
      else
        match MarkdownJson.ReadQuoted(json)
        case Some((value, "")) => Ok(if value == "" then None else Some(value))
        case _ => Err(InvalidShape)
  }

  function ReadReference(l: string): Option<Sentinel> {
    if StartsWith(l, "ref:1:native-html:") && TokenText(l[18..]) then Some(Sentinel(NativeHtml, l[18..]))
    else if StartsWith(l, "ref:1:native-tiptap:") && TokenText(l[20..]) then Some(Sentinel(NativeTiptap, l[20..]))
    else None
  }

  // ---------- The parser ----------

  /** What has been read from a position, and the position and block count after it. */
  datatype Parsed<+T> = Parsed(value: T, pos: nat, count: nat)

  predicate LineIs(lines: seq<string>, pos: nat, l: string) { pos < |lines| && lines[pos] == l }

  /** `tasks` from its loop on, with `n` items already read. */
  function Tasks(url: UrlCheck, lines: seq<string>, pos: nat, depth: nat, indent: nat, n: nat)
    : (r: Outcome<Parsed<seq<TaskItem>>>)
    requires pos <= |lines|
    ensures r.Ok? ==> pos <= r.value.pos <= |lines| && (r.value.value != [] ==> pos < r.value.pos)
    decreases |lines| - pos
  {
    if pos == |lines| then Ok(Parsed([], pos, 0))
    else
      match ReadTask(lines[pos])
      case None => Ok(Parsed([], pos, 0))
      case Some(t) =>
        if t.indent < indent then Ok(Parsed([], pos, 0))
        else if t.indent != indent then Err(InvalidShape)
        else if n >= MAX_LIST_ITEMS then Err(OversizeDocument)
        else
          var inlines :- ParseInlines(url, t.text);
          var nested := pos + 1 < |lines| && NestedIndent(lines[pos + 1]) > indent;
          if nested && depth + 2 > MAX_DEPTH then Err(DepthExceeded)
          else
            var children :- if nested then Tasks(url, lines, pos + 1, depth + 1, indent + 2, 0)
                            else Ok(Parsed([], pos + 1, 0));
            var rest :- Tasks(url, lines, children.pos, depth, indent, n + 1);
            Ok(Parsed([TaskItem(t.checked, inlines, children.value)] + rest.value, rest.pos, 0))
  }

  function TasksAt(url: UrlCheck, lines: seq<string>, pos: nat, depth: nat): (r: Outcome<Parsed<seq<TaskItem>>>)
    requires pos <= |lines|
    ensures r.Ok? ==> pos <= r.value.pos <= |lines| && (r.value.value != [] ==> pos < r.value.pos)
  {
    if depth + 1 > MAX_DEPTH then Err(DepthExceeded) else Tasks(url, lines, pos, depth, 0, 0)
  }

  /** The items of an ordinary list from here on, with `n` already read. */
  function Items(url: UrlCheck, lines: seq<string>, pos: nat, ordered: bool, n: nat)
    : (r: Outcome<Parsed<seq<ListItem>>>)
    requires pos <= |lines|
    ensures r.Ok? ==> pos <= r.value.pos <= |lines|
    decreases |lines| - pos
  {
    if pos == |lines| || ReadItem(lines[pos], ordered) == None then Ok(Parsed([], pos, 0))
    else if n >= MAX_LIST_ITEMS then Err(OversizeDocument)
    else
      var inlines :- ParseInlines(url, ReadItem(lines[pos], ordered).value);
      var rest :- Items(url, lines, pos + 1, ordered, n + 1);
      Ok(Parsed([Item(inlines)] + rest.value, rest.pos, 0))
  }

  /** The first line from `pos` on that satisfies `p`, or the end. */
  function FirstLine(lines: seq<string>, pos: nat, p: string -> bool): (e: nat)
    requires pos <= |lines|
    ensures pos <= e <= |lines|
    ensures forall i :: pos <= i < e ==> !p(lines[i])
    ensures e < |lines| ==> p(lines[e])
    decreases |lines| - pos
  {
    if pos == |lines| || p(lines[pos]) then pos else FirstLine(lines, pos + 1, p)
  }

  predicate EndsParagraph(l: string) { l == "" || l == CLOSE }

  function UnquotedAll(lines: seq<string>): (r: seq<string>)
    ensures |r| == |lines|
  {
    seq(|lines|, i requires 0 <= i < |lines| => Unquoted(lines[i]))
  }

  /** `blocks` on the lines from `pos` on. */
  function Blocks(url: UrlCheck, lines: seq<string>, pos: nat, count: nat, depth: nat, nested: bool)
    : (r: Outcome<Parsed<seq<Block>>>)
    requires pos <= |lines|
    ensures r.Ok? ==> pos <= r.value.pos <= |lines|
    decreases if depth <= MAX_DEPTH then MAX_DEPTH + 1 - depth else 0, |lines| - pos, 2
  {
    if depth > MAX_DEPTH then Err(DepthExceeded) else BlockLoop(url, lines, pos, count, depth, nested)
  }

  function BlockLoop(url: UrlCheck, lines: seq<string>, pos: nat, count: nat, depth: nat, nested: bool)
    : (r: Outcome<Parsed<seq<Block>>>)
    requires pos <= |lines| && depth <= MAX_DEPTH
    ensures r.Ok? ==> pos <= r.value.pos <= |lines|
    decreases MAX_DEPTH + 1 - depth, |lines| - pos, 1
  {
    if pos == |lines| then if nested then Err(InvalidShape) else Ok(Parsed([], pos, count))
    else if lines[pos] == CLOSE then
      if nested then Ok(Parsed([], pos + 1, count)) else Err(InvalidShape)
    else if count + 1 > MAX_BLOCKS then Err(OversizeDocument)
    else
      var head :- BlockAt(url, lines, pos, count + 1, depth);
      var _ :- Bounded(Join(lines[pos..head.pos], "\n"), MAX_BLOCK_BYTES, OversizeBlock);
      if head.pos == |lines| then
        if nested then Err(InvalidShape) else Ok(Parsed([head.value], head.pos, head.count))
      else if nested && lines[head.pos] == CLOSE then
        match BlockLoop(url, lines, head.pos, head.count, depth, nested)
        case Err(code) => Err(code)
        case Ok(rest) => Ok(Parsed([head.value] + rest.value, rest.pos, rest.count))
      else if lines[head.pos] != "" || head.pos + 1 == |lines| || lines[head.pos + 1] == "" then Err(InvalidShape)
      else
        var rest :- BlockLoop(url, lines, head.pos + 1, head.count, depth, nested);
        Ok(Parsed([head.value] + rest.value, rest.pos, rest.count))
  }

  function BlockAt(url: UrlCheck, lines: seq<string>, pos: nat, count: nat, depth: nat): (r: Outcome<Parsed<Block>>)
    requires pos < |lines| && depth <= MAX_DEPTH
    ensures r.Ok? ==> pos < r.value.pos <= |lines|
    decreases MAX_DEPTH + 1 - depth, |lines| - pos, 0
  {
    var line := lines[pos];
    if StartsWith(line, CLOSE) then DirectiveAt(url, lines, pos, count, depth)
    else if FenceLine(line).Some? then CodeAt(lines, pos, count, FenceLine(line).value)
    else if StartsTask(line) then
      var items :- TasksAt(url, lines, pos, depth);
      if items.value == [] then Err(InvalidShape)
      else Ok(Parsed(TaskList(None, None, items.value), items.pos, count))
    else if line == "---" then Ok(Parsed(HorizontalRule, pos + 1, count))
    else if StartsWith(line, "- ") || StartsOrdered(line) then
      var items :- Items(url, lines, pos, StartsOrdered(line), 0);
      if items.pos == pos then Err(InvalidShape)
      else Ok(Parsed(if StartsOrdered(line) then OrderedList(items.value) else BulletList(items.value), items.pos, count))
    else if IsQuoteLine(line) then
      var end := FirstLine(lines, pos + 1, l => !IsQuoteLine(l));
      var inner :- Blocks(url, UnquotedAll(lines[pos..end]), 0, 0, depth + 1, false);
      Ok(Parsed(Blockquote(inner.value), end, count))
    else if ReadHeading(line).Some? then
      var inlines :- ParseInlines(url, ReadHeading(line).value.1);
      Ok(Parsed(Heading(ReadHeading(line).value.0, inlines), pos + 1, count))
    else
      var end := FirstLine(lines, pos + 1, EndsParagraph);
      if exists i :: pos <= i < end && !ParagraphLine(lines[i]) then Err(InvalidShape)
      else
        var inlines :- ParseInlines(url, Join(lines[pos..end], "\n"));
        Ok(Parsed(Paragraph(inlines), end, count))
  }

  function CodeAt(lines: seq<string>, pos: nat, count: nat, fence: (string, string)): (r: Outcome<Parsed<Block>>)
    requires pos < |lines|
    ensures r.Ok? ==> pos < r.value.pos <= |lines|
  {
    var end := FirstLine(lines, pos + 1, l => l == fence.0);
    if end == |lines| then Err(InvalidShape)
    else
      var text := Join(lines[pos + 1..end], "\n");
      var _ :- Bounded(text, MAX_INLINE_BYTES, OversizeInline);
      Ok(Parsed(CodeBlock(text, if fence.1 == "" then None else Some(fence.1)), end + 1, count))
  }

  function DirectiveAt(url: UrlCheck, lines: seq<string>, pos: nat, count: nat, depth: nat): (r: Outcome<Parsed<Block>>)
    requires pos < |lines| && depth <= MAX_DEPTH
    ensures r.Ok? ==> pos < r.value.pos <= |lines|
    decreases MAX_DEPTH + 1 - depth, |lines| - pos - 1, 3
  {
    var line := lines[pos];
    if line == DIRECTIVE + "table" then TableAt(lines, pos, count)
    else if Word(line, DIRECTIVE + "callout ").Some? then
      match VariantOf(Word(line, DIRECTIVE + "callout ").value)
      case None => Err(UnsupportedCalloutVariant)
      case Some(v) =>
        var inner :- Blocks(url, lines, pos + 1, count, depth + 1, true);
        Ok(Parsed(Callout(v, inner.value), inner.pos, inner.count))
    else if ListLine(line, DIRECTIVE + "list ").Some? then
      var (name, json) := ListLine(line, DIRECTIVE + "list ").value;
      (match KindOf(name)
       case None => Err(UnsupportedListKind)
       case Some(kind) =>
         var title :- ReadTitle(json, kind);
         var items :- TasksAt(url, lines, pos + 1, depth);
         if items.value == [] || !LineIs(lines, items.pos, CLOSE) then Err(InvalidShape)
         else Ok(Parsed(TaskList(Some(kind), title, items.value), items.pos + 1, count)))
    else if StartsWith(line, DIRECTIVE + "opaque ") && NodeTypeText(line[|DIRECTIVE| + 7..]) then
      OpaqueAt(lines, pos, count, line[|DIRECTIVE| + 7..])
    else Err(InvalidShape)
  }

  function TableAt(lines: seq<string>, pos: nat, count: nat): (r: Outcome<Parsed<Block>>)
    requires pos < |lines|
    ensures r.Ok? ==> pos < r.value.pos <= |lines|
  {
    if pos + 1 == |lines| then Err(InvalidShape)
    else
      var _ :- Bounded(lines[pos + 1], MAX_BLOCK_BYTES, OversizeBlock);
      match MarkdownJson.ReadTable(lines[pos + 1])
      case None => Err(InvalidShape)
      case Some((columns, rows)) =>
        if !LineIs(lines, pos + 2, CLOSE) then Err(InvalidShape)
        else
          match Validate([Table(columns, rows)])
          case Some(code) => Err(code)
          case None => Ok(Parsed(Table(columns, rows), pos + 3, count))
  }

  function OpaqueAt(lines: seq<string>, pos: nat, count: nat, nodeType: string): (r: Outcome<Parsed<Block>>)
    requires pos < |lines|
    ensures r.Ok? ==> pos < r.value.pos <= |lines|
  {
    if pos + 1 == |lines| || ReadReference(lines[pos + 1]) == None || !LineIs(lines, pos + 2, CLOSE) then
      Err(OpaquePayloadForbidden)
    else
      var sentinel := ReadReference(lines[pos + 1]).value;
      var _ :- Bounded(sentinel.token, MAX_SENTINEL_BYTES, OversizeSentinel);
      Ok(Parsed(Opaque(nodeType, sentinel), pos + 3, count))
  }

  // ---------- Documents ----------

  predicate AllClean(ss: seq<string>) { forall i :: 0 <= i < |ss| ==> CleanText(ss[i]) }

  /** `safeDocument` */
  function Safe(doc: seq<Block>): Outcome<()> {
    if !AllClean(Strings(doc)) then Err(InvalidShape)
    else match Validate(doc) case Some(code) => Err(code) case None => Ok(())
  }

  function Decode(url: UrlCheck, text: string): Outcome<seq<Block>> {
    var _ :- Bounded(text, MAX_MARKDOWN_BYTES, OversizeDocument);
    if !CleanText(text) || !StartsWith(text, HEADER) then Err(InvalidShape)
    else
      var rest := text[|HEADER|..];
      if rest == "" then Ok([])
      else if rest[0] != '\n' || rest[|rest| - 1] != '\n' then Err(InvalidShape)
      else
        var lines := Split(if |rest| < 2 then "" else rest[1..|rest| - 1]);
        var doc :- Blocks(url, lines, 0, 0, 1, false);
        var _ :- Safe(doc.value);
        Ok(doc.value)
  }
}
