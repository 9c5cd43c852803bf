/** The versioned document both codecs read and write, and its structural validator. */
module NoteDocument {
  import opened Text

  /** In the order both codecs call canonical. */
  datatype Mark = Bold | Italic | Underline | Strike | Link(href: string) | Code

  datatype Inline = Inline(text: string, marks: Option<seq<Mark>>)

  datatype ListKind = SimpleChecklist | RichTaskList

  datatype Variant = Info | Warning | Success | Danger

  datatype SentinelSource = NativeHtml | NativeTiptap

  datatype Sentinel = Sentinel(source: SentinelSource, token: string)

  /** A list item without the optional `blocks` field, or with it. */
  datatype ListItem =
    | Item(inlines: seq<Inline>)
    | ItemWith(inlines: seq<Inline>, blocks: seq<Block>)

  datatype TaskItem = TaskItem(checked: bool, inlines: seq<Inline>, children: seq<TaskItem>)

  /** `Reference` stands for the image, attachment and embed blocks, which neither codec emits. */
  datatype Block =
    | Paragraph(inlines: seq<Inline>)
    | Heading(level: nat, inlines: seq<Inline>)
    | BulletList(items: seq<ListItem>)
    | OrderedList(items: seq<ListItem>)
    | TaskList(kind: Option<ListKind>, title: Option<string>, tasks: seq<TaskItem>)
    | Blockquote(blocks: seq<Block>)
    | CodeBlock(text: string, language: Option<string>)
    | Table(columns: seq<string>, rows: seq<seq<string>>)
    | Callout(variant: Variant, blocks: seq<Block>)
    | HorizontalRule
    | Reference(url: string)
    | Opaque(nodeType: string, sentinel: Sentinel)

  datatype ErrorCode =
    | InvalidShape | OversizeDocument | OversizeBlock | OversizeInline | OversizeSentinel
    | DepthExceeded | UnsupportedNode | UnsupportedListKind | UnsupportedMark
    | UnsupportedCalloutVariant | OpaquePayloadForbidden | MalformedLink | TableColumnMismatch

  const MAX_BLOCKS := 4096
  const MAX_BLOCK_BYTES := 65_536
  const MAX_INLINE_BYTES := 8192
  const MAX_INLINES_PER_BLOCK := 1024
  const MAX_LIST_ITEMS := 2048
  const MAX_TASK_CHILDREN := 1024
  const MAX_DEPTH := 16
  const MAX_SENTINEL_BYTES := 128
  const MAX_TITLE_BYTES := 256

  // ---------- Serialised sizes ----------

  datatype Json =
    | JStr(s: string) | JNum(n: nat) | JBool(b: bool) | JArr(items: seq<Json>)
    | JObj(fields: seq<Field>)

  datatype Field = Field(name: string, value: Json)

  /** The bytes `JSON.stringify` spends on one character of a string. */
  function JsonCharBytes(c: char): nat {
    var n := c as int;
    if c == '"' || c == '\\' || n in {8, 9, 10, 12, 13} then 2
    else if n < 32 then 6
    else Utf8Char(c)
  }

  function JsonStringBytes(s: string): nat {
    if s == "" then 2 else JsonCharBytes(s[0]) + JsonStringBytes(s[1..])
  }

  function Digits(n: nat): nat { if n < 10 then 1 else 1 + Digits(n / 10) }

  function JsonBytes(j: Json): nat {
    match j
    case JStr(s) => JsonStringBytes(s)
    case JNum(n) => Digits(n)
    case JBool(b) => if b then 4 else 5
    case JArr(items) => 2 + JsonItemsBytes(items)
    case JObj(fields) => 2 + JsonFieldsBytes(fields)
  }

  function JsonItemsBytes(items: seq<Json>): nat {
    if items == [] then 0
    else JsonBytes(items[0]) + (if |items| > 1 then 1 else 0) + JsonItemsBytes(items[1..])
  }

  function JsonFieldsBytes(fields: seq<Field>): nat {
    if fields == [] then 0
    else
      JsonStringBytes(fields[0].name) + 1 + JsonBytes(fields[0].value)
      + (if |fields| > 1 then 1 else 0) + JsonFieldsBytes(fields[1..])
  }

  function Optional(name: string, value: Option<Json>): seq<Field> {
    if value.Some? then [Field(name, value.value)] else []
  }

  function MarkJson(m: Mark): Json {
    match m
    case Link(href) => JObj([Field("type", JStr("link")), Field("href", JStr(href))])
    case Bold => JStr("bold")
    case Italic => JStr("italic")
    case Underline => JStr("underline")
    case Strike => JStr("strike")
    case Code => JStr("code")
  }

  function InlineJson(r: Inline): Json {
    JObj([Field("text", JStr(r.text))] + Optional("marks",
      if r.marks.Some? then
        Some(JArr(seq(|r.marks.value|, i requires 0 <= i < |r.marks.value| => MarkJson(r.marks.value[i]))))
      else None))
  }

  function InlinesJson(rs: seq<Inline>): Field {
    Field("inlines", JArr(seq(|rs|, i requires 0 <= i < |rs| => InlineJson(rs[i]))))
  }

  function StringsJson(ss: seq<string>): Json {
    JArr(seq(|ss|, i requires 0 <= i < |ss| => JStr(ss[i])))
  }

  function TaskJson(t: TaskItem): Json {
    JObj([Field("checked", JBool(t.checked)), InlinesJson(t.inlines), Field("children", JArr(TasksJson(t.children)))])
  }

  function TasksJson(ts: seq<TaskItem>): seq<Json> {
    if ts == [] then [] else [TaskJson(ts[0])] + TasksJson(ts[1..])
  }

  function ItemJson(item: ListItem): Json {
    match item
    case Item(inlines) => JObj([InlinesJson(inlines)])
    case ItemWith(inlines, blocks) => JObj([InlinesJson(inlines), Field("blocks", JArr(BlocksJson(blocks)))])
  }

  function ItemsJson(items: seq<ListItem>): seq<Json> {
    if items == [] then [] else [ItemJson(items[0])] + ItemsJson(items[1..])
  }

  function KindName(k: ListKind): string {
    match k case SimpleChecklist => "simple-checklist" case RichTaskList => "task-list"
  }

  function VariantName(v: Variant): string {
    match v
    case Info => "info" case Warning => "warning" case Success => "success" case Danger => "danger"
  }

  function VariantOf(name: string): Option<Variant> {
    match name
    case "info" => Some(Info) case "warning" => Some(Warning)
    case "success" => Some(Success) case "danger" => Some(Danger)
    case _ => None
  }

  function SourceName(s: SentinelSource): string {
    match s case NativeHtml => "native-html" case NativeTiptap => "native-tiptap"
  }

  function BlockJson(b: Block): Json {
    match b
    case Paragraph(inlines) => JObj([Field("type", JStr("paragraph")), InlinesJson(inlines)])
    case Heading(level, inlines) =>
      JObj([Field("type", JStr("heading")), Field("level", JNum(level)), InlinesJson(inlines)])
    case BulletList(items) =>
      JObj([Field("type", JStr("bullet-list")), Field("items", JArr(ItemsJson(items)))])
    case OrderedList(items) =>
      JObj([Field("type", JStr("ordered-list")), Field("items", JArr(ItemsJson(items)))])
    case TaskList(kind, title, tasks) =>
      JObj([Field("type", JStr("task-list")), Field("items", JArr(TasksJson(tasks)))]
        + Optional("kind", if kind.Some? then Some(JStr(KindName(kind.value))) else None)
        + Optional("title", if title.Some? then Some(JStr(title.value)) else None))
    case Blockquote(blocks) =>
      JObj([Field("type", JStr("blockquote")), Field("blocks", JArr(BlocksJson(blocks)))])
    case CodeBlock(text, language) =>
      JObj([Field("type", JStr("code-block")), Field("text", JStr(text))]
        + Optional("language", if language.Some? then Some(JStr(language.value)) else None))
    case Table(columns, rows) =>
      JObj([Field("type", JStr("table")), Field("columns", StringsJson(columns)),
            Field("rows", JArr(seq(|rows|, i requires 0 <= i < |rows| => StringsJson(rows[i]))))])
    case Callout(variant, blocks) =>
      JObj([Field("type", JStr("callout")), Field("variant", JStr(VariantName(variant))),
            Field("blocks", JArr(BlocksJson(blocks)))])
    case HorizontalRule => JObj([Field("type", JStr("horizontal-rule"))])
    case Reference(url) => JObj([Field("type", JStr("embed")), Field("url", JStr(url))])
    case Opaque(nodeType, s) =>
      JObj([Field("type", JStr("opaque")), Field("nodeType", JStr(nodeType)),
            Field("sentinel", JObj([Field("version", JNum(1)), Field("source", JStr(SourceName(s.source))),
                               Field("token", JStr(s.token))]))])
  }

  function BlocksJson(bs: seq<Block>): seq<Json> {
    if bs == [] then [] else [BlockJson(bs[0])] + BlocksJson(bs[1..])
  }

  // ---------- Runs and strings ----------

  function MarksOf(r: Inline): seq<Mark> { if r.marks.Some? then r.marks.value else [] }

  function MarkedRun(text: string, ms: seq<Mark>): Inline { Inline(text, if ms == [] then None else Some(ms)) }

  /** A character as it is shown: with the marks it carries. */
  datatype Glyph = Glyph(c: char, marks: set<Mark>)

  function TextGlyphs(s: string, marks: set<Mark>): (r: seq<Glyph>)
    ensures |r| == |s|
  {
    seq(|s|, i requires 0 <= i < |s| => Glyph(s[i], marks))
  }

  function MarkSet(ms: seq<Mark>): set<Mark> { set m | m in ms }

  function RunGlyphs(rs: seq<Inline>): seq<Glyph> {
    if rs == [] then [] else TextGlyphs(rs[0].text, MarkSet(MarksOf(rs[0]))) + RunGlyphs(rs[1..])
  }

  lemma {:induction false} RunGlyphsOf(a: seq<Inline>, b: seq<Inline>)
    ensures RunGlyphs(a + b) == RunGlyphs(a) + RunGlyphs(b)
  {
    if a == [] {
      assert a + b == b;
    } else {
      assert (a + b)[1..] == a[1..] + b && (a + b)[0] == a[0];
      RunGlyphsOf(a[1..], b);
    }
  }

  lemma TextGlyphsOf(a: string, b: string, marks: set<Mark>)
    ensures TextGlyphs(a + b, marks) == TextGlyphs(a, marks) + TextGlyphs(b, marks)
  {
  }

  lemma OneRunGlyphs(r: Inline)
    ensures RunGlyphs([r]) == TextGlyphs(r.text, MarkSet(MarksOf(r)))
  {
    assert [r][1..] == [];
    assert RunGlyphs([]) == [];
  }

  lemma NoGlyphs(marks: set<Mark>)
    ensures TextGlyphs("", marks) == [] && TextGlyphs("\n", marks) == [Glyph('\n', marks)]
  {
  }

  /** Every character of a block, in order: of its runs, its code, or its cells. */
  function BlockGlyphs(b: Block): seq<Glyph>
    decreases b, 0
  {
    match b
    case Paragraph(inlines) => RunGlyphs(inlines)
    case Heading(_, inlines) => RunGlyphs(inlines)
    case BulletList(items) => ItemGlyphs(items)
    case OrderedList(items) => ItemGlyphs(items)
    case TaskList(_, _, tasks) => TaskGlyphs(tasks)
    case Blockquote(blocks) => AllGlyphs(blocks)
    case Callout(_, blocks) => AllGlyphs(blocks)
    case CodeBlock(text, _) => TextGlyphs(text, {Code})
    case Table(columns, rows) => CellGlyphs(columns) + RowGlyphs(rows)
    case _ => []
  }

  function AllGlyphs(bs: seq<Block>): seq<Glyph>
    decreases bs, 1
  {
    if bs == [] then [] else BlockGlyphs(bs[0]) + AllGlyphs(bs[1..])
  }

  function ItemGlyphs(items: seq<ListItem>): seq<Glyph>
    decreases items, 0
  {
    if items == [] then []
    else
      RunGlyphs(items[0].inlines) + (match items[0] case ItemWith(_, blocks) => AllGlyphs(blocks) case Item(_) => [])
      + ItemGlyphs(items[1..])
  }

  function TaskGlyphs(ts: seq<TaskItem>): seq<Glyph> {
    if ts == [] then [] else RunGlyphs(ts[0].inlines) + TaskGlyphs(ts[0].children) + TaskGlyphs(ts[1..])
  }

  function CellGlyphs(cells: seq<string>): seq<Glyph> {
    if cells == [] then [] else TextGlyphs(cells[0], {}) + CellGlyphs(cells[1..])
  }

  function RowGlyphs(rows: seq<seq<string>>): seq<Glyph> {
    if rows == [] then [] else CellGlyphs(rows[0]) + RowGlyphs(rows[1..])
  }

  function RunStrings(rs: seq<Inline>): seq<string> {
    if rs == [] then [] else [rs[0].text] + MarkStrings(MarksOf(rs[0])) + RunStrings(rs[1..])
  }

  function MarkStrings(ms: seq<Mark>): seq<string> {
    if ms == [] then [] else (if ms[0].Link? then [ms[0].href] else []) + MarkStrings(ms[1..])
  }

  function TaskStrings(ts: seq<TaskItem>): seq<string> {
    if ts == [] then [] else RunStrings(ts[0].inlines) + TaskStrings(ts[0].children) + TaskStrings(ts[1..])
  }

  function ItemStrings(items: seq<ListItem>): seq<string>
    decreases items, 0
  {
    if items == [] then []
    else
      RunStrings(items[0].inlines)
      + (match items[0] case ItemWith(_, bs) => Strings(bs) case Item(_) => [])
      + ItemStrings(items[1..])
  }

  function AllOf(rows: seq<seq<string>>): seq<string> {
    if rows == [] then [] else rows[0] + AllOf(rows[1..])
  }

  function BlockStrings(b: Block): seq<string>
    decreases b, 0
  {
    match b
    case Paragraph(inlines) => RunStrings(inlines)
    case Heading(_, inlines) => RunStrings(inlines)
    case BulletList(items) => ItemStrings(items)
    case OrderedList(items) => ItemStrings(items)
    case TaskList(_, title, tasks) => (if title.Some? then [title.value] else []) + TaskStrings(tasks)
    case Blockquote(blocks) => Strings(blocks)
    case CodeBlock(text, language) => [text] + (if language.Some? then [language.value] else [])
    case Table(columns, rows) => columns + AllOf(rows)
    case Callout(_, blocks) => Strings(blocks)
    case HorizontalRule => []
    case Reference(url) => [url]
    case Opaque(nodeType, sentinel) => [nodeType, sentinel.token]
  }

  /** Every string of a document, in the order the snapshot visits them. */
  function Strings(bs: seq<Block>): seq<string>
    decreases bs, 1
  {
    if bs == [] then [] else BlockStrings(bs[0]) + Strings(bs[1..])
  }

  /** The name of a language that both codecs print. */
  predicate LanguageText(s: string) { s != "" && forall i :: 0 <= i < |s| ==> IsLanguageChar(s[i]) }

  predicate IsLanguageChar(c: char) { IsWord(c) || c == '_' || c == '+' || c == '-' }

  // ---------- Validation ----------

  type Check = Option<ErrorCode>

  function Require(ok: bool, code: ErrorCode): Check { if ok then None else Some(code) }

  function First(a: Check, b: Check): (r: Check)
    ensures r == None <==> a == None && b == None
  {
    if a.Some? then a else b
  }

  function CheckMarks(ms: seq<Mark>): Check {
    if ms == [] then None
    else
      First(
        Require(ms[0].Link? ==> 0 < Utf8(ms[0].href) <= MAX_INLINE_BYTES, MalformedLink),
        CheckMarks(ms[1..]))
  }

  function CheckRuns(rs: seq<Inline>): Check {
    if rs == [] then None
    else
      First(
        First(
          Require(Utf8(rs[0].text) <= MAX_INLINE_BYTES, OversizeInline),
          if rs[0].marks.Some? then CheckMarks(rs[0].marks.value) else None),
        CheckRuns(rs[1..]))
  }

  function CheckInlines(rs: seq<Inline>): Check {
    First(Require(|rs| <= MAX_INLINES_PER_BLOCK, OversizeInline), CheckRuns(rs))
  }

  function CheckTask(t: TaskItem, depth: nat): Check {
    First(
      CheckInlines(t.inlines),
      First(
        Require(|t.children| <= MAX_TASK_CHILDREN, OversizeDocument),
        First(
          Require(depth + 1 <= MAX_DEPTH, DepthExceeded),
          CheckTasks(t.children, depth + 1))))
  }

  function CheckTasks(ts: seq<TaskItem>, depth: nat): Check {
    if ts == [] then None else First(CheckTask(ts[0], depth), CheckTasks(ts[1..], depth))
  }

  predicate TitleChar(c: char) {
    var n := c as int;
    n > 31 && !(127 <= n <= 159)
  }

  predicate TitleText(s: string) { forall c :: c in s ==> TitleChar(c) }

  function CheckTitle(kind: Option<ListKind>, title: Option<string>, depth: nat): Check {
    if title == None then None
    else
      First(
        Require(kind == Some(RichTaskList), InvalidShape),
        First(
          Require(title.value == "" || depth == 1, InvalidShape),
          First(
            Require(Utf8(title.value) <= MAX_TITLE_BYTES, OversizeInline),
            Require(TitleText(title.value), InvalidShape))))
  }

  function CheckItems(items: seq<ListItem>, depth: nat): Check {
    if items == [] then None
    else
      First(
        First(
          CheckInlines(items[0].inlines),
          match items[0] case ItemWith(_, bs) => CheckBlocks(bs, depth + 1) case Item(_) => None),
        CheckItems(items[1..], depth))
  }

  predicate EvenRows(columns: seq<string>, rows: seq<seq<string>>) {
    forall i :: 0 <= i < |rows| ==> |rows[i]| == |columns|
  }

  function CheckContent(b: Block, depth: nat): Check
    decreases b, 0
  {
    match b
    case Paragraph(inlines) => CheckInlines(inlines)
    case Heading(level, inlines) =>
      First(Require(1 <= level <= 3, InvalidShape), CheckInlines(inlines))
    case BulletList(items) =>
      First(Require(|items| <= MAX_LIST_ITEMS, OversizeDocument), CheckItems(items, depth))
    case OrderedList(items) =>
      First(Require(|items| <= MAX_LIST_ITEMS, OversizeDocument), CheckItems(items, depth))
    case TaskList(kind, title, tasks) =>
      First(
        CheckTitle(kind, title, depth),
        First(Require(|tasks| <= MAX_LIST_ITEMS, OversizeDocument), CheckTasks(tasks, depth)))
    case Blockquote(blocks) => CheckBlocks(blocks, depth + 1)
    case CodeBlock(text, _) => Require(Utf16(text) <= MAX_INLINE_BYTES, OversizeInline)
    case Table(columns, rows) => Require(EvenRows(columns, rows), TableColumnMismatch)
    case Callout(_, blocks) => CheckBlocks(blocks, depth + 1)
    case HorizontalRule => None
    case Reference(_) => None
    case Opaque(nodeType, s) =>
      First(
        Require(nodeType != "", InvalidShape),
        First(
          Require(Utf16(nodeType) <= MAX_SENTINEL_BYTES, OversizeSentinel),
          First(
            Require(s.token != "", InvalidShape),
            Require(Utf16(s.token) <= MAX_SENTINEL_BYTES, OversizeSentinel))))
  }

  function CheckBlock(b: Block, depth: nat): Check
    decreases b, 1
  {
    First(CheckContent(b, depth), Require(JsonBytes(BlockJson(b)) <= MAX_BLOCK_BYTES, OversizeBlock))
  }

  function CheckEach(bs: seq<Block>, depth: nat): Check
    decreases bs, 2
  {
    if bs == [] then None else First(CheckBlock(bs[0], depth), CheckEach(bs[1..], depth))
  }

  function CheckBlocks(bs: seq<Block>, depth: nat): Check
    decreases bs, 3
  {
    First(Require(depth <= MAX_DEPTH, DepthExceeded), CheckEach(bs, depth))
  }

  function TotalBytes(bs: seq<Block>): nat {
    if bs == [] then 0 else JsonBytes(BlockJson(bs[0])) + TotalBytes(bs[1..])
  }

  /** What `validateNoteDocument` reports of a document with these blocks. */
  function Validate(blocks: seq<Block>): Check {
    First(
      Require(|blocks| <= MAX_BLOCKS, OversizeDocument),
      First(
        CheckBlocks(blocks, 1),
        Require(TotalBytes(blocks) <= MAX_BLOCKS * MAX_BLOCK_BYTES, OversizeDocument)))
  }
}
