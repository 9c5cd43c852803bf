/** From parsed HTML to a document. What the document cannot represent becomes an opaque region
    with a token, and every block leaves a record of the bytes it came from. */
module NativeDecode {
  import opened Text
  import opened NativeFaults
  import opened NativeHtml
  import opened NoteDocument

  /** A value, or `None` where the decoder signals that the enclosing block must be preserved. */
  datatype Dec<+T> = Dec(trace: Trace, value: Option<T>) {
    predicate Got() { trace.stop == None && value.Some? }
  }

  // ---------- Inline content ----------

  function Rank(m: Mark): nat {
    match m
    case Bold => 0 case Italic => 1 case Underline => 2 case Strike => 3
    case Link(_) => 4 case Code => 5
  }

  /** Where a stable sort puts `m` after the sorted `ms`. */
  function Place(ms: seq<Mark>, m: Mark): seq<Mark> {
    if ms == [] || Rank(ms[|ms| - 1]) <= Rank(m) then ms + [m]
    else Place(ms[..|ms| - 1], m) + [ms[|ms| - 1]]
  }

  /** `canonicalMarks` */
  function SortedMarks(ms: seq<Mark>): seq<Mark> {
    if ms == [] then [] else Place(SortedMarks(ms[..|ms| - 1]), ms[|ms| - 1])
  }

  predicate DistinctMarks(ms: seq<Mark>) {
    forall i, j :: 0 <= i < j < |ms| ==> Rank(ms[i]) != Rank(ms[j])
  }

  /** The first mark of every kind. */
  function FirstOfEach(ms: seq<Mark>): seq<Mark> {
    if ms == [] then []
    else
      var before := FirstOfEach(ms[..|ms| - 1]);
      var last := ms[|ms| - 1];
      if exists i :: 0 <= i < |ms| - 1 && Rank(ms[i]) == Rank(last) then before else before + [last]
  }

  /** Append one run, joining it to the last when both carry the same marks. */
  function PushRun(runs: seq<Inline>, text: string, ms: seq<Mark>): seq<Inline> {
    if text == "" then runs
    else if runs != [] && MarksOf(runs[|runs| - 1]) == ms then
      var last := runs[|runs| - 1];
      runs[|runs| - 1 := last.(text := last.text + text)]
    else runs + [MarkedRun(text, ms)]
  }

  /** `canonicalRuns`: sorted marks, the first of each kind, equal neighbours joined. */
  function CanonRuns(rs: seq<Inline>): seq<Inline> {
    if rs == [] then []
    else
      var last := rs[|rs| - 1];
      PushRun(CanonRuns(rs[..|rs| - 1]), last.text, FirstOfEach(SortedMarks(MarksOf(last))))
  }

  function DuplicateTrace(rs: seq<Inline>): Trace {
    if rs == [] then NO_FAULT
    else
      Unless(DistinctMarks(MarksOf(rs[0])), Deferred(DuplicateMark)).Then(DuplicateTrace(rs[1..]))
  }

  function MarkOf(tag: Tag): Option<Mark> {
    match tag
    case Strong | B => Some(Bold)
    case Em | I => Some(Italic)
    case U => Some(Underline)
    case S | Strike | Del => Some(Mark.Strike)
    case Code => Some(Mark.Code)
    case _ => None
  }

  function InlineNode(env: Env, n: Node, ms: seq<Mark>): Dec<seq<Inline>>
    decreases n, 0
  {
    match n
    case TextNode(_, value, _) => Dec(NO_FAULT, Some(if value == "" then [] else [MarkedRun(value, ms)]))
    case Element(tag, attrs, _, children, _, _, _) =>
      if tag.Br? then
        Dec(NO_FAULT, if attrs == map[] then Some([MarkedRun("\n", ms)]) else None)
      else if tag.A? then
        if attrs.Keys != {"href"} || attrs["href"] == "" then Dec(NO_FAULT, None)
        else
          var t := UrlTrace(env, attrs["href"], false);
          if t.stop.Some? then Dec(t, None)
          else
            var inner := Inlines(env, children, ms + [Link(attrs["href"])]);
            Dec(t.Then(inner.trace), inner.value)
      else if attrs != map[] || MarkOf(tag) == None then Dec(NO_FAULT, None)
      else Inlines(env, children, ms + [MarkOf(tag).value])
  }

  function InlineNodes(env: Env, ns: seq<Node>, ms: seq<Mark>): Dec<seq<Inline>>
    decreases ns, 1
  {
    if ns == [] then Dec(NO_FAULT, Some([]))
    else
      var head := InlineNode(env, ns[0], ms);
      if !head.Got() then head
      else
        var tail := InlineNodes(env, ns[1..], ms);
        Dec(head.trace.Then(tail.trace),
            if tail.value.Some? then Some(head.value.value + tail.value.value) else None)
  }

  function Inlines(env: Env, ns: seq<Node>, ms: seq<Mark>): Dec<seq<Inline>>
    decreases ns, 2
  {
    var d := InlineNodes(env, ns, ms);
    if !d.Got() then d
    else Dec(d.trace.Then(DuplicateTrace(d.value.value)), Some(CanonRuns(d.value.value)))
  }

  // ---------- Reading attributes and children ----------

  /** Attributes the model reads nothing from must not be ones it would lose. */
  predicate Unstyled(n: Node)
    requires n.Element?
  {
    "style" !in n.attrs && "dir" !in n.attrs && !(n.tag.P? && "id" in n.attrs)
  }

  function Attr(n: Node, key: string): Option<string>
    requires n.Element?
  {
    if key in n.attrs then Some(n.attrs[key]) else None
  }

  predicate StrayText(ns: seq<Node>) {
    exists i :: 0 <= i < |ns| && ns[i].TextNode? && !Blank(ns[i].value)
  }

  function ElementsOf(ns: seq<Node>): (es: seq<Node>)
    ensures forall e :: e in es ==> e.Element? && e in ns
  {
    if ns == [] then []
    else (if ns[0].Element? then [ns[0]] else []) + ElementsOf(ns[1..])
  }

  predicate Unsupported(n: Node)
    requires n.Element?
  {
    n.unsupported || exists i :: 0 <= i < |n.children| && n.children[i].Element? && Unsupported(n.children[i])
  }

  /** `split(/\s+/).filter(Boolean)` */
  function Words(s: string): seq<string>
    decreases |s|
  {
    if s == "" then []
    else
      var e := End(s, 0, NotSpace);
      (if e > 0 then [s[..e]] else []) + Words(s[if e < |s| then e + 1 else e..])
  }

  function Classes(n: Node): seq<string>
    requires n.Element?
  {
    Words(if "class" in n.attrs then n.attrs["class"] else "")
  }

  function JoinText(ns: seq<Node>): string
    requires forall i :: 0 <= i < |ns| ==> ns[i].TextNode?
  {
    if ns == [] then "" else ns[0].value + JoinText(ns[1..])
  }

  predicate TextOnlyChildren(ns: seq<Node>) { forall i :: 0 <= i < |ns| ==> ns[i].TextNode? }

  function TextOnly(n: Node): Option<string>
    requires n.Element?
  {
    if n.attrs != map[] then None
    else if |n.children| == 1 && n.children[0].Element? && n.children[0].tag.P? then
      TextOnly(n.children[0])
    else if TextOnlyChildren(n.children) then Some(JoinText(n.children))
    else None
  }

  // ---------- Blocks ----------

  const HR_STYLE :=
    "display:block;" + "border:0;" + "border-top:1px " + "solid currentColor;" + "height:0;" + "margin:1em 0"

  function KindClass(k: ListKind): string {
    match k case SimpleChecklist => "simple-checklist" case RichTaskList => "checklist"
  }

  function KindOf(n: Node): Option<ListKind>
    requires n.Element?
  {
    if n.tag.Ul? && Attr(n, "class") == Some("simple-checklist") then Some(SimpleChecklist)
    else if n.tag.Ul? && Attr(n, "class") == Some("checklist") then Some(RichTaskList)
    else None
  }

  predicate ItemClassText(s: string) {
    s != "" && forall c :: c in s ==> 'a' <= c <= 'z' || c == ' ' || c == '-'
  }

  predicate ItemClasses(li: Node, k: ListKind)
    requires li.Element?
  {
    && ("class" in li.attrs ==> ItemClassText(li.attrs["class"]))
    && KindClass(k) + "--item" in Classes(li)
    && forall c :: c in Classes(li) ==>
         c == KindClass(k) + "--item" || c == "checked" || c == "checked--item"
  }

  function TaskOf(env: Env, li: Node, k: ListKind): Dec<TaskItem>
    requires li.Element?
    decreases li, 0
  {
    var kids := ElementsOf(li.children);
    if || !li.tag.Li? || !Unstyled(li) || !ItemClasses(li, k) || StrayText(li.children)
       || !(1 <= |kids| <= 2) || !kids[0].tag.P? || !Unstyled(kids[0])
       || (|kids| == 2 && KindOf(kids[1]) != Some(k))
    then Dec(NO_FAULT, None)
    else
      var inlines := Inlines(env, kids[0].children, []);
      if !inlines.Got() then Dec(inlines.trace, None)
      else
        var nested := if |kids| == 2 then TasksIn(env, kids[1], k, false) else Dec(NO_FAULT, Some([]));
        Dec(inlines.trace.Then(nested.trace),
            if nested.value.Some? then
              Some(TaskItem("checked" in Classes(li) || "checked--item" in Classes(li),
                            inlines.value.value, nested.value.value))
            else None)
  }

  function TasksOf(env: Env, ns: seq<Node>, k: ListKind): Dec<seq<TaskItem>>
    decreases ns, 1
  {
    if ns == [] then Dec(NO_FAULT, Some([]))
    else if ns[0].TextNode? then TasksOf(env, ns[1..], k)
    else
      var head := TaskOf(env, ns[0], k);
      if !head.Got() then Dec(head.trace, None)
      else
        var tail := TasksOf(env, ns[1..], k);
        Dec(head.trace.Then(tail.trace),
            if tail.value.Some? then Some([head.value.value] + tail.value.value) else None)
  }

  /** `taskItems` */
  function TasksIn(env: Env, n: Node, k: ListKind, allowTitle: bool): Dec<seq<TaskItem>>
    requires n.Element?
    decreases n, 1
  {
    if !Unstyled(n) || (!allowTitle && "data-title" in n.attrs) || StrayText(n.children) then Dec(NO_FAULT, None)
    else TasksOf(env, n.children, k)
  }

  function ItemOf(env: Env, li: Node): Dec<ListItem>
    requires li.Element?
  {
    if !li.tag.Li? || !Unstyled(li) then Dec(NO_FAULT, None)
    else
      var paragraph := li.children != [] && li.children[0].Element? && li.children[0].tag.P?;
      if paragraph && (!Unstyled(li.children[0]) || ElementsOf(li.children[1..]) != [] || StrayText(li.children[1..]))
      then Dec(NO_FAULT, None)
      else
        var d := Inlines(env, if paragraph then li.children[0].children else li.children, []);
        Dec(d.trace, if d.value.Some? then Some(Item(d.value.value)) else None)
  }

  function ItemsOf(env: Env, ns: seq<Node>): Dec<seq<ListItem>> {
    if ns == [] then Dec(NO_FAULT, Some([]))
    else if ns[0].TextNode? then ItemsOf(env, ns[1..])
    else
      var head := ItemOf(env, ns[0]);
      if !head.Got() then Dec(head.trace, None)
      else
        var tail := ItemsOf(env, ns[1..]);
        Dec(head.trace.Then(tail.trace),
            if tail.value.Some? then Some([head.value.value] + tail.value.value) else None)
  }

  /** The rows of a table and its sections, or `None` for a child it may not have. */
  function RowsOf(ns: seq<Node>): Option<seq<Node>> {
    if ns == [] then Some([])
    else
      var tail := RowsOf(ns[1..]);
      var n := ns[0];
      if tail == None then None
      else if n.TextNode? then tail
      else if n.tag.Tr? then Some([n] + tail.value)
      else if (n.tag.Thead? || n.tag.Tbody?) && Unstyled(n) && !StrayText(n.children) then
        Some(ElementsOf(n.children) + tail.value)
      else None
  }

  function CellsOf(ns: seq<Node>, header: bool): Option<seq<string>> {
    if ns == [] then Some([])
    else if ns[0].TextNode? then CellsOf(ns[1..], header)
    else
      var tail := CellsOf(ns[1..], header);
      if ns[0].tag != (if header then Th else Td) || TextOnly(ns[0]) == None || tail == None then None
      else Some([TextOnly(ns[0]).value] + tail.value)
  }

  function RowCells(rows: seq<Node>, header: bool): Option<seq<seq<string>>> {
    if rows == [] then Some([])
    else
      var row, tail := rows[0], RowCells(rows[1..], false);
      if !row.Element? || !row.tag.Tr? || !Unstyled(row) || StrayText(row.children)
         || CellsOf(row.children, header) == None || tail == None then None
      else Some([CellsOf(row.children, header).value] + tail.value)
  }

  function TableOf(n: Node): Option<Block>
    requires n.Element?
  {
    if !Unstyled(n) || StrayText(n.children) then None
    else
      var rows := RowsOf(n.children);
      if rows == None || rows.value == [] then None
      else
        var cells := RowCells(rows.value, true);
        if cells == None || cells.value == [] || cells.value[0] == []
           || !EvenRows(cells.value[0], cells.value) then None
        else Some(Block.Table(cells.value[0], cells.value[1..]))
  }

  function CodeOf(n: Node): Option<Block>
    requires n.Element?
  {
    var kids := ElementsOf(n.children);
    if !Unstyled(n) || StrayText(n.children) || |kids| != 1 || !kids[0].tag.Code? || !Unstyled(kids[0])
       || !TextOnlyChildren(kids[0].children) then None
    else
      var text := JoinText(kids[0].children);
      match Attr(kids[0], "class")
      case None => Some(CodeBlock(text, None))
      case Some(classText) =>
        if StartsWith(classText, "language-") && LanguageText(classText[9..]) then
          Some(CodeBlock(text, Some(classText[9..])))
        else None
  }

  function TextBlock(tag: Tag, inlines: seq<Inline>): Block {
    match tag
    case H1 => Heading(1, inlines)
    case H2 => Heading(2, inlines)
    case H3 => Heading(3, inlines)
    case _ => Paragraph(inlines)
  }

  function ListBlock(tag: Tag, items: seq<ListItem>): Block {
    if tag.Ul? then BulletList(items) else OrderedList(items)
  }

  /** A list without a checklist class. */
  function PlainList(env: Env, n: Node): Dec<Block>
    requires n.Element?
  {
    if "checklist" in Classes(n) || "simple-checklist" in Classes(n) || "start" in n.attrs
       || "reversed" in n.attrs || "data-title" in n.attrs || !Unstyled(n) || StrayText(n.children)
    then Dec(NO_FAULT, None)
    else
      var d := ItemsOf(env, n.children);
      Dec(d.trace, if d.value == None then None else Some(ListBlock(n.tag, d.value.value)))
  }

  function Checklist(env: Env, n: Node, k: ListKind, topLevel: bool): Dec<Block>
    requires n.Element?
  {
    var title := Attr(n, "data-title");
    if title.Some? && ((!topLevel && title.value != "") || k != RichTaskList) then Dec(NO_FAULT, None)
    else
      var d := TasksIn(env, n, k, true);
      Dec(d.trace,
          if d.value == None then None
          else Some(TaskList(Some(k), if title == Some("") then None else title, d.value.value)))
  }

  /** A block that holds no other blocks. */
  function LeafBlock(env: Env, n: Node, topLevel: bool): Dec<Block>
    requires n.Element?
  {
    var tag := n.tag;
    if tag.Hr? then
      Dec(NO_FAULT,
          if n.attrs == map["style" := HR_STYLE] && n.children == [] then Some(HorizontalRule) else None)
    else if tag.P? || tag.H1? || tag.H2? || tag.H3? then
      if !Unstyled(n) then Dec(NO_FAULT, None)
      else
        var d := Inlines(env, n.children, []);
        Dec(d.trace, if d.value == None then None else Some(TextBlock(tag, d.value.value)))
    else if tag.List() then
      if KindOf(n).Some? then Checklist(env, n, KindOf(n).value, topLevel) else PlainList(env, n)
    else if tag.Pre? then Dec(NO_FAULT, CodeOf(n))
    else if tag.Table? then Dec(NO_FAULT, TableOf(n))
    else Dec(NO_FAULT, None)
  }

  // ---------- Containers, regions and records ----------

  /** The private record of one block: its source bytes, its opening tag, and the block itself,
      from which its type, variant and fingerprint are read off. */
  datatype Record = Record(raw: string, open: string, block: Block, children: seq<Record>)

  /** The blocks of a list, their records, and the source of each new region in order. */
  datatype Decoded = Decoded(blocks: seq<Block>, records: seq<Record>, regions: seq<string>) {
    function And(next: Decoded): Decoded {
      Decoded(blocks + next.blocks, records + next.records, regions + next.regions)
    }
  }

  /** What lists its blocks: the type and variant that count towards a container's ordinal. */
  datatype ContainerKey = QuoteKey | CalloutKey(variant: Variant) | BulletKey | OrderedKey

  /** The container `n` is decoded as, `None` when its attributes must be preserved. */
  function ContainerOf(n: Node): Option<ContainerKey>
    requires n.Element?
  {
    if n.tag.Blockquote? && Unstyled(n) then Some(QuoteKey)
    else if n.tag.Div? && Attr(n, "data-type") == Some("callout") && Unstyled(n) && "data-variant" in n.attrs then
      match VariantOf(n.attrs["data-variant"])
      case Some(v) => Some(CalloutKey(v))
      case None => None
    else None
  }

  function Wrap(key: ContainerKey, blocks: seq<Block>): Block {
    match key case CalloutKey(v) => Callout(v, blocks) case _ => Block.Blockquote(blocks)
  }

  function TagName(tag: Tag): string {
    match tag
    case Root => "root" case Div => "div" case P => "p" case H1 => "h1" case H2 => "h2"
    case H3 => "h3" case H4 => "h4" case H5 => "h5" case H6 => "h6" case Ul => "ul"
    case Ol => "ol" case Li => "li" case Strong => "strong" case B => "b" case Em => "em"
    case I => "i" case U => "u" case S => "s" case Strike => "strike" case Del => "del"
    case Code => "code" case A => "a" case Br => "br" case Pre => "pre"
    case Blockquote => "blockquote" case Table => "table" case Thead => "thead"
    case Tbody => "tbody" case Tfoot => "tfoot" case Tr => "tr" case Th => "th" case Td => "td"
    case SpanTag => "span" case Img => "img" case Hr => "hr" case Figure => "figure"
    case Figcaption => "figcaption" case Sup => "sup" case Sub => "sub" case Mark => "mark"
    case Other(name) => name
  }

  /** An opaque region with `k` regions before it. */
  function Region(env: Env, b: Binding, n: Node, k: nat): Decoded
    requires n.Element?
  {
    var block := Opaque(TagName(n.tag), Sentinel(NativeHtml, env.token(b, k, n.raw)));
    Decoded([block], [Record(n.raw, n.open, block, [])], [n.raw])
  }

  /** `decodeBlock` and the handler around it, after `k` regions. */
  function DecodeElement(env: Env, b: Binding, n: Node, k: nat, topLevel: bool): (Trace, Decoded)
    requires n.Element?
    decreases n, 0
  {
    if Unsupported(n) then (NO_FAULT, Region(env, b, n, k))
    else if ContainerOf(n).Some? && !StrayText(n.children) then
      var (t, inner) := DecodeNodes(env, b, n.children, k, false);
      var block := Wrap(ContainerOf(n).value, inner.blocks);
      (t, Decoded([block], [Record(n.raw, n.open, block, inner.records)], inner.regions))
    else
      var d := LeafBlock(env, n, topLevel);
      if d.value == None then (d.trace, Region(env, b, n, k))
      else (d.trace, Decoded([d.value.value], [Record(n.raw, n.open, d.value.value, [])], []))
  }

  function DecodeNodes(env: Env, b: Binding, ns: seq<Node>, k: nat, topLevel: bool): (Trace, Decoded)
    decreases ns, 1
  {
    if ns == [] then (NO_FAULT, Decoded([], [], []))
    else if ns[0].TextNode? then DecodeNodes(env, b, ns[1..], k, topLevel)
    else
      var (t, head) := DecodeElement(env, b, ns[0], k, topLevel);
      if t.stop.Some? then (t, head)
      else
        var (t', tail) := DecodeNodes(env, b, ns[1..], k + |head.regions|, topLevel);
        (t.Then(t'), head.And(tail))
  }

  // ---------- References and contexts ----------

  /** One container on the way to a region: its key and its ordinal among the siblings with the
      same key. The source joins these into one string; no key contains its separators. */
  datatype Link = Hop(key: ContainerKey, ordinal: nat)

  datatype Ref = Ref(chain: seq<Link>, nodeType: string, sentinel: Sentinel)

  function KeyOf(b: Block): Option<ContainerKey> {
    match b
    case Blockquote(_) => Some(QuoteKey)
    case Callout(v, _) => Some(CalloutKey(v))
    case BulletList(_) => Some(BulletKey)
    case OrderedList(_) => Some(OrderedKey)
    case _ => None
  }

  function Seen(seen: map<ContainerKey, nat>, key: ContainerKey): nat {
    if key in seen then seen[key] else 0
  }

  /** `walk` of `references`, where `seen` counts the earlier siblings of every key. */
  function Refs(blocks: seq<Block>, chain: seq<Link>, seen: map<ContainerKey, nat>): seq<Ref>
    decreases blocks, 1
  {
    if blocks == [] then []
    else
      var b := blocks[0];
      var key := KeyOf(b);
      var seen' := if key.Some? then seen[key.value := Seen(seen, key.value) + 1] else seen;
      var link := if key.Some? then [Hop(key.value, Seen(seen, key.value))] else [];
      BlockRefs(b, chain, chain + link) + Refs(blocks[1..], chain, seen')
  }

  function BlockRefs(b: Block, chain: seq<Link>, inside: seq<Link>): seq<Ref>
    decreases b, 1
  {
    match b
    case Opaque(nodeType, sentinel) => [Ref(chain, nodeType, sentinel)]
    case Blockquote(blocks) => Refs(blocks, inside, map[])
    case Callout(_, blocks) => Refs(blocks, inside, map[])
    case BulletList(items) => ItemRefs(items, inside)
    case OrderedList(items) => ItemRefs(items, inside)
    case _ => []
  }

  function ItemRefs(items: seq<ListItem>, chain: seq<Link>): seq<Ref>
    decreases items, 1
  {
    if items == [] then []
    else
      (match items[0] case ItemWith(_, blocks) => Refs(blocks, chain, map[]) case Item(_) => [])
      + ItemRefs(items[1..], chain)
  }

  predicate DistinctTokens(rs: seq<Ref>) {
    forall i, j :: 0 <= i < j < |rs| ==> rs[i].sentinel.token != rs[j].sentinel.token
  }

  function References(doc: seq<Block>): seq<Ref> { Refs(doc, [], map[]) }

  datatype Stored = Stored(tiptap: bool, data: string)

  /** What a decode keeps for the serializer. `regions` lists the sources of the preserved
      regions in order; the region with `i` before it is found under `env.token(binding, i, raw)`. */
  datatype Context = Context(
    binding: Binding,
    original: Stored,
    container: Option<string>,
    baseline: seq<Block>,
    regions: seq<string>,
    records: seq<Record>)

  datatype Outcome = Accepted(document: seq<Block>, context: Context) | Refused(reason: Reason)

  const MAX_NATIVE_BYTES := 256 * 1024

  function TypeName(stored: Stored): string { if stored.tiptap then "tiptap" else "html" }

  predicate WithinBytes(stored: Stored) {
    JsonBytes(JObj([Field("type", JStr(TypeName(stored))), Field("data", JStr(stored.data))])) <= MAX_NATIVE_BYTES
  }

  function BindingTrace(b: Binding): Trace {
    CleanTrace(b.noteId).Then(CleanTrace(b.revision))
      .Then(Unless(b.noteId != "" && b.revision != "", Deferred(BindingInvalid)))
  }

  /** The faults before the body is parsed. */
  function EnvelopeTrace(stored: Stored): Trace {
    Unless(Utf8(TypeName(stored)) + Utf8(stored.data) <= MAX_NATIVE_BYTES * 8, Stopped(EnvelopeTooLarge))
      .Then(CleanTrace(stored.data))
      .Then(Unless(WithinBytes(stored), Stopped(DocumentTooLarge)))
  }

  /** The document container, when the note has one. */
  function ContainerElement(nodes: seq<Node>): (r: Option<Node>)
    ensures r.Some? ==> r.value.Element?
  {
    var roots := ElementsOf(nodes);
    if |roots| == 1 && roots[0].tag.Div? && Attr(roots[0], "data-type") == Some("document")
       && "dir" !in roots[0].attrs then Some(roots[0])
    else None
  }

  function Content(nodes: seq<Node>): seq<Node> {
    match ContainerElement(nodes) case Some(n) => n.children case None => ElementsOf(nodes)
  }

  function ValidatedTrace(check: Check): Trace {
    match check
    case None => NO_FAULT
    case Some(code) =>
      Stopped(if code.OversizeDocument? || code.OversizeBlock? || code.OversizeInline?
                 || code.OversizeSentinel? || code.DepthExceeded?
              then DocumentBoundsExceeded else InternalFailure)
  }

  /** Everything from the parsed body on. Text beside the root elements, or directly inside the
      container, signals preservation where nothing can be preserved. */
  function BodyTrace(env: Env, stored: Stored, b: Binding, nodes: seq<Node>): Trace {
    var (t, d) := DecodeNodes(env, b, Content(nodes), 0, true);
    Unless(!StrayText(nodes), Stopped(InternalFailure))
      .Then(Unless(ElementsOf(nodes) != [] || Blank(stored.data), Deferred(DocumentWithoutBlocks)))
      .Then(Unless(!StrayText(Content(nodes)), Stopped(InternalFailure)))
      .Then(t)
      .Then(ValidatedTrace(Validate(d.blocks)))
      .Then(Unless(DistinctTokens(References(d.blocks)), Stopped(DuplicateOpaqueToken)))
  }

  function DecodeTrace(env: Env, stored: Stored, b: Binding): Trace {
    var parse := ParseOf(env, stored.data);
    BindingTrace(b).Then(EnvelopeTrace(stored)).Then(parse.trace).Then(BodyTrace(env, stored, b, parse.nodes))
  }

  /** `decodeNoteDocumentNative` */
  function Decode(env: Env, stored: Stored, b: Binding): Outcome {
    var trace := DecodeTrace(env, stored, b);
    if !trace.Clean() then Refused(WorstOf(trace.Reached()).value)
    else
      var nodes := ParseOf(env, stored.data).nodes;
      var (_, d) := DecodeNodes(env, b, Content(nodes), 0, true);
      var container := match ContainerElement(nodes) case Some(n) => Some(n.open) case None => None;
      Accepted(d.blocks, Context(b, stored, container, d.blocks, d.regions, d.records))
  }
}
