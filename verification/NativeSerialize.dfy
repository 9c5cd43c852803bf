/** From a document back to stored HTML: unchanged blocks and the opening tags of identified
    containers are echoed, preserved regions are looked up, the rest is printed canonically. */
module NativeSerialize {
  import opened Text
  import opened NativeFaults
  import opened NativeHtml
  import opened NoteDocument
  import opened NativeDecode
  import Alignment

  type Out = Result<string, Reason>

  /** Outside a decode every fault throws, so the first one reached decides. */
  function Thrown(t: Trace): Result<(), Reason> {
    if t.deferred != [] then Err(Outside(t.deferred[0]))
    else if t.stop.Some? then Err(Stop(t.stop.value))
    else Ok(())
  }

  // ---------- Canonical printing ----------

  function EscapeChar(c: char): string {
    match c
    case '&' => "&amp;" case '<' => "&lt;" case '>' => "&gt;" case '"' => "&quot;"
    case '\'' => "&#39;"
    case _ => [c]
  }

  function Escape(s: string): string {
    if s == "" then "" else EscapeChar(s[0]) + Escape(s[1..])
  }

  function Breaks(s: string): string {
    if s == "" then "" else (if s[0] == '\n' then "<br>" else [s[0]]) + Breaks(s[1..])
  }

  function Tagged(name: string, attrs: string, inner: string): string {
    "<" + name + attrs + ">" + inner + "</" + name + ">"
  }

  function Attribute(key: string, value: string): string { " " + key + "=\"" + value + "\"" }

  function OpenMark(m: Mark): string {
    match m
    case Bold => "<strong>" case Italic => "<em>" case Underline => "<u>"
    case Strike => "<s>" case Code => "<code>"
    case Link(href) => "<a" + Attribute("href", Escape(href)) + ">"
  }

  function CloseMark(m: Mark): string {
    match m
    case Bold => "</strong>" case Italic => "</em>" case Underline => "</u>"
    case Strike => "</s>" case Code => "</code>" case Link(_) => "</a>"
  }

  function WrapMarks(ms: seq<Mark>, inner: string): string {
    if ms == [] then inner else OpenMark(ms[0]) + WrapMarks(ms[1..], inner) + CloseMark(ms[0])
  }

  /** The link of canonical marks, if any, must be one `url` lets through. */
  function CheckLinks(env: Env, ms: seq<Mark>): Result<(), Reason> {
    if ms == [] then Ok(())
    else
      var _ :- CheckLinks(env, ms[1..]);
      if ms[0].Link? then Thrown(UrlTrace(env, ms[0].href, false)) else Ok(())
  }

  function RenderRuns(env: Env, rs: seq<Inline>): Out {
    if rs == [] then Ok("")
    else
      var _ :- CheckLinks(env, MarksOf(rs[0]));
      var tail :- RenderRuns(env, rs[1..]);
      Ok(WrapMarks(MarksOf(rs[0]), Breaks(Escape(rs[0].text))) + tail)
  }

  function RenderInlines(env: Env, rs: seq<Inline>): Out {
    var _ :- Thrown(DuplicateTrace(rs));
    RenderRuns(env, CanonRuns(rs))
  }

  function TaskClass(checked: bool, k: ListKind): string {
    (if checked then "checked " else "") + KindClass(k) + "--item"
  }

  function RenderTask(env: Env, t: TaskItem, k: ListKind): Out
    decreases t, 0
  {
    var text :- RenderInlines(env, t.inlines);
    var nested :- if t.children == [] then Ok("") else RenderTasks(env, t.children, k);
    Ok(Tagged("li", Attribute("class", TaskClass(t.checked, k)), Tagged("p", "", text) + nested))
  }

  function RenderTaskItems(env: Env, ts: seq<TaskItem>, k: ListKind): Out
    decreases ts, 0
  {
    if ts == [] then Ok("")
    else
      var head :- RenderTask(env, ts[0], k);
      var tail :- RenderTaskItems(env, ts[1..], k);
      Ok(head + tail)
  }

  function RenderTasks(env: Env, ts: seq<TaskItem>, k: ListKind): Out
    decreases ts, 1
  {
    var items :- RenderTaskItems(env, ts, k);
    Ok(Tagged("ul", Attribute("class", KindClass(k)), items))
  }

  function Cells(tag: string, cells: seq<string>): string {
    if cells == [] then ""
    else Tagged(tag, "", Escape(cells[0])) + Cells(tag, cells[1..])
  }

  function Rows(rows: seq<seq<string>>): string {
    if rows == [] then "" else Tagged("tr", "", Cells("td", rows[0])) + Rows(rows[1..])
  }

  // ---------- The plan ----------

  /** How a block is emitted: anew, as the bytes of an equal original, or anew inside the opening
      tag of the original container it is identified with. */
  datatype Planned = Fresh | Echo(record: Record) | Inside(record: Record)

  function BlocksOf(records: seq<Record>): (bs: seq<Block>)
    ensures |bs| == |records|
  {
    seq(|records|, j requires 0 <= j < |records| => records[j].block)
  }

  predicate HoldsRegion(b: Block) {
    match b
    case Opaque(_, _) => true
    case Blockquote(blocks) => AnyHoldsRegion(blocks)
    case Callout(_, blocks) => AnyHoldsRegion(blocks)
    case _ => false
  }

  predicate AnyHoldsRegion(bs: seq<Block>) {
    bs != [] && (HoldsRegion(bs[0]) || AnyHoldsRegion(bs[1..]))
  }

  predicate HoldsBlocks(b: Block) { b.Blockquote? || b.Callout? }

  /** The index of the record with this key and `ordinal` such records before it. */
  function NthOfKey(records: seq<Record>, key: ContainerKey, ordinal: nat): (j: Option<nat>)
    ensures j.Some? ==> j.value < |records| && KeyOf(records[j.value].block) == Some(key)
  {
    if records == [] then None
    else
      var hit := KeyOf(records[0].block) == Some(key);
      if hit && ordinal == 0 then Some(0)
      else
        var rest := NthOfKey(records[1..], key, if hit then ordinal - 1 else ordinal);
        if rest.Some? then Some(rest.value + 1) else None
  }

  /** The original paired with block `i`. */
  function PartnerOf(pairs: seq<Alignment.Pair>, i: nat): (j: Option<nat>)
    ensures j.Some? ==> exists k :: 0 <= k < |pairs| && pairs[k] == Alignment.Pair(i, j.value)
  {
    if pairs == [] then None
    else if pairs[0].i == i then Some(pairs[0].j)
    else
      var j := PartnerOf(pairs[1..], i);
      assert forall k :: 0 <= k < |pairs| - 1 ==> pairs[1..][k] == pairs[k + 1];
      j
  }

  function Used(pairs: seq<Alignment.Pair>): set<nat> {
    set k | 0 <= k < |pairs| :: pairs[k].j
  }

  /** The plan from block `i` on; `seen` counts the earlier siblings of every key, and `used`
      holds the originals already taken. */
  function PlanFrom(blocks: seq<Block>, records: seq<Record>, pairs: seq<Alignment.Pair>, i: nat,
                    seen: map<ContainerKey, nat>, used: set<nat>): (plan: seq<Planned>)
    requires i <= |blocks|
    requires forall k :: 0 <= k < |pairs| ==> pairs[k].j < |records|
    ensures |plan| == |blocks| - i
    decreases |blocks| - i
  {
    if i == |blocks| then []
    else
      var b := blocks[i];
      var partner := PartnerOf(pairs, i);
      if !HoldsBlocks(b) then
        [if partner.Some? then Echo(records[partner.value]) else Fresh]
        + PlanFrom(blocks, records, pairs, i + 1, seen, used)
      else
        var key := KeyOf(b).value;
        var ordinal := Seen(seen, key);
        var seen' := seen[key := ordinal + 1];
        var j := NthOfKey(records, key, ordinal);
        if partner.Some? then
          [Echo(records[partner.value])] + PlanFrom(blocks, records, pairs, i + 1, seen', used)
        else if !HoldsRegion(b) || j == None || !HoldsRegion(records[j.value].block) || j.value in used then
          [Fresh] + PlanFrom(blocks, records, pairs, i + 1, seen', used)
        else
          [Inside(records[j.value])] + PlanFrom(blocks, records, pairs, i + 1, seen', used + {j.value})
  }

  /** `align` */
  function Plan(blocks: seq<Block>, records: seq<Record>): (plan: seq<Planned>)
    ensures |plan| == |blocks|
  {
    var originals := BlocksOf(records);
    var pairs := Alignment.Pairs(blocks, originals);
    Alignment.PairsMatch(blocks, originals);
    PlanFrom(blocks, records, pairs, 0, map[], Used(pairs))
  }

  // ---------- Blocks ----------

  function RenderLeaf(env: Env, b: Block, k: ListKind, payloads: map<string, string>): Out
    requires !HoldsBlocks(b) && !b.BulletList? && !b.OrderedList?
  {
    match b
    case Paragraph(inlines) =>
      var text :- RenderInlines(env, inlines);
      Ok(Tagged("p", "", text))
    case Heading(level, inlines) =>
      var text :- RenderInlines(env, inlines);
      Ok(Tagged(HeadingName(level), "", text))
    case TaskList(kind, title, tasks) =>
      var kind' := if kind.Some? then kind.value else k;
      var items :- RenderTaskItems(env, tasks, kind');
      var heading := if title == None || title.value == "" then "" else Attribute("data-title", Escape(title.value));
      Ok(Tagged("ul", Attribute("class", KindClass(kind')) + heading, items))
    case CodeBlock(text, language) =>
      if language.Some? && !LanguageText(language.value) then Err(Outside(CodeLanguageInvalid))
      else
        var classText := if language.Some? then Attribute("class", "language-" + Escape(language.value)) else "";
        Ok(Tagged("pre", "", Tagged("code", classText, Escape(text))))
    case Table(columns, rows) =>
      if columns == [] then Err(Outside(TableWithoutColumns))
      else
        Ok(Tagged("table", "",
                  Tagged("thead", "", Tagged("tr", "", Cells("th", columns))) + Tagged("tbody", "", Rows(rows))))
    case HorizontalRule => Ok("<hr" + Attribute("style", HR_STYLE) + " />")
    case Reference(_) => Err(Outside(BlockNotSerializable))
    case Opaque(_, sentinel) =>
      if sentinel.token in payloads then Ok(payloads[sentinel.token]) else Err(Outside(OpaquePayloadMissing))
  }

  function HeadingName(level: nat): string {
    if level == 1 then "h1" else if level == 2 then "h2" else "h3"
  }

  function OpenContainer(b: Block): string
    requires HoldsBlocks(b)
  {
    match b
    case Callout(v, _) => "<div" + Attribute("data-type", "callout") + Attribute("data-variant", VariantName(v)) + ">"
    case _ => "<blockquote>"
  }

  function CloseContainer(b: Block): string
    requires HoldsBlocks(b)
  {
    if b.Callout? then "</div>" else "</blockquote>"
  }

  /** The original container whose opening tag and records are used, if any. */
  function OriginalOf(p: Planned): Option<Record> {
    match p case Inside(record) => Some(record) case _ => None
  }

  function RenderBlock(env: Env, b: Block, p: Planned, k: ListKind, payloads: map<string, string>): Out
    decreases b, 0
  {
    match p
    case Echo(record) => Ok(record.raw)
    case _ =>
      var inside := OriginalOf(p);
      match b
      case Blockquote(blocks) => RenderContainer(env, b, blocks, inside, k, payloads)
      case Callout(_, blocks) => RenderContainer(env, b, blocks, inside, k, payloads)
      case BulletList(items) =>
        var text :- RenderItems(env, items, k, payloads);
        Ok(Tagged("ul", "", text))
      case OrderedList(items) =>
        var text :- RenderItems(env, items, k, payloads);
        Ok(Tagged("ol", "", text))
      case _ => RenderLeaf(env, b, k, payloads)
  }

  function RenderContainer(env: Env, b: Block, blocks: seq<Block>, inside: Option<Record>, k: ListKind,
                           payloads: map<string, string>): Out
    requires HoldsBlocks(b)
    decreases blocks, 4
  {
    var text :- RenderBlocks(env, blocks, if inside.Some? then Some(inside.value.children) else None, k, payloads);
    Ok((if inside.Some? then inside.value.open else OpenContainer(b)) + text + CloseContainer(b))
  }

  function RenderItems(env: Env, items: seq<ListItem>, k: ListKind, payloads: map<string, string>): Out
    decreases items, 0
  {
    if items == [] then Ok("")
    else
      var text :- RenderInlines(env, items[0].inlines);
      var blocks :- match items[0] case ItemWith(_, bs) => RenderBlocks(env, bs, None, k, payloads) case Item(_) => Ok("");
      var tail :- RenderItems(env, items[1..], k, payloads);
      Ok(Tagged("li", "", Tagged("p", "", text) + blocks) + tail)
  }

  function RenderPlanned(env: Env, bs: seq<Block>, plan: seq<Planned>, k: ListKind, payloads: map<string, string>): Out
    requires |plan| == |bs|
    decreases bs, 2
  {
    if bs == [] then Ok("")
    else
      var head :- RenderBlock(env, bs[0], plan[0], k, payloads);
      var tail :- RenderPlanned(env, bs[1..], plan[1..], k, payloads);
      Ok(head + tail)
  }

  /** `renderBlocks`, against the records of the original list when there is one. */
  function RenderBlocks(env: Env, bs: seq<Block>, records: Option<seq<Record>>, k: ListKind,
                        payloads: map<string, string>): Out
    decreases bs, 3
  {
    var plan := if records.Some? then Plan(bs, records.value) else seq(|bs|, i => Fresh);
    RenderPlanned(env, bs, plan, k, payloads)
  }

  // ---------- Documents ----------

  function CleanStrings(ss: seq<string>): Result<(), Reason> {
    if ss == [] then Ok(())
    else
      var _ :- Thrown(CleanTrace(ss[0]));
      CleanStrings(ss[1..])
  }

  /** The regions of a context under their tokens. */
  function Payloads(env: Env, b: Binding, regions: seq<string>): map<string, string> {
    if regions == [] then map[]
    else
      var n := |regions| - 1;
      Payloads(env, b, regions[..n])[env.token(b, n, regions[n]) := regions[n]]
  }

  const DOCUMENT_OPEN := "<div" + Attribute("data-type", "document") + ">"

  /** `serializeNoteDocumentNative` with the HTML writer and this default list kind. */
  function Serialize(env: Env, doc: seq<Block>, context: Option<Context>, b: Binding, k: ListKind)
    : Result<Stored, Reason>
  {
    var _ :- CleanStrings(Strings(doc));
    var _ :- Thrown(ValidatedTrace(Validate(doc)));
    var _ :- if context.Some? then Thrown(BindingTrace(b)) else Ok(());
    if context.Some? && context.value.binding != b then Err(Stop(ContextBindingMismatch))
    else if !DistinctTokens(References(doc)) then Err(Stop(DuplicateOpaqueToken))
    else if References(doc) != (if context.Some? then References(context.value.baseline) else []) then
      Err(ContextReferencesMismatch)
    else if context.Some? && context.value.baseline == doc then Ok(context.value.original)
    else
      var payloads := if context.Some? then Payloads(env, b, context.value.regions) else map[];
      var body :- RenderBlocks(env, doc, if context.Some? then Some(context.value.records) else None, k, payloads);
      var open := if context.Some? && context.value.container.Some? then context.value.container.value
                  else DOCUMENT_OPEN;
      var stored := Stored(if context.Some? then context.value.original.tiptap else true,
                           open + body + "</div>");
      if WithinBytes(stored) then Ok(stored) else Err(Stop(DocumentTooLarge))
  }
}
