/** The canonical form of a document's leaf blocks, the nodes they are printed as, and what those
    are read back as. */
module NativeBlocks {
  import opened Text
  import opened NativeFaults
  import opened NativeHtml
  import opened NativeHtmlTheory
  import opened NoteDocument
  import opened NativeDecode
  import opened NativeSerialize
  import opened NativeCanon
  import opened NativeInline

  predicate TextTag(tag: Tag) {
    tag.P? || tag.H1? || tag.H2? || tag.H3? || tag.Ul? || tag.Ol? || tag.Li? || tag.Pre? || tag.Code?
  }

  predicate TableTag(tag: Tag) {
    tag.Table? || tag.Thead? || tag.Tbody? || tag.Tr? || tag.Th? || tag.Td?
  }

  lemma TextTagNamed(tag: Tag)
    requires TextTag(tag)
    ensures TagOf(TagName(tag)) == tag
  {
  }

  lemma TextTagName(tag: Tag)
    requires TextTag(tag)
    ensures NameText(TagName(tag))
  {
  }

  lemma TableTagNamed(tag: Tag)
    requires TableTag(tag)
    ensures TagOf(TagName(tag)) == tag
  {
  }

  lemma TableTagName(tag: Tag)
    requires TableTag(tag)
    ensures NameText(TagName(tag))
  {
  }

  // ---------- Canonical form ----------

  function CanonTask(t: TaskItem): TaskItem {
    TaskItem(t.checked, CanonRuns(t.inlines), CanonTasks(t.children))
  }

  function CanonTasks(ts: seq<TaskItem>): seq<TaskItem> {
    if ts == [] then [] else [CanonTask(ts[0])] + CanonTasks(ts[1..])
  }

  function CanonItems(items: seq<ListItem>, k: ListKind): seq<ListItem>
    decreases items, 0
  {
    if items == [] then []
    else
      [match items[0]
       case Item(inlines) => Item(CanonRuns(inlines))
       case ItemWith(inlines, blocks) =>
         if blocks == [] then Item(CanonRuns(inlines)) else ItemWith(CanonRuns(inlines), Canon(blocks, k))]
      + CanonItems(items[1..], k)
  }

  /** Marks sorted, runs joined, empty runs, titles and continuations dropped, list kind explicit. */
  function CanonBlock(b: Block, k: ListKind): Block
    decreases b, 0
  {
    match b
    case Paragraph(inlines) => Paragraph(CanonRuns(inlines))
    case Heading(level, inlines) => Heading(level, CanonRuns(inlines))
    case BulletList(items) => BulletList(CanonItems(items, k))
    case OrderedList(items) => OrderedList(CanonItems(items, k))
    case TaskList(kind, title, tasks) =>
      TaskList(Some(if kind.Some? then kind.value else k), if title == Some("") then None else title, CanonTasks(tasks))
    case Blockquote(blocks) => Block.Blockquote(Canon(blocks, k))
    case Callout(v, blocks) => Callout(v, Canon(blocks, k))
    case _ => b
  }

  function Canon(bs: seq<Block>, k: ListKind): (r: seq<Block>)
    decreases bs, 1
  {
    if bs == [] then [] else [CanonBlock(bs[0], k)] + Canon(bs[1..], k)
  }

  predicate NoContinuationItems(items: seq<ListItem>) {
    forall i :: 0 <= i < |items| ==> items[i].ItemWith? ==> items[i].blocks == []
  }

  /** No list item of the document holds blocks of its own. */
  predicate NoContinuation(bs: seq<Block>)
    decreases bs, 1
  {
    bs != [] ==> NoContinuationIn(bs[0]) && NoContinuation(bs[1..])
  }

  predicate NoContinuationIn(b: Block)
    decreases b, 0
  {
    match b
    case BulletList(items) => NoContinuationItems(items)
    case OrderedList(items) => NoContinuationItems(items)
    case Blockquote(blocks) => NoContinuation(blocks)
    case Callout(_, blocks) => NoContinuation(blocks)
    case _ => true
  }

  // ---------- Printed elements ----------

  predicate Printed(tag: Tag) { TextTag(tag) || TableTag(tag) || tag.Div? || tag.Blockquote? }

  lemma TagReads(tag: Tag)
    requires Printed(tag)
    ensures TagOf(TagName(tag)) == tag && NameText(TagName(tag))
    ensures tag.Known() && !tag.Void() && !tag.Forbidden()
  {
    if TextTag(tag) { TextTagNamed(tag); TextTagName(tag); }
    else if TableTag(tag) { TableTagNamed(tag); TableTagName(tag); }
    else if tag.Div? {}
    else {}
  }

  function PrintedEl(tag: Tag, ps: seq<KeyValue>, children: seq<Node>): Node {
    El(TagName(tag), ps, children)
  }

  function PrintedText(tag: Tag, attrs: string, inner: string): string {
    Tagged(TagName(tag), attrs, inner)
  }

  /** `tag` may open directly inside `parent`. */
  predicate MayOpen(parent: Tag, tag: Tag) {
    && tag.Known() && !tag.A? && parent != Other("constructor")
    && (parent.P? || parent.Heading() || parent.Phrasing() ==> tag.Phrasing())
    && ChildAllowed(parent, tag) && ParentAllowed(parent, tag)
  }

  lemma Opens(ctx: seq<Tag>, tag: Tag)
    requires ctx != [] && MayOpen(ctx[|ctx| - 1], tag)
    ensures StructTrace(ctx, tag).Clean()
  {
    hide Tag.Known, Tag.Phrasing, Tag.Heading, ChildAllowed, ParentAllowed;
  }

  /** `n` is a printed element with source `src` that may stand in `ctx`. */
  ghost predicate Stands(env: Env, n: Node, ctx: seq<Tag>, src: string) {
    ctx != [] && n.Element? && Wf(env, n, ctx) && !Unsupported(n) && Source(n) == src && CleanText(src)
  }

  ghost predicate AllStand(env: Env, ns: seq<Node>, ctx: seq<Tag>, src: string) {
    ctx != [] && WfAll(env, ns, ctx) && Supported(ns) && Sources(ns) == src && CleanText(src)
  }

  predicate HasShape(n: Node, tag: Tag, ps: seq<KeyValue>, children: seq<Node>) {
    n.Element? && n.tag == tag && n.attrs == AttrMap(ps, map[]) && n.children == children
  }

  lemma {:induction false} PrintedStands(env: Env, tag: Tag, ps: seq<KeyValue>, children: seq<Node>, ctx: seq<Tag>,
                                         inner: string)
    requires Printed(tag) && AttrsFine(env, tag, ps, {})
    requires ctx != [] && MayOpen(ctx[|ctx| - 1], tag)
    requires AllStand(env, children, ctx + [tag], inner)
    ensures Stands(env, PrintedEl(tag, ps, children), ctx, PrintedText(tag, AttrText(ps), inner))
    ensures HasShape(PrintedEl(tag, ps, children), tag, ps, children)
  {
    hide TagName, TagOf, AttrsFine, StructTrace, WfAll, Supported, Wf, MayOpen, AttrText, Sources, Unsupported,
      Source, AttrMap;
    TagReads(tag);
    Opens(ctx, tag);
    ElSource(TagName(tag), ps, children);
    ElWf(env, TagName(tag), ps, children, ctx);
    AttrTextClean(env, tag, ps, {});
    NameClean(TagName(tag));
    TaggedClean(TagName(tag), AttrText(ps), inner);
  }

  lemma TaggedClean(name: string, attrs: string, inner: string)
    requires CleanText(name) && CleanText(attrs) && CleanText(inner)
    ensures CleanText(Tagged(name, attrs, inner))
  {
    assert CleanChar('<') && CleanChar('>') && CleanChar('/');
  }

  lemma FirstStands(env: Env, n: Node, ns: seq<Node>, ctx: seq<Tag>, src: string, rest: string)
    requires Stands(env, n, ctx, src) && AllStand(env, ns, ctx, rest)
    ensures AllStand(env, [n] + ns, ctx, src + rest)
  {
    hide Wf, Source, Unsupported;
    assert ([n] + ns)[1..] == ns;
  }

  lemma NoneStand(env: Env, ctx: seq<Tag>)
    requires ctx != []
    ensures AllStand(env, [], ctx, "")
  {
    assert Sources([]) == "";
    assert WfAll(env, [], ctx);
    assert Supported([]);
  }

  lemma OneStands(env: Env, n: Node, ctx: seq<Tag>, src: string)
    requires Stands(env, n, ctx, src)
    ensures AllStand(env, [n], ctx, src)
  {
    NoneStand(env, ctx);
    FirstStands(env, n, [], ctx, src, "");
    assert [n] + [] == [n] && src + "" == src;
  }

  lemma {:induction false} NoAttrs(env: Env, tag: Tag)
    ensures AttrsFine(env, tag, [], {}) && AttrText([]) == "" && AttrMap([], map[]) == map[]
  {
  }

  lemma NotActive(key: string)
    requires key == "class" || key == "style" || StartsWith(key, "data-")
    ensures !ActiveAttr(key)
  {
    assert key[0] != 'o';
  }

  lemma {:induction false} OneAttr(env: Env, tag: Tag, key: string, value: string)
    requires CleanText(value) && (key == "class" || key == "style")
    requires key == "style" ==> env.safeStyle(value)
    ensures AttrsFine(env, tag, [KeyValue(key, value)], {})
    ensures AttrMap([KeyValue(key, value)], map[]) == map[key := value]
  {
    hide AttrTrace, ActiveAttr, CleanText;
    NotActive(key);
    AttrFine(env, tag, {}, key, value);
    assert NameText(key);
  }

  lemma {:induction false} OneAttrText(key: string, value: string)
    ensures AttrText([KeyValue(key, value)]) == Attribute(key, Escape(value))
  {
    hide Escape;
    assert AttrText([]) == "";
  }

  // ---------- Paragraphs, headings and lists ----------

  /** Nothing but the root, the document container and block containers are open. */
  predicate PlainCtx(ctx: seq<Tag>) {
    ctx != [] && forall i :: 0 <= i < |ctx| ==> ctx[i].Root? || ctx[i].Div? || ctx[i].Blockquote?
  }

  predicate TextParent(tag: Tag) { tag.P? || tag.H1? || tag.H2? || tag.H3? }

  function TextEl(tag: Tag, rs: seq<Inline>): Node { PrintedEl(tag, [], RunNodes(CanonRuns(rs))) }

  /** A printed element of running text. */
  lemma {:induction false} TextElRead(env: Env, tag: Tag, rs: seq<Inline>, ctx: seq<Tag>)
    requires TextParent(tag) && RenderInlines(env, rs).Ok? && CleanRuns(rs)
    requires ctx != [] && A !in ctx && MayOpen(ctx[|ctx| - 1], tag)
    ensures Stands(env, TextEl(tag, rs), ctx, PrintedText(tag, "", RenderInlines(env, rs).value))
    ensures HasShape(TextEl(tag, rs), tag, [], RunNodes(CanonRuns(rs)))
    ensures Inlines(env, RunNodes(CanonRuns(rs)), []) == Dec(NO_FAULT, Some(CanonRuns(rs)))
  {
    hide RunNodes, CanonRuns, RenderInlines, Wf, WfAll, Supported, Source, Inlines, AttrsFine, CleanRuns, TagName,
      TagOf, MayOpen, Stands, HasShape, PrintedEl;
    InlinesRoundTrip(env, rs, ctx + [tag]);
    NoAttrs(env, tag);
    PrintedStands(env, tag, [], RunNodes(CanonRuns(rs)), ctx, RenderInlines(env, rs).value);
  }

  function ItemNode(item: ListItem): Node {
    PrintedEl(Li, [], [TextEl(P, item.inlines)])
  }

  function ItemNodes(items: seq<ListItem>): seq<Node> {
    if items == [] then [] else [ItemNode(items[0])] + ItemNodes(items[1..])
  }

  predicate CleanItems(items: seq<ListItem>) {
    forall i :: 0 <= i < |items| ==> CleanRuns(items[i].inlines)
  }

  function ItemText(env: Env, item: ListItem): string
    requires RenderInlines(env, item.inlines).Ok?
  {
    Tagged("li", "", Tagged("p", "", RenderInlines(env, item.inlines).value))
  }

  lemma {:induction false} NoBlocks(env: Env, k: ListKind, payloads: map<string, string>)
    ensures RenderBlocks(env, [], None, k, payloads) == Ok("")
  {
  }

  lemma {:induction false} RenderItemsStep(env: Env, items: seq<ListItem>, k: ListKind, payloads: map<string, string>)
    requires items != [] && RenderItems(env, items, k, payloads).Ok? && NoContinuationItems(items)
    ensures RenderInlines(env, items[0].inlines).Ok? && RenderItems(env, items[1..], k, payloads).Ok?
    ensures NoContinuationItems(items[1..])
    ensures RenderItems(env, items, k, payloads).value
         == ItemText(env, items[0]) + RenderItems(env, items[1..], k, payloads).value
  {
    hide RenderInlines, Tagged, RenderBlocks;
    NoBlocks(env, k, payloads);
    var p := Tagged("p", "", RenderInlines(env, items[0].inlines).value);
    assert p + "" == p;
  }

  lemma {:induction false} ItemsOfStep(env: Env, n: Node, ns: seq<Node>, item: ListItem, items: seq<ListItem>)
    requires n.Element? && ItemOf(env, n) == Dec(NO_FAULT, Some(item))
    requires ItemsOf(env, ns) == Dec(NO_FAULT, Some(items))
    ensures ItemsOf(env, [n] + ns) == Dec(NO_FAULT, Some([item] + items))
  {
    hide ItemOf;
    assert ([n] + ns)[1..] == ns;
    assert NO_FAULT.Then(NO_FAULT) == NO_FAULT;
  }

  lemma {:induction false} CanonItemsStep(items: seq<ListItem>, k: ListKind)
    requires items != [] && NoContinuationItems(items)
    ensures CanonItems(items, k) == [Item(CanonRuns(items[0].inlines))] + CanonItems(items[1..], k)
  {
    hide CanonRuns;
  }

  predicate ElementsOnly(ns: seq<Node>) { forall i :: 0 <= i < |ns| ==> ns[i].Element? }

  lemma {:induction false} ItemsRead(env: Env, items: seq<ListItem>, k: ListKind, payloads: map<string, string>,
                                     ctx: seq<Tag>)
    requires RenderItems(env, items, k, payloads).Ok? && NoContinuationItems(items) && CleanItems(items)
    requires ctx != [] && ctx[|ctx| - 1].List() && A !in ctx
    ensures AllStand(env, ItemNodes(items), ctx, RenderItems(env, items, k, payloads).value)
    ensures ElementsOnly(ItemNodes(items))
    ensures ItemsOf(env, ItemNodes(items)) == Dec(NO_FAULT, Some(CanonItems(items, k)))
  {
    if items == [] {
      NoneStand(env, ctx);
    } else {
      RenderItemsStep(env, items, k, payloads);
      CanonItemsStep(items, k);
      ItemsRead(env, items[1..], k, payloads, ctx);
      var head := ItemNode(items[0]);
      ItemStands(env, items[0], ctx);
      FirstStands(env, head, ItemNodes(items[1..]), ctx, ItemText(env, items[0]), RenderItems(env, items[1..], k, payloads).value);
      ItemsOfStep(env, head, ItemNodes(items[1..]), Item(CanonRuns(items[0].inlines)), CanonItems(items[1..], k));
    }
  }

  lemma ItemStands(env: Env, item: ListItem, ctx: seq<Tag>)
    requires RenderInlines(env, item.inlines).Ok? && CleanRuns(item.inlines)
    requires ctx != [] && ctx[|ctx| - 1].List() && A !in ctx
    ensures ItemNode(item).Element?
    ensures Stands(env, ItemNode(item), ctx, ItemText(env, item))
    ensures ItemOf(env, ItemNode(item)) == Dec(NO_FAULT, Some(Item(CanonRuns(item.inlines))))
  {
    hide RunNodes, CanonRuns, RenderInlines, Wf, WfAll, Inlines, CleanRuns, TextEl, PrintedEl, Stands, AllStand, ItemOf;
    var p, text := TextEl(P, item.inlines), RenderInlines(env, item.inlines).value;
    TextElRead(env, P, item.inlines, ctx + [Li]);
    OneStands(env, p, ctx + [Li], PrintedText(P, "", text));
    NoAttrs(env, Li);
    PrintedStands(env, Li, [], [p], ctx, PrintedText(P, "", text));
    ItemDecodes(env, ItemNode(item), p, RunNodes(CanonRuns(item.inlines)), CanonRuns(item.inlines));
  }

  lemma {:induction false} ItemDecodes(env: Env, li: Node, p: Node, kids: seq<Node>, rs: seq<Inline>)
    requires HasShape(li, Li, [], [p]) && HasShape(p, P, [], kids)
    requires Inlines(env, kids, []) == Dec(NO_FAULT, Some(rs))
    ensures ItemOf(env, li) == Dec(NO_FAULT, Some(Item(rs)))
  {
    hide Inlines;
    assert [p][1..] == [];
  }

  // ---------- Checklists ----------

  predicate Solid(s: string) { s != "" && forall i :: 0 <= i < |s| ==> !IsSpace(s[i]) }

  lemma {:induction false} OneWord(s: string)
    requires Solid(s)
    ensures Words(s) == [s]
  {
    hide IsSpace;
    assert End(s, 0, NotSpace) == |s|;
    assert s[..|s|] == s && s[|s|..] == "";
    assert Words("") == [];
  }

  lemma {:induction false} FirstWord(a: string, b: string)
    requires Solid(a)
    ensures Words(a + " " + b) == [a] + Words(b)
  {
    var s := a + " " + b;
    assert IsSpace(s[|a|]);
    assert forall i :: 0 <= i < |a| ==> s[i] == a[i];
    assert End(s, 0, NotSpace) == |a|;
    assert s[..|a|] == a && s[|a| + 1..] == b;
  }

  function ItemClass(k: ListKind): string { KindClass(k) + "--item" }

  predicate ClassText(s: string) {
    forall i :: 0 <= i < |s| ==> 'a' <= s[i] <= 'z' || s[i] == '-' || s[i] == ' '
  }

  lemma {:induction false} ClassTextSafe(s: string)
    requires ClassText(s)
    ensures CleanText(s) && Escape(s) == s
  {
    EscapePlain(s);
  }

  lemma ItemClassSolid(k: ListKind)
    ensures Solid(ItemClass(k)) && ClassText(ItemClass(k)) && ClassText(KindClass(k))
    ensures |ItemClass(k)| > 13
  {
  }

  lemma TaskClassWords(checked: bool, k: ListKind)
    ensures Words(TaskClass(checked, k)) == if checked then ["checked", ItemClass(k)] else [ItemClass(k)]
    ensures ClassText(TaskClass(checked, k)) && TaskClass(checked, k) != ""
  {
    hide Words, KindClass;
    var c := ItemClass(k);
    ItemClassSolid(k);
    OneWord(c);
    if checked {
      assert Solid("checked");
      FirstWord("checked", c);
      assert TaskClass(true, k) == "checked" + " " + c;
    } else {
      assert TaskClass(false, k) == c;
    }
  }

  function ClassPairs(value: string): seq<KeyValue> { [KeyValue("class", value)] }

  lemma {:induction false} ClassPairsFine(env: Env, tag: Tag, value: string)
    requires ClassText(value)
    ensures AttrsFine(env, tag, ClassPairs(value), {})
    ensures AttrMap(ClassPairs(value), map[]) == map["class" := value]
    ensures AttrText(ClassPairs(value)) == Attribute("class", value)
  {
    hide AttrsFine, CleanText, Escape;
    ClassTextSafe(value);
    OneAttr(env, tag, "class", value);
    OneAttrText("class", value);
  }

  function TaskNode(t: TaskItem, k: ListKind): Node
    decreases t, 0
  {
    PrintedEl(Li, ClassPairs(TaskClass(t.checked, k)), [TextEl(P, t.inlines)] + NestedNodes(t.children, k))
  }

  function NestedNodes(ts: seq<TaskItem>, k: ListKind): seq<Node>
    decreases ts, 1
  {
    if ts == [] then [] else [PrintedEl(Ul, ClassPairs(KindClass(k)), TaskNodes(ts, k))]
  }

  function TaskNodes(ts: seq<TaskItem>, k: ListKind): seq<Node>
    decreases ts, 0
  {
    if ts == [] then [] else [TaskNode(ts[0], k)] + TaskNodes(ts[1..], k)
  }

  predicate CleanTask(t: TaskItem) { CleanRuns(t.inlines) && CleanTasks(t.children) }

  predicate CleanTasks(ts: seq<TaskItem>) { ts != [] ==> CleanTask(ts[0]) && CleanTasks(ts[1..]) }

  function Nested(env: Env, ts: seq<TaskItem>, k: ListKind): Out {
    if ts == [] then Ok("") else RenderTasks(env, ts, k)
  }

  lemma {:induction false} RenderTaskStep(env: Env, t: TaskItem, k: ListKind)
    requires RenderTask(env, t, k).Ok?
    ensures RenderInlines(env, t.inlines).Ok? && Nested(env, t.children, k).Ok?
    ensures RenderTask(env, t, k).value
         == Tagged("li", Attribute("class", TaskClass(t.checked, k)),
                   Tagged("p", "", RenderInlines(env, t.inlines).value) + Nested(env, t.children, k).value)
  {
    hide RenderInlines, RenderTasks, Tagged;
  }

  lemma {:induction false} NestedStep(env: Env, ts: seq<TaskItem>, k: ListKind)
    requires ts != [] && Nested(env, ts, k).Ok?
    ensures RenderTaskItems(env, ts, k).Ok?
    ensures Nested(env, ts, k).value == Tagged("ul", Attribute("class", KindClass(k)), RenderTaskItems(env, ts, k).value)
  {
    hide RenderTaskItems;
  }

  lemma {:induction false} RenderTasksStep(env: Env, ts: seq<TaskItem>, k: ListKind)
    requires ts != [] && RenderTaskItems(env, ts, k).Ok?
    ensures RenderTask(env, ts[0], k).Ok? && RenderTaskItems(env, ts[1..], k).Ok?
    ensures RenderTaskItems(env, ts, k).value == RenderTask(env, ts[0], k).value + RenderTaskItems(env, ts[1..], k).value
  {
    hide RenderTask;
  }

  lemma {:induction false} TasksOfStep(env: Env, n: Node, ns: seq<Node>, k: ListKind, t: TaskItem, ts: seq<TaskItem>)
    requires n.Element? && TaskOf(env, n, k) == Dec(NO_FAULT, Some(t))
    requires TasksOf(env, ns, k) == Dec(NO_FAULT, Some(ts))
    ensures TasksOf(env, [n] + ns, k) == Dec(NO_FAULT, Some([t] + ts))
  {
    hide TaskOf;
    assert ([n] + ns)[1..] == ns;
    assert NO_FAULT.Then(NO_FAULT) == NO_FAULT;
  }

  lemma {:induction false} ElementsOnlyAll(ns: seq<Node>)
    requires ElementsOnly(ns)
    ensures ElementsOf(ns) == ns && !StrayText(ns)
  {
    if ns != [] { ElementsOnlyAll(ns[1..]); }
  }

  /** `u` is a printed list of tasks with the class of its kind, read back as `ts`. */
  ghost predicate ReadsTasks(env: Env, u: Node, k: ListKind, ts: seq<TaskItem>) {
    && u.Element? && u.tag == Ul && u.attrs == map["class" := KindClass(k)]
    && ElementsOnly(u.children)
    && TasksOf(env, u.children, k) == Dec(NO_FAULT, Some(ts))
  }

  lemma KindRead(u: Node, k: ListKind)
    requires u.Element? && u.tag == Ul && Attr(u, "class") == Some(KindClass(k))
    ensures KindOf(u) == Some(k)
  {
  }

  lemma {:induction false} TasksInRead(env: Env, u: Node, k: ListKind, ts: seq<TaskItem>)
    requires ReadsTasks(env, u, k, ts)
    ensures KindOf(u) == Some(k)
    ensures TasksIn(env, u, k, false) == Dec(NO_FAULT, Some(ts))
  {
    hide TasksOf, KindOf, KindClass;
    KindRead(u, k);
    ElementsOnlyAll(u.children);
  }

  lemma ItemClassesRead(li: Node, checked: bool, k: ListKind)
    requires li.Element? && li.attrs == map["class" := TaskClass(checked, k)]
    ensures ItemClasses(li, k)
    ensures checked == ("checked" in Classes(li) || "checked--item" in Classes(li))
  {
    hide Words, TaskClass, KindClass;
    TaskClassWords(checked, k);
    ItemClassSolid(k);
    var s := TaskClass(checked, k);
    assert ItemClassText(s) by {
      forall c | c in s ensures 'a' <= c <= 'z' || c == ' ' || c == '-' { }
    }
  }

  lemma {:induction false} TaskDecodes(env: Env, li: Node, p: Node, kids: seq<Node>, nested: seq<Node>, t: TaskItem,
                                       k: ListKind)
    requires li.Element? && li.tag == Li && li.attrs == map["class" := TaskClass(t.checked, k)]
    requires li.children == [p] + nested && HasShape(p, P, [], kids)
    requires Inlines(env, kids, []) == Dec(NO_FAULT, Some(t.inlines))
    requires if nested == [] then t.children == []
             else |nested| == 1 && ReadsTasks(env, nested[0], k, t.children)
    ensures TaskOf(env, li, k) == Dec(NO_FAULT, Some(t))
  {
    hide Inlines, TasksIn, ItemClasses, Classes, KindOf;
    ItemClassesRead(li, t.checked, k);
    if nested != [] {
      TasksInRead(env, nested[0], k, t.children);
      assert nested == [nested[0]];
      assert nested[0].Element?;
    }
    ElementsOnlyAll([p] + nested);
    assert NO_FAULT.Then(NO_FAULT) == NO_FAULT;
  }

  lemma ListGrammar()
    ensures MayOpen(Ul, Li) && MayOpen(Ol, Li) && MayOpen(Li, P) && MayOpen(Li, Ul)
    ensures Printed(Ul) && Printed(Ol) && Printed(Li) && TextParent(P)
  {
  }

  predicate TaskCtx(ctx: seq<Tag>) { ctx != [] && ctx[|ctx| - 1] == Ul && A !in ctx }

  lemma {:induction false} TaskRead(env: Env, t: TaskItem, k: ListKind, ctx: seq<Tag>)
    requires RenderTask(env, t, k).Ok? && CleanTask(t) && TaskCtx(ctx)
    ensures TaskNode(t, k).Element?
    ensures Stands(env, TaskNode(t, k), ctx, RenderTask(env, t, k).value)
    ensures TaskOf(env, TaskNode(t, k), k) == Dec(NO_FAULT, Some(CanonTask(t)))
    decreases t, 1
  {
    hide CanonTask, Printed, MayOpen, AllStand, HasShape, TextParent, Solid, ItemClass, ClassText, NestedNodes,
      CleanTasks, Nested, AttrText, AttrMap, AttrsFine, CanonRuns, Inlines, Words, KindClass, TaskOf, NO_FAULT,
      CleanText, Source, Wf, RunNodes, CleanRuns, Tagged, Attribute, RenderInlines, TaskClass, RenderTask;
    RenderTaskStep(env, t, k);
    var p, kids := TextEl(P, t.inlines), NestedNodes(t.children, k);
    var text := PrintedText(P, "", RenderInlines(env, t.inlines).value);
    ListGrammar();
    TextElRead(env, P, t.inlines, ctx + [Li]);
    assert p.Element?;
    NestedRead(env, t.children, k, ctx + [Li]);
    FirstStands(env, p, kids, ctx + [Li], text, Nested(env, t.children, k).value);
    ItemClassSolid(k);
    TaskClassWords(t.checked, k);
    var ps := ClassPairs(TaskClass(t.checked, k));
    ClassPairsFine(env, Li, TaskClass(t.checked, k));
    PrintedStands(env, Li, ps, [p] + kids, ctx, text + Nested(env, t.children, k).value);
    assert TaskNode(t, k) == PrintedEl(Li, ps, [p] + kids);
    TaskShape(env, t, k, p, kids);
    assert RenderTask(env, t, k).value == PrintedText(Li, AttrText(ps), text + Nested(env, t.children, k).value);
  }

  lemma {:induction false} TaskShape(env: Env, t: TaskItem, k: ListKind, p: Node, kids: seq<Node>)
    requires p == TextEl(P, t.inlines) && kids == NestedNodes(t.children, k)
    requires HasShape(p, P, [], RunNodes(CanonRuns(t.inlines)))
    requires HasShape(TaskNode(t, k), Li, ClassPairs(TaskClass(t.checked, k)), [p] + kids)
    requires AttrMap(ClassPairs(TaskClass(t.checked, k)), map[]) == map["class" := TaskClass(t.checked, k)]
    requires Inlines(env, RunNodes(CanonRuns(t.inlines)), []) == Dec(NO_FAULT, Some(CanonRuns(t.inlines)))
    requires if kids == [] then CanonTasks(t.children) == []
             else |kids| == 1 && ReadsTasks(env, kids[0], k, CanonTasks(t.children))
    ensures TaskNode(t, k).Element?
    ensures TaskOf(env, TaskNode(t, k), k) == Dec(NO_FAULT, Some(CanonTask(t)))
  {
    TaskDecodes(env, TaskNode(t, k), p, RunNodes(CanonRuns(t.inlines)), kids, CanonTask(t), k);
  }

  lemma {:induction false} NestedRead(env: Env, ts: seq<TaskItem>, k: ListKind, ctx: seq<Tag>)
    requires Nested(env, ts, k).Ok? && CleanTasks(ts) && ctx != [] && ctx[|ctx| - 1] == Li && A !in ctx
    ensures AllStand(env, NestedNodes(ts, k), ctx, Nested(env, ts, k).value)
    ensures if NestedNodes(ts, k) == [] then CanonTasks(ts) == []
            else |NestedNodes(ts, k)| == 1 && ReadsTasks(env, NestedNodes(ts, k)[0], k, CanonTasks(ts))
    decreases ts, 3
  {
    hide CanonTask, Printed, PrintedEl, MayOpen, Stands, AllStand, TextParent, ElementsOnly, Solid, ItemClass,
      ClassText, ClassPairs, TaskNodes, CleanTasks, AttrText, AttrMap, AttrsFine, KindClass, TasksOf, NO_FAULT,
      Tagged, Attribute, RenderTaskItems, RenderTasks;
    if ts == [] {
      NoneStand(env, ctx);
    } else {
      var items, kids := RenderTaskItems(env, ts, k), TaskNodes(ts, k);
      NestedStep(env, ts, k);
      assert TaskCtx(ctx + [Ul]);
      TaskNodesRead(env, ts, k, ctx + [Ul]);
      ItemClassSolid(k);
      ClassPairsFine(env, Ul, KindClass(k));
      ListGrammar();
      PrintedStands(env, Ul, ClassPairs(KindClass(k)), kids, ctx, items.value);
      var u := PrintedEl(Ul, ClassPairs(KindClass(k)), kids);
      OneStands(env, u, ctx, Nested(env, ts, k).value);
      assert ReadsTasks(env, u, k, CanonTasks(ts));
    }
  }

  lemma {:induction false} TaskNodesRead(env: Env, ts: seq<TaskItem>, k: ListKind, ctx: seq<Tag>)
    requires RenderTaskItems(env, ts, k).Ok? && CleanTasks(ts) && TaskCtx(ctx)
    ensures AllStand(env, TaskNodes(ts, k), ctx, RenderTaskItems(env, ts, k).value)
    ensures ElementsOnly(TaskNodes(ts, k))
    ensures TasksOf(env, TaskNodes(ts, k), k) == Dec(NO_FAULT, Some(CanonTasks(ts)))
    decreases ts, 2
  {
    hide CanonTask, Stands, AllStand, TaskNode, Dec.Got, TaskOf, RenderTask;
    if ts == [] {
      NoneStand(env, ctx);
    } else {
      RenderTasksStep(env, ts, k);
      TaskRead(env, ts[0], k, ctx);
      TaskNodesRead(env, ts[1..], k, ctx);
      FirstStands(env, TaskNode(ts[0], k), TaskNodes(ts[1..], k), ctx, RenderTask(env, ts[0], k).value,
                  RenderTaskItems(env, ts[1..], k).value);
      TasksOfStep(env, TaskNode(ts[0], k), TaskNodes(ts[1..], k), k, CanonTask(ts[0]), CanonTasks(ts[1..]));
    }
  }

  // ---------- Code and tables ----------

  function PlainNodes(t: string): seq<Node> {
    if t == "" then [] else [TextNode(Escape(t), t, false)]
  }

  lemma {:induction false} PlainStands(env: Env, t: string, ctx: seq<Tag>)
    requires InFlow(ctx) && CleanText(t)
    ensures AllStand(env, PlainNodes(t), ctx, Escape(t))
    ensures TextOnlyChildren(PlainNodes(t)) && JoinText(PlainNodes(t)) == t
  {
    hide CleanText, Wf;
    if t == "" {
      NoneStand(env, ctx);
    } else {
      EscapeClean(t);
      TextWf(env, t, ctx);
      var n := TextNode(Escape(t), t, false);
      assert PlainNodes(t) == [n] && [n][1..] == [];
      assert JoinText([n]) == t + "";
      assert Sources([n]) == Escape(t) + "";
      assert WfAll(env, [n], ctx);
    }
  }

  lemma CodeGrammar()
    ensures MayOpen(Pre, Tag.Code) && Printed(Pre) && Printed(Tag.Code) && Flow(Tag.Code)
  {
  }

  lemma TableGrammar()
    ensures MayOpen(Tag.Table, Thead) && MayOpen(Tag.Table, Tbody) && MayOpen(Thead, Tr) && MayOpen(Tbody, Tr)
    ensures MayOpen(Tr, Th) && MayOpen(Tr, Td)
  {
    hide MayOpen;
    SectionGrammar();
    CellGrammar();
  }

  lemma SectionGrammar()
    ensures MayOpen(Tag.Table, Thead) && MayOpen(Tag.Table, Tbody) && MayOpen(Thead, Tr) && MayOpen(Tbody, Tr)
  {
  }

  lemma CellGrammar()
    ensures MayOpen(Tr, Th) && MayOpen(Tr, Td)
  {
  }

  lemma TablePrinted()
    ensures Printed(Tag.Table) && Printed(Thead) && Printed(Tbody) && Printed(Tr)
    ensures Printed(Th) && Printed(Td) && Flow(Th) && Flow(Td)
  {
  }

  function CellNodes(tag: Tag, cells: seq<string>): seq<Node> {
    if cells == [] then [] else [PrintedEl(tag, [], PlainNodes(cells[0]))] + CellNodes(tag, cells[1..])
  }

  function RowNodes(rows: seq<seq<string>>): seq<Node> {
    if rows == [] then [] else [PrintedEl(Tr, [], CellNodes(Td, rows[0]))] + RowNodes(rows[1..])
  }

  function TableNode(columns: seq<string>, rows: seq<seq<string>>): Node {
    PrintedEl(Tag.Table, [],
              [PrintedEl(Thead, [], [PrintedEl(Tr, [], CellNodes(Th, columns))]),
               PrintedEl(Tbody, [], RowNodes(rows))])
  }

  predicate AllClean(ss: seq<string>) { forall i :: 0 <= i < |ss| ==> CleanText(ss[i]) }

  lemma {:induction false} CellRead(env: Env, tag: Tag, cell: string, ctx: seq<Tag>)
    requires tag == Th || tag == Td
    requires ctx != [] && ctx[|ctx| - 1] == Tr && CleanText(cell)
    ensures Stands(env, PrintedEl(tag, [], PlainNodes(cell)), ctx, Tagged(TagName(tag), "", Escape(cell)))
    ensures HasShape(PrintedEl(tag, [], PlainNodes(cell)), tag, [], PlainNodes(cell))
    ensures TextOnly(PrintedEl(tag, [], PlainNodes(cell))) == Some(cell)
  {
    hide Printed, Stands, Flow;
    TableGrammar();
    TablePrinted();
    PlainStands(env, cell, ctx + [tag]);
    NoAttrs(env, tag);
    PrintedStands(env, tag, [], PlainNodes(cell), ctx, Escape(cell));
    assert PrintedText(tag, "", Escape(cell)) == Tagged(TagName(tag), "", Escape(cell));
    TextOnlyRead(PrintedEl(tag, [], PlainNodes(cell)), tag, cell);
  }

  lemma {:induction false} TextOnlyRead(n: Node, tag: Tag, text: string)
    requires HasShape(n, tag, [], PlainNodes(text))
    requires TextOnlyChildren(PlainNodes(text)) && JoinText(PlainNodes(text)) == text
    ensures n.Element? && TextOnly(n) == Some(text)
  {
  }

  lemma {:induction false} CellsRead(env: Env, tag: Tag, cells: seq<string>, ctx: seq<Tag>)
    requires tag == Th || tag == Td
    requires ctx != [] && ctx[|ctx| - 1] == Tr && AllClean(cells)
    ensures AllStand(env, CellNodes(tag, cells), ctx, Cells(TagName(tag), cells))
    ensures ElementsOnly(CellNodes(tag, cells))
    ensures CellsOf(CellNodes(tag, cells), tag == Th) == Some(cells)
  {
    hide PrintedEl, Stands, AllStand, PlainNodes, AttrMap, TextOnly, TagName, CleanText, Escape, Tagged;
    if cells == [] {
      NoneStand(env, ctx);
    } else {
      CellRead(env, tag, cells[0], ctx);
      CellsRead(env, tag, cells[1..], ctx);
      var n, rest := PrintedEl(tag, [], PlainNodes(cells[0])), CellNodes(tag, cells[1..]);
      FirstStands(env, n, rest, ctx, Tagged(TagName(tag), "", Escape(cells[0])), Cells(TagName(tag), cells[1..]));
      CellsStep(n, rest, tag == Th, cells[0], cells[1..]);
      assert n.Element?;
      assert cells == [cells[0]] + cells[1..];
    }
  }

  lemma {:induction false} CellsStep(n: Node, ns: seq<Node>, header: bool, cell: string, cells: seq<string>)
    requires n.Element? && n.tag == (if header then Th else Td) && TextOnly(n) == Some(cell)
    requires CellsOf(ns, header) == Some(cells)
    ensures CellsOf([n] + ns, header) == Some([cell] + cells)
  {
    hide TextOnly;
    assert ([n] + ns)[1..] == ns;
  }

  lemma {:induction false} RowRead(env: Env, tag: Tag, cells: seq<string>, ctx: seq<Tag>)
    requires tag == Th || tag == Td
    requires ctx != [] && AllClean(cells) && MayOpen(ctx[|ctx| - 1], Tr)
    ensures var n := PrintedEl(Tr, [], CellNodes(tag, cells));
            && Stands(env, n, ctx, Tagged("tr", "", Cells(TagName(tag), cells)))
            && HasShape(n, Tr, [], CellNodes(tag, cells))
    ensures ElementsOnly(CellNodes(tag, cells)) && CellsOf(CellNodes(tag, cells), tag == Th) == Some(cells)
  {
    hide Printed, PrintedEl, MayOpen, Stands, AllStand, HasShape, ElementsOnly, AttrsFine, CellsOf, Flow, Tagged;
    TablePrinted();
    CellsRead(env, tag, cells, ctx + [Tr]);
    NoAttrs(env, Tr);
    PrintedStands(env, Tr, [], CellNodes(tag, cells), ctx, Cells(TagName(tag), cells));
  }

  predicate AllRowsClean(rows: seq<seq<string>>) { forall i :: 0 <= i < |rows| ==> AllClean(rows[i]) }

  lemma {:induction false} RowCellsStep(n: Node, kids: seq<Node>, ns: seq<Node>, header: bool, row: seq<string>,
                                        rows: seq<seq<string>>)
    requires HasShape(n, Tr, [], kids) && ElementsOnly(kids) && CellsOf(kids, header) == Some(row)
    requires RowCells(ns, false) == Some(rows)
    ensures RowCells([n] + ns, header) == Some([row] + rows)
  {
    hide CellsOf;
    assert ([n] + ns)[1..] == ns;
    ElementsOnlyAll(kids);
  }

  lemma ShapeTag(n: Node, tag: Tag, kids: seq<Node>)
    requires HasShape(n, tag, [], kids)
    ensures n.Element? && n.tag == tag && n.attrs == map[]
  {
  }

  lemma NoRowsRead()
    ensures RowNodes([]) == [] && Rows([]) == "" && ElementsOnly([]) && RowCells([], false) == Some([])
  {
  }

  lemma RowsStep(rows: seq<seq<string>>)
    requires rows != [] && AllRowsClean(rows)
    ensures RowNodes(rows) == [PrintedEl(Tr, [], CellNodes(Td, rows[0]))] + RowNodes(rows[1..])
    ensures Rows(rows) == Tagged("tr", "", Cells("td", rows[0])) + Rows(rows[1..])
    ensures AllClean(rows[0]) && AllRowsClean(rows[1..])
  {
    hide PrintedEl, CellNodes, Tagged, Cells, AllClean;
  }

  lemma ElementsFirst(n: Node, ns: seq<Node>)
    requires n.Element? && ElementsOnly(ns)
    ensures ElementsOnly([n] + ns)
  {
    assert ([n] + ns)[1..] == ns;
  }

  lemma {:induction false} RowsRead(env: Env, rows: seq<seq<string>>, ctx: seq<Tag>)
    requires ctx != [] && AllRowsClean(rows) && MayOpen(ctx[|ctx| - 1], Tr)
    ensures AllStand(env, RowNodes(rows), ctx, Rows(rows))
    ensures ElementsOnly(RowNodes(rows)) && RowCells(RowNodes(rows), false) == Some(rows)
  {
    hide PrintedEl, MayOpen, Stands, AllStand, CellNodes, AllClean, HasShape, CellsOf, Tagged, Cells, AllRowsClean, RowNodes,
      Rows, ElementsOnly, RowCells;
    if rows == [] {
      NoneStand(env, ctx);
      NoRowsRead();
    } else {
      RowsStep(rows);
      var n, rest := PrintedEl(Tr, [], CellNodes(Td, rows[0])), RowNodes(rows[1..]);
      RowRead(env, Td, rows[0], ctx);
      RowsRead(env, rows[1..], ctx);
      FirstStands(env, n, rest, ctx, Tagged("tr", "", Cells("td", rows[0])), Rows(rows[1..]));
      RowCellsStep(n, CellNodes(Td, rows[0]), rest, false, rows[0], rows[1..]);
      ShapeTag(n, Tr, CellNodes(Td, rows[0]));
      ElementsFirst(n, rest);
      assert rows == [rows[0]] + rows[1..];
    }
  }

  function TableText(columns: seq<string>, rows: seq<seq<string>>): string {
    Tagged("table", "",
           Tagged("thead", "", Tagged("tr", "", Cells("th", columns))) + Tagged("tbody", "", Rows(rows)))
  }

  lemma {:induction false} HeadRead(env: Env, columns: seq<string>, ctx: seq<Tag>)
    requires ctx != [] && ctx[|ctx| - 1] == Tag.Table && AllClean(columns)
    ensures var row := PrintedEl(Tr, [], CellNodes(Th, columns));
            var n := PrintedEl(Thead, [], [row]);
            && Stands(env, n, ctx, Tagged("thead", "", Tagged("tr", "", Cells("th", columns))))
            && HasShape(n, Thead, [], [row])
            && HasShape(row, Tr, [], CellNodes(Th, columns))
    ensures ElementsOnly(CellNodes(Th, columns)) && CellsOf(CellNodes(Th, columns), true) == Some(columns)
  {
    hide Printed, PrintedEl, MayOpen, Stands, AllStand, HasShape, ElementsOnly, CellNodes, AllClean, AttrText,
      AttrMap, AttrsFine, CellsOf, Flow, Tagged, Cells;
    TableGrammar();
    TablePrinted();
    var row := PrintedEl(Tr, [], CellNodes(Th, columns));
    var text := Tagged("tr", "", Cells("th", columns));
    RowRead(env, Th, columns, ctx + [Thead]);
    OneStands(env, row, ctx + [Thead], text);
    NoAttrs(env, Thead);
    PrintedStands(env, Thead, [], [row], ctx, text);
  }

  lemma {:induction false} BodyRead(env: Env, rows: seq<seq<string>>, ctx: seq<Tag>)
    requires ctx != [] && ctx[|ctx| - 1] == Tag.Table && AllRowsClean(rows)
    ensures var n := PrintedEl(Tbody, [], RowNodes(rows));
            Stands(env, n, ctx, Tagged("tbody", "", Rows(rows))) && HasShape(n, Tbody, [], RowNodes(rows))
    ensures ElementsOnly(RowNodes(rows)) && RowCells(RowNodes(rows), false) == Some(rows)
  {
    hide Printed, MayOpen, Stands, AllStand, HasShape, RowNodes, AllRowsClean, AttrText, AttrMap, AttrsFine,
      RowCells, Flow, Tagged;
    TableGrammar();
    TablePrinted();
    RowsRead(env, rows, ctx + [Tbody]);
    NoAttrs(env, Tbody);
    PrintedStands(env, Tbody, [], RowNodes(rows), ctx, Rows(rows));
  }

  lemma {:induction false} TableDecodes(n: Node, head: Node, body: Node, row: Node, cells: seq<Node>, rows: seq<Node>,
                     columns: seq<string>, data: seq<seq<string>>)
    requires HasShape(n, Tag.Table, [], [head, body]) && HasShape(head, Thead, [], [row])
    requires HasShape(body, Tbody, [], rows) && HasShape(row, Tr, [], cells)
    requires ElementsOnly(cells) && CellsOf(cells, true) == Some(columns)
    requires ElementsOnly(rows) && RowCells(rows, false) == Some(data)
    requires columns != [] && EvenRows(columns, data)
    ensures TableOf(n) == Some(Block.Table(columns, data))
  {
    hide CellsOf, RowCells;
    ElementsOnlyAll(rows);
    ElementsOnlyAll([row]);
    ElementsOnlyAll([head, body]);
    RowsOfTable(head, body, row, rows);
    RowCellsStep(row, cells, rows, true, columns, data);
  }

  lemma {:induction false} RowsOfTable(head: Node, body: Node, row: Node, rows: seq<Node>)
    requires HasShape(head, Thead, [], [row]) && HasShape(body, Tbody, [], rows)
    requires ElementsOf([row]) == [row] && !StrayText([row]) && ElementsOf(rows) == rows && !StrayText(rows)
    ensures RowsOf([head, body]) == Some([row] + rows)
  {
    hide ElementsOf, StrayText;
    assert [head, body][1..] == [body] && [body][1..] == [];
    assert RowsOf([]) == Some([]);
    assert RowsOf([body]) == Some(rows + []);
    assert rows + [] == rows;
  }

  lemma TableRead(env: Env, columns: seq<string>, rows: seq<seq<string>>, ctx: seq<Tag>)
    requires ctx != [] && MayOpen(ctx[|ctx| - 1], Tag.Table)
    requires AllClean(columns) && AllRowsClean(rows) && columns != [] && EvenRows(columns, rows)
    ensures Stands(env, TableNode(columns, rows), ctx, TableText(columns, rows))
    ensures TableNode(columns, rows).tag == Tag.Table && TableNode(columns, rows).attrs == map[]
    ensures TableOf(TableNode(columns, rows)) == Some(Block.Table(columns, rows))
  {
    hide Printed, PrintedEl, MayOpen, Stands, AllStand, ElementsOnly, CellNodes, RowNodes, AllClean, AllRowsClean, HasShape,
      AttrText, AttrMap, AttrsFine, CellsOf, RowCells, TableOf, Flow, Tagged, Cells, Rows, EvenRows;
    TablePrinted();
    var row := PrintedEl(Tr, [], CellNodes(Th, columns));
    var head, body := PrintedEl(Thead, [], [row]), PrintedEl(Tbody, [], RowNodes(rows));
    var ctx' := ctx + [Tag.Table];
    var first, second := Tagged("thead", "", Tagged("tr", "", Cells("th", columns))), Tagged("tbody", "", Rows(rows));
    HeadRead(env, columns, ctx');
    BodyRead(env, rows, ctx');
    OneStands(env, body, ctx', second);
    FirstStands(env, head, [body], ctx', first, second);
    assert [head] + [body] == [head, body];
    NoAttrs(env, Tag.Table);
    PrintedStands(env, Tag.Table, [], [head, body], ctx, first + second);
    var n := TableNode(columns, rows);
    TableDecodes(n, head, body, row, CellNodes(Th, columns), RowNodes(rows), columns, rows);
    ShapeTag(n, Tag.Table, [head, body]);
  }

  function LanguagePairs(language: Option<string>): seq<KeyValue> {
    if language == None then [] else ClassPairs("language-" + language.value)
  }

  function CodeNode(text: string, language: Option<string>): Node {
    PrintedEl(Pre, [], [PrintedEl(Tag.Code, LanguagePairs(language), PlainNodes(text))])
  }

  function CodeAttrs(language: Option<string>): string {
    if language.Some? then Attribute("class", "language-" + Escape(language.value)) else ""
  }

  lemma {:induction false} LanguageFine(env: Env, language: Option<string>)
    requires language.Some? ==> LanguageText(language.value)
    ensures AttrsFine(env, Tag.Code, LanguagePairs(language), {})
    ensures AttrMap(LanguagePairs(language), map[])
         == if language.Some? then map["class" := "language-" + language.value] else map[]
    ensures AttrText(LanguagePairs(language)) == CodeAttrs(language)
  {
    hide AttrsFine, AttrText, AttrMap, Escape, CleanText;
    if language == None {
      NoAttrs(env, Tag.Code);
    } else {
      var value := "language-" + language.value;
      LanguageSafe(language.value);
      OneAttr(env, Tag.Code, "class", value);
      OneAttrText("class", value);
    }
  }

  lemma {:induction false} LanguageSafe(language: string)
    requires LanguageText(language)
    ensures CleanText("language-" + language)
    ensures Escape("language-" + language) == "language-" + Escape(language)
  {
    hide Escape;
    assert forall i :: 0 <= i < |language| ==> language[i] in language;
    EscapeOf("language-", language);
    EscapePlain("language-");
  }

  lemma CodeTexts(language: Option<string>, text: string)
    ensures PrintedText(Tag.Code, CodeAttrs(language), Escape(text)) == Tagged("code", CodeAttrs(language), Escape(text))
    ensures forall inner :: PrintedText(Pre, "", inner) == Tagged("pre", "", inner)
    ensures AttrText([]) == ""
  {
  }

  lemma CodeDecodes(n: Node, code: Node, text: string, language: Option<string>)
    requires HasShape(n, Pre, [], [code]) && code.Element? && code.tag == Tag.Code
    requires code.attrs == if language.Some? then map["class" := "language-" + language.value] else map[]
    requires language.Some? ==> LanguageText(language.value)
    requires TextOnlyChildren(code.children) && JoinText(code.children) == text
    ensures CodeOf(n) == Some(CodeBlock(text, language))
  {
    hide LanguageText, JoinText, TextOnlyChildren;
    ElementsOnlyAll([code]);
    if language.Some? { assert ("language-" + language.value)[9..] == language.value; }
  }

  lemma {:induction false} CodeRead(env: Env, text: string, language: Option<string>, ctx: seq<Tag>)
    requires ctx != [] && MayOpen(ctx[|ctx| - 1], Pre) && CleanText(text)
    requires language.Some? ==> LanguageText(language.value)
    ensures Stands(env, CodeNode(text, language), ctx, Tagged("pre", "", Tagged("code", CodeAttrs(language), Escape(text))))
    ensures CodeNode(text, language).tag == Pre && CodeNode(text, language).attrs == map[]
    ensures CodeOf(CodeNode(text, language)) == Some(CodeBlock(text, language))
  {
    hide Stands, AllStand, PlainNodes, CodeAttrs, AttrText, AttrMap, AttrsFine, TextOnlyChildren, Escape, MayOpen, CodeOf,
      CleanText, LanguageText, JoinText, Supported, WfAll, Sources, TagName, TagOf, Printed, Flow, PrintedText, El, LexOpen, OpenText;
    CodeGrammar();
    CodeTexts(language, text);
    var code := PrintedEl(Tag.Code, LanguagePairs(language), PlainNodes(text));
    var inner := Tagged("code", CodeAttrs(language), Escape(text));
    PlainStands(env, text, ctx + [Pre] + [Tag.Code]);
    LanguageFine(env, language);
    PrintedStands(env, Tag.Code, LanguagePairs(language), PlainNodes(text), ctx + [Pre], Escape(text));
    OneStands(env, code, ctx + [Pre], inner);
    NoAttrs(env, Pre);
    PrintedStands(env, Pre, [], [code], ctx, inner);
    var n := CodeNode(text, language);
    assert n.tag == Pre && n.attrs == map[] && code.Element? && code.tag == Tag.Code;
    assert code.children == PlainNodes(text);
    assert code.attrs == AttrMap(LanguagePairs(language), map[]);
    CodeDecodes(n, code, text, language);
  }

  const HR_PAIRS := [KeyValue("style", HR_STYLE)]

  const RULE_TEXT := "<hr" + Attribute("style", HR_STYLE) + " />"

  const HR_NODE := Element(Hr, map["style" := HR_STYLE], OpenText("hr", HR_PAIRS, " />"), [], "",
                           OpenText("hr", HR_PAIRS, " />"), false)

  lemma RuleRead(env: Env, ctx: seq<Tag>)
    requires env.safeStyle(HR_STYLE)
    requires ctx != [] && MayOpen(ctx[|ctx| - 1], Hr)
    ensures Stands(env, HR_NODE, ctx, RULE_TEXT)
  {
    hide LexOpen, OpenText, HR_STYLE, StructTrace, MayOpen, Trace.Clean, CleanText;
    RuleOpen(env);
    RuleClean();
    OpenStarts("hr", HR_PAIRS, " />");
    Opens(ctx, Hr);
    assert Sources([]) == "";
    assert !AnyUnsupportedText([]);
    assert WellOpened(env, HR_NODE);
    assert WellClosed(HR_NODE);
    assert Source(HR_NODE) == HR_NODE.open + "" + "";
    assert HR_NODE.raw == Source(HR_NODE);
    assert WfAll(env, [], ctx + [Hr]);
    assert Wf(env, HR_NODE, ctx);
    assert !Unsupported(HR_NODE);
  }

  lemma RuleClean()
    ensures CleanText(RULE_TEXT)
  {
    RuleStyle();
    hide HR_STYLE;
    assert CleanText("<hr") && CleanText(" style=\"") && CleanText("\"") && CleanText(" />");
  }

  lemma RuleText()
    ensures OpenText("hr", HR_PAIRS, " />") == RULE_TEXT
  {
    RuleStyle();
    OneAttrText("style", HR_STYLE);
    hide HR_STYLE, AttrText, Escape;
  }

  lemma RuleTag()
    ensures TagOf("hr") == Hr && NameText("hr")
  {
  }

  lemma RuleOpen(env: Env)
    requires env.safeStyle(HR_STYLE)
    ensures HR_NODE.open == RULE_TEXT
    ensures NO_FAULT.Clean() && HR_NODE.open == OpenText("hr", HR_PAIRS, " />")
    ensures LexOpen(env, OpenText("hr", HR_PAIRS, " />"))
         == OpenTag(NO_FAULT, Hr, TagRest(NO_FAULT, map["style" := HR_STYLE], false, |OpenText("hr", HR_PAIRS, " />")|))
  {
    hide AttrsFine, AttrTrace, CleanText, LexOpen, OpenText, HR_STYLE, NameText, TagOf, AttrMap;
    RuleStyle();
    RuleText();
    RuleTag();
    OneAttr(env, Hr, "style", HR_STYLE);
    OpenRead(env, "hr", HR_PAIRS, " />");
  }

  predicate StyleText(s: string) {
    forall i :: 0 <= i < |s| ==> ' ' <= s[i] <= 'z' && |EscapeChar(s[i])| == 1
  }

  lemma RuleStyle()
    ensures CleanText(HR_STYLE) && Escape(HR_STYLE) == HR_STYLE
  {
    hide CleanText, Escape, EscapeChar, StyleText;
    RuleStyleFront();
    RuleStyleBack();
    var front, back := "display:block;" + "border:0;" + "border-top:1px ", "solid currentColor;" + "height:0;" + "margin:1em 0";
    StyleBoth(front, back);
    assert HR_STYLE == front + back;
    StyleSafe(HR_STYLE);
  }

  lemma StyleBoth(a: string, b: string)
    requires StyleText(a) && StyleText(b)
    ensures StyleText(a + b)
  {
    hide EscapeChar;
  }

  lemma RuleStyleFront()
    ensures StyleText("display:block;" + "border:0;" + "border-top:1px ")
  {
    assert StyleText("display:block;");
    assert StyleText("border:0;");
    assert StyleText("border-top:1px ");
  }

  lemma RuleStyleBack()
    ensures StyleText("solid currentColor;" + "height:0;" + "margin:1em 0")
  {
    assert StyleText("solid currentColor;");
    assert StyleText("height:0;");
    assert StyleText("margin:1em 0");
  }

  lemma {:induction false} StyleSafe(s: string)
    requires StyleText(s)
    ensures CleanText(s) && Escape(s) == s
  {
    EscapePlain(s);
  }

  // ---------- Every leaf block ----------

  predicate Leaf(b: Block) { !HoldsBlocks(b) && !b.Opaque? && !b.Reference? }

  function HeadingTag(level: nat): Tag { if level == 1 then H1 else if level == 2 then H2 else H3 }

  function TitlePairs(title: Option<string>): seq<KeyValue> {
    if title == None || title.value == "" then [] else [KeyValue("data-title", title.value)]
  }

  function KindOr(kind: Option<ListKind>, k: ListKind): ListKind { if kind.Some? then kind.value else k }

  /** The element a leaf block is printed as. */
  function LeafNode(b: Block, k: ListKind): Node
    requires Leaf(b)
  {
    match b
    case Paragraph(inlines) => TextEl(P, inlines)
    case Heading(level, inlines) => TextEl(HeadingTag(level), inlines)
    case BulletList(items) => PrintedEl(Ul, [], ItemNodes(items))
    case OrderedList(items) => PrintedEl(Ol, [], ItemNodes(items))
    case TaskList(kind, title, tasks) =>
      PrintedEl(Ul, ClassPairs(KindClass(KindOr(kind, k))) + TitlePairs(title), TaskNodes(tasks, KindOr(kind, k)))
    case CodeBlock(text, language) => CodeNode(text, language)
    case Table(columns, rows) => TableNode(columns, rows)
    case HorizontalRule => HR_NODE
  }

  /** What the validator and the character scan have established of a leaf block. */
  predicate GoodLeaf(b: Block, topLevel: bool) {
    match b
    case Paragraph(inlines) => CleanRuns(inlines)
    case Heading(level, inlines) => CleanRuns(inlines) && 1 <= level <= 3
    case BulletList(items) => CleanItems(items) && NoContinuationItems(items)
    case OrderedList(items) => CleanItems(items) && NoContinuationItems(items)
    case TaskList(kind, title, tasks) =>
      && CleanTasks(tasks)
      && (title.Some? ==> kind == Some(RichTaskList) && CleanText(title.value) && (title.value == "" || topLevel))
    case CodeBlock(text, language) => CleanText(text)
    case Table(columns, rows) => AllClean(columns) && AllRowsClean(rows) && EvenRows(columns, rows)
    case _ => true
  }

  predicate BlockTag(tag: Tag) {
    TextParent(tag) || tag.Ul? || tag.Ol? || tag.Pre? || tag.Hr? || tag.Table? || tag.Div? || tag.Blockquote?
  }

  lemma BlockOpens(ctx: seq<Tag>, tag: Tag)
    requires PlainCtx(ctx) && BlockTag(tag)
    ensures MayOpen(ctx[|ctx| - 1], tag) && A !in ctx
  {
    var parent := ctx[|ctx| - 1];
    assert tag.Known() && !tag.A?;
    assert ChildAllowed(parent, tag);
    assert ParentAllowed(parent, tag);
  }

  ghost predicate LeafReads(env: Env, n: Node, b: Block, topLevel: bool) {
    n.Element? && ContainerOf(n) == None && LeafBlock(env, n, topLevel) == Dec(NO_FAULT, Some(b))
  }

  lemma {:induction false} TextDecodes(env: Env, n: Node, rs: seq<Inline>, top: bool)
    requires n.Element? && TextParent(n.tag) && n.attrs == map[]
    requires Inlines(env, n.children, []) == Dec(NO_FAULT, Some(rs))
    ensures LeafReads(env, n, TextBlock(n.tag, rs), top)
  {
    hide Inlines, TextBlock;
  }

  lemma {:induction false} ListDecodes(env: Env, n: Node, items: seq<ListItem>, top: bool)
    requires n.Element? && n.tag.List() && n.attrs == map[] && ElementsOnly(n.children)
    requires ItemsOf(env, n.children) == Dec(NO_FAULT, Some(items))
    ensures LeafReads(env, n, ListBlock(n.tag, items), top)
  {
    hide ItemsOf, ListBlock;
    ElementsOnlyAll(n.children);
    assert Words("") == [];
  }

  lemma {:induction false} TaskListDecodes(env: Env, n: Node, k: ListKind, ts: seq<TaskItem>, top: bool)
    requires n.Element? && n.tag == Ul && "class" in n.attrs && n.attrs["class"] == KindClass(k)
    requires n.attrs.Keys <= {"class", "data-title"} && ElementsOnly(n.children)
    requires "data-title" in n.attrs ==> k == RichTaskList && top && n.attrs["data-title"] != ""
    requires TasksOf(env, n.children, k) == Dec(NO_FAULT, Some(ts))
    ensures LeafReads(env, n, TaskList(Some(k), Attr(n, "data-title"), ts), top)
  {
    hide TasksOf, KindClass, KindOf;
    KindRead(n, k);
    ElementsOnlyAll(n.children);
  }

  lemma CodeTableDecodes(env: Env, n: Node, b: Block, top: bool)
    requires n.Element? && n.attrs == map[]
    requires (n.tag == Pre && CodeOf(n) == Some(b)) || (n.tag == Tag.Table && TableOf(n) == Some(b))
    ensures LeafReads(env, n, b, top)
  {
    hide CodeOf, TableOf;
  }

  lemma {:induction false} TextLeaf(env: Env, rs: seq<Inline>, tag: Tag, ctx: seq<Tag>, top: bool)
    requires RenderInlines(env, rs).Ok? && CleanRuns(rs) && TextParent(tag) && PlainCtx(ctx)
    ensures Stands(env, TextEl(tag, rs), ctx, PrintedText(tag, "", RenderInlines(env, rs).value))
    ensures LeafReads(env, TextEl(tag, rs), TextBlock(tag, CanonRuns(rs)), top)
  {
    hide MayOpen, Stands, LeafReads, NO_FAULT, CleanRuns, RenderInlines;
    assert BlockTag(tag) && ctx != [];
    BlockOpens(ctx, tag);
    TextElRead(env, tag, rs, ctx);
    var n := TextEl(tag, rs);
    assert n.Element? && n.tag == tag && n.attrs == map[] && n.children == RunNodes(CanonRuns(rs));
    TextDecodes(env, n, CanonRuns(rs), top);
  }

  lemma {:induction false} ListLeaf(env: Env, items: seq<ListItem>, tag: Tag, k: ListKind,
                                  payloads: map<string, string>, ctx: seq<Tag>, top: bool)
    requires RenderItems(env, items, k, payloads).Ok? && NoContinuationItems(items) && CleanItems(items)
    requires tag == Ul || tag == Ol
    requires PlainCtx(ctx)
    ensures var n := PrintedEl(tag, [], ItemNodes(items));
            && Stands(env, n, ctx, Tagged(TagName(tag), "", RenderItems(env, items, k, payloads).value))
            && LeafReads(env, n, ListBlock(tag, CanonItems(items, k)), top)
  {
    hide TableTag, CanonItems, NoContinuationItems, PrintedEl, MayOpen, Stands, AllStand, TextParent, CleanItems,
      ElementsOnly, LeafReads, AttrText, AttrMap, AttrsFine, ItemsOf, ListBlock, TagName, NO_FAULT, Tagged,
      RenderItems;
    assert BlockTag(tag) && ctx != [] && tag.List();
    BlockOpens(ctx, tag);
    ListGrammar();
    ItemsRead(env, items, k, payloads, ctx + [tag]);
    NoAttrs(env, tag);
    PrintedStands(env, tag, [], ItemNodes(items), ctx, RenderItems(env, items, k, payloads).value);
    var n := PrintedEl(tag, [], ItemNodes(items));
    assert n.Element? && n.tag == tag && n.attrs == map[] && n.children == ItemNodes(items);
    ListDecodes(env, n, CanonItems(items, k), top);
  }

  function TitleAttr(title: Option<string>): string {
    if title == None || title.value == "" then "" else Attribute("data-title", Escape(title.value))
  }

  lemma {:induction false} TwoAttrs(env: Env, tag: Tag, a: KeyValue, b: KeyValue)
    requires NameText(a.key) && NameText(b.key)
    requires AttrTrace(env, tag, {}, a.key, Escape(a.value)).Clean()
    requires AttrTrace(env, tag, {} + {a.key}, b.key, Escape(b.value)).Clean()
    ensures AttrsFine(env, tag, [a, b], {})
  {
    hide AttrTrace, Escape, NameText;
    var none: seq<KeyValue> := [];
    assert AttrsFine(env, tag, none, {} + {a.key} + {b.key});
    assert [a, b][1..] == [b] && [b][1..] == none;
  }

  lemma TwoAttrsText(a: KeyValue, b: KeyValue)
    ensures AttrText([a, b]) == AttrText([a]) + AttrText([b])
  {
    hide Escape;
    var none: seq<KeyValue> := [];
    assert AttrText(none) == "";
    assert [a, b][1..] == [b] && [b][1..] == none && [a][1..] == none;
    assert AttrText([b]) == AttrText([b]) + "";
    assert AttrText([a, b]) == Attribute(a.key, Escape(a.value)) + AttrText([b]);
  }

  lemma TwoAttrsMap(a: KeyValue, b: KeyValue)
    ensures AttrMap([a, b], map[]) == map[a.key := a.value][b.key := b.value]
  {
    var none: seq<KeyValue> := [];
    assert [a, b][1..] == [b] && [b][1..] == none;
    var one: Attrs := map[a.key := a.value];
    assert AttrMap(none, one[b.key := b.value]) == one[b.key := b.value];
    assert AttrMap([b], one) == one[b.key := b.value];
  }

  lemma {:induction false} TitleFine(env: Env, title: Option<string>, k: ListKind)
    requires title.Some? ==> CleanText(title.value)
    ensures var ps := ClassPairs(KindClass(k)) + TitlePairs(title);
            var attrs := AttrMap(ps, map[]);
            && AttrsFine(env, Ul, ps, {})
            && AttrText(ps) == Attribute("class", KindClass(k)) + TitleAttr(title)
            && "class" in attrs && attrs["class"] == KindClass(k)
            && attrs.Keys <= {"class", "data-title"}
            && (if "data-title" in attrs then Some(attrs["data-title"]) else None)
               == if title == Some("") then None else title
  {
    hide KindClass, CleanText, Escape, AttrTrace, AttrsFine, AttrText, AttrMap, NameText, Attribute, ClassText;
    var classText := ClassPairs(KindClass(k));
    ItemClassSolid(k);
    ClassPairsFine(env, Ul, KindClass(k));
    if TitlePairs(title) == [] {
      assert classText + TitlePairs(title) == classText;
      assert Attribute("class", KindClass(k)) + "" == Attribute("class", KindClass(k));
    } else {
      ClassFineOnly(env, k);
      TitleFineOnly(env, title.value);
      TwoAttrs(env, Ul, KeyValue("class", KindClass(k)), KeyValue("data-title", title.value));
      TwoAttrsMap(KeyValue("class", KindClass(k)), KeyValue("data-title", title.value));
      TwoAttrsText(KeyValue("class", KindClass(k)), KeyValue("data-title", title.value));
      OneAttrText("data-title", title.value);
      assert classText + TitlePairs(title) == [KeyValue("class", KindClass(k)), KeyValue("data-title", title.value)];
    }
  }

  lemma ClassFineOnly(env: Env, k: ListKind)
    ensures NameText("class") && AttrTrace(env, Ul, {}, "class", Escape(KindClass(k))).Clean()
  {
    hide CleanText, Escape, AttrTrace, ActiveAttr;
    ItemClassSolid(k);
    ClassTextSafe(KindClass(k));
    NotActive("class");
    AttrFine(env, Ul, {}, "class", KindClass(k));
  }

  lemma {:induction false} TitleFineOnly(env: Env, title: string)
    requires CleanText(title)
    ensures NameText("data-title")
    ensures AttrTrace(env, Ul, {} + {"class"}, "data-title", Escape(title)).Clean()
  {
    hide CleanText, Escape, AttrTrace, ActiveAttr;
    var key := "data-title";
    assert key[5..] == "title";
    assert StartsWith(key, "data-");
    assert IsDataName(key, "data-");
    NotActive(key);
    AttrFine(env, Ul, {} + {"class"}, key, title);
  }

  lemma {:induction false} TaskLeaf(env: Env, title: Option<string>, tasks: seq<TaskItem>, k: ListKind,
                                    ctx: seq<Tag>, top: bool)
    requires RenderTaskItems(env, tasks, k).Ok? && CleanTasks(tasks) && PlainCtx(ctx)
    requires title.Some? ==> k == RichTaskList && CleanText(title.value) && (title.value == "" || top)
    ensures var n := PrintedEl(Ul, ClassPairs(KindClass(k)) + TitlePairs(title), TaskNodes(tasks, k));
            && Stands(env, n, ctx, Tagged("ul", Attribute("class", KindClass(k)) + TitleAttr(title), RenderTaskItems(env, tasks, k).value))
            && LeafReads(env, n, TaskList(Some(k), if title == Some("") then None else title, CanonTasks(tasks)), top)
  {
    hide CanonTasks, Printed, PrintedEl, MayOpen, Stands, AllStand, TextParent, ElementsOnly, ClassPairs, TaskNodes,
      CleanTasks, TitlePairs, LeafReads, TitleAttr, AttrText, AttrsFine, KindClass, TasksOf, Tagged, RenderTaskItems;
    assert BlockTag(Ul) && ctx != [] && TaskCtx(ctx + [Ul]) by { BlockOpens(ctx, Ul);}
    BlockOpens(ctx, Ul);
    ListGrammar();
    TaskNodesRead(env, tasks, k, ctx + [Ul]);
    TitleFine(env, title, k);
    var ps := ClassPairs(KindClass(k)) + TitlePairs(title);
    PrintedStands(env, Ul, ps, TaskNodes(tasks, k), ctx, RenderTaskItems(env, tasks, k).value);
    var n := PrintedEl(Ul, ps, TaskNodes(tasks, k));
    assert n.Element? && n.tag == Ul && n.attrs == AttrMap(ps, map[]) && n.children == TaskNodes(tasks, k);
    TaskListDecodes(env, n, k, CanonTasks(tasks), top);
  }

  lemma {:induction false} CodeLeaf(env: Env, text: string, language: Option<string>, ctx: seq<Tag>, top: bool)
    requires CleanText(text) && PlainCtx(ctx) && (language.Some? ==> LanguageText(language.value))
    ensures Stands(env, CodeNode(text, language), ctx, Tagged("pre", "", Tagged("code", CodeAttrs(language), Escape(text))))
    ensures LeafReads(env, CodeNode(text, language), CodeBlock(text, language), top)
  {
    hide LeafReads, Wf;
    assert BlockTag(Pre) && ctx != [];
    BlockOpens(ctx, Pre);
    CodeRead(env, text, language, ctx);
    assert CodeNode(text, language).Element?;
    CodeTableDecodes(env, CodeNode(text, language), CodeBlock(text, language), top);
  }

  lemma TableLeaf(env: Env, columns: seq<string>, rows: seq<seq<string>>, ctx: seq<Tag>, top: bool)
    requires AllClean(columns) && AllRowsClean(rows) && columns != [] && EvenRows(columns, rows) && PlainCtx(ctx)
    ensures Stands(env, TableNode(columns, rows), ctx, TableText(columns, rows))
    ensures LeafReads(env, TableNode(columns, rows), Block.Table(columns, rows), top)
  {
    hide MayOpen, AllClean, TableText, LeafReads, TableOf, CodeOf, Source, Wf;
    assert BlockTag(Tag.Table) && ctx != [];
    BlockOpens(ctx, Tag.Table);
    TableRead(env, columns, rows, ctx);
    assert TableNode(columns, rows).Element?;
    CodeTableDecodes(env, TableNode(columns, rows), Block.Table(columns, rows), top);
  }

  lemma RuleLeaf(env: Env, ctx: seq<Tag>, top: bool)
    requires env.safeStyle(HR_STYLE) && PlainCtx(ctx)
    ensures Stands(env, HR_NODE, ctx, RULE_TEXT)
    ensures LeafReads(env, HR_NODE, HorizontalRule, top)
  {
    hide Stands;
    assert BlockTag(Hr) && ctx != [];
    BlockOpens(ctx, Hr);
    RuleRead(env, ctx);
  }

  /** A leaf block is printed as its node, which may stand in any block container and is read
      back there as the block's canonical form. */
  lemma {:induction false} LeafRead(env: Env, b: Block, k: ListKind, payloads: map<string, string>, ctx: seq<Tag>,
                                    top: bool)
    requires Leaf(b) && RenderBlock(env, b, Fresh, k, payloads).Ok?
    requires GoodLeaf(b, top) && PlainCtx(ctx) && env.safeStyle(HR_STYLE)
    ensures Stands(env, LeafNode(b, k), ctx, RenderBlock(env, b, Fresh, k, payloads).value)
    ensures LeafReads(env, LeafNode(b, k), CanonBlock(b, k), top)
  {
    hide Stands, LeafReads, PlainCtx, RenderInlines, RenderItems, RenderTaskItems, CanonRuns, HR_STYLE, HR_NODE,
      TextEl, TableNode, CodeNode, PrintedEl, ItemNodes, TaskNodes, Tagged, CleanText, CleanTasks, LanguageText,
      ClassPairs, KindClass, Cells, Rows, EvenRows, Attribute, Escape, AllClean;
    match b
    case Paragraph(inlines) => TextLeaf(env, inlines, P, ctx, top);
    case Heading(level, inlines) => TextLeaf(env, inlines, HeadingTag(level), ctx, top);
    case BulletList(items) => ListLeaf(env, items, Ul, k, payloads, ctx, top);
    case OrderedList(items) => ListLeaf(env, items, Ol, k, payloads, ctx, top);
    case TaskList(kind, title, tasks) => TaskLeaf(env, title, tasks, KindOr(kind, k), ctx, top);
    case CodeBlock(text, language) =>
      CodeLeaf(env, text, language, ctx, top);
    case Table(columns, rows) => TableLeaf(env, columns, rows, ctx, top);
    case HorizontalRule => RuleLeaf(env, ctx, top);
  }
}
