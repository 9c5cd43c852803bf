/** The main results about the native codec: an edited document survives a write and a read, its
    preserved regions are carried over byte for byte, and a document written without a context
    is read back in canonical form. */
module NativeRoundTrip {
  import opened Text
  import opened NativeFaults
  import opened NativeHtml
  import opened NativeHtmlTheory
  import opened NoteDocument
  import opened NativeDecode
  import opened NativeSerialize
  import opened NativeCanon
  import opened NativeInline
  import opened NativeBlocks
  import opened NativeRegions
  import opened NativeMerge

  // ---------- What serializing has checked of a document ----------

  predicate EachClean(ss: seq<string>) { forall i :: 0 <= i < |ss| ==> CleanText(ss[i]) }

  lemma {:induction false} StringsClean(ss: seq<string>)
    requires CleanStrings(ss).Ok?
    ensures EachClean(ss)
  {
    hide CleanText, CleanTrace;
    if ss != [] {
      assert CleanTrace(ss[0]).Clean();
      StringsClean(ss[1..]);
    }
  }

  lemma EachCleanSplit(a: seq<string>, b: seq<string>)
    requires EachClean(a + b)
    ensures EachClean(a) && EachClean(b)
  {
    hide CleanText;
    forall i | 0 <= i < |a| ensures CleanText(a[i]) { assert (a + b)[i] == a[i]; }
    forall i | 0 <= i < |b| ensures CleanText(b[i]) { assert (a + b)[|a| + i] == b[i]; }
  }

  lemma {:induction false} RunsChecked(rs: seq<Inline>)
    requires EachClean(RunStrings(rs))
    ensures CleanRuns(rs)
  {
    hide CleanText, MarkStrings;
    if rs != [] {
      var head, links, tail := [rs[0].text], MarkStrings(MarksOf(rs[0])), RunStrings(rs[1..]);
      EachCleanSplit(head + links, tail);
      EachCleanSplit(head, links);
      assert CleanText(head[0]);
      RunsChecked(rs[1..]);
    }
  }

  lemma {:induction false} TasksChecked(ts: seq<TaskItem>)
    requires EachClean(TaskStrings(ts))
    ensures CleanTasks(ts)
  {
    hide EachClean, CleanRuns;
    if ts != [] {
      var a, b, c := RunStrings(ts[0].inlines), TaskStrings(ts[0].children), TaskStrings(ts[1..]);
      EachCleanSplit(a + b, c);
      EachCleanSplit(a, b);
      RunsChecked(ts[0].inlines);
      TasksChecked(ts[0].children);
      TasksChecked(ts[1..]);
    }
  }

  lemma {:induction false} ItemsChecked(items: seq<ListItem>)
    requires EachClean(ItemStrings(items))
    ensures CleanItems(items)
  {
    hide EachClean, CleanRuns;
    if items != [] {
      var a := RunStrings(items[0].inlines);
      var b := match items[0] case ItemWith(_, bs) => Strings(bs) case Item(_) => [];
      var c := ItemStrings(items[1..]);
      EachCleanSplit(a + b, c);
      EachCleanSplit(a, b);
      RunsChecked(items[0].inlines);
      ItemsChecked(items[1..]);
    }
  }

  lemma {:induction false} RowsChecked(rows: seq<seq<string>>)
    requires EachClean(AllOf(rows))
    ensures AllRowsClean(rows)
  {
    if rows != [] {
      EachCleanSplit(rows[0], AllOf(rows[1..]));
      RowsChecked(rows[1..]);
      assert AllClean(rows[0]);
    }
  }

  lemma {:induction false} LeafChecked(b: Block, depth: nat)
    requires Leaf(b) && NoContinuationIn(b)
    requires CheckContent(b, depth) == None && EachClean(BlockStrings(b))
    ensures GoodLeaf(b, depth == 1)
  {
    hide CleanText, CleanRuns, RunStrings, TaskStrings, ItemStrings, AllOf, CheckInlines, CheckItems, CheckTasks,
      CleanTasks, CleanItems, AllRowsClean, TitleText, JsonBytes;
    match b
    case Paragraph(inlines) => RunsChecked(inlines);
    case Heading(_, inlines) => RunsChecked(inlines);
    case BulletList(items) => ItemsChecked(items);
    case OrderedList(items) => ItemsChecked(items);
    case TaskList(_, title, tasks) =>
      EachCleanSplit(if title.Some? then [title.value] else [], TaskStrings(tasks));
      TasksChecked(tasks);
      if title.Some? { assert [title.value][0] == title.value; }
    case CodeBlock(text, language) =>
      EachCleanSplit([text], if language.Some? then [language.value] else []);
      assert [text][0] == text;
    case Table(columns, rows) =>
      EachCleanSplit(columns, AllOf(rows));
      RowsChecked(rows);
    case HorizontalRule =>
  }

  lemma {:induction false} BlockChecked(b: Block, depth: nat)
    requires CheckContent(b, depth) == None && EachClean(BlockStrings(b)) && NoContinuationIn(b) && depth > 0
    ensures GoodBlock(b, depth == 1)
    decreases b, 0
  {
    hide EachClean, GoodLeaf, CheckEach;
    match b
    case Blockquote(blocks) => BlocksChecked(blocks, depth + 1);
    case Callout(_, blocks) => BlocksChecked(blocks, depth + 1);
    case Opaque(_, _) =>
    case Reference(_) =>
    case _ => LeafChecked(b, depth);
  }

  lemma {:induction false} BlocksChecked(bs: seq<Block>, depth: nat)
    requires CheckEach(bs, depth) == None && EachClean(Strings(bs)) && NoContinuation(bs) && depth > 0
    ensures GoodBlocks(bs, depth == 1)
    decreases bs, 1
  {
    hide EachClean, CheckContent, BlockStrings, GoodBlock, JsonBytes, BlockJson;
    if bs != [] {
      EachCleanSplit(BlockStrings(bs[0]), Strings(bs[1..]));
      BlockChecked(bs[0], depth);
      BlocksChecked(bs[1..], depth);
    }
  }

  // ---------- Canonical form keeps the references ----------

  lemma {:induction false} CanonPlaceholders(bs: seq<Block>, k: ListKind)
    ensures Placeholders(Canon(bs, k)) == Placeholders(bs)
    decreases bs, 1
  {
    hide CanonRuns, CanonTasks;
    if bs != [] {
      CanonPlaceholdersIn(bs[0], k);
      CanonPlaceholders(bs[1..], k);
      assert ([CanonBlock(bs[0], k)] + Canon(bs[1..], k))[1..] == Canon(bs[1..], k);
    }
  }

  lemma {:induction false} CanonPlaceholdersIn(b: Block, k: ListKind)
    ensures PlaceholdersIn(CanonBlock(b, k)) == PlaceholdersIn(b)
    decreases b, 0
  {
    hide CanonRuns, CanonTasks;
    match b
    case Blockquote(blocks) => CanonPlaceholders(blocks, k);
    case Callout(_, blocks) => CanonPlaceholders(blocks, k);
    case BulletList(items) => CanonPlaceholdersItems(items, k);
    case OrderedList(items) => CanonPlaceholdersItems(items, k);
    case _ =>
  }

  lemma {:induction false} CanonPlaceholdersItems(items: seq<ListItem>, k: ListKind)
    ensures ItemPlaceholders(CanonItems(items, k)) == ItemPlaceholders(items)
    decreases items, 0
  {
    hide CanonRuns, CanonTasks;
    if items != [] {
      var c := CanonItems(items, k);
      assert c[1..] == CanonItems(items[1..], k);
      CanonPlaceholdersItems(items[1..], k);
      if items[0].ItemWith? { CanonPlaceholders(items[0].blocks, k); }
    }
  }

  function RefTokens(rs: seq<Ref>): (ts: seq<string>)
    ensures |ts| == |rs|
  {
    seq(|rs|, i requires 0 <= i < |rs| => rs[i].sentinel.token)
  }

  lemma RefTokensOf(a: seq<Ref>, b: seq<Ref>)
    ensures RefTokens(a + b) == RefTokens(a) + RefTokens(b)
  {
  }

  lemma {:induction false} RefsArePlaceholders(bs: seq<Block>, chain: seq<Link>, seen: map<ContainerKey, nat>)
    ensures RefTokens(Refs(bs, chain, seen)) == Placeholders(bs)
    decreases bs, 1
  {
    if bs == [] {
      assert RefTokens([]) == [];
    } else {
      assert [bs[0]] + bs[1..] == bs;
      RefsStep(bs[0], bs[1..], chain, seen);
      RefTokensOf(BlockRefs(bs[0], chain, InsideOf(bs[0], chain, seen)), Refs(bs[1..], chain, SeenAfter(bs[0], seen)));
      RefsArePlaceholdersIn(bs[0], chain, InsideOf(bs[0], chain, seen));
      RefsArePlaceholders(bs[1..], chain, SeenAfter(bs[0], seen));
    }
  }

  lemma {:induction false} RefsArePlaceholdersIn(b: Block, chain: seq<Link>, inside: seq<Link>)
    ensures RefTokens(BlockRefs(b, chain, inside)) == PlaceholdersIn(b)
    decreases b, 1
  {
    hide Refs, Placeholders;
    match b
    case Blockquote(blocks) => RefsArePlaceholders(blocks, inside, map[]);
    case Callout(_, blocks) => RefsArePlaceholders(blocks, inside, map[]);
    case BulletList(items) => RefsArePlaceholdersItems(items, inside);
    case OrderedList(items) => RefsArePlaceholdersItems(items, inside);
    case _ =>
  }

  lemma {:induction false} RefsArePlaceholdersItems(items: seq<ListItem>, chain: seq<Link>)
    ensures RefTokens(ItemRefs(items, chain)) == ItemPlaceholders(items)
    decreases items, 1
  {
    if items == [] {
      assert RefTokens([]) == [];
    } else {
      var here := match items[0] case ItemWith(_, blocks) => Refs(blocks, chain, map[]) case Item(_) => [];
      RefTokensOf(here, ItemRefs(items[1..], chain));
      if items[0].ItemWith? { RefsArePlaceholders(items[0].blocks, chain, map[]); }
      else { assert RefTokens([]) == []; }
      RefsArePlaceholdersItems(items[1..], chain);
    }
  }

  lemma {:induction false} CanonRefs(bs: seq<Block>, k: ListKind, chain: seq<Link>, seen: map<ContainerKey, nat>)
    ensures Refs(Canon(bs, k), chain, seen) == Refs(bs, chain, seen)
    decreases bs, 1
  {
    hide BlockRefs;
    if bs != [] {
      assert [bs[0]] + bs[1..] == bs;
      RefsStep(bs[0], bs[1..], chain, seen);
      RefsStep(CanonBlock(bs[0], k), Canon(bs[1..], k), chain, seen);
      assert KeyOf(CanonBlock(bs[0], k)) == KeyOf(bs[0]);
      CanonRefsIn(bs[0], k, chain, InsideOf(bs[0], chain, seen));
      CanonRefs(bs[1..], k, chain, SeenAfter(bs[0], seen));
    }
  }

  lemma {:induction false} CanonRefsIn(b: Block, k: ListKind, chain: seq<Link>, inside: seq<Link>)
    ensures BlockRefs(CanonBlock(b, k), chain, inside) == BlockRefs(b, chain, inside)
    decreases b, 1
  {
    hide Refs, CanonRuns, CanonTasks, Canon;
    match b
    case Blockquote(blocks) => CanonRefs(blocks, k, inside, map[]);
    case Callout(_, blocks) => CanonRefs(blocks, k, inside, map[]);
    case BulletList(items) => CanonRefsItems(items, k, inside);
    case OrderedList(items) => CanonRefsItems(items, k, inside);
    case _ =>
  }

  lemma {:induction false} CanonRefsItems(items: seq<ListItem>, k: ListKind, chain: seq<Link>)
    ensures ItemRefs(CanonItems(items, k), chain) == ItemRefs(items, chain)
    decreases items, 1
  {
    if items != [] {
      var c := CanonItems(items, k);
      assert c[1..] == CanonItems(items[1..], k);
      CanonRefsItems(items[1..], k, chain);
      if items[0].ItemWith? {
        CanonRefs(items[0].blocks, k, chain, map[]);
        assert Refs([], chain, map[]) == [];
      }
    }
  }

  /** References without their tokens: what is left is the container chain and the node type. */
  function Places(rs: seq<Ref>): (ps: seq<Ref>)
    ensures |ps| == |rs|
  {
    seq(|rs|, i requires 0 <= i < |rs| => rs[i].(sentinel := rs[i].sentinel.(token := "")))
  }

  lemma PlacesOf(a: seq<Ref>, b: seq<Ref>)
    ensures Places(a + b) == Places(a) + Places(b)
  {
  }

  lemma {:induction false} EraseKey(b: Block)
    ensures KeyOf(EraseIn(b)) == KeyOf(b)
  {
  }

  lemma {:induction false} EraseRefs(bs: seq<Block>, chain: seq<Link>, seen: map<ContainerKey, nat>)
    ensures Refs(Erase(bs), chain, seen) == Places(Refs(bs, chain, seen))
    decreases bs, 1
  {
    hide BlockRefs, ItemRefs, EraseIn, EraseItems, KeyOf, Seen;
    if bs == [] {
      assert Places([]) == [];
    } else {
      assert [bs[0]] + bs[1..] == bs;
      RefsStep(bs[0], bs[1..], chain, seen);
      RefsStep(EraseIn(bs[0]), Erase(bs[1..]), chain, seen);
      EraseKey(bs[0]);
      EraseRefsIn(bs[0], chain, InsideOf(bs[0], chain, seen));
      EraseRefs(bs[1..], chain, SeenAfter(bs[0], seen));
      PlacesOf(BlockRefs(bs[0], chain, InsideOf(bs[0], chain, seen)), Refs(bs[1..], chain, SeenAfter(bs[0], seen)));
    }
  }

  lemma {:induction false} EraseRefsIn(b: Block, chain: seq<Link>, inside: seq<Link>)
    ensures BlockRefs(EraseIn(b), chain, inside) == Places(BlockRefs(b, chain, inside))
    decreases b, 1
  {
    hide Refs, Erase;
    match b
    case Blockquote(blocks) => EraseRefs(blocks, inside, map[]);
    case Callout(_, blocks) => EraseRefs(blocks, inside, map[]);
    case BulletList(items) => EraseRefsItems(items, inside);
    case OrderedList(items) => EraseRefsItems(items, inside);
    case _ =>
  }

  lemma {:induction false} EraseRefsItems(items: seq<ListItem>, chain: seq<Link>)
    ensures ItemRefs(EraseItems(items), chain) == Places(ItemRefs(items, chain))
    decreases items, 1
  {
    if items == [] {
      assert Places([]) == [];
    } else {
      var e := EraseItems(items);
      assert e[1..] == EraseItems(items[1..]);
      var here := match items[0] case ItemWith(_, blocks) => Refs(blocks, chain, map[]) case Item(_) => [];
      PlacesOf(here, ItemRefs(items[1..], chain));
      if items[0].ItemWith? { EraseRefs(items[0].blocks, chain, map[]); }
      else { assert Places([]) == []; }
      EraseRefsItems(items[1..], chain);
    }
  }

  // ---------- What an accepted decode establishes ----------

  /** Nothing but a clean trace accepts, and a decode is clean when all its parts are. */
  lemma DecodeClean(env: Env, stored: Stored, b: Binding)
    ensures DecodeTrace(env, stored, b).Clean()
       <==> BindingTrace(b).Clean() && EnvelopeTrace(stored).Clean() && ParseOf(env, stored.data).trace.Clean()
            && BodyTrace(env, stored, b, ParseOf(env, stored.data).nodes).Clean()
  {
    hide BindingTrace, EnvelopeTrace, ParseOf, BodyTrace;
  }

  lemma {:induction false} BodyClean(env: Env, stored: Stored, b: Binding, nodes: seq<Node>)
    ensures BodyTrace(env, stored, b, nodes).Clean()
       <==> !StrayText(nodes) && (ElementsOf(nodes) != [] || Blank(stored.data)) && !StrayText(Content(nodes))
            && DecodeNodes(env, b, Content(nodes), 0, true).0.Clean()
            && Validate(DecodeNodes(env, b, Content(nodes), 0, true).1.blocks) == None
            && DistinctTokens(References(DecodeNodes(env, b, Content(nodes), 0, true).1.blocks))
  {
    hide DecodeNodes;
  }

  /** A well-formed forest with this source. */
  ghost predicate IsForest(env: Env, html: string, ns: seq<Node>) {
    WfAll(env, ns, [Root]) && Sources(ns) == html && CleanText(html)
  }

  predicate WithinLimits(ns: seq<Node>) {
    TokensOf(ns) <= LIMITS.tokens && (ns != [] ==> 1 + HeightOf(ns) <= LIMITS.open)
  }

  /** A well-formed source is read as its forest unless the forest exceeds the parser's bounds. */
  lemma ForestParses(env: Env, html: string, ns: seq<Node>)
    requires IsForest(env, html, ns)
    ensures ParseOf(env, html).trace.Clean() <==> WithinLimits(ns)
    ensures WithinLimits(ns) ==> ParseOf(env, html) == Parse(NO_FAULT, ns)
  {
    hide ParseOf, WfAll, Sources, CleanText;
    ParserCharacterised(env, html, ns);
    var parsed := ParseOf(env, html);
    if parsed.trace.Clean() {
      ParserCharacterised(env, html, parsed.nodes);
      SourcesInjective(env, ns, parsed.nodes);
    }
  }

  lemma ParsedForest(env: Env, html: string)
    requires ParseOf(env, html).trace.Clean()
    ensures IsForest(env, html, ParseOf(env, html).nodes) && WithinLimits(ParseOf(env, html).nodes)
  {
    hide ParseOf;
    ParserCharacterised(env, html, ParseOf(env, html).nodes);
  }

  lemma {:induction false} ElementsGiven(env: Env, ns: seq<Node>)
    requires WfAll(env, ns, [Root]) && CleanText(Sources(ns))
    ensures WfAll(env, ElementsOf(ns), [Root]) && CleanText(Sources(ElementsOf(ns)))
  {
    hide Wf, CleanText, Source;
    if ns == [] {
      assert ElementsOf(ns) == [];
    } else {
      CleanFirst(ns);
      ElementsGiven(env, ns[1..]);
      var rest := ElementsOf(ns[1..]);
      if ns[0].Element? { CleanFirst([ns[0]] + rest); assert ([ns[0]] + rest)[1..] == rest; }
      else { assert ElementsOf(ns) == [] + rest == rest; }
    }
  }

  lemma {:induction false} MemberWf(env: Env, ns: seq<Node>, n: Node, ctx: seq<Tag>)
    requires ctx != [] && WfAll(env, ns, ctx) && CleanText(Sources(ns)) && n in ns
    ensures Wf(env, n, ctx) && CleanText(Source(n))
  {
    hide Wf, CleanText, Source;
    CleanFirst(ns);
    if n != ns[0] { MemberWf(env, ns[1..], n, ctx); }
  }

  /** What the decoder is given is well-formed wherever blocks may stand. */
  lemma ContentGiven(env: Env, html: string, nodes: seq<Node>) returns (ctx: seq<Tag>)
    requires IsForest(env, html, nodes)
    ensures Given(env, Content(nodes), ctx, true)
  {
    hide Wf, WfAll, Sources, Source, CleanText, Supported, ElementsOf;
    var n := ContainerElement(nodes);
    if n.Some? {
      ctx := [Root, Div];
      MemberWf(env, nodes, n.value, [Root]);
      ContainerInside(env, n.value);
    } else {
      ctx := [Root];
      ElementsGiven(env, nodes);
    }
  }

  lemma {:induction false} ContainerInside(env: Env, n: Node)
    requires n.Element? && n.tag == Div && Wf(env, n, [Root]) && CleanText(Source(n))
    ensures WfAll(env, n.children, [Root, Div]) && CleanText(Sources(n.children)) && CleanText(n.open)
  {
    hide WfAll, StructTrace, WellOpened, WellClosed, CleanText;
    CleanParts(n);
    assert [Root] + [Div] == [Root, Div];
  }

  // ---------- The context's payloads ----------

  predicate Distinct(ts: seq<string>) { forall i, j :: 0 <= i < j < |ts| ==> ts[i] != ts[j] }

  lemma {:induction false} PayloadsKept(env: Env, b: Binding, regions: seq<string>)
    requires Distinct(TokenList(env, b, 0, regions))
    ensures Kept(env, b, 0, regions, Payloads(env, b, regions))
  {
    if regions != [] {
      var n := |regions| - 1;
      var before, all := TokenList(env, b, 0, regions[..n]), TokenList(env, b, 0, regions);
      assert forall i :: 0 <= i < n ==> before[i] == all[i];
      PayloadsKept(env, b, regions[..n]);
      var payloads := Payloads(env, b, regions);
      forall i | 0 <= i < |regions| ensures all[i] in payloads && payloads[all[i]] == regions[i] {
        if i < n { assert before[i] in Payloads(env, b, regions[..n]); assert all[i] != all[n]; }
      }
    }
  }

  lemma DistinctRefs(rs: seq<Ref>)
    ensures DistinctTokens(rs) <==> Distinct(RefTokens(rs))
  {
    var ts := RefTokens(rs);
    assert forall i :: 0 <= i < |rs| ==> ts[i] == rs[i].sentinel.token;
  }

  // ---------- Reading a forest ----------

  lemma {:induction false} JsonCoversUtf8(s: string)
    ensures Utf8(s) <= JsonStringBytes(s)
  {
    if s != "" { JsonCoversUtf8(s[1..]); }
  }

  lemma WithinEnvelope(stored: Stored)
    requires WithinBytes(stored) && CleanText(stored.data)
    ensures EnvelopeTrace(stored).Clean()
  {
    JsonCoversUtf8(stored.data);
    var fields := [Field("type", JStr(TypeName(stored))), Field("data", JStr(stored.data))];
    hide JsonStringBytes, Utf8, CleanText, CleanTrace;
    assert fields[1..] == [fields[1]];
    assert JsonFieldsBytes(fields[1..]) >= JsonStringBytes(stored.data);
    assert JsonBytes(JObj(fields)) >= JsonStringBytes(stored.data);
    Utf8Bound(TypeName(stored));
  }

  lemma {:induction false} Utf8Bound(s: string)
    ensures Utf8(s) <= 4 * |s|
  {
    if s != "" { Utf8Bound(s[1..]); }
  }

  /** What this forest decodes to but for its placeholders: a document and its regions. */
  ghost predicate Holds(env: Env, forest: seq<Node>, doc: seq<Block>, regions: seq<string>) {
    && !StrayText(forest) && !StrayText(Content(forest))
    && var (t, d) := DecodeNodes(env, NO_BINDING, Content(forest), 0, true);
       t == NO_FAULT && Erase(d.blocks) == Erase(doc) && d.regions == regions
  }

  /** `again` is `doc` with the placeholders this binding gives these regions. */
  ghost predicate Renamed(env: Env, b: Binding, again: seq<Block>, doc: seq<Block>, regions: seq<string>) {
    Erase(again) == Erase(doc) && Placeholders(again) == TokenList(env, b, 0, regions)
  }

  lemma Redecode(env: Env, out: Stored, forest: seq<Node>, b: Binding, doc: seq<Block>,
                 regions: seq<string>) returns (again: seq<Block>)
    requires IsForest(env, out.data, forest) && WithinBytes(out)
    requires Holds(env, forest, doc, regions) && (ElementsOf(forest) != [] || Blank(out.data))
    ensures Renamed(env, b, again, doc, regions)
    ensures var outcome := Decode(env, out, b);
            && (outcome.Accepted? <==>
                  BindingTrace(b).Clean() && WithinLimits(forest) && Validate(again) == None && Distinct(TokenList(env, b, 0, regions)))
            && (outcome.Accepted? ==> outcome.document == again && outcome.context.regions == regions)
  {
    hide BindingTrace, ParseOf, StrayText, ElementsOf, Content, DecodeNodes, Validate, Refs, Erase, Placeholders,
      TokenList, WfAll, Blank, WithinBytes, Distinct;
    var content := Content(forest);
    var (t, d) := DecodeNodes(env, b, content, 0, true);
    again := d.blocks;
    DecodeSameAll(env, NO_BINDING, 0, b, 0, content, true);
    DecodeTokensAll(env, b, content, 0, true);
    RefsArePlaceholders(again, [], map[]);
    DistinctRefs(References(again));
    DecodeClean(env, out, b);
    ForestParses(env, out.data, forest);
    WithinEnvelope(out);
    assert NO_FAULT.Clean();
    BodyClean(env, out, b, ParseOf(env, out.data).nodes);
  }

  // ---------- The document element ----------

  /** `open` opens the document container. */
  ghost predicate OpensDocument(env: Env, open: string, attrs: Attrs, unsupported: bool) {
    && open != "" && open[0] == '<' && CleanText(open)
    && LexOpen(env, open) == OpenTag(NO_FAULT, Div, TagRest(NO_FAULT, attrs, unsupported, |open|))
    && "data-type" in attrs && attrs["data-type"] == "document" && "dir" !in attrs
  }

  lemma {:induction false} DocumentAttr(env: Env)
    ensures AttrsFine(env, Div, [KeyValue("data-type", "document")], {})
    ensures AttrMap([KeyValue("data-type", "document")], map[]) == map["data-type" := "document"]
    ensures Escape("document") == "document"
  {
    hide AttrTrace, CleanText, Escape, NameText;
    DocumentWord();
    DataFine(env, {}, "data-type", "document");
    var ps, none := [KeyValue("data-type", "document")], [];
    assert ps[1..] == none && ps[0].key == "data-type" && ps[0].value == "document";
    var empty: Attrs := map[];
    assert AttrMap(none, empty["data-type" := "document"]) == empty["data-type" := "document"];
  }

  lemma DocumentWord()
    ensures Escape("document") == "document" && CleanText("document")
  {
    assert ClassText("document");
    ClassTextSafe("document");
  }

  lemma DocumentOpens(env: Env)
    ensures OpensDocument(env, DOCUMENT_OPEN, map["data-type" := "document"], false)
  {
    hide AttrsFine, TagOf, LexOpen, Escape, Attribute;
    var ps := [KeyValue("data-type", "document")];
    DocumentAttr(env);
    OneAttrText("data-type", "document");
    assert Printed(Div);
    TagReads(Div);
    OpenRead(env, TagName(Div), ps, ">");
    OpenStarts(TagName(Div), ps, ">");
    NameClean(TagName(Div));
    AttrTextClean(env, Div, ps, {});
    OpenClean(TagName(Div), ps, ">");
    assert DOCUMENT_OPEN == OpenText(TagName(Div), ps, ">");
  }

  lemma {:induction false} OriginalOpensDocument(env: Env, n: Node)
    requires n.Element? && Wf(env, n, [Root]) && CleanText(Source(n))
    requires n.tag.Div? && Attr(n, "data-type") == Some("document") && "dir" !in n.attrs
    ensures OpensDocument(env, n.open, n.attrs, LexOpen(env, n.open).rest.unsupported)
  {
    hide LexOpen, StructTrace, WellClosed, CleanText, WfAll, AnyUnsupportedText, Sources;
    CleanParts(n);
    assert WellOpened(env, n);
  }

  function DocumentNode(open: string, attrs: Attrs, unsupported: bool, ns: seq<Node>): Node {
    Element(Div, attrs, open, ns, "</div>", open + Sources(ns) + "</div>", unsupported)
  }

  lemma DivCloses()
    ensures LexClose("</div>").Some? && LexClose("</div>").value.1 == 6 && TagOf(LexClose("</div>").value.0) == Div
    ensures CleanText("</div>")
  {
    hide TagOf, LexClose;
    CloseReads(Callout(Info, []));
    assert CloseContainer(Callout(Info, [])) == "</div>";
  }

  lemma {:induction false} DocumentWf(env: Env, open: string, attrs: Attrs, unsupported: bool, ns: seq<Node>)
    requires OpensDocument(env, open, attrs, unsupported) && ElementsOnly(ns) && WfAll(env, ns, [Root])
    ensures Wf(env, DocumentNode(open, attrs, unsupported, ns), [Root])
  {
    hide LexOpen, LexClose, TagOf, WfAll, CleanText, StructTrace;
    var n := DocumentNode(open, attrs, unsupported, ns);
    DivCloses();
    assert PlainCtx([Root]) && PlainCtx([Root] + [Div]) && BlockTag(Div);
    SwapAll(env, ns, [Root], [Root] + [Div]);
    BlockOpens([Root], Div);
    Opens([Root], Div);
    assert WellOpened(env, n);
  }

  lemma CarriedUnique(payloads: map<string, string>, ts: seq<string>, x: seq<string>, y: seq<string>)
    requires Carried(payloads, ts, x) && Carried(payloads, ts, y)
    ensures x == y
  {
  }

  /** The written document is a forest of one element, whose children are what was written. */
  lemma {:induction false} DocumentForest(env: Env, open: string, attrs: Attrs, unsupported: bool, ns: seq<Node>,
                                          text: string, doc: seq<Block>,
                       payloads: map<string, string>, regions: seq<string>)
    requires OpensDocument(env, open, attrs, unsupported)
    requires Reprints(env, ns, text, doc, true, payloads)
    requires Carried(payloads, Placeholders(doc), regions)
    ensures var forest := [DocumentNode(open, attrs, unsupported, ns)];
            && IsForest(env, open + text + "</div>", forest)
            && Holds(env, forest, doc, regions) && ElementsOf(forest) != []
  {
    hide Wf, LexOpen, DecodeNodes, Erase, CleanChar, Carried, Placeholders, Supported;
    var n := DocumentNode(open, attrs, unsupported, ns);
    DocumentWf(env, open, attrs, unsupported, ns);
    DivCloses();
    assert [n][1..] == [] && Sources([n]) == Source(n) + "";
    ElementsOnlyAll([n]);
    ElementsOnlyAll(ns);
    assert WfAll(env, [n], [Root]);
    assert Content([n]) == ns;
    assert IsForest(env, open + text + "</div>", [n]);
    assert !StrayText([n]) && !StrayText(Content([n]));
    CarriedUnique(payloads, Placeholders(doc), regions, DecodeNodes(env, NO_BINDING, ns, 0, true).1.regions);
    assert Holds(env, [n], doc, regions);
  }

  // ---------- What a context establishes ----------

  lemma {:induction false} AcceptedParts(env: Env, stored: Stored, b: Binding)
    requires Decode(env, stored, b).Accepted?
    ensures var nodes, c := ParseOf(env, stored.data).nodes, Decode(env, stored, b).context;
            && IsForest(env, stored.data, nodes) && WithinLimits(nodes) && WithinBytes(stored) && BindingTrace(b).Clean()
            && !StrayText(nodes) && !StrayText(Content(nodes)) && (ElementsOf(nodes) != [] || Blank(stored.data))
            && var (t, d) := DecodeNodes(env, b, Content(nodes), 0, true);
               && t.Clean() && DistinctTokens(References(d.blocks)) && Validate(d.blocks) == None
               && c == Context(b, stored, match ContainerElement(nodes) case Some(n) => Some(n.open) case None => None,
                               d.blocks, d.regions, d.records)
               && Decode(env, stored, b).document == d.blocks
  {
    hide ParseOf, DecodeNodes, Validate, DistinctTokens, WithinLimits, IsForest;
    DecodeClean(env, stored, b);
    ParsedForest(env, stored.data);
    BodyClean(env, stored, b, ParseOf(env, stored.data).nodes);
    assert WithinBytes(stored);
  }

  /** What the serializer relies on: every record comes from a node, every region is found under
      its name, and every reference leads to what it was made for. */
  ghost predicate Sound(env: Env, c: Context, payloads: map<string, string>) {
    && AllFrom(env, c.binding, payloads, c.records, true)
    && GoodRefs(env, payloads, References(c.baseline))
    && Carried(payloads, Placeholders(c.baseline), c.regions)
    && Placeholders(c.baseline) == TokenList(env, c.binding, 0, c.regions)
    && Distinct(TokenList(env, c.binding, 0, c.regions))
    && (c.container.Some? ==> exists attrs, u :: OpensDocument(env, c.container.value, attrs, u))
  }

  lemma KeptCarried(env: Env, b: Binding, regions: seq<string>, payloads: map<string, string>)
    requires Kept(env, b, 0, regions, payloads)
    ensures Carried(payloads, TokenList(env, b, 0, regions), regions)
  {
    hide TokenList;
  }

  lemma {:induction false} ContextSound(env: Env, stored: Stored, b: Binding)
    requires Decode(env, stored, b).Accepted?
    ensures var c := Decode(env, stored, b).context;
            c.binding == b && c.original == stored && Sound(env, c, Payloads(env, b, c.regions))
  {
    hide RefTokens, IsForest, WithinLimits, ElementsOf, DecodeNodes, Refs, WithinBytes, Content, Decode,
      Trace.Clean, ParseOf, AllFrom, Carried, Placeholders, TokenList, GoodRefs, Kept, Given, Validate, Blank;
    AcceptedParts(env, stored, b);
    var nodes, c := ParseOf(env, stored.data).nodes, Decode(env, stored, b).context;
    var content, payloads := Content(nodes), Payloads(env, b, c.regions);
    RefsArePlaceholders(c.baseline, [], map[]);
    DistinctRefs(References(c.baseline));
    DecodeTokensAll(env, b, content, 0, true);
    PayloadsKept(env, b, c.regions);
    KeptCarried(env, b, c.regions, payloads);
    var ctx := ContentGiven(env, stored.data, nodes);
    DecodedRecords(env, b, content, 0, true, ctx, payloads);
    OriginalRefs(env, b, content, 0, true, ctx, [], map[], payloads);
    if c.container.Some? { ContainerOpens(env, stored.data, nodes, ContainerElement(nodes).value); }
  }

  lemma ContainerOpens(env: Env, html: string, nodes: seq<Node>, n: Node)
    requires IsForest(env, html, nodes) && ContainerElement(nodes) == Some(n)
    ensures exists attrs, u :: OpensDocument(env, n.open, attrs, u)
  {
    hide Wf, WfAll, Sources, Source, CleanText, ElementsOf, OpensDocument;
    MemberWf(env, nodes, n, [Root]);
    OriginalOpensDocument(env, n);
  }

  // ---------- Writing against a context ----------

  lemma {:induction false} DocumentChecked(doc: seq<Block>)
    requires CleanStrings(Strings(doc)).Ok? && Thrown(ValidatedTrace(Validate(doc))).Ok? && NoContinuation(doc)
    ensures GoodBlocks(doc, true)
  {
    hide Strings, TotalBytes, GoodBlocks, NoContinuation, EachClean, CheckEach;
    StringsClean(Strings(doc));
    assert Validate(doc) == None;
    BlocksChecked(doc, 1);
  }

  /** What a serialization that was not the identity went through. */
  lemma {:induction false} SerializeSteps(env: Env, doc: seq<Block>, context: Option<Context>, b: Binding, k: ListKind)
    requires Serialize(env, doc, context, b, k).Ok?
    requires context.Some? ==> context.value.baseline != doc
    ensures CleanStrings(Strings(doc)).Ok? && Thrown(ValidatedTrace(Validate(doc))).Ok?
    ensures References(doc) == if context.Some? then References(context.value.baseline) else []
    ensures context.Some? ==> context.value.binding == b
    ensures var payloads := if context.Some? then Payloads(env, b, context.value.regions) else map[];
            var records := if context.Some? then Some(context.value.records) else None;
            var open := if context.Some? && context.value.container.Some? then context.value.container.value else DOCUMENT_OPEN;
            var body := RenderBlocks(env, doc, records, k, payloads);
            && body.Ok?
            && Serialize(env, doc, context, b, k).value.data == open + body.value + "</div>"
            && WithinBytes(Serialize(env, doc, context, b, k).value)
  {
    hide CleanStrings, Validate, Thrown, RenderBlocks, Payloads, WithinBytes, DistinctTokens, Refs, DOCUMENT_OPEN,
      Strings;
  }

  lemma {:induction false} ReadyDocument(env: Env, doc: seq<Block>, payloads: map<string, string>)
    requires GoodBlocks(doc, true) && NoContinuation(doc) && GoodRefs(env, payloads, References(doc))
    ensures Ready(env, doc, [], map[], payloads)
  {
    hide GoodBlocks, NoContinuation, GoodRefs, Refs;
  }

  /** The bytes written for an edited document are a forest that holds its canonical form and the
      original's regions. */
  lemma EditedForest(env: Env, stored: Stored, b: Binding, doc: seq<Block>, k: ListKind) returns (forest: seq<Node>)
    requires env.safeStyle(HR_STYLE) && Decode(env, stored, b).Accepted? && NoContinuation(doc)
    requires Serialize(env, doc, Some(Decode(env, stored, b).context), b, k).Ok?
    ensures var c := Decode(env, stored, b).context;
            var out := Serialize(env, doc, Some(c), b, k).value;
            && IsForest(env, out.data, forest) && WithinBytes(out) && (ElementsOf(forest) != [] || Blank(out.data))
            && Holds(env, forest, Canon(doc, k), c.regions)
            && References(doc) == References(c.baseline)
  {
    hide RefTokens, IsForest, Distinct, Holds, OpensDocument, DocumentNode, Canon, NoContinuation, ElementsOf,
      HR_STYLE, Refs, WithinBytes, ValidatedTrace, Decode, ParseOf, AllFrom, Carried, Reprints, GoodBlocks, Ready,
      Placeholders, TokenList, GoodRefs, Thrown, RenderBlocks, Strings, CleanStrings, Payloads, DOCUMENT_OPEN,
      Serialize, Validate, Blank;
    var c := Decode(env, stored, b).context;
    ContextSound(env, stored, b);
    if c.baseline == doc {
      forest := ParseOf(env, stored.data).nodes;
      UneditedHolds(env, stored, b, k);
      SerializeUnedited(env, doc, c, b, k);
    } else {
      SerializeSteps(env, doc, Some(c), b, k);
      DocumentChecked(doc);
      var payloads := Payloads(env, b, c.regions);
      assert GoodRefs(env, payloads, References(doc)) && AllFrom(env, b, payloads, c.records, true);
      ReadyDocument(env, doc, payloads);
      var ns := BlocksReprint(env, b, doc, Some(c.records), k, [], payloads);
      var text := RenderBlocks(env, doc, Some(c.records), k, payloads).value;
      RefsArePlaceholders(doc, [], map[]);
      RefsArePlaceholders(c.baseline, [], map[]);
      CanonPlaceholders(doc, k);
      assert Carried(payloads, Placeholders(Canon(doc, k)), c.regions);
      var open := if c.container.Some? then c.container.value else DOCUMENT_OPEN;
      DocumentOpens(env);
      assert exists attrs, u :: OpensDocument(env, open, attrs, u);
      var attrs, u :| OpensDocument(env, open, attrs, u);
      DocumentForest(env, open, attrs, u, ns, text, Canon(doc, k), payloads, c.regions);
      forest := [DocumentNode(open, attrs, u, ns)];
    }
  }

  lemma SerializeUnedited(env: Env, doc: seq<Block>, c: Context, b: Binding, k: ListKind)
    requires c.baseline == doc && Serialize(env, doc, Some(c), b, k).Ok?
    ensures Serialize(env, doc, Some(c), b, k).value == c.original
  {
    hide CleanStrings, Validate, Thrown, RenderBlocks, Payloads, WithinBytes, DistinctTokens, Refs, DOCUMENT_OPEN,
      Strings;
  }

  lemma {:induction false} UneditedHolds(env: Env, stored: Stored, b: Binding, k: ListKind)
    requires Decode(env, stored, b).Accepted?
    ensures var nodes, c := ParseOf(env, stored.data).nodes, Decode(env, stored, b).context;
            && IsForest(env, stored.data, nodes) && WithinBytes(stored) && (ElementsOf(nodes) != [] || Blank(stored.data))
            && Holds(env, nodes, Canon(c.baseline, k), c.regions)
  {
    hide IsForest, NoContinuation, StrayText, ElementsOf, DecodeNodes, Decode, ParseOf, Validate;
    AcceptedParts(env, stored, b);
    var nodes := ParseOf(env, stored.data).nodes;
    var content := Content(nodes);
    DecodeSameAll(env, NO_BINDING, 0, b, 0, content, true);
    CleanIsNoFault(DecodeNodes(env, b, content, 0, true).0);
    DecodeSettledAll(env, b, content, 0, true, k);
  }

  lemma CleanIsNoFault(t: Trace)
    requires t.Clean()
    ensures t == NO_FAULT && t.stop == None
  {
  }

  // ---------- Main results ----------

  /** Reading back what was written for an edited document, under any binding: the bytes are a
      well-formed forest; the read is accepted exactly when that forest is within the parser's
      bounds, the document within the validator's and the new placeholders are distinct; and then
      it yields the edited document in canonical form with its opaque blocks renamed, every region
      with its bytes, in order, in the same chain of containers. */
  lemma EditedRoundTrip(env: Env, stored: Stored, b: Binding, doc: seq<Block>, k: ListKind, b': Binding)
    returns (forest: seq<Node>, again: seq<Block>)
    requires env.safeStyle(HR_STYLE) && Decode(env, stored, b).Accepted? && NoContinuation(doc)
    requires Serialize(env, doc, Some(Decode(env, stored, b).context), b, k).Ok?
    ensures var c := Decode(env, stored, b).context;
            var out := Serialize(env, doc, Some(c), b, k).value;
            var outcome := Decode(env, out, b');
            && IsForest(env, out.data, forest)
            && Renamed(env, b', again, Canon(doc, k), c.regions)
            && Places(References(again)) == Places(References(c.baseline))
            && (outcome.Accepted? <==>
                  BindingTrace(b').Clean() && WithinLimits(forest) && Validate(again) == None
                  && Distinct(TokenList(env, b', 0, c.regions)))
            && (outcome.Accepted? ==> outcome.document == again && outcome.context.regions == c.regions)
            && (b' == b ==> again == Canon(doc, k))
  {
    hide RefTokens, IsForest, Distinct, Holds, OpensDocument, NoContinuation, ElementsOf, HR_STYLE, Refs,
      WithinBytes, BindingTrace, Decode, Trace.Clean, AllFrom, Carried, Placeholders, Erase, TokenList, GoodRefs,
      Payloads, Serialize, Validate, Blank;
    var c := Decode(env, stored, b).context;
    var out := Serialize(env, doc, Some(c), b, k).value;
    forest := EditedForest(env, stored, b, doc, k);
    again := Redecode(env, out, forest, b', Canon(doc, k), c.regions);
    EraseRefs(again, [], map[]);
    EraseRefs(Canon(doc, k), [], map[]);
    CanonRefs(doc, k, [], map[]);
    if b' == b {
      ContextSound(env, stored, b);
      CanonPlaceholders(doc, k);
      RefsArePlaceholders(doc, [], map[]);
      RefsArePlaceholders(c.baseline, [], map[]);
      assert Placeholders(c.baseline) == TokenList(env, b, 0, c.regions);
      ErasedEqual(again, Canon(doc, k));
    }
  }

  /** Under the same binding, an edited document is read back as itself in canonical form exactly
      when no list item holds blocks and the result is within bounds. */
  lemma {:induction false} EditedIdentity(env: Env, stored: Stored, b: Binding, doc: seq<Block>, k: ListKind)
    requires env.safeStyle(HR_STYLE) && Decode(env, stored, b).Accepted?
    requires Serialize(env, doc, Some(Decode(env, stored, b).context), b, k).Ok?
    ensures var out := Serialize(env, doc, Some(Decode(env, stored, b).context), b, k).value;
            var outcome := Decode(env, out, b);
            (outcome.Accepted? && outcome.document == Canon(doc, k)) <==>
              (NoContinuation(doc) && ParseOf(env, out.data).trace.Clean() && Validate(Canon(doc, k)) == None)
  {
    hide Places, IsForest, Distinct, Renamed, OpensDocument, Canon, NoContinuation, StrayText, ElementsOf,
      DecodeNodes, DistinctTokens, ContainerElement, Content, Decode, NO_FAULT, ParseOf, AllFrom, Placeholders,
      TokenList, GoodRefs, Serialize, Validate;
    var c := Decode(env, stored, b).context;
    var out := Serialize(env, doc, Some(c), b, k).value;
    var outcome := Decode(env, out, b);
    if NoContinuation(doc) {
      var forest, again := EditedRoundTrip(env, stored, b, doc, k, b);
      ForestParses(env, out.data, forest);
      ContextSound(env, stored, b);
      AcceptedParts(env, stored, b);
      assert Distinct(TokenList(env, b, 0, c.regions));
    } else if outcome.Accepted? && outcome.document == Canon(doc, k) {
      AcceptedParts(env, out, b);
      DecodeSettledAll(env, b, Content(ParseOf(env, out.data).nodes), 0, true, k)
        by { CleanIsNoFault(DecodeNodes(env, b, Content(ParseOf(env, out.data).nodes), 0, true).0); }
      assert NoContinuation(Canon(doc, k));
      CanonContinues(doc, k);
    }
  }

  lemma {:induction false} CanonContinues(bs: seq<Block>, k: ListKind)
    ensures NoContinuation(Canon(bs, k)) <==> NoContinuation(bs)
    decreases bs, 1
  {
    hide CanonRuns, CanonTasks;
    if bs != [] {
      CanonContinuesIn(bs[0], k);
      CanonContinues(bs[1..], k);
      assert ([CanonBlock(bs[0], k)] + Canon(bs[1..], k))[1..] == Canon(bs[1..], k);
    }
  }

  lemma {:induction false} CanonContinuesIn(b: Block, k: ListKind)
    ensures NoContinuationIn(CanonBlock(b, k)) <==> NoContinuationIn(b)
    decreases b, 0
  {
    hide CanonRuns, CanonTasks, NoContinuation, Canon, NoContinuationItems;
    match b
    case Blockquote(blocks) => CanonContinues(blocks, k);
    case Callout(_, blocks) => CanonContinues(blocks, k);
    case BulletList(items) => CanonContinuesItems(items, k);
    case OrderedList(items) => CanonContinuesItems(items, k);
    case _ =>
  }

  lemma {:induction false} CanonContinuesItems(items: seq<ListItem>, k: ListKind)
    ensures NoContinuationItems(CanonItems(items, k)) <==> NoContinuationItems(items)
  {
    hide CanonRuns;
    if items != [] {
      CanonContinuesItems(items[1..], k);
      var c := CanonItems(items, k);
      assert c[1..] == CanonItems(items[1..], k);
      assert items == [items[0]] + items[1..];
      if items[0].ItemWith? { assert items[0].blocks != [] ==> Canon(items[0].blocks, k) != []; }
      assert (c[0].ItemWith? ==> c[0].blocks == []) <==> (items[0].ItemWith? ==> items[0].blocks == []);
      ItemsSplit(items);
      ItemsSplit(c);
    }
  }

  lemma ItemsSplit(items: seq<ListItem>)
    requires items != []
    ensures NoContinuationItems(items) <==> (items[0].ItemWith? ==> items[0].blocks == []) && NoContinuationItems(items[1..])
  {
    if NoContinuationItems(items[1..]) {
      forall i | 1 <= i < |items| ensures items[i].ItemWith? ==> items[i].blocks == [] { assert items[i] == items[1..][i - 1]; }
    }
  }

  /** A document written without a context is read back in canonical form, under any binding. */
  lemma FreshRoundTrip(env: Env, doc: seq<Block>, b: Binding, k: ListKind, b': Binding) returns (forest: seq<Node>)
    requires env.safeStyle(HR_STYLE) && NoContinuation(doc) && Serialize(env, doc, None, b, k).Ok?
    ensures References(doc) == []
    ensures var out := Serialize(env, doc, None, b, k).value;
            var outcome := Decode(env, out, b');
            && IsForest(env, out.data, forest)
            && (outcome.Accepted? <==>
                  BindingTrace(b').Clean() && WithinLimits(forest) && Validate(Canon(doc, k)) == None)
            && (outcome.Accepted? ==> outcome.document == Canon(doc, k))
  {
    hide IsForest, WithinLimits, Distinct, Holds, OpensDocument, DocumentNode, NoContinuation, ElementsOf, HR_STYLE,
      Refs, WithinBytes, BindingTrace, ValidatedTrace, Decode, AllFrom, Carried, Reprints, Ready, Placeholders, Erase,
      GoodRefs, RenderBlocks, Strings, CleanStrings, Payloads, DOCUMENT_OPEN, Serialize, Blank;
    SerializeSteps(env, doc, None, b, k);
    DocumentChecked(doc);
    var out := Serialize(env, doc, None, b, k).value;
    var payloads: map<string, string> := map[];
    NothingReferred(env, doc, payloads);
    ReadyDocument(env, doc, payloads);
    var ns := BlocksReprint(env, b, doc, None, k, [], payloads);
    var text := RenderBlocks(env, doc, None, k, payloads).value;
    CanonPlaceholders(doc, k);
    var attrs: Attrs := map["data-type" := "document"];
    DocumentOpens(env);
    DocumentForest(env, DOCUMENT_OPEN, attrs, false, ns, text, Canon(doc, k), payloads, []);
    forest := [DocumentNode(DOCUMENT_OPEN, attrs, false, ns)];
    var again := Redecode(env, out, forest, b', Canon(doc, k), []);
    NoTokens(env, b');
    ErasedEqual(again, Canon(doc, k));
  }

  lemma NoTokens(env: Env, b: Binding)
    ensures TokenList(env, b, 0, []) == [] && Distinct([])
  {
  }

  lemma {:induction false} NothingReferred(env: Env, doc: seq<Block>, payloads: map<string, string>)
    requires References(doc) == []
    ensures GoodRefs(env, payloads, References(doc)) && Placeholders(doc) == [] && Carried(payloads, [], [])
  {
    hide Refs, Placeholders;
    RefsArePlaceholders(doc, [], map[]);
  }

  /** A document written without a context is read back as itself in canonical form exactly when no
      list item holds blocks and the result is within bounds. */
  lemma FreshIdentity(env: Env, doc: seq<Block>, b: Binding, k: ListKind, b': Binding)
    requires env.safeStyle(HR_STYLE) && Serialize(env, doc, None, b, k).Ok?
    ensures var out := Serialize(env, doc, None, b, k).value;
            var outcome := Decode(env, out, b');
            (outcome.Accepted? && outcome.document == Canon(doc, k)) <==>
              (NoContinuation(doc) && BindingTrace(b').Clean() && ParseOf(env, out.data).trace.Clean()
               && Validate(Canon(doc, k)) == None)
  {
    hide Serialize, Decode, Canon, ParseOf, Validate, BindingTrace, NoContinuation, WithinLimits, Refs, WfAll, Sources;
    var out := Serialize(env, doc, None, b, k).value;
    if NoContinuation(doc) {
      var forest := FreshRoundTrip(env, doc, b, k, b');
      ForestParses(env, out.data, forest);
      if Decode(env, out, b').Accepted? { AcceptedParts(env, out, b'); }
    } else if Decode(env, out, b').Accepted? && Decode(env, out, b').document == Canon(doc, k) {
      NeverContinues(env, out, b', doc, k);
    }
  }

  /** No note is read as a document whose list items hold blocks. */
  lemma NeverContinues(env: Env, stored: Stored, b: Binding, doc: seq<Block>, k: ListKind)
    requires Decode(env, stored, b).Accepted? && Decode(env, stored, b).document == Canon(doc, k)
    ensures NoContinuation(doc)
  {
    hide Decode, Canon, ParseOf, Validate, BindingTrace, NoContinuation, WithinLimits, Refs, WfAll, Sources, DecodeNodes,
      Content, Trace.Clean, StrayText;
    var nodes := ParseOf(env, stored.data).nodes;
    AcceptedParts(env, stored, b);
    CleanIsNoFault(DecodeNodes(env, b, Content(nodes), 0, true).0);
    DecodeSettledAll(env, b, Content(nodes), 0, true, k);
    CanonContinues(doc, k);
  }

  // ---------- A document that does not come back ----------

  /** A list with one item that holds a rule. */
  const CONTINUED := [BulletList([ItemWith([], [HorizontalRule])])]

  lemma {:induction false} JsonStringShort(s: string)
    ensures JsonStringBytes(s) <= 6 * |s| + 2
  {
    if s != "" { JsonStringShort(s[1..]); }
  }

  lemma ContinuedStrings()
    ensures CleanStrings(Strings(CONTINUED)).Ok? && References(CONTINUED) == [] && !NoContinuation(CONTINUED)
  {
    hide CleanTrace;
    var rule: seq<Block> := [HorizontalRule];
    assert rule[1..] == [] && Strings(rule) == [];
    assert Strings(CONTINUED) == [];
    assert Refs(rule, [Hop(BulletKey, 0)], map[]) == [];
    assert ItemRefs(CONTINUED[0].items, [Hop(BulletKey, 0)]) == [];
    assert CONTINUED[0].items[0].blocks != [];
  }

  lemma OneFieldBytes(f: Field)
    ensures JsonFieldsBytes([f]) == JsonStringBytes(f.name) + 1 + JsonBytes(f.value)
  {
    hide JsonStringBytes;
    assert [f][1..] == [];
  }

  lemma TwoFieldsBytes(f: Field, g: Field)
    ensures JsonFieldsBytes([f, g]) == JsonFieldsBytes([f]) + 1 + JsonFieldsBytes([g])
  {
    hide JsonStringBytes;
    OneFieldBytes(f);
    assert [f, g][1..] == [g];
  }

  lemma OneItemBytes(j: Json)
    ensures JsonItemsBytes([j]) == JsonBytes(j) && JsonItemsBytes([]) == 0
  {
    assert [j][1..] == [];
  }

  lemma ContinuedItems(rule: Json, fs: seq<Field>)
    requires rule == BlockJson(HorizontalRule) && fs == [Field("inlines", JArr([])), Field("blocks", JArr([rule]))]
    ensures ItemsJson(CONTINUED[0].items) == [JObj(fs)]
  {
    var bs: seq<Block> := [HorizontalRule];
    assert bs[1..] == [];
    assert BlocksJson(bs) == [rule];
    var none: seq<Inline> := [];
    assert InlinesJson(none).value.items == [];
    var item: ListItem := ItemWith([], bs);
    assert CONTINUED[0].items == [item] && [item][1..] == [];
    assert ItemJson(item) == JObj(fs);
  }

  lemma ContinuedBytes()
    ensures JsonBytes(BlockJson(HorizontalRule)) <= 1000 && JsonBytes(BlockJson(CONTINUED[0])) <= 1000
  {
    hide JsonStringBytes, JsonFieldsBytes, JsonItemsBytes;
    JsonStringShort("type");
    JsonStringShort("horizontal-rule");
    JsonStringShort("bullet-list");
    JsonStringShort("items");
    JsonStringShort("inlines");
    JsonStringShort("blocks");
    var rule, items := BlockJson(HorizontalRule), ItemsJson(CONTINUED[0].items);
    OneFieldBytes(Field("type", JStr("horizontal-rule")));
    var fs := [Field("inlines", JArr([])), Field("blocks", JArr([rule]))];
    ContinuedItems(rule, fs);
    OneItemBytes(rule);
    OneFieldBytes(fs[0]);
    OneFieldBytes(fs[1]);
    TwoFieldsBytes(fs[0], fs[1]);
    OneItemBytes(JObj(fs));
    var gs := [Field("type", JStr("bullet-list")), Field("items", JArr(items))];
    OneFieldBytes(gs[0]);
    OneFieldBytes(gs[1]);
    TwoFieldsBytes(gs[0], gs[1]);
  }

  lemma ContinuedValid()
    ensures Validate(CONTINUED) == None
  {
    hide JsonBytes, BlockJson;
    ContinuedBytes();
    var rule: seq<Block> := [HorizontalRule];
    assert rule[1..] == [] && CheckBlock(HorizontalRule, 2) == None;
    assert CheckBlocks(rule, 2) == None;
    assert CheckItems(CONTINUED[0].items, 1) == None;
    assert CheckBlock(CONTINUED[0], 1) == None;
    assert CONTINUED[1..] == [];
  }

  lemma WithinShort(data: string)
    requires |data| <= 1000
    ensures WithinBytes(Stored(true, data))
  {
    hide JsonStringBytes;
    JsonStringShort(data);
    JsonStringShort("tiptap");
    JsonStringShort("type");
    JsonStringShort("data");
    var fields := [Field("type", JStr("tiptap")), Field("data", JStr(data))];
    assert fields[1..] == [fields[1]] && fields[1..][1..] == [];
    assert JsonFieldsBytes(fields[1..]) <= 10_000;
    assert JsonFieldsBytes(fields) <= 20_000;
  }

  lemma ContinuedRenders(env: Env, k: ListKind, payloads: map<string, string>)
    ensures var body := RenderBlocks(env, CONTINUED, None, k, payloads); body.Ok? && |body.value| <= 200
  {
    hide RenderItems, RenderPlanned;
    RuleRenders(env, k, payloads);
    ItemRenders(env, k, payloads);
    var items := CONTINUED[0].items;
    OneRenders(env, CONTINUED[0], k, payloads);
    assert RenderBlock(env, BulletList(items), Fresh, k, payloads)
        == Ok(Tagged("ul", "", RenderItems(env, items, k, payloads).value));
  }

  lemma OneRenders(env: Env, b: Block, k: ListKind, payloads: map<string, string>)
    ensures var text := RenderBlock(env, b, Fresh, k, payloads); var body := RenderBlocks(env, [b], None, k, payloads);
            text.Ok? ==> body.Ok? && |body.value| == |text.value|
  {
    hide RenderBlock;
    var bs, plan: seq<Planned> := [b], [Fresh];
    assert bs[1..] == [] && seq(|bs|, i => Fresh) == plan && plan[1..] == [];
    assert RenderPlanned(env, bs[1..], plan[1..], k, payloads) == Ok("");
  }

  lemma RuleRenders(env: Env, k: ListKind, payloads: map<string, string>)
    ensures var body := RenderBlocks(env, [HorizontalRule], None, k, payloads); body.Ok? && |body.value| <= 120
  {
    hide RenderBlocks;
    OneRenders(env, HorizontalRule, k, payloads);
  }

  lemma ItemRenders(env: Env, k: ListKind, payloads: map<string, string>)
    ensures var text := RenderItems(env, [ItemWith([], [HorizontalRule])], k, payloads); text.Ok? && |text.value| <= 150
  {
    hide RenderBlocks;
    RuleRenders(env, k, payloads);
    NoInlines(env);
    var items := [ItemWith([], [HorizontalRule])];
    assert items[1..] == [] && RenderItems(env, items[1..], k, payloads) == Ok("");
  }

  lemma NoInlines(env: Env)
    ensures RenderInlines(env, []) == Ok("")
  {
  }

  /** It is written, and no reading of what is written gives it back. */
  lemma ContinuationLost(env: Env, b: Binding, k: ListKind, b': Binding)
    ensures Serialize(env, CONTINUED, None, b, k).Ok? && !NoContinuation(CONTINUED)
    ensures var outcome := Decode(env, Serialize(env, CONTINUED, None, b, k).value, b');
            !(outcome.Accepted? && outcome.document == Canon(CONTINUED, k))
  {
    hide CleanStrings, Strings, Validate, Refs, RenderBlocks, WithinBytes, NoContinuation, Decode, Canon;
    var payloads: map<string, string> := map[];
    ContinuedStrings();
    ContinuedValid();
    ContinuedRenders(env, k, payloads);
    var data := DOCUMENT_OPEN + RenderBlocks(env, CONTINUED, None, k, payloads).value + "</div>";
    WithinShort(data);
    assert Serialize(env, CONTINUED, None, b, k) == Ok(Stored(true, data));
    var outcome := Decode(env, Stored(true, data), b');
    if outcome.Accepted? && outcome.document == Canon(CONTINUED, k) {
      NeverContinues(env, Stored(true, data), b', CONTINUED, k);
      assert false;
    }
  }
}
