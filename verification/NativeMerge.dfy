/** What the serializer writes is again a well-formed forest that decodes to the edited document,
    whichever of its parts are echoed, looked up or printed. */
module NativeMerge {
  import opened Text
  import opened NativeFaults
  import opened NativeHtml
  import opened NativeHtmlTheory
  import opened NoteDocument
  import opened NativeDecode
  import opened NativeSerialize
  import opened NativeCanon
  import opened NativeBlocks
  import opened NativeRegions
  import Alignment

  // ---------- Records and the nodes they describe ----------

  /** `rec` is the record a decode left of `n`. */
  ghost predicate FromNode(env: Env, b: Binding, payloads: map<string, string>, rec: Record, n: Node, k: nat,
                           top: bool, ctx: seq<Tag>)
  {
    && n.Element? && PlainCtx(ctx) && Wf(env, n, ctx) && CleanText(Source(n)) && (!top ==> !Unsupported(n))
    && var (t, d) := DecodeElement(env, b, n, k, top);
       t.Clean() && d.blocks == [rec.block] && d.records == [rec] && Kept(env, b, k, d.regions, payloads)
  }

  ghost predicate FromRecord(env: Env, b: Binding, payloads: map<string, string>, rec: Record, top: bool) {
    exists n, k, ctx :: FromNode(env, b, payloads, rec, n, k, top, ctx)
  }

  ghost predicate AllFrom(env: Env, b: Binding, payloads: map<string, string>, recs: seq<Record>, top: bool) {
    forall j :: 0 <= j < |recs| ==> FromRecord(env, b, payloads, recs[j], top)
  }

  lemma {:induction false} RecordBlock(env: Env, b: Binding, n: Node, k: nat, top: bool)
    requires n.Element?
    ensures var d := DecodeElement(env, b, n, k, top).1;
            |d.blocks| == |d.records| == 1 && d.records[0].block == d.blocks[0]
            && d.records[0].raw == n.raw && d.records[0].open == n.open
  {
    hide Unsupported, ContainerOf, StrayText, LeafBlock, DecodeNodes;
  }

  lemma {:induction false} DecodedRecords(env: Env, b: Binding, ns: seq<Node>, k: nat, top: bool, ctx: seq<Tag>,
                                              payloads: map<string, string>)
    requires Given(env, ns, ctx, top) && DecodeNodes(env, b, ns, k, top).0.Clean()
    requires Kept(env, b, k, DecodeNodes(env, b, ns, k, top).1.regions, payloads)
    ensures AllFrom(env, b, payloads, DecodeNodes(env, b, ns, k, top).1.records, top)
    decreases |ns|
  {
    hide DecodeElement, DecodeNodes, Given, Wf, PlainCtx;
    DecodeStep(env, b, ns, k, top);
    if ns != [] {
      GivenRest(env, ns, ctx, top);
      if ns[0].TextNode? {
        DecodedRecords(env, b, ns[1..], k, top, ctx, payloads);
      } else {
        var (t, h) := DecodeElement(env, b, ns[0], k, top);
        var (t', tail) := Rest(env, b, ns, k, top);
        RecordBlock(env, b, ns[0], k, top);
        KeptSplit(env, b, k, h.regions, tail.regions, payloads);
        assert h.blocks == [h.records[0].block] && h.records == [h.records[0]];
        assert FromNode(env, b, payloads, h.records[0], ns[0], k, top, ctx);
        assert FromRecord(env, b, payloads, h.records[0], top);
        DecodedRecords(env, b, ns[1..], k + |h.regions|, top, ctx, payloads);
      }
    }
  }

  lemma {:induction false} InsideRecords(env: Env, b: Binding, payloads: map<string, string>, rec: Record, n: Node,
                                         k: nat, top: bool,
                      ctx: seq<Tag>)
    requires FromNode(env, b, payloads, rec, n, k, top, ctx) && HoldsBlocks(rec.block)
    ensures !Unsupported(n) && ContainerOf(n) == KeyOf(rec.block)
    ensures rec.open == n.open && rec.raw == n.raw
    ensures AllFrom(env, b, payloads, rec.children, false)
  {
    hide Unsupported, ContainerOf, StrayText, LeafBlock, DecodeNodes, Given, Kept, Wf, CleanText, Source, AllFrom;
    if !Unsupported(n) && ContainerOf(n).Some? && !StrayText(n.children) {
      ContainerKeys(n);
      GivenInside(env, n, ctx);
      DecodedRecords(env, b, n.children, k, false, ctx + [n.tag], payloads);
    } else if !Unsupported(n) && LeafBlock(env, n, top).value.Some? {
      LeafBlockLeaf(env, n, top);
    }
  }

  lemma ContainerKeys(n: Node)
    requires n.Element? && ContainerOf(n).Some?
    ensures var key := ContainerOf(n).value;
            && !key.BulletKey? && !key.OrderedKey?
            && (forall bs :: KeyOf(Wrap(key, bs)) == Some(key) && HoldsBlocks(Wrap(key, bs)))
            && (if key.QuoteKey? then n.tag == Tag.Blockquote else n.tag == Div)
  {
  }

  // ---------- The plan only borrows what fits ----------

  predicate PlannedFits(b: Block, p: Planned, records: seq<Record>) {
    match p
    case Fresh => true
    case Echo(record) => record in records && record.block == b
    case Inside(record) => record in records && HoldsBlocks(b) && KeyOf(record.block) == KeyOf(b)
  }

  lemma {:induction false} PlanFromFits(blocks: seq<Block>, records: seq<Record>, pairs: seq<Alignment.Pair>, i: nat,
                                        seen: map<ContainerKey, nat>, used: set<nat>)
    requires i <= |blocks|
    requires forall k :: 0 <= k < |pairs| ==>
      pairs[k].i < |blocks| && pairs[k].j < |records| && blocks[pairs[k].i] == records[pairs[k].j].block
    ensures var plan := PlanFrom(blocks, records, pairs, i, seen, used);
            forall x :: 0 <= x < |plan| ==> PlannedFits(blocks[i + x], plan[x], records)
    decreases |blocks| - i
  {
    if i < |blocks| {
      hide HoldsRegion;
      var b, plan := blocks[i], PlanFrom(blocks, records, pairs, i, seen, used);
      var seen' := if HoldsBlocks(b) then seen[KeyOf(b).value := Seen(seen, KeyOf(b).value) + 1] else seen;
      var used' := if plan[0].Inside? then used + {NthOfKey(records, KeyOf(b).value, Seen(seen, KeyOf(b).value)).value} else used;
      PlanFromFits(blocks, records, pairs, i + 1, seen', used');
      assert PlannedFits(b, plan[0], records);
      assert plan[1..] == PlanFrom(blocks, records, pairs, i + 1, seen', used');
      forall x | 0 <= x < |plan| ensures PlannedFits(blocks[i + x], plan[x], records) {
        if x > 0 { assert plan[x] == plan[1..][x - 1]; }
      }
    }
  }

  lemma PairsEqual(blocks: seq<Block>, records: seq<Record>)
    ensures var pairs := Alignment.Pairs(blocks, BlocksOf(records));
            forall k :: 0 <= k < |pairs| ==>
              pairs[k].i < |blocks| && pairs[k].j < |records| && blocks[pairs[k].i] == records[pairs[k].j].block
  {
    hide Alignment.Pairs;
    var originals := BlocksOf(records);
    Alignment.PairsMatch(blocks, originals);
    forall k | 0 <= k < |Alignment.Pairs(blocks, originals)|
      ensures blocks[Alignment.Pairs(blocks, originals)[k].i] == records[Alignment.Pairs(blocks, originals)[k].j].block
    {
      assert originals[Alignment.Pairs(blocks, originals)[k].j] == records[Alignment.Pairs(blocks, originals)[k].j].block;
    }
  }

  lemma {:induction false} PlanIs(blocks: seq<Block>, records: seq<Record>)
    requires var pairs := Alignment.Pairs(blocks, BlocksOf(records));
             forall k :: 0 <= k < |pairs| ==> pairs[k].j < |records|
    ensures var pairs := Alignment.Pairs(blocks, BlocksOf(records));
            Plan(blocks, records) == PlanFrom(blocks, records, pairs, 0, map[], Used(pairs))
  {
    hide PlanFrom, Alignment.Pairs, Used;
  }

  lemma PlanFits(blocks: seq<Block>, records: seq<Record>)
    ensures var plan := Plan(blocks, records);
            forall x :: 0 <= x < |plan| ==> PlannedFits(blocks[x], plan[x], records)
  {
    hide *;
    var pairs := Alignment.Pairs(blocks, BlocksOf(records));
    PairsEqual(blocks, records);
    PlanIs(blocks, records);
    PlanFromFits(blocks, records, pairs, 0, map[], Used(pairs));
  }

  // ---------- What reprinted nodes are ----------

  const NO_BINDING := Binding("", "")

  /** `regions` are what `payloads` holds under `tokens`, in order. */
  ghost predicate Carried(payloads: map<string, string>, tokens: seq<string>, regions: seq<string>) {
    |tokens| == |regions| && forall i :: 0 <= i < |tokens| ==> tokens[i] in payloads && payloads[tokens[i]] == regions[i]
  }

  lemma CarriedBoth(payloads: map<string, string>, s: seq<string>, x: seq<string>, t: seq<string>, y: seq<string>)
    requires Carried(payloads, s, x) && Carried(payloads, t, y)
    ensures Carried(payloads, s + t, x + y)
  {
  }

  /** `n` has source `html`, may stand in any block container, and decodes to `b` but for the
      placeholders, whose regions are the ones `b` refers to. */
  ghost predicate Reprint(env: Env, n: Node, html: string, b: Block, top: bool, payloads: map<string, string>) {
    && n.Element? && Wf(env, n, [Root]) && Source(n) == html && CleanText(html) && (!top ==> !Unsupported(n))
    && var (t, d) := DecodeElement(env, NO_BINDING, n, 0, top);
       && t == NO_FAULT && |d.blocks| == 1 && EraseIn(d.blocks[0]) == EraseIn(b)
       && Carried(payloads, PlaceholdersIn(b), d.regions)
  }

  ghost predicate Reprints(env: Env, ns: seq<Node>, html: string, bs: seq<Block>, top: bool,
                                  payloads: map<string, string>) {
    && ElementsOnly(ns) && WfAll(env, ns, [Root]) && Sources(ns) == html && CleanText(html) && (!top ==> Supported(ns))
    && var (t, d) := DecodeNodes(env, NO_BINDING, ns, 0, top);
       && t == NO_FAULT && Erase(d.blocks) == Erase(bs)
       && Carried(payloads, Placeholders(bs), d.regions)
  }

  lemma ReprintsNone(env: Env, top: bool, payloads: map<string, string>)
    ensures Reprints(env, [], "", [], top, payloads)
  {
    assert Sources([]) == "";
    assert WfAll(env, [], [Root]);
    assert Supported([]);
  }

  /** The nodes of a list are those of its first block and those of the rest. */
  lemma ReprintsFirst(env: Env, n: Node, ns: seq<Node>, html: string, rest: string, b: Block, bs: seq<Block>,
                      top: bool, payloads: map<string, string>)
    requires Reprint(env, n, html, b, top, payloads) && Reprints(env, ns, rest, bs, top, payloads)
    ensures Reprints(env, [n] + ns, html + rest, [b] + bs, top, payloads)
  {
    hide Wf, DecodeElement, DecodeNodes, CleanChar, Source, Unsupported, EraseIn, PlaceholdersIn, Carried;
    assert ([n] + ns)[1..] == ns && ([b] + bs)[1..] == bs;
    DecodeStep(env, NO_BINDING, [n] + ns, 0, top);
    var (t, h) := DecodeElement(env, NO_BINDING, n, 0, top);
    var (t', tail) := DecodeNodes(env, NO_BINDING, ns, |h.regions|, top);
    DecodeSameAll(env, NO_BINDING, 0, NO_BINDING, |h.regions|, ns, top);
    assert h.blocks == [h.blocks[0]];
    assert (h.blocks + tail.blocks)[1..] == tail.blocks;
    CarriedBoth(payloads, PlaceholdersIn(b), h.regions, Placeholders(bs), tail.regions);
  }

  // ---------- One block ----------

  /** The validator and the character scan have passed this document, and what it refers to was
      preserved. */
  predicate GoodBlock(b: Block, top: bool)
    decreases b, 0
  {
    match b
    case Blockquote(blocks) => GoodBlocks(blocks, false)
    case Callout(_, blocks) => GoodBlocks(blocks, false)
    case Opaque(_, _) => true
    case Reference(_) => true
    case _ => GoodLeaf(b, top)
  }

  predicate GoodBlocks(bs: seq<Block>, top: bool)
    decreases bs, 1
  {
    bs != [] ==> GoodBlock(bs[0], top) && GoodBlocks(bs[1..], top)
  }

  lemma RootPlain()
    ensures PlainCtx([Root])
  {
  }

  /** An echoed block: the bytes decode to the block again. */
  lemma EchoReprint(env: Env, b: Binding, rec: Record, k: ListKind, top: bool,
                                  payloads: map<string, string>) returns (n: Node)
    requires FromRecord(env, b, payloads, rec, top)
    ensures Reprint(env, n, rec.raw, CanonBlock(rec.block, k), top, payloads)
  {
    hide Unsupported, DecodeElement, Trace.Clean, NO_FAULT, CleanText, Entities, WellOpened, EraseIn;
    var n', j, ctx :| FromNode(env, b, payloads, rec, n', j, top, ctx);
    n := n';
    EchoDecodes(env, b, rec, n, j, k, top, payloads);
    RootPlain();
    Swap(env, n, ctx, [Root]);
    assert n.raw == Source(n);
    RecordBlock(env, b, n, j, top);
  }

  lemma {:induction false} EchoDecodes(env: Env, b: Binding, rec: Record, n: Node, j: nat, k: ListKind, top: bool,
                                       payloads: map<string, string>)
    requires n.Element?
    requires var (t, d) := DecodeElement(env, b, n, j, top);
             t.Clean() && d.blocks == [rec.block] && Kept(env, b, j, d.regions, payloads)
    ensures var (t, d) := DecodeElement(env, NO_BINDING, n, 0, top);
            && t == NO_FAULT && |d.blocks| == 1 && EraseIn(d.blocks[0]) == EraseIn(CanonBlock(rec.block, k))
            && Carried(payloads, PlaceholdersIn(CanonBlock(rec.block, k)), d.regions)
  {
    hide DecodeElement, CanonBlock, EraseIn, PlaceholdersIn, TokenList;
    DecodeSame(env, b, j, NO_BINDING, 0, n, top);
    DecodeTokens(env, b, n, j, top);
    DecodeTokens(env, NO_BINDING, n, 0, top);
    DecodeSettled(env, b, n, j, top, k);
    CanonOne(rec.block, k);
    assert [CanonBlock(rec.block, k)][0] == [rec.block][0];
    var d := DecodeElement(env, NO_BINDING, n, 0, top).1;
    assert d.blocks == [d.blocks[0]];
    EraseOne(rec.block);
    EraseOne(d.blocks[0]);
    assert [EraseIn(rec.block)][0] == [EraseIn(d.blocks[0])][0];
    PlaceholdersOne(rec.block);
  }

  lemma RegionNode(env: Env, b: Block, chain: seq<Link>, inside: seq<Link>,
                                  payloads: map<string, string>) returns (n: Node)
    requires b.Opaque? && GoodRefs(env, payloads, BlockRefs(b, chain, inside))
    ensures RefersTo(env, payloads, Ref(chain, b.nodeType, b.sentinel), n)
  {
    hide RefersTo;
    var r := Ref(chain, b.nodeType, b.sentinel);
    assert BlockRefs(b, chain, inside) == [r] && [r][0] == r;
    assert GoodRef(env, payloads, r);
    n :| RefersTo(env, payloads, r, n);
  }

  lemma RegionErased(env: Env, n: Node, sentinel: Sentinel, payloads: map<string, string>)
    requires n.Element? && sentinel.source == NativeHtml && sentinel.token in payloads && payloads[sentinel.token] == n.raw
    ensures var d, b := Region(env, NO_BINDING, n, 0), Opaque(TagName(n.tag), sentinel);
            && |d.blocks| == 1 && EraseIn(d.blocks[0]) == EraseIn(b)
            && Carried(payloads, PlaceholdersIn(b), d.regions)
  {
    hide TagName;
  }

  /** A looked-up region is preserved again, at the same level. */
  lemma RegionReprint(env: Env, r: Ref, n: Node, payloads: map<string, string>)
    requires RefersTo(env, payloads, r, n)
    ensures Reprint(env, n, payloads[r.sentinel.token], Opaque(r.nodeType, r.sentinel), r.chain == [], payloads)
  {
    hide DecodeElement, WellOpened, WellClosed, WfAll, PlaceholdersIn, IsRegion;
    RegionDecodes(env, NO_BINDING, n, 0, r.chain == []);
    RegionErased(env, n, r.sentinel, payloads);
    assert n.raw == Source(n);
  }

  lemma {:induction false} LeafReprint(env: Env, b: Block, k: ListKind, top: bool, payloads: map<string, string>)
    requires Leaf(b) && GoodLeaf(b, top) && env.safeStyle(HR_STYLE)
    requires RenderBlock(env, b, Fresh, k, payloads).Ok?
    ensures Reprint(env, LeafNode(b, k), RenderBlock(env, b, Fresh, k, payloads).value, CanonBlock(b, k), top, payloads)
  {
    hide CanonBlock, Unsupported, LeafBlock, NO_FAULT, Wf, PlaceholdersIn, EraseIn, RenderBlock;
    RootPlain();
    LeafRead(env, b, k, payloads, [Root], top);
    LeafDecodes(env, LeafNode(b, k), CanonBlock(b, k), top);
    assert Carried(payloads, [], []);
  }

  lemma {:induction false} LeafDecodes(env: Env, n: Node, b: Block, top: bool)
    requires LeafReads(env, n, b, top) && !Unsupported(n)
    ensures DecodeElement(env, NO_BINDING, n, 0, top) == (NO_FAULT, Decoded([b], [Record(n.raw, n.open, b, [])], []))
    ensures PlaceholdersIn(b) == []
  {
    hide Unsupported, LeafBlock, DecodeNodes, ContainerOf, PlaceholdersIn;
    LeafBlockLeaf(env, n, top);
  }

  // ---------- Containers ----------

  /** `open` is an opening tag that a container with this key may have. */
  ghost predicate OpensContainer(env: Env, open: string, tag: Tag, attrs: Attrs, key: ContainerKey) {
    && open != "" && open[0] == '<' && CleanText(open)
    && LexOpen(env, open) == OpenTag(NO_FAULT, tag, TagRest(NO_FAULT, attrs, false, |open|))
    && ContainerOf(Element(tag, attrs, open, [], "", "", false)) == Some(key)
  }

  function ContainerNode(tag: Tag, attrs: Attrs, open: string, ns: seq<Node>, close: string): Node {
    Element(tag, attrs, open, ns, close, open + Sources(ns) + close, false)
  }

  lemma CloseIs(b: Block)
    requires HoldsBlocks(b)
    ensures CloseContainer(b) == CloseText(TagName(if b.Callout? then Div else Tag.Blockquote))
    ensures CleanText(CloseContainer(b))
  {
  }

  lemma CloseReads(b: Block)
    requires HoldsBlocks(b)
    ensures var c := LexClose(CloseContainer(b));
            c.Some? && c.value.1 == |CloseContainer(b)| && TagOf(c.value.0) == if b.Callout? then Div else Tag.Blockquote
    ensures CleanText(CloseContainer(b))
  {
    hide TagOf, LexClose, NameText, TagName, CloseText, CloseContainer;
    var tag := if b.Callout? then Div else Tag.Blockquote;
    TagReads(tag);
    CloseRead(TagName(tag));
    CloseIs(b);
  }

  /** Elements that the decoder of a body may meet. */
  ghost predicate Bodies(env: Env, ns: seq<Node>) { ElementsOnly(ns) && WfAll(env, ns, [Root]) && Supported(ns) }

  ghost predicate BodyElement(env: Env, n: Node) { n.Element? && Wf(env, n, [Root]) && !Unsupported(n) }

  lemma {:induction false} ContainerWf(env: Env, b: Block, tag: Tag, attrs: Attrs, open: string, ns: seq<Node>)
    requires HoldsBlocks(b) && OpensContainer(env, open, tag, attrs, KeyOf(b).value)
    requires Bodies(env, ns)
    ensures var n := ContainerNode(tag, attrs, open, ns, CloseContainer(b));
            BodyElement(env, n) && Source(n) == open + Sources(ns) + CloseContainer(b)
  {
    hide OpensContainer, WellOpened, WellClosed, StructTrace, PlainCtx, BlockTag, MayOpen, CloseContainer, Supported,
      TextTrace, Entities;
    var n := ContainerNode(tag, attrs, open, ns, CloseContainer(b));
    ContainerTagIs(env, b, tag, attrs, open);
    SwapAll(env, ns, [Root], [Root] + [tag]);
    BlockOpens([Root], tag);
    Opens([Root], tag);
    OpensWell(env, n, KeyOf(b).value);
    ClosesWell(b, n);
    NodeSupported(n);
  }

  lemma ContainerTagIs(env: Env, b: Block, tag: Tag, attrs: Attrs, open: string)
    requires HoldsBlocks(b) && OpensContainer(env, open, tag, attrs, KeyOf(b).value)
    ensures tag == (if b.Callout? then Div else Tag.Blockquote)
    ensures PlainCtx([Root]) && PlainCtx([Root] + [tag]) && BlockTag(tag)
  {
    hide LexOpen, Attr, VariantOf, CleanText, Unstyled;
  }

  lemma ClosesWell(b: Block, n: Node)
    requires HoldsBlocks(b) && n.Element? && n.tag == (if b.Callout? then Div else Tag.Blockquote) && n.close == CloseContainer(b)
    ensures WellClosed(n)
  {
    hide LexClose, CloseContainer, TagOf;
    CloseReads(b);
    assert !n.tag.Void();
  }

  lemma NodeSupported(n: Node)
    requires n.Element? && !n.unsupported && Supported(n.children)
    ensures !Unsupported(n)
  {
  }

  lemma OpensWell(env: Env, n: Node, key: ContainerKey)
    requires n.Element? && !n.unsupported && OpensContainer(env, n.open, n.tag, n.attrs, key) && Supported(n.children)
    ensures WellOpened(env, n)
  {
    hide LexOpen, ContainerOf;
  }

  lemma {:induction false} ContainerDecodes(env: Env, n: Node, b: Block, blocks: seq<Block>, k: ListKind, top: bool,
                                            payloads: map<string, string>, text: string)
    requires n.Element? && !Unsupported(n) && ContainerOf(n) == KeyOf(b)
    requires b == Block.Blockquote(blocks) || (b.Callout? && b.blocks == blocks)
    requires Reprints(env, n.children, text, Canon(blocks, k), false, payloads)
    ensures var (t, d) := DecodeElement(env, NO_BINDING, n, 0, top);
            && t == NO_FAULT && |d.blocks| == 1 && EraseIn(d.blocks[0]) == EraseIn(CanonBlock(b, k))
            && Carried(payloads, PlaceholdersIn(CanonBlock(b, k)), d.regions)
  {
    hide Unsupported, ContainerOf, LeafBlock, DecodeNodes, WfAll, Supported, CleanText, Sources, Carried,
      Placeholders, Erase, Canon;
    assert !StrayText(n.children);
    ContainerKeys(n);
  }

  lemma {:induction false} ContainerReprint(env: Env, b: Block, blocks: seq<Block>, tag: Tag, attrs: Attrs,
                                            open: string, ns: seq<Node>,
                         text: string, k: ListKind, top: bool, payloads: map<string, string>)
    requires b == Block.Blockquote(blocks) || (b.Callout? && b.blocks == blocks)
    requires OpensContainer(env, open, tag, attrs, KeyOf(b).value)
    requires Reprints(env, ns, text, Canon(blocks, k), false, payloads)
    ensures Reprint(env, ContainerNode(tag, attrs, open, ns, CloseContainer(b)), open + text + CloseContainer(b),
                    CanonBlock(b, k), top, payloads)
  {
    hide Carried, CanonBlock, Supported, VariantOf, DecodeElement, DecodeNodes, CleanChar, TagOf, LexClose, LexOpen,
      Source, Sources, Wf, WfAll, PlaceholdersIn, Erase, EraseIn, CloseContainer;
    assert ElementsOnly(ns) && WfAll(env, ns, [Root]) && Supported(ns) && Sources(ns) == text && CleanText(text);
    ContainerWf(env, b, tag, attrs, open, ns);
    var n := ContainerNode(tag, attrs, open, ns, CloseContainer(b));
    assert ContainerOf(n) == KeyOf(b);
    ContainerDecodes(env, n, b, blocks, k, top, payloads, text);
    CloseReads(b);
    assert CleanText(open);
    assert CleanText(open + text + CloseContainer(b));
  }

  lemma {:induction false} OriginalOpens(env: Env, n: Node, ctx: seq<Tag>)
    requires ctx != [] && n.Element? && Wf(env, n, ctx) && CleanText(Source(n)) && !Unsupported(n) && ContainerOf(n).Some?
    ensures OpensContainer(env, n.open, n.tag, n.attrs, ContainerOf(n).value)
  {
    hide LexOpen, StructTrace, WellClosed, CleanText, WfAll, AnyUnsupportedText, VariantOf;
    CleanParts(n);
    assert WellOpened(env, n);
    assert !n.unsupported;
  }

  function CalloutPairs(v: Variant): seq<KeyValue> {
    [KeyValue("data-type", "callout"), KeyValue("data-variant", VariantName(v))]
  }

  lemma VariantSafe(v: Variant)
    ensures ClassText(VariantName(v)) && VariantOf(VariantName(v)) == Some(v)
  {
  }

  lemma {:induction false} DataFine(env: Env, seen: set<string>, key: string, value: string)
    requires key == "data-type" || key == "data-variant"
    requires key !in seen && CleanText(value)
    ensures NameText(key) && AttrTrace(env, Div, seen, key, Escape(value)).Clean()
  {
    hide CleanText, Escape, AttrTrace, ActiveAttr;
    assert key[5..] == "type" || key[5..] == "variant";
    assert StartsWith(key, "data-");
    assert IsDataName(key, "data-");
    NotActive(key);
    AttrFine(env, Div, seen, key, value);
  }

  lemma {:induction false} CalloutFine(env: Env, v: Variant)
    ensures AttrsFine(env, Div, CalloutPairs(v), {})
    ensures AttrMap(CalloutPairs(v), map[]) == map["data-type" := "callout", "data-variant" := VariantName(v)]
  {
    hide AttrTrace, NameText, VariantName, CleanText, Escape, ClassText;
    VariantSafe(v);
    ClassTextSafe(VariantName(v));
    CalloutWord();
    DataFine(env, {}, "data-type", "callout");
    DataFine(env, {} + {"data-type"}, "data-variant", VariantName(v));
    TwoAttrs(env, Div, CalloutPairs(v)[0], CalloutPairs(v)[1]);
    TwoAttrsMap(CalloutPairs(v)[0], CalloutPairs(v)[1]);
  }

  lemma CalloutText(v: Variant)
    ensures OpenText("div", CalloutPairs(v), ">")
         == "<div" + Attribute("data-type", "callout") + Attribute("data-variant", VariantName(v)) + ">"
  {
    hide VariantName, ClassText, Escape, CleanText, AttrText, Attribute;
    VariantSafe(v);
    ClassTextSafe(VariantName(v));
    CalloutWord();
    var a, b := CalloutPairs(v)[0], CalloutPairs(v)[1];
    TwoAttrsText(a, b);
    OneAttrText(a.key, a.value);
    OneAttrText(b.key, b.value);
  }

  lemma CalloutWord()
    ensures Escape("callout") == "callout" && CleanText("callout")
  {
    assert ClassText("callout");
    ClassTextSafe("callout");
  }

  function ContainerTag(b: Block): Tag
    requires HoldsBlocks(b)
  {
    if b.Callout? then Div else Tag.Blockquote
  }

  function ContainerPairs(b: Block): seq<KeyValue>
    requires HoldsBlocks(b)
  {
    if b.Callout? then CalloutPairs(b.variant) else []
  }

  lemma OpenIs(b: Block)
    requires HoldsBlocks(b)
    ensures OpenContainer(b) == OpenText(TagName(ContainerTag(b)), ContainerPairs(b), ">")
  {
    match b
    case Callout(v, _) => CalloutText(v);
    case Blockquote(_) =>
      var none: seq<KeyValue> := [];
      assert AttrText(none) == "";
  }

  lemma {:induction false} FreshFine(env: Env, b: Block)
    requires HoldsBlocks(b)
    ensures AttrsFine(env, ContainerTag(b), ContainerPairs(b), {})
    ensures ContainerOf(Element(ContainerTag(b), AttrMap(ContainerPairs(b), map[]), OpenContainer(b), [], "", "", false)) == KeyOf(b)
  {
    hide AttrsFine, VariantName, VariantOf, CalloutPairs, ClassText, OpenContainer;
    if b.Callout? {
      CalloutFine(env, b.variant);
      VariantSafe(b.variant);
    } else {
      NoAttrs(env, Tag.Blockquote);
    }
  }

  lemma FreshOpens(env: Env, b: Block)
    requires HoldsBlocks(b)
    ensures OpensContainer(env, OpenContainer(b), ContainerTag(b), AttrMap(ContainerPairs(b), map[]), KeyOf(b).value)
  {
    hide TextTag, TableTag, AttrText, AttrMap, NameText, ContainerOf, Tag.Known, Tag.Forbidden, LexOpen;
    var name := TagName(ContainerTag(b));
    assert Printed(ContainerTag(b));
    TagReads(ContainerTag(b));
    FreshFine(env, b);
    OpenIs(b);
    OpenRead(env, name, ContainerPairs(b), ">");
    OpenStarts(name, ContainerPairs(b), ">");
    NameClean(name);
    AttrTextClean(env, ContainerTag(b), ContainerPairs(b), {});
    OpenClean(name, ContainerPairs(b), ">");
  }

  // ---------- Every block list ----------

  /** What the whole list was planned from. */
  ghost predicate AllPlannedFrom(env: Env, b: Binding, payloads: map<string, string>, bs: seq<Block>, plan: seq<Planned>,
                            top: bool) {
    && |plan| == |bs|
    && forall i :: 0 <= i < |plan| ==> PlannedFrom(env, b, payloads, bs[i], plan[i], top)
  }

  ghost predicate PlannedFrom(env: Env, b: Binding, payloads: map<string, string>, x: Block, p: Planned, top: bool) {
    match p
    case Fresh => true
    case Echo(record) => FromRecord(env, b, payloads, record, top) && record.block == x
    case Inside(record) =>
      FromRecord(env, b, payloads, record, top) && HoldsBlocks(x) && KeyOf(record.block) == KeyOf(x)
  }

  lemma PlanOf(env: Env, b: Binding, payloads: map<string, string>, bs: seq<Block>, records: Option<seq<Record>>,
               top: bool)
    requires records.Some? ==> AllFrom(env, b, payloads, records.value, top)
    ensures var plan := if records.Some? then Plan(bs, records.value) else seq(|bs|, i => Fresh);
            AllPlannedFrom(env, b, payloads, bs, plan, top)
  {
    hide FromRecord, Plan;
    if records.Some? { PlanFits(bs, records.value); }
  }

  /** The blocks a list is rendered from refer to regions that were preserved, and were validated. */
  ghost predicate Ready(env: Env, bs: seq<Block>, chain: seq<Link>, seen: map<ContainerKey, nat>,
                        payloads: map<string, string>) {
    GoodBlocks(bs, chain == []) && NoContinuation(bs) && GoodRefs(env, payloads, Refs(bs, chain, seen))
  }

  ghost predicate ReadyIn(env: Env, b: Block, chain: seq<Link>, inside: seq<Link>, payloads: map<string, string>) {
    && GoodBlock(b, chain == []) && NoContinuationIn(b) && (KeyOf(b).Some? ==> inside != [])
    && GoodRefs(env, payloads, BlockRefs(b, chain, inside))
  }

  lemma ReadyFirst(env: Env, bs: seq<Block>, chain: seq<Link>, seen: map<ContainerKey, nat>,
                                  payloads: map<string, string>)
    requires bs != [] && Ready(env, bs, chain, seen, payloads)
    ensures ReadyIn(env, bs[0], chain, InsideOf(bs[0], chain, seen), payloads)
    ensures Ready(env, bs[1..], chain, SeenAfter(bs[0], seen), payloads)
  {
    hide GoodRef, Refs, BlockRefs, GoodBlock, NoContinuationIn, KeyOf;
    RefsStep(bs[0], bs[1..], chain, seen);
    assert [bs[0]] + bs[1..] == bs;
    var x, y := BlockRefs(bs[0], chain, InsideOf(bs[0], chain, seen)), Refs(bs[1..], chain, SeenAfter(bs[0], seen));
    GoodRefsSplit(env, payloads, x, y);
  }

  lemma GoodRefsSplit(env: Env, payloads: map<string, string>, x: seq<Ref>, y: seq<Ref>)
    requires GoodRefs(env, payloads, x + y)
    ensures GoodRefs(env, payloads, x) && GoodRefs(env, payloads, y)
  {
    hide GoodRef;
    forall i | 0 <= i < |x| ensures GoodRef(env, payloads, x[i]) { assert (x + y)[i] == x[i]; }
    forall i | 0 <= i < |y| ensures GoodRef(env, payloads, y[i]) { assert (x + y)[|x| + i] == y[i]; }
  }

  lemma {:induction false} PlannedStep(env: Env, bs: seq<Block>, plan: seq<Planned>, k: ListKind,
                                       payloads: map<string, string>)
    requires |plan| == |bs| && bs != [] && RenderPlanned(env, bs, plan, k, payloads).Ok?
    ensures RenderBlock(env, bs[0], plan[0], k, payloads).Ok? && RenderPlanned(env, bs[1..], plan[1..], k, payloads).Ok?
    ensures RenderPlanned(env, bs, plan, k, payloads).value
         == RenderBlock(env, bs[0], plan[0], k, payloads).value + RenderPlanned(env, bs[1..], plan[1..], k, payloads).value
  {
    hide RenderBlock;
  }

  lemma {:induction false} CanonFirst(bs: seq<Block>, k: ListKind)
    requires bs != []
    ensures Canon(bs, k) == [CanonBlock(bs[0], k)] + Canon(bs[1..], k)
  {
    hide CanonBlock;
  }

  /** Whatever the serializer writes for a list of blocks is the source of nodes that decode to
      these blocks in canonical form. */
  lemma {:induction false} PlannedReprint(env: Env, b: Binding, bs: seq<Block>, plan: seq<Planned>, k: ListKind,
                                              chain: seq<Link>, seen: map<ContainerKey, nat>, payloads: map<string, string>)
    returns (ns: seq<Node>)
    requires env.safeStyle(HR_STYLE)
    requires Ready(env, bs, chain, seen, payloads) && AllPlannedFrom(env, b, payloads, bs, plan, chain == [])
    requires RenderPlanned(env, bs, plan, k, payloads).Ok?
    ensures Reprints(env, ns, RenderPlanned(env, bs, plan, k, payloads).value, Canon(bs, k), chain == [], payloads)
    decreases bs, 2
  {
    if bs == [] {
      ns := [];
      ReprintsNone(env, chain == [], payloads);
    } else {
      PlannedStep(env, bs, plan, k, payloads);
      CanonFirst(bs, k);
      ReadyFirst(env, bs, chain, seen, payloads);
      assert PlannedFrom(env, b, payloads, bs[0], plan[0], chain == []);
      assert AllPlannedFrom(env, b, payloads, bs[1..], plan[1..], chain == []);
      var head := BlockReprint(env, b, bs[0], plan[0], k, chain, InsideOf(bs[0], chain, seen), payloads);
      var tail := PlannedReprint(env, b, bs[1..], plan[1..], k, chain, SeenAfter(bs[0], seen), payloads);
      ReprintsFirst(env, head, tail, RenderBlock(env, bs[0], plan[0], k, payloads).value,
                    RenderPlanned(env, bs[1..], plan[1..], k, payloads).value, CanonBlock(bs[0], k), Canon(bs[1..], k),
                    chain == [], payloads);
      ns := [head] + tail;
    }
  }

  lemma {:induction false} BlocksReprint(env: Env, b: Binding, bs: seq<Block>, records: Option<seq<Record>>,
                                         k: ListKind,
                                             chain: seq<Link>, payloads: map<string, string>)
    returns (ns: seq<Node>)
    requires env.safeStyle(HR_STYLE)
    requires Ready(env, bs, chain, map[], payloads)
    requires records.Some? ==> AllFrom(env, b, payloads, records.value, chain == [])
    requires RenderBlocks(env, bs, records, k, payloads).Ok?
    ensures Reprints(env, ns, RenderBlocks(env, bs, records, k, payloads).value, Canon(bs, k), chain == [], payloads)
    decreases bs, 3
  {
    hide AllFrom, Reprints, AllPlannedFrom, Ready, Canon, HR_STYLE, Plan, RenderPlanned;
    PlanOf(env, b, payloads, bs, records, chain == []);
    var plan := if records.Some? then Plan(bs, records.value) else seq(|bs|, i => Fresh);
    ns := PlannedReprint(env, b, bs, plan, k, chain, map[], payloads);
  }

  lemma ReadyInside(env: Env, b: Block, blocks: seq<Block>, chain: seq<Link>, inside: seq<Link>,
                    payloads: map<string, string>)
    requires b == Block.Blockquote(blocks) || (b.Callout? && b.blocks == blocks)
    requires ReadyIn(env, b, chain, inside, payloads)
    ensures inside != [] && Ready(env, blocks, inside, map[], payloads) && HoldsBlocks(b)
  {
    hide GoodRefs, Refs, GoodBlocks, NoContinuation;
  }

  lemma {:induction false} ContainerStep(env: Env, b: Block, blocks: seq<Block>, p: Planned, k: ListKind,
                                         payloads: map<string, string>)
    requires b == Block.Blockquote(blocks) || (b.Callout? && b.blocks == blocks)
    requires !p.Echo? && RenderBlock(env, b, p, k, payloads).Ok?
    ensures HoldsBlocks(b)
    ensures var records := if p.Inside? then Some(p.record.children) else None;
            var open := if p.Inside? then p.record.open else OpenContainer(b);
            && RenderBlocks(env, blocks, records, k, payloads).Ok?
            && RenderBlock(env, b, p, k, payloads).value
               == open + RenderBlocks(env, blocks, records, k, payloads).value + CloseContainer(b)
  {
    hide RenderBlocks, OpenContainer, CloseContainer;
  }

  lemma {:induction false} BlockReprint(env: Env, b: Binding, x: Block, p: Planned, k: ListKind, chain: seq<Link>,
                                            inside: seq<Link>, payloads: map<string, string>)
    returns (n: Node)
    requires env.safeStyle(HR_STYLE)
    requires ReadyIn(env, x, chain, inside, payloads) && PlannedFrom(env, b, payloads, x, p, chain == [])
    requires RenderBlock(env, x, p, k, payloads).Ok?
    ensures Reprint(env, n, RenderBlock(env, x, p, k, payloads).value, CanonBlock(x, k), chain == [], payloads)
    decreases x, 2
  {
    hide FromRecord, Reprint, ReadyIn, CanonBlock, Tagged, RenderLeaf, RenderItems;
    if p.Echo? {
      n := EchoReprint(env, b, p.record, k, chain == [], payloads);
    } else if x.Blockquote? || x.Callout? {
      n := ContainerReprinted(env, b, x, x.blocks, p, k, chain, inside, payloads);
    } else {
      assert p == Fresh;
      n := FlatReprint(env, x, k, chain, inside, payloads);
    }
  }

  lemma FlatReprint(env: Env, x: Block, k: ListKind, chain: seq<Link>, inside: seq<Link>, payloads: map<string, string>)
    returns (n: Node)
    requires env.safeStyle(HR_STYLE) && !HoldsBlocks(x)
    requires ReadyIn(env, x, chain, inside, payloads) && RenderBlock(env, x, Fresh, k, payloads).Ok?
    ensures Reprint(env, n, RenderBlock(env, x, Fresh, k, payloads).value, CanonBlock(x, k), chain == [], payloads)
  {
    hide Reprint, GoodBlocks, CanonTasks, CanonItems, Canon, NoContinuationIn, LeafNode, CanonRuns, Unsupported,
      HR_STYLE, KindClass, LanguageText, TagName, BlockRefs, CleanText, Tag.Heading, Wf, IsRegion, GoodRefs, Escape,
      Tagged, Attribute, RenderInlines, RenderTaskItems, Rows, HeadingName, OriginalOf;
    if x.Opaque? {
      n := RegionNode(env, x, chain, inside, payloads);
      RegionReprint(env, Ref(chain, x.nodeType, x.sentinel), n, payloads);
    } else if x.Reference? {
      assert false;
    } else {
      n := LeafNode(x, k);
      assert Leaf(x);
      assert GoodLeaf(x, chain == []);
      LeafReprint(env, x, k, chain == [], payloads);
    }
  }

  lemma {:induction false} ContainerReprinted(env: Env, b: Binding, x: Block, blocks: seq<Block>, p: Planned,
                                              k: ListKind,
                                                  chain: seq<Link>, inside: seq<Link>, payloads: map<string, string>)
    returns (n: Node)
    requires env.safeStyle(HR_STYLE) && !p.Echo?
    requires x == Block.Blockquote(blocks) || (x.Callout? && x.blocks == blocks)
    requires ReadyIn(env, x, chain, inside, payloads) && PlannedFrom(env, b, payloads, x, p, chain == [])
    requires RenderBlock(env, x, p, k, payloads).Ok?
    ensures Reprint(env, n, RenderBlock(env, x, p, k, payloads).value, CanonBlock(x, k), chain == [], payloads)
    decreases blocks, 4
  {
    hide FromRecord, Reprint, Reprints, OpensContainer, ContainerNode, ContainerTag, ContainerPairs, Ready, ReadyIn,
      CanonBlock, Canon, AttrMap, HR_STYLE, KeyOf, RenderBlock, RenderBlocks;
    ContainerStep(env, x, blocks, p, k, payloads);
    ReadyInside(env, x, blocks, chain, inside, payloads);
    if p.Inside? {
      assert FromRecord(env, b, payloads, p.record, chain == []) && KeyOf(p.record.block) == KeyOf(x);
      var o, j, ctx := OriginOf(env, b, payloads, p.record, x, chain == []);
      var ns := BlocksReprint(env, b, blocks, Some(p.record.children), k, inside, payloads);
      n := ContainerNode(o.tag, o.attrs, o.open, ns, CloseContainer(x));
      ContainerReprint(env, x, blocks, o.tag, o.attrs, o.open, ns,
                       RenderBlocks(env, blocks, Some(p.record.children), k, payloads).value, k, chain == [], payloads);
    } else {
      FreshOpens(env, x);
      var ns := BlocksReprint(env, b, blocks, None, k, inside, payloads);
      n := ContainerNode(ContainerTag(x), AttrMap(ContainerPairs(x), map[]), OpenContainer(x), ns, CloseContainer(x));
      ContainerReprint(env, x, blocks, ContainerTag(x), AttrMap(ContainerPairs(x), map[]), OpenContainer(x), ns,
                       RenderBlocks(env, blocks, None, k, payloads).value, k, chain == [], payloads);
    }
  }

  lemma OriginOf(env: Env, b: Binding, payloads: map<string, string>, rec: Record, x: Block, top: bool)
    returns (n: Node, j: nat, ctx: seq<Tag>)
    requires FromRecord(env, b, payloads, rec, top) && HoldsBlocks(x) && KeyOf(rec.block) == KeyOf(x)
    ensures n.Element? && n.open == rec.open
    ensures OpensContainer(env, n.open, n.tag, n.attrs, KeyOf(x).value)
    ensures AllFrom(env, b, payloads, rec.children, false)
  {
    hide AllFrom, OpensContainer, DecodeElement, Trace.Clean, Wf;
    n, j, ctx :| FromNode(env, b, payloads, rec, n, j, top, ctx);
    assert HoldsBlocks(rec.block);
    InsideRecords(env, b, payloads, rec, n, j, top, ctx);
    assert n.Element? && ctx != [] && Wf(env, n, ctx) && CleanText(Source(n));
    OriginalOpens(env, n, ctx);
  }
}
