/** Preserved regions: how a decode names them, what of a document is left without those names,
    and where the regions a document refers to came from. */
module NativeRegions {
  import opened Text
  import opened NativeFaults
  import opened NativeHtml
  import opened NativeHtmlTheory
  import opened NoteDocument
  import opened NativeDecode
  import opened NativeCanon
  import opened NativeInline
  import opened NativeBlocks

  // ---------- Containers that do not change what may stand inside them ----------

  /** Opening `tag` directly inside `parent` reaches no fault. */
  predicate MayNest(parent: Tag, tag: Tag, linked: bool) {
    tag.Known() ==>
      && (parent.P? || parent.Heading() || parent.Phrasing() ==> tag.Phrasing())
      && (tag.A? ==> !linked)
      && parent != Other("constructor")
      && ChildAllowed(parent, tag)
      && (parent.Root? || parent.Known() ==> ParentAllowed(parent, tag))
  }

  lemma NestClean(ctx: seq<Tag>, tag: Tag)
    requires ctx != []
    ensures StructTrace(ctx, tag).Clean() <==> MayNest(ctx[|ctx| - 1], tag, A in ctx)
  {
    hide Tag.Known, Tag.Phrasing, Tag.Heading, ChildAllowed, ParentAllowed, ClosesOpenListItem;
  }

  lemma PlainParent(a: Tag, b: Tag, tag: Tag, linked: bool)
    requires (a.Root? || a.Div? || a.Blockquote?) && (b.Root? || b.Div? || b.Blockquote?)
    ensures MayNest(a, tag, linked) == MayNest(b, tag, linked)
  {
    assert ParentAllowed(a, tag) == ParentAllowed(b, tag);
    hide ParentAllowed;
  }

  lemma PlainStruct(a: seq<Tag>, b: seq<Tag>, inner: seq<Tag>, tag: Tag)
    requires PlainCtx(a) && PlainCtx(b) && StructTrace(a + inner, tag).Clean()
    ensures StructTrace(b + inner, tag).Clean()
  {
    hide MayNest, StructTrace;
    NestClean(a + inner, tag);
    NestClean(b + inner, tag);
    var x, y := (a + inner)[|a + inner| - 1], (b + inner)[|b + inner| - 1];
    assert A in a + inner <==> A in inner;
    assert A in b + inner <==> A in inner;
    if inner != [] {
      assert x == y;
    } else {
      assert x == a[|a| - 1] && y == b[|b| - 1];
      PlainParent(x, y, tag, A in inner);
    }
  }

  lemma PlainText(a: seq<Tag>, b: seq<Tag>, inner: seq<Tag>, value: string)
    requires PlainCtx(a) && PlainCtx(b) && TextTrace((a + inner)[|a + inner| - 1], value).Clean()
    ensures TextTrace((b + inner)[|b + inner| - 1], value).Clean()
  {
    hide CleanTrace, Blank;
    var x, y := (a + inner)[|a + inner| - 1], (b + inner)[|b + inner| - 1];
    if inner != [] {
      assert x == y;
    } else {
      assert x == a[|a| - 1] && y == b[|b| - 1];
    }
  }

  /** What may stand inside some block containers may stand inside any. */
  lemma {:induction false} PlainSwap(env: Env, n: Node, a: seq<Tag>, b: seq<Tag>, inner: seq<Tag>)
    requires PlainCtx(a) && PlainCtx(b) && Wf(env, n, a + inner)
    ensures Wf(env, n, b + inner)
    decreases n, 0
  {
    hide StructTrace, TextTrace, WellOpened, WellClosed, Source, PlainCtx, Entities, Trace.Clean;
    match n
    case TextNode(_, value, _) => PlainText(a, b, inner, value);
    case Element(tag, _, _, children, _, _, _) =>
      PlainStruct(a, b, inner, tag);
      assert a + (inner + [tag]) == a + inner + [tag] && b + (inner + [tag]) == b + inner + [tag];
      PlainSwapAll(env, children, a, b, inner + [tag]);
  }

  lemma {:induction false} PlainSwapAll(env: Env, ns: seq<Node>, a: seq<Tag>, b: seq<Tag>, inner: seq<Tag>)
    requires PlainCtx(a) && PlainCtx(b) && WfAll(env, ns, a + inner)
    ensures WfAll(env, ns, b + inner)
    decreases ns, 1
  {
    hide Wf, PlainCtx;
    if ns != [] {
      PlainSwap(env, ns[0], a, b, inner);
      PlainSwapAll(env, ns[1..], a, b, inner);
    }
  }

  lemma {:induction false} Swap(env: Env, n: Node, a: seq<Tag>, b: seq<Tag>)
    requires PlainCtx(a) && PlainCtx(b) && Wf(env, n, a)
    ensures Wf(env, n, b)
  {
    hide Wf;
    assert a + [] == a && b + [] == b;
    PlainSwap(env, n, a, b, []);
  }

  lemma {:induction false} SwapAll(env: Env, ns: seq<Node>, a: seq<Tag>, b: seq<Tag>)
    requires PlainCtx(a) && PlainCtx(b) && WfAll(env, ns, a)
    ensures WfAll(env, ns, b)
  {
    hide WfAll;
    assert a + [] == a && b + [] == b;
    PlainSwapAll(env, ns, a, b, []);
  }

  // ---------- Placeholders ----------

  /** The tokens of a document's opaque blocks, in document order. */
  function Placeholders(bs: seq<Block>): seq<string>
    decreases bs, 1
  {
    if bs == [] then [] else PlaceholdersIn(bs[0]) + Placeholders(bs[1..])
  }

  function PlaceholdersIn(b: Block): seq<string>
    decreases b, 1
  {
    match b
    case Opaque(_, sentinel) => [sentinel.token]
    case Blockquote(blocks) => Placeholders(blocks)
    case Callout(_, blocks) => Placeholders(blocks)
    case BulletList(items) => ItemPlaceholders(items)
    case OrderedList(items) => ItemPlaceholders(items)
    case _ => []
  }

  function ItemPlaceholders(items: seq<ListItem>): seq<string>
    decreases items, 1
  {
    if items == [] then []
    else
      (match items[0] case ItemWith(_, blocks) => Placeholders(blocks) case Item(_) => [])
      + ItemPlaceholders(items[1..])
  }

  /** A document without the tokens of its opaque blocks. */
  function Erase(bs: seq<Block>): (r: seq<Block>)
    ensures |r| == |bs|
    decreases bs, 1
  {
    if bs == [] then [] else [EraseIn(bs[0])] + Erase(bs[1..])
  }

  function EraseIn(b: Block): Block
    decreases b, 1
  {
    match b
    case Opaque(nodeType, sentinel) => Opaque(nodeType, sentinel.(token := ""))
    case Blockquote(blocks) => Block.Blockquote(Erase(blocks))
    case Callout(v, blocks) => Callout(v, Erase(blocks))
    case BulletList(items) => BulletList(EraseItems(items))
    case OrderedList(items) => OrderedList(EraseItems(items))
    case _ => b
  }

  function EraseItems(items: seq<ListItem>): (r: seq<ListItem>)
    ensures |r| == |items|
    decreases items, 1
  {
    if items == [] then []
    else
      [match items[0] case ItemWith(inlines, blocks) => ItemWith(inlines, Erase(blocks)) case Item(_) => items[0]]
      + EraseItems(items[1..])
  }

  lemma {:induction false} ErasedCount(a: seq<Block>, b: seq<Block>)
    requires Erase(a) == Erase(b)
    ensures |Placeholders(a)| == |Placeholders(b)|
    decreases a, 1
  {
    assert |a| == |b|;
    if a != [] {
      assert Erase(a)[0] == EraseIn(a[0]) && Erase(b)[0] == EraseIn(b[0]);
      assert Erase(a)[1..] == Erase(a[1..]) && Erase(b)[1..] == Erase(b[1..]);
      ErasedCountIn(a[0], b[0]);
      ErasedCount(a[1..], b[1..]);
    }
  }

  lemma {:induction false} ErasedCountIn(a: Block, b: Block)
    requires EraseIn(a) == EraseIn(b)
    ensures |PlaceholdersIn(a)| == |PlaceholdersIn(b)|
    decreases a, 1
  {
    match a
    case Blockquote(blocks) => ErasedCount(blocks, b.blocks);
    case Callout(_, blocks) => ErasedCount(blocks, b.blocks);
    case BulletList(items) => ErasedCountItems(items, b.items);
    case OrderedList(items) => ErasedCountItems(items, b.items);
    case _ =>
  }

  lemma {:induction false} ErasedCountItems(a: seq<ListItem>, b: seq<ListItem>)
    requires EraseItems(a) == EraseItems(b)
    ensures |ItemPlaceholders(a)| == |ItemPlaceholders(b)|
    decreases a, 1
  {
    assert |a| == |b|;
    if a != [] {
      assert EraseItems(a)[1..] == EraseItems(a[1..]) && EraseItems(b)[1..] == EraseItems(b[1..]);
      assert EraseItems(a)[0] == EraseItems(b)[0];
      if a[0].ItemWith? { ErasedCount(a[0].blocks, b[0].blocks); }
      ErasedCountItems(a[1..], b[1..]);
    }
  }

  /** A document is its erasure and its placeholders. */
  lemma {:induction false} ErasedEqual(a: seq<Block>, b: seq<Block>)
    requires Erase(a) == Erase(b) && Placeholders(a) == Placeholders(b)
    ensures a == b
    decreases a, 1
  {
    assert |a| == |b|;
    if a != [] {
      assert Erase(a)[0] == EraseIn(a[0]) && Erase(b)[0] == EraseIn(b[0]);
      assert Erase(a)[1..] == Erase(a[1..]) && Erase(b)[1..] == Erase(b[1..]);
      ErasedCountIn(a[0], b[0]);
      SplitEqual(PlaceholdersIn(a[0]), PlaceholdersIn(b[0]), Placeholders(a[1..]), Placeholders(b[1..]));
      ErasedEqualIn(a[0], b[0]);
      ErasedEqual(a[1..], b[1..]);
      assert a == [a[0]] + a[1..] && b == [b[0]] + b[1..];
    }
  }

  lemma SplitEqual<T>(a: seq<T>, b: seq<T>, x: seq<T>, y: seq<T>)
    requires |a| == |b| && a + x == b + y
    ensures a == b && x == y
  {
    assert a == (a + x)[..|a|] == (b + y)[..|b|] == b;
    assert x == (a + x)[|a|..] == (b + y)[|b|..] == y;
  }

  lemma {:induction false} ErasedEqualIn(a: Block, b: Block)
    requires EraseIn(a) == EraseIn(b) && PlaceholdersIn(a) == PlaceholdersIn(b)
    ensures a == b
    decreases a, 1
  {
    match a
    case Opaque(_, sentinel) => assert PlaceholdersIn(a)[0] == PlaceholdersIn(b)[0];
    case Blockquote(blocks) => ErasedEqual(blocks, b.blocks);
    case Callout(_, blocks) => ErasedEqual(blocks, b.blocks);
    case BulletList(items) => ErasedEqualItems(items, b.items);
    case OrderedList(items) => ErasedEqualItems(items, b.items);
    case _ =>
  }

  lemma {:induction false} ErasedEqualItems(a: seq<ListItem>, b: seq<ListItem>)
    requires EraseItems(a) == EraseItems(b) && ItemPlaceholders(a) == ItemPlaceholders(b)
    ensures a == b
    decreases a, 1
  {
    hide Placeholders, Erase;
    assert |a| == |b|;
    if a != [] {
      assert EraseItems(a)[1..] == EraseItems(a[1..]) && EraseItems(b)[1..] == EraseItems(b[1..]);
      assert EraseItems(a)[0] == EraseItems(b)[0];
      if a[0].ItemWith? {
        ErasedCount(a[0].blocks, b[0].blocks);
        SplitEqual(Placeholders(a[0].blocks), Placeholders(b[0].blocks), ItemPlaceholders(a[1..]), ItemPlaceholders(b[1..]));
        ErasedEqual(a[0].blocks, b[0].blocks);
      } else {
        SplitEqual([], [], ItemPlaceholders(a[1..]), ItemPlaceholders(b[1..]));
      }
      ErasedEqualItems(a[1..], b[1..]);
      assert a == [a[0]] + a[1..] && b == [b[0]] + b[1..];
    }
  }

  /** What is decoded after the first element. */
  function Rest(env: Env, b: Binding, ns: seq<Node>, k: nat, top: bool): (Trace, Decoded)
    requires ns != [] && ns[0].Element?
  {
    DecodeNodes(env, b, ns[1..], k + |DecodeElement(env, b, ns[0], k, top).1.regions|, top)
  }

  lemma {:induction false} DecodeStep(env: Env, b: Binding, ns: seq<Node>, k: nat, top: bool)
    ensures ns == [] ==> DecodeNodes(env, b, ns, k, top) == (NO_FAULT, Decoded([], [], []))
    ensures ns != [] && ns[0].TextNode? ==>
              DecodeNodes(env, b, ns, k, top) == DecodeNodes(env, b, ns[1..], k, top)
    ensures ns != [] && ns[0].Element? ==>
              var (t, h) := DecodeElement(env, b, ns[0], k, top);
              var (t', tail) := Rest(env, b, ns, k, top);
              DecodeNodes(env, b, ns, k, top)
              == if t.stop.Some? then (t, h) else (t.Then(t'), h.And(tail))
  {
    hide DecodeElement, Trace.Then, Decoded.And;
  }

  // ---------- A decode depends on its binding only through the placeholders ----------

  /** Two decodes of the same source differ in nothing but placeholders. */
  ghost predicate SameButTokens(x: (Trace, Decoded), y: (Trace, Decoded)) {
    x.0 == y.0 && x.1.regions == y.1.regions && Erase(x.1.blocks) == Erase(y.1.blocks)
  }

  lemma {:induction false} EraseOne(b: Block)
    ensures Erase([b]) == [EraseIn(b)]
  {
    assert [b][1..] == [];
  }

  lemma {:induction false} EraseOf(a: seq<Block>, b: seq<Block>)
    ensures Erase(a + b) == Erase(a) + Erase(b)
  {
    if a == [] {
      assert a + b == b;
    } else {
      assert (a + b)[1..] == a[1..] + b;
      EraseOf(a[1..], b);
    }
  }

  lemma {:induction false} DecodeSame(env: Env, b1: Binding, k1: nat, b2: Binding, k2: nat, n: Node, top: bool)
    requires n.Element?
    ensures SameButTokens(DecodeElement(env, b1, n, k1, top), DecodeElement(env, b2, n, k2, top))
    decreases n, 0
  {
    hide Unsupported, ContainerOf, StrayText, LeafBlock, DecodeNodes;
    if !Unsupported(n) && ContainerOf(n).Some? && !StrayText(n.children) {
      DecodeSameAll(env, b1, k1, b2, k2, n.children, false);
      EraseOne(Wrap(ContainerOf(n).value, DecodeNodes(env, b1, n.children, k1, false).1.blocks));
      EraseOne(Wrap(ContainerOf(n).value, DecodeNodes(env, b2, n.children, k2, false).1.blocks));
    } else {
      EraseOne(Region(env, b1, n, k1).blocks[0]);
      EraseOne(Region(env, b2, n, k2).blocks[0]);
    }
  }

  lemma {:induction false} DecodeSameAll(env: Env, b1: Binding, k1: nat, b2: Binding, k2: nat, ns: seq<Node>, top: bool)
    ensures SameButTokens(DecodeNodes(env, b1, ns, k1, top), DecodeNodes(env, b2, ns, k2, top))
    decreases ns, 1
  {
    hide DecodeElement, DecodeNodes;
    DecodeStep(env, b1, ns, k1, top);
    DecodeStep(env, b2, ns, k2, top);
    if ns != [] && ns[0].TextNode? {
      DecodeSameAll(env, b1, k1, b2, k2, ns[1..], top);
    } else if ns != [] {
      DecodeSame(env, b1, k1, b2, k2, ns[0], top);
      var (t1, h1) := DecodeElement(env, b1, ns[0], k1, top);
      var (t2, h2) := DecodeElement(env, b2, ns[0], k2, top);
      if t1.stop == None {
        DecodeSameAll(env, b1, k1 + |h1.regions|, b2, k2 + |h2.regions|, ns[1..], top);
        EraseOf(h1.blocks, DecodeNodes(env, b1, ns[1..], k1 + |h1.regions|, top).1.blocks);
        EraseOf(h2.blocks, DecodeNodes(env, b2, ns[1..], k2 + |h2.regions|, top).1.blocks);
      }
    }
  }

  // ---------- What a decode calls its regions ----------

  function TokenList(env: Env, b: Binding, k: nat, regions: seq<string>): (r: seq<string>)
    ensures |r| == |regions|
  {
    seq(|regions|, i requires 0 <= i < |regions| => env.token(b, k + i, regions[i]))
  }

  lemma {:induction false} PlaceholdersOf(a: seq<Block>, b: seq<Block>)
    ensures Placeholders(a + b) == Placeholders(a) + Placeholders(b)
  {
    if a == [] {
      assert a + b == b;
    } else {
      assert (a + b)[1..] == a[1..] + b;
      PlaceholdersOf(a[1..], b);
      assert PlaceholdersIn(a[0]) + (Placeholders(a[1..]) + Placeholders(b))
          == PlaceholdersIn(a[0]) + Placeholders(a[1..]) + Placeholders(b);
    }
  }

  lemma {:induction false} PlaceholdersOne(b: Block)
    ensures Placeholders([b]) == PlaceholdersIn(b)
  {
    assert [b][1..] == [];
  }

  /** A leaf block read from HTML: no region, no blocks of its own, canonical. */
  predicate ReadLeaf(b: Block) { Leaf(b) && NoContinuationIn(b) && PlaceholdersIn(b) == [] && AllItems(b) }

  /** List items read from HTML have no field for blocks of their own. */
  predicate AllItems(b: Block) {
    match b
    case BulletList(items) => forall i :: 0 <= i < |items| ==> items[i].Item?
    case OrderedList(items) => forall i :: 0 <= i < |items| ==> items[i].Item?
    case _ => true
  }

  lemma {:induction false} ItemsOfItems(env: Env, ns: seq<Node>)
    requires ItemsOf(env, ns).value.Some?
    ensures var items := ItemsOf(env, ns).value.value;
            (forall i :: 0 <= i < |items| ==> items[i].Item?) && ItemPlaceholders(items) == []
  {
    hide Inlines, Unstyled, StrayText;
    if ns != [] {
      if ns[0].Element? { assert ([ItemOf(env, ns[0]).value.value] + ItemsOf(env, ns[1..]).value.value)[1..] == ItemsOf(env, ns[1..]).value.value; }
      ItemsOfItems(env, ns[1..]);
    }
  }

  lemma LeafBlockLeaf(env: Env, n: Node, top: bool)
    requires n.Element? && LeafBlock(env, n, top).value.Some?
    ensures ReadLeaf(LeafBlock(env, n, top).value.value)
  {
    hide Inlines, ItemsOf, TasksIn, Words, StrayText, RowsOf, RowCells, ElementsOf, HR_STYLE, Unstyled, TextOnlyChildren;
    if n.tag.List() && KindOf(n) == None { ItemsOfItems(env, n.children); }
  }

  lemma TokensSplit(env: Env, b: Binding, k: nat, x: seq<string>, y: seq<string>)
    ensures TokenList(env, b, k, x + y) == TokenList(env, b, k, x) + TokenList(env, b, k + |x|, y)
  {
    var s, t := TokenList(env, b, k, x + y), TokenList(env, b, k, x) + TokenList(env, b, k + |x|, y);
    forall i | 0 <= i < |s| ensures s[i] == t[i] {
      if i >= |x| { assert (x + y)[i] == y[i - |x|]; }
    }
  }

  /** A decode names its regions, in document order, by its binding, their number and their source. */
  lemma {:induction false} DecodeTokens(env: Env, b: Binding, n: Node, k: nat, top: bool)
    requires n.Element?
    ensures var d := DecodeElement(env, b, n, k, top).1;
            Placeholders(d.blocks) == TokenList(env, b, k, d.regions) && |d.blocks| == |d.records| == 1
    decreases n, 0
  {
    hide Unsupported, ContainerOf, StrayText, LeafBlock, DecodeNodes, Placeholders;
    if !Unsupported(n) && ContainerOf(n).Some? && !StrayText(n.children) {
      var inner := DecodeNodes(env, b, n.children, k, false).1;
      DecodeTokensAll(env, b, n.children, k, false);
      PlaceholdersOne(Wrap(ContainerOf(n).value, inner.blocks));
    } else {
      PlaceholdersOne(Region(env, b, n, k).blocks[0]);
      var d := LeafBlock(env, n, top);
      if d.value.Some? {
        LeafBlockLeaf(env, n, top);
        PlaceholdersOne(d.value.value);
      }
    }
  }

  lemma {:induction false} DecodeTokensAll(env: Env, b: Binding, ns: seq<Node>, k: nat, top: bool)
    ensures var d := DecodeNodes(env, b, ns, k, top).1;
            Placeholders(d.blocks) == TokenList(env, b, k, d.regions) && |d.blocks| == |d.records|
    decreases ns, 1
  {
    hide DecodeElement, DecodeNodes;
    DecodeStep(env, b, ns, k, top);
    if ns == [] {
      assert Placeholders([]) == [] && TokenList(env, b, k, []) == [];
    } else if ns[0].TextNode? {
      DecodeTokensAll(env, b, ns[1..], k, top);
    } else {
      DecodeTokens(env, b, ns[0], k, top);
      var (t, h) := DecodeElement(env, b, ns[0], k, top);
      if t.stop == None {
        DecodeTokensAll(env, b, ns[1..], k + |h.regions|, top);
        var tail := DecodeNodes(env, b, ns[1..], k + |h.regions|, top).1;
        PlaceholdersOf(h.blocks, tail.blocks);
        TokensSplit(env, b, k, h.regions, tail.regions);
      }
    }
  }

  // ---------- A decoded document is canonical ----------

  lemma {:induction false} CanonRunsTwice(rs: seq<Inline>)
    ensures CanonRuns(CanonRuns(rs)) == CanonRuns(rs)
  {
    hide CanonRuns, Canonical;
    CanonRunsCanonical(rs);
    CanonRunsCanonical(CanonRuns(rs));
  }

  lemma {:induction false} InlinesSettled(env: Env, ns: seq<Node>)
    requires Inlines(env, ns, []).Got()
    ensures CanonRuns(Inlines(env, ns, []).value.value) == Inlines(env, ns, []).value.value
  {
    hide CanonRuns, InlineNodes, DuplicateTrace;
    CanonRunsTwice(InlineNodes(env, ns, []).value.value);
  }

  lemma {:induction false} TasksSettled(env: Env, ns: seq<Node>, k: ListKind)
    requires TasksOf(env, ns, k).Got()
    ensures CanonTasks(TasksOf(env, ns, k).value.value) == TasksOf(env, ns, k).value.value
    decreases ns, 1
  {
    hide TaskOf, CanonTask;
    if ns != [] && ns[0].TextNode? {
      TasksSettled(env, ns[1..], k);
    } else if ns != [] {
      TaskSettled(env, ns[0], k);
      TasksSettled(env, ns[1..], k);
      var head, tail := TaskOf(env, ns[0], k).value.value, TasksOf(env, ns[1..], k).value.value;
      assert ([head] + tail)[1..] == tail;
    }
  }

  lemma {:induction false} TaskSettled(env: Env, li: Node, k: ListKind)
    requires li.Element? && TaskOf(env, li, k).Got()
    ensures CanonTask(TaskOf(env, li, k).value.value) == TaskOf(env, li, k).value.value
    decreases li, 0
  {
    hide Inlines, ItemClasses, Classes, TasksOf, StrayText, Unstyled, ElementsOf, KindOf, CanonRuns;
    var kids := ElementsOf(li.children);
    InlinesSettled(env, kids[0].children);
    if |kids| == 2 { TasksSettled(env, kids[1].children, k); }
  }

  lemma ItemSettled(env: Env, li: Node)
    requires li.Element? && ItemOf(env, li).Got()
    ensures ItemOf(env, li).value.value.Item?
    ensures CanonRuns(ItemOf(env, li).value.value.inlines) == ItemOf(env, li).value.value.inlines
  {
    hide Inlines, StrayText, Unstyled, ElementsOf, CanonRuns;
    var paragraph := li.children != [] && li.children[0].Element? && li.children[0].tag.P?;
    InlinesSettled(env, if paragraph then li.children[0].children else li.children);
  }

  lemma {:induction false} ItemsSettled(env: Env, ns: seq<Node>, k: ListKind)
    requires ItemsOf(env, ns).Got()
    ensures CanonItems(ItemsOf(env, ns).value.value, k) == ItemsOf(env, ns).value.value
  {
    hide ItemOf, CanonRuns;
    if ns != [] && ns[0].TextNode? {
      ItemsSettled(env, ns[1..], k);
    } else if ns != [] {
      ItemSettled(env, ns[0]);
      ItemsSettled(env, ns[1..], k);
      var head, tail := ItemOf(env, ns[0]).value.value, ItemsOf(env, ns[1..]).value.value;
      assert ([head] + tail)[1..] == tail;
    }
  }

  lemma {:induction false} LeafSettled(env: Env, n: Node, top: bool, k: ListKind)
    requires n.Element? && LeafBlock(env, n, top).Got()
    ensures CanonBlock(LeafBlock(env, n, top).value.value, k) == LeafBlock(env, n, top).value.value
  {
    hide Inlines, ItemsOf, TasksOf, Words, StrayText, RowsOf, RowCells, ElementsOf, HR_STYLE, Unstyled,
      TextOnlyChildren, CanonRuns, CanonItems, CanonTasks;
    if n.tag.List() && KindOf(n) == None { ItemsSettled(env, n.children, k); }
    else if n.tag.List() { TasksSettled(env, n.children, KindOf(n).value); }
    else if n.tag.P? || n.tag.H1? || n.tag.H2? || n.tag.H3? { InlinesSettled(env, n.children); }
  }

  lemma {:induction false} CanonOf(a: seq<Block>, b: seq<Block>, k: ListKind)
    ensures Canon(a + b, k) == Canon(a, k) + Canon(b, k)
    ensures NoContinuation(a + b) <==> NoContinuation(a) && NoContinuation(b)
  {
    if a == [] {
      assert a + b == b;
    } else {
      assert (a + b)[1..] == a[1..] + b;
      CanonOf(a[1..], b, k);
    }
  }

  lemma {:induction false} CanonOne(b: Block, k: ListKind)
    ensures Canon([b], k) == [CanonBlock(b, k)]
    ensures NoContinuation([b]) <==> NoContinuationIn(b)
  {
    assert [b][1..] == [];
    assert Canon([], k) == [] && NoContinuation([]);
  }

  ghost predicate SettledFor(bs: seq<Block>, k: ListKind) { NoContinuation(bs) && Canon(bs, k) == bs }

  /** What a decode reads is in canonical form, and no list item holds blocks. */
  lemma {:induction false} DecodeSettled(env: Env, b: Binding, n: Node, j: nat, top: bool, k: ListKind)
    requires n.Element? && DecodeElement(env, b, n, j, top).0.stop == None
    ensures SettledFor(DecodeElement(env, b, n, j, top).1.blocks, k)
    decreases n, 0
  {
    hide Unsupported, ContainerOf, StrayText, LeafBlock, DecodeNodes, Canon, NoContinuation;
    if !Unsupported(n) && ContainerOf(n).Some? && !StrayText(n.children) {
      var inner := DecodeNodes(env, b, n.children, j, false).1;
      DecodeSettledAll(env, b, n.children, j, false, k);
      CanonOne(Wrap(ContainerOf(n).value, inner.blocks), k);
    } else {
      CanonOne(Region(env, b, n, j).blocks[0], k);
      var d := LeafBlock(env, n, top);
      if !Unsupported(n) && d.value.Some? {
        LeafBlockLeaf(env, n, top);
        LeafSettled(env, n, top, k);
        CanonOne(d.value.value, k);
      }
    }
  }

  lemma {:induction false} DecodeSettledAll(env: Env, b: Binding, ns: seq<Node>, j: nat, top: bool, k: ListKind)
    requires DecodeNodes(env, b, ns, j, top).0.stop == None
    ensures SettledFor(DecodeNodes(env, b, ns, j, top).1.blocks, k)
    decreases ns, 1
  {
    hide DecodeElement;
    DecodeStep(env, b, ns, j, top);
    if ns == [] {
    } else if ns[0].TextNode? {
      DecodeSettledAll(env, b, ns[1..], j, top, k);
    } else {
      var (t, h) := DecodeElement(env, b, ns[0], j, top);
      DecodeSettled(env, b, ns[0], j, top, k);
      DecodeSettledAll(env, b, ns[1..], j + |h.regions|, top, k);
      CanonOf(h.blocks, DecodeNodes(env, b, ns[1..], j + |h.regions|, top).1.blocks, k);
    }
  }

  // ---------- Where the regions of a document came from ----------

  /** `n` cannot be represented, at the top level or below it. */
  predicate IsRegion(env: Env, n: Node, top: bool)
    requires n.Element?
  {
    || Unsupported(n)
    || ((ContainerOf(n) == None || StrayText(n.children)) && LeafBlock(env, n, top) == Dec(NO_FAULT, None))
  }

  lemma {:induction false} RegionDecodes(env: Env, b: Binding, n: Node, k: nat, top: bool)
    requires n.Element? && IsRegion(env, n, top)
    ensures DecodeElement(env, b, n, k, top) == (NO_FAULT, Region(env, b, n, k))
  {
    hide Unsupported, ContainerOf, StrayText, LeafBlock, DecodeNodes, Region;
  }

  /** The region that `r` refers to is the source of `n`. */
  ghost predicate RefersTo(env: Env, payloads: map<string, string>, r: Ref, n: Node) {
    && n.Element? && Wf(env, n, [Root]) && CleanText(n.raw)
    && IsRegion(env, n, r.chain == [])
    && (r.chain != [] ==> !Unsupported(n))
    && r.nodeType == TagName(n.tag) && r.sentinel.source == NativeHtml
    && r.sentinel.token in payloads && payloads[r.sentinel.token] == n.raw
  }

  ghost predicate GoodRef(env: Env, payloads: map<string, string>, r: Ref) {
    exists n :: RefersTo(env, payloads, r, n)
  }

  ghost predicate GoodRefs(env: Env, payloads: map<string, string>, rs: seq<Ref>) {
    forall i :: 0 <= i < |rs| ==> GoodRef(env, payloads, rs[i])
  }

  /** Each region is found under the name a decode gives it. */
  ghost predicate Kept(env: Env, b: Binding, k: nat, regions: seq<string>, payloads: map<string, string>) {
    forall i :: 0 <= i < |regions| ==>
      var token := TokenList(env, b, k, regions)[i];
      token in payloads && payloads[token] == regions[i]
  }

  lemma KeptSplit(env: Env, b: Binding, k: nat, x: seq<string>, y: seq<string>, payloads: map<string, string>)
    requires Kept(env, b, k, x + y, payloads)
    ensures Kept(env, b, k, x, payloads) && Kept(env, b, k + |x|, y, payloads)
  {
    hide TokenList;
    TokensSplit(env, b, k, x, y);
    var s, t, u := TokenList(env, b, k, x + y), TokenList(env, b, k, x), TokenList(env, b, k + |x|, y);
    forall i | 0 <= i < |x| ensures t[i] in payloads && payloads[t[i]] == x[i] {
      assert s[i] == t[i] && (x + y)[i] == x[i];
    }
    forall i | 0 <= i < |y| ensures u[i] in payloads && payloads[u[i]] == y[i] {
      assert s[|x| + i] == u[i] && (x + y)[|x| + i] == y[i];
    }
  }

  /** Nodes that a decode at the top level, or below it, was given. */
  ghost predicate Given(env: Env, ns: seq<Node>, ctx: seq<Tag>, top: bool) {
    PlainCtx(ctx) && WfAll(env, ns, ctx) && CleanText(Sources(ns)) && (!top ==> Supported(ns))
  }

  lemma {:induction false} GivenRest(env: Env, ns: seq<Node>, ctx: seq<Tag>, top: bool)
    requires ns != [] && Given(env, ns, ctx, top)
    ensures PlainCtx(ctx) && Given(env, ns[1..], ctx, top) && Wf(env, ns[0], ctx) && CleanText(Source(ns[0]))
    ensures !top && ns[0].Element? ==> !Unsupported(ns[0])
  {
    hide Wf, Source, CleanText, PlainCtx, Unsupported;
    CleanFirst(ns);
  }

  lemma {:induction false} GivenInside(env: Env, n: Node, ctx: seq<Tag>)
    requires PlainCtx(ctx) && n.Element? && Wf(env, n, ctx) && CleanText(Source(n))
    requires !Unsupported(n) && ContainerOf(n).Some?
    ensures Given(env, n.children, ctx + [n.tag], false)
  {
    hide Attr, StructTrace, TextTrace, LexOpen, WellClosed;
    CleanParts(n);
    assert n.tag.Div? || n.tag.Blockquote?;
    assert !n.unsupported;
    assert forall i :: 0 <= i < |n.children| && n.children[i].TextNode? ==> !n.children[i].unsupported;
  }

  lemma {:induction false} ReadLeafRefs(b: Block, chain: seq<Link>, inside: seq<Link>)
    requires ReadLeaf(b)
    ensures BlockRefs(b, chain, inside) == []
  {
    match b
    case BulletList(items) => NoItemRefs(items, inside);
    case OrderedList(items) => NoItemRefs(items, inside);
    case _ =>
  }

  lemma {:induction false} NoItemRefs(items: seq<ListItem>, chain: seq<Link>)
    requires NoContinuationItems(items)
    ensures ItemRefs(items, chain) == []
  {
    if items != [] { NoItemRefs(items[1..], chain); }
  }

  lemma {:induction false} OriginalRefs(env: Env, b: Binding, ns: seq<Node>, k: nat, top: bool, ctx: seq<Tag>,
                                            chain: seq<Link>, seen: map<ContainerKey, nat>, payloads: map<string, string>)
    requires Given(env, ns, ctx, top) && (top <==> chain == [])
    requires DecodeNodes(env, b, ns, k, top).0.Clean()
    requires Kept(env, b, k, DecodeNodes(env, b, ns, k, top).1.regions, payloads)
    ensures GoodRefs(env, payloads, Refs(DecodeNodes(env, b, ns, k, top).1.blocks, chain, seen))
    decreases ns, 2
  {
    hide DecodeElement, DecodeNodes, Wf, GoodRef;
    DecodeStep(env, b, ns, k, top);
    if ns == [] {
    } else if ns[0].TextNode? {
      GivenRest(env, ns, ctx, top);
      OriginalRefs(env, b, ns[1..], k, top, ctx, chain, seen, payloads);
    } else {
      GivenRest(env, ns, ctx, top);
      var (t, h) := DecodeElement(env, b, ns[0], k, top);
      var (t', tail) := Rest(env, b, ns, k, top);
      DecodeTokens(env, b, ns[0], k, top);
      KeptSplit(env, b, k, h.regions, tail.regions, payloads);
      var x := h.blocks[0];
      assert h.blocks + tail.blocks == [x] + tail.blocks;
      RefsStep(x, tail.blocks, chain, seen);
      OriginalRefsIn(env, b, ns[0], k, top, ctx, chain, InsideOf(x, chain, seen), payloads);
      OriginalRefs(env, b, ns[1..], k + |h.regions|, top, ctx, chain, SeenAfter(x, seen), payloads);
    }
  }

  /** The chain inside `b`, and the counts after it. */
  function InsideOf(b: Block, chain: seq<Link>, seen: map<ContainerKey, nat>): (r: seq<Link>)
    ensures KeyOf(b).Some? ==> r != []
  {
    if KeyOf(b).Some? then chain + [Hop(KeyOf(b).value, Seen(seen, KeyOf(b).value))] else chain
  }

  function SeenAfter(b: Block, seen: map<ContainerKey, nat>): map<ContainerKey, nat> {
    if KeyOf(b).Some? then seen[KeyOf(b).value := Seen(seen, KeyOf(b).value) + 1] else seen
  }

  lemma {:induction false} RefsStep(b: Block, bs: seq<Block>, chain: seq<Link>, seen: map<ContainerKey, nat>)
    ensures Refs([b] + bs, chain, seen)
         == BlockRefs(b, chain, InsideOf(b, chain, seen)) + Refs(bs, chain, SeenAfter(b, seen))
  {
    hide BlockRefs, KeyOf;
    assert ([b] + bs)[1..] == bs && ([b] + bs)[0] == b;
    assert chain + [] == chain;
  }

  lemma {:induction false} OriginalRefsIn(env: Env, b: Binding, n: Node, k: nat, top: bool, ctx: seq<Tag>,
                                              chain: seq<Link>, inside: seq<Link>, payloads: map<string, string>)
    requires n.Element? && PlainCtx(ctx) && Wf(env, n, ctx) && CleanText(Source(n)) && (!top ==> !Unsupported(n))
    requires (top <==> chain == [])
    requires var (t, d) := DecodeElement(env, b, n, k, top);
             t.Clean() && Kept(env, b, k, d.regions, payloads) && (|d.blocks| == 1 && KeyOf(d.blocks[0]).Some? ==> inside != [])
    ensures var d := DecodeElement(env, b, n, k, top).1;
            |d.blocks| == 1 && GoodRefs(env, payloads, BlockRefs(d.blocks[0], chain, inside))
    decreases n, 3
  {
    hide Unsupported, ContainerOf, StrayText, LeafBlock, DecodeNodes, Wf, Source, CleanText, Kept, GoodRef, Given, Refs;
    var d := DecodeElement(env, b, n, k, top).1;
    if !Unsupported(n) && ContainerOf(n).Some? && !StrayText(n.children) {
      GivenInside(env, n, ctx);
      OriginalRefs(env, b, n.children, k, false, ctx + [n.tag], inside, map[], payloads);
    } else if !Unsupported(n) && LeafBlock(env, n, top).value.Some? {
      LeafBlockLeaf(env, n, top);
      ReadLeafRefs(d.blocks[0], chain, inside);
    } else {
      RegionReferred(env, b, n, k, top, ctx, chain, payloads);
      assert BlockRefs(d.blocks[0], chain, inside)
          == [Ref(chain, TagName(n.tag), Sentinel(NativeHtml, env.token(b, k, n.raw)))];
    }
  }

  lemma {:induction false} RegionReferred(env: Env, b: Binding, n: Node, k: nat, top: bool, ctx: seq<Tag>,
                                          chain: seq<Link>, payloads: map<string, string>)
    requires n.Element? && PlainCtx(ctx) && Wf(env, n, ctx) && CleanText(Source(n)) && (!top ==> !Unsupported(n))
    requires (top <==> chain == [])
    requires Unsupported(n) || ((ContainerOf(n) == None || StrayText(n.children)) && LeafBlock(env, n, top) == Dec(NO_FAULT, None))
    requires Kept(env, b, k, [n.raw], payloads)
    ensures GoodRef(env, payloads, Ref(chain, TagName(n.tag), Sentinel(NativeHtml, env.token(b, k, n.raw))))
  {
    assert PlainCtx([Root]);
    Swap(env, n, ctx, [Root]);
    assert n.raw == Source(n);
    assert TokenList(env, b, k, [n.raw])[0] == env.token(b, k, n.raw);
    assert RefersTo(env, payloads, Ref(chain, TagName(n.tag), Sentinel(NativeHtml, env.token(b, k, n.raw))), n);
  }
}
