/** Every region of the original is written once, in its place, whatever else an edit changes: also
    when list items hold blocks, which no reading gives back. */
module NativeConservation {
  import opened Text
  import opened NativeFaults
  import opened NativeHtml
  import opened NativeHtmlTheory
  import opened NoteDocument
  import opened NativeDecode
  import opened NativeSerialize
  import opened NativeBlocks
  import opened NativeRegions
  import opened NativeMerge
  import opened NativeRoundTrip
  import opened NativeIdentity

  // ---------- Where blocks stand in the written bytes ----------

  /** A block from `lo` to `hi`; a container's own blocks, between its tags, from `l` to `h`. */
  datatype Laid = Laid(lo: nat, l: nat, h: nat, hi: nat, inner: seq<Laid>)

  predicate At(html: string, lo: nat, s: string) { lo + |s| <= |html| && html[lo..lo + |s|] == s }

  lemma AtBoth(html: string, lo: nat, x: string, y: string)
    requires At(html, lo, x + y)
    ensures At(html, lo, x) && At(html, lo + |x|, y)
  {
    assert html[lo..lo + |x|] == html[lo..lo + |x + y|][..|x|];
    assert html[lo + |x|..lo + |x| + |y|] == html[lo..lo + |x + y|][|x|..];
  }

  /** A tag that opens a container like `b`. */
  ghost predicate Opens(env: Env, tag: string, b: Block) {
    HoldsBlocks(b) && exists t, attrs :: OpensContainer(env, tag, t, attrs, KeyOf(b).value)
  }

  /** A tag that closes it. */
  predicate Closes(tag: string, b: Block) {
    && HoldsBlocks(b) && LexClose(tag).Some? && LexClose(tag).value.1 == |tag|
    && TagOf(LexClose(tag).value.0) == ContainerTag(b)
  }

  /** The blocks stand between `lo` and `hi`, one after the other, each container with its own
      blocks between a tag that opens it and a tag that closes it. */
  ghost predicate LaidOut(env: Env, html: string, lo: nat, hi: nat, bs: seq<Block>, ls: seq<Laid>)
    decreases bs, 1
  {
    if bs == [] then ls == [] && lo <= hi <= |html|
    else
      && ls != [] && lo <= ls[0].lo && ls[0].hi <= hi
      && LaidIn(env, html, bs[0], ls[0])
      && LaidOut(env, html, ls[0].hi, hi, bs[1..], ls[1..])
  }

  ghost predicate LaidIn(env: Env, html: string, b: Block, at: Laid)
    decreases b, 0
  {
    && at.lo <= at.l <= at.h <= at.hi <= |html|
    && match b
       case Blockquote(blocks) =>
         Opens(env, html[at.lo..at.l], b) && Closes(html[at.h..at.hi], b) && LaidOut(env, html, at.l, at.h, blocks, at.inner)
       case Callout(_, blocks) =>
         Opens(env, html[at.lo..at.l], b) && Closes(html[at.h..at.hi], b) && LaidOut(env, html, at.l, at.h, blocks, at.inner)
       case _ => true
  }

  /** The bytes of one region, where they start, and the containers they stand in. */
  datatype Spot = Spot(chain: seq<Link>, at: nat, text: string)

  function Cut(html: string, lo: nat, hi: nat): string { if lo <= hi <= |html| then html[lo..hi] else "" }

  /** The regions of the written blocks, in order. */
  function Spots(html: string, bs: seq<Block>, ls: seq<Laid>, chain: seq<Link>, seen: map<ContainerKey, nat>): seq<Spot>
    decreases bs, 1
  {
    if bs == [] || ls == [] then []
    else
      SpotsIn(html, bs[0], ls[0], chain, InsideOf(bs[0], chain, seen))
      + Spots(html, bs[1..], ls[1..], chain, SeenAfter(bs[0], seen))
  }

  function SpotsIn(html: string, b: Block, at: Laid, chain: seq<Link>, inside: seq<Link>): seq<Spot>
    decreases b, 1
  {
    match b
    case Opaque(_, _) => [Spot(chain, at.lo, Cut(html, at.lo, at.hi))]
    case Blockquote(blocks) => Spots(html, blocks, at.inner, inside, map[])
    case Callout(_, blocks) => Spots(html, blocks, at.inner, inside, map[])
    case _ => []
  }

  function Texts(spots: seq<Spot>): (ts: seq<string>)
    ensures |ts| == |spots|
  {
    seq(|spots|, i requires 0 <= i < |spots| => spots[i].text)
  }

  lemma TextsOf(a: seq<Spot>, b: seq<Spot>)
    ensures Texts(a + b) == Texts(a) + Texts(b)
  {
  }

  // ---------- Regions stand in order, each with its own bytes ----------

  /** From `lo` to `hi`, without overlap, and in order. */
  predicate InOrder(html: string, lo: nat, hi: nat, spots: seq<Spot>) {
    && lo <= hi <= |html|
    && (forall i :: 0 <= i < |spots| ==>
          lo <= spots[i].at && spots[i].at + |spots[i].text| <= hi && At(html, spots[i].at, spots[i].text))
    && (forall i, j :: 0 <= i < j < |spots| ==> spots[i].at + |spots[i].text| <= spots[j].at)
  }

  lemma InOrderBoth(html: string, lo: nat, mid: nat, next: nat, hi: nat, x: seq<Spot>, y: seq<Spot>)
    requires InOrder(html, lo, mid, x) && InOrder(html, next, hi, y) && mid <= next
    ensures InOrder(html, lo, hi, x + y)
  {
    hide At;
    var z := x + y;
    forall i, j | 0 <= i < j < |z| ensures z[i].at + |z[i].text| <= z[j].at {
      if i < |x| && j >= |x| { assert z[i] == x[i] && z[j] == y[j - |x|]; }
    }
  }

  lemma {:induction false} SpotsInOrder(env: Env, html: string, lo: nat, hi: nat, bs: seq<Block>, ls: seq<Laid>,
                                        chain: seq<Link>, seen: map<ContainerKey, nat>)
    requires LaidOut(env, html, lo, hi, bs, ls)
    ensures InOrder(html, lo, hi, Spots(html, bs, ls, chain, seen))
    decreases bs, 1
  {
    hide InOrder, SpotsIn, LaidIn, InsideOf, SeenAfter;
    if bs == [] {
      NoSpotsInOrder(html, lo, hi);
    } else {
      var x := SpotsIn(html, bs[0], ls[0], chain, InsideOf(bs[0], chain, seen));
      var y := Spots(html, bs[1..], ls[1..], chain, SeenAfter(bs[0], seen));
      SpotsInOrderIn(env, html, bs[0], ls[0], chain, InsideOf(bs[0], chain, seen));
      SpotsInOrder(env, html, ls[0].hi, hi, bs[1..], ls[1..], chain, SeenAfter(bs[0], seen));
      NoSpotsBefore(html, lo, ls[0].lo, ls[0].hi, x);
      InOrderBoth(html, lo, ls[0].hi, ls[0].hi, hi, x, y);
    }
  }

  lemma NoSpotsInOrder(html: string, lo: nat, hi: nat)
    requires lo <= hi <= |html|
    ensures InOrder(html, lo, hi, [])
  {
  }

  lemma NoSpotsBefore(html: string, lo: nat, mid: nat, hi: nat, spots: seq<Spot>)
    requires InOrder(html, mid, hi, spots) && lo <= mid
    ensures InOrder(html, lo, hi, spots)
  {
  }

  lemma {:induction false} SpotsInOrderIn(env: Env, html: string, b: Block, at: Laid, chain: seq<Link>, inside: seq<Link>)
    requires LaidIn(env, html, b, at)
    ensures InOrder(html, at.lo, at.hi, SpotsIn(html, b, at, chain, inside))
    decreases b, 0
  {
    hide LaidOut, Spots, Opens, Closes;
    match b
    case Blockquote(blocks) => SpotsInOrder(env, html, at.l, at.h, blocks, at.inner, inside, map[]);
    case Callout(_, blocks) => SpotsInOrder(env, html, at.l, at.h, blocks, at.inner, inside, map[]);
    case _ =>
  }

  // ---------- Lists that hold no region ----------

  /** No region stands inside a list item. */
  predicate NoItemRegions(bs: seq<Block>)
    decreases bs, 1
  {
    bs != [] ==> NoItemRegionsIn(bs[0]) && NoItemRegions(bs[1..])
  }

  predicate NoItemRegionsIn(b: Block)
    decreases b, 0
  {
    match b
    case Blockquote(blocks) => NoItemRegions(blocks)
    case Callout(_, blocks) => NoItemRegions(blocks)
    case BulletList(items) => ItemPlaceholders(items) == []
    case OrderedList(items) => ItemPlaceholders(items) == []
    case _ => true
  }

  predicate PlainChain(chain: seq<Link>) {
    forall i :: 0 <= i < |chain| ==> !chain[i].key.BulletKey? && !chain[i].key.OrderedKey?
  }

  predicate PlainRefs(rs: seq<Ref>) { forall i :: 0 <= i < |rs| ==> PlainChain(rs[i].chain) }

  lemma PlainRefsBoth(a: seq<Ref>, b: seq<Ref>)
    ensures PlainRefs(a + b) <==> PlainRefs(a) && PlainRefs(b)
  {
    hide PlainChain;
    if PlainRefs(a + b) {
      assert forall i :: 0 <= i < |a| ==> (a + b)[i] == a[i];
      assert forall i :: 0 <= i < |b| ==> (a + b)[|a| + i] == b[i];
    }
  }

  /** The regions of a document without continuation blocks are in quotes and callouts only. */
  lemma {:induction false} PlainWithin(bs: seq<Block>, chain: seq<Link>, seen: map<ContainerKey, nat>)
    requires NoContinuation(bs) && PlainChain(chain)
    ensures PlainRefs(Refs(bs, chain, seen))
    decreases bs, 1
  {
    hide BlockRefs, Refs, PlainRefs, InsideOf, SeenAfter, KeyOf;
    if bs == [] {
      NoRefs(chain, seen);
    } else {
      assert [bs[0]] + bs[1..] == bs;
      RefsStep(bs[0], bs[1..], chain, seen);
      PlainWithinIn(bs[0], chain, seen);
      PlainWithin(bs[1..], chain, SeenAfter(bs[0], seen));
      PlainRefsBoth(BlockRefs(bs[0], chain, InsideOf(bs[0], chain, seen)), Refs(bs[1..], chain, SeenAfter(bs[0], seen)));
    }
  }

  lemma NoRefs(chain: seq<Link>, seen: map<ContainerKey, nat>)
    ensures Refs([], chain, seen) == [] && PlainRefs([])
  {
  }

  lemma {:induction false} PlainWithinIn(b: Block, chain: seq<Link>, seen: map<ContainerKey, nat>)
    requires NoContinuationIn(b) && PlainChain(chain)
    ensures PlainRefs(BlockRefs(b, chain, InsideOf(b, chain, seen)))
    decreases b, 0
  {
    hide Refs, NoContinuation, ItemRefs, NoContinuationItems;
    var inside := InsideOf(b, chain, seen);
    match b
    case Blockquote(blocks) => PlainWithin(blocks, inside, map[]);
    case Callout(_, blocks) => PlainWithin(blocks, inside, map[]);
    case BulletList(items) => NoItemRefs(items, inside);
    case OrderedList(items) => NoItemRefs(items, inside);
    case _ =>
  }

  lemma {:induction false} NoItemRefs(items: seq<ListItem>, chain: seq<Link>)
    requires NoContinuationItems(items)
    ensures ItemRefs(items, chain) == []
  {
    hide Refs;
    if items != [] {
      assert forall i :: 0 <= i < |items| - 1 ==> items[1..][i] == items[i + 1];
      NoItemRefs(items[1..], chain);
      NoRefs(chain, map[]);
    }
  }

  /** Where all regions are in quotes and callouts only, no list item holds one. */
  lemma {:induction false} NoneInItems(bs: seq<Block>, chain: seq<Link>, seen: map<ContainerKey, nat>)
    requires PlainRefs(Refs(bs, chain, seen))
    ensures NoItemRegions(bs)
    decreases bs, 1
  {
    hide BlockRefs, Refs, PlainRefs, InsideOf, SeenAfter, KeyOf, NoItemRegionsIn;
    if bs != [] {
      assert [bs[0]] + bs[1..] == bs;
      RefsStep(bs[0], bs[1..], chain, seen);
      PlainRefsBoth(BlockRefs(bs[0], chain, InsideOf(bs[0], chain, seen)), Refs(bs[1..], chain, SeenAfter(bs[0], seen)));
      NoneInItemsIn(bs[0], chain, seen);
      NoneInItems(bs[1..], chain, SeenAfter(bs[0], seen));
    }
  }

  lemma {:induction false} NoneInItemsIn(b: Block, chain: seq<Link>, seen: map<ContainerKey, nat>)
    requires PlainRefs(BlockRefs(b, chain, InsideOf(b, chain, seen)))
    ensures NoItemRegionsIn(b)
    decreases b, 0
  {
    hide Refs, NoItemRegions, RefTokens, ItemRefs, ItemPlaceholders;
    var inside := InsideOf(b, chain, seen);
    match b
    case Blockquote(blocks) => NoneInItems(blocks, inside, map[]);
    case Callout(_, blocks) => NoneInItems(blocks, inside, map[]);
    case BulletList(items) => ListEmpty(b, items, chain, inside);
    case OrderedList(items) => ListEmpty(b, items, chain, inside);
    case _ =>
  }

  lemma ListNotPlain(rs: seq<Ref>, inside: seq<Link>, i: nat)
    requires rs != [] && AllUnder(rs, inside)
    requires i < |inside| && (inside[i].key.BulletKey? || inside[i].key.OrderedKey?)
    ensures !PlainRefs(rs)
  {
    assert IsUnder(rs[0], inside);
    assert rs[0].chain[i] == inside[i];
  }

  lemma ListEmpty(b: Block, items: seq<ListItem>, chain: seq<Link>, inside: seq<Link>)
    requires b == BulletList(items) || b == OrderedList(items)
    requires |inside| == |chain| + 1 && chain <= inside && Some(inside[|chain|].key) == KeyOf(b)
    requires PlainRefs(BlockRefs(b, chain, inside))
    ensures ItemPlaceholders(items) == []
  {
    hide ItemRefs, ItemPlaceholders, Refs, PlainRefs, AllUnder;
    RefsArePlaceholdersItems(items, inside);
    RefsUnderIn(b, chain, inside);
    if ItemRefs(items, inside) != [] { ListNotPlain(ItemRefs(items, inside), inside, |chain|); }
  }

  // ---------- Regions stand in the containers the document says ----------

  function ChainsOf(spots: seq<Spot>): (cs: seq<seq<Link>>)
    ensures |cs| == |spots|
  {
    seq(|spots|, i requires 0 <= i < |spots| => spots[i].chain)
  }

  function RefChains(rs: seq<Ref>): (cs: seq<seq<Link>>)
    ensures |cs| == |rs|
  {
    seq(|rs|, i requires 0 <= i < |rs| => rs[i].chain)
  }

  lemma ChainsBoth(a: seq<Spot>, b: seq<Spot>, r: seq<Ref>, s: seq<Ref>)
    requires ChainsOf(a) == RefChains(r) && ChainsOf(b) == RefChains(s)
    ensures ChainsOf(a + b) == RefChains(r + s)
  {
    var x, y := ChainsOf(a + b), RefChains(r + s);
    forall i | 0 <= i < |x| ensures x[i] == y[i] {
      if i < |a| { assert x[i] == ChainsOf(a)[i] && y[i] == RefChains(r)[i]; }
      else { assert x[i] == ChainsOf(b)[i - |a|] && y[i] == RefChains(s)[i - |a|]; }
    }
  }

  lemma {:induction false} SpotChains(env: Env, html: string, lo: nat, hi: nat, bs: seq<Block>, ls: seq<Laid>,
                                      chain: seq<Link>, seen: map<ContainerKey, nat>)
    requires LaidOut(env, html, lo, hi, bs, ls) && NoItemRegions(bs)
    ensures ChainsOf(Spots(html, bs, ls, chain, seen)) == RefChains(Refs(bs, chain, seen))
    decreases bs, 1
  {
    hide ChainsOf, RefChains, SpotsIn, LaidIn, BlockRefs, Refs, InsideOf, SeenAfter, KeyOf, NoItemRegionsIn;
    if bs == [] {
      NoRefs(chain, seen);
      NoChains();
    } else {
      assert [bs[0]] + bs[1..] == bs;
      RefsStep(bs[0], bs[1..], chain, seen);
      SpotChainsIn(env, html, bs[0], ls[0], chain, InsideOf(bs[0], chain, seen));
      SpotChains(env, html, ls[0].hi, hi, bs[1..], ls[1..], chain, SeenAfter(bs[0], seen));
      ChainsBoth(SpotsIn(html, bs[0], ls[0], chain, InsideOf(bs[0], chain, seen)),
                 Spots(html, bs[1..], ls[1..], chain, SeenAfter(bs[0], seen)),
                 BlockRefs(bs[0], chain, InsideOf(bs[0], chain, seen)), Refs(bs[1..], chain, SeenAfter(bs[0], seen)));
    }
  }

  lemma NoChains()
    ensures ChainsOf([]) == RefChains([])
  {
  }

  lemma {:induction false} SpotChainsIn(env: Env, html: string, b: Block, at: Laid, chain: seq<Link>, inside: seq<Link>)
    requires LaidIn(env, html, b, at) && NoItemRegionsIn(b)
    ensures ChainsOf(SpotsIn(html, b, at, chain, inside)) == RefChains(BlockRefs(b, chain, inside))
    decreases b, 0
  {
    hide LaidOut, Spots, Opens, Closes, Refs, ItemRefs, ItemPlaceholders, NoItemRegions;
    match b
    case Blockquote(blocks) => SpotChains(env, html, at.l, at.h, blocks, at.inner, inside, map[]);
    case Callout(_, blocks) => SpotChains(env, html, at.l, at.h, blocks, at.inner, inside, map[]);
    case BulletList(items) => RefsArePlaceholdersItems(items, inside);
    case OrderedList(items) => RefsArePlaceholdersItems(items, inside);
    case _ =>
  }

  // ---------- Original bytes ----------

  lemma {:induction false} Sooner(env: Env, html: string, lo: nat, mid: nat, hi: nat, bs: seq<Block>, ls: seq<Laid>)
    requires LaidOut(env, html, mid, hi, bs, ls) && lo <= mid
    ensures LaidOut(env, html, lo, hi, bs, ls)
  {
    hide LaidIn;
  }

  lemma LaidFirst(env: Env, html: string, lo: nat, hi: nat, b: Block, bs: seq<Block>, at: Laid, ls: seq<Laid>,
                  chain: seq<Link>, seen: map<ContainerKey, nat>)
    requires at.lo == lo <= at.hi <= hi && LaidIn(env, html, b, at) && LaidOut(env, html, at.hi, hi, bs, ls)
    ensures LaidOut(env, html, lo, hi, [b] + bs, [at] + ls)
    ensures Texts(Spots(html, [b] + bs, [at] + ls, chain, seen))
         == Texts(SpotsIn(html, b, at, chain, InsideOf(b, chain, seen))) + Texts(Spots(html, bs, ls, chain, SeenAfter(b, seen)))
  {
    hide LaidIn, SpotsIn, InsideOf, SeenAfter;
    assert ([b] + bs)[1..] == bs && ([at] + ls)[1..] == ls;
    TextsOf(SpotsIn(html, b, at, chain, InsideOf(b, chain, seen)), Spots(html, bs, ls, chain, SeenAfter(b, seen)));
  }

  /** The blocks a decode reads from nodes are laid out in their source, with their regions. */
  lemma {:induction false} LayNodes(env: Env, b: Binding, html: string, lo: nat, ns: seq<Node>, k: nat, top: bool,
                                    ctx: seq<Tag>, chain: seq<Link>, seen: map<ContainerKey, nat>)
    returns (ls: seq<Laid>)
    requires Given(env, ns, ctx, top) && At(html, lo, Sources(ns)) && DecodeNodes(env, b, ns, k, top).0.Clean()
    ensures var d := DecodeNodes(env, b, ns, k, top).1;
            && LaidOut(env, html, lo, lo + |Sources(ns)|, d.blocks, ls)
            && Texts(Spots(html, d.blocks, ls, chain, seen)) == d.regions
    decreases ns, 1
  {
    hide DecodeElement, DecodeNodes, Given, Wf, LaidIn, SpotsIn, At, CleanText, Source, PlainCtx, InsideOf, SeenAfter, Rest, Texts;
    DecodeStep(env, b, ns, k, top);
    if ns == [] {
      ls := [];
      NothingLaid(env, html, lo, chain, seen);
    } else {
      GivenRest(env, ns, ctx, top);
      AtBoth(html, lo, Source(ns[0]), Sources(ns[1..]));
      var next := lo + |Source(ns[0])|;
      if ns[0].TextNode? {
        ls := LayNodes(env, b, html, next, ns[1..], k, top, ctx, chain, seen);
        Sooner(env, html, lo, next, lo + |Sources(ns)|, DecodeNodes(env, b, ns, k, top).1.blocks, ls);
      } else {
        var (t, h) := DecodeElement(env, b, ns[0], k, top);
        var (t', tail) := Rest(env, b, ns, k, top);
        RecordBlock(env, b, ns[0], k, top);
        var at := LayNode(env, b, html, lo, ns[0], k, top, ctx, chain, InsideOf(h.blocks[0], chain, seen));
        var rest := LayRest(env, b, html, next, ns, k, top, ctx, chain, SeenAfter(h.blocks[0], seen));
        LaidFirst(env, html, lo, lo + |Sources(ns)|, h.blocks[0], tail.blocks, at, rest, chain, seen);
        assert h.blocks == [h.blocks[0]];
        ls := [at] + rest;
      }
    }
  }

  lemma {:induction false} LayRest(env: Env, b: Binding, html: string, lo: nat, ns: seq<Node>, k: nat, top: bool,
                                   ctx: seq<Tag>, chain: seq<Link>, seen: map<ContainerKey, nat>)
    returns (ls: seq<Laid>)
    requires ns != [] && ns[0].Element? && Given(env, ns[1..], ctx, top) && At(html, lo, Sources(ns[1..]))
    requires Rest(env, b, ns, k, top).0.Clean()
    ensures var d := Rest(env, b, ns, k, top).1;
            && LaidOut(env, html, lo, lo + |Sources(ns[1..])|, d.blocks, ls)
            && Texts(Spots(html, d.blocks, ls, chain, seen)) == d.regions
    decreases ns, 0
  {
    hide DecodeElement, DecodeNodes, Given, LaidOut, Spots, At, Texts;
    ls := LayNodes(env, b, html, lo, ns[1..], k + |DecodeElement(env, b, ns[0], k, top).1.regions|, top, ctx, chain, seen);
  }

  lemma NothingLaid(env: Env, html: string, lo: nat, chain: seq<Link>, seen: map<ContainerKey, nat>)
    requires At(html, lo, "")
    ensures LaidOut(env, html, lo, lo, [], []) && Texts(Spots(html, [], [], chain, seen)) == []
  {
  }

  lemma {:induction false} LayNode(env: Env, b: Binding, html: string, lo: nat, n: Node, k: nat, top: bool,
                                   ctx: seq<Tag>, chain: seq<Link>, inside: seq<Link>)
    returns (at: Laid)
    requires n.Element? && PlainCtx(ctx) && Wf(env, n, ctx) && CleanText(Source(n)) && At(html, lo, Source(n))
    requires DecodeElement(env, b, n, k, top).0.Clean()
    ensures var d := DecodeElement(env, b, n, k, top).1;
            && |d.blocks| == 1 && at.lo == lo && at.hi == lo + |Source(n)| && LaidIn(env, html, d.blocks[0], at)
            && Texts(SpotsIn(html, d.blocks[0], at, chain, inside)) == d.regions
    decreases n, 0
  {
    hide Unsupported, ContainerOf, StrayText, LeafBlock, DecodeNodes, Given, Wf, CleanText, LaidOut, Spots, Opens, Closes,
      TagName, Source;
    NodeRaw(env, n, ctx);
    var end := lo + |Source(n)|;
    if !Unsupported(n) && ContainerOf(n).Some? && !StrayText(n.children) {
      var key := ContainerOf(n).value;
      var l, h := lo + |n.open|, lo + |n.open| + |Sources(n.children)|;
      SourceParts(html, lo, n);
      GivenInside(env, n, ctx);
      ContainerTags(env, n, ctx, DecodeNodes(env, b, n.children, k, false).1.blocks);
      ContainerKeys(n);
      var inner := LayNodes(env, b, html, l, n.children, k, false, ctx + [n.tag], inside, map[]);
      at := Laid(lo, l, h, end, inner);
    } else {
      at := Laid(lo, lo, end, end, []);
      if !Unsupported(n) && LeafBlock(env, n, top).value.Some? { LeafBlockLeaf(env, n, top); }
    }
  }

  lemma NodeRaw(env: Env, n: Node, ctx: seq<Tag>)
    requires n.Element? && ctx != [] && Wf(env, n, ctx)
    ensures n.raw == Source(n)
  {
  }

  lemma SourceParts(html: string, lo: nat, n: Node)
    requires n.Element? && At(html, lo, Source(n))
    ensures var l, h := lo + |n.open|, lo + |n.open| + |Sources(n.children)|;
            && lo + |Source(n)| == h + |n.close| <= |html| && At(html, l, Sources(n.children))
            && html[lo..l] == n.open && html[h..h + |n.close|] == n.close
  {
    AtBoth(html, lo, n.open + Sources(n.children), n.close);
    AtBoth(html, lo, n.open, Sources(n.children));
  }

  lemma ContainerTags(env: Env, n: Node, ctx: seq<Tag>, blocks: seq<Block>)
    requires n.Element? && ctx != [] && Wf(env, n, ctx) && CleanText(Source(n)) && !Unsupported(n) && ContainerOf(n).Some?
    ensures var x := Wrap(ContainerOf(n).value, blocks); Opens(env, n.open, x) && Closes(n.close, x)
  {
    hide LexOpen, LexClose, TagOf, Unsupported, ContainerOf, WellOpened, StructTrace, WfAll, CleanText, Source, OpensContainer;
    OriginalOpens(env, n, ctx);
    ContainerKeys(n);
    assert WellClosed(n);
  }

  // ---------- Written bytes ----------

  lemma KeptTexts(env: Env, b: Binding, k: nat, regions: seq<string>, payloads: map<string, string>)
    requires Kept(env, b, k, regions, payloads)
    ensures Carried(payloads, TokenList(env, b, k, regions), regions)
  {
  }

  /** The regions of an echoed block are in the bytes it is echoed with. */
  lemma LayEcho(env: Env, b: Binding, html: string, lo: nat, rec: Record, top: bool, chain: seq<Link>, inside: seq<Link>,
                payloads: map<string, string>)
    returns (at: Laid)
    requires FromRecord(env, b, payloads, rec, top) && At(html, lo, rec.raw)
    ensures at.lo == lo && at.hi == lo + |rec.raw| && LaidIn(env, html, rec.block, at)
    ensures Carried(payloads, PlaceholdersIn(rec.block), Texts(SpotsIn(html, rec.block, at, chain, inside)))
  {
    hide DecodeElement, Wf, CleanText, Source, At, LaidIn, SpotsIn, Texts, Kept, Carried, PlaceholdersIn, TokenList, PlainCtx, Unsupported;
    var n, k, ctx :| FromNode(env, b, payloads, rec, n, k, top, ctx);
    RecordBlock(env, b, n, k, top);
    EchoedRaw(env, n, ctx);
    at := LayNode(env, b, html, lo, n, k, top, ctx, chain, inside);
    DecodeTokens(env, b, n, k, top);
    KeptTexts(env, b, k, DecodeElement(env, b, n, k, top).1.regions, payloads);
    PlaceholdersOne(rec.block);
  }

  lemma EchoedRaw(env: Env, n: Node, ctx: seq<Tag>)
    requires n.Element? && PlainCtx(ctx) && Wf(env, n, ctx)
    ensures n.raw == Source(n)
  {
    NodeRaw(env, n, ctx);
  }

  lemma NothingCarried(payloads: map<string, string>, html: string, chain: seq<Link>, seen: map<ContainerKey, nat>)
    ensures Carried(payloads, Placeholders([]), Texts(Spots(html, [], [], chain, seen)))
  {
  }

  /** Whatever the serializer writes for a list of blocks, they are laid out in it, and the bytes of
      their regions are the stored ones. */
  lemma {:induction false} LayPlanned(env: Env, b: Binding, html: string, lo: nat, bs: seq<Block>, plan: seq<Planned>,
                                      k: ListKind, chain: seq<Link>, seen: map<ContainerKey, nat>,
                                      payloads: map<string, string>)
    returns (ls: seq<Laid>)
    requires AllPlannedFrom(env, b, payloads, bs, plan, chain == []) && NoItemRegions(bs)
    requires RenderPlanned(env, bs, plan, k, payloads).Ok? && At(html, lo, RenderPlanned(env, bs, plan, k, payloads).value)
    ensures LaidOut(env, html, lo, lo + |RenderPlanned(env, bs, plan, k, payloads).value|, bs, ls)
    ensures Carried(payloads, Placeholders(bs), Texts(Spots(html, bs, ls, chain, seen)))
    decreases bs, 2
  {
    hide RenderBlock, RenderPlanned, PlannedFrom, At, LaidOut, LaidIn, Spots, SpotsIn, Texts, Carried, InsideOf, SeenAfter,
      NoItemRegionsIn, PlaceholdersIn;
    if bs == [] {
      ls := [];
      NothingWritten(env, plan, k, payloads);
      NothingLaid(env, html, lo, chain, seen);
      NothingCarried(payloads, html, chain, seen);
    } else {
      PlannedStep(env, bs, plan, k, payloads);
      var x, y := RenderBlock(env, bs[0], plan[0], k, payloads).value, RenderPlanned(env, bs[1..], plan[1..], k, payloads).value;
      AtBoth(html, lo, x, y);
      InsideNonempty(bs[0], chain, seen);
      var at := LayBlock(env, b, html, lo, bs[0], plan[0], k, chain, InsideOf(bs[0], chain, seen), payloads);
      var rest := LayPlanned(env, b, html, lo + |x|, bs[1..], plan[1..], k, chain, SeenAfter(bs[0], seen), payloads);
      LaidFirst(env, html, lo, lo + |x + y|, bs[0], bs[1..], at, rest, chain, seen);
      CarriedBoth(payloads, PlaceholdersIn(bs[0]), Texts(SpotsIn(html, bs[0], at, chain, InsideOf(bs[0], chain, seen))),
                  Placeholders(bs[1..]), Texts(Spots(html, bs[1..], rest, chain, SeenAfter(bs[0], seen))));
      assert [bs[0]] + bs[1..] == bs;
      ls := [at] + rest;
    }
  }

  lemma NothingWritten(env: Env, plan: seq<Planned>, k: ListKind, payloads: map<string, string>)
    requires plan == []
    ensures RenderPlanned(env, [], plan, k, payloads) == Ok("")
  {
  }

  lemma InsideNonempty(b: Block, chain: seq<Link>, seen: map<ContainerKey, nat>)
    ensures KeyOf(b).Some? ==> InsideOf(b, chain, seen) != []
  {
  }

  lemma {:induction false} LayBlocks(env: Env, b: Binding, html: string, lo: nat, bs: seq<Block>, records: Option<seq<Record>>,
                                     k: ListKind, chain: seq<Link>, payloads: map<string, string>)
    returns (ls: seq<Laid>)
    requires records.Some? ==> AllFrom(env, b, payloads, records.value, chain == [])
    requires NoItemRegions(bs) && RenderBlocks(env, bs, records, k, payloads).Ok?
    requires At(html, lo, RenderBlocks(env, bs, records, k, payloads).value)
    ensures LaidOut(env, html, lo, lo + |RenderBlocks(env, bs, records, k, payloads).value|, bs, ls)
    ensures Carried(payloads, Placeholders(bs), Texts(Spots(html, bs, ls, chain, map[])))
    decreases bs, 3
  {
    hide RenderPlanned, At, LaidOut, Spots, Texts, Carried, Placeholders, NoItemRegions, Plan, AllPlannedFrom, AllFrom;
    PlanOf(env, b, payloads, bs, records, chain == []);
    var plan := if records.Some? then Plan(bs, records.value) else seq(|bs|, i => Fresh);
    ls := LayPlanned(env, b, html, lo, bs, plan, k, chain, map[], payloads);
  }

  lemma {:induction false} LayBlock(env: Env, b: Binding, html: string, lo: nat, x: Block, p: Planned, k: ListKind,
                                    chain: seq<Link>, inside: seq<Link>, payloads: map<string, string>)
    returns (at: Laid)
    requires PlannedFrom(env, b, payloads, x, p, chain == []) && NoItemRegionsIn(x) && (KeyOf(x).Some? ==> inside != [])
    requires RenderBlock(env, x, p, k, payloads).Ok? && At(html, lo, RenderBlock(env, x, p, k, payloads).value)
    ensures at.lo == lo && at.hi == lo + |RenderBlock(env, x, p, k, payloads).value| && LaidIn(env, html, x, at)
    ensures Carried(payloads, PlaceholdersIn(x), Texts(SpotsIn(html, x, at, chain, inside)))
    decreases x, 2
  {
    hide RenderBlock, FromRecord, At, LaidIn, SpotsIn, Texts, Carried, PlaceholdersIn, NoItemRegionsIn;
    if p.Echo? {
      EchoText(env, x, p, k, payloads);
      at := LayEcho(env, b, html, lo, p.record, chain == [], chain, inside, payloads);
    } else if x.Blockquote? || x.Callout? {
      at := LayContainer(env, b, html, lo, x, x.blocks, p, k, chain, inside, payloads);
    } else {
      at := LayFlat(env, html, lo, x, k, chain, inside, payloads);
    }
  }

  lemma EchoText(env: Env, x: Block, p: Planned, k: ListKind, payloads: map<string, string>)
    requires p.Echo?
    ensures RenderBlock(env, x, p, k, payloads) == Ok(p.record.raw)
  {
  }

  lemma LayFlat(env: Env, html: string, lo: nat, x: Block, k: ListKind, chain: seq<Link>, inside: seq<Link>,
                payloads: map<string, string>)
    returns (at: Laid)
    requires !HoldsBlocks(x) && NoItemRegionsIn(x)
    requires RenderBlock(env, x, Fresh, k, payloads).Ok? && At(html, lo, RenderBlock(env, x, Fresh, k, payloads).value)
    ensures at.lo == lo && at.hi == lo + |RenderBlock(env, x, Fresh, k, payloads).value| && LaidIn(env, html, x, at)
    ensures Carried(payloads, PlaceholdersIn(x), Texts(SpotsIn(html, x, at, chain, inside)))
  {
    hide RenderBlock, ItemPlaceholders;
    var end := lo + |RenderBlock(env, x, Fresh, k, payloads).value|;
    at := Laid(lo, lo, end, end, []);
    if x.Opaque? { RegionText(env, x, k, payloads); }
  }

  lemma RegionText(env: Env, x: Block, k: ListKind, payloads: map<string, string>)
    requires x.Opaque? && RenderBlock(env, x, Fresh, k, payloads).Ok?
    ensures x.sentinel.token in payloads && RenderBlock(env, x, Fresh, k, payloads).value == payloads[x.sentinel.token]
  {
  }

  lemma {:induction false} LayContainer(env: Env, b: Binding, html: string, lo: nat, x: Block, blocks: seq<Block>, p: Planned,
                                        k: ListKind, chain: seq<Link>, inside: seq<Link>, payloads: map<string, string>)
    returns (at: Laid)
    requires !p.Echo? && (x == Block.Blockquote(blocks) || (x.Callout? && x.blocks == blocks))
    requires PlannedFrom(env, b, payloads, x, p, chain == []) && NoItemRegionsIn(x) && inside != []
    requires RenderBlock(env, x, p, k, payloads).Ok? && At(html, lo, RenderBlock(env, x, p, k, payloads).value)
    ensures at.lo == lo && at.hi == lo + |RenderBlock(env, x, p, k, payloads).value| && LaidIn(env, html, x, at)
    ensures Carried(payloads, PlaceholdersIn(x), Texts(SpotsIn(html, x, at, chain, inside)))
    decreases blocks, 4
  {
    hide RenderBlock, RenderBlocks, FromRecord, At, LaidOut, Spots, Texts, Carried, Placeholders, NoItemRegions, AllFrom,
      OpensContainer, OpenContainer, CloseContainer, Opens, Closes, KeyOf;
    ContainerStep(env, x, blocks, p, k, payloads);
    var records := if p.Inside? then Some(p.record.children) else None;
    var open := if p.Inside? then p.record.open else OpenContainer(x);
    var text, close := RenderBlocks(env, blocks, records, k, payloads).value, CloseContainer(x);
    WrittenTags(env, b, payloads, x, p, chain == []);
    AtBoth(html, lo, open + text, close);
    AtBoth(html, lo, open, text);
    var l, h := lo + |open|, lo + |open + text|;
    var inner := LayBlocks(env, b, html, l, blocks, records, k, inside, payloads);
    TagsAt(env, html, lo, x, open, l, h, close);
    at := Laid(lo, l, h, h + |close|, inner);
  }

  lemma TagsAt(env: Env, html: string, lo: nat, x: Block, open: string, l: nat, h: nat, close: string)
    requires At(html, lo, open) && l == lo + |open| && At(html, h, close) && Opens(env, open, x) && Closes(close, x)
    ensures h + |close| <= |html| && l <= |html| && Opens(env, html[lo..l], x) && Closes(html[h..h + |close|], x)
  {
    hide Opens, Closes;
  }

  /** A container is written between an opening tag of its own kind, new or from its original, and
      the closing tag. */
  lemma WrittenTags(env: Env, b: Binding, payloads: map<string, string>, x: Block, p: Planned, top: bool)
    requires HoldsBlocks(x) && !p.Echo? && PlannedFrom(env, b, payloads, x, p, top)
    ensures Opens(env, if p.Inside? then p.record.open else OpenContainer(x), x) && Closes(CloseContainer(x), x)
    ensures p.Inside? ==> AllFrom(env, b, payloads, p.record.children, false)
  {
    hide FromRecord, OpensContainer, OpenContainer, CloseContainer, LexClose, TagOf, AllFrom, KeyOf, ContainerPairs;
    CloseReads(x);
    if p.Inside? { var n, j, ctx := OriginOf(env, b, payloads, p.record, x, top); }
    else { FreshOpens(env, x); }
  }

  // ---------- Main result ----------

  /** The regions stand in these bytes: all of the original's, each once, in order, with its own
      bytes, inside the chain of containers that the original's references name. */
  ghost predicate Conserved(html: string, lo: nat, hi: nat, spots: seq<Spot>, c: Context) {
    && Texts(spots) == c.regions && ChainsOf(spots) == RefChains(References(c.baseline))
    && InOrder(html, lo, hi, spots)
  }

  lemma {:induction false} ElementsDecode(env: Env, b: Binding, ns: seq<Node>, k: nat, top: bool)
    ensures DecodeNodes(env, b, ElementsOf(ns), k, top) == DecodeNodes(env, b, ns, k, top)
    decreases |ns|
  {
    hide DecodeElement, DecodeNodes, Rest;
    DecodeStep(env, b, ns, k, top);
    if ns != [] {
      if ns[0].TextNode? {
        assert ElementsOf(ns) == [] + ElementsOf(ns[1..]) == ElementsOf(ns[1..]);
        ElementsDecode(env, b, ns[1..], k, top);
      } else {
        var es := ElementsOf(ns);
        assert es[1..] == ElementsOf(ns[1..]) && es[0] == ns[0];
        DecodeStep(env, b, es, k, top);
        RestIs(env, b, ns, k, top);
        RestIs(env, b, es, k, top);
        ElementsDecode(env, b, ns[1..], k + |DecodeElement(env, b, ns[0], k, top).1.regions|, top);
      }
    }
  }

  lemma RestIs(env: Env, b: Binding, ns: seq<Node>, k: nat, top: bool)
    requires ns != [] && ns[0].Element?
    ensures Rest(env, b, ns, k, top) == DecodeNodes(env, b, ns[1..], k + |DecodeElement(env, b, ns[0], k, top).1.regions|, top)
  {
    hide DecodeElement, DecodeNodes;
  }

  /** The one root element of a body stands somewhere in its source. */
  lemma {:induction false} RootAt(html: string, lo: nat, ns: seq<Node>, n: Node) returns (at: nat)
    requires n in ns && At(html, lo, Sources(ns))
    ensures lo <= at && At(html, at, Source(n))
    decreases |ns|
  {
    hide Source, At;
    AtBoth(html, lo, Source(ns[0]), Sources(ns[1..]));
    if n == ns[0] { at := lo; } else { at := RootAt(html, lo + |Source(ns[0])|, ns[1..], n); }
  }

  /** An unedited document is laid out in the stored bytes. */
  lemma LayUnedited(env: Env, stored: Stored, b: Binding) returns (lo: nat, hi: nat, ls: seq<Laid>)
    requires Decode(env, stored, b).Accepted?
    ensures var c := Decode(env, stored, b).context;
            && LaidOut(env, stored.data, lo, hi, c.baseline, ls)
            && Texts(Spots(stored.data, c.baseline, ls, [], map[])) == c.regions
  {
    hide Decode, ParseOf, DecodeNodes, WfAll, Sources, CleanText, LaidOut, Spots, Texts, StrayText, Validate, Refs, WithinLimits,
      WithinBytes, BindingTrace, Trace.Clean, Given, Blank, Source;
    AcceptedParts(env, stored, b);
    var nodes := ParseOf(env, stored.data).nodes;
    WholeAt(stored.data);
    if ContainerElement(nodes).Some? {
      var n := ContainerElement(nodes).value;
      var ctx := ContentGiven(env, stored.data, nodes);
      var at := RootAt(stored.data, 0, nodes, n);
      SourceParts(stored.data, at, n);
      lo, hi := at + |n.open|, at + |n.open| + |Sources(n.children)|;
      ls := LayNodes(env, b, stored.data, lo, n.children, 0, true, ctx, [], map[]);
    } else {
      ElementsDecode(env, b, nodes, 0, true);
      RootGiven(env, nodes);
      lo, hi := 0, |stored.data|;
      ls := LayNodes(env, b, stored.data, 0, nodes, 0, true, [Root], [], map[]);
    }
  }

  lemma WholeAt(html: string)
    ensures At(html, 0, html)
  {
  }

  lemma RootGiven(env: Env, nodes: seq<Node>)
    requires WfAll(env, nodes, [Root]) && CleanText(Sources(nodes))
    ensures Given(env, nodes, [Root], true)
  {
    hide WfAll, Sources, CleanText;
  }

  /** Region conservation, for every edit that is written, lists that hold blocks included. */
  lemma RegionsConserved(env: Env, stored: Stored, b: Binding, doc: seq<Block>, k: ListKind)
    returns (lo: nat, hi: nat, ls: seq<Laid>)
    requires Decode(env, stored, b).Accepted?
    requires Serialize(env, doc, Some(Decode(env, stored, b).context), b, k).Ok?
    ensures var c := Decode(env, stored, b).context;
            var out := Serialize(env, doc, Some(c), b, k).value.data;
            LaidOut(env, out, lo, hi, doc, ls) && Conserved(out, lo, hi, Spots(out, doc, ls, [], map[]), c)
  {
    hide Decode, Serialize, LaidOut, Spots, Texts, ChainsOf, RefChains, InOrder, Refs, NoItemRegions, Sound;
    var c := Decode(env, stored, b).context;
    var out := Serialize(env, doc, Some(c), b, k).value.data;
    SameReferences(env, doc, c, b, k);
    NoneInside(env, stored, b, doc);
    if c.baseline == doc {
      ContextSound(env, stored, b);
      SerializeUnedited(env, doc, c, b, k);
      lo, hi, ls := LayUnedited(env, stored, b);
    } else {
      lo, hi, ls := LayEdited(env, stored, b, doc, k);
    }
    SpotChains(env, out, lo, hi, doc, ls, [], map[]);
    SpotsInOrder(env, out, lo, hi, doc, ls, [], map[]);
  }

  lemma SameReferences(env: Env, doc: seq<Block>, c: Context, b: Binding, k: ListKind)
    requires Serialize(env, doc, Some(c), b, k).Ok?
    ensures References(doc) == References(c.baseline)
  {
    hide CleanStrings, Strings, Validate, RenderBlocks, Payloads, WithinBytes, Refs, DistinctTokens, BindingTrace;
  }

  lemma NoneInside(env: Env, stored: Stored, b: Binding, doc: seq<Block>)
    requires Decode(env, stored, b).Accepted? && References(doc) == References(Decode(env, stored, b).context.baseline)
    ensures NoItemRegions(doc)
  {
    hide Decode, ParseOf, DecodeNodes, WfAll, Sources, StrayText, Validate, Refs, WithinLimits, WithinBytes, BindingTrace,
      Content, NoItemRegions, PlainRefs, NoContinuation, Blank;
    var c := Decode(env, stored, b).context;
    AcceptedParts(env, stored, b);
    CleanIsNoFault(DecodeNodes(env, b, Content(ParseOf(env, stored.data).nodes), 0, true).0);
    DecodeSettledAll(env, b, Content(ParseOf(env, stored.data).nodes), 0, true, SimpleChecklist);
    PlainWithin(c.baseline, [], map[]);
    NoneInItems(doc, [], map[]);
  }

  lemma LayEdited(env: Env, stored: Stored, b: Binding, doc: seq<Block>, k: ListKind)
    returns (lo: nat, hi: nat, ls: seq<Laid>)
    requires Decode(env, stored, b).Accepted? && NoItemRegions(doc)
    requires var c := Decode(env, stored, b).context;
             c.baseline != doc && Serialize(env, doc, Some(c), b, k).Ok?
    ensures var c := Decode(env, stored, b).context;
            var out := Serialize(env, doc, Some(c), b, k).value.data;
            LaidOut(env, out, lo, hi, doc, ls) && Texts(Spots(out, doc, ls, [], map[])) == c.regions
  {
    hide Decode, Serialize, LaidOut, Spots, Texts, Refs, NoItemRegions, RenderBlocks, Payloads, CleanStrings, Strings, Validate,
      WithinBytes, AllFrom, Carried, Placeholders, GoodRefs, OpensDocument, TokenList, Distinct, RefTokens, DOCUMENT_OPEN;
    var c := Decode(env, stored, b).context;
    var payloads := Payloads(env, b, c.regions);
    ContextSound(env, stored, b);
    SerializeSteps(env, doc, Some(c), b, k);
    var open := if c.container.Some? then c.container.value else DOCUMENT_OPEN;
    var body := RenderBlocks(env, doc, Some(c.records), k, payloads).value;
    var out := Serialize(env, doc, Some(c), b, k).value.data;
    WholeAt(out);
    AtBoth(out, 0, open + body, "</div>");
    AtBoth(out, 0, open, body);
    lo, hi := |open|, |open| + |body|;
    ls := LayBlocks(env, b, out, lo, doc, Some(c.records), k, [], payloads);
    RefsArePlaceholders(doc, [], map[]);
    RefsArePlaceholders(c.baseline, [], map[]);
    CarriedUnique(payloads, Placeholders(doc), Texts(Spots(out, doc, ls, [], map[])), c.regions);
  }
}
