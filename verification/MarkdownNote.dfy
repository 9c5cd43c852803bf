/** The two entry points of the Markdown codec: writing verifies itself by reading back, and
    reading is bound to a preimage whose opaque references it must repeat in place. */
module MarkdownNote {
  import opened Text
  import opened NoteDocument
  import opened Markdown
  import opened MarkdownEscape
  import opened MarkdownBlocks
  import opened MarkdownRoundTrip
  import opened MarkdownDocument

  // ---------- What two documents must share ----------

  function PushRun(runs: seq<Inline>, r: Inline): seq<Inline> {
    if r.text == "" then runs
    else if runs != [] && MarksOf(runs[|runs| - 1]) == MarksOf(r) then
      runs[|runs| - 1 := runs[|runs| - 1].(text := runs[|runs| - 1].text + r.text)]
    else runs + [MarkedRun(r.text, MarksOf(r))]
  }

  function JoinedRuns(rs: seq<Inline>): seq<Inline> {
    if rs == [] then [] else PushRun(JoinedRuns(rs[..|rs| - 1]), rs[|rs| - 1])
  }

  function SameTasks(ts: seq<TaskItem>): seq<TaskItem> {
    if ts == [] then []
    else [TaskItem(ts[0].checked, JoinedRuns(ts[0].inlines), SameTasks(ts[0].children))] + SameTasks(ts[1..])
  }

  function SameItems(items: seq<ListItem>): (r: seq<ListItem>)
    decreases items, 0
  {
    if items == [] then []
    else
      [match items[0]
       case Item(inlines) => Item(JoinedRuns(inlines))
       case ItemWith(inlines, blocks) =>
         if blocks == [] then Item(JoinedRuns(inlines)) else ItemWith(JoinedRuns(inlines), Semantics(blocks))]
      + SameItems(items[1..])
  }

  function SameBlock(b: Block): Block
    decreases b, 0
  {
    match b
    case Paragraph(inlines) => Paragraph(JoinedRuns(inlines))
    case Heading(level, inlines) => Heading(level, JoinedRuns(inlines))
    case BulletList(items) => BulletList(SameItems(items))
    case OrderedList(items) => OrderedList(SameItems(items))
    case TaskList(kind, title, tasks) => TaskList(kind, if title == Some("") then None else title, SameTasks(tasks))
    case Blockquote(blocks) => Blockquote(Semantics(blocks))
    case Callout(v, blocks) => Callout(v, Semantics(blocks))
    case _ => b
  }

  /** A document up to the allowed normalization: adjacent equal runs joined, what is empty and
      optional dropped. */
  function Semantics(bs: seq<Block>): (r: seq<Block>)
    ensures |r| == |bs|
    decreases bs, 1
  {
    if bs == [] then [] else [SameBlock(bs[0])] + Semantics(bs[1..])
  }

  // ---------- References by position ----------

  /** A step on the way to an opaque block: the index among siblings, then the container's type
      and variant, or the list's type and the item. */
  datatype Step = At(i: nat) | InQuote | InCallout(v: Variant) | InItem(ordered: bool, j: nat)

  datatype Ref = Ref(path: seq<Step>, nodeType: string, sentinel: Sentinel)

  function Refs(bs: seq<Block>, path: seq<Step>, i: nat): seq<Ref>
    decreases bs, 1
  {
    if bs == [] then [] else BlockRefs(bs[0], path + [At(i)]) + Refs(bs[1..], path, i + 1)
  }

  function BlockRefs(b: Block, at: seq<Step>): seq<Ref>
    decreases b, 1
  {
    match b
    case Opaque(nodeType, sentinel) => [Ref(at, nodeType, sentinel)]
    case Blockquote(blocks) => Refs(blocks, at + [InQuote], 0)
    case Callout(v, blocks) => Refs(blocks, at + [InCallout(v)], 0)
    case BulletList(items) => ItemRefs(items, at, false, 0)
    case OrderedList(items) => ItemRefs(items, at, true, 0)
    case _ => []
  }

  function ItemRefs(items: seq<ListItem>, at: seq<Step>, ordered: bool, j: nat): seq<Ref>
    decreases items, 1
  {
    if items == [] then []
    else
      (match items[0] case ItemWith(_, blocks) => Refs(blocks, at + [InItem(ordered, j)], 0) case Item(_) => [])
      + ItemRefs(items[1..], at, ordered, j + 1)
  }

  predicate DistinctTokens(rs: seq<Ref>) {
    forall i, j :: 0 <= i < j < |rs| ==> rs[i].sentinel.token != rs[j].sentinel.token
  }

  function References(doc: seq<Block>): Outcome<seq<Ref>> {
    var rs := Refs(doc, [], 0);
    if DistinctTokens(rs) then Ok(rs) else Err(OpaquePayloadForbidden)
  }

  // ---------- The entry points ----------

  /** `parseNoteDocumentMarkdown` */
  function ParseNote(url: UrlCheck, text: string, preimage: Option<seq<Block>>): Outcome<seq<Block>> {
    var _ :- if preimage.Some? then Safe(preimage.value) else Ok(());
    var doc :- Decode(url, text);
    var refs :- References(doc);
    var expected :- if preimage.Some? then References(preimage.value) else Ok([]);
    if refs != expected then Err(OpaquePayloadForbidden)
    else
      var again :- Emit(url, doc);
      if again != text then Err(InvalidShape) else Ok(doc)
  }

  /** `serializeNoteDocumentMarkdown` */
  function SerializeNote(url: UrlCheck, doc: seq<Block>): Outcome<string> {
    var _ :- Safe(doc);
    var _ :- References(doc);
    var text :- Emit(url, doc);
    var decoded :- Decode(url, text);
    var again :- Emit(url, decoded);
    if again != text || Semantics(doc) != Semantics(decoded) then Err(InvalidShape) else Ok(text)
  }

  // ---------- Every written document can be read ----------

  /** Normalization moves no opaque block. */
  lemma {:induction false} SameRefs(bs: seq<Block>, path: seq<Step>, i: nat)
    ensures Refs(Semantics(bs), path, i) == Refs(bs, path, i)
    decreases bs, 1
  {
    hide SameBlock, BlockRefs;
    if bs != [] {
      SameRefsIn(bs[0], path + [At(i)]);
      SameRefs(bs[1..], path, i + 1);
      assert ([SameBlock(bs[0])] + Semantics(bs[1..]))[1..] == Semantics(bs[1..]);
    }
  }

  lemma {:induction false} SameRefsIn(b: Block, at: seq<Step>)
    ensures BlockRefs(SameBlock(b), at) == BlockRefs(b, at)
    decreases b, 1
  {
    hide Refs, JoinedRuns, SameTasks, Semantics;
    match b
    case Blockquote(blocks) => SameRefs(blocks, at + [InQuote], 0);
    case Callout(v, blocks) => SameRefs(blocks, at + [InCallout(v)], 0);
    case BulletList(items) => SameRefsItems(items, at, false, 0);
    case OrderedList(items) => SameRefsItems(items, at, true, 0);
    case _ =>
  }

  lemma {:induction false} SameRefsItems(items: seq<ListItem>, at: seq<Step>, ordered: bool, j: nat)
    ensures ItemRefs(SameItems(items), at, ordered, j) == ItemRefs(items, at, ordered, j)
    decreases items, 1
  {
    if items != [] {
      var s := SameItems(items);
      assert s[1..] == SameItems(items[1..]);
      SameRefsItems(items[1..], at, ordered, j + 1);
      if items[0].ItemWith? {
        SameRefs(items[0].blocks, at + [InItem(ordered, j)], 0);
        assert Refs([], at + [InItem(ordered, j)], 0) == [];
      }
    }
  }

  /** Whatever the serializer writes, the parser reads under the written document's own references,
      as a document with the same meaning that is written the same way again. */
  lemma WrittenIsRead(url: UrlCheck, doc: seq<Block>, text: string) returns (d: seq<Block>)
    requires SerializeNote(url, doc) == Ok(text)
    ensures ParseNote(url, text, Some(doc)) == Ok(d) && Semantics(d) == Semantics(doc) && SerializeNote(url, d) == Ok(text)
  {
    hide Decode, Emit, Semantics, Refs, Safe, DistinctTokens;
    d := Decode(url, text).value;
    DecodedSafe(url, text);
    SameRefs(doc, [], 0);
    SameRefs(d, [], 0);
  }

  /** Whatever is decoded has passed the checks that are made of a document to be written. */
  lemma DecodedSafe(url: UrlCheck, text: string)
    requires Decode(url, text).Ok?
    ensures Safe(Decode(url, text).value).Ok?
  {
    hide Blocks, Strings, Split, CleanText, HEADER, Utf8;
    NothingUnsafe();
  }

  lemma NothingUnsafe()
    ensures Safe([]).Ok?
  {
  }

  // ---------- What the serializer refuses of simple documents ----------

  lemma {:induction false} RunsSame(rs: seq<Inline>)
    requires SimpleRuns(rs)
    ensures JoinedRuns(rs) == rs && JoinedRuns(DropRuns(rs)) == DropRuns(rs)
  {
    hide CleanText, Utf8, Drop;
    if rs != [] {
      DropKeeps(rs[0].text);
      OneRunSame(rs[0]);
      OneRunSame(DropRuns(rs)[0]);
      assert rs == [rs[0]] && DropRuns(rs) == [DropRuns(rs)[0]];
    }
  }

  lemma OneRunSame(r: Inline)
    requires r.text != "" && r.marks == None
    ensures JoinedRuns([r]) == [r]
  {
    assert [r][..0] == [];
    assert JoinedRuns([]) == [];
  }

  lemma {:induction false} TasksSame(ts: seq<TaskItem>, depth: nat)
    requires SimpleTasks(ts, depth)
    ensures SameTasks(ts) == ts && SameTasks(DropTasks(ts)) == DropTasks(ts)
    decreases ts
  {
    hide SimpleRuns, JoinedRuns, OneLine, DropRuns;
    if ts != [] {
      RunsSame(ts[0].inlines);
      TasksSame(ts[0].children, depth + 1);
      TasksSame(ts[1..], depth);
      assert DropTasks(ts)[1..] == DropTasks(ts[1..]);
    }
  }

  lemma {:induction false} ItemsSame(items: seq<ListItem>)
    requires SimpleItems(items)
    ensures SameItems(items) == items && SameItems(DropItems(items)) == DropItems(items)
  {
    hide SimpleRuns, JoinedRuns, OneLine, DropRuns;
    if items != [] {
      RunsSame(items[0].inlines);
      ItemsSame(items[1..]);
      assert DropItems(items)[1..] == DropItems(items[1..]);
    }
  }

  lemma {:induction false} BlockSame(b: Block, depth: nat)
    requires Simple(b, depth)
    ensures SameBlock(b) == b && SameBlock(Dropped(b)) == Dropped(b)
    decreases b, 0
  {
    hide SimpleRuns, JoinedRuns, SimpleAll, SimpleTasks, SimpleItems, SameTasks, SameItems, DropTasks, DropItems,
      Semantics, DroppedAll,
      OneLine, DropRuns, Validate, CleanText, ParagraphText;
    match b
    case Paragraph(inlines) => RunsSame(inlines);
    case Heading(_, inlines) => RunsSame(inlines);
    case BulletList(items) => ItemsSame(items);
    case OrderedList(items) => ItemsSame(items);
    case TaskList(_, _, tasks) => TasksSame(tasks, depth);
    case Blockquote(blocks) => AllSame(blocks, depth + 1);
    case Callout(_, blocks) => AllSame(blocks, depth + 1);
    case _ =>
  }

  lemma {:induction false} AllSame(bs: seq<Block>, depth: nat)
    requires SimpleAll(bs, depth)
    ensures Semantics(bs) == bs && Semantics(DroppedAll(bs)) == DroppedAll(bs)
    decreases bs, 1
  {
    hide Simple, SameBlock, Dropped;
    if bs != [] {
      BlockSame(bs[0], depth);
      AllSame(bs[1..], depth);
      assert DroppedAll(bs)[1..] == DroppedAll(bs[1..]);
    }
  }

  /** Of the simple documents that can be printed, the serializer writes exactly those that come
      back unchanged: the ones without a backslash directly before a digit. */
  lemma {:induction false} SimpleWritten(url: UrlCheck, doc: seq<Block>, text: string)
    requires SimpleDocument(doc) && Emit(url, doc) == Ok(text) && Safe(doc).Ok? && References(doc).Ok?
    ensures SerializeNote(url, doc) == Ok(text) <==> KeepsAll(doc)
    ensures SerializeNote(url, doc).Ok? <==> KeepsAll(doc)
  {
    hide Decode, Emit, Semantics, References, DroppedAll, SimpleAll, KeepsAll, Strings, Validate;
    DocumentReads(url, doc, text);
    AllKept(doc, 1);
    AllSame(doc, 1);
  }

  // ---------- References as places ----------

  /** The block that a path leads to from siblings of which the first has the index `i`. */
  function BlockAt(bs: seq<Block>, i: nat, path: seq<Step>): Option<Block>
    decreases |path|
  {
    if path == [] || !path[0].At? || !(i <= path[0].i < i + |bs|) then None
    else Within(bs[path[0].i - i], path[1..])
  }

  /** The block that the rest of a path leads to from this one. */
  function Within(b: Block, path: seq<Step>): Option<Block>
    decreases |path|
  {
    if path == [] then Some(b)
    else
      match path[0]
      case InQuote => if b.Blockquote? then BlockAt(b.blocks, 0, path[1..]) else None
      case InCallout(v) => if b.Callout? && b.variant == v then BlockAt(b.blocks, 0, path[1..]) else None
      case InItem(ordered, j) =>
        if (if ordered then b.OrderedList? else b.BulletList?) && j < |b.items| && b.items[j].ItemWith?
        then BlockAt(b.items[j].blocks, 0, path[1..]) else None
      case At(_) => None
  }

  /** At this place of the document stands this opaque block. */
  predicate OpaqueAt(doc: seq<Block>, path: seq<Step>, nodeType: string, sentinel: Sentinel) {
    BlockAt(doc, 0, path) == Some(Opaque(nodeType, sentinel))
  }

  /** The same opaque blocks stand at the same places. */
  ghost predicate SameOpaques(a: seq<Block>, b: seq<Block>) {
    forall path, nodeType, sentinel :: OpaqueAt(a, path, nodeType, sentinel) <==> OpaqueAt(b, path, nodeType, sentinel)
  }

  /** No token stands at two places. */
  ghost predicate DistinctOpaques(doc: seq<Block>) {
    forall p, q, t, u, s, r :: OpaqueAt(doc, p, t, s) && OpaqueAt(doc, q, u, r) && p != q ==> s.token != r.token
  }

  lemma PathSplit(base: seq<Step>, step: Step, path: seq<Step>)
    requires base + [step] <= path
    ensures base <= path && path[|base|..] != [] && path[|base|] == step && path[|base|..][1..] == path[|base| + 1..]
    ensures path[|base + [step]|..] == path[|base|..][1..]
  {
    assert (base + [step])[|base|] == step;
    assert base == (base + [step])[..|base|];
  }

  lemma PathJoin(base: seq<Step>, path: seq<Step>)
    requires base < path
    ensures base + [path[|base|]] <= path
  {
  }

  lemma {:induction false} RefsIn(bs: seq<Block>, base: seq<Step>, i: nat, r: Ref)
    ensures r in Refs(bs, base, i) <==>
              base <= r.path && BlockAt(bs, i, r.path[|base|..]) == Some(Opaque(r.nodeType, r.sentinel))
    decreases bs, 1
  {
    hide BlockRefs, Within;
    if bs != [] {
      RefsInBlock(bs[0], base + [At(i)], r);
      RefsIn(bs[1..], base, i + 1, r);
      if base < r.path { PathJoin(base, r.path); }
      if base + [At(i)] <= r.path { PathSplit(base, At(i), r.path); }
    }
  }

  lemma {:induction false} RefsInBlock(b: Block, at: seq<Step>, r: Ref)
    ensures r in BlockRefs(b, at) <==> at <= r.path && Within(b, r.path[|at|..]) == Some(Opaque(r.nodeType, r.sentinel))
    decreases b, 1
  {
    hide Refs, ItemRefs, BlockAt;
    if at < r.path {
      PathJoin(at, r.path);
      PathSplit(at, r.path[|at|], r.path);
    }
    match b
    case Blockquote(blocks) => RefsInside(b, blocks, at, InQuote, r);
    case Callout(v, blocks) => RefsInside(b, blocks, at, InCallout(v), r);
    case BulletList(items) => RefsInItems(items, at, false, 0, r);
    case OrderedList(items) => RefsInItems(items, at, true, 0, r);
    case _ =>
      if at <= r.path && r.path[|at|..] == [] { assert r.path == at; }
      assert at[|at|..] == [];
  }

  lemma {:induction false} RefsInside(b: Block, blocks: seq<Block>, at: seq<Step>, step: Step, r: Ref)
    requires (b.Blockquote? && b.blocks == blocks && step == InQuote) || (b.Callout? && b.blocks == blocks && step == InCallout(b.variant))
    ensures r in Refs(blocks, at + [step], 0) <==> at <= r.path && Within(b, r.path[|at|..]) == Some(Opaque(r.nodeType, r.sentinel))
    decreases b, 0
  {
    hide Refs, BlockAt;
    RefsIn(blocks, at + [step], 0, r);
    if at < r.path { PathJoin(at, r.path); }
    if at + [step] <= r.path { PathSplit(at, step, r.path); }
  }

  lemma {:induction false} RefsInItems(items: seq<ListItem>, at: seq<Step>, ordered: bool, j: nat, r: Ref)
    ensures r in ItemRefs(items, at, ordered, j) <==>
              && at < r.path && r.path[|at|].InItem? && r.path[|at|].ordered == ordered
              && var k := r.path[|at|].j;
                 j <= k < j + |items| && items[k - j].ItemWith?
                 && BlockAt(items[k - j].blocks, 0, r.path[|at| + 1..]) == Some(Opaque(r.nodeType, r.sentinel))
    decreases items, 1
  {
    hide Refs, BlockAt;
    if items != [] {
      RefsInItems(items[1..], at, ordered, j + 1, r);
      if items[0].ItemWith? { RefsIn(items[0].blocks, at + [InItem(ordered, j)], 0, r); }
      if at < r.path { PathJoin(at, r.path); }
      if at + [InItem(ordered, j)] <= r.path { PathSplit(at, InItem(ordered, j), r.path); }
    }
  }

  // ---------- References in order ----------

  /** Steps in the order in which the document is walked. */
  predicate StepBefore(a: Step, b: Step) {
    (a.At? && b.At? && a.i < b.i) || (a.InItem? && b.InItem? && a.ordered == b.ordered && a.j < b.j)
  }

  predicate PathBefore(p: seq<Step>, q: seq<Step>)
    decreases |p|
  {
    p != [] && q != [] && (StepBefore(p[0], q[0]) || (p[0] == q[0] && PathBefore(p[1..], q[1..])))
  }

  lemma {:induction false} NotBoth(p: seq<Step>, q: seq<Step>)
    ensures !(PathBefore(p, q) && PathBefore(q, p)) && !PathBefore(p, p)
    decreases |p|
  {
    if p != [] && q != [] { NotBoth(p[1..], q[1..]); }
    if p != [] { NotBoth(p[1..], p[1..]); }
  }

  lemma {:induction false} BeforeAfter(base: seq<Step>, a: Step, b: Step, p: seq<Step>, q: seq<Step>)
    requires base + [a] <= p && base + [b] <= q && StepBefore(a, b)
    ensures PathBefore(p, q)
    decreases |base|
  {
    if base == [] {
      assert p[0] == a && q[0] == b;
    } else {
      assert (base + [a])[0] == (base + [b])[0] == base[0];
      assert base[1..] + [a] == (base + [a])[1..] <= p[1..];
      assert base[1..] + [b] == (base + [b])[1..] <= q[1..];
      BeforeAfter(base[1..], a, b, p[1..], q[1..]);
    }
  }

  ghost predicate InOrder(rs: seq<Ref>) { forall i, j :: 0 <= i < j < |rs| ==> PathBefore(rs[i].path, rs[j].path) }

  lemma OrderBoth(a: seq<Ref>, b: seq<Ref>)
    requires InOrder(a) && InOrder(b) && forall r, s :: r in a && s in b ==> PathBefore(r.path, s.path)
    ensures InOrder(a + b)
  {
  }

  lemma SomeIn(rs: seq<Ref>)
    requires rs != []
    ensures exists r :: r in rs
  {
    assert rs[0] in rs;
  }

  /** References that are in order are determined by which they are. */
  lemma {:induction false} OrderedSame(a: seq<Ref>, b: seq<Ref>)
    requires InOrder(a) && InOrder(b) && forall r :: r in a <==> r in b
    ensures a == b
  {
    if a == [] {
      if b != [] { SomeIn(b); }
    } else {
      assert a[0] in b;
      assert b[0] in a;
      NotBoth(a[0].path, b[0].path);
      assert a[0] == b[0];
      forall r ensures r in a[1..] <==> r in b[1..] {
        NotBoth(r.path, r.path);
        assert r in a <==> r == a[0] || r in a[1..];
        assert r in b <==> r == b[0] || r in b[1..];
      }
      OrderedSame(a[1..], b[1..]);
    }
  }

  lemma {:induction false} RefsOrdered(bs: seq<Block>, base: seq<Step>, i: nat)
    ensures InOrder(Refs(bs, base, i))
    ensures forall r :: r in Refs(bs, base, i) ==> base < r.path && r.path[|base|].At? && r.path[|base|].i >= i
    decreases bs, 1
  {
    hide BlockRefs, InOrder, PathBefore;
    if bs == [] {
      NoneOrdered();
    } else {
      var here := base + [At(i)];
      BlockRefsOrdered(bs[0], here);
      RefsOrdered(bs[1..], base, i + 1);
      var a, b := BlockRefs(bs[0], here), Refs(bs[1..], base, i + 1);
      forall r, s | r in a && s in b ensures PathBefore(r.path, s.path) {
        PathJoin(base, s.path);
        BeforeAfter(base, At(i), s.path[|base|], r.path, s.path);
      }
      OrderBoth(a, b);
      forall r | r in a ensures base < r.path && r.path[|base|] == At(i) { PathSplit(base, At(i), r.path); }
    }
  }

  lemma NoneOrdered()
    ensures InOrder([])
  {
  }

  lemma OneOrdered(r: Ref)
    ensures InOrder([r])
  {
  }

  lemma {:induction false} BlockRefsOrdered(b: Block, at: seq<Step>)
    ensures InOrder(BlockRefs(b, at))
    ensures forall r :: r in BlockRefs(b, at) ==> at <= r.path
    decreases b, 1
  {
    hide Refs, ItemRefs, InOrder;
    NoneOrdered();
    match b
    case Opaque(nodeType, sentinel) => OneOrdered(Ref(at, nodeType, sentinel));
    case Blockquote(blocks) => RefsOrdered(blocks, at + [InQuote], 0);
    case Callout(v, blocks) => RefsOrdered(blocks, at + [InCallout(v)], 0);
    case BulletList(items) => ItemRefsOrdered(items, at, false, 0);
    case OrderedList(items) => ItemRefsOrdered(items, at, true, 0);
    case _ =>
  }

  lemma {:induction false} ItemRefsOrdered(items: seq<ListItem>, at: seq<Step>, ordered: bool, j: nat)
    ensures InOrder(ItemRefs(items, at, ordered, j))
    ensures forall r :: r in ItemRefs(items, at, ordered, j) ==>
              at < r.path && r.path[|at|].InItem? && r.path[|at|].ordered == ordered && r.path[|at|].j >= j
    decreases items, 1
  {
    hide Refs, InOrder, PathBefore;
    NoneOrdered();
    if items != [] {
      var here := at + [InItem(ordered, j)];
      ItemRefsOrdered(items[1..], at, ordered, j + 1);
      var a, b := if items[0].ItemWith? then Refs(items[0].blocks, here, 0) else [], ItemRefs(items[1..], at, ordered, j + 1);
      if items[0].ItemWith? { RefsOrdered(items[0].blocks, here, 0); }
      forall r, s | r in a && s in b ensures PathBefore(r.path, s.path) {
        PathJoin(at, s.path);
        BeforeAfter(at, InItem(ordered, j), s.path[|at|], r.path, s.path);
      }
      OrderBoth(a, b);
      forall r | r in a ensures at < r.path && r.path[|at|] == InItem(ordered, j) { PathSplit(at, InItem(ordered, j), r.path); }
    }
  }

  // ---------- What the parser accepts ----------

  lemma RefIsPlace(doc: seq<Block>, r: Ref)
    ensures r in Refs(doc, [], 0) <==> OpaqueAt(doc, r.path, r.nodeType, r.sentinel)
  {
    hide Refs, BlockAt;
    RefsIn(doc, [], 0, r);
    assert r.path[0..] == r.path;
  }

  lemma SamePlaces(a: seq<Block>, b: seq<Block>)
    ensures Refs(a, [], 0) == Refs(b, [], 0) <==> SameOpaques(a, b)
  {
    hide Refs, OpaqueAt;
    forall r ensures r in Refs(a, [], 0) <==> OpaqueAt(a, r.path, r.nodeType, r.sentinel) { RefIsPlace(a, r); }
    forall r ensures r in Refs(b, [], 0) <==> OpaqueAt(b, r.path, r.nodeType, r.sentinel) { RefIsPlace(b, r); }
    RefsOrdered(a, [], 0);
    RefsOrdered(b, [], 0);
    if SameOpaques(a, b) {
      OrderedSame(Refs(a, [], 0), Refs(b, [], 0));
    } else if Refs(a, [], 0) == Refs(b, [], 0) {
      forall p, t, s ensures OpaqueAt(a, p, t, s) <==> OpaqueAt(b, p, t, s) {
        assert Ref(p, t, s) in Refs(a, [], 0) <==> Ref(p, t, s) in Refs(b, [], 0);
      }
    }
  }

  lemma DistinctPlaces(doc: seq<Block>)
    ensures References(doc) == (if DistinctOpaques(doc) then Ok(Refs(doc, [], 0)) else Err(OpaquePayloadForbidden))
  {
    hide Refs, OpaqueAt, InOrder, PathBefore;
    var rs := Refs(doc, [], 0);
    forall r ensures r in rs <==> OpaqueAt(doc, r.path, r.nodeType, r.sentinel) { RefIsPlace(doc, r); }
    RefsOrdered(doc, [], 0);
    if DistinctOpaques(doc) {
      forall i, j | 0 <= i < j < |rs| ensures rs[i].sentinel.token != rs[j].sentinel.token {
        PathsDiffer(rs, i, j);
        assert rs[i] in rs && rs[j] in rs;
      }
    }
    if DistinctTokens(rs) {
      forall p, q, t, u, s, r | OpaqueAt(doc, p, t, s) && OpaqueAt(doc, q, u, r) && p != q ensures s.token != r.token {
        assert Ref(p, t, s) in rs && Ref(q, u, r) in rs;
      }
    }
  }

  lemma PathsDiffer(rs: seq<Ref>, i: nat, j: nat)
    requires InOrder(rs) && i < j < |rs|
    ensures rs[i].path != rs[j].path
  {
    NotBoth(rs[i].path, rs[j].path);
  }

  /** The parser accepts a text exactly when it is what the codec writes for the document it decodes
      to, and the opaque blocks of that document are those of the preimage, each at its place, and no
      token stands twice; without a preimage there are none. Otherwise what is wrong with the opaque
      blocks is what is reported. */
  lemma ParseExact(url: UrlCheck, text: string, preimage: Option<seq<Block>>, doc: seq<Block>)
    ensures var trusted := if preimage.Some? then preimage.value else [];
            var bound := DistinctOpaques(doc) && DistinctOpaques(trusted) && SameOpaques(doc, trusted);
            && (ParseNote(url, text, preimage) == Ok(doc) <==>
                  && (preimage.Some? ==> Safe(preimage.value).Ok?)
                  && Decode(url, text) == Ok(doc) && Emit(url, doc) == Ok(text) && bound)
            && ((preimage.Some? ==> Safe(preimage.value).Ok?) && Decode(url, text) == Ok(doc) && !bound ==>
                  ParseNote(url, text, preimage) == Err(OpaquePayloadForbidden))
  {
    hide Decode, Emit, Safe, SameOpaques, DistinctOpaques, References;
    var trusted := if preimage.Some? then preimage.value else [];
    SamePlaces(doc, trusted);
    DistinctPlaces(doc);
    DistinctPlaces(trusted);
    NoPlaces();
  }

  lemma NoPlaces()
    ensures References([]) == Ok([])
  {
  }

  // ---------- What is shown ----------

  lemma PushShows(rs: seq<Inline>, r: Inline)
    ensures RunGlyphs(PushRun(rs, r)) == RunGlyphs(rs) + TextGlyphs(r.text, MarkSet(MarksOf(r)))
  {
    hide TextGlyphs, RunGlyphs, MarkSet;
    if r.text == "" {
      NoGlyphs(MarkSet(MarksOf(r)));
    } else if rs != [] && MarksOf(rs[|rs| - 1]) == MarksOf(r) {
      var before, last := rs[..|rs| - 1], rs[|rs| - 1];
      var longer := last.(text := last.text + r.text);
      assert rs == before + [last] && PushRun(rs, r) == before + [longer];
      RunGlyphsOf(before, [last]);
      RunGlyphsOf(before, [longer]);
      OneRunGlyphs(last);
      OneRunGlyphs(longer);
      TextGlyphsOf(last.text, r.text, MarkSet(MarksOf(r)));
    } else {
      var run := MarkedRun(r.text, MarksOf(r));
      RunGlyphsOf(rs, [run]);
      OneRunGlyphs(run);
      assert MarksOf(run) == MarksOf(r);
    }
  }

  lemma {:induction false} JoinedShow(rs: seq<Inline>)
    ensures RunGlyphs(JoinedRuns(rs)) == RunGlyphs(rs)
  {
    hide PushRun, TextGlyphs, RunGlyphs, MarkSet;
    if rs != [] {
      var before, last := rs[..|rs| - 1], rs[|rs| - 1];
      assert rs == before + [last];
      JoinedShow(before);
      PushShows(JoinedRuns(before), last);
      RunGlyphsOf(before, [last]);
      OneRunGlyphs(last);
    }
  }

  lemma {:induction false} TasksShow(ts: seq<TaskItem>)
    ensures TaskGlyphs(SameTasks(ts)) == TaskGlyphs(ts)
  {
    hide JoinedRuns, RunGlyphs;
    if ts != [] {
      JoinedShow(ts[0].inlines);
      TasksShow(ts[0].children);
      TasksShow(ts[1..]);
      assert SameTasks(ts)[1..] == SameTasks(ts[1..]);
    }
  }

  lemma {:induction false} ItemsShow(items: seq<ListItem>)
    ensures ItemGlyphs(SameItems(items)) == ItemGlyphs(items)
    decreases items, 0
  {
    hide JoinedRuns, RunGlyphs, Semantics;
    if items != [] {
      JoinedShow(items[0].inlines);
      if items[0].ItemWith? {
        AllShow(items[0].blocks);
        assert AllGlyphs([]) == [];
      }
      ItemsShow(items[1..]);
      assert SameItems(items)[1..] == SameItems(items[1..]);
    }
  }

  lemma {:induction false} BlockShows(b: Block)
    ensures BlockGlyphs(SameBlock(b)) == BlockGlyphs(b)
    decreases b, 0
  {
    hide JoinedRuns, RunGlyphs, Semantics, SameItems, SameTasks, ItemGlyphs, TaskGlyphs, AllGlyphs, CellGlyphs, RowGlyphs, TextGlyphs;
    match b
    case Paragraph(inlines) => JoinedShow(inlines);
    case Heading(_, inlines) => JoinedShow(inlines);
    case BulletList(items) => ItemsShow(items);
    case OrderedList(items) => ItemsShow(items);
    case TaskList(_, _, tasks) => TasksShow(tasks);
    case Blockquote(blocks) => AllShow(blocks);
    case Callout(_, blocks) => AllShow(blocks);
    case _ =>
  }

  lemma {:induction false} AllShow(bs: seq<Block>)
    ensures AllGlyphs(Semantics(bs)) == AllGlyphs(bs)
    decreases bs, 1
  {
    hide SameBlock, BlockGlyphs;
    if bs != [] {
      BlockShows(bs[0]);
      AllShow(bs[1..]);
      assert Semantics(bs)[1..] == Semantics(bs[1..]);
    }
  }

  /** Nothing that is shown is lost in a note that is written: read again, it has the same characters
      with the same marks, in the same order. */
  lemma WrittenShows(url: UrlCheck, doc: seq<Block>, text: string)
    requires SerializeNote(url, doc) == Ok(text)
    ensures ParseNote(url, text, Some(doc)).Ok? && AllGlyphs(ParseNote(url, text, Some(doc)).value) == AllGlyphs(doc)
  {
    hide Semantics, AllGlyphs, ParseNote, SerializeNote;
    var d := WrittenIsRead(url, doc, text);
    AllShow(doc);
    AllShow(d);
  }
}
