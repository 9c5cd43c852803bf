/** What an edit leaves as it was: the bytes of every block that is paired with an original, and the
    opening tag of every container that holds regions. */
module NativeEcho {
  import opened Text
  import opened NativeFaults
  import opened NativeHtml
  import opened NativeHtmlTheory
  import opened NoteDocument
  import opened NativeDecode
  import opened NativeSerialize
  import opened NativeBlocks
  import opened NativeRegions
  import opened NativeMerge
  import opened NativeRoundTrip
  import opened NativeIdentity
  import opened NativeLoops
  import opened NativeText
  import NativeConservation
  import Alignment

  // ---------- Pieces of the written bytes ----------

  function Together(pieces: seq<string>): string {
    if pieces == [] then "" else pieces[0] + Together(pieces[1..])
  }

  predicate Paired(bs: seq<Block>, originals: seq<Block>, i: nat) {
    exists k :: 0 <= k < |Alignment.Pairs(bs, originals)| && Alignment.Pairs(bs, originals)[k].i == i
  }

  /** The pieces are written for these blocks, where the original blocks came from the elements among
      `ns`: a block that is paired with an original is that original's bytes; an unpaired container
      that holds regions has the opening tag of the original that holds the same ones, and what is
      inside is again such pieces; any other container has an opening tag of its own. */
  ghost predicate Echoed(pieces: seq<string>, bs: seq<Block>, ns: seq<Node>, originals: seq<Block>)
    decreases bs, 1
  {
    var es := ElementsOf(ns);
    && |pieces| == |bs| && |es| == |originals|
    && (forall p :: p in Alignment.Pairs(bs, originals) ==>
          p.i < |bs| && p.j < |es| && pieces[p.i] == Source(es[p.j]))
    && (forall i :: 0 <= i < |bs| && !Paired(bs, originals, i) && HoldsBlocks(bs[i]) ==>
          if HoldsRegion(bs[i]) then exists j, inner :: 0 <= j < |es| && Reopened(pieces[i], bs[i], es[j], originals[j], inner)
          else OpenContainer(bs[i]) <= pieces[i])
  }

  ghost predicate Reopened(piece: string, b: Block, e: Node, original: Block, inner: seq<string>)
    requires HoldsBlocks(b)
    decreases b, 0
  {
    && e.Element? && KeyOf(original) == KeyOf(b) && HoldsBlocks(original) && PlaceholdersIn(original) == PlaceholdersIn(b)
    && piece == e.open + Together(inner) + CloseContainer(b)
    && Echoed(inner, b.blocks, e.children, original.blocks)
  }

  // ---------- Records and the elements they were left of ----------

  predicate Recorded(ns: seq<Node>, records: seq<Record>)
    decreases records
  {
    var es := ElementsOf(ns);
    && |records| == |es|
    && forall j :: 0 <= j < |es| ==>
         && records[j].raw == Source(es[j]) && records[j].open == es[j].open
         && (HoldsBlocks(records[j].block) ==> Recorded(es[j].children, records[j].children))
  }

  lemma {:induction false} NodesRecorded(env: Env, b: Binding, ns: seq<Node>, k: nat, top: bool, ctx: seq<Tag>)
    requires ctx != [] && WfAll(env, ns, ctx) && DecodeNodes(env, b, ns, k, top).0.Clean()
    ensures Recorded(ns, DecodeNodes(env, b, ns, k, top).1.records)
    decreases ns, 1
  {
    hide DecodeElement, DecodeNodes, Wf, Source;
    DecodeStep(env, b, ns, k, top);
    if ns != [] {
      if ns[0].TextNode? {
        NodesRecorded(env, b, ns[1..], k, top, ctx);
        assert ElementsOf(ns) == ElementsOf(ns[1..]);
      } else {
        var (t, h) := DecodeElement(env, b, ns[0], k, top);
        RecordBlock(env, b, ns[0], k, top);
        ElementRecorded(env, b, ns[0], k, top, ctx);
        RestRecorded(env, b, ns, k, top, ctx);
        FirstRecorded(ns, h.records[0], Rest(env, b, ns, k, top).1.records);
        assert h.records == [h.records[0]];
      }
    }
  }

  lemma {:induction false} RestRecorded(env: Env, b: Binding, ns: seq<Node>, k: nat, top: bool, ctx: seq<Tag>)
    requires ctx != [] && ns != [] && ns[0].Element? && WfAll(env, ns[1..], ctx) && Rest(env, b, ns, k, top).0.Clean()
    ensures Recorded(ns[1..], Rest(env, b, ns, k, top).1.records)
    decreases ns, 0
  {
    hide DecodeElement, DecodeNodes, WfAll, Recorded;
    NodesRecorded(env, b, ns[1..], k + |DecodeElement(env, b, ns[0], k, top).1.regions|, top, ctx);
  }

  predicate RecordOf(n: Node, record: Record)
    requires n.Element?
  {
    && record.raw == Source(n) && record.open == n.open
    && (HoldsBlocks(record.block) ==> Recorded(n.children, record.children))
  }

  lemma FirstRecorded(ns: seq<Node>, record: Record, rest: seq<Record>)
    requires ns != [] && ns[0].Element? && RecordOf(ns[0], record) && Recorded(ns[1..], rest)
    ensures Recorded(ns, [record] + rest)
  {
    hide Source;
    var es, records := ElementsOf(ns), [record] + rest;
    assert es == [ns[0]] + ElementsOf(ns[1..]);
    forall j | 0 <= j < |es|
      ensures records[j].raw == Source(es[j]) && records[j].open == es[j].open
      ensures HoldsBlocks(records[j].block) ==> Recorded(es[j].children, records[j].children)
    {
      if j > 0 { assert es[j] == ElementsOf(ns[1..])[j - 1] && records[j] == rest[j - 1]; }
    }
  }

  lemma {:induction false} ElementRecorded(env: Env, b: Binding, n: Node, k: nat, top: bool, ctx: seq<Tag>)
    requires n.Element? && ctx != [] && Wf(env, n, ctx) && DecodeElement(env, b, n, k, top).0.Clean()
    ensures |DecodeElement(env, b, n, k, top).1.records| == 1 && RecordOf(n, DecodeElement(env, b, n, k, top).1.records[0])
    decreases n, 0
  {
    hide Unsupported, ContainerOf, StrayText, LeafBlock, DecodeNodes, WfAll, Recorded, StructTrace, WellOpened, WellClosed;
    if !Unsupported(n) && ContainerOf(n).Some? && !StrayText(n.children) {
      NodesRecorded(env, b, n.children, k, false, ctx + [n.tag]);
    } else {
      var d := LeafBlock(env, n, top);
      if d.value.Some? { LeafBlockLeaf(env, n, top); }
    }
  }

  // ---------- The plan ----------

  /** What the plan says of block `i`. */
  predicate PlannedAs(bs: seq<Block>, records: seq<Record>, pairs: seq<Alignment.Pair>, i: nat, p: Planned)
    requires i < |bs| && forall k :: 0 <= k < |pairs| ==> pairs[k].j < |records|
  {
    && (PartnerOf(pairs, i).Some? ==> p == Echo(records[PartnerOf(pairs, i).value]))
    && (PartnerOf(pairs, i) == None ==> !p.Echo?)
    && (p.Inside? ==> HoldsBlocks(bs[i]) && HoldsRegion(bs[i]))
  }

  lemma {:induction false} PlanFromSays(bs: seq<Block>, records: seq<Record>, pairs: seq<Alignment.Pair>, i: nat,
                                        seen: map<ContainerKey, nat>, used: set<nat>)
    requires i <= |bs| && forall k :: 0 <= k < |pairs| ==> pairs[k].j < |records|
    ensures var plan := PlanFrom(bs, records, pairs, i, seen, used);
            forall x :: 0 <= x < |plan| ==> PlannedAs(bs, records, pairs, i + x, plan[x])
    decreases |bs| - i
  {
    hide PlanFrom, PartnerOf, HoldsRegion, NthOfKey;
    if i < |bs| {
      PlanFromStep(bs, records, pairs, i, seen, used);
      var (p, seen', used') := PlanStep(bs, records, pairs, i, seen, used);
      var plan, rest := PlanFrom(bs, records, pairs, i, seen, used), PlanFrom(bs, records, pairs, i + 1, seen', used');
      PlanFromSays(bs, records, pairs, i + 1, seen', used');
      forall x | 0 <= x < |plan| ensures PlannedAs(bs, records, pairs, i + x, plan[x]) {
        if x > 0 { assert plan[x] == rest[x - 1] && PlannedAs(bs, records, pairs, i + 1 + (x - 1), rest[x - 1]); }
      }
    }
  }

  /** The plan echoes the partner of every paired block, and opens an original only for a container
      that holds regions. */
  lemma PlanSays(bs: seq<Block>, records: seq<Record>)
    ensures var plan, originals := Plan(bs, records), BlocksOf(records);
            && (forall p :: p in Alignment.Pairs(bs, originals) ==>
                  p.i < |bs| && p.j < |records| && plan[p.i] == Echo(records[p.j]))
            && (forall i :: 0 <= i < |bs| && !Paired(bs, originals, i) ==> !plan[i].Echo?)
            && (forall i :: 0 <= i < |bs| && plan[i].Inside? ==> HoldsBlocks(bs[i]) && HoldsRegion(bs[i]))
  {
    var originals := BlocksOf(records);
    var pairs := Alignment.Pairs(bs, originals);
    hide Plan, PlanFrom, PartnerOf, HoldsRegion, Alignment.Pairs, BlocksOf;
    PairsEqual(bs, records);
    PlanIs(bs, records);
    Alignment.PairsMatch(bs, originals);
    assert Increasing(pairs);
    PlanFromSays(bs, records, pairs, 0, map[], Used(pairs));
    var plan := Plan(bs, records);
    forall p | p in pairs ensures p.i < |bs| && p.j < |records| && plan[p.i] == Echo(records[p.j]) {
      var k :| 0 <= k < |pairs| && pairs[k] == p;
      PartnerIs(pairs, p.i, k);
      assert PlannedAs(bs, records, pairs, 0 + p.i, plan[p.i]);
    }
    forall i | 0 <= i < |bs|
      ensures (!Paired(bs, originals, i) ==> !plan[i].Echo?) && (plan[i].Inside? ==> HoldsBlocks(bs[i]) && HoldsRegion(bs[i]))
    {
      assert PlannedAs(bs, records, pairs, 0 + i, plan[i]);
      if !Paired(bs, originals, i) { PartnerNone(pairs, i); }
    }
  }

  // ---------- The written pieces ----------

  lemma {:induction false} Pieces(env: Env, bs: seq<Block>, plan: seq<Planned>, k: ListKind, payloads: map<string, string>)
    returns (pieces: seq<string>)
    requires |plan| == |bs| && RenderPlanned(env, bs, plan, k, payloads).Ok?
    ensures |pieces| == |bs| && Together(pieces) == RenderPlanned(env, bs, plan, k, payloads).value
    ensures forall i :: 0 <= i < |bs| ==> RenderBlock(env, bs[i], plan[i], k, payloads) == Ok(pieces[i])
  {
    hide RenderBlock, RenderPlanned;
    if bs == [] {
      pieces := [];
      NothingPlanned(env, plan, k, payloads);
    } else {
      PlannedStep(env, bs, plan, k, payloads);
      var rest := Pieces(env, bs[1..], plan[1..], k, payloads);
      pieces := [RenderBlock(env, bs[0], plan[0], k, payloads).value] + rest;
      assert pieces[1..] == rest;
      forall i | 0 <= i < |bs| ensures RenderBlock(env, bs[i], plan[i], k, payloads) == Ok(pieces[i]) {
        if i > 0 { assert bs[i] == bs[1..][i - 1] && plan[i] == plan[1..][i - 1] && pieces[i] == rest[i - 1]; }
      }
    }
  }

  lemma NothingPlanned(env: Env, plan: seq<Planned>, k: ListKind, payloads: map<string, string>)
    requires plan == []
    ensures RenderPlanned(env, [], plan, k, payloads) == Ok("")
  {
  }

  lemma EchoPiece(env: Env, b: Block, record: Record, k: ListKind, payloads: map<string, string>)
    ensures RenderBlock(env, b, Echo(record), k, payloads) == Ok(record.raw)
  {
  }

  lemma RenderIs(env: Env, bs: seq<Block>, records: seq<Record>, k: ListKind, payloads: map<string, string>)
    ensures RenderBlocks(env, bs, Some(records), k, payloads) == RenderPlanned(env, bs, Plan(bs, records), k, payloads)
  {
    hide RenderPlanned, Plan;
  }

  /** Whatever is written against the records of the original, is written in such pieces. */
  lemma {:induction false} EchoBlocks(env: Env, bs: seq<Block>, records: seq<Record>, ns: seq<Node>, k: ListKind,
                                      payloads: map<string, string>)
    returns (pieces: seq<string>)
    requires Identified(bs, records) && AllRecorded(records) && Recorded(ns, records)
    requires RenderBlocks(env, bs, Some(records), k, payloads).Ok?
    ensures Together(pieces) == RenderBlocks(env, bs, Some(records), k, payloads).value
    ensures Echoed(pieces, bs, ns, BlocksOf(records))
    decreases bs, 1
  {
    hide Plan, RenderPlanned, RenderBlocks, RenderBlock, Alignment.Pairs, HoldsRegion, PlaceholdersIn, Source, Paired;
    var plan, originals, es := Plan(bs, records), BlocksOf(records), ElementsOf(ns);
    RenderIs(env, bs, records, k, payloads);
    PlanSays(bs, records);
    pieces := Pieces(env, bs, plan, k, payloads);
    forall p | p in Alignment.Pairs(bs, originals) ensures p.i < |bs| && p.j < |es| && pieces[p.i] == Source(es[p.j]) {
      EchoPiece(env, bs[p.i], records[p.j], k, payloads);
    }
    forall i | 0 <= i < |bs| && !Paired(bs, originals, i) && HoldsBlocks(bs[i])
      ensures if HoldsRegion(bs[i]) then exists j, inner :: 0 <= j < |es| && Reopened(pieces[i], bs[i], es[j], originals[j], inner)
              else OpenContainer(bs[i]) <= pieces[i]
    {
      if HoldsRegion(bs[i]) {
        var j, inner := EchoInside(env, bs, records, ns, i, plan[i], pieces[i], k, payloads);
      } else {
        FreshPiece(env, bs[i], plan[i], pieces[i], k, payloads);
      }
    }
  }

  lemma FreshPiece(env: Env, b: Block, p: Planned, piece: string, k: ListKind, payloads: map<string, string>)
    requires HoldsBlocks(b) && p == Fresh && RenderBlock(env, b, p, k, payloads) == Ok(piece)
    ensures OpenContainer(b) <= piece
  {
    hide RenderBlock, RenderBlocks, OpenContainer, CloseContainer;
    ContainerStep(env, b, b.blocks, p, k, payloads);
  }

  lemma {:induction false} EchoInside(env: Env, bs: seq<Block>, records: seq<Record>, ns: seq<Node>, i: nat, p: Planned,
                                      piece: string, k: ListKind, payloads: map<string, string>)
    returns (j: nat, inner: seq<string>)
    requires i < |bs| && Identified(bs, records) && AllRecorded(records) && Recorded(ns, records)
    requires p == Plan(bs, records)[i] && !p.Echo? && HoldsBlocks(bs[i]) && HoldsRegion(bs[i])
    requires RenderBlock(env, bs[i], p, k, payloads) == Ok(piece)
    ensures j < |ElementsOf(ns)| && j < |records| && Reopened(piece, bs[i], ElementsOf(ns)[j], BlocksOf(records)[j], inner)
    decreases bs, 0
  {
    hide Plan, RenderBlocks, RenderBlock, HoldsRegion, PlaceholdersIn, Source, Echoed, OpenContainer;
    assert Tied(bs[i], p, records);
    j :| 0 <= j < |records| && records[j] == p.record;
    var blocks, e := bs[i].blocks, ElementsOf(ns)[j];
    ContainerStep(env, bs[i], blocks, p, k, payloads);
    assert WellRecorded(records[j]);
    assert Identified(blocks, p.record.children);
    inner := EchoBlocks(env, blocks, p.record.children, e.children, k, payloads);
    assert e in ElementsOf(ns);
  }

  // ---------- Main result ----------

  /** What the written note is wrapped in, and the nodes that the original's blocks came from: those of
      the note element, if there is one. */
  predicate Wrapped(nodes: seq<Node>, open: string, body: seq<Node>) {
    if ElementsOf(nodes) != [] && NoteElement(ElementsOf(nodes)[0]) && |ElementsOf(nodes)| == 1
    then open == ElementsOf(nodes)[0].open && body == ElementsOf(nodes)[0].children
    else open == "<div data-type=\"document\">" && body == nodes
  }

  lemma {:induction false} DocumentRecorded(env: Env, stored: Stored, b: Binding)
    returns (open: string, body: seq<Node>)
    requires Decode(env, stored, b).Accepted?
    ensures var nodes, c := ParseOf(env, stored.data).nodes, Decode(env, stored, b).context;
            && Wrapped(nodes, open, body) && Recorded(body, c.records) && AllRecorded(c.records) && BlocksOf(c.records) == c.baseline
            && open == (if c.container.Some? then c.container.value else DOCUMENT_OPEN)
            && c.baseline == Decode(env, stored, b).document && c.original == stored
  {
    hide Decode, ParseOf, DecodeNodes, WfAll, Sources, StrayText, Validate, Refs, WithinLimits, WithinBytes, BindingTrace, Recorded,
      AllRecorded, ElementsOf, BlocksOf, Source, Blank;
    AcceptedParts(env, stored, b);
    var nodes := ParseOf(env, stored.data).nodes;
    DecodedRecordedAll(env, b, Content(nodes), 0, true);
    if ContainerElement(nodes).Some? {
      var n := ContainerElement(nodes).value;
      var ctx := ContentGiven(env, stored.data, nodes);
      NodesRecorded(env, b, n.children, 0, true, ctx);
      open, body := n.open, n.children;
    } else {
      NativeConservation.ElementsDecode(env, b, nodes, 0, true);
      NodesRecorded(env, b, nodes, 0, true, [Root]);
      open, body := DOCUMENT_OPEN, nodes;
    }
    DocumentOpenIs();
  }

  lemma DocumentOpenIs()
    ensures DOCUMENT_OPEN == "<div data-type=\"document\">"
  {
  }

  /** What an edit leaves as it was keeps its bytes. An edit that changes nothing gives back the
      stored note. Any other edit that is written is, between the note's own opening tag and `</div>`,
      a piece for each block; every piece for a block that the alignment pairs with an original is that
      original's source, at every level that is inside a container with regions. */
  lemma {:induction false} EditEchoed(env: Env, stored: Stored, b: Binding, doc: seq<Block>, k: ListKind)
    returns (open: string, body: seq<Node>, pieces: seq<string>)
    requires Decode(env, stored, b).Accepted?
    requires Serialize(env, doc, Some(Decode(env, stored, b).context), b, k).Ok?
    ensures var original := Decode(env, stored, b).document;
            var out := Serialize(env, doc, Some(Decode(env, stored, b).context), b, k).value;
            if doc == original then out == stored
            else
              && out.tiptap == stored.tiptap && out.data == open + Together(pieces) + "</div>"
              && Wrapped(ParseOf(env, stored.data).nodes, open, body) && Echoed(pieces, doc, body, original)
  {
    hide Decode, Serialize, ParseOf, RenderBlocks, Identified, AllRecorded, Recorded, Echoed, Wrapped, BlocksOf, Refs, DOCUMENT_OPEN,
      Payloads, CleanStrings, Strings, Validate, WithinBytes, BindingTrace;
    var c := Decode(env, stored, b).context;
    open, body := DocumentRecorded(env, stored, b);
    if doc == c.baseline {
      SerializeUnedited(env, doc, c, b, k);
      pieces := [];
    } else {
      SerializeSteps(env, doc, Some(c), b, k);
      TypeKept(env, doc, c, b, k);
      RegionsIdentified(env, stored, b, doc);
      pieces := EchoBlocks(env, doc, c.records, body, k, Payloads(env, b, c.regions));
    }
  }

  lemma TypeKept(env: Env, doc: seq<Block>, c: Context, b: Binding, k: ListKind)
    requires c.baseline != doc && Serialize(env, doc, Some(c), b, k).Ok?
    ensures Serialize(env, doc, Some(c), b, k).value.tiptap == c.original.tiptap
  {
    hide CleanStrings, Strings, Validate, RenderBlocks, Payloads, WithinBytes, Refs, DistinctTokens, BindingTrace, DOCUMENT_OPEN;
  }
}
