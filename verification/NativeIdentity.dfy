/** Container identity: when an edit keeps the references of the original, every container that
    holds preserved regions is matched with the original container holding the same regions. */
module NativeIdentity {
  import opened Text
  import opened NativeHtml
  import opened NoteDocument
  import opened NativeDecode
  import opened NativeSerialize
  import opened NativeBlocks
  import opened NativeRegions
  import opened NativeMerge
  import opened NativeRoundTrip
  import Alignment

  // ---------- References below one container ----------

  predicate IsUnder(r: Ref, prefix: seq<Link>) { prefix <= r.chain }

  function Under(rs: seq<Ref>, prefix: seq<Link>): seq<Ref> {
    if rs == [] then []
    else (if IsUnder(rs[0], prefix) then [rs[0]] else []) + Under(rs[1..], prefix)
  }

  lemma UnderStep(r: Ref, rs: seq<Ref>, prefix: seq<Link>)
    ensures Under([r] + rs, prefix) == (if IsUnder(r, prefix) then [r] else []) + Under(rs, prefix)
  {
    hide IsUnder;
    assert ([r] + rs)[1..] == rs;
  }

  lemma Regroup(a: seq<Ref>, b: seq<Ref>, c: seq<Ref>)
    ensures a + (b + c) == a + b + c
  {
  }

  lemma {:induction false} UnderOf(a: seq<Ref>, b: seq<Ref>, prefix: seq<Link>)
    ensures Under(a + b, prefix) == Under(a, prefix) + Under(b, prefix)
  {
    if a == [] {
      assert a + b == b;
      assert [] + Under(b, prefix) == Under(b, prefix);
      assert Under(a, prefix) == [];
    } else {
      var r, rest := a[0], a[1..];
      UnderStep(r, rest, prefix);
      UnderStep(r, rest + b, prefix);
      UnderOf(rest, b, prefix);
      Regroup([r], rest, b);
      assert [r] + rest == a;
      Regroup(if IsUnder(r, prefix) then [r] else [], Under(rest, prefix), Under(b, prefix));
    }
  }

  predicate AllUnder(rs: seq<Ref>, prefix: seq<Link>) { forall i :: 0 <= i < |rs| ==> IsUnder(rs[i], prefix) }

  predicate NoneUnder(rs: seq<Ref>, prefix: seq<Link>) { forall i :: 0 <= i < |rs| ==> !IsUnder(rs[i], prefix) }

  lemma {:induction false} UnderAll(rs: seq<Ref>, prefix: seq<Link>)
    requires AllUnder(rs, prefix)
    ensures Under(rs, prefix) == rs
  {
    hide IsUnder;
    if rs != [] { UnderAll(rs[1..], prefix); }
  }

  lemma {:induction false} UnderNone(rs: seq<Ref>, prefix: seq<Link>)
    requires NoneUnder(rs, prefix)
    ensures Under(rs, prefix) == []
  {
    hide IsUnder;
    if rs != [] { UnderNone(rs[1..], prefix); }
  }

  lemma {:induction false} RefsUnder(bs: seq<Block>, chain: seq<Link>, seen: map<ContainerKey, nat>)
    ensures AllUnder(Refs(bs, chain, seen), chain)
    decreases bs, 1
  {
    hide BlockRefs, KeyOf;
    if bs != [] {
      assert [bs[0]] + bs[1..] == bs;
      RefsStep(bs[0], bs[1..], chain, seen);
      RefsUnderIn(bs[0], chain, InsideOf(bs[0], chain, seen));
      RefsUnder(bs[1..], chain, SeenAfter(bs[0], seen));
    }
  }

  lemma {:induction false} RefsUnderIn(b: Block, chain: seq<Link>, inside: seq<Link>)
    requires chain <= inside
    ensures AllUnder(BlockRefs(b, chain, inside), chain)
    ensures KeyOf(b).Some? ==> AllUnder(BlockRefs(b, chain, inside), inside)
    decreases b, 1
  {
    hide Refs;
    match b
    case Blockquote(blocks) => RefsUnder(blocks, inside, map[]);
    case Callout(_, blocks) => RefsUnder(blocks, inside, map[]);
    case BulletList(items) => RefsUnderItems(items, inside);
    case OrderedList(items) => RefsUnderItems(items, inside);
    case _ =>
  }

  lemma {:induction false} RefsUnderItems(items: seq<ListItem>, chain: seq<Link>)
    ensures AllUnder(ItemRefs(items, chain), chain)
    decreases items, 1
  {
    hide Refs;
    if items != [] {
      if items[0].ItemWith? { RefsUnder(items[0].blocks, chain, map[]); }
      RefsUnderItems(items[1..], chain);
    }
  }

  /** The block with this key and `ordinal` such blocks before it. */
  function NthBlock(bs: seq<Block>, key: ContainerKey, ordinal: nat): (j: Option<nat>)
    ensures j.Some? ==> j.value < |bs| && KeyOf(bs[j.value]) == Some(key)
  {
    if bs == [] then None
    else
      var here := KeyOf(bs[0]) == Some(key);
      if here && ordinal == 0 then Some(0)
      else
        var rest := NthBlock(bs[1..], key, if here then ordinal - 1 else ordinal);
        if rest.Some? then Some(rest.value + 1) else None
  }

  lemma {:induction false} NthOfBlocks(records: seq<Record>, key: ContainerKey, ordinal: nat)
    ensures NthOfKey(records, key, ordinal) == NthBlock(BlocksOf(records), key, ordinal)
  {
    hide KeyOf;
    if records != [] {
      assert BlocksOf(records)[1..] == BlocksOf(records[1..]);
      NthOfBlocks(records[1..], key,
        if KeyOf(records[0].block) == Some(key) && ordinal > 0 then ordinal - 1 else ordinal);
    }
  }

  lemma DifferentLinks(rs: seq<Ref>, chain: seq<Link>, a: Link, b: Link)
    requires AllUnder(rs, chain + [a]) && a != b
    ensures NoneUnder(rs, chain + [b])
  {
    forall i | 0 <= i < |rs| ensures !IsUnder(rs[i], chain + [b]) {
      assert IsUnder(rs[i], chain + [a]);
      assert rs[i].chain[|chain|] == (chain + [a])[|chain|] == a;
      assert (chain + [b])[|chain|] == b;
    }
  }

  lemma {:induction false} FlatRefs(b: Block, chain: seq<Link>, inside: seq<Link>)
    requires KeyOf(b) == None && |inside| > |chain|
    ensures NoneUnder(BlockRefs(b, chain, chain), inside)
  {
  }

  /** Of one block, the references inside a container are all of its own if it is that container. */
  lemma HeadUnder(b: Block, chain: seq<Link>, seen: map<ContainerKey, nat>, key: ContainerKey, o: nat)
    ensures var head := BlockRefs(b, chain, InsideOf(b, chain, seen));
            Under(head, chain + [Hop(key, o)]) == if KeyOf(b) == Some(key) && Seen(seen, key) == o then head else []
  {
    var inside := chain + [Hop(key, o)];
    var head := BlockRefs(b, chain, InsideOf(b, chain, seen));
    RefsUnderIn(b, chain, InsideOf(b, chain, seen));
    if KeyOf(b) == Some(key) && Seen(seen, key) == o {
      UnderAll(head, inside);
    } else if KeyOf(b).Some? {
      DifferentLinks(head, chain, Hop(KeyOf(b).value, Seen(seen, KeyOf(b).value)), Hop(key, o));
      UnderNone(head, inside);
    } else {
      FlatRefs(b, chain, inside);
      UnderNone(head, inside);
    }
  }

  /** The block a container link of `bs` names, when `seen` counts the containers before `bs`. */
  function LinkedBlock(bs: seq<Block>, seen: map<ContainerKey, nat>, key: ContainerKey, o: nat): (j: Option<nat>)
    ensures j.Some? ==> j.value < |bs| && KeyOf(bs[j.value]) == Some(key)
  {
    if o < Seen(seen, key) then None else NthBlock(bs, key, o - Seen(seen, key))
  }

  lemma LinkedStep(b: Block, rest: seq<Block>, seen: map<ContainerKey, nat>, key: ContainerKey, o: nat)
    ensures var here, later := LinkedBlock([b] + rest, seen, key, o), LinkedBlock(rest, SeenAfter(b, seen), key, o);
            if KeyOf(b) == Some(key) && Seen(seen, key) == o then here == Some(0) && later == None
            else here == (if later.Some? then Some(later.value + 1) else None)
  {
    hide KeyOf;
    assert ([b] + rest)[1..] == rest;
  }

  /** The references of `bs` below one link are those of the one block the link names. */
  lemma {:induction false} UnderLink(bs: seq<Block>, chain: seq<Link>, seen: map<ContainerKey, nat>,
                                     key: ContainerKey, o: nat)
    ensures var inside, j := chain + [Hop(key, o)], LinkedBlock(bs, seen, key, o);
            Under(Refs(bs, chain, seen), inside) == if j.Some? then BlockRefs(bs[j.value], chain, inside) else []
    decreases |bs|
  {
    var inside := chain + [Hop(key, o)];
    if bs == [] {
    } else {
      var b, rest := bs[0], bs[1..];
      assert [b] + rest == bs;
      var head, tail := BlockRefs(b, chain, InsideOf(b, chain, seen)), Refs(rest, chain, SeenAfter(b, seen));
      RefsStep(b, rest, chain, seen);
      UnderOf(head, tail, inside);
      UnderLink(rest, chain, SeenAfter(b, seen), key, o);
      HeadUnder(b, chain, seen, key, o);
      LinkedStep(b, rest, seen, key, o);
      if KeyOf(b) == Some(key) && Seen(seen, key) == o {
        assert head + [] == head && InsideOf(b, chain, seen) == inside;
      } else {
        assert [] + Under(tail, inside) == Under(tail, inside);
      }
    }
  }

  // ---------- Blocks that share a region ----------

  lemma {:induction false} PlaceholderAt(bs: seq<Block>, i: nat, token: string)
    requires i < |bs| && token in PlaceholdersIn(bs[i])
    ensures token in Placeholders(bs)
  {
    hide PlaceholdersIn;
    if i > 0 {
      assert bs[1..][i - 1] == bs[i];
      PlaceholderAt(bs[1..], i - 1, token);
    }
  }

  /** Two blocks that hold the same region make a document's placeholders not distinct. */
  lemma {:induction false} SharedRegion(bs: seq<Block>, i: nat, j: nat)
    requires i < j < |bs|
    requires PlaceholdersIn(bs[i]) == PlaceholdersIn(bs[j]) && PlaceholdersIn(bs[i]) != []
    ensures !Distinct(Placeholders(bs))
  {
    hide PlaceholdersIn;
    var a, b := PlaceholdersIn(bs[0]), Placeholders(bs[1..]);
    assert Placeholders(bs) == a + b;
    if i == 0 {
      assert bs[1..][j - 1] == bs[j];
      PlaceholderAt(bs[1..], j - 1, a[0]);
      var k :| 0 <= k < |b| && b[k] == a[0];
      assert (a + b)[|a| + k] == (a + b)[0];
    } else {
      assert bs[1..][i - 1] == bs[i] && bs[1..][j - 1] == bs[j];
      SharedRegion(bs[1..], i - 1, j - 1);
      var x, y :| 0 <= x < y < |b| && b[x] == b[y];
      assert (a + b)[|a| + x] == (a + b)[|a| + y];
    }
  }

  lemma {:induction false} RegionsNamed(b: Block)
    requires HoldsRegion(b)
    ensures PlaceholdersIn(b) != []
    decreases b, 0
  {
    match b
    case Blockquote(blocks) => AnyRegionsNamed(blocks);
    case Callout(_, blocks) => AnyRegionsNamed(blocks);
    case Opaque(_, _) =>
  }

  lemma {:induction false} AnyRegionsNamed(bs: seq<Block>)
    requires AnyHoldsRegion(bs)
    ensures Placeholders(bs) != []
    decreases bs, 1
  {
    if HoldsRegion(bs[0]) { RegionsNamed(bs[0]); } else { AnyRegionsNamed(bs[1..]); }
  }

  // ---------- One list ----------

  /** `p` ties a container that holds regions to an original holding the same ones. */
  predicate Tied(b: Block, p: Planned, records: seq<Record>) {
    HoldsBlocks(b) && HoldsRegion(b) ==>
      && p != Fresh && p.record in records
      && KeyOf(p.record.block) == KeyOf(b)
      && PlaceholdersIn(p.record.block) == PlaceholdersIn(b)
  }

  /** What the two lists have in common: for every container of the edited list, the original
      list's container with the same link has the same references inside. */
  ghost predicate SameRefs(blocks: seq<Block>, records: seq<Record>, chain: seq<Link>) {
    Refs(blocks, chain, map[]) == Refs(BlocksOf(records), chain, map[])
  }

  /** The counts of `align` agree with those of `references` for the keys that both count. */
  ghost predicate CountsAgree(seen: map<ContainerKey, nat>, seenRefs: map<ContainerKey, nat>) {
    forall key: ContainerKey :: key.QuoteKey? || key.CalloutKey? ==> Seen(seen, key) == Seen(seenRefs, key)
  }

  /** Whatever is already taken holds the regions of another block: an earlier one, or one with
      a partner. */
  ghost predicate TakenByOthers(blocks: seq<Block>, records: seq<Record>, pairs: seq<Alignment.Pair>, i: nat,
                                used: set<nat>) {
    forall j :: j in used ==> j < |records| && exists x: nat :: TakenBy(blocks, records, pairs, i, j, x)
  }

  predicate TakenBy(blocks: seq<Block>, records: seq<Record>, pairs: seq<Alignment.Pair>, i: nat, j: nat, x: nat)
    requires j < |records|
  {
    && x < |blocks|
    && PlaceholdersIn(blocks[x]) == PlaceholdersIn(records[j].block)
    && (x < i || PartnerOf(pairs, x).Some?)
  }

  ghost predicate PairsFit(blocks: seq<Block>, records: seq<Record>, pairs: seq<Alignment.Pair>) {
    forall k :: 0 <= k < |pairs| ==>
      pairs[k].i < |blocks| && pairs[k].j < |records| && blocks[pairs[k].i] == records[pairs[k].j].block
  }

  /** The counts that `references` has reached before block `i`. */
  function SeenBefore(blocks: seq<Block>, i: nat): map<ContainerKey, nat>
    requires i <= |blocks|
  {
    if i == 0 then map[] else SeenAfter(blocks[i - 1], SeenBefore(blocks, i - 1))
  }

  /** The original that a container's key and ordinal name has the container's references. */
  lemma {:induction false} NamedOriginal(blocks: seq<Block>, records: seq<Record>, chain: seq<Link>, i: nat)
    requires i < |blocks| && SameRefs(blocks, records, chain) && HoldsBlocks(blocks[i]) && HoldsRegion(blocks[i])
    ensures var key := KeyOf(blocks[i]).value;
            var o := Seen(SeenBefore(blocks, i), key);
            var inside := chain + [Hop(key, o)];
            var j := NthOfKey(records, key, o);
            j.Some? && BlockRefs(records[j.value].block, chain, inside) == BlockRefs(blocks[i], chain, inside)
  {
    hide PlaceholdersIn;
    var key := KeyOf(blocks[i]).value;
    var o := Seen(SeenBefore(blocks, i), key);
    var inside := chain + [Hop(key, o)];
    NthAt(blocks, i);
    NthOfBlocks(records, key, o);
    UnderLink(blocks, chain, map[], key, o);
    UnderLink(BlocksOf(records), chain, map[], key, o);
    RegionsNamed(blocks[i]);
    RefsArePlaceholdersIn(blocks[i], chain, inside);
    assert RefTokens([]) == [];
  }

  /** A container is the one its own key and ordinal name. */
  lemma {:induction false} NthAt(blocks: seq<Block>, i: nat)
    requires i < |blocks| && KeyOf(blocks[i]).Some?
    ensures var key := KeyOf(blocks[i]).value;
            NthBlock(blocks, key, Seen(SeenBefore(blocks, i), key)) == Some(i)
  {
    NthAfter(blocks, i, KeyOf(blocks[i]).value, i);
  }

  /** Counting on from block `i - n`, the next block with the key of block `i` is found. */
  lemma {:induction false} NthAfter(blocks: seq<Block>, i: nat, key: ContainerKey, n: nat)
    requires n <= i < |blocks| && KeyOf(blocks[i]) == Some(key)
    ensures Seen(SeenBefore(blocks, i), key) >= Seen(SeenBefore(blocks, i - n), key)
    ensures NthBlock(blocks[i - n..], key, Seen(SeenBefore(blocks, i), key) - Seen(SeenBefore(blocks, i - n), key)) == Some(n)
    decreases n
  {
    hide KeyOf;
    if n > 0 {
      var at := i - n;
      NthAfter(blocks, i, key, n - 1);
      assert SeenBefore(blocks, at + 1) == SeenAfter(blocks[at], SeenBefore(blocks, at));
      assert blocks[at..][1..] == blocks[at + 1..] && blocks[at..][0] == blocks[at];
    }
  }

  lemma {:induction false} PartnerPaired(pairs: seq<Alignment.Pair>, x: nat, j: nat)
    requires exists k :: 0 <= k < |pairs| && pairs[k] == Alignment.Pair(x, j)
    ensures PartnerOf(pairs, x).Some?
  {
    if pairs[0].i != x {
      var k :| 0 <= k < |pairs| && pairs[k] == Alignment.Pair(x, j);
      assert pairs[1..][k - 1] == pairs[k];
      PartnerPaired(pairs[1..], x, j);
    }
  }

  /** The originals paired from the start are taken by their partners. */
  lemma PairedTaken(blocks: seq<Block>, records: seq<Record>, pairs: seq<Alignment.Pair>)
    requires PairsFit(blocks, records, pairs)
    ensures TakenByOthers(blocks, records, pairs, 0, Used(pairs))
  {
    hide PartnerOf, PlaceholdersIn;
    forall j | j in Used(pairs) ensures j < |records| && exists x: nat :: TakenBy(blocks, records, pairs, 0, j, x) {
      var k :| 0 <= k < |pairs| && pairs[k].j == j;
      assert pairs[k] == Alignment.Pair(pairs[k].i, j);
      PartnerPaired(pairs, pairs[k].i, j);
      assert TakenBy(blocks, records, pairs, 0, j, pairs[k].i);
    }
  }

  /** The named original is free for a container without a partner. */
  lemma {:induction false} NamedIsFree(blocks: seq<Block>, records: seq<Record>, pairs: seq<Alignment.Pair>, i: nat,
                                       used: set<nat>, j: nat)
    requires i < |blocks| && j < |records| && TakenByOthers(blocks, records, pairs, i, used)
    requires PlaceholdersIn(blocks[i]) == PlaceholdersIn(records[j].block) && PlaceholdersIn(blocks[i]) != []
    requires PartnerOf(pairs, i) == None && Distinct(Placeholders(blocks))
    ensures j !in used
  {
    hide PlaceholdersIn, PartnerOf, Distinct, Placeholders;
    if j in used {
      var x: nat :| TakenBy(blocks, records, pairs, i, j, x);
      if x < i { SharedRegion(blocks, x, i); } else { SharedRegion(blocks, i, x); }
    }
  }

  /** Same references inside means same regions, so an original that an edit names holds one too. */
  lemma {:induction false} SameRegions(b: Block, c: Block, chain: seq<Link>, inside: seq<Link>)
    requires BlockRefs(b, chain, inside) == BlockRefs(c, chain, inside)
    ensures PlaceholdersIn(b) == PlaceholdersIn(c)
  {
    hide *;
    RefsArePlaceholdersIn(b, chain, inside);
    RefsArePlaceholdersIn(c, chain, inside);
  }

  lemma {:induction false} NamedHolds(b: Block)
    requires PlaceholdersIn(b) != [] && NoContinuationIn(b)
    ensures HoldsRegion(b)
    decreases b, 0
  {
    match b
    case Blockquote(blocks) => AnyNamedHolds(blocks);
    case Callout(_, blocks) => AnyNamedHolds(blocks);
    case BulletList(items) => NoItemPlaceholders(items);
    case OrderedList(items) => NoItemPlaceholders(items);
    case Opaque(_, _) =>
  }

  lemma {:induction false} NoItemPlaceholders(items: seq<ListItem>)
    requires NoContinuationItems(items)
    ensures ItemPlaceholders(items) == []
  {
    if items != [] { NoItemPlaceholders(items[1..]); }
  }

  lemma {:induction false} AnyNamedHolds(bs: seq<Block>)
    requires Placeholders(bs) != [] && NoContinuation(bs)
    ensures AnyHoldsRegion(bs)
    decreases bs, 1
  {
    if PlaceholdersIn(bs[0]) != [] { NamedHolds(bs[0]); } else { AnyNamedHolds(bs[1..]); }
  }

  /** The counts, what is taken, and the step of `align` at block `i`. */
  ghost predicate Aligning(blocks: seq<Block>, records: seq<Record>, pairs: seq<Alignment.Pair>, i: nat,
                           seen: map<ContainerKey, nat>, used: set<nat>, chain: seq<Link>)
  {
    && i <= |blocks| && PairsFit(blocks, records, pairs)
    && CountsAgree(seen, SeenBefore(blocks, i)) && TakenByOthers(blocks, records, pairs, i, used)
    && SameRefs(blocks, records, chain) && Distinct(Placeholders(blocks)) && NoContinuation(BlocksOf(records))
  }

  /** What `align` does at block `i`, and what is counted and taken after it. */
  function PlanStep(blocks: seq<Block>, records: seq<Record>, pairs: seq<Alignment.Pair>, i: nat,
                    seen: map<ContainerKey, nat>, used: set<nat>): (Planned, map<ContainerKey, nat>, set<nat>)
    requires i < |blocks| && forall k :: 0 <= k < |pairs| ==> pairs[k].j < |records|
  {
    var b := blocks[i];
    var partner := PartnerOf(pairs, i);
    var exact := if partner.Some? then Echo(records[partner.value]) else Fresh;
    if !HoldsBlocks(b) then (exact, seen, used)
    else
      var key := KeyOf(b).value;
      var ordinal := Seen(seen, key);
      var seen' := seen[key := ordinal + 1];
      var j := NthOfKey(records, key, ordinal);
      if partner.Some? || !HoldsRegion(b) || j == None || !HoldsRegion(records[j.value].block) || j.value in used then
        (exact, seen', used)
      else (Inside(records[j.value]), seen', used + {j.value})
  }

  lemma PlanFromStep(blocks: seq<Block>, records: seq<Record>, pairs: seq<Alignment.Pair>, i: nat,
                     seen: map<ContainerKey, nat>, used: set<nat>)
    requires i < |blocks| && forall k :: 0 <= k < |pairs| ==> pairs[k].j < |records|
    ensures var (p, seen', used') := PlanStep(blocks, records, pairs, i, seen, used);
            PlanFrom(blocks, records, pairs, i, seen, used) == [p] + PlanFrom(blocks, records, pairs, i + 1, seen', used')
  {

  }

  /** A container printed inside an original is printed inside the one its link names. */
  predicate NamedAs(blocks: seq<Block>, i: nat, p: Planned, records: seq<Record>)
    requires i < |blocks|
  {
    p.Inside? ==>
      && HoldsBlocks(blocks[i]) && HoldsRegion(blocks[i])
      && var key := KeyOf(blocks[i]).value;
         var j := NthOfKey(records, key, Seen(SeenBefore(blocks, i), key));
         j.Some? && p.record == records[j.value]
  }

  lemma {:induction false} StepNamed(blocks: seq<Block>, records: seq<Record>, pairs: seq<Alignment.Pair>, i: nat,
                  seen: map<ContainerKey, nat>, used: set<nat>)
    requires i < |blocks| && PairsFit(blocks, records, pairs) && CountsAgree(seen, SeenBefore(blocks, i))
    ensures NamedAs(blocks, i, PlanStep(blocks, records, pairs, i, seen, used).0, records)
  {
    hide HoldsRegion, PartnerOf, NthOfKey, SeenBefore;
  }

  lemma CountsStep(blocks: seq<Block>, i: nat, seen: map<ContainerKey, nat>)
    requires i < |blocks| && CountsAgree(seen, SeenBefore(blocks, i))
    ensures var b := blocks[i];
            CountsAgree(if HoldsBlocks(b) then seen[KeyOf(b).value := Seen(seen, KeyOf(b).value) + 1] else seen,
                        SeenBefore(blocks, i + 1))
  {
    var b := blocks[i];
    assert SeenBefore(blocks, i + 1) == SeenAfter(b, SeenBefore(blocks, i));
    hide SeenBefore;
  }

  lemma {:induction false} NamedTied(blocks: seq<Block>, records: seq<Record>, pairs: seq<Alignment.Pair>, i: nat,
                  seen: map<ContainerKey, nat>, used: set<nat>, chain: seq<Link>)
    requires i < |blocks| && Aligning(blocks, records, pairs, i, seen, used, chain)
    requires HoldsBlocks(blocks[i]) && HoldsRegion(blocks[i]) && PartnerOf(pairs, i) == None
    ensures var key := KeyOf(blocks[i]).value;
            var j := NthOfKey(records, key, Seen(seen, key));
            && j.Some? && HoldsRegion(records[j.value].block) && j.value !in used
            && Tied(blocks[i], Inside(records[j.value]), records)
            && PlaceholdersIn(records[j.value].block) == PlaceholdersIn(blocks[i])
  {
    NamedOriginal(blocks, records, chain, i);
    var key := KeyOf(blocks[i]).value;
    assert key.QuoteKey? || key.CalloutKey?;
    assert Seen(seen, key) == Seen(SeenBefore(blocks, i), key);
    var o := Seen(seen, key);
    var j := NthOfKey(records, key, o).value;
    SameRegions(records[j].block, blocks[i], chain, chain + [Hop(key, o)]);
    RegionsNamed(blocks[i]);
    NamedIsFree(blocks, records, pairs, i, used, j);
    ContinuesAt(BlocksOf(records), j);
    assert BlocksOf(records)[j] == records[j].block;
    NamedHolds(records[j].block);
    assert KeyOf(blocks[i]) == Some(key);
  }

  lemma {:induction false} ContinuesAt(bs: seq<Block>, j: nat)
    requires j < |bs| && NoContinuation(bs)
    ensures NoContinuationIn(bs[j])
  {
    hide NoContinuationIn;
    if j > 0 { ContinuesAt(bs[1..], j - 1); }
  }

  lemma AligningStep(blocks: seq<Block>, records: seq<Record>, pairs: seq<Alignment.Pair>, i: nat,
                     seen: map<ContainerKey, nat>, used: set<nat>, chain: seq<Link>)
    requires i < |blocks| && Aligning(blocks, records, pairs, i, seen, used, chain)
    ensures var (p, seen', used') := PlanStep(blocks, records, pairs, i, seen, used);
            Tied(blocks[i], p, records) && NamedAs(blocks, i, p, records)
            && Aligning(blocks, records, pairs, i + 1, seen', used', chain)
  {
    hide HoldsRegion, PartnerOf, NthOfKey, KeyOf, Distinct, Placeholders, NoContinuation, SameRefs, CountsAgree,
      Seen, SeenBefore, PlaceholdersIn;
    CountsStep(blocks, i, seen);
    StepNamed(blocks, records, pairs, i, seen, used);
    var (p, seen', used') := PlanStep(blocks, records, pairs, i, seen, used);
    if HoldsBlocks(blocks[i]) && HoldsRegion(blocks[i]) && PartnerOf(pairs, i) == None {
      NamedTied(blocks, records, pairs, i, seen, used, chain);
      var j := NthOfKey(records, KeyOf(blocks[i]).value, Seen(seen, KeyOf(blocks[i]).value)).value;
      assert TakenBy(blocks, records, pairs, i + 1, j, i);
    }
    TakenLater(blocks, records, pairs, i, i + 1, used);
  }

  lemma TakenLater(blocks: seq<Block>, records: seq<Record>, pairs: seq<Alignment.Pair>, i: nat, next: nat,
                   used: set<nat>)
    requires i <= next && TakenByOthers(blocks, records, pairs, i, used)
    ensures TakenByOthers(blocks, records, pairs, next, used)
  {
    hide PlaceholdersIn, PartnerOf;
    forall j | j in used ensures j < |records| && exists x: nat :: TakenBy(blocks, records, pairs, next, j, x) {
      var x: nat :| TakenBy(blocks, records, pairs, i, j, x);
      assert TakenBy(blocks, records, pairs, next, j, x);
    }
  }

  lemma {:induction false} PlanFromTied(blocks: seq<Block>, records: seq<Record>, pairs: seq<Alignment.Pair>, i: nat,
                                            seen: map<ContainerKey, nat>, used: set<nat>, chain: seq<Link>)
    requires Aligning(blocks, records, pairs, i, seen, used, chain)
    ensures var plan := PlanFrom(blocks, records, pairs, i, seen, used);
            forall x :: 0 <= x < |plan| ==> Tied(blocks[i + x], plan[x], records) && NamedAs(blocks, i + x, plan[x], records)
    decreases |blocks| - i
  {
    hide NamedAs, NoContinuation;
    if i == |blocks| {
    } else {
      AligningStep(blocks, records, pairs, i, seen, used, chain);
      PlanFromStep(blocks, records, pairs, i, seen, used);
      var (p, seen', used') := PlanStep(blocks, records, pairs, i, seen, used);
      var plan, rest := PlanFrom(blocks, records, pairs, i, seen, used), PlanFrom(blocks, records, pairs, i + 1, seen', used');
      PlanFromTied(blocks, records, pairs, i + 1, seen', used', chain);
      forall x | 0 <= x < |plan| ensures Tied(blocks[i + x], plan[x], records) && NamedAs(blocks, i + x, plan[x], records) {
        if x > 0 { assert plan[x] == rest[x - 1] && blocks[i + x] == blocks[i + 1 + (x - 1)]; }
      }
    }
  }

  lemma {:induction false} PlanTied(blocks: seq<Block>, records: seq<Record>, chain: seq<Link>)
    requires SameRefs(blocks, records, chain) && Distinct(Placeholders(blocks)) && NoContinuation(BlocksOf(records))
    ensures var plan := Plan(blocks, records);
            forall x :: 0 <= x < |plan| ==> Tied(blocks[x], plan[x], records) && NamedAs(blocks, x, plan[x], records)
  {
    var pairs := Alignment.Pairs(blocks, BlocksOf(records));
    PairsEqual(blocks, records);
    PlanIs(blocks, records);
    assert PairsFit(blocks, records, pairs);
    PairedTaken(blocks, records, pairs);
    assert CountsAgree(map[], SeenBefore(blocks, 0));
    assert Aligning(blocks, records, pairs, 0, map[], Used(pairs), chain);
    PlanFromTied(blocks, records, pairs, 0, map[], Used(pairs), chain);
  }

  // ---------- Every level ----------

  /** The records of a container's blocks are those of the blocks it holds. */
  predicate WellRecorded(rec: Record) {
    && (HoldsBlocks(rec.block) ==> BlocksOf(rec.children) == rec.block.blocks)
    && (forall j :: 0 <= j < |rec.children| ==> WellRecorded(rec.children[j]))
  }

  predicate AllRecorded(records: seq<Record>) { forall j :: 0 <= j < |records| ==> WellRecorded(records[j]) }

  lemma {:induction false} DecodedRecorded(env: Env, b: Binding, n: Node, k: nat, top: bool)
    requires n.Element?
    ensures AllRecorded(DecodeElement(env, b, n, k, top).1.records)
    ensures BlocksOf(DecodeElement(env, b, n, k, top).1.records) == DecodeElement(env, b, n, k, top).1.blocks
    decreases n, 0
  {
    hide Unsupported, ContainerOf, StrayText, LeafBlock, DecodeNodes;
    if !Unsupported(n) && ContainerOf(n).Some? && !StrayText(n.children) {
      DecodedRecordedAll(env, b, n.children, k, false);
    } else {
      var d := LeafBlock(env, n, top);
      if d.value.Some? { LeafBlockLeaf(env, n, top); }
    }
  }

  lemma {:induction false} DecodedRecordedAll(env: Env, b: Binding, ns: seq<Node>, k: nat, top: bool)
    ensures AllRecorded(DecodeNodes(env, b, ns, k, top).1.records)
    ensures BlocksOf(DecodeNodes(env, b, ns, k, top).1.records) == DecodeNodes(env, b, ns, k, top).1.blocks
    decreases ns, 1
  {
    hide DecodeElement, DecodeNodes, WellRecorded;
    DecodeStep(env, b, ns, k, top);
    if ns != [] && ns[0].TextNode? {
      DecodedRecordedAll(env, b, ns[1..], k, top);
    } else if ns != [] {
      var (t, h) := DecodeElement(env, b, ns[0], k, top);
      DecodedRecorded(env, b, ns[0], k, top);
      if t.stop == None {
        DecodedRecordedAll(env, b, ns[1..], k + |h.regions|, top);
        BlocksOfBoth(h.records, Rest(env, b, ns, k, top).1.records);
      }
    }
  }

  lemma BlocksOfBoth(a: seq<Record>, b: seq<Record>)
    ensures BlocksOf(a + b) == BlocksOf(a) + BlocksOf(b)
  {
  }

  /** Every container that holds regions, at every level that is matched against originals, is
      echoed or printed inside the original that holds the same regions: none is printed anew. */
  predicate Identified(blocks: seq<Block>, records: seq<Record>)
    decreases blocks
  {
    var plan := Plan(blocks, records);
    && (forall x :: 0 <= x < |plan| ==> Tied(blocks[x], plan[x], records))
    && (forall x :: 0 <= x < |plan| && HoldsBlocks(blocks[x]) ==>
          (plan[x].Inside? ==> Identified(blocks[x].blocks, plan[x].record.children)))
  }

  /** The references inside an edited container and inside the original it is printed in. */
  lemma InsideSame(blocks: seq<Block>, records: seq<Record>, chain: seq<Link>, i: nat,
                   rec: Record) returns (inside: seq<Link>)
    requires i < |blocks| && SameRefs(blocks, records, chain) && HoldsBlocks(blocks[i]) && AllRecorded(records)
    requires Distinct(Placeholders(blocks)) && NoContinuation(BlocksOf(records))
    requires HoldsRegion(blocks[i]) && Plan(blocks, records)[i] == Inside(rec)
    ensures SameRefs(blocks[i].blocks, rec.children, inside) && AllRecorded(rec.children)
    ensures Distinct(Placeholders(blocks[i].blocks)) && NoContinuation(BlocksOf(rec.children))
  {
    PlanTied(blocks, records, chain);
    assert KeyOf(blocks[i]).Some?;
    assert NamedAs(blocks, i, Inside(rec), records) && Tied(blocks[i], Inside(rec), records);
    var key := KeyOf(blocks[i]).value;
    inside := chain + [Hop(key, Seen(SeenBefore(blocks, i), key))];
    var j := NthOfKey(records, key, Seen(SeenBefore(blocks, i), key)).value;
    NamedOriginal(blocks, records, chain, i);
    assert rec == records[j];
    assert WellRecorded(rec);
    ContinuesAt(BlocksOf(records), j);
    assert BlocksOf(records)[j] == rec.block;
    DistinctAt(blocks, i);
    assert KeyOf(rec.block) == KeyOf(blocks[i]);
    InsideRefs(blocks[i], rec, chain, inside);
  }

  lemma {:induction false} InsideRefs(b: Block, rec: Record, chain: seq<Link>, inside: seq<Link>)
    requires HoldsBlocks(b) && KeyOf(rec.block) == KeyOf(b) && WellRecorded(rec)
    requires BlockRefs(rec.block, chain, inside) == BlockRefs(b, chain, inside)
    requires NoContinuationIn(rec.block) && Distinct(PlaceholdersIn(b))
    ensures SameRefs(b.blocks, rec.children, inside) && AllRecorded(rec.children)
    ensures Distinct(Placeholders(b.blocks)) && NoContinuation(BlocksOf(rec.children))
  {
    hide Refs, Placeholders, NoContinuation, Distinct, BlocksOf;
  }

  lemma {:induction false} DistinctAt(bs: seq<Block>, i: nat)
    requires i < |bs| && Distinct(Placeholders(bs))
    ensures Distinct(PlaceholdersIn(bs[i]))
  {
    hide PlaceholdersIn;
    var a, b := PlaceholdersIn(bs[0]), Placeholders(bs[1..]);
    assert Placeholders(bs) == a + b;
    DistinctSplit(a, b);
    if i > 0 { DistinctAt(bs[1..], i - 1); }
  }

  lemma DistinctSplit(a: seq<string>, b: seq<string>)
    requires Distinct(a + b)
    ensures Distinct(a) && Distinct(b)
  {
    forall x, y | 0 <= x < y < |a| ensures a[x] != a[y] { assert (a + b)[x] == a[x] && (a + b)[y] == a[y]; }
    forall x, y | 0 <= x < y < |b| ensures b[x] != b[y] { assert (a + b)[|a| + x] == b[x] && (a + b)[|a| + y] == b[y]; }
  }

  lemma {:induction false} AllIdentified(blocks: seq<Block>, records: seq<Record>, chain: seq<Link>)
    requires SameRefs(blocks, records, chain) && AllRecorded(records)
    requires Distinct(Placeholders(blocks)) && NoContinuation(BlocksOf(records))
    ensures Identified(blocks, records)
    decreases blocks
  {
    PlanTied(blocks, records, chain);
    var plan := Plan(blocks, records);
    forall x | 0 <= x < |plan| && HoldsBlocks(blocks[x]) && plan[x].Inside?
      ensures Identified(blocks[x].blocks, plan[x].record.children)
    {
      assert NamedAs(blocks, x, plan[x], records);
      assert HoldsRegion(blocks[x]);
      var inside := InsideSame(blocks, records, chain, x, plan[x].record);
      AllIdentified(blocks[x].blocks, plan[x].record.children, inside);
    }
  }

  /** Container identity: the ordinal lookup and the guards of `align` never give up on a
      container that holds regions, at any level of any edit that keeps the references. */
  lemma {:induction false} RegionsIdentified(env: Env, stored: Stored, b: Binding, doc: seq<Block>)
    requires Decode(env, stored, b).Accepted?
    requires References(doc) == References(Decode(env, stored, b).context.baseline)
    ensures Identified(doc, Decode(env, stored, b).context.records)
  {
    hide AllRecorded, NoContinuation, ElementsOf, DecodeNodes, DistinctTokens, WithinBytes, BindingTrace, ParseOf,
      AllFrom, Carried, TokenList, GoodRefs, IsForest, WithinLimits, Distinct, OpensDocument, BlocksOf, Validate;
    var c := Decode(env, stored, b).context;
    AcceptedParts(env, stored, b);
    var content := Content(ParseOf(env, stored.data).nodes);
    CleanIsNoFault(DecodeNodes(env, b, content, 0, true).0);
    DecodedRecordedAll(env, b, content, 0, true);
    DecodeSettledAll(env, b, content, 0, true, SimpleChecklist);
    assert NoContinuation(c.baseline);
    ContextSound(env, stored, b);
    RefsArePlaceholders(doc, [], map[]);
    RefsArePlaceholders(c.baseline, [], map[]);
    assert Distinct(Placeholders(doc));
    assert SameRefs(doc, c.records, []);
    AllIdentified(doc, c.records, []);
  }
}
