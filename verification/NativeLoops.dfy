/** The loops of the serializer as they run: the plan that `align` fills in, and the walk that
    collects a document's references. */
module NativeLoops {
  import opened Text
  import opened NoteDocument
  import opened NativeDecode
  import opened NativeSerialize
  import opened NativeRegions
  import opened NativeMerge
  import opened NativeIdentity
  import Alignment

  // ---------- Each original at most once ----------

  lemma {:induction false} PartnerIs(pairs: seq<Alignment.Pair>, x: nat, k: nat)
    requires forall a, b :: 0 <= a < b < |pairs| ==> pairs[a].i < pairs[b].i && pairs[a].j < pairs[b].j
    requires k < |pairs| && pairs[k].i == x
    ensures PartnerOf(pairs, x) == Some(pairs[k].j)
  {
    if k > 0 { PartnerIs(pairs[1..], x, k - 1); }
  }

  /** Which original each block from `i` on takes. */
  function Takes(blocks: seq<Block>, records: seq<Record>, pairs: seq<Alignment.Pair>, i: nat,
                 seen: map<ContainerKey, nat>, used: set<nat>): (js: seq<Option<nat>>)
    requires i <= |blocks| && forall k :: 0 <= k < |pairs| ==> pairs[k].j < |records|
    ensures |js| == |blocks| - i
    decreases |blocks| - i
  {
    if i == |blocks| then []
    else
      var (p, seen', used') := PlanStep(blocks, records, pairs, i, seen, used);
      [if p.Inside? then NthOfKey(records, KeyOf(blocks[i]).value, Seen(seen, KeyOf(blocks[i]).value)) else PartnerOf(pairs, i)]
      + Takes(blocks, records, pairs, i + 1, seen', used')
  }

  ghost predicate Increasing(pairs: seq<Alignment.Pair>) {
    forall a, b :: 0 <= a < b < |pairs| ==> pairs[a].i < pairs[b].i && pairs[a].j < pairs[b].j
  }

  /** Block `x` takes `j`: an exact pair's original, or one not used before. */
  predicate TakesAt(records: seq<Record>, pairs: seq<Alignment.Pair>, x: nat, p: Planned, j: Option<nat>,
                    used: set<nat>) {
    && (p == Fresh <==> j == None)
    && (j.Some? ==> j.value < |records| && p != Fresh && p.record == records[j.value])
    && (p.Inside? ==> j.Some? && j.value !in used)
    && (p.Echo? ==> j == PartnerOf(pairs, x))
  }

  lemma {:induction false} StepTakes(blocks: seq<Block>, records: seq<Record>, pairs: seq<Alignment.Pair>, i: nat,
                  seen: map<ContainerKey, nat>, used: set<nat>)
    requires i < |blocks| && forall k :: 0 <= k < |pairs| ==> pairs[k].j < |records|
    ensures var (p, seen', used') := PlanStep(blocks, records, pairs, i, seen, used);
            && TakesAt(records, pairs, i, p, Takes(blocks, records, pairs, i, seen, used)[0], used)
            && used <= used'
            && (p.Inside? ==> Takes(blocks, records, pairs, i, seen, used)[0].value in used')
  {
    hide HoldsRegion, NthOfKey, PartnerOf, KeyOf;
    PartnerWithin(pairs, i);
  }

  predicate AllTake(records: seq<Record>, pairs: seq<Alignment.Pair>, i: nat, plan: seq<Planned>,
                    js: seq<Option<nat>>, used: set<nat>) {
    |plan| == |js| && forall x :: 0 <= x < |js| ==> TakesAt(records, pairs, i + x, plan[x], js[x], used)
  }

  lemma TakesLess(records: seq<Record>, pairs: seq<Alignment.Pair>, x: nat, p: Planned, j: Option<nat>,
                  used: set<nat>, used': set<nat>)
    requires TakesAt(records, pairs, x, p, j, used') && used <= used'
    ensures TakesAt(records, pairs, x, p, j, used)
  {
  }

  lemma {:induction false} TakesFit(blocks: seq<Block>, records: seq<Record>, pairs: seq<Alignment.Pair>, i: nat,
                                        seen: map<ContainerKey, nat>, used: set<nat>)
    requires i <= |blocks| && forall k :: 0 <= k < |pairs| ==> pairs[k].j < |records|
    ensures AllTake(records, pairs, i, PlanFrom(blocks, records, pairs, i, seen, used), Takes(blocks, records, pairs, i, seen, used), used)
    decreases |blocks| - i
  {
    hide PlanFrom, PlanStep, TakesAt;
    if i < |blocks| {
      var (p, seen', used') := PlanStep(blocks, records, pairs, i, seen, used);
      PlanFromStep(blocks, records, pairs, i, seen, used);
      StepTakes(blocks, records, pairs, i, seen, used);
      TakesFit(blocks, records, pairs, i + 1, seen', used');
      var js, plan := Takes(blocks, records, pairs, i, seen, used), PlanFrom(blocks, records, pairs, i, seen, used);
      var js', plan' := Takes(blocks, records, pairs, i + 1, seen', used'), PlanFrom(blocks, records, pairs, i + 1, seen', used');
      forall x | 0 <= x < |js| ensures TakesAt(records, pairs, i + x, plan[x], js[x], used) {
        if x > 0 {
          assert js[1..] == js' && plan[1..] == plan';
          assert js[x] == js[1..][x - 1] && plan[x] == plan[1..][x - 1];
          assert TakesAt(records, pairs, i + 1 + (x - 1), plan'[x - 1], js'[x - 1], used');
          TakesLess(records, pairs, i + x, plan[x], js[x], used, used');
        } else {
          assert plan[0] == p;
        }
      }
    }
  }

  lemma {:induction false} PartnerWithin(pairs: seq<Alignment.Pair>, i: nat)
    ensures PartnerOf(pairs, i).Some? ==> exists k :: 0 <= k < |pairs| && pairs[k] == Alignment.Pair(i, PartnerOf(pairs, i).value)
  {
  }

  /** No two blocks take the same original. */
  lemma {:induction false} TakesOnce(blocks: seq<Block>, records: seq<Record>, pairs: seq<Alignment.Pair>, i: nat,
                                         seen: map<ContainerKey, nat>, used: set<nat>)
    requires i <= |blocks| && (forall k :: 0 <= k < |pairs| ==> pairs[k].j < |records|) && Used(pairs) <= used && Increasing(pairs)
    ensures var js := Takes(blocks, records, pairs, i, seen, used);
            forall x, y :: 0 <= x < y < |js| && js[x].Some? ==> js[x] != js[y]
    decreases |blocks| - i
  {
    hide PlanFrom, PlanStep, TakesAt;
    if i < |blocks| {
      var (p, seen', used') := PlanStep(blocks, records, pairs, i, seen, used);
      StepTakes(blocks, records, pairs, i, seen, used);
      TakesOnce(blocks, records, pairs, i + 1, seen', used');
      TakesFit(blocks, records, pairs, i + 1, seen', used');
      var js := Takes(blocks, records, pairs, i, seen, used);
      var js', plan' := Takes(blocks, records, pairs, i + 1, seen', used'), PlanFrom(blocks, records, pairs, i + 1, seen', used');
      assert js[1..] == js';
      forall x, y | 0 <= x < y < |js| && js[x].Some? ensures js[x] != js[y] {
        assert js[y] == js[1..][y - 1];
        if x > 0 {
          assert js[x] == js[1..][x - 1];
        } else {
          var y' := y - 1;
          assert TakesAt(records, pairs, i + 1 + y', plan'[y'], js'[y'], used');
          TwoTakes(records, pairs, i, p, js[0], used, used', i + 1 + y', plan'[y'], js'[y']);
        }
      }
    }
  }

  lemma TwoTakes(records: seq<Record>, pairs: seq<Alignment.Pair>, x: nat, p: Planned, j: Option<nat>,
                 used: set<nat>, used': set<nat>,
                 y: nat, q: Planned, k: Option<nat>)
    requires TakesAt(records, pairs, x, p, j, used) && TakesAt(records, pairs, y, q, k, used') && x < y && j.Some?
    requires Used(pairs) <= used <= used' && Increasing(pairs) && (p.Inside? ==> j.value in used')
    ensures j != k
  {
    hide PartnerOf, Used;
    PartnerUsed(pairs, x);
    PartnerUsed(pairs, y);
    if p.Echo? && q.Echo? && k.Some? { PartnersDiffer(pairs, x, y); }
  }

  lemma {:induction false} PartnerUsed(pairs: seq<Alignment.Pair>, i: nat)
    ensures PartnerOf(pairs, i).Some? ==> PartnerOf(pairs, i).value in Used(pairs)
  {
    PartnerWithin(pairs, i);
    hide PartnerOf;
    if PartnerOf(pairs, i).Some? {
      var k :| 0 <= k < |pairs| && pairs[k] == Alignment.Pair(i, PartnerOf(pairs, i).value);
      assert pairs[k].j in Used(pairs);
    }
  }

  lemma {:induction false} PartnersDiffer(pairs: seq<Alignment.Pair>, x: nat, y: nat)
    requires Increasing(pairs) && x != y && PartnerOf(pairs, x).Some? && PartnerOf(pairs, y).Some?
    ensures PartnerOf(pairs, x) != PartnerOf(pairs, y)
  {
    PartnerWithin(pairs, x);
    PartnerWithin(pairs, y);
    hide PartnerOf;
    var k :| 0 <= k < |pairs| && pairs[k] == Alignment.Pair(x, PartnerOf(pairs, x).value);
    var l :| 0 <= l < |pairs| && pairs[l] == Alignment.Pair(y, PartnerOf(pairs, y).value);
    assert k != l;
  }

  /** Over the whole plan, exact matches and identified containers, each original is used at most
      once. */
  lemma PlanOnce(blocks: seq<Block>, records: seq<Record>) returns (js: seq<Option<nat>>)
    ensures var plan := Plan(blocks, records);
            && |js| == |plan|
            && (forall x :: 0 <= x < |js| ==>
                  && (plan[x] == Fresh <==> js[x] == None)
                  && (js[x].Some? ==> js[x].value < |records| && plan[x].record == records[js[x].value]))
            && (forall x, y :: 0 <= x < y < |js| && js[x].Some? ==> js[x] != js[y])
  {
    var pairs := Alignment.Pairs(blocks, BlocksOf(records));
    PairsEqual(blocks, records);
    PlanIs(blocks, records);
    Alignment.PairsMatch(blocks, BlocksOf(records));
    assert Increasing(pairs);
    js := Takes(blocks, records, pairs, 0, map[], Used(pairs));
    TakesFit(blocks, records, pairs, 0, map[], Used(pairs));
    TakesOnce(blocks, records, pairs, 0, map[], Used(pairs));
  }

  // ---------- The plan as it is filled in ----------

  function Exact(records: seq<Record>, pairs: seq<Alignment.Pair>, x: nat): Planned
    requires forall k :: 0 <= k < |pairs| ==> pairs[k].j < |records|
  {
    if PartnerOf(pairs, x).Some? then Echo(records[PartnerOf(pairs, x).value]) else Fresh
  }

  lemma {:induction false} PartnerNone(pairs: seq<Alignment.Pair>, x: nat)
    requires forall k :: 0 <= k < |pairs| ==> pairs[k].i != x
    ensures PartnerOf(pairs, x) == None
  {
    PartnerWithin(pairs, x);
  }

  /** The first loop: the exact pairs. */
  method PlanExact(blocks: seq<Block>, records: seq<Record>, pairs: seq<Alignment.Pair>) returns (plan: array<Planned>)
    requires PairsFit(blocks, records, pairs) && Increasing(pairs)
    ensures fresh(plan) && plan.Length == |blocks|
    ensures forall x :: 0 <= x < |blocks| ==> plan[x] == Exact(records, pairs, x)
  {
    hide PartnerOf;
    plan := new Planned[|blocks|](_ => Fresh);
    for k := 0 to |pairs|
      invariant forall x :: 0 <= x < |blocks| ==>
        plan[x] == if exists a :: 0 <= a < k && pairs[a].i == x then Exact(records, pairs, x) else Fresh
    {
      PartnerIs(pairs, pairs[k].i, k);
      plan[pairs[k].i] := Echo(records[pairs[k].j]);
    }
    forall x | 0 <= x < |blocks| ensures plan[x] == Exact(records, pairs, x) {
      if !(exists a :: 0 <= a < |pairs| && pairs[a].i == x) { PartnerNone(pairs, x); }
    }
  }

  /** The second loop at one block: a container that holds regions may still be identified. */
  method Identify(blocks: seq<Block>, records: seq<Record>, ghost pairs: seq<Alignment.Pair>, i: nat, exact: Planned,
                  ordinals: map<ContainerKey, nat>, used: set<nat>)
    returns (planned: Planned, ordinals': map<ContainerKey, nat>, used': set<nat>)
    requires i < |blocks| && (forall k :: 0 <= k < |pairs| ==> pairs[k].j < |records|) && exact == Exact(records, pairs, i)
    ensures (planned, ordinals', used') == PlanStep(blocks, records, pairs, i, ordinals, used)
  {
    hide PartnerOf, HoldsRegion, NthOfKey;
    planned, ordinals', used' := exact, ordinals, used;
    var b := blocks[i];
    if !HoldsBlocks(b) {
      return;
    }
    var key := KeyOf(b).value;
    var ordinal := Seen(ordinals, key);
    ordinals' := ordinals[key := ordinal + 1];
    if exact.Echo? || !HoldsRegion(b) {
      return;
    }
    var j := NthOfKey(records, key, ordinal);
    if j == None || !HoldsRegion(records[j.value].block) || j.value in used {
      return;
    }
    used' := used + {j.value};
    planned := Inside(records[j.value]);
  }

  lemma PlanGrows(done: seq<Planned>, p: Planned, rest: seq<Planned>, whole: seq<Planned>)
    requires done + ([p] + rest) == whole
    ensures done + [p] + rest == whole
  {
    assert done + ([p] + rest) == done + [p] + rest;
  }

  /** The second loop. */
  method IdentifyAll(blocks: seq<Block>, records: seq<Record>, pairs: seq<Alignment.Pair>, plan: array<Planned>)
    requires plan.Length == |blocks| && forall k :: 0 <= k < |pairs| ==> pairs[k].j < |records|
    requires forall x :: 0 <= x < |blocks| ==> plan[x] == Exact(records, pairs, x)
    modifies plan
    ensures plan[..] == PlanFrom(blocks, records, pairs, 0, map[], Used(pairs))
  {
    ghost var whole := PlanFrom(blocks, records, pairs, 0, map[], Used(pairs));
    var used, ordinals: map<ContainerKey, nat> := Used(pairs), map[];
    ghost var done: seq<Planned> := [];
    for i := 0 to |blocks|
      invariant plan[..i] == done && done + PlanFrom(blocks, records, pairs, i, ordinals, used) == whole
      invariant forall x :: i <= x < |blocks| ==> plan[x] == Exact(records, pairs, x)
    {
      PlanFromStep(blocks, records, pairs, i, ordinals, used);
      var planned;
      planned, ordinals, used := Identify(blocks, records, pairs, i, plan[i], ordinals, used);
      PlanGrows(done, planned, PlanFrom(blocks, records, pairs, i + 1, ordinals, used), whole);
      plan[i] := planned;
      done := done + [planned];
    }
    assert PlanFrom(blocks, records, pairs, |blocks|, ordinals, used) == [];
    assert plan[..|blocks|] == plan[..] && done + [] == done;
  }

  /** `align` */
  method AlignBlocks(blocks: seq<Block>, records: seq<Record>) returns (plan: array<Planned>)
    ensures fresh(plan) && plan[..] == Plan(blocks, records)
  {
    hide Alignment.Pairs;
    var originals := BlocksOf(records);
    var pairs := Alignment.FindPairs(blocks, originals);
    PairsEqual(blocks, records);
    PlanIs(blocks, records);
    Alignment.PairsMatch(blocks, originals);
    assert Increasing(pairs);
    plan := PlanExact(blocks, records, pairs);
    IdentifyAll(blocks, records, pairs, plan);
  }

  // ---------- The walk over references ----------

  /** `references`: what the nested walks share. */
  class ReferenceWalk {
    var refs: seq<Ref>
    var tokens: set<string>

    ghost predicate Valid()
      reads this
    {
      DistinctTokens(refs) && forall t :: t in tokens <==> exists i :: 0 <= i < |refs| && refs[i].sentinel.token == t
    }

    constructor ()
      ensures Valid() && refs == []
    {
      refs, tokens := [], {};
    }

    /** `ok` is false when a token comes up twice. */
    method Add(r: Ref) returns (ok: bool)
      requires Valid()
      modifies this
      ensures ok <==> DistinctTokens(old(refs) + [r])
      ensures ok ==> Valid() && refs == old(refs) + [r]
    {
      if r.sentinel.token in tokens {
        ghost var i :| 0 <= i < |refs| && refs[i].sentinel.token == r.sentinel.token;
        assert (refs + [r])[i].sentinel.token == (refs + [r])[|refs|].sentinel.token;
        return false;
      }
      tokens := tokens + {r.sentinel.token};
      refs := refs + [r];
      forall t | t in tokens ensures exists i :: 0 <= i < |refs| && refs[i].sentinel.token == t {
        if t == r.sentinel.token { assert refs[|refs| - 1].sentinel.token == t; }
        else {
          var i :| 0 <= i < |old(refs)| && old(refs)[i].sentinel.token == t;
          assert refs[i].sentinel.token == t;
        }
      }
      ok := true;
    }

    method Walk(blocks: seq<Block>, chain: seq<Link>) returns (ok: bool)
      requires Valid()
      modifies this
      ensures ok <==> DistinctTokens(old(refs) + Refs(blocks, chain, map[]))
      ensures ok ==> Valid() && refs == old(refs) + Refs(blocks, chain, map[])
      decreases blocks, 3
    {
      ghost var start := refs;
      var seen: map<ContainerKey, nat> := map[];
      var i := 0;
      assert blocks[0..] == blocks;
      while i < |blocks|
        invariant 0 <= i <= |blocks| && Valid()
        invariant refs + Refs(blocks[i..], chain, seen) == start + Refs(blocks, chain, map[])
        decreases |blocks| - i
      {
        var b := blocks[i];
        assert blocks[i..] == [b] + blocks[i + 1..];
        RefsStep(b, blocks[i + 1..], chain, seen);
        var inside := InsideOf(b, chain, seen);
        ghost var before, rest := refs, Refs(blocks[i + 1..], chain, SeenAfter(b, seen));
        var done := WalkBlock(b, chain, inside);
        assert before + (BlockRefs(b, chain, inside) + rest) == before + BlockRefs(b, chain, inside) + rest;
        if !done {
          DistinctFront(before + BlockRefs(b, chain, inside), rest);
          return false;
        }
        seen := SeenAfter(b, seen);
        i := i + 1;
      }
      assert Refs([], chain, seen) == [];
      assert blocks[i..] == [] && refs + [] == refs;
      assert DistinctTokens(refs);
      ok := true;
    }

    method WalkBlock(b: Block, chain: seq<Link>, inside: seq<Link>) returns (ok: bool)
      requires Valid()
      modifies this
      ensures ok <==> DistinctTokens(old(refs) + BlockRefs(b, chain, inside))
      ensures ok ==> Valid() && refs == old(refs) + BlockRefs(b, chain, inside)
      decreases b, 2
    {
      hide DistinctTokens, Refs;
      match b
      case Opaque(nodeType, sentinel) => ok := Add(Ref(chain, nodeType, sentinel));
      case Blockquote(blocks) => ok := Walk(blocks, inside);
      case Callout(_, blocks) => ok := Walk(blocks, inside);
      case BulletList(items) => ok := WalkItems(items, inside);
      case OrderedList(items) => ok := WalkItems(items, inside);
      case _ =>
        assert refs + [] == refs;
        ok := true;
    }

    method WalkItems(items: seq<ListItem>, chain: seq<Link>) returns (ok: bool)
      requires Valid()
      modifies this
      ensures ok <==> DistinctTokens(old(refs) + ItemRefs(items, chain))
      ensures ok ==> Valid() && refs == old(refs) + ItemRefs(items, chain)
      decreases items, 3
    {
      hide DistinctTokens;
      ghost var start := refs;
      var i := 0;
      assert items[0..] == items;
      while i < |items|
        invariant 0 <= i <= |items| && Valid()
        invariant refs + ItemRefs(items[i..], chain) == start + ItemRefs(items, chain)
        decreases |items| - i
      {
        var blocks := if items[i].ItemWith? then items[i].blocks else [];
        ghost var before, rest := refs, ItemRefs(items[i + 1..], chain);
        assert items[i..][1..] == items[i + 1..];
        assert Refs([], chain, map[]) == [];
        assert ItemRefs(items[i..], chain) == Refs(blocks, chain, map[]) + rest;
        var done := true;
        if items[i].ItemWith? {
          done := Walk(items[i].blocks, chain);
        } else {
          assert refs + [] == refs;
          assert DistinctTokens(refs);
        }
        assert before + (Refs(blocks, chain, map[]) + rest) == before + Refs(blocks, chain, map[]) + rest;
        if !done {
          DistinctFront(before + Refs(blocks, chain, map[]), rest);
          return false;
        }
        i := i + 1;
      }
      assert items[i..] == [] && refs + [] == refs;
      assert DistinctTokens(refs);
      ok := true;
    }
  }

  lemma DistinctFront(a: seq<Ref>, b: seq<Ref>)
    requires !DistinctTokens(a)
    ensures !DistinctTokens(a + b)
  {
    var i, j :| 0 <= i < j < |a| && a[i].sentinel.token == a[j].sentinel.token;
    assert (a + b)[i].sentinel.token == (a + b)[j].sentinel.token;
  }

  /** The references of a document, or nothing when a token comes up twice. */
  method FindReferences(doc: seq<Block>) returns (refs: Option<seq<Ref>>)
    ensures refs == if DistinctTokens(References(doc)) then Some(References(doc)) else None
  {
    hide Refs, DistinctTokens;
    var walk := new ReferenceWalk();
    var ok := walk.Walk(doc, []);
    assert [] + Refs(doc, [], map[]) == Refs(doc, [], map[]);
    refs := if ok then Some(walk.refs) else None;
  }
}
