/** The shared/exclusive gate in front of a database: first come, first served, with a separate
    cap on the waiters of each mode. */
module Gate {

  datatype Mode = Exclusive | Shared

  datatype Request = Request(id: nat, mode: Mode)

  const MAX_DEPTH := 64
  const MAX_SHARED_DEPTH := 192

  function Cap(mode: Mode): nat { if mode.Exclusive? then MAX_DEPTH else MAX_SHARED_DEPTH }

  /** How many of `rs` are in this mode. */
  function Count(rs: seq<Request>, mode: Mode): (n: nat)
    ensures n <= |rs|
  {
    if rs == [] then 0 else (if rs[0].mode == mode then 1 else 0) + Count(rs[1..], mode)
  }

  lemma {:induction false} CountOf(a: seq<Request>, b: seq<Request>, mode: Mode)
    ensures Count(a + b, mode) == Count(a, mode) + Count(b, mode)
  {
    if a == [] {
      assert a + b == b;
    } else {
      assert (a + b)[1..] == a[1..] + b;
      CountOf(a[1..], b, mode);
    }
  }

  lemma {:induction false} CountFirst(rs: seq<Request>)
    requires rs != []
    ensures Count(rs, Exclusive) == Count(rs[1..], Exclusive) + if rs[0].mode.Exclusive? then 1 else 0
    ensures Count(rs, Shared) == Count(rs[1..], Shared) + if rs[0].mode.Shared? then 1 else 0
  {
  }

  // ---------- The gate as a value ----------

  datatype State = State(exclusive: bool, shared: nat, waiters: seq<Request>) {
    predicate Admits(mode: Mode) { !exclusive && (mode.Shared? || shared == 0) }

    function Taken(mode: Mode): State {
      if mode.Exclusive? then this.(exclusive := true) else this.(shared := shared + 1)
    }

    /** Nobody waits for a gate that would let it in. */
    predicate Settled() { waiters != [] ==> !Admits(waiters[0].mode) }
  }

  /** The state when the head of the queue has been let in as long as the gate admits it. */
  function Drained(s: State): (r: State)
    ensures r.Settled()
    decreases |s.waiters|
  {
    if s.waiters == [] || !s.Admits(s.waiters[0].mode) then s
    else Drained(s.(waiters := s.waiters[1..]).Taken(s.waiters[0].mode))
  }

  /** The waiters let in by `Drained`, in order. */
  function Granted(s: State): seq<Request>
    decreases |s.waiters|
  {
    if s.waiters == [] || !s.Admits(s.waiters[0].mode) then []
    else [s.waiters[0]] + Granted(s.(waiters := s.waiters[1..]).Taken(s.waiters[0].mode))
  }

  /** One more waiter let in. */
  lemma {:induction false} DrainStep(s: State)
    ensures s.waiters == [] || !s.Admits(s.waiters[0].mode) ==> Drained(s) == s && Granted(s) == []
    ensures s.waiters != [] && s.Admits(s.waiters[0].mode) ==>
              var next := s.(waiters := s.waiters[1..]).Taken(s.waiters[0].mode);
              Drained(s) == Drained(next) && Granted(s) == [s.waiters[0]] + Granted(next)
  {
    hide State.Admits, State.Taken;
  }

  function Freed(s: State, mode: Mode): State {
    if mode.Exclusive? then s.(exclusive := false)
    else if s.shared == 0 then s
    else s.(shared := s.shared - 1)
  }

  /** `release` does nothing for a mode that nobody holds. */
  predicate Holding(s: State, mode: Mode) { if mode.Exclusive? then s.exclusive else s.shared > 0 }

  datatype Admission = Rejected | Immediate | Queued

  function AdmissionOf(s: State, mode: Mode): Admission {
    if Count(s.waiters, mode) >= Cap(mode) then Rejected
    else if s.waiters == [] && s.Admits(mode) then Immediate
    else Queued
  }

  function Acquired(s: State, r: Request): State {
    match AdmissionOf(s, r.mode)
    case Rejected => s
    case Immediate => s.Taken(r.mode)
    case Queued => s.(waiters := s.waiters + [r])
  }

  // ---------- The gate in place ----------

  class Mutex {
    var exclusive: bool
    var shared: nat
    var waiters: seq<Request>
    var exclusiveWaiting: nat
    var sharedWaiting: nat

    function Contents(): State
      reads this
    {
      State(exclusive, shared, waiters)
    }

    /** The counters agree with the queue. */
    ghost predicate Valid()
      reads this
    {
      exclusiveWaiting == Count(waiters, Exclusive) && sharedWaiting == Count(waiters, Shared)
    }

    constructor ()
      ensures Valid() && Contents() == State(false, 0, [])
    {
      exclusive, shared, waiters, exclusiveWaiting, sharedWaiting := false, 0, [], 0, 0;
    }

    method Take(mode: Mode)
      requires Valid()
      modifies this`exclusive, this`shared
      ensures Valid() && Contents() == old(Contents()).Taken(mode)
    {
      if mode.Exclusive? {
        exclusive := true;
      } else {
        shared := shared + 1;
      }
    }

    method Acquire(r: Request) returns (admission: Admission)
      requires Valid()
      modifies this
      ensures Valid() && admission == AdmissionOf(old(Contents()), r.mode) && Contents() == Acquired(old(Contents()), r)
    {
      var waiting := if r.mode.Exclusive? then exclusiveWaiting else sharedWaiting;
      var cap := if r.mode.Exclusive? then MAX_DEPTH else MAX_SHARED_DEPTH;
      if waiting >= cap {
        return Rejected;
      }
      if |waiters| == 0 && Contents().Admits(r.mode) {
        Take(r.mode);
        return Immediate;
      }
      CountOf(waiters, [r], Exclusive);
      CountOf(waiters, [r], Shared);
      waiters := waiters + [r];
      if r.mode.Exclusive? {
        exclusiveWaiting := exclusiveWaiting + 1;
      } else {
        sharedWaiting := sharedWaiting + 1;
      }
      admission := Queued;
    }

    /** Returns the waiters whose `grant` is called, in order. */
    method Release(mode: Mode) returns (granted: seq<Request>)
      requires Valid()
      modifies this
      ensures Valid()
      ensures Holding(old(Contents()), mode) ==>
                && Contents() == Drained(Freed(old(Contents()), mode))
                && granted == Granted(Freed(old(Contents()), mode))
      ensures !Holding(old(Contents()), mode) ==> Contents() == old(Contents()) && granted == []
    {
      hide Drained, Granted, Count, State.Settled;
      granted := [];
      if mode.Exclusive? {
        if !exclusive {
          return;
        }
        exclusive := false;
      } else {
        if shared == 0 {
          return;
        }
        shared := shared - 1;
      }
      ghost var freed := Contents();
      while |waiters| > 0
        invariant Valid()
        invariant Drained(Contents()) == Drained(freed) && granted + Granted(Contents()) == Granted(freed)
        decreases |waiters|
      {
        var head := waiters[0];
        DrainStep(Contents());
        if !Contents().Admits(head.mode) {
          return;
        }
        assert waiters == [head] + waiters[1..];
        CountFirst(waiters);
        waiters := waiters[1..];
        if head.mode.Exclusive? {
          exclusiveWaiting := exclusiveWaiting - 1;
        } else {
          sharedWaiting := sharedWaiting - 1;
        }
        Take(head.mode);
        granted := granted + [head];
      }
      DrainStep(Contents());
    }

    /** `peekMutex`: the number of holders, and of waiters. */
    method Peek() returns (depth: nat, queued: nat)
      ensures depth == (if exclusive then 1 else shared) && queued == |waiters|
    {
      depth, queued := if exclusive then 1 else shared, |waiters|;
    }
  }

  // ---------- Every run ----------

  /** The gate, who holds it, and what was accepted and granted so far, in order. */
  datatype World = World(gate: State, holders: seq<Request>, accepted: seq<Request>, granted: seq<Request>)

  const START := World(State(false, 0, []), [], [], [])

  /** A request arrives, or a holder's body ends, returning or throwing. */
  datatype Event = Arrive(r: Request) | Finish(holder: nat)

  predicate Enabled(w: World, e: Event) { e.Finish? ==> e.holder < |w.holders| }

  function Next(w: World, e: Event): World
    requires Enabled(w, e)
  {
    match e
    case Arrive(r) =>
      var gate := Acquired(w.gate, r);
      (match AdmissionOf(w.gate, r.mode)
       case Rejected => w
       case Immediate => World(gate, w.holders + [r], w.accepted + [r], w.granted + [r])
       case Queued => w.(gate := gate, accepted := w.accepted + [r]))
    case Finish(i) =>
      var freed := Freed(w.gate, w.holders[i].mode);
      var now := Granted(freed);
      World(Drained(freed), w.holders[..i] + w.holders[i + 1..] + now, w.accepted, w.granted + now)
  }

  predicate Holds(gate: State, holders: seq<Request>) {
    && gate.exclusive == (Count(holders, Exclusive) > 0)
    && gate.shared == Count(holders, Shared)
    && Count(holders, Exclusive) <= 1
    && (gate.exclusive ==> |holders| == 1)
  }

  /** An exclusive holder is alone, the queues are within their caps, nobody waits for an open
      gate, and requests have been granted exactly in the order in which they were accepted. */
  predicate Inv(w: World) {
    && Holds(w.gate, w.holders)
    && Capped(w.gate.waiters)
    && w.gate.Settled()
    && w.accepted == w.granted + w.gate.waiters
  }

  lemma {:induction false} CountBoth(rs: seq<Request>)
    ensures Count(rs, Exclusive) + Count(rs, Shared) == |rs|
  {
    if rs != [] { CountBoth(rs[1..]); }
  }

  lemma {:induction false} CountRemoved(rs: seq<Request>, i: nat, mode: Mode)
    requires i < |rs|
    ensures Count(rs[..i] + rs[i + 1..], mode) == Count(rs, mode) - if rs[i].mode == mode then 1 else 0
  {
    assert rs == rs[..i] + ([rs[i]] + rs[i + 1..]);
    CountOf(rs[..i], [rs[i]] + rs[i + 1..], mode);
    CountOf([rs[i]], rs[i + 1..], mode);
    CountOf(rs[..i], rs[i + 1..], mode);
  }

  lemma TakeHolds(gate: State, holders: seq<Request>, r: Request)
    requires Holds(gate, holders) && gate.Admits(r.mode)
    ensures Holds(gate.Taken(r.mode), holders + [r])
  {
    CountOf(holders, [r], Exclusive);
    CountOf(holders, [r], Shared);
    CountBoth(holders);
  }

  /** Draining lets the front of the queue in and keeps who holds the gate in step. */
  lemma {:induction false} DrainHolds(gate: State, holders: seq<Request>)
    requires Holds(gate, holders)
    ensures Holds(Drained(gate), holders + Granted(gate))
    ensures Granted(gate) + Drained(gate).waiters == gate.waiters
    decreases |gate.waiters|
  {
    hide Drained, Granted, Holds, State.Admits, State.Settled;
    DrainStep(gate);
    if gate.waiters == [] || !gate.Admits(gate.waiters[0].mode) {
      assert holders + [] == holders;
    } else {
      var r := gate.waiters[0];
      var next := gate.(waiters := gate.waiters[1..]);
      SameHolds(gate, next, holders, r.mode);
      TakeHolds(next, holders, r);
      DrainHolds(next.Taken(r.mode), holders + [r]);
      assert holders + [r] + Granted(next.Taken(r.mode)) == holders + Granted(gate);
    }
  }

  lemma SameHolds(a: State, b: State, holders: seq<Request>, mode: Mode)
    requires a.exclusive == b.exclusive && a.shared == b.shared
    ensures Holds(a, holders) == Holds(b, holders) && a.Admits(mode) == b.Admits(mode)
  {
    hide Count;
  }

  lemma FreeHolds(gate: State, holders: seq<Request>, i: nat)
    requires Holds(gate, holders) && i < |holders|
    ensures Holding(gate, holders[i].mode)
    ensures Holds(Freed(gate, holders[i].mode), holders[..i] + holders[i + 1..])
  {
    CountRemoved(holders, i, Exclusive);
    CountRemoved(holders, i, Shared);
    CountBoth(holders);
    CountBoth(holders[..i] + holders[i + 1..]);
  }

  predicate Capped(ws: seq<Request>) {
    Count(ws, Exclusive) <= MAX_DEPTH && Count(ws, Shared) <= MAX_SHARED_DEPTH
  }

  lemma {:induction false} CappedMore(ws: seq<Request>, r: Request)
    requires Capped(ws) && Count(ws, r.mode) < Cap(r.mode)
    ensures Capped(ws + [r])
  {
    CountOf(ws, [r], Exclusive);
    CountOf(ws, [r], Shared);
  }

  lemma CappedLess(a: seq<Request>, b: seq<Request>)
    requires Capped(a + b)
    ensures Capped(b)
  {
    CountOf(a, b, Exclusive);
    CountOf(a, b, Shared);
  }

  lemma ArriveKeeps(w: World, r: Request)
    requires Inv(w)
    ensures Inv(Next(w, Arrive(r)))
  {
    hide Count, Holds, Capped, Drained, Granted, State.Admits;
    match AdmissionOf(w.gate, r.mode)
    case Rejected =>
    case Immediate =>
      TakeHolds(w.gate, w.holders, r);
      assert w.granted + [r] + [] == w.accepted + [r];
    case Queued =>
      CappedMore(w.gate.waiters, r);
      SameHolds(w.gate, Acquired(w.gate, r), w.holders, (w.gate.waiters + [r])[0].mode);
  }

  lemma FinishKeeps(w: World, i: nat)
    requires Inv(w) && i < |w.holders|
    ensures Inv(Next(w, Finish(i)))
  {
    hide Count, Holds, Capped, Drained, Granted, State.Admits, State.Settled;
    var freed := Freed(w.gate, w.holders[i].mode);
    var left := w.holders[..i] + w.holders[i + 1..];
    FreeHolds(w.gate, w.holders, i);
    DrainHolds(freed, left);
    CappedLess(Granted(freed), Drained(freed).waiters);
    assert w.granted + (Granted(freed) + Drained(freed).waiters) == w.granted + Granted(freed) + Drained(freed).waiters;
  }

  /** Every step of every run keeps the invariant. */
  lemma NextKeeps(w: World, e: Event)
    requires Inv(w) && Enabled(w, e)
    ensures Inv(Next(w, e))
  {
    hide Inv, Next;
    match e
    case Arrive(r) => ArriveKeeps(w, r);
    case Finish(i) => FinishKeeps(w, i);
  }

  predicate Possible(w: World, es: seq<Event>)
    decreases |es|
  {
    es == [] || (Enabled(w, es[0]) && Possible(Next(w, es[0]), es[1..]))
  }

  function Run(w: World, es: seq<Event>): World
    requires Possible(w, es)
    decreases |es|
  {
    if es == [] then w else Run(Next(w, es[0]), es[1..])
  }

  /** The invariant holds in every reachable state. */
  lemma {:induction false} Reachable(es: seq<Event>)
    requires Possible(START, es)
    ensures Inv(Run(START, es))
  {
    RunKeeps(START, es);
  }

  lemma {:induction false} RunKeeps(w: World, es: seq<Event>)
    requires Inv(w) && Possible(w, es)
    ensures Inv(Run(w, es))
    decreases |es|
  {
    hide Inv, Next;
    if es != [] {
      NextKeeps(w, es[0]);
      RunKeeps(Next(w, es[0]), es[1..]);
    }
  }

  function Finishes(es: seq<Event>): nat {
    if es == [] then 0 else (if es[0].Finish? then 1 else 0) + Finishes(es[1..])
  }

  /** A waiter means a holder. */
  lemma WaitersMeanHolders(w: World)
    requires Inv(w) && w.gate.waiters != []
    ensures w.holders != []
  {
  }

  /** What one step does to a queue that is not empty: an arrival leaves the holders alone, and a
      release takes one holder away for as many as it lets in. */
  lemma StepCounts(w: World, e: Event)
    requires Inv(w) && Enabled(w, e) && w.gate.waiters != []
    ensures var w' := Next(w, e);
            && |w'.granted| >= |w.granted|
            && w'.granted[..|w.granted|] == w.granted
            && |w'.holders| + (if e.Finish? then 1 else 0) == |w.holders| + (|w'.granted| - |w.granted|)
  {
    hide Holds, Capped, Drained, Granted, Count;
  }

  /** Bounded waiting: the waiter with `p` others ahead of it is let in by the time as many holders
      have finished as there were holders and waiters ahead, whatever else arrives meanwhile. */
  lemma {:induction false} BoundedWaiting(w: World, es: seq<Event>, p: nat)
    requires Inv(w) && Possible(w, es) && p < |w.gate.waiters|
    requires Finishes(es) >= |w.holders| + p
    ensures var granted := Run(w, es).granted;
            |granted| > |w.granted| + p && granted[|w.granted| + p] == w.gate.waiters[p]
    decreases |es|
  {
    WaitersMeanHolders(w);
    assert es != [];
    var e, w' := es[0], Next(w, es[0]);
    assert Enabled(w, e) && Possible(w', es[1..]) && Run(w, es) == Run(w', es[1..]);
    NextKeeps(w, e);
    StepCounts(w, e);
    StepOrder(w, e, p);
    var g := |w'.granted| - |w.granted|;
    if p < g {
      GrantsStay(w', es[1..]);
    } else {
      BoundedWaiting(w', es[1..], p - g);
    }
  }

  /** A step lets waiters in from the front of the queue only. */
  lemma StepOrder(w: World, e: Event, p: nat)
    requires Inv(w) && Enabled(w, e) && p < |w.gate.waiters| && Inv(Next(w, e))
    ensures var w' := Next(w, e);
            var g := |w'.granted| - |w.granted|;
            && g >= 0
            && (p < g ==> w'.granted[|w.granted| + p] == w.gate.waiters[p])
            && (p >= g ==> p - g < |w'.gate.waiters| && w'.gate.waiters[p - g] == w.gate.waiters[p])
  {
    hide Holds, Capped, Drained, Granted, Count, State.Settled;
    StepCounts(w, e);
    var w' := Next(w, e);
    var n := |w.granted|;
    assert w.accepted[n + p] == w.gate.waiters[p];
    assert w'.accepted[n + p] == w.accepted[n + p];
  }

  /** What was granted stays granted, in place. */
  lemma {:induction false} GrantsStay(w: World, es: seq<Event>)
    requires Inv(w) && Possible(w, es)
    ensures var granted := Run(w, es).granted;
            |granted| >= |w.granted| && granted[..|w.granted|] == w.granted
    decreases |es|
  {
    hide Inv;
    if es != [] {
      var w' := Next(w, es[0]);
      assert |w'.granted| >= |w.granted| && w'.granted[..|w.granted|] == w.granted by { hide Drained, Granted; }
      hide Next;
      NextKeeps(w, es[0]);
      GrantsStay(w', es[1..]);
      var granted := Run(w', es[1..]).granted;
      assert granted[..|w.granted|] == granted[..|w'.granted|][..|w.granted|];
    }
  }

  /** An exclusive request is refused exactly when 64 exclusive ones are accepted and not granted:
      shared requests play no part in it. */
  lemma ExclusiveRefused(w: World)
    requires Inv(w)
    ensures AdmissionOf(w.gate, Exclusive) == Rejected <==> Count(w.accepted[|w.granted|..], Exclusive) == MAX_DEPTH
  {
    hide Holds, Count, State.Settled;
    assert w.accepted[|w.granted|..] == w.gate.waiters;
  }

  predicate OnlySharedArrivals(es: seq<Event>) {
    forall i :: 0 <= i < |es| ==> es[i].Arrive? ==> es[i].r.mode.Shared?
  }

  /** No amount of shared traffic makes an exclusive request fail admission. */
  lemma {:induction false} SharedTrafficHarmless(w: World, es: seq<Event>)
    requires Inv(w) && Possible(w, es) && OnlySharedArrivals(es)
    requires AdmissionOf(w.gate, Exclusive) != Rejected
    ensures AdmissionOf(Run(w, es).gate, Exclusive) != Rejected
    decreases |es|
  {
    hide Inv;
    if es != [] {
      NextKeeps(w, es[0]);
      SharedStep(w, es[0]);
      hide Next;
      SharedTrafficHarmless(Next(w, es[0]), es[1..]);
    }
  }

  lemma SharedStep(w: World, e: Event)
    requires Inv(w) && Enabled(w, e) && (e.Arrive? ==> e.r.mode.Shared?)
    ensures Count(Next(w, e).gate.waiters, Exclusive) <= Count(w.gate.waiters, Exclusive)
  {
    hide Capped;
    match e
    case Arrive(r) =>
      CountOf(w.gate.waiters, [r], Exclusive);
      CountFirst([r]);
      assert Count([], Exclusive) == 0;
    case Finish(i) =>
      var freed := Freed(w.gate, w.holders[i].mode);
      FreeHolds(w.gate, w.holders, i);
      DrainHolds(freed, w.holders[..i] + w.holders[i + 1..]);
      CountOf(Granted(freed), Drained(freed).waiters, Exclusive);
  }

  /** A request that finds others waiting never overtakes them: it is granted after every request
      accepted before it. */
  lemma {:induction false} GrantOrder(es: seq<Event>)
    requires Possible(START, es)
    ensures var w := Run(START, es); w.granted <= w.accepted
  {
    Reachable(es);
    assert Run(START, es).accepted == Run(START, es).granted + Run(START, es).gate.waiters;
  }

  // ---------- Who is let in together ----------

  /** A request is let in at once exactly when nobody waits and whoever holds the gate may be in it
      with this request: any shared holders for a shared one, nobody for an exclusive one. */
  lemma ImmediateExact(w: World, r: Request)
    requires Inv(w)
    ensures AdmissionOf(w.gate, r.mode).Immediate? <==>
              w.gate.waiters == [] && forall h :: h in w.holders ==> h.mode.Shared? && r.mode.Shared?
  {
    CountBoth(w.holders);
    if forall h :: h in w.holders ==> h.mode.Shared? { AllShared(w.holders); }
    CountNone(w.gate.waiters, r.mode);
    if h :| h in w.holders && h.mode.Exclusive? { HasExclusive(w.holders, h); }
  }

  lemma CountNone(rs: seq<Request>, mode: Mode)
    ensures rs == [] ==> Count(rs, mode) < Cap(mode)
  {
  }

  lemma {:induction false} AllShared(rs: seq<Request>)
    requires forall h :: h in rs ==> h.mode.Shared?
    ensures Count(rs, Exclusive) == 0
  {
    if rs != [] {
      assert rs[0] in rs;
      AllShared(rs[1..]);
    }
  }

  lemma {:induction false} HasExclusive(rs: seq<Request>, h: Request)
    requires h in rs && h.mode.Exclusive?
    ensures Count(rs, Exclusive) > 0
  {
    if rs[0] != h { HasExclusive(rs[1..], h); }
  }

  /** The first `n` waiters are let in together: one exclusive one, or the shared ones up to the next
      exclusive one. */
  predicate Batch(waiters: seq<Request>, n: nat) {
    n <= |waiters|
    && if waiters != [] && waiters[0].mode.Exclusive? then n == 1
       else (forall i :: 0 <= i < n ==> waiters[i].mode.Shared?) && (n < |waiters| ==> waiters[n].mode.Exclusive?)
  }

  lemma {:induction false} SharedDrain(s: State)
    requires !s.exclusive && s.shared > 0
    ensures var n := |Granted(s)|;
            && n <= |s.waiters| && Drained(s).waiters == s.waiters[n..]
            && (forall i :: 0 <= i < n ==> s.waiters[i].mode.Shared?) && (n < |s.waiters| ==> s.waiters[n].mode.Exclusive?)
    decreases |s.waiters|
  {
    hide Drained, Granted;
    DrainStep(s);
    if s.waiters != [] && s.waiters[0].mode.Shared? {
      var next := s.(waiters := s.waiters[1..]).Taken(s.waiters[0].mode);
      SharedDrain(next);
      var n := |Granted(next)|;
      assert s.waiters[1..][n..] == s.waiters[n + 1..];
      assert forall i :: 0 < i < n + 1 ==> s.waiters[i] == s.waiters[1..][i - 1];
      assert n < |s.waiters[1..]| ==> s.waiters[1..][n] == s.waiters[n + 1];
    }
  }

  lemma {:induction false} FreeDrain(s: State)
    requires !s.exclusive && s.shared == 0
    ensures var n := |Granted(s)|; Batch(s.waiters, n) && Drained(s).waiters == s.waiters[n..]
  {
    hide Drained, Granted;
    DrainStep(s);
    if s.waiters != [] {
      var next := s.(waiters := s.waiters[1..]).Taken(s.waiters[0].mode);
      DrainStep(next);
      if s.waiters[0].mode.Shared? {
        SharedDrain(next);
        var n := |Granted(next)|;
        assert s.waiters[1..][n..] == s.waiters[n + 1..];
        assert forall i :: 0 < i < n + 1 ==> s.waiters[i] == s.waiters[1..][i - 1];
        assert n < |s.waiters[1..]| ==> s.waiters[1..][n] == s.waiters[n + 1];
      }
    }
  }

  /** A finish lets nobody in while another holder is left; the last holder's finish lets in exactly
      the next batch of waiters, so shared requests that wait in a row run together. */
  lemma FinishExact(w: World, i: nat)
    requires Inv(w) && i < |w.holders|
    ensures var t := Next(w, Finish(i));
            var n: int := |w.gate.waiters| - |t.gate.waiters|;
            && n >= 0 && t.gate.waiters == w.gate.waiters[n..]
            && t.holders == w.holders[..i] + w.holders[i + 1..] + w.gate.waiters[..n]
            && if |w.holders| > 1 then n == 0 else Batch(w.gate.waiters, n)
  {
    hide Drained, Granted, Holds, AdmissionOf, Acquired, State.Taken, Capped, Batch, Count;
    var freed := Freed(w.gate, w.holders[i].mode);
    var rest := w.holders[..i] + w.holders[i + 1..];
    FreeHolds(w.gate, w.holders, i);
    DrainHolds(freed, rest);
    GrantsFront(freed);
    HeldModes(freed, rest);
    HeldModes(w.gate, w.holders);
    if |w.holders| > 1 { DrainStep(freed); } else { FreeDrain(freed); }
  }

  lemma GrantsFront(s: State)
    requires Granted(s) + Drained(s).waiters == s.waiters
    ensures |Granted(s)| == |s.waiters| - |Drained(s).waiters|
    ensures s.waiters[..|Granted(s)|] == Granted(s) && s.waiters[|Granted(s)|..] == Drained(s).waiters
  {
    hide Granted, Drained;
  }

  lemma HeldModes(gate: State, holders: seq<Request>)
    requires Holds(gate, holders)
    ensures |holders| == gate.shared + (if gate.exclusive then 1 else 0)
    ensures gate.exclusive ==> gate.shared == 0
  {
    CountBoth(holders);
  }
}
