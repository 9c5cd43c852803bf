/** Whole-document refusals of the native HTML codec and the worst-fault rule. */
module NativeFaults {
  import opened Text

  datatype FaultClass = Hostile | Unclassified | Limit | Uninterpretable | EditRefusal

  /** Faults a decode can go on past: well-formed input outside the grammar. */
  datatype Preservable =
    | CrlfLineEnding | BindingInvalid | UrlInert | StrayTextInContainer | NestedList
    | OrphanListItem | AttrUnrecognised | DirUnrecognised | UrlRawAmpersand | DuplicateMark
    | DocumentWithoutBlocks | CodeLanguageInvalid | TableWithoutColumns
    | BlockNotSerializable | OpaquePayloadMissing

  /** Faults that end a decode where they are reached. */
  datatype Fatal =
    | InternalFailure
    | DocumentBoundsExceeded | EnvelopeTooLarge | DocumentTooLarge | DocumentTooComplex
    | ControlCharacter | UrlNotPermitted | UrlCredentials | StrayTextInTable | MismatchedTag
    | MalformedMarkup | ForbiddenTag | MisnestedBlock | NestedAnchor | InvalidChild
    | MisplacedElement | MalformedAttribute | DuplicateAttribute | ActiveAttribute
    | FetchingAttribute | UnsafeStyle | EntityEncodedUrl | SelfClosingElement | UnclosedElement
    | DuplicateOpaqueToken | ContextBindingMismatch

  datatype Reason = Outside(p: Preservable) | Stop(f: Fatal) | ContextReferencesMismatch

  function ClassOf(r: Reason): FaultClass {
    match r
    case Outside(_) => Uninterpretable
    case ContextReferencesMismatch => EditRefusal
    case Stop(f) =>
      match f
      case InternalFailure => Unclassified
      case DocumentBoundsExceeded | EnvelopeTooLarge | DocumentTooLarge | DocumentTooComplex => Limit
      case _ => Hostile
  }

  function Severity(r: Reason): nat {
    match ClassOf(r)
    case Hostile => 4
    case Unclassified => 3
    case Limit => 2
    case Uninterpretable => 1
    case EditRefusal => 0
  }

  /** The faults one stretch of a decode reaches, in order: the ones it defers and goes on
      past, then the one that stops it, if any. */
  datatype Trace = Trace(deferred: seq<Preservable>, stop: Option<Fatal>) {
    /** What a decode reaches when `next` follows, unless it has stopped already. */
    function Then(next: Trace): (r: Trace)
      ensures r.Clean() <==> Clean() && next.Clean()
      ensures Clean() ==> r == next
      ensures r.stop == None <==> stop == None && next.stop == None
    {
      if stop.Some? then this else Trace(deferred + next.deferred, next.stop)
    }

    predicate Clean() { deferred == [] && stop == None }

    function Reached(): seq<Reason> {
      Outsides(deferred) + if stop.Some? then [Stop(stop.value)] else []
    }
  }

  function Outsides(ps: seq<Preservable>): (rs: seq<Reason>)
    ensures |rs| == |ps|
  {
    seq(|ps|, i requires 0 <= i < |ps| => Outside(ps[i]))
  }

  const NO_FAULT := Trace([], None)

  function Deferred(p: Preservable): Trace { Trace([p], None) }

  function Stopped(f: Fatal): Trace { Trace([], Some(f)) }

  function Unless(ok: bool, t: Trace): Trace { if ok then NO_FAULT else t }

  ghost predicate FirstMaximum(ns: seq<nat>, i: nat) {
    && i < |ns|
    && (forall j :: 0 <= j < i ==> ns[j] < ns[i])
    && (forall j :: i < j < |ns| ==> ns[j] <= ns[i])
  }

  lemma FirstMaximumUnique(ns: seq<nat>, i: nat, k: nat)
    requires FirstMaximum(ns, i) && FirstMaximum(ns, k)
    ensures i == k
  {
    var a, b := ns[i], ns[k];
  }

  function IndexOfMaximum(ns: seq<nat>): (i: nat)
    requires ns != []
    ensures FirstMaximum(ns, i)
  {
    var n := |ns| - 1;
    if n > 0 then
      var before := IndexOfMaximum(ns[..n]);
      if ns[before] >= ns[n] then before else n
    else n
  }

  function Severities(rs: seq<Reason>): (ns: seq<nat>)
    ensures |ns| == |rs|
  {
    seq(|rs|, i requires 0 <= i < |rs| => Severity(rs[i]))
  }

  /** `r` is the first-reached fault of the worst class among `rs`. */
  ghost predicate FirstWorst(rs: seq<Reason>, r: Reason) {
    exists i: nat :: FirstMaximum(Severities(rs), i) && rs[i] == r
  }

  /** What a decode that reached `rs` is refused for. */
  function WorstOf(rs: seq<Reason>): (r: Option<Reason>)
    ensures r == None <==> rs == []
    ensures r.Some? ==> FirstWorst(rs, r.value)
    ensures r.Some? ==> r.value in rs && forall q :: q in rs ==> Severity(q) <= Severity(r.value)
  {
    if rs == [] then None else Some(rs[IndexOfMaximum(Severities(rs))])
  }

  lemma FirstWorstUnique(rs: seq<Reason>, a: Reason, b: Reason)
    requires FirstWorst(rs, a) && FirstWorst(rs, b)
    ensures a == b
  {
    var i: nat :| FirstMaximum(Severities(rs), i) && rs[i] == a;
    var k: nat :| FirstMaximum(Severities(rs), k) && rs[k] == b;
    FirstMaximumUnique(Severities(rs), i, k);
  }

  /** One more fault replaces the slot only when it is strictly worse. */
  lemma WorstOfAppend(rs: seq<Reason>, r: Reason)
    ensures WorstOf(rs + [r]) ==
            if rs != [] && Severity(WorstOf(rs).value) >= Severity(r) then WorstOf(rs) else Some(r)
  {
    var ns := Severities(rs + [r]);
    assert ns[..|rs|] == Severities(rs);
  }

  /** A scan that had reached `before` has gone through `t`: it has reached `after`, and it has
      thrown the first-reached fault of the worst class if `t` stops. */
  ghost predicate Ran(before: seq<Reason>, after: seq<Reason>, t: Trace, thrown: Option<Reason>) {
    && (thrown == None <==> t.stop == None)
    && after == before + Outsides(t.deferred)
    && (thrown.Some? ==> FirstWorst(before + t.Reached(), thrown.value))
  }

  lemma OutsidesOf(a: seq<Preservable>, b: seq<Preservable>)
    ensures Outsides(a + b) == Outsides(a) + Outsides(b)
  {
  }

  lemma RanThen(before: seq<Reason>, mid: seq<Reason>, after: seq<Reason>, a: Trace, b: Trace, thrown: Option<Reason>)
    requires Ran(before, mid, a, None) && Ran(mid, after, b, thrown)
    ensures Ran(before, after, a.Then(b), thrown)
  {
    hide FirstWorst, Outsides;
    OutsidesOf(a.deferred, b.deferred);
    assert before + Outsides(a.deferred) + Outsides(b.deferred) == before + (Outsides(a.deferred) + Outsides(b.deferred));
    if thrown.Some? {
      assert before + Outsides(a.deferred) + b.Reached() == before + a.Then(b).Reached();
    }
  }

  lemma ThenThen(a: Trace, b: Trace, c: Trace)
    ensures a.Then(b).Then(c) == a.Then(b.Then(c))
  {
    assert a.deferred + b.deferred + c.deferred == a.deferred + (b.deferred + c.deferred);
  }

  /** The module's `scanning` flag and `deferred` slot. */
  class FaultScan {
    var scanning: bool
    var deferred: Option<Reason>
    /** Every fault reached since `Begin`, whether deferred or thrown. */
    ghost var reached: seq<Reason>

    ghost predicate Valid()
      reads this
    {
      && (forall r :: r in reached ==> r.Outside?)
      && deferred == (if scanning then WorstOf(reached) else None)
    }

    constructor ()
      ensures Valid() && !scanning
    {
      scanning, deferred, reached := false, None, [];
    }

    method Begin()
      modifies this
      ensures Valid() && scanning && reached == []
    {
      scanning, deferred, reached := true, None, [];
    }

    method End()
      modifies this
      ensures Valid() && !scanning
    {
      scanning, deferred, reached := false, None, [];
    }

    /** The reason `fail` throws. */
    method Fail(reason: Reason) returns (thrown: Reason)
      requires Valid()
      ensures scanning ==> FirstWorst(reached + [reason], thrown)
      ensures !scanning ==> thrown == reason
    {
      thrown := if deferred.Some? && Severity(deferred.value) >= Severity(reason)
                then deferred.value else reason;
      WorstOfAppend(reached, reason);
      assert scanning ==> WorstOf(reached + [reason]) == Some(thrown);
    }

    method Defer(reason: Reason) returns (thrown: Option<Reason>)
      requires Valid()
      modifies this
      ensures Valid() && scanning == old(scanning)
      ensures thrown == None <==> scanning && reason.Outside?
      ensures thrown == None ==> reached == old(reached) + [reason]
      ensures thrown.Some? ==> reached == old(reached)
      ensures thrown.Some? && scanning ==> FirstWorst(reached + [reason], thrown.value)
      ensures thrown.Some? && !scanning ==> thrown.value == reason
    {
      if !scanning || ClassOf(reason) != Uninterpretable {
        var t := Fail(reason);
        return Some(t);
      }
      WorstOfAppend(reached, reason);
      if deferred == None || Severity(reason) > Severity(deferred.value) {
        deferred := Some(reason);
      }
      reached := reached + [reason];
      thrown := None;
    }

    /** Reach the faults of `t` in order, as the code between two steps of a decode does. */
    method Reach(t: Trace) returns (thrown: Option<Reason>)
      requires Valid() && scanning
      modifies this
      ensures Valid() && scanning && Ran(old(reached), reached, t, thrown)
    {
      hide FirstWorst, WorstOf, Severity, ClassOf;
      ghost var before := reached;
      for i := 0 to |t.deferred|
        invariant Valid() && scanning && reached == before + Outsides(t.deferred[..i])
      {
        var none := Defer(Outside(t.deferred[i]));
        OutsidesOf(t.deferred[..i], [t.deferred[i]]);
        assert t.deferred[..i + 1] == t.deferred[..i] + [t.deferred[i]];
      }
      assert t.deferred[..|t.deferred|] == t.deferred;
      thrown := None;
      if t.stop.Some? {
        var r := Fail(Stop(t.stop.value));
        assert before + t.Reached() == reached + [Stop(t.stop.value)];
        thrown := Some(r);
      }
    }
  }
}
