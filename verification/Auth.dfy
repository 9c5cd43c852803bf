/** The live auth provider: one first-in-first-out queue of operations over a shared token store,
    generations that invalidate what was admitted before a logout or cancel, and a cleanup that
    deletes, verifies, falls back and verifies again. Every await of something outside ends a step,
    and so does the return of a helper after which anything happens before the generation is
    checked again: the restore that publishes, and the failed login that rolls back. */
module Auth {
  import opened Text

  datatype Kind = Login | Refresh | Restore | Logout | Cancel

  /** `Cleaned(remoteFailed)` is a cleanup without a cleanup error. */
  datatype Result = Session | NoSession | Failed | Cleaned(remoteFailed: bool) | CleanupFailed

  /** What an operation is awaiting. `UserKept` is the return of the helper that read the user and
      made its last check, `Failing` the way of a failed login to its rollback. */
  datatype Stage =
    | Waiting
    | Email | EmailToken
    | MfaCode(attempt: nat) | MfaSubmit(attempt: nat)
    | Password(attempt: nat) | PasswordSupply(attempt: nat)
    | RefreshCall
    | TokenRead | UserRead | UserKept
    | Failing | Rollback
    | Revoke
    | Deleting(remoteFailed: bool)
    | Verifying(remoteFailed: bool, deleteFailed: bool)
    | Fallback(remoteFailed: bool, needed: bool)
    | Reverifying(remoteFailed: bool, hookFailed: bool)
    | Done(result: Result)
  {
    predicate Running() { !Waiting? && !Done? }

    /** Awaiting an upstream call, inside which the token may be written. */
    predicate Upstream() {
      Email? || EmailToken? || MfaSubmit? || Password? || RefreshCall? || TokenRead? || UserRead? || Revoke?
    }

    /** Awaiting a delete or the cleanup hook, which may remove the token and never write it. */
    predicate Removing() { Rollback? || Deleting? || Fallback? }
  }

  /** One admitted operation: the generation and the end of the queue that it captured when it was
      admitted, and whether its `finally` has run. */
  datatype Op = Op(kind: Kind, generation: nat, previous: Option<nat>, stage: Stage, settled: bool)

  datatype CleanupState = Clean | Queued | DeletingToken | VerifyingToken | FallingBack | Blocked

  /** `ops` are the operations in admission order, and `tail` is the one whose end the next one
      will wait for. `token` says whether the store holds the
      canonical token, `writer` which operation last wrote it, `publisher` which operation last
      set the session active. */
  datatype State = State(
    generation: nat, active: bool, publisher: nat, cleanup: CleanupState, ops: seq<Op>, tail: Option<nat>,
    logoutInFlight: Option<nat>, cleanupInFlight: Option<nat>, refreshInFlight: Option<nat>,
    token: bool, writer: Option<nat>)

  datatype Limits = Limits(mfa: nat, password: nat)

  // ---------- Calls, which run to their first await at once ----------

  function Enqueued(s: State, kind: Kind): State {
    s.(ops := s.ops + [Op(kind, s.generation, s.tail, Waiting, false)], tail := Some(|s.ops|))
  }

  function Invalidated(s: State): State { s.(generation := s.generation + 1, active := false) }

  function Called(s: State, kind: Kind): State {
    var id := |s.ops|;
    match kind
    case Login => if s.cleanup.Blocked? then s else Enqueued(s, Login)
    case Restore => if s.cleanup.Blocked? then s else Enqueued(s, Restore)
    case Refresh =>
      if s.logoutInFlight.Some? || s.cleanupInFlight.Some? || !s.active || s.refreshInFlight.Some? then s
      else Enqueued(s, Refresh).(refreshInFlight := Some(id))
    case Logout =>
      if s.logoutInFlight.Some? then s
      else Enqueued(Invalidated(s), Logout).(cleanup := Queued, logoutInFlight := Some(id))
    case Cancel =>
      if s.logoutInFlight.Some? || s.cleanupInFlight.Some? then Invalidated(s)
      else Enqueued(Invalidated(s), Cancel).(cleanup := Queued, cleanupInFlight := Some(id))
  }

  /** Calls that a logger makes while an operation runs. */
  function CalledAll(s: State, calls: seq<Kind>): State
    decreases |calls|
  {
    if calls == [] then s else CalledAll(Called(s, calls[0]), calls[1..])
  }

  // ---------- Steps of the running operation ----------

  /** How an awaited call ends: as hoped, with the other answer, with nothing, or with a throw. */
  datatype Answer = Yes | No | Null | Throws

  function To(s: State, i: nat, stage: Stage): State
    requires i < |s.ops|
  {
    s.(ops := s.ops[i := s.ops[i].(stage := stage)])
  }

  predicate Current(s: State, i: nat)
    requires i < |s.ops|
  {
    s.ops[i].generation == s.generation
  }

  /** A login that fails is on its way to delete what it may have written. */
  function FailedStage(kind: Kind): Stage { if kind.Login? then Failing else Done(Failed) }

  /** Set the session active, log, and check the generation once more, unless this is a restore. */
  function Published(s: State, i: nat, calls: seq<Kind>): State
    requires i < |s.ops|
    ensures |Published(s, i, calls).ops| >= |s.ops|
  {
    var t := CalledAll(s.(active := true, publisher := i), calls);
    CallsGrow(s.(active := true, publisher := i), calls);
    To(t, i, Done(if s.ops[i].kind.Restore? || Current(t, i) then Session else Failed))
  }

  lemma {:induction false} CallsGrow(s: State, calls: seq<Kind>)
    ensures var t := CalledAll(s, calls); |t.ops| >= |s.ops| && t.ops[..|s.ops|] == s.ops
    decreases |calls|
  {
    if calls != [] {
      var u := Called(s, calls[0]);
      CallGrows(s, calls[0]);
      CallsGrow(u, calls[1..]);
      assert CalledAll(s, calls).ops[..|s.ops|] == CalledAll(u, calls[1..]).ops[..|u.ops|][..|s.ops|];
    }
  }

  lemma CallGrows(s: State, kind: Kind)
    ensures var t := Called(s, kind); |t.ops| >= |s.ops| && t.ops[..|s.ops|] == s.ops
  {
  }

  function CleanupSucceeds(s: State, i: nat, remoteFailed: bool, calls: seq<Kind>): State
    requires i < |s.ops|
  {
    var clean := s.(cleanup := Clean);
    var logged := if s.ops[i].kind.Logout? && !remoteFailed then CalledAll(clean, calls) else clean;
    CallsGrow(clean, calls);
    To(logged, i, Done(Cleaned(remoteFailed)))
  }

  function CleanupFails(s: State, i: nat): State
    requires i < |s.ops|
  {
    To(s.(cleanup := Blocked), i, Done(CleanupFailed))
  }

  /** What an operation does when its turn in the queue comes. */
  function Started(s: State, i: nat): State
    requires i < |s.ops|
  {
    match s.ops[i].kind
    case Login => if !Current(s, i) || s.cleanup.Blocked? then To(s, i, Done(Failed)) else To(s, i, Email)
    case Refresh => if !Current(s, i) || s.cleanup.Blocked? then To(s, i, Done(Failed)) else To(s, i, RefreshCall)
    case Restore => if !Current(s, i) then To(s, i, Done(Failed)) else To(s, i, TokenRead)
    case Logout => To(s, i, Revoke)
    case Cancel => To(s.(cleanup := DeletingToken), i, Deleting(false))
  }

  /** A restore checks the generation for the last time before the user it has read is returned. */
  predicate PastLastCheck(op: Op) { op.kind.Restore? && op.stage.UserKept? }

  /** Where the answer to an await leads a login, refresh or restore that does not publish on it. */
  function Continued(limits: Limits, op: Op, answer: Answer): Stage {
    var fails := FailedStage(op.kind);
    match op.stage
    case Email => if answer.Throws? then fails else EmailToken
    case EmailToken => if answer.Yes? then MfaCode(1) else if answer.No? then Password(1) else fails
    case MfaCode(n) => if answer.Yes? then MfaSubmit(n) else fails
    case MfaSubmit(n) => if answer.Yes? then Password(1) else if n >= limits.mfa then fails else MfaCode(n + 1)
    case Password(n) => if answer.Yes? then TokenRead else if n >= limits.password then fails else PasswordSupply(n)
    case PasswordSupply(n) => if answer.Yes? then Password(n + 1) else fails
    case RefreshCall => if answer.Yes? then TokenRead else fails
    case TokenRead => if answer.Yes? then UserRead else if answer.Null? && op.kind.Restore? then Done(NoSession) else fails
    case UserRead => if answer.Yes? then UserKept else fails
    case UserKept => fails
    case Failing => Rollback
    case stage => stage
  }

  /** The continuation of a login, refresh or restore. */
  function SessionStep(s: State, limits: Limits, i: nat, answer: Answer, calls: seq<Kind>): State
    requires i < |s.ops| && s.ops[i].stage.Running()
  {
    var op := s.ops[i];
    if op.stage.Rollback? then To(if answer.Yes? then s.(token := false) else s, i, Done(Failed))
    else if !Current(s, i) && !PastLastCheck(op) then To(s, i, Done(Failed))
    else if op.stage.UserKept? && answer.Yes? then Published(s, i, if op.kind.Restore? then [] else calls)
    else To(s, i, Continued(limits, op, answer))
  }

  /** The continuation of a logout or cancel. A read answers `No` when the token is absent. */
  function CleanupStep(s: State, i: nat, answer: Answer, calls: seq<Kind>): State
    requires i < |s.ops|
  {
    match s.ops[i].stage
    case Revoke => To(s.(cleanup := DeletingToken), i, Deleting(answer.Throws?))
    case Deleting(r) =>
      To((if answer.Yes? then s.(token := false) else s).(cleanup := VerifyingToken), i, Verifying(r, !answer.Yes?))
    case Verifying(r, deleteFailed) =>
      var needed := deleteFailed || !answer.No?;
      if s.ops[i].kind.Logout? || needed then To(s.(cleanup := FallingBack), i, Fallback(r, needed))
      else CleanupSucceeds(s, i, r, calls)
    case Fallback(r, needed) =>
      if needed then To(s.(cleanup := VerifyingToken), i, Reverifying(r, answer.Throws?))
      else if answer.Throws? then CleanupFails(s, i)
      else CleanupSucceeds(s, i, r, calls)
    case Reverifying(r, hookFailed) =>
      if !answer.No? || hookFailed then CleanupFails(s, i) else CleanupSucceeds(s, i, r, calls)
    case _ => s
  }

  /** `finally` of an operation that has ended. */
  function Settled(s: State, i: nat): State
    requires i < |s.ops|
  {
    var t := s.(ops := s.ops[i := s.ops[i].(settled := true)]);
    match s.ops[i].kind
    case Logout =>
      t.(logoutInFlight := if s.logoutInFlight == Some(i) then None else s.logoutInFlight,
         cleanup := if s.cleanup.Blocked? then Blocked else Clean)
    case Cancel =>
      t.(cleanupInFlight := if s.cleanupInFlight == Some(i) then None else s.cleanupInFlight,
         cleanup := if s.cleanup.Blocked? then Blocked else Clean)
    case Refresh => t.(refreshInFlight := if s.refreshInFlight == Some(i) then None else s.refreshInFlight)
    case _ => t
  }

  // ---------- Every interleaving ----------

  /** `Call` may come at any step boundary; `Start` when the captured end of the queue has; `Resume`
      when the awaited call ends; `Upstream` and `Remove` while it is under way. */
  datatype Event =
    | Call(kind: Kind)
    | Start(i: nat)
    | Resume(i: nat, answer: Answer, calls: seq<Kind>)
    | Settle(i: nat)
    | Upstream(i: nat, present: bool)
    | Remove(i: nat)

  /** The captured end of the queue, if there was any, has been reached. */
  predicate Reached(s: State, previous: Option<nat>) {
    previous.Some? ==> previous.value < |s.ops| && s.ops[previous.value].stage.Done?
  }

  predicate IsCleanup(kind: Kind) { kind.Logout? || kind.Cancel? }

  predicate IsCleanupStage(stage: Stage) {
    stage.Revoke? || stage.Deleting? || stage.Verifying? || stage.Fallback? || stage.Reverifying?
  }

  /** A read of the store tells the truth, or throws. */
  predicate Truthful(s: State, stage: Stage, answer: Answer) {
    stage.Verifying? || stage.Reverifying? ==> (answer.No? ==> !s.token)
  }

  predicate Enabled(s: State, e: Event) {
    match e
    case Call(_) => true
    case Start(i) => i < |s.ops| && s.ops[i].stage.Waiting? && Reached(s, s.ops[i].previous)
    case Resume(i, answer, _) => i < |s.ops| && s.ops[i].stage.Running() && Truthful(s, s.ops[i].stage, answer)
    case Settle(i) => i < |s.ops| && s.ops[i].stage.Done? && !s.ops[i].settled
    case Upstream(i, _) => i < |s.ops| && s.ops[i].stage.Upstream()
    case Remove(i) => i < |s.ops| && s.ops[i].stage.Removing()
  }

  function Next(s: State, limits: Limits, e: Event): State
    requires Enabled(s, e)
  {
    match e
    case Call(kind) => Called(s, kind)
    case Start(i) => Started(s, i)
    case Resume(i, answer, calls) =>
      if IsCleanup(s.ops[i].kind) then CleanupStep(s, i, answer, calls) else SessionStep(s, limits, i, answer, calls)
    case Settle(i) => Settled(s, i)
    case Upstream(i, present) => s.(token := present, writer := if present then Some(i) else s.writer)
    case Remove(i) => s.(token := false)
  }

  // ---------- What every step keeps ----------

  function Before(i: nat): Option<nat> { if i == 0 then None else Some(i - 1) }

  /** Every operation waits for the one admitted just before it. */
  predicate Chained(s: State) {
    && s.tail == Before(|s.ops|)
    && forall i :: 0 <= i < |s.ops| ==> s.ops[i].previous == Before(i)
  }

  /** Whatever has started, everything admitted before it has ended. */
  predicate InOrder(s: State) {
    forall i, j :: 0 <= i < j < |s.ops| && !s.ops[j].stage.Waiting? ==> s.ops[i].stage.Done?
  }

  /** An operation is where its kind may be, and past a verified removal the token is absent. */
  predicate InPlace(s: State) {
    forall i :: 0 <= i < |s.ops| ==>
      var stage := s.ops[i].stage;
      && (stage.Running() ==> (IsCleanup(s.ops[i].kind) <==> IsCleanupStage(stage)))
      && (stage.Fallback? && !stage.needed ==> !s.token)
  }

  /** After a cleanup without a cleanup error, only an operation admitted later brings a token. */
  predicate Absent(s: State) {
    s.token ==> forall c :: 0 <= c < |s.ops| && s.ops[c].stage.Done? && s.ops[c].stage.result.Cleaned? ==>
      s.writer.Some? && c < s.writer.value < |s.ops|
  }

  /** An active session is one that an operation has ended with; unless it is of the current
      generation, that operation was a restore. */
  predicate Fresh(s: State) {
    && (s.active ==>
          && s.publisher < |s.ops| && s.ops[s.publisher].stage == Done(Session)
          && (s.ops[s.publisher].generation == s.generation || s.ops[s.publisher].kind.Restore?))
    && forall i :: 0 <= i < |s.ops| ==> s.ops[i].generation <= s.generation
  }

  predicate Inv(s: State) { Chained(s) && InOrder(s) && InPlace(s) && Absent(s) && Fresh(s) }

  /** A call admits at most one operation, which waits, and makes no session active. */
  ghost predicate Admits(s: State, t: State) {
    && |t.ops| >= |s.ops| && t.ops[..|s.ops|] == s.ops && (Chained(s) ==> Chained(t))
    && (forall i :: |s.ops| <= i < |t.ops| ==>
          t.ops[i].stage.Waiting? && s.generation <= t.ops[i].generation <= t.generation)
    && t.generation >= s.generation
    && t.token == s.token && t.writer == s.writer && t.publisher == s.publisher
    && (t.active ==> s.active && t.generation == s.generation)
    && (s.active && t.generation == s.generation ==> t.active)
  }

  lemma CallChains(s: State, kind: Kind)
    requires Chained(s)
    ensures Chained(Called(s, kind))
  {
  }

  lemma CallAdmits(s: State, kind: Kind)
    ensures Admits(s, Called(s, kind))
  {
    hide Chained;
    if Chained(s) { CallChains(s, kind); }
  }

  lemma {:induction false} CallsAdmit(s: State, calls: seq<Kind>)
    ensures Admits(s, CalledAll(s, calls))
    decreases |calls|
  {
    hide Called;
    if calls != [] {
      var u := Called(s, calls[0]);
      CallAdmits(s, calls[0]);
      CallsAdmit(u, calls[1..]);
      AdmitsBoth(s, u, CalledAll(u, calls[1..]));
    }
  }

  lemma AdmitsBoth(s: State, t: State, u: State)
    requires Admits(s, t) && Admits(t, u)
    ensures Admits(s, u)
  {
    assert u.ops[..|s.ops|] == u.ops[..|t.ops|][..|s.ops|];
    forall i | |s.ops| <= i < |u.ops| ensures u.ops[i].stage.Waiting? && s.generation <= u.ops[i].generation <= u.generation {
      if i < |t.ops| { assert u.ops[i] == u.ops[..|t.ops|][i] == t.ops[i]; }
    }
  }

  lemma AdmitsKeeps(s: State, t: State)
    requires Inv(s) && Admits(s, t)
    ensures Inv(t)
  {
    assert forall i :: 0 <= i < |s.ops| ==> t.ops[i] == t.ops[..|s.ops|][i] == s.ops[i];
  }

  /** One running operation moves to another stage. */
  lemma MoveKeeps(s: State, i: nat, stage: Stage)
    requires Inv(s) && i < |s.ops| && !stage.Waiting?
    requires s.ops[i].stage.Running() || (s.ops[i].stage.Waiting? && Reached(s, s.ops[i].previous))
    requires stage.Running() ==> (IsCleanup(s.ops[i].kind) <==> IsCleanupStage(stage))
    requires stage.Fallback? && !stage.needed ==> !s.token
    requires stage.Done? && stage.result.Cleaned? ==> !s.token
    ensures Inv(To(s, i, stage))
  {
    var t := To(s, i, stage);
    assert InOrder(t) by { OrderMoves(s, i, stage); }
    assert s.active ==> s.publisher != i;
  }

  lemma OrderMoves(s: State, i: nat, stage: Stage)
    requires InOrder(s) && i < |s.ops| && !stage.Waiting?
    requires s.ops[i].stage.Running() || (s.ops[i].stage.Waiting? && Chained(s) && Reached(s, s.ops[i].previous))
    ensures InOrder(To(s, i, stage))
  {
    var t := To(s, i, stage);
    forall x, y | 0 <= x < y < |t.ops| && !t.ops[y].stage.Waiting? ensures t.ops[x].stage.Done? {
      if y == i {
        if s.ops[i].stage.Waiting? && x < i - 1 { assert s.ops[i - 1].stage.Done?; }
      }
    }
  }

  lemma RemovedKeeps(s: State)
    requires Inv(s)
    ensures Inv(s.(token := false))
  {
  }

  lemma StateKeeps(s: State, cleanup: CleanupState)
    requires Inv(s)
    ensures Inv(s.(cleanup := cleanup))
  {
  }

  lemma StartKeeps(s: State, i: nat)
    requires Inv(s) && Enabled(s, Start(i))
    ensures Inv(Started(s, i))
  {
    hide Inv;
    match s.ops[i].kind
    case Login => MoveKeeps(s, i, if !Current(s, i) || s.cleanup.Blocked? then Done(Failed) else Email);
    case Refresh => MoveKeeps(s, i, if !Current(s, i) || s.cleanup.Blocked? then Done(Failed) else RefreshCall);
    case Restore => MoveKeeps(s, i, if !Current(s, i) then Done(Failed) else TokenRead);
    case Logout => MoveKeeps(s, i, Revoke);
    case Cancel =>
      StateKeeps(s, DeletingToken);
      MoveKeeps(s.(cleanup := DeletingToken), i, Deleting(false));
  }

  /** Publishing leaves a session active only for the generation that earned it. */
  lemma PublishKeeps(s: State, i: nat, calls: seq<Kind>)
    requires Inv(s) && i < |s.ops| && s.ops[i].stage.Running() && !IsCleanup(s.ops[i].kind)
    requires Current(s, i) || (s.ops[i].kind.Restore? && calls == [])
    ensures Inv(Published(s, i, calls))
  {
    var a := s.(active := true, publisher := i);
    var t := CalledAll(a, calls);
    CallsAdmit(a, calls);
    CallsGrow(a, calls);
    hide CalledAll;
    assert forall x :: 0 <= x < |s.ops| ==> t.ops[x] == t.ops[..|s.ops|][x] == s.ops[x];
    var ended := Done(if s.ops[i].kind.Restore? || Current(t, i) then Session else Failed);
    assert InOrder(t) && InPlace(t);
    OrderMoves(t, i, ended);
    assert t.generation >= s.generation && (t.active ==> t.generation == s.generation);
  }

  lemma ContinuedKeeps(s: State, limits: Limits, i: nat, answer: Answer)
    requires Inv(s) && i < |s.ops| && s.ops[i].stage.Running() && !IsCleanup(s.ops[i].kind) && !s.ops[i].stage.Rollback?
    ensures Inv(To(s, i, Continued(limits, s.ops[i], answer)))
  {
    assert !IsCleanupStage(s.ops[i].stage);
    ContinuedFollows(limits, s.ops[i], answer);
    hide To, Continued, Reached, Inv, InPlace;
    MoveKeeps(s, i, Continued(limits, s.ops[i], answer));
  }

  lemma SessionKeeps(s: State, limits: Limits, i: nat, answer: Answer, calls: seq<Kind>)
    requires Inv(s) && i < |s.ops| && s.ops[i].stage.Running() && !IsCleanup(s.ops[i].kind)
    ensures Inv(SessionStep(s, limits, i, answer, calls))
  {
    hide To, Continued, Published, Reached, Inv;
    var op := s.ops[i];
    if op.stage.Rollback? {
      RemovedKeeps(s);
      MoveKeeps(if answer.Yes? then s.(token := false) else s, i, Done(Failed));
    } else if !Current(s, i) && !PastLastCheck(op) {
      MoveKeeps(s, i, Done(Failed));
    } else if op.stage.UserKept? && answer.Yes? {
      PublishKeeps(s, i, if op.kind.Restore? then [] else calls);
    } else {
      ContinuedKeeps(s, limits, i, answer);
    }
  }

  /** The stages that the continuation of `stage` may move to. */
  predicate Follows(stage: Stage, next: Stage) {
    match stage
    case Email => next.EmailToken?
    case EmailToken => next == MfaCode(1) || next == Password(1)
    case MfaCode(n) => next == MfaSubmit(n)
    case MfaSubmit(n) => next == Password(1) || next == MfaCode(n + 1)
    case Password(n) => next.TokenRead? || next == PasswordSupply(n)
    case PasswordSupply(n) => next == Password(n + 1)
    case RefreshCall => next.TokenRead?
    case TokenRead => next.UserRead?
    case UserRead => next.UserKept?
    case Failing => next.Rollback?
    case _ => false
  }

  /** An answer leads to a stage that follows, or to a failure, or a restore to no session. */
  lemma ContinuedFollows(limits: Limits, op: Op, answer: Answer)
    requires op.stage.Running() && !IsCleanupStage(op.stage) && !op.stage.Rollback?
    ensures var next := Continued(limits, op, answer);
            next == FailedStage(op.kind) || next == Done(NoSession) || Follows(op.stage, next)
  {
  }

  lemma SucceedsKeeps(s: State, i: nat, remoteFailed: bool, calls: seq<Kind>)
    requires Inv(s) && i < |s.ops| && s.ops[i].stage.Running() && IsCleanup(s.ops[i].kind) && !s.token
    ensures Inv(CleanupSucceeds(s, i, remoteFailed, calls))
  {
    hide Inv, CalledAll;
    var clean := s.(cleanup := Clean);
    StateKeeps(s, Clean);
    CallsAdmit(clean, calls);
    AdmitsKeeps(clean, CalledAll(clean, calls));
    var t := if s.ops[i].kind.Logout? && !remoteFailed then CalledAll(clean, calls) else clean;
    assert t.ops[i] == t.ops[..|s.ops|][i] == s.ops[i];
    MoveKeeps(t, i, Done(Cleaned(remoteFailed)));
  }

  lemma DeletingKeeps(s: State, i: nat, answer: Answer, calls: seq<Kind>)
    requires Inv(s) && i < |s.ops| && IsCleanup(s.ops[i].kind) && (s.ops[i].stage.Revoke? || s.ops[i].stage.Deleting?)
    ensures Inv(CleanupStep(s, i, answer, calls))
  {
    hide Inv, To;
    if s.ops[i].stage.Revoke? {
      StateKeeps(s, DeletingToken);
      MoveKeeps(s.(cleanup := DeletingToken), i, Deleting(answer.Throws?));
    } else {
      var t := if answer.Yes? then s.(token := false) else s;
      RemovedKeeps(s);
      StateKeeps(t, VerifyingToken);
      MoveKeeps(t.(cleanup := VerifyingToken), i, Verifying(s.ops[i].stage.remoteFailed, !answer.Yes?));
    }
  }

  lemma VerifyingKeeps(s: State, i: nat, answer: Answer, calls: seq<Kind>)
    requires Inv(s) && i < |s.ops| && IsCleanup(s.ops[i].kind) && s.ops[i].stage.Verifying? && Truthful(s, s.ops[i].stage, answer)
    ensures Inv(CleanupStep(s, i, answer, calls))
  {
    hide Inv, CleanupSucceeds, To;
    var r, needed := s.ops[i].stage.remoteFailed, s.ops[i].stage.deleteFailed || !answer.No?;
    StateKeeps(s, FallingBack);
    if s.ops[i].kind.Logout? || needed { MoveKeeps(s.(cleanup := FallingBack), i, Fallback(r, needed)); }
    else { SucceedsKeeps(s, i, r, calls); }
  }

  lemma FallbackKeeps(s: State, i: nat, answer: Answer, calls: seq<Kind>)
    requires Inv(s) && i < |s.ops| && IsCleanup(s.ops[i].kind) && s.ops[i].stage.Fallback?
    ensures Inv(CleanupStep(s, i, answer, calls))
  {
    var stage := s.ops[i].stage;
    assert !stage.needed ==> !s.token;
    hide Inv, CleanupSucceeds, To;
    StateKeeps(s, VerifyingToken);
    StateKeeps(s, Blocked);
    if stage.needed { MoveKeeps(s.(cleanup := VerifyingToken), i, Reverifying(stage.remoteFailed, answer.Throws?)); }
    else if answer.Throws? { MoveKeeps(s.(cleanup := Blocked), i, Done(CleanupFailed)); }
    else { SucceedsKeeps(s, i, stage.remoteFailed, calls); }
  }

  lemma ReverifyingKeeps(s: State, i: nat, answer: Answer, calls: seq<Kind>)
    requires Inv(s) && i < |s.ops| && IsCleanup(s.ops[i].kind) && s.ops[i].stage.Reverifying? && Truthful(s, s.ops[i].stage, answer)
    ensures Inv(CleanupStep(s, i, answer, calls))
  {
    hide Inv, CleanupSucceeds, To;
    StateKeeps(s, Blocked);
    if !answer.No? || s.ops[i].stage.hookFailed { MoveKeeps(s.(cleanup := Blocked), i, Done(CleanupFailed)); }
    else { SucceedsKeeps(s, i, s.ops[i].stage.remoteFailed, calls); }
  }

  lemma CleanupKeeps(s: State, i: nat, answer: Answer, calls: seq<Kind>)
    requires Inv(s) && i < |s.ops| && s.ops[i].stage.Running() && IsCleanup(s.ops[i].kind) && Truthful(s, s.ops[i].stage, answer)
    ensures Inv(CleanupStep(s, i, answer, calls))
  {
    var stage := s.ops[i].stage;
    assert IsCleanupStage(stage);
    hide Inv, CleanupStep;
    if stage.Verifying? { VerifyingKeeps(s, i, answer, calls); }
    else if stage.Fallback? { FallbackKeeps(s, i, answer, calls); }
    else if stage.Reverifying? { ReverifyingKeeps(s, i, answer, calls); }
    else { DeletingKeeps(s, i, answer, calls); }
  }

  /** Only the running operation's own call writes, and everything cleaned up came before it. */
  lemma UpstreamKeeps(s: State, i: nat, present: bool)
    requires Inv(s) && i < |s.ops| && s.ops[i].stage.Upstream()
    ensures Inv(s.(token := present, writer := if present then Some(i) else s.writer))
  {
    forall c | 0 <= c < |s.ops| && s.ops[c].stage.Done? ensures c < i {
    }
  }

  lemma SettleKeeps(s: State, i: nat)
    requires Inv(s) && i < |s.ops|
    ensures Inv(Settled(s, i))
  {
    var t := Settled(s, i);
    assert t.token == s.token && t.writer == s.writer && t.active == s.active && t.publisher == s.publisher && t.generation == s.generation;
    assert t.ops == s.ops[i := s.ops[i].(settled := true)];
    hide Settled, IsCleanup;
    assert forall x :: 0 <= x < |s.ops| ==> t.ops[x] == s.ops[x].(settled := t.ops[x].settled);
  }

  /** Every step of every interleaving keeps the invariant. */
  lemma NextKeeps(s: State, limits: Limits, e: Event)
    requires Inv(s) && Enabled(s, e)
    ensures Inv(Next(s, limits, e))
  {
    hide Called, Started, CleanupStep, SessionStep, Settled, Inv;
    match e
    case Call(kind) =>
      CallAdmits(s, kind);
      AdmitsKeeps(s, Called(s, kind));
    case Start(i) => StartKeeps(s, i);
    case Resume(i, answer, calls) =>
      if IsCleanup(s.ops[i].kind) { CleanupKeeps(s, i, answer, calls); } else { SessionKeeps(s, limits, i, answer, calls); }
    case Settle(i) => SettleKeeps(s, i);
    case Upstream(i, present) => UpstreamKeeps(s, i, present);
    case Remove(i) => RemovedKeeps(s);
  }

  // ---------- Runs ----------

  predicate Possible(s: State, limits: Limits, es: seq<Event>)
    decreases |es|
  {
    es == [] || (Enabled(s, es[0]) && Possible(Next(s, limits, es[0]), limits, es[1..]))
  }

  function Run(s: State, limits: Limits, es: seq<Event>): State
    requires Possible(s, limits, es)
    decreases |es|
  {
    if es == [] then s else Run(Next(s, limits, es[0]), limits, es[1..])
  }

  /** A new provider, over a store that may hold a token. */
  function Initial(token: bool): State { State(0, false, 0, Clean, [], None, None, None, None, token, None) }

  lemma {:induction false} RunKeeps(s: State, limits: Limits, es: seq<Event>)
    requires Inv(s) && Possible(s, limits, es)
    ensures Inv(Run(s, limits, es))
    decreases |es|
  {
    hide Inv, Next;
    if es != [] {
      NextKeeps(s, limits, es[0]);
      RunKeeps(Next(s, limits, es[0]), limits, es[1..]);
    }
  }

  /** Every operation waits for the end of the one admitted just before it. */
  lemma {:induction false} WaitsForPrevious(token: bool, limits: Limits, es: seq<Event>)
    requires Possible(Initial(token), limits, es)
    ensures var t := Run(Initial(token), limits, es);
            t.tail == Before(|t.ops|) && forall i :: 0 <= i < |t.ops| ==> t.ops[i].previous == Before(i)
  {
    hide Run, Next;
    RunKeeps(Initial(token), limits, es);
  }

  /** Bodies never overlap and run in admission order. */
  lemma {:induction false} OneAtATime(token: bool, limits: Limits, es: seq<Event>, i: nat, j: nat)
    requires Possible(Initial(token), limits, es)
    requires var t := Run(Initial(token), limits, es); i < j < |t.ops| && !t.ops[j].stage.Waiting?
    ensures Run(Initial(token), limits, es).ops[i].stage.Done?
  {
    hide Run, Next;
    RunKeeps(Initial(token), limits, es);
  }

  /** Cleanup is authoritative: once a logout or cancel has ended without a cleanup error, even if
      the remote revoke failed, the token is absent until an operation queued later writes one. */
  lemma {:induction false} CleanupAuthoritative(token: bool, limits: Limits, es: seq<Event>, c: nat)
    requires Possible(Initial(token), limits, es)
    requires var t := Run(Initial(token), limits, es);
             c < |t.ops| && t.ops[c].stage.Done? && t.ops[c].stage.result.Cleaned?
    ensures var t := Run(Initial(token), limits, es);
            t.token ==> t.writer.Some? && c < t.writer.value < |t.ops|
  {
    hide Run, Next;
    RunKeeps(Initial(token), limits, es);
  }

  // ---------- Stale operations ----------

  /** An operation that a logout or cancel has overtaken before it ended. */
  predicate Overtaken(s: State, i: nat) {
    i < |s.ops| && s.ops[i].generation < s.generation && !s.ops[i].stage.Done?
  }

  /** An operation that a logout or cancel has overtaken and that has not passed its last check. */
  predicate Stale(s: State, i: nat) {
    i < |s.ops| && s.ops[i].generation < s.generation && s.ops[i].stage != Done(Session) && !PastLastCheck(s.ops[i])
  }

  /** What a step does to the other operations, and to its own if it is stale. */
  lemma StaleStep(s: State, limits: Limits, e: Event, i: nat)
    requires Inv(s) && Enabled(s, e) && Stale(s, i)
    ensures Stale(Next(s, limits, e), i)
  {
    hide Inv, Called, CleanupStep, SessionStep;
    match e
    case Call(kind) => CallAdmits(s, kind); StaleStays(s, Called(s, kind), i);
    case Start(_) =>
    case Resume(j, answer, calls) =>
      if IsCleanup(s.ops[j].kind) { StaleCleanup(s, j, answer, calls, i); } else { StaleSession(s, limits, j, answer, calls, i); }
    case Settle(_) =>
    case Upstream(_, _) =>
    case Remove(_) =>
  }

  lemma StaleStays(s: State, t: State, i: nat)
    requires Stale(s, i) && Admits(s, t)
    ensures Stale(t, i) && t.ops[i] == s.ops[i]
  {
    assert t.ops[i] == t.ops[..|s.ops|][i] == s.ops[i];
  }

  lemma StaleSucceeds(s: State, j: nat, remoteFailed: bool, calls: seq<Kind>, i: nat)
    requires Stale(s, i) && j < |s.ops|
    ensures Stale(CleanupSucceeds(s, j, remoteFailed, calls), i)
  {
    hide CalledAll;
    var clean := s.(cleanup := Clean);
    CallsAdmit(clean, calls);
    StaleStays(clean, CalledAll(clean, calls), i);
    CallsGrow(clean, calls);
  }

  lemma StaleCleanup(s: State, j: nat, answer: Answer, calls: seq<Kind>, i: nat)
    requires Stale(s, i) && j < |s.ops|
    ensures Stale(CleanupStep(s, j, answer, calls), i)
  {
    hide CleanupSucceeds, To, Stale;
    StaleTo(s, s.(cleanup := Blocked), j, Done(CleanupFailed), i);
    match s.ops[j].stage
    case Revoke => StaleTo(s, s.(cleanup := DeletingToken), j, Deleting(answer.Throws?), i);
    case Deleting(r) =>
      StaleTo(s, (if answer.Yes? then s.(token := false) else s).(cleanup := VerifyingToken), j, Verifying(r, !answer.Yes?), i);
    case Verifying(r, deleteFailed) =>
      StaleSucceeds(s, j, r, calls, i);
      StaleTo(s, s.(cleanup := FallingBack), j, Fallback(r, deleteFailed || !answer.No?), i);
    case Fallback(r, needed) =>
      StaleSucceeds(s, j, r, calls, i);
      StaleTo(s, s.(cleanup := VerifyingToken), j, Reverifying(r, answer.Throws?), i);
    case Reverifying(r, _) => StaleSucceeds(s, j, r, calls, i);
    case _ =>
  }

  lemma StaleTo(s: State, u: State, j: nat, stage: Stage, i: nat)
    requires Stale(s, i) && j < |s.ops| && u.ops == s.ops && u.generation == s.generation
    requires stage != Done(Session) && !stage.UserKept?
    ensures Stale(To(u, j, stage), i)
  {
  }

  lemma StaleSession(s: State, limits: Limits, j: nat, answer: Answer, calls: seq<Kind>, i: nat)
    requires Stale(s, i) && j < |s.ops| && s.ops[j].stage.Running()
    ensures Stale(SessionStep(s, limits, j, answer, calls), i)
  {
    hide CalledAll, Published;
    StalePublished(s, j, if s.ops[j].kind.Restore? then [] else calls, i);
  }

  lemma StalePublished(s: State, j: nat, calls: seq<Kind>, i: nat)
    requires Stale(s, i) && j < |s.ops|
    ensures i != j ==> Stale(Published(s, j, calls), i)
  {
    hide CalledAll;
    BehindCalls(s.(active := true, publisher := j), calls, i);
  }

  /** No stale session: an operation that captured its generation before a logout or cancel, and had
      neither ended with a session nor passed its last check by then, never ends with one, whatever
      else is called, also by the logger from inside it. */
  lemma {:induction false} NoStaleSession(s: State, limits: Limits, es: seq<Event>, i: nat)
    requires Inv(s) && Possible(s, limits, es) && Stale(s, i)
    ensures Stale(Run(s, limits, es), i)
    decreases |es|
  {
    hide Inv, Next, Stale, Enabled;
    if es != [] {
      NextKeeps(s, limits, es[0]);
      StaleStep(s, limits, es[0], i);
      NoStaleSession(Next(s, limits, es[0]), limits, es[1..], i);
    }
  }

  /** Every logout that is not one already under way, and every cancel, leaves no session active,
      overtakes all that was admitted before it and has not ended, and makes it stale unless it is
      a restore past its last check. */
  lemma Invalidates(s: State, kind: Kind)
    requires Fresh(s) && (kind.Cancel? || (kind.Logout? && s.logoutInFlight == None))
    ensures var t := Called(s, kind);
            && !t.active && t.generation == s.generation + 1
            && forall i :: 0 <= i < |s.ops| && !s.ops[i].stage.Done? ==>
                 Overtaken(t, i) && (Stale(t, i) <==> !PastLastCheck(s.ops[i]))
  {
  }

  /** Nothing is active, and every session operation that has not ended is overtaken. */
  predicate NothingLeft(s: State) {
    !s.active && forall i :: 0 <= i < |s.ops| && !IsCleanup(s.ops[i].kind) && !s.ops[i].stage.Done? ==> Overtaken(s, i)
  }

  /** A logout invalidates exactly when no logout is under way or there is nothing to invalidate;
      otherwise it changes nothing. */
  lemma LogoutExact(s: State)
    requires Fresh(s)
    ensures NothingLeft(Called(s, Logout)) <==> s.logoutInFlight == None || NothingLeft(s)
    ensures s.logoutInFlight.Some? ==> Called(s, Logout) == s
  {
    var t := Called(s, Logout);
    if s.logoutInFlight == None {
      Invalidates(s, Logout);
      assert t.ops[..|s.ops|] == s.ops;
    }
  }

  // ---------- Restores that are overtaken after their last check ----------

  /** In this run operation `i` ends with a session. */
  ghost predicate EndsWithSession(s: State, limits: Limits, es: seq<Event>, i: nat) {
    Possible(s, limits, es) && var t := Run(s, limits, es); i < |t.ops| && t.ops[i].stage == Done(Session)
  }

  /** In this run it ends with a session and sets it active. */
  ghost predicate EndsActive(s: State, limits: Limits, es: seq<Event>, i: nat) {
    EndsWithSession(s, limits, es, i) && var t := Run(s, limits, es); t.active && t.publisher == i
  }

  /** An overtaken operation can still end with a session, and set it active, exactly when it is a
      restore that was past its last check. */
  lemma OvertakenExact(s: State, limits: Limits, i: nat)
    requires Inv(s) && Overtaken(s, i)
    ensures PastLastCheck(s.ops[i]) <==> exists es :: EndsWithSession(s, limits, es, i)
    ensures PastLastCheck(s.ops[i]) <==> exists es :: EndsActive(s, limits, es, i)
  {
    if PastLastCheck(s.ops[i]) {
      var e := Resume(i, Yes, []);
      RunFirst(s, limits, e, []);
      assert EndsActive(s, limits, [e] + [], i);
    } else {
      forall es | EndsWithSession(s, limits, es, i) ensures false {
        NoStaleSession(s, limits, es, i);
        assert false;
      }
    }
  }

  lemma RunFirst(s: State, limits: Limits, e: Event, es: seq<Event>)
    requires Enabled(s, e) && Possible(Next(s, limits, e), limits, es)
    ensures Possible(s, limits, [e] + es) && Run(s, limits, [e] + es) == Run(Next(s, limits, e), limits, es)
  {
    hide Enabled, Next;
    assert ([e] + es)[1..] == es;
  }

  /** A step at which a restore that was overtaken after its last check ends. */
  predicate LateStep(s: State, e: Event, p: nat) {
    e.Resume? && e.i == p && e.answer.Yes? && Overtaken(s, p) && PastLastCheck(s.ops[p])
  }

  ghost predicate LateIn(s: State, limits: Limits, es: seq<Event>, p: nat)
    requires Possible(s, limits, es)
    decreases |es|
  {
    es != [] && (LateStep(s, es[0], p) || LateIn(Next(s, limits, es[0]), limits, es[1..], p))
  }

  predicate Behind(s: State, p: nat) { p < |s.ops| && s.ops[p].generation < s.generation }

  predicate ActiveBehind(s: State, p: nat) { s.active && s.publisher == p && Behind(s, p) }

  lemma BehindStays(s: State, limits: Limits, e: Event, p: nat)
    requires Enabled(s, e) && Behind(s, p)
    ensures Behind(Next(s, limits, e), p)
  {
    hide Called, CalledAll, Chained, Truthful, CleanupStep, SessionStep;
    match e
    case Call(kind) =>
      CallAdmits(s, kind);
      assert Called(s, kind).ops[p] == Called(s, kind).ops[..|s.ops|][p];
    case Resume(j, answer, calls) =>
      if IsCleanup(s.ops[j].kind) { BehindCleanup(s, j, answer, calls, p); } else { BehindSession(s, limits, j, answer, calls, p); }
    case _ =>
  }

  lemma BehindCalls(s: State, calls: seq<Kind>, p: nat)
    requires p < |s.ops|
    ensures var t := CalledAll(s, calls);
            |t.ops| >= |s.ops| && t.ops[p] == s.ops[p] && t.generation >= s.generation
  {
    hide CalledAll, Chained;
    CallsAdmit(s, calls);
    assert CalledAll(s, calls).ops[p] == CalledAll(s, calls).ops[..|s.ops|][p];
  }

  lemma BehindCleanup(s: State, j: nat, answer: Answer, calls: seq<Kind>, p: nat)
    requires j < |s.ops| && Behind(s, p)
    ensures Behind(CleanupStep(s, j, answer, calls), p)
  {
    hide CleanupSucceeds;
    var op := s.ops[j];
    if op.stage.Verifying? || op.stage.Fallback? || op.stage.Reverifying? {
      BehindSucceeds(s, j, op.stage.remoteFailed, calls, p);
    }
  }

  lemma BehindSucceeds(s: State, j: nat, remoteFailed: bool, calls: seq<Kind>, p: nat)
    requires j < |s.ops| && Behind(s, p)
    ensures Behind(CleanupSucceeds(s, j, remoteFailed, calls), p)
  {
    hide CalledAll;
    BehindCalls(s.(cleanup := Clean), calls, p);
    CallsGrow(s.(cleanup := Clean), calls);
  }

  lemma BehindSession(s: State, limits: Limits, j: nat, answer: Answer, calls: seq<Kind>, p: nat)
    requires j < |s.ops| && s.ops[j].stage.Running() && Behind(s, p)
    ensures Behind(SessionStep(s, limits, j, answer, calls), p)
  {
    hide CalledAll;
    BehindCalls(s.(active := true, publisher := j), if s.ops[j].kind.Restore? then [] else calls, p);
  }

  /** A session is active and behind only as before, or because of a late step. */
  lemma ActiveStep(s: State, limits: Limits, e: Event, p: nat)
    requires Inv(s) && Enabled(s, e) && ActiveBehind(Next(s, limits, e), p)
    ensures LateStep(s, e, p) || ActiveBehind(s, p)
  {
    hide Called, CalledAll, Chained, Truthful, InOrder, InPlace, Absent, CleanupStep, SessionStep;
    match e
    case Call(kind) =>
      CallAdmits(s, kind);
      assert Called(s, kind).ops[..|s.ops|] == s.ops;
    case Resume(j, answer, calls) =>
      if IsCleanup(s.ops[j].kind) { ActiveCleanup(s, j, answer, calls, p); } else { ActiveSession(s, limits, j, answer, calls, p); }
    case _ =>
  }

  lemma ActiveCalls(s: State, calls: seq<Kind>)
    ensures var t := CalledAll(s, calls);
            && t.publisher == s.publisher && |t.ops| >= |s.ops|
            && (t.active ==> s.active && t.generation == s.generation)
            && forall p :: 0 <= p < |s.ops| ==> t.ops[p] == s.ops[p]
  {
    hide CalledAll, Chained;
    CallsAdmit(s, calls);
    assert CalledAll(s, calls).ops[..|s.ops|] == s.ops;
  }

  lemma ActiveCleanup(s: State, j: nat, answer: Answer, calls: seq<Kind>, p: nat)
    requires Fresh(s) && j < |s.ops| && ActiveBehind(CleanupStep(s, j, answer, calls), p)
    ensures ActiveBehind(s, p)
  {
    hide CalledAll;
    ActiveCalls(s.(cleanup := Clean), calls);
  }

  lemma ActiveSession(s: State, limits: Limits, j: nat, answer: Answer, calls: seq<Kind>, p: nat)
    requires Fresh(s) && j < |s.ops| && s.ops[j].stage.Running()
    requires ActiveBehind(SessionStep(s, limits, j, answer, calls), p)
    ensures LateStep(s, Resume(j, answer, calls), p) || ActiveBehind(s, p)
  {
    hide CalledAll;
    ActiveCalls(s.(active := true, publisher := j), if s.ops[j].kind.Restore? then [] else calls);
    assert CalledAll(s.(active := true, publisher := j), []) == s.(active := true, publisher := j) by { NoCalls(s.(active := true, publisher := j)); }
  }

  lemma NoCalls(s: State)
    ensures CalledAll(s, []) == s
  {
  }

  lemma {:induction false} LateBehind(s: State, limits: Limits, es: seq<Event>, p: nat)
    requires Inv(s) && Possible(s, limits, es) && (Behind(s, p) || LateIn(s, limits, es, p))
    ensures Behind(Run(s, limits, es), p)
    decreases |es|
  {
    hide Next, Inv, Enabled;
    if es != [] {
      NextKeeps(s, limits, es[0]);
      if Behind(s, p) { BehindStays(s, limits, es[0], p); }
      LateBehind(Next(s, limits, es[0]), limits, es[1..], p);
    }
  }

  lemma {:induction false} ActiveLate(s: State, limits: Limits, es: seq<Event>, p: nat)
    requires Inv(s) && Possible(s, limits, es) && ActiveBehind(Run(s, limits, es), p)
    ensures LateIn(s, limits, es, p) || ActiveBehind(s, p)
    decreases |es|
  {
    hide Next, Inv, Enabled, ActiveBehind, LateStep;
    if es != [] {
      NextKeeps(s, limits, es[0]);
      ActiveLate(Next(s, limits, es[0]), limits, es[1..], p);
      if ActiveBehind(Next(s, limits, es[0]), p) { ActiveStep(s, limits, es[0], p); }
    }
  }

  /** An active session was earned in the current generation, so after a logout or cancel none is
      active until an operation admitted after it has ended with a session: except exactly when a
      restore that was overtaken after its last check has set it active. */
  lemma {:induction false} ActiveIsCurrent(token: bool, limits: Limits, es: seq<Event>)
    requires Possible(Initial(token), limits, es)
    ensures var t := Run(Initial(token), limits, es);
            t.active ==>
              && t.publisher < |t.ops| && t.ops[t.publisher].stage == Done(Session)
              && (t.ops[t.publisher].generation == t.generation <==> !LateIn(Initial(token), limits, es, t.publisher))
  {
    hide Run, Next, LateIn, Possible;
    RunKeeps(Initial(token), limits, es);
    var t := Run(Initial(token), limits, es);
    if t.active {
      if LateIn(Initial(token), limits, es, t.publisher) { LateBehind(Initial(token), limits, es, t.publisher); }
      if ActiveBehind(t, t.publisher) { ActiveLate(Initial(token), limits, es, t.publisher); }
    }
  }

  /** The exception is met: a restore has read the user and made its last check, a cancel comes,
      and then the restore ends with a session and leaves it active in a generation not its own. */
  lemma RestoreAfterCancel(limits: Limits) returns (es: seq<Event>)
    ensures Possible(Initial(true), limits, es)
    ensures var t := Run(Initial(true), limits, es);
            t.active && t.ops == [Op(Restore, 0, None, Done(Session), false), Op(Cancel, 1, Some(0), Waiting, false)] && t.generation == 1
  {
    var s, e := Called(Initial(true), Restore), Resume(0, Yes, []);
    var u, v := To(s, 0, TokenRead), To(s, 0, UserKept);
    var w := Called(v, Cancel);
    RestoreLate(limits, w);
    var late := [e];
    RunFirst(v, limits, Call(Cancel), late);
    RestoreReads(limits, s, u, v, [Call(Cancel)] + late);
    RunFirst(s, limits, Start(0), [e] + ([e] + ([Call(Cancel)] + late)));
    es := [Start(0)] + ([e] + ([e] + ([Call(Cancel)] + late)));
    RunFirst(Initial(true), limits, Call(Restore), es);
    es := [Call(Restore)] + es;
  }

  lemma RestoreReads(limits: Limits, s: State, u: State, v: State, es: seq<Event>)
    requires |s.ops| == 1 && s.ops[0].kind.Restore? && Current(s, 0)
    requires u == To(s, 0, TokenRead) && v == To(s, 0, UserKept) && Possible(v, limits, es)
    ensures var e := Resume(0, Yes, []);
            Possible(u, limits, [e] + ([e] + es)) && Run(u, limits, [e] + ([e] + es)) == Run(v, limits, es)
  {
    hide Possible, Run;
    var e := Resume(0, Yes, []);
    var m := To(s, 0, UserRead);
    assert Next(u, limits, e) == m && Next(m, limits, e) == v;
    RunFirst(m, limits, e, es);
    RunFirst(u, limits, e, [e] + es);
  }

  lemma RestoreLate(limits: Limits, w: State)
    requires |w.ops| > 0 && w.ops[0].kind.Restore? && w.ops[0].stage.UserKept?
    ensures var es := [Resume(0, Yes, [])];
            Possible(w, limits, es) && Run(w, limits, es) == To(w.(active := true, publisher := 0), 0, Done(Session))
  {
    hide Possible, Run;
    NoCalls(w.(active := true, publisher := 0));
    var none: seq<Event> := [];
    assert Possible(Next(w, limits, Resume(0, Yes, [])), limits, none) by { NoEvents(Next(w, limits, Resume(0, Yes, [])), limits); }
    NoEvents(Next(w, limits, Resume(0, Yes, [])), limits);
    RunFirst(w, limits, Resume(0, Yes, []), none);
    assert [Resume(0, Yes, [])] + none == [Resume(0, Yes, [])];
  }

  lemma NoEvents(s: State, limits: Limits)
    ensures Possible(s, limits, []) && Run(s, limits, []) == s
  {
  }

  // ---------- Logins that a second logout does not overtake ----------

  /** One answer to an awaiting operation, in front of a run from the state it leads to. */
  lemma Answers(s: State, limits: Limits, i: nat, answer: Answer, next: State, es: seq<Event>)
    requires Enabled(s, Resume(i, answer, [])) && Next(s, limits, Resume(i, answer, [])) == next && Possible(next, limits, es)
    ensures var all := [Resume(i, answer, [])] + es;
            Possible(s, limits, all) && Run(s, limits, all) == Run(next, limits, es)
  {
    hide Possible, Run, Next, Enabled;
    RunFirst(s, limits, Resume(i, answer, []), es);
  }

  /** The answers a login or refresh hopes for, where a login may be asked for a code or not. */
  predicate Hoped(stage: Stage, answer: Answer, next: Stage) {
    match stage
    case Email => answer.Yes? && next.EmailToken?
    case EmailToken => if answer.Yes? then next == MfaCode(1) else answer.No? && next == Password(1)
    case MfaCode(n) => answer.Yes? && next == MfaSubmit(n)
    case MfaSubmit(_) => answer.Yes? && next == Password(1)
    case Password(_) => answer.Yes? && next.TokenRead?
    case RefreshCall => answer.Yes? && next.TokenRead?
    case TokenRead => answer.Yes? && next.UserRead?
    case UserRead => answer.Yes? && next.UserKept?
    case _ => false
  }

  predicate Logs(kind: Kind) { kind.Login? || kind.Refresh? }

  lemma HopedStep(s: State, limits: Limits, i: nat, stage: Stage, answer: Answer, next: Stage)
    requires i < |s.ops| && Logs(s.ops[i].kind) && Current(s, i) && Hoped(stage, answer, next)
    ensures Enabled(To(s, i, stage), Resume(i, answer, []))
    ensures Next(To(s, i, stage), limits, Resume(i, answer, [])) == To(s, i, next)
  {
  }

  lemma HopedRun(s: State, limits: Limits, i: nat, stage: Stage, answer: Answer, next: Stage, es: seq<Event>)
    requires i < |s.ops| && Logs(s.ops[i].kind) && Current(s, i) && Hoped(stage, answer, next)
    requires Possible(To(s, i, next), limits, es)
    ensures var all := [Resume(i, answer, [])] + es;
            Possible(To(s, i, stage), limits, all) && Run(To(s, i, stage), limits, all) == Run(To(s, i, next), limits, es)
  {
    hide Possible, Run, Next, Enabled, To, Hoped, Current;
    HopedStep(s, limits, i, stage, answer, next);
    Answers(To(s, i, stage), limits, i, answer, To(s, i, next), es);
  }

  /** The state in which operation `i` has ended with a session. */
  function WithSession(s: State, i: nat): State
    requires i < |s.ops|
  {
    To(s.(active := true, publisher := i), i, Done(Session))
  }

  lemma SessionEnds(s: State, limits: Limits, i: nat)
    requires i < |s.ops| && Logs(s.ops[i].kind) && Current(s, i)
    ensures Enabled(To(s, i, UserKept), Resume(i, Yes, []))
    ensures Next(To(s, i, UserKept), limits, Resume(i, Yes, [])) == WithSession(s, i)
  {
    NoCalls(To(s, i, UserKept).(active := true, publisher := i));
  }

  lemma TokenRuns(s: State, limits: Limits, i: nat, es: seq<Event>) returns (all: seq<Event>)
    requires i < |s.ops| && Logs(s.ops[i].kind) && Current(s, i) && Possible(WithSession(s, i), limits, es)
    ensures Possible(To(s, i, TokenRead), limits, all) && Run(To(s, i, TokenRead), limits, all) == Run(WithSession(s, i), limits, es)
  {
    hide Possible, Run, Next, Enabled, To, Current, WithSession;
    SessionEnds(s, limits, i);
    Answers(To(s, i, UserKept), limits, i, Yes, WithSession(s, i), es);
    all := [Resume(i, Yes, [])] + es;
    HopedRun(s, limits, i, UserRead, Yes, UserKept, all);
    all := [Resume(i, Yes, [])] + all;
    HopedRun(s, limits, i, TokenRead, Yes, UserRead, all);
    all := [Resume(i, Yes, [])] + all;
  }

  /** A login all of whose answers are as hoped ends with a session, asked for a code or not. */
  lemma LoginRuns(s: State, limits: Limits, i: nat, code: bool, es: seq<Event>) returns (all: seq<Event>)
    requires i < |s.ops| && s.ops[i].kind.Login? && Current(s, i) && Possible(WithSession(s, i), limits, es)
    ensures Possible(To(s, i, Email), limits, all) && Run(To(s, i, Email), limits, all) == Run(WithSession(s, i), limits, es)
  {
    hide Possible, Run, Next, Enabled, To, Current, WithSession;
    all := TokenRuns(s, limits, i, es);
    HopedRun(s, limits, i, Password(1), Yes, TokenRead, all);
    all := [Resume(i, Yes, [])] + all;
    if code {
      HopedRun(s, limits, i, MfaSubmit(1), Yes, Password(1), all);
      all := [Resume(i, Yes, [])] + all;
      HopedRun(s, limits, i, MfaCode(1), Yes, MfaSubmit(1), all);
      all := [Resume(i, Yes, [])] + all;
      HopedRun(s, limits, i, EmailToken, Yes, MfaCode(1), all);
      all := [Resume(i, Yes, [])] + all;
    } else {
      HopedRun(s, limits, i, EmailToken, No, Password(1), all);
      all := [Resume(i, No, [])] + all;
    }
    HopedRun(s, limits, i, Email, Yes, EmailToken, all);
    all := [Resume(i, Yes, [])] + all;
  }

  lemma RefreshRuns(s: State, limits: Limits, i: nat, es: seq<Event>) returns (all: seq<Event>)
    requires i < |s.ops| && s.ops[i].kind.Refresh? && Current(s, i) && Possible(WithSession(s, i), limits, es)
    ensures Possible(To(s, i, RefreshCall), limits, all)
    ensures Run(To(s, i, RefreshCall), limits, all) == Run(WithSession(s, i), limits, es)
  {
    hide Possible, Run, Next, Enabled, To, Current, WithSession;
    all := TokenRuns(s, limits, i, es);
    HopedRun(s, limits, i, RefreshCall, Yes, TokenRead, all);
    all := [Resume(i, Yes, [])] + all;
  }

  /** A login that is asked for a code, and a refresh after it: both end with a session. */
  lemma RefreshAfterLogin(limits: Limits, code: bool) returns (es: seq<Event>)
    ensures Possible(Initial(false), limits, es)
    ensures var t := Run(Initial(false), limits, es);
            && t.active && |t.ops| == 2 && t.ops[0].kind == Login && t.ops[1].kind == Refresh
            && t.ops[0].stage == Done(Session) && t.ops[1].stage == Done(Session) && t.publisher == 1
  {
    hide Possible, Run;
    var login := Called(Initial(false), Login);
    var one := WithSession(login, 0);
    var refresh := Called(one, Refresh);
    NoEvents(WithSession(refresh, 1), limits);
    es := RefreshRuns(refresh, limits, 1, []);
    assert Enabled(refresh, Start(1)) && Next(refresh, limits, Start(1)) == To(refresh, 1, RefreshCall);
    RunFirst(refresh, limits, Start(1), es);
    es := [Start(1)] + es;
    RunFirst(one, limits, Call(Refresh), es);
    es := LoginRuns(login, limits, 0, code, [Call(Refresh)] + es);
    assert Enabled(login, Start(0)) && Next(login, limits, Start(0)) == To(login, 0, Email);
    RunFirst(login, limits, Start(0), es);
    es := [Start(0)] + es;
    RunFirst(Initial(false), limits, Call(Login), es);
    es := [Call(Login)] + es;
  }

  /** Where a logout stands when it awaits `stage`. */
  function LogoutAt(s: State, i: nat, stage: Stage): State
    requires i < |s.ops|
  {
    To(s.(cleanup := match stage case Deleting(_) => DeletingToken case Verifying(_, _) => VerifyingToken
                     case Fallback(_, _) => FallingBack case _ => Clean), i, stage)
  }

  lemma LogoutRevokes(s: State, limits: Limits, i: nat)
    requires i < |s.ops| && s.ops[i].kind.Logout?
    ensures Enabled(To(s, i, Revoke), Resume(i, Yes, []))
    ensures Next(To(s, i, Revoke), limits, Resume(i, Yes, [])) == LogoutAt(s, i, Deleting(false))
  {
    hide CleanupSucceeds, SessionStep;
  }

  lemma LogoutDeletes(s: State, limits: Limits, i: nat)
    requires i < |s.ops| && s.ops[i].kind.Logout? && !s.token
    ensures Enabled(LogoutAt(s, i, Deleting(false)), Resume(i, Yes, []))
    ensures Next(LogoutAt(s, i, Deleting(false)), limits, Resume(i, Yes, [])) == LogoutAt(s, i, Verifying(false, false))
  {
    hide CleanupSucceeds, SessionStep;
  }

  lemma LogoutEnds(s: State, limits: Limits, i: nat)
    requires i < |s.ops| && s.ops[i].kind.Logout? && !s.token
    ensures Enabled(LogoutAt(s, i, Verifying(false, false)), Resume(i, No, []))
    ensures Next(LogoutAt(s, i, Verifying(false, false)), limits, Resume(i, No, [])) == LogoutAt(s, i, Fallback(false, false))
    ensures Enabled(LogoutAt(s, i, Fallback(false, false)), Resume(i, Yes, []))
    ensures Next(LogoutAt(s, i, Fallback(false, false)), limits, Resume(i, Yes, [])) == LogoutAt(s, i, Done(Cleaned(false)))
  {
    NoCalls(LogoutAt(s, i, Fallback(false, false)).(cleanup := Clean));
  }

  /** A logout all of whose answers are as hoped ends without an error. */
  lemma LogoutRuns(s: State, limits: Limits, i: nat, es: seq<Event>) returns (all: seq<Event>)
    requires i < |s.ops| && s.ops[i].kind.Logout? && !s.token
    requires Possible(LogoutAt(s, i, Done(Cleaned(false))), limits, es)
    ensures Possible(To(s, i, Revoke), limits, all)
    ensures Run(To(s, i, Revoke), limits, all) == Run(LogoutAt(s, i, Done(Cleaned(false))), limits, es)
  {
    hide Possible, Run, Next, Enabled, To, LogoutAt;
    LogoutRevokes(s, limits, i);
    LogoutDeletes(s, limits, i);
    LogoutEnds(s, limits, i);
    Answers(LogoutAt(s, i, Fallback(false, false)), limits, i, Yes, LogoutAt(s, i, Done(Cleaned(false))), es);
    all := [Resume(i, Yes, [])] + es;
    Answers(LogoutAt(s, i, Verifying(false, false)), limits, i, No, LogoutAt(s, i, Fallback(false, false)), all);
    all := [Resume(i, No, [])] + all;
    Answers(LogoutAt(s, i, Deleting(false)), limits, i, Yes, LogoutAt(s, i, Verifying(false, false)), all);
    all := [Resume(i, Yes, [])] + all;
    Answers(To(s, i, Revoke), limits, i, Yes, LogoutAt(s, i, Deleting(false)), all);
    all := [Resume(i, Yes, [])] + all;
  }

  /** A login admitted while a logout waits, when a second logout has been called. */
  lemma SecondLogoutCalls(limits: Limits) returns (s: State)
    ensures var calls := [Call(Logout), Call(Login), Call(Logout)];
            Possible(Initial(false), limits, calls) && Run(Initial(false), limits, calls) == s
    ensures s == State(1, false, 0, Queued, [Op(Logout, 1, None, Waiting, false), Op(Login, 1, Some(0), Waiting, false)],
                       Some(1), Some(0), None, None, false, None)
  {
    hide Possible, Run;
    var one := Called(Initial(false), Logout);
    s := Called(one, Login);
    NoEvents(s, limits);
    RunFirst(s, limits, Call(Logout), []);
    RunFirst(one, limits, Call(Login), [Call(Logout)] + []);
    RunFirst(Initial(false), limits, Call(Logout), [Call(Login)] + ([Call(Logout)] + []));
    assert [Call(Logout)] + ([Call(Login)] + ([Call(Logout)] + [])) == [Call(Logout), Call(Login), Call(Logout)];
  }

  /** What a second logout does not do: a login is admitted while a logout waits, the second logout
      comes, and the login is not overtaken; it ends with a session, which stays active. */
  lemma SecondLogoutSpares(limits: Limits) returns (s: State, es: seq<Event>)
    ensures var calls := [Call(Logout), Call(Login), Call(Logout)];
            Possible(Initial(false), limits, calls) && Run(Initial(false), limits, calls) == s
    ensures |s.ops| == 2 && s.ops[1].kind.Login? && s.ops[1].stage.Waiting? && s.generation == 1 && !Overtaken(s, 1)
    ensures Possible(s, limits, es) && var t := Run(s, limits, es); |t.ops| == 2 && t.active && t.ops[1].stage == Done(Session)
  {
    hide Possible, Run;
    s := SecondLogoutCalls(limits);
    var clean := LogoutAt(s, 0, Done(Cleaned(false)));
    NoEvents(WithSession(clean, 1), limits);
    es := LoginRuns(clean, limits, 1, false, []);
    assert Enabled(clean, Start(1)) && Next(clean, limits, Start(1)) == To(clean, 1, Email);
    RunFirst(clean, limits, Start(1), es);
    es := LogoutRuns(s, limits, 0, [Start(1)] + es);
    assert Enabled(s, Start(0)) && Next(s, limits, Start(0)) == To(s, 0, Revoke);
    RunFirst(s, limits, Start(0), es);
    es := [Start(0)] + es;
  }

  // ---------- Bounded retries ----------

  /** As the constructor demands of both. */
  predicate Positive(limits: Limits) { limits.mfa > 0 && limits.password > 0 }

  /** Which answered awaits are counted: all of one operation's, the codes it submits, or the
      passwords it submits. */
  datatype Await = AnyAwait | MfaAwait | PasswordAwait

  predicate Counts(what: Await, stage: Stage) {
    match what case AnyAwait => true case MfaAwait => stage.MfaSubmit? case PasswordAwait => stage.Password?
  }

  /** How many awaits of a kind an operation can still have answered when it is at `stage`. */
  function Left(what: Await, limits: Limits, kind: Kind, stage: Stage): int {
    match what
    case AnyAwait => AllLeft(limits, kind, stage)
    case MfaAwait => MfaLeft(limits, kind, stage)
    case PasswordAwait => PasswordLeft(limits, kind, stage)
  }

  function MfaLeft(limits: Limits, kind: Kind, stage: Stage): int {
    match stage
    case Waiting => if kind.Login? then limits.mfa else 0
    case Email => limits.mfa
    case EmailToken => limits.mfa
    case MfaCode(n) => limits.mfa - n + 1
    case MfaSubmit(n) => limits.mfa - n + 1
    case _ => 0
  }

  function PasswordLeft(limits: Limits, kind: Kind, stage: Stage): int {
    match stage
    case Waiting => if kind.Login? then limits.password else 0
    case Password(n) => limits.password - n + 1
    case PasswordSupply(n) => limits.password - n
    case _ => if stage.Email? || stage.EmailToken? || stage.MfaCode? || stage.MfaSubmit? then limits.password else 0
  }

  function AllLeft(limits: Limits, kind: Kind, stage: Stage): int {
    match stage
    case Waiting =>
      (match kind
       case Login => 2 * limits.mfa + 2 * limits.password + 6
       case Refresh => 6
       case Restore => 5
       case Logout => 5
       case Cancel => 4)
    case Email => 2 * limits.mfa + 2 * limits.password + 6
    case EmailToken => 2 * limits.mfa + 2 * limits.password + 5
    case MfaCode(n) => 2 * (limits.mfa - n) + 2 * limits.password + 6
    case MfaSubmit(n) => 2 * (limits.mfa - n) + 2 * limits.password + 5
    case Password(n) => 2 * (limits.password - n) + 6
    case PasswordSupply(n) => 2 * (limits.password - n) + 5
    case RefreshCall => 6
    case TokenRead => 5
    case UserRead => 4
    case UserKept => 3
    case Failing => 2
    case Rollback => 1
    case Revoke => 5
    case Deleting(_) => 4
    case Verifying(_, _) => 3
    case Fallback(_, _) => 2
    case Reverifying(_, _) => 1
    case Done(_) => 0
  }

  /** No retry loop has gone past its limit. */
  predicate WithinStage(limits: Limits, stage: Stage) {
    match stage
    case MfaCode(n) => 1 <= n <= limits.mfa
    case MfaSubmit(n) => 1 <= n <= limits.mfa
    case Password(n) => 1 <= n <= limits.password
    case PasswordSupply(n) => 1 <= n < limits.password
    case _ => true
  }

  predicate Within(s: State, limits: Limits) {
    forall i :: 0 <= i < |s.ops| ==> WithinStage(limits, s.ops[i].stage)
  }

  /** Where an answered await leads. */
  predicate Leads(limits: Limits, stage: Stage, next: Stage) {
    || next.Done?
    || (next.Failing? && !IsCleanupStage(stage) && !stage.Failing? && !stage.Rollback?)
    || (Follows(stage, next) && (next.MfaCode? && stage.MfaSubmit? ==> stage.attempt < limits.mfa)
        && (next.PasswordSupply? ==> stage.Password? && stage.attempt < limits.password))
    || (match stage
        case Revoke => next.Deleting?
        case Deleting(_) => next.Verifying?
        case Verifying(_, _) => next.Fallback?
        case Fallback(_, _) => next.Reverifying?
        case _ => false)
  }

  lemma LeadsWithin(limits: Limits, stage: Stage, next: Stage)
    requires Positive(limits) && WithinStage(limits, stage) && stage.Running() && Leads(limits, stage, next)
    ensures WithinStage(limits, next)
  {
  }

  lemma LeadsDown(what: Await, limits: Limits, kind: Kind, stage: Stage, next: Stage)
    requires Positive(limits) && WithinStage(limits, stage) && stage.Running() && Leads(limits, stage, next)
    ensures Left(what, limits, kind, next) + (if Counts(what, stage) then 1 else 0) <= Left(what, limits, kind, stage)
  {
  }

  lemma LeftStarts(what: Await, limits: Limits, kind: Kind, stage: Stage)
    requires Positive(limits) && WithinStage(limits, stage)
    ensures Left(what, limits, kind, stage) >= 0
    ensures !stage.Done? ==> AllLeft(limits, kind, stage) > 0
  {
  }

  /** No operation but `j` has moved, and those admitted meanwhile wait. */
  predicate OnlyMoves(s: State, t: State, j: nat) {
    && |t.ops| >= |s.ops|
    && (forall x :: 0 <= x < |s.ops| ==>
          && t.ops[x].kind == s.ops[x].kind && t.ops[x].generation == s.ops[x].generation
          && (x != j ==> t.ops[x].stage == s.ops[x].stage))
    && forall x :: |s.ops| <= x < |t.ops| ==> t.ops[x].stage.Waiting?
  }

  lemma CallsOnlyMove(s: State, t: State, j: nat)
    requires Admits(s, t)
    ensures OnlyMoves(s, t, j) && forall x :: 0 <= x < |s.ops| ==> t.ops[x] == s.ops[x]
  {
    hide Chained;
    assert forall x :: 0 <= x < |s.ops| ==> t.ops[x] == t.ops[..|s.ops|][x];
  }

  lemma SucceedsLeads(s: State, i: nat, remoteFailed: bool, calls: seq<Kind>)
    requires i < |s.ops|
    ensures var t := CleanupSucceeds(s, i, remoteFailed, calls); OnlyMoves(s, t, i) && t.ops[i].stage.Done?
  {
    hide CalledAll;
    var clean := s.(cleanup := Clean);
    CallsAdmit(clean, calls);
    CallsOnlyMove(clean, CalledAll(clean, calls), i);
  }

  lemma ToMoves(s: State, u: State, i: nat, stage: Stage)
    requires u.ops == s.ops && i < |s.ops|
    ensures var t := To(u, i, stage); |t.ops| == |s.ops| && OnlyMoves(s, t, i) && t.ops[i].stage == stage
  {
  }

  lemma CleanupLeads(s: State, limits: Limits, i: nat, answer: Answer, calls: seq<Kind>)
    requires i < |s.ops| && IsCleanupStage(s.ops[i].stage)
    ensures var t := CleanupStep(s, i, answer, calls); OnlyMoves(s, t, i) && Leads(limits, s.ops[i].stage, t.ops[i].stage)
  {
    hide CleanupSucceeds, OnlyMoves, To;
    ToMoves(s, s.(cleanup := Blocked), i, Done(CleanupFailed));
    match s.ops[i].stage
    case Revoke => ToMoves(s, s.(cleanup := DeletingToken), i, Deleting(answer.Throws?));
    case Deleting(r) =>
      ToMoves(s, (if answer.Yes? then s.(token := false) else s).(cleanup := VerifyingToken), i, Verifying(r, !answer.Yes?));
    case Verifying(r, deleteFailed) =>
      SucceedsLeads(s, i, r, calls);
      ToMoves(s, s.(cleanup := FallingBack), i, Fallback(r, deleteFailed || !answer.No?));
    case Fallback(r, needed) =>
      SucceedsLeads(s, i, r, calls);
      ToMoves(s, s.(cleanup := VerifyingToken), i, Reverifying(r, answer.Throws?));
    case Reverifying(r, _) => SucceedsLeads(s, i, r, calls);
    case _ =>
  }

  lemma PublishedLeads(s: State, i: nat, calls: seq<Kind>)
    requires i < |s.ops|
    ensures var t := Published(s, i, calls); OnlyMoves(s, t, i) && t.ops[i].stage.Done?
  {
    hide CalledAll;
    var a := s.(active := true, publisher := i);
    CallsAdmit(a, calls);
    CallsOnlyMove(a, CalledAll(a, calls), i);
  }

  lemma ContinuedLeads(limits: Limits, op: Op, answer: Answer)
    requires op.stage.Running() && !IsCleanupStage(op.stage) && !op.stage.Rollback?
    ensures Leads(limits, op.stage, Continued(limits, op, answer))
  {
  }

  lemma SessionLeads(s: State, limits: Limits, i: nat, answer: Answer, calls: seq<Kind>)
    requires i < |s.ops| && s.ops[i].stage.Running() && !IsCleanupStage(s.ops[i].stage)
    ensures var t := SessionStep(s, limits, i, answer, calls); OnlyMoves(s, t, i) && Leads(limits, s.ops[i].stage, t.ops[i].stage)
  {
    hide Published, OnlyMoves, To, Continued;
    if !s.ops[i].stage.Rollback? { ContinuedLeads(limits, s.ops[i], answer); }
    ToMoves(s, s, i, Done(Failed));
    ToMoves(s, s, i, Continued(limits, s.ops[i], answer));
    PublishedLeads(s, i, if s.ops[i].kind.Restore? then [] else calls);
    ToMoves(s, s.(token := false), i, Done(Failed));
  }

  /** An answered await moves its own operation on, within the limits; nothing else moves one but its
      start, and what is admitted waits. */
  lemma NextLeads(s: State, limits: Limits, e: Event, i: nat)
    requires InPlace(s) && Enabled(s, e) && i < |s.ops|
    ensures var t := Next(s, limits, e);
            && |t.ops| >= |s.ops| && t.ops[i].kind == s.ops[i].kind && t.ops[i].generation == s.ops[i].generation
            && (forall x :: |s.ops| <= x < |t.ops| ==> t.ops[x].stage.Waiting?)
            && if e.Resume? && e.i == i then Leads(limits, s.ops[i].stage, t.ops[i].stage)
               else if e.Start? && e.i == i then t.ops[i].stage == StartStage(s, i)
               else t.ops[i].stage == s.ops[i].stage
  {
    hide Called, CleanupStep, SessionStep, Chained, Truthful, Leads, CalledAll;
    match e
    case Call(kind) =>
      CallAdmits(s, kind);
      CallsOnlyMove(s, Called(s, kind), i);
    case Resume(j, answer, calls) =>
      if IsCleanup(s.ops[j].kind) { CleanupLeads(s, limits, j, answer, calls); } else { SessionLeads(s, limits, j, answer, calls); }
    case _ =>
  }

  /** Where an operation goes when its turn comes. */
  function StartStage(s: State, i: nat): Stage
    requires i < |s.ops|
  {
    match s.ops[i].kind
    case Login => if !Current(s, i) || s.cleanup.Blocked? then Done(Failed) else Email
    case Refresh => if !Current(s, i) || s.cleanup.Blocked? then Done(Failed) else RefreshCall
    case Restore => if !Current(s, i) then Done(Failed) else TokenRead
    case Logout => Revoke
    case Cancel => Deleting(false)
  }

  // ---------- Every operation ends ----------

  /** The answers to awaits of this kind that operation `i` is given in a run. */
  ghost function Answered(what: Await, s: State, limits: Limits, es: seq<Event>, i: nat): nat
    requires Possible(s, limits, es)
    decreases |es|
  {
    if es == [] then 0
    else
      (if es[0].Resume? && es[0].i == i && Counts(what, s.ops[i].stage) then 1 else 0)
      + Answered(what, Next(s, limits, es[0]), limits, es[1..], i)
  }

  lemma NextWithin(s: State, limits: Limits, e: Event)
    requires Positive(limits) && InPlace(s) && Enabled(s, e) && Within(s, limits)
    ensures Within(Next(s, limits, e), limits)
  {
    hide Next, InPlace, Enabled, Leads, WithinStage;
    var t := Next(s, limits, e);
    forall x | 0 <= x < |t.ops| ensures WithinStage(limits, t.ops[x].stage) {
      StageWithin(s, limits, e, x);
    }
  }

  lemma StageWithin(s: State, limits: Limits, e: Event, i: nat)
    requires Positive(limits) && InPlace(s) && Enabled(s, e) && Within(s, limits) && i < |Next(s, limits, e).ops|
    ensures WithinStage(limits, Next(s, limits, e).ops[i].stage)
  {
    hide Next, InPlace, Leads;
    if i < |s.ops| {
      NextLeads(s, limits, e, i);
      if e.Resume? && e.i == i { LeadsWithin(limits, s.ops[i].stage, Next(s, limits, e).ops[i].stage); }
    } else {
      NextAdmits(s, limits, e, i);
    }
  }

  lemma NextAdmits(s: State, limits: Limits, e: Event, i: nat)
    requires InPlace(s) && Enabled(s, e) && |s.ops| <= i < |Next(s, limits, e).ops|
    ensures Next(s, limits, e).ops[i].stage.Waiting?
  {
    hide Next, InPlace;
    if s.ops != [] { NextLeads(s, limits, e, 0); } else { FirstWaits(s, limits, e); }
  }

  lemma FirstWaits(s: State, limits: Limits, e: Event)
    requires Enabled(s, e) && s.ops == []
    ensures forall x :: 0 <= x < |Next(s, limits, e).ops| ==> Next(s, limits, e).ops[x].stage.Waiting?
  {
    hide Called;
    if e.Call? { CallAdmits(s, e.kind); }
  }

  /** A step uses up one answer that is left, if it is one, and gives none back. */
  lemma StepDown(what: Await, s: State, limits: Limits, e: Event, i: nat)
    requires Positive(limits) && InPlace(s) && Enabled(s, e) && Within(s, limits) && i < |s.ops|
    ensures var t := Next(s, limits, e);
            && i < |t.ops| && t.ops[i].kind == s.ops[i].kind
            && Left(what, limits, t.ops[i].kind, t.ops[i].stage)
               + (if e.Resume? && e.i == i && Counts(what, s.ops[i].stage) then 1 else 0)
               <= Left(what, limits, s.ops[i].kind, s.ops[i].stage)
  {
    hide Next, InPlace, Leads, Left, Counts;
    NextLeads(s, limits, e, i);
    var op := s.ops[i];
    if e.Resume? && e.i == i { LeadsDown(what, limits, op.kind, op.stage, Next(s, limits, e).ops[i].stage); }
    if e.Start? && e.i == i { StartsDown(what, s, limits, i); }
  }

  lemma StartsDown(what: Await, s: State, limits: Limits, i: nat)
    requires Positive(limits) && i < |s.ops| && s.ops[i].stage.Waiting?
    ensures Left(what, limits, s.ops[i].kind, StartStage(s, i)) <= Left(what, limits, s.ops[i].kind, Waiting)
  {
  }

  lemma {:induction false} RunDown(what: Await, s: State, limits: Limits, es: seq<Event>, i: nat)
    requires Positive(limits) && Inv(s) && Within(s, limits) && Possible(s, limits, es) && i < |Run(s, limits, es).ops|
    ensures var op := Run(s, limits, es).ops[i];
            Answered(what, s, limits, es, i) + Left(what, limits, op.kind, op.stage)
            <= Left(what, limits, op.kind, if i < |s.ops| then s.ops[i].stage else Waiting)
    ensures i < |s.ops| ==> Run(s, limits, es).ops[i].kind == s.ops[i].kind
    ensures WithinStage(limits, Run(s, limits, es).ops[i].stage)
    decreases |es|
  {
    hide Next, Inv, Within, Enabled, Left, Counts, WithinStage, Positive;
    if es == [] {
      assert WithinStage(limits, s.ops[i].stage) by { AllWithin(s, limits, i); }
    } else {
      var t := Next(s, limits, es[0]);
      NextKeeps(s, limits, es[0]);
      assert InPlace(s) by { PlaceOf(s); }
      NextWithin(s, limits, es[0]);
      RunDown(what, t, limits, es[1..], i);
      if i < |s.ops| {
        StepDown(what, s, limits, es[0], i);
      } else {
        NotYet(s, es[0], i);
        if i < |t.ops| { NextAdmits(s, limits, es[0], i); }
      }
    }
  }

  lemma AllWithin(s: State, limits: Limits, i: nat)
    requires Within(s, limits) && i < |s.ops|
    ensures WithinStage(limits, s.ops[i].stage)
  {
  }

  lemma PlaceOf(s: State)
    requires Inv(s)
    ensures InPlace(s)
  {
  }

  lemma NotYet(s: State, e: Event, i: nat)
    requires Enabled(s, e) && i >= |s.ops|
    ensures !(e.Resume? && e.i == i)
  {
  }

  /** The retry loops keep within their limits, and an operation whose awaits are answered ends: in
      every run it submits at most as many codes and passwords as the limits say; and all in all it
      is answered at most the stated number of times, by the last of which it has ended. */
  lemma {:induction false} RetriesBounded(token: bool, limits: Limits, es: seq<Event>, i: nat)
    requires Positive(limits) && Possible(Initial(token), limits, es) && i < |Run(Initial(token), limits, es).ops|
    ensures var s, op := Initial(token), Run(Initial(token), limits, es).ops[i];
            && WithinStage(limits, op.stage)
            && Answered(MfaAwait, s, limits, es, i) <= (if op.kind.Login? then limits.mfa else 0)
            && Answered(PasswordAwait, s, limits, es, i) <= (if op.kind.Login? then limits.password else 0)
            && Answered(AnyAwait, s, limits, es, i) <= AllLeft(limits, op.kind, Waiting)
            && (!op.stage.Done? ==> Answered(AnyAwait, s, limits, es, i) < AllLeft(limits, op.kind, Waiting))
  {
    hide Run, Possible, Answered, WithinStage, AllLeft;
    RunDown(MfaAwait, Initial(token), limits, es, i);
    RunDown(PasswordAwait, Initial(token), limits, es, i);
    RunDown(AnyAwait, Initial(token), limits, es, i);
    var op := Run(Initial(token), limits, es).ops[i];
    LeftStarts(MfaAwait, limits, op.kind, op.stage);
    LeftStarts(PasswordAwait, limits, op.kind, op.stage);
    LeftStarts(AnyAwait, limits, op.kind, op.stage);
  }

  /** The queue never stalls: as long as an operation has not ended, one can start or has an await
      that can be answered. */
  lemma {:induction false} NeverStalls(token: bool, limits: Limits, es: seq<Event>, i: nat)
    requires Possible(Initial(token), limits, es)
    requires var t := Run(Initial(token), limits, es); i < |t.ops| && !t.ops[i].stage.Done?
    ensures var t := Run(Initial(token), limits, es);
            exists k: nat :: k <= i && (Enabled(t, Start(k)) || Enabled(t, Resume(k, Throws, [])))
  {
    hide Run, Next, Possible;
    RunKeeps(Initial(token), limits, es);
    FirstMoves(Run(Initial(token), limits, es), i);
  }

  lemma FirstMoves(s: State, i: nat)
    requires Inv(s) && i < |s.ops| && !s.ops[i].stage.Done?
    ensures exists k: nat :: k <= i && (Enabled(s, Start(k)) || Enabled(s, Resume(k, Throws, [])))
  {
    hide InPlace, Absent, Fresh, InOrder;
    if i > 0 && !s.ops[i - 1].stage.Done? {
      FirstMoves(s, i - 1);
    } else {
      assert s.ops[i].previous == Before(i);
      assert Enabled(s, Start(i)) || Enabled(s, Resume(i, Throws, []));
    }
  }

  // ---------- Logins that fail ----------

  /** The answers that operation `i` is given to the deletes it awaits in a run. */
  ghost function Deletes(s: State, limits: Limits, es: seq<Event>, i: nat): seq<Answer>
    requires Possible(s, limits, es)
    decreases |es|
  {
    if es == [] then []
    else
      (if es[0].Resume? && es[0].i == i && s.ops[i].stage.Rollback? then [es[0].answer] else [])
      + Deletes(Next(s, limits, es[0]), limits, es[1..], i)
  }

  /** A login fails in its own generation only by the answer to a delete, and a delete that is
      answered with success leaves no token. */
  lemma FailsByDelete(s: State, limits: Limits, e: Event, i: nat)
    requires InPlace(s) && Enabled(s, e) && i < |s.ops| && s.ops[i].kind.Login? && s.ops[i].stage.Running()
    requires var t := Next(s, limits, e); |t.ops| > i && t.ops[i].stage == Done(Failed) && s.ops[i].generation == t.generation
    ensures e.Resume? && e.i == i && s.ops[i].stage.Rollback?
    ensures Next(s, limits, e).token == (s.token && !e.answer.Yes?)
  {
    NextLeads(s, limits, e, i);
    assert e.Resume? && e.i == i;
    PublishedFails(s, i, e.calls);
    hide CleanupStep, Published, Called, CalledAll, Truthful, Leads;
  }

  lemma PublishedFails(s: State, i: nat, calls: seq<Kind>)
    requires i < |s.ops| && !s.ops[i].kind.Restore?
    ensures var t := Published(s, i, calls); t.ops[i].stage == Done(Failed) ==> s.ops[i].generation != t.generation
  {
    hide CalledAll;
    var a := s.(active := true, publisher := i);
    CallsAdmit(a, calls);
    CallsOnlyMove(a, CalledAll(a, calls), i);
  }

  /** A delete is awaited only in the operation's own generation, and answering it ends it. */
  lemma DeleteStep(s: State, limits: Limits, e: Event, i: nat)
    requires InPlace(s) && Enabled(s, e) && i < |s.ops| && s.ops[i].kind.Login?
    ensures var t := Next(s, limits, e);
            && i < |t.ops| && t.ops[i].kind.Login?
            && (s.ops[i].stage.Done? ==> t.ops[i].stage == s.ops[i].stage)
            && (s.ops[i].stage.Rollback? ==> t.ops[i].stage.Rollback? || (t.ops[i].stage == Done(Failed) && e.Resume? && e.i == i))
            && (!s.ops[i].stage.Rollback? && t.ops[i].stage.Rollback? ==> s.ops[i].generation == s.generation)
  {
    NextLeads(s, limits, e, i);
    if e.Resume? && e.i == i {
      PublishedLeads(s, i, e.calls);
    }
    hide CleanupStep, Published, Called, CalledAll, Truthful, Leads;
  }

  /** A run awaits at most one delete for a login, which has then failed. */
  lemma {:induction false} DeletesRun(s: State, limits: Limits, es: seq<Event>, i: nat)
    requires Inv(s) && Possible(s, limits, es) && i < |Run(s, limits, es).ops| && Run(s, limits, es).ops[i].kind.Login?
    ensures i < |s.ops| ==> s.ops[i].kind.Login?
    ensures i < |s.ops| && s.ops[i].stage.Done? ==> Deletes(s, limits, es, i) == [] && Run(s, limits, es).ops[i].stage == s.ops[i].stage
    ensures |Deletes(s, limits, es, i)| <= 1
    ensures Deletes(s, limits, es, i) != [] ==> Run(s, limits, es).ops[i].stage == Done(Failed)
    decreases |es|
  {
    hide Next, Inv, Enabled;
    if es != [] {
      NextKeeps(s, limits, es[0]);
      PlaceOf(s);
      DeletesRun(Next(s, limits, es[0]), limits, es[1..], i);
      if i < |s.ops| {
        NextLeads(s, limits, es[0], i);
        DeleteStep(s, limits, es[0], i);
        if es[0].Resume? && es[0].i == i && s.ops[i].stage.Done? { EndedRests(s, es[0]); }
        if es[0].Resume? && es[0].i == i && s.ops[i].stage.Rollback? { DeleteEnds(s, limits, es[0]); }
      } else {
        NotYet(s, es[0], i);
      }
    }
  }

  lemma EndedRests(s: State, e: Event)
    requires Enabled(s, e) && e.Resume?
    ensures !s.ops[e.i].stage.Done?
  {
  }

  lemma DeleteEnds(s: State, limits: Limits, e: Event)
    requires InPlace(s) && Enabled(s, e) && e.Resume? && s.ops[e.i].stage.Rollback?
    ensures Next(s, limits, e).ops[e.i].stage == Done(Failed)
  {
    hide CalledAll, CleanupStep;
  }

  /** A login that is overtaken before it awaits a delete awaits none. */
  lemma {:induction false} OvertakenDeletesNone(s: State, limits: Limits, es: seq<Event>, i: nat)
    requires Inv(s) && Possible(s, limits, es) && Behind(s, i) && s.ops[i].kind.Login? && !s.ops[i].stage.Rollback?
    ensures Deletes(s, limits, es, i) == []
    decreases |es|
  {
    hide Next, Inv, Enabled;
    if es != [] {
      NextKeeps(s, limits, es[0]);
      PlaceOf(s);
      DeleteStep(s, limits, es[0], i);
      BehindStays(s, limits, es[0], i);
      OvertakenDeletesNone(Next(s, limits, es[0]), limits, es[1..], i);
    }
  }

  lemma {:induction false} RunLast(s: State, limits: Limits, es: seq<Event>, e: Event, i: nat)
    requires Possible(s, limits, es) && Enabled(Run(s, limits, es), e)
    ensures Possible(s, limits, es + [e]) && Run(s, limits, es + [e]) == Next(Run(s, limits, es), limits, e)
    ensures Deletes(s, limits, es + [e], i) == Deletes(s, limits, es, i) + Deletes(Run(s, limits, es), limits, [e], i)
    decreases |es|
  {
    hide Next, Enabled;
    if es == [] {
      assert [] + [e] == [e];
      assert [e][1..] == [];
    } else {
      assert (es + [e])[1..] == es[1..] + [e];
      RunLast(Next(s, limits, es[0]), limits, es[1..], e, i);
    }
  }

  /** A failed login takes back its token: when a login that has begun ends with a failure in its own
      generation, it has awaited exactly one delete, and if that succeeded the token is absent. */
  lemma {:induction false} FailedLoginRollsBack(token: bool, limits: Limits, es: seq<Event>, e: Event, i: nat)
    requires Possible(Initial(token), limits, es) && Enabled(Run(Initial(token), limits, es), e)
    requires var s := Run(Initial(token), limits, es);
             var t := Next(s, limits, e);
             && i < |s.ops| && s.ops[i].kind.Login? && s.ops[i].stage.Running()
             && i < |t.ops| && t.ops[i].stage == Done(Failed) && t.ops[i].generation == t.generation
    ensures Possible(Initial(token), limits, es + [e])
    ensures var ds := Deletes(Initial(token), limits, es + [e], i);
            |ds| == 1 && (ds[0].Yes? ==> !Run(Initial(token), limits, es + [e]).token)
  {
    var s := Run(Initial(token), limits, es);
    RunKeeps(Initial(token), limits, es);
    DeletesRun(Initial(token), limits, es, i);
    PlaceOf(s);
    RunLast(Initial(token), limits, es, e, i);
    hide Run, Possible, Next, Inv, Deletes;
    NextLeads(s, limits, e, i);
    FailsByDelete(s, limits, e, i);
    OneDelete(s, limits, e, i);
  }

  lemma OneDelete(s: State, limits: Limits, e: Event, i: nat)
    requires Enabled(s, e) && e.Resume? && e.i == i && s.ops[i].stage.Rollback?
    ensures Possible(s, limits, [e]) && Deletes(s, limits, [e], i) == [e.answer]
  {
    hide Next;
    assert [e][1..] == [];
  }

  // ---------- What a session takes ----------

  /** What has to go well on the way to a session: a code accepted or none asked for, a password
      accepted, a token refreshed, a token found, and a user found. */
  datatype Merit = CodeMerit | PasswordMerit | RefreshMerit | TokenMerit | UserMerit

  predicate Gains(what: Merit, stage: Stage, answer: Answer) {
    match what
    case CodeMerit => (stage.MfaSubmit? && answer.Yes?) || (stage.EmailToken? && answer.No?)
    case PasswordMerit => stage.Password? && answer.Yes?
    case RefreshMerit => stage.RefreshCall? && answer.Yes?
    case TokenMerit => stage.TokenRead? && answer.Yes?
    case UserMerit => stage.UserRead? && answer.Yes?
  }

  ghost predicate Gained(what: Merit, s: State, limits: Limits, es: seq<Event>, i: nat)
    requires Possible(s, limits, es)
    decreases |es|
  {
    es != []
    && ((es[0].Resume? && es[0].i == i && Gains(what, s.ops[i].stage, es[0].answer))
        || Gained(what, Next(s, limits, es[0]), limits, es[1..], i))
  }

  /** Stages of a login that no refresh comes to. */
  predicate LoginOnly(stage: Stage) {
    stage.Email? || stage.EmailToken? || stage.MfaCode? || stage.MfaSubmit? || stage.Password? || stage.PasswordSupply?
  }

  /** Where an operation of this kind is only with this merit, if ever. */
  predicate Takes(what: Merit, kind: Kind, stage: Stage) {
    var late := stage.UserKept? || stage == Done(Session);
    var ready := stage.TokenRead? || stage.UserRead? || late;
    match what
    case CodeMerit => kind.Login? && (stage.Password? || stage.PasswordSupply? || stage.RefreshCall? || ready)
    case PasswordMerit => kind.Login? && (stage.RefreshCall? || ready)
    case RefreshMerit => kind.Refresh? && (LoginOnly(stage) || ready)
    case TokenMerit => stage.UserRead? || late
    case UserMerit => late
  }

  lemma GainStep(what: Merit, s: State, limits: Limits, e: Event, i: nat)
    requires InPlace(s) && Enabled(s, e) && i < |s.ops|
    requires var t := Next(s, limits, e); i < |t.ops| && Takes(what, t.ops[i].kind, t.ops[i].stage)
    requires !(e.Resume? && e.i == i && Gains(what, s.ops[i].stage, e.answer))
    ensures Takes(what, s.ops[i].kind, s.ops[i].stage)
  {
    NextLeads(s, limits, e, i);
    if e.Resume? && e.i == i {
      if IsCleanup(s.ops[i].kind) { CleanupTakes(s, i, e.answer, e.calls); } else { SessionTakes(what, s, limits, i, e.answer, e.calls); }
    }
    hide Next, Leads, Called, CalledAll, CleanupStep, SessionStep, Truthful;
    assert e.Start? || e.Resume? || Takes(what, s.ops[i].kind, s.ops[i].stage);
  }

  lemma CleanupTakes(s: State, i: nat, answer: Answer, calls: seq<Kind>)
    requires i < |s.ops| && IsCleanupStage(s.ops[i].stage)
    ensures var t := CleanupStep(s, i, answer, calls);
            i < |t.ops| && (IsCleanupStage(t.ops[i].stage) || (t.ops[i].stage.Done? && !t.ops[i].stage.result.Session?))
  {
    hide CleanupSucceeds;
    var stage := s.ops[i].stage;
    if stage.Verifying? || stage.Fallback? || stage.Reverifying? { SucceedsCleans(s, i, stage.remoteFailed, calls); }
  }

  lemma SucceedsCleans(s: State, i: nat, remoteFailed: bool, calls: seq<Kind>)
    requires i < |s.ops|
    ensures var t := CleanupSucceeds(s, i, remoteFailed, calls); i < |t.ops| && t.ops[i].stage == Done(Cleaned(remoteFailed))
  {
    hide CalledAll;
    CallsGrow(s.(cleanup := Clean), calls);
  }

  lemma SessionTakes(what: Merit, s: State, limits: Limits, i: nat, answer: Answer, calls: seq<Kind>)
    requires i < |s.ops| && s.ops[i].stage.Running() && !IsCleanupStage(s.ops[i].stage)
    requires var t := SessionStep(s, limits, i, answer, calls);
             i < |t.ops| && Takes(what, s.ops[i].kind, t.ops[i].stage) && !Gains(what, s.ops[i].stage, answer)
    ensures Takes(what, s.ops[i].kind, s.ops[i].stage)
  {
    hide Published;
  }

  lemma {:induction false} GainRun(what: Merit, s: State, limits: Limits, es: seq<Event>, i: nat)
    requires Inv(s) && Possible(s, limits, es) && i < |Run(s, limits, es).ops|
    requires var op := Run(s, limits, es).ops[i]; Takes(what, op.kind, op.stage)
    ensures Gained(what, s, limits, es, i) || (i < |s.ops| && Takes(what, s.ops[i].kind, s.ops[i].stage))
    decreases |es|
  {
    hide Next, Inv, Enabled, Takes, Gains;
    if es != [] {
      var t := Next(s, limits, es[0]);
      NextKeeps(s, limits, es[0]);
      PlaceOf(s);
      GainRun(what, t, limits, es[1..], i);
      if !Gained(what, s, limits, es, i) {
        if i < |s.ops| { GainStep(what, s, limits, es[0], i); } else { NextAdmits(s, limits, es[0], i); WaitsFree(what, t, i); }
      }
    }
  }

  lemma WaitsFree(what: Merit, s: State, i: nat)
    requires i < |s.ops| && s.ops[i].stage.Waiting?
    ensures !Takes(what, s.ops[i].kind, s.ops[i].stage)
  {
  }

  /** A session is earned: in every run, an operation that has ended with one has found a token and a
      user; a refresh has renewed the token; and a login has had its password accepted and, unless the
      first token asked for none, a code. */
  lemma {:induction false} SessionEarned(token: bool, limits: Limits, es: seq<Event>, i: nat)
    requires Possible(Initial(token), limits, es)
    requires var t := Run(Initial(token), limits, es); i < |t.ops| && t.ops[i].stage == Done(Session)
    ensures var s, kind := Initial(token), Run(Initial(token), limits, es).ops[i].kind;
            && Gained(TokenMerit, s, limits, es, i) && Gained(UserMerit, s, limits, es, i)
            && (kind.Refresh? ==> Gained(RefreshMerit, s, limits, es, i))
            && (kind.Login? ==> Gained(PasswordMerit, s, limits, es, i) && Gained(CodeMerit, s, limits, es, i))
  {
    hide Run, Next, Gained, Possible;
    var kind := Run(Initial(token), limits, es).ops[i].kind;
    GainRun(TokenMerit, Initial(token), limits, es, i);
    GainRun(UserMerit, Initial(token), limits, es, i);
    if kind.Refresh? { GainRun(RefreshMerit, Initial(token), limits, es, i); }
    if kind.Login? {
      GainRun(PasswordMerit, Initial(token), limits, es, i);
      GainRun(CodeMerit, Initial(token), limits, es, i);
    }
  }

  // ---------- After a cleanup that failed ----------

  /** The step calls for a cleanup, or is one's. */
  predicate Cleans(s: State, e: Event)
    requires Enabled(s, e)
  {
    match e
    case Call(kind) => IsCleanup(kind)
    case Start(i) => IsCleanup(s.ops[i].kind)
    case Resume(i, _, calls) => IsCleanup(s.ops[i].kind) || exists k :: k in calls && IsCleanup(k)
    case _ => false
  }

  lemma {:induction false} CallsBlocked(s: State, calls: seq<Kind>)
    requires s.cleanup.Blocked? && forall k :: k in calls ==> !IsCleanup(k)
    ensures CalledAll(s, calls).cleanup.Blocked?
    decreases |calls|
  {
    if calls != [] {
      assert calls[0] in calls && !IsCleanup(calls[0]);
      assert Called(s, calls[0]).cleanup.Blocked?;
      CallsBlocked(Called(s, calls[0]), calls[1..]);
    }
  }

  /** A cleanup that failed blocks: until a logout or cancel is called, no login or restore is admitted
      and no login or refresh begins, and the provider stays blocked through every other step. */
  lemma BlockedRefuses(s: State, limits: Limits, e: Event)
    requires Inv(s) && Enabled(s, e) && s.cleanup.Blocked?
    ensures var t := Next(s, limits, e);
            && (!Cleans(s, e) ==> t.cleanup.Blocked?)
            && (e.Call? && (e.kind.Login? || e.kind.Restore?) ==> t == s)
            && forall i :: 0 <= i < |s.ops| && (s.ops[i].kind.Login? || s.ops[i].kind.Refresh?) && s.ops[i].stage.Waiting? ==>
                 i < |t.ops| && (t.ops[i].stage.Waiting? || t.ops[i].stage == Done(Failed))
  {
    PlaceOf(s);
    forall i | 0 <= i < |s.ops| && (s.ops[i].kind.Login? || s.ops[i].kind.Refresh?) && s.ops[i].stage.Waiting?
      ensures var t := Next(s, limits, e); i < |t.ops| && (t.ops[i].stage.Waiting? || t.ops[i].stage == Done(Failed))
    {
      NextLeads(s, limits, e, i);
    }
    hide Inv, InPlace, Leads, CleanupStep, Published, CalledAll, Truthful, Continued;
    if e.Resume? && !Cleans(s, e) {
      PublishedBlocked(s, e.i, if s.ops[e.i].kind.Restore? then [] else e.calls);
    }
  }

  lemma PublishedBlocked(s: State, i: nat, calls: seq<Kind>)
    requires i < |s.ops| && s.cleanup.Blocked? && forall k :: k in calls ==> !IsCleanup(k)
    ensures Published(s, i, calls).cleanup.Blocked?
  {
    hide CalledAll;
    CallsBlocked(s.(active := true, publisher := i), calls);
  }

  /** And a cleanup that fails does block. */
  lemma FailureBlocks(s: State, limits: Limits, e: Event, i: nat)
    requires Inv(s) && Enabled(s, e) && i < |s.ops| && !s.ops[i].stage.Done?
    requires i < |Next(s, limits, e).ops| && Next(s, limits, e).ops[i].stage == Done(CleanupFailed)
    ensures Next(s, limits, e).cleanup.Blocked?
  {
    PlaceOf(s);
    NextLeads(s, limits, e, i);
    assert e.Resume? && e.i == i;
    if IsCleanup(s.ops[i].kind) { CleanupBlocks(s, i, e.answer, e.calls); }
    else { SessionNeverCleans(s, limits, i, e.answer, e.calls); }
  }

  lemma CleanupBlocks(s: State, i: nat, answer: Answer, calls: seq<Kind>)
    requires i < |s.ops| && IsCleanupStage(s.ops[i].stage)
    requires var t := CleanupStep(s, i, answer, calls); i < |t.ops| && t.ops[i].stage == Done(CleanupFailed)
    ensures CleanupStep(s, i, answer, calls).cleanup.Blocked?
  {
    hide CleanupSucceeds;
    var stage := s.ops[i].stage;
    if stage.Verifying? || stage.Fallback? || stage.Reverifying? { SucceedsCleans(s, i, stage.remoteFailed, calls); }
  }

  lemma SessionNeverCleans(s: State, limits: Limits, i: nat, answer: Answer, calls: seq<Kind>)
    requires i < |s.ops| && s.ops[i].stage.Running() && !IsCleanupStage(s.ops[i].stage)
    ensures var t := SessionStep(s, limits, i, answer, calls); i < |t.ops| && t.ops[i].stage != Done(CleanupFailed)
  {
    hide Published, Continued;
    if !s.ops[i].stage.Rollback? { ContinuedFollows(limits, s.ops[i], answer); }
    PublishedEnds(s, i, if s.ops[i].kind.Restore? then [] else calls);
  }

  lemma PublishedEnds(s: State, i: nat, calls: seq<Kind>)
    requires i < |s.ops|
    ensures var t := Published(s, i, calls); i < |t.ops| && (t.ops[i].stage == Done(Session) || t.ops[i].stage == Done(Failed))
  {
    hide CalledAll;
    CallsGrow(s.(active := true, publisher := i), calls);
  }
}
