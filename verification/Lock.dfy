/** The single-instance lock file: a protocol of atomic file-system steps that any number of
    processes run at once and any of them may die in. */
module Lock {

  // ---------- The file system and the acquisitions ----------

  /** The lock path, or a name that a release moves the lock file aside to. */
  datatype Name = LockPath | Aside(token: nat)

  type FileId = nat

  datatype Kind = Normal | Inspect

  /** How far one acquisition has come, from its exclusive create to its last close. */
  datatype Phase =
    | Idle
    | Opened
    | Statted
    | Outstanding(recorded: bool)
    | Detaching(recorded: bool)
    | Detached(aside: Name, recorded: bool)
    | Verified(aside: Name)
    | Foreign(aside: Name)
    | Linked(aside: Name)
    | Closing
    | Ended
  {
    /** The acquisition has a descriptor open on the file it created, which keeps its inode. */
    predicate HasFile() { !Idle? && !Ended? }

    /** From the create until the lock path is renamed away. */
    predicate Owns() { Opened? || Statted? || Outstanding? || Detaching? }

    predicate HasAside() { Detached? || Verified? || Foreign? || Linked? }

    /** About to unlink the aside name. */
    predicate Unlinking() { Verified? || Linked? }

    /** Inside a call that runs to its end before the process does anything else. */
    predicate MidCall() { HasFile() && !Outstanding? }
  }

  /** One acquisition: the process it runs in, the record it writes, the file it created, whether
      its caller was given something to release it with, and the flag of an inspect handle that
      only its first release acts on. */
  datatype Agent = Agent(kind: Kind, process: nat, record: string, phase: Phase, file: FileId, acquired: bool, spent: bool)

  /** `names` are the directory entries this code uses, `kept` the files that something else has
      a name for or open, `held` the cache of each process, `dead` the processes that have died. */
  datatype State = State(
    names: map<Name, FileId>, kept: set<FileId>, inode: map<FileId, nat>, content: map<FileId, string>,
    agents: map<nat, Agent>, held: map<nat, nat>, dead: set<nat>)

  predicate NamedAs(s: State, n: Name, f: FileId) { n in s.names && s.names[n] == f }

  predicate OpenBy(s: State, a: nat, f: FileId) {
    a in s.agents && s.agents[a].phase.HasFile() && s.agents[a].file == f
  }

  /** A file that a name or a descriptor keeps, so that its inode number is taken. */
  ghost predicate Live(s: State, f: FileId) {
    f in s.kept || (exists n :: NamedAs(s, n, f)) || exists a :: OpenBy(s, a, f)
  }

  /** A file never used before, with an inode number that no live file has. */
  ghost predicate Fresh(s: State, f: FileId, i: nat) {
    f !in s.inode && forall g :: g in s.inode && Live(s, g) ==> s.inode[g] != i
  }

  // ---------- Steps ----------

  /** Every system call of an acquisition, and every call of its release, is one step. `ok` is
      false when the call fails; what the source does not decide comes with the action. */
  datatype Action =
    | Open(ok: bool, f: FileId, i: nat)
    | Stat(ok: bool)
    | Write(ok: bool, partial: string)
    | CallRelease
    | Rename(ok: bool, token: nat)
    | Check(ok: bool)
    | Unlink(ok: bool)
    | LinkBack(ok: bool)
    | Close

  /** `Create` and `Meddle` are the work of something else: it makes files, and puts any live file
      at the lock path or removes what is there, but leaves the aside names alone. */
  datatype Event =
    | Act(a: nat, act: Action)
    | Crash(process: nat)
    | Create(f: FileId, i: nat)
    | Meddle(removed: bool, path: FileId, kept: set<FileId>, content: map<FileId, string>)

  predicate At(s: State, a: nat) { a in s.agents && s.agents[a].process !in s.dead }

  /** No acquisition is using this aside name. */
  predicate Unclaimed(s: State, n: Name) {
    forall b :: b in s.agents && s.agents[b].phase.HasAside() ==> s.agents[b].phase.aside != n
  }

  /** The process is not inside any of these calls. */
  predicate Quiet(s: State, process: nat) {
    forall b :: b in s.agents && s.agents[b].process == process ==> !s.agents[b].phase.MidCall()
  }

  ghost predicate MayDo(s: State, a: nat, act: Action)
    requires a in s.agents
  {
    var me := s.agents[a];
    match act
    case Open(_, f, i) => me.phase.Idle? && Quiet(s, me.process) && Fresh(s, f, i)
    case Stat(_) => me.phase.Opened?
    case Write(_, _) => me.phase.Statted?
    case CallRelease => Quiet(s, me.process) && me.acquired
    case Rename(_, token) => me.phase.Detaching? && Aside(token) !in s.names && Unclaimed(s, Aside(token))
    case Check(_) => me.phase.Detached?
    case Unlink(_) => me.phase.Unlinking()
    case LinkBack(_) => me.phase.Foreign?
    case Close => me.phase.Closing?
  }

  ghost predicate Enabled(s: State, e: Event) {
    match e
    case Act(a, act) => At(s, a) && MayDo(s, a, act)
    case Crash(_) => true
    case Create(f, i) => Fresh(s, f, i)
    case Meddle(removed, path, kept, content) =>
      && (!removed ==> Live(s, path))
      && (forall f :: f in kept ==> Live(s, f))
      && content.Keys == s.content.Keys
  }

  /** The holder that the process's cache names. */
  predicate HeldBy(s: State, process: nat, a: nat) { process in s.held && s.held[process] == a }

  /** What the release capability of `a` finds: for a normal acquisition its own entry in the cache,
      for an inspect handle its flag not yet set. */
  predicate MayRelease(s: State, a: nat)
    requires a in s.agents
  {
    var me := s.agents[a];
    if me.kind.Normal? then HeldBy(s, me.process, a) else !me.spent
  }

  /** The file at `n` has the inode of this acquisition's file and, when that was written, its record. */
  predicate IsOwnFile(s: State, me: Agent, n: Name, recorded: bool) {
    && n in s.names && s.names[n] in s.inode && me.file in s.inode
    && s.inode[s.names[n]] == s.inode[me.file]
    && (recorded ==> s.names[n] in s.content && s.content[s.names[n]] == me.record)
  }

  /** What one acquisition's step does: to itself, to the files, and to the cache of its process. */
  datatype Effect = Effect(me: Agent, names: map<Name, FileId>, inode: map<FileId, nat>, content: map<FileId, string>,
                           held: map<nat, nat>)

  /** `you` is the same acquisition as `me`, and the file it has open, if any, is `f`. */
  predicate Continues(me: Agent, you: Agent, f: FileId) {
    you.kind == me.kind && you.process == me.process && you.record == me.record && (you.phase.HasFile() ==> you.file == f)
  }

  predicate SameFlags(s: State, me: Agent, x: Effect) {
    x.me.acquired == me.acquired && x.me.spent == me.spent && x.held == s.held
  }

  function Only(s: State, me: Agent): Effect { Effect(me, s.names, s.inode, s.content, s.held) }

  /** The exclusive create. */
  function Opening(s: State, me: Agent, ok: bool, f: FileId, i: nat): (x: Effect)
    ensures Continues(me, x.me, f) && (x.me.phase.Opened? || x.me.phase.Ended?) && SameFlags(s, me, x)
  {
    if (me.kind.Normal? && me.process in s.held) || !ok || LockPath in s.names then Only(s, me.(phase := Ended))
    else
      Effect(me.(phase := Opened, file := f), s.names[LockPath := f], s.inode[f := i], s.content[f := ""], s.held)
  }

  /** The holder record. A normal acquisition that cannot write it releases its file at once. */
  function Writing(s: State, a: nat, me: Agent, ok: bool, partial: string): (x: Effect)
    ensures Continues(me, x.me, me.file) && (x.me.phase.Outstanding? || x.me.phase.Detaching?)
  {
    var content := s.content[me.file := if ok then me.record else partial];
    if me.kind.Inspect? then Only(s, me.(phase := Outstanding(ok), acquired := true)).(content := content)
    else if !ok then Only(s, me.(phase := Detaching(false))).(content := content)
    else Only(s, me.(phase := Outstanding(true), acquired := true)).(content := content, held := s.held[me.process := a])
  }

  function Calling(s: State, a: nat, me: Agent): (x: Effect)
    requires a in s.agents
    ensures Continues(me, x.me, me.file) && (x.me.phase == me.phase || x.me.phase.Detaching?) && x.held == s.held
  {
    if MayRelease(s, a) then
      Only(s, me.(phase := Detaching(if me.phase.Outstanding? then me.phase.recorded else true), spent := true))
    else Only(s, me)
  }

  function Renaming(s: State, me: Agent, ok: bool, token: nat): (x: Effect)
    requires me.phase.Detaching?
    ensures Continues(me, x.me, me.file) && (x.me.phase.Closing? || x.me.phase.Detached?) && SameFlags(s, me, x)
    ensures x.me.phase.HasAside() ==> x.me.phase.aside == Aside(token) && Aside(token) in x.names
  {
    if !ok || LockPath !in s.names then Only(s, me.(phase := Closing))
    else
      Only(s, me.(phase := Detached(Aside(token), me.phase.recorded)))
        .(names := (s.names - {LockPath})[Aside(token) := s.names[LockPath]])
  }

  function Checking(s: State, me: Agent, ok: bool): (x: Effect)
    requires me.phase.Detached?
    ensures Continues(me, x.me, me.file) && (x.me.phase.Verified? || x.me.phase.Foreign?) && SameFlags(s, me, x)
    ensures x.me.phase.aside == me.phase.aside && x.names == s.names
  {
    var p := me.phase;
    Only(s, me.(phase := if ok && IsOwnFile(s, me, p.aside, p.recorded) then Verified(p.aside) else Foreign(p.aside)))
  }

  function UnlinkStep(s: State, me: Agent, ok: bool): (x: Effect)
    requires me.phase.Unlinking()
    ensures Continues(me, x.me, me.file) && (x.me.phase.Closing? || x.me.phase.Foreign?) && SameFlags(s, me, x)
    ensures x.me.phase.HasAside() ==> x.me.phase.aside == me.phase.aside && x.names == s.names
  {
    var p := me.phase;
    if ok then Only(s, me.(phase := Closing)).(names := s.names - {p.aside})
    else Only(s, me.(phase := if p.Verified? then Foreign(p.aside) else Closing))
  }

  function Linking(s: State, me: Agent, ok: bool): (x: Effect)
    requires me.phase.Foreign?
    ensures Continues(me, x.me, me.file) && (x.me.phase.Closing? || x.me.phase.Linked?) && SameFlags(s, me, x)
    ensures x.me.phase.HasAside() ==> x.me.phase.aside == me.phase.aside
  {
    var n := me.phase.aside;
    if ok && LockPath !in s.names && n in s.names then
      Only(s, me.(phase := Linked(n))).(names := s.names[LockPath := s.names[n]])
    else Only(s, me.(phase := Closing))
  }

  function CloseStep(s: State, a: nat, me: Agent): (x: Effect)
    ensures Continues(me, x.me, me.file) && x.me.phase.Ended?
  {
    Only(s, me.(phase := Ended)).(held := if HeldBy(s, me.process, a) then s.held - {me.process} else s.held)
  }

  ghost function EffectOf(s: State, a: nat, act: Action): Effect
    requires a in s.agents && MayDo(s, a, act)
  {
    var me := s.agents[a];
    match act
    case Open(ok, f, i) => Opening(s, me, ok, f, i)
    case Stat(ok) => Only(s, me.(phase := if ok then Statted else Closing))
    case Write(ok, partial) => Writing(s, a, me, ok, partial)
    case CallRelease => Calling(s, a, me)
    case Rename(ok, token) => Renaming(s, me, ok, token)
    case Check(ok) => Checking(s, me, ok)
    case Unlink(ok) => UnlinkStep(s, me, ok)
    case LinkBack(ok) => Linking(s, me, ok)
    case Close => CloseStep(s, a, me)
  }

  /** Every descriptor of the process is closed and its memory is gone. */
  function Crashed(s: State, p: nat): State {
    s.(agents := map a | a in s.agents :: if s.agents[a].process == p then s.agents[a].(phase := Ended) else s.agents[a],
       held := s.held - {p}, dead := s.dead + {p})
  }

  ghost function Next(s: State, e: Event): State
    requires Enabled(s, e)
  {
    match e
    case Crash(p) => Crashed(s, p)
    case Create(f, i) => s.(inode := s.inode[f := i], content := s.content[f := ""], kept := s.kept + {f})
    case Meddle(removed, path, kept, content) =>
      s.(names := if removed then s.names - {LockPath} else s.names[LockPath := path], kept := kept, content := content)
    case Act(a, act) =>
      var x := EffectOf(s, a, act);
      State(x.names, s.kept, x.inode, x.content, s.agents[a := x.me], x.held, s.dead)
  }

  // ---------- What every step keeps ----------

  ghost predicate InodesUnique(s: State) {
    && (forall f :: Live(s, f) ==> f in s.inode)
    && (forall f, g :: Live(s, f) && Live(s, g) && s.inode[f] == s.inode[g] ==> f == g)
  }

  predicate OwnFiles(s: State) {
    forall a, b :: a in s.agents && b in s.agents && a != b && s.agents[a].phase.HasFile() && s.agents[b].phase.HasFile() ==>
      s.agents[a].file != s.agents[b].file
  }

  /** Aside names are one acquisition's own, and stay until it unlinks them. */
  predicate OwnAsides(s: State) {
    && (forall a :: a in s.agents && s.agents[a].phase.HasAside() ==>
          s.agents[a].phase.aside.Aside? && s.agents[a].phase.aside in s.names)
    && (forall a, b :: a in s.agents && b in s.agents && a != b && s.agents[a].phase.HasAside() && s.agents[b].phase.HasAside() ==>
          s.agents[a].phase.aside != s.agents[b].phase.aside)
  }

  /** What has been identified as one's own file is one's own file. */
  predicate VerifiedOwn(s: State) {
    forall a :: a in s.agents && s.agents[a].phase.Verified? ==> NamedAs(s, s.agents[a].phase.aside, s.agents[a].file)
  }

  /** A process's cache names an acquisition of its own that is outstanding or being released. */
  predicate CachesOwn(s: State) {
    forall p :: p in s.held ==>
      && s.held[p] in s.agents && p !in s.dead
      && var me := s.agents[s.held[p]];
         me.kind.Normal? && me.process == p && me.phase.HasFile() && !me.phase.Opened? && !me.phase.Statted?
  }

  /** Every outstanding normal acquisition is in its process's cache, and an inspect handle that is
      not spent is outstanding unless its process has died. */
  predicate Released(s: State) {
    forall a :: a in s.agents ==>
      var me := s.agents[a];
      && (me.phase.Outstanding? ==> me.acquired && (me.kind.Normal? ==> HeldBy(s, me.process, a)))
      && (me.acquired ==> !me.phase.Idle? && !me.phase.Opened? && !me.phase.Statted?)
      && (me.phase.Idle? || me.phase.Opened? || me.phase.Statted? || me.phase.Outstanding? ==> !me.spent)
      && (me.kind.Inspect? && me.acquired && !me.spent ==> me.phase.Outstanding? || me.process in s.dead)
      && (me.process in s.dead ==> me.phase.Ended?)
  }

  /** A process is inside one call at a time. */
  predicate OneCall(s: State) {
    forall a, b :: a in s.agents && b in s.agents && a != b && s.agents[a].process == s.agents[b].process ==>
      !(s.agents[a].phase.MidCall() && s.agents[b].phase.MidCall())
  }

  /** A process acquires only while its cache is empty. */
  predicate EmptyCache(s: State) {
    forall a :: a in s.agents && s.agents[a].kind.Normal? && (s.agents[a].phase.Opened? || s.agents[a].phase.Statted?) ==>
      s.agents[a].process !in s.held
  }

  predicate Serial(s: State) { OneCall(s) && EmptyCache(s) }

  ghost predicate Inv(s: State) {
    InodesUnique(s) && OwnFiles(s) && OwnAsides(s) && VerifiedOwn(s) && CachesOwn(s) && Released(s) && Serial(s)
  }

  /** A release that acts finds its acquisition outstanding. */
  lemma ReleasesOutstanding(s: State, a: nat)
    requires CachesOwn(s) && Released(s) && At(s, a) && Quiet(s, s.agents[a].process) && s.agents[a].acquired && MayRelease(s, a)
    ensures s.agents[a].phase.Outstanding?
  {
  }

  /** How an action changes the phase. */
  lemma PhaseStep(s: State, a: nat, act: Action)
    requires a in s.agents && MayDo(s, a, act)
    ensures var p, q := s.agents[a].phase, EffectOf(s, a, act).me.phase;
            match act
            case Open(_, _, _) => p.Idle? && (q.Opened? || q.Ended?)
            case Stat(_) => p.Opened? && (q.Statted? || q.Closing?)
            case Write(_, _) => p.Statted? && (q.Outstanding? || q.Detaching?)
            case CallRelease => q == p || q.Detaching?
            case Rename(_, _) => p.Detaching? && (q.Closing? || q.Detached?)
            case Check(_) => p.Detached? && (q.Verified? || q.Foreign?)
            case Unlink(_) => p.Unlinking() && (q.Closing? || q.Foreign?)
            case LinkBack(_) => p.Foreign? && (q.Closing? || q.Linked?)
            case Close => p.Closing? && q.Ended?
  {
    hide Fresh, Unclaimed, Quiet, Opening, Writing, Calling, Renaming, Checking, UnlinkStep, Linking, CloseStep;
  }

  /** An action leaves its acquisition the one it is, with the file it has open. */
  lemma SelfStep(s: State, a: nat, act: Action)
    requires a in s.agents && MayDo(s, a, act)
    ensures Continues(s.agents[a], EffectOf(s, a, act).me, if act.Open? then act.f else s.agents[a].file)
  {
    hide Fresh, Unclaimed, Quiet, Opening, Writing, Calling, Renaming, Checking, UnlinkStep, Linking, CloseStep;
  }

  /** What an action does to the names. */
  lemma NamesStep(s: State, a: nat, act: Action)
    requires a in s.agents && MayDo(s, a, act)
    ensures var t, me := EffectOf(s, a, act).names, s.agents[a];
            t == s.names
            || (act.Open? && LockPath !in s.names && t == s.names[LockPath := act.f])
            || (act.Rename? && LockPath in s.names && t == (s.names - {LockPath})[Aside(act.token) := s.names[LockPath]])
            || (act.Unlink? && t == s.names - {me.phase.aside})
            || (act.LinkBack? && LockPath !in s.names && me.phase.aside in s.names && t == s.names[LockPath := s.names[me.phase.aside]])
  {
    hide Fresh, Unclaimed, Quiet, MayRelease, IsOwnFile, HeldBy;
  }

  lemma InodesStep(s: State, a: nat, act: Action)
    requires a in s.agents && MayDo(s, a, act)
    ensures var x := EffectOf(s, a, act);
            if act.Open? && x.me.phase.Opened? then x.inode == s.inode[act.f := act.i]
            else x.inode == s.inode && (act.Open? ==> x == Only(s, s.agents[a].(phase := Ended)))
  {
    hide Fresh, Unclaimed, Quiet, MayRelease, IsOwnFile, HeldBy;
  }

  /** An open descriptor is on the file it was on, or on the one just created. */
  lemma FileStep(s: State, a: nat, act: Action)
    requires At(s, a) && MayDo(s, a, act) && CachesOwn(s) && Released(s)
    ensures EffectOf(s, a, act).me.phase.HasFile() && !act.Open? ==> s.agents[a].phase.HasFile()
  {
    PhaseStep(s, a, act);
    if act.CallRelease? && MayRelease(s, a) { ReleasesOutstanding(s, a); }
    if act.CallRelease? && !MayRelease(s, a) { assert EffectOf(s, a, act).me == s.agents[a]; }
    hide EffectOf, MayDo, CachesOwn, Released;
  }

  // ---------- Files and inodes ----------

  /** Whatever a step names was live before it, unless the step created it. */
  lemma NameSource(s: State, a: nat, act: Action, n: Name, f: FileId)
    requires a in s.agents && MayDo(s, a, act) && n in EffectOf(s, a, act).names && EffectOf(s, a, act).names[n] == f
    requires act.Open? ==> f != act.f
    ensures Live(s, f)
  {
    NamesStep(s, a, act);
    hide EffectOf, MayDo;
    if act.Rename? && n == Aside(act.token) {
      assert NamedAs(s, n, f) || NamedAs(s, LockPath, f);
    } else if act.LinkBack? && n == LockPath {
      assert NamedAs(s, n, f) || NamedAs(s, s.agents[a].phase.aside, f);
    } else {
      assert NamedAs(s, n, f);
    }
  }

  /** No file becomes live but one that the action creates. */
  lemma LiveSource(s: State, a: nat, act: Action, f: FileId)
    requires At(s, a) && MayDo(s, a, act) && Live(Next(s, Act(a, act)), f) && (act.Open? ==> f != act.f) && CachesOwn(s) && Released(s)
    ensures Live(s, f)
  {
    var t := Next(s, Act(a, act));
    SelfStep(s, a, act);
    FileStep(s, a, act);
    hide EffectOf, MayDo, CachesOwn, Released;
    if f in t.kept {
    } else if n :| NamedAs(t, n, f) {
      NameSource(s, a, act, n, f);
    } else if b :| OpenBy(t, b, f) {
      assert OpenBy(s, b, f);
    }
  }

  lemma OtherSource(s: State, e: Event, f: FileId)
    requires Enabled(s, e) && !e.Act? && Live(Next(s, e), f) && (e.Create? ==> f != e.f)
    ensures Live(s, f)
  {
    var t := Next(s, e);
    if n :| NamedAs(t, n, f) {
      assert NamedAs(s, n, f) || Live(s, f);
    } else if b :| OpenBy(t, b, f) {
      assert OpenBy(s, b, f);
    }
  }

  lemma SameInodes(s: State, t: State)
    requires InodesUnique(s) && (forall g :: Live(t, g) ==> Live(s, g)) && t.inode == s.inode
    ensures InodesUnique(t)
  {
    hide Live;
  }

  lemma NewInode(s: State, t: State, f: FileId, i: nat)
    requires InodesUnique(s) && Fresh(s, f, i) && (forall g :: Live(t, g) && g != f ==> Live(s, g)) && t.inode == s.inode[f := i]
    ensures InodesUnique(t)
  {
    hide Live;
    forall x, y | Live(t, x) && Live(t, y) && t.inode[x] == t.inode[y] ensures x == y {
      if x != f && y != f { assert Live(s, x) && Live(s, y); }
    }
  }

  lemma KeepsInodes(s: State, e: Event)
    requires InodesUnique(s) && CachesOwn(s) && Released(s) && Enabled(s, e)
    ensures InodesUnique(Next(s, e))
  {
    hide InodesUnique, Live, CachesOwn, Released, Unclaimed, Quiet, Fresh;
    var t := Next(s, e);
    if e.Act? {
      forall f | Live(t, f) && (e.act.Open? ==> f != e.act.f) ensures Live(s, f) { LiveSource(s, e.a, e.act, f); }
      InodesStep(s, e.a, e.act);
      if t.inode == s.inode && e.act.Open? && !EffectOf(s, e.a, e.act).me.phase.Opened? { Refused(s, e.a, e.act); }
      if e.act.Open? && EffectOf(s, e.a, e.act).me.phase.Opened? {
        assert Fresh(s, e.act.f, e.act.i);
        hide EffectOf, MayDo;
        NewInode(s, t, e.act.f, e.act.i);
      } else {
        hide EffectOf, MayDo;
        SameInodes(s, t);
      }
    } else {
      forall f | Live(t, f) && (e.Create? ==> f != e.f) ensures Live(s, f) { OtherSource(s, e, f); }
      if e.Create? { NewInode(s, t, e.f, e.i); } else { SameInodes(s, t); }
    }
  }

  /** A refused create leaves no trace. */
  lemma Refused(s: State, a: nat, act: Action)
    requires At(s, a) && MayDo(s, a, act) && EffectOf(s, a, act) == Only(s, s.agents[a].(phase := Ended))
    ensures forall f :: Live(Next(s, Act(a, act)), f) ==> Live(s, f)
  {
    var t := Next(s, Act(a, act));
    hide EffectOf, MayDo;
    forall f | Live(t, f) ensures Live(s, f) {
      if n :| NamedAs(t, n, f) { assert NamedAs(s, n, f); }
      else if b :| OpenBy(t, b, f) { assert OpenBy(s, b, f); }
    }
  }

  lemma OpenIsOld(s: State, f: FileId, i: nat, b: nat)
    requires Fresh(s, f, i) && InodesUnique(s) && b in s.agents && s.agents[b].phase.HasFile()
    ensures s.agents[b].file != f
  {
    assert OpenBy(s, b, s.agents[b].file);
    assert Live(s, s.agents[b].file);
  }

  lemma KeepsFiles(s: State, e: Event)
    requires OwnFiles(s) && InodesUnique(s) && CachesOwn(s) && Released(s) && Enabled(s, e)
    ensures OwnFiles(Next(s, e))
  {
    hide InodesUnique, CachesOwn, Released, Unclaimed, Quiet, Fresh;
    if e.Act? {
      SelfStep(s, e.a, e.act);
      FileStep(s, e.a, e.act);
      if e.act.Open? {
        forall b | b in s.agents && s.agents[b].phase.HasFile() ensures s.agents[b].file != e.act.f { OpenIsOld(s, e.act.f, e.act.i, b); }
      }
      hide EffectOf, MayDo;
    }
  }

  // ---------- Aside names ----------

  /** The aside name of an acquisition is new when it renames, and its old one otherwise. */
  lemma AsideStep(s: State, a: nat, act: Action)
    requires a in s.agents && MayDo(s, a, act) && EffectOf(s, a, act).me.phase.HasAside()
    ensures var p, q, t := s.agents[a].phase, EffectOf(s, a, act).me.phase, EffectOf(s, a, act).names;
            if act.Rename? then q.aside == Aside(act.token) && q.aside in t && Unclaimed(s, q.aside)
            else p.HasAside() && q.aside == p.aside && (act.Unlink? ==> t == s.names)
  {
    hide Fresh, Quiet, Unclaimed, Opening, Writing, Calling, Renaming, Checking, UnlinkStep, Linking, CloseStep;
  }

  lemma KeepsAsides(s: State, e: Event)
    requires OwnAsides(s) && Enabled(s, e)
    ensures OwnAsides(Next(s, e))
  {
    hide Fresh, Quiet, Live;
    if e.Act? {
      if EffectOf(s, e.a, e.act).me.phase.HasAside() { AsideStep(s, e.a, e.act); }
      NamesStep(s, e.a, e.act);
      assert e.act.Unlink? ==> s.agents[e.a].phase.HasAside();
      hide EffectOf, MayDo;
    } else {
      hide Unclaimed;
    }
  }

  /** Only a check identifies a file, and what it identifies is the acquisition's own: its inode is
      kept by its descriptor. */
  lemma VerifiedStep(s: State, a: nat, act: Action)
    requires a in s.agents && MayDo(s, a, act) && EffectOf(s, a, act).me.phase.Verified? && InodesUnique(s)
    ensures EffectOf(s, a, act).names == s.names
    ensures if s.agents[a].phase.Verified? then EffectOf(s, a, act).me.phase == s.agents[a].phase && !act.Open?
            else act.Check? && NamedAs(s, EffectOf(s, a, act).me.phase.aside, s.agents[a].file)
  {
    PhaseStep(s, a, act);
    if act.Check? {
      hide Fresh, Unclaimed, Quiet;
      var me := s.agents[a];
      assert OpenBy(s, a, me.file);
      assert NamedAs(s, me.phase.aside, s.names[me.phase.aside]);
    } else {
      hide InodesUnique, Fresh, Unclaimed, Quiet;
    }
  }

  lemma KeepsVerified(s: State, e: Event)
    requires VerifiedOwn(s) && OwnAsides(s) && InodesUnique(s) && Enabled(s, e)
    ensures VerifiedOwn(Next(s, e))
  {
    hide Fresh, Quiet, Live, Unclaimed, InodesUnique;
    if e.Act? {
      NamesStep(s, e.a, e.act);
      SelfStep(s, e.a, e.act);
      if EffectOf(s, e.a, e.act).me.phase.Verified? { VerifiedStep(s, e.a, e.act); }
      assert e.act.Unlink? ==> s.agents[e.a].phase.HasAside();
      hide EffectOf, MayDo;
    }
  }

  // ---------- Processes and their caches ----------

  /** What an action does to the cache. */
  lemma CacheStep(s: State, a: nat, act: Action)
    requires a in s.agents && MayDo(s, a, act)
    ensures var me, x := s.agents[a], EffectOf(s, a, act);
            x.held == if act.Write? && me.kind.Normal? && act.ok then s.held[me.process := a]
                      else if act.Close? && HeldBy(s, me.process, a) then s.held - {me.process}
                      else s.held
    ensures act.Write? ==> (EffectOf(s, a, act).me.phase.Outstanding? <==> s.agents[a].kind.Inspect? || act.ok)
  {
    hide Fresh, Unclaimed, Quiet, HeldBy, Opening, Calling, Renaming, Checking, UnlinkStep, Linking;
  }

  /** What an action does to the flags that a release capability is about. */
  lemma FlagStep(s: State, a: nat, act: Action)
    requires a in s.agents && MayDo(s, a, act)
    ensures var me, you := s.agents[a], EffectOf(s, a, act).me;
            if act.Write? then
              you.spent == me.spent && if you.phase.Outstanding? then you.acquired else you.acquired == me.acquired && me.kind.Normal?
            else
              && you.acquired == me.acquired
              && (if act.CallRelease? && MayRelease(s, a) then you.spent && you.phase.Detaching?
                  else you.spent == me.spent && (act.CallRelease? ==> you == me))
  {
    hide Fresh, Unclaimed, Quiet, MayRelease, HeldBy, Opening, Renaming, Checking, UnlinkStep, Linking;
  }

  /** A create that succeeds finds the cache of its process empty. */
  lemma OpensEmpty(s: State, a: nat, act: Action)
    requires a in s.agents && MayDo(s, a, act) && act.Open? && EffectOf(s, a, act).me.phase.Opened? && s.agents[a].kind.Normal?
    ensures s.agents[a].process !in s.held
  {
    hide Fresh, Quiet;
  }

  lemma KeepsOneCall(s: State, e: Event)
    requires OneCall(s) && CachesOwn(s) && Released(s) && Enabled(s, e)
    ensures OneCall(Next(s, e))
  {
    hide Fresh, Unclaimed, Live;
    if e.Act? {
      SelfStep(s, e.a, e.act);
      PhaseStep(s, e.a, e.act);
      FlagStep(s, e.a, e.act);
      assert e.act.Open? || e.act.CallRelease? ==> Quiet(s, s.agents[e.a].process);
      hide EffectOf, MayDo, CachesOwn, Released, MayRelease;
    } else {
      hide CachesOwn, Released;
    }
  }

  lemma KeepsEmptyCache(s: State, e: Event)
    requires OneCall(s) && EmptyCache(s) && Released(s) && Enabled(s, e)
    ensures EmptyCache(Next(s, e))
  {
    hide Fresh, Unclaimed, Live, Quiet;
    if e.Act? {
      SelfStep(s, e.a, e.act);
      PhaseStep(s, e.a, e.act);
      CacheStep(s, e.a, e.act);
      FlagStep(s, e.a, e.act);
      if e.act.Open? && EffectOf(s, e.a, e.act).me.phase.Opened? && s.agents[e.a].kind.Normal? { OpensEmpty(s, e.a, e.act); }
      hide EffectOf, MayDo, MayRelease;
    } else {
      hide Released, OneCall;
    }
  }

  lemma KeepsCaches(s: State, e: Event)
    requires CachesOwn(s) && Released(s) && Enabled(s, e)
    ensures CachesOwn(Next(s, e))
  {
    hide Live, Fresh, Unclaimed, Quiet;
    if e.Act? {
      SelfStep(s, e.a, e.act);
      PhaseStep(s, e.a, e.act);
      CacheStep(s, e.a, e.act);
      hide EffectOf, MayDo, Released;
    } else {
      hide Released;
    }
  }

  lemma KeepsReleased(s: State, e: Event)
    requires CachesOwn(s) && Released(s) && Serial(s) && Enabled(s, e)
    ensures Released(Next(s, e))
  {
    hide Live, Fresh, Unclaimed, Quiet;
    if e.Act? {
      SelfStep(s, e.a, e.act);
      PhaseStep(s, e.a, e.act);
      CacheStep(s, e.a, e.act);
      FlagStep(s, e.a, e.act);
      hide EffectOf, MayDo, CachesOwn, MayRelease;
    } else {
      hide CachesOwn, Serial;
    }
  }

  /** The invariant holds in every reachable state, whatever else touches the lock path. */
  lemma NextKeeps(s: State, e: Event)
    requires Inv(s) && Enabled(s, e)
    ensures Inv(Next(s, e))
  {
    KeepsInodes(s, e);
    KeepsFiles(s, e);
    KeepsAsides(s, e);
    KeepsVerified(s, e);
    KeepsCaches(s, e);
    KeepsReleased(s, e);
    KeepsOneCall(s, e);
    KeepsEmptyCache(s, e);
  }

  // ---------- Runs ----------

  ghost predicate Possible(s: State, es: seq<Event>)
    decreases |es|
  {
    es == [] || (Enabled(s, es[0]) && Possible(Next(s, es[0]), es[1..]))
  }

  ghost function Run(s: State, es: seq<Event>): State
    requires Possible(s, es)
    decreases |es|
  {
    if es == [] then s else Run(Next(s, es[0]), es[1..])
  }

  /** No acquisition has started, whatever files there are. */
  ghost predicate Initial(s: State) {
    && InodesUnique(s) && s.held == map[] && s.dead == {}
    && forall a :: a in s.agents ==> s.agents[a].phase.Idle? && !s.agents[a].acquired && !s.agents[a].spent
  }

  lemma InitialInv(s: State)
    requires Initial(s)
    ensures Inv(s) && Exclusive(s)
  {
    hide InodesUnique;
  }

  // ---------- Mutual exclusion ----------

  /** While nothing else touches the lock path, it names the file of whoever owns it. */
  predicate Exclusive(s: State) {
    forall a :: a in s.agents && s.agents[a].phase.Owns() ==> NamedAs(s, LockPath, s.agents[a].file)
  }

  predicate OnlyThisCode(es: seq<Event>) { forall i :: 0 <= i < |es| ==> es[i].Act? || es[i].Crash? }

  lemma OwnsAlone(s: State, a: nat, b: nat)
    requires Exclusive(s) && OwnFiles(s) && a in s.agents && b in s.agents
    requires s.agents[a].phase.Owns() && s.agents[b].phase.Owns()
    ensures a == b
  {
  }

  lemma OwnerStep(s: State, a: nat, act: Action)
    requires Inv(s) && Exclusive(s) && At(s, a) && MayDo(s, a, act) && EffectOf(s, a, act).me.phase.Owns()
    ensures NamedFile(EffectOf(s, a, act), LockPath, EffectOf(s, a, act).me.file)
  {
    hide VerifiedOwn;
    SelfStep(s, a, act);
    PhaseStep(s, a, act);
    NamesStep(s, a, act);
    if act.Open? {
      OpensPath(s, a, act);
    } else if act.CallRelease? {
      if MayRelease(s, a) { ReleasesOutstanding(s, a); }
      else { FlagStep(s, a, act); }
    } else {
    }
  }

  lemma BystanderStep(s: State, a: nat, act: Action, b: nat)
    requires Inv(s) && Exclusive(s) && At(s, a) && MayDo(s, a, act) && b in s.agents && b != a && s.agents[b].phase.Owns()
    ensures NamedFile(EffectOf(s, a, act), LockPath, s.agents[b].file)
  {
    hide InodesUnique, VerifiedOwn, Serial, Fresh, Unclaimed, Quiet, Live, CachesOwn, Released;
    NamesStep(s, a, act);
    assert !act.Rename? by {
      if act.Rename? { OwnsAlone(s, a, b); }
    }
    assert act.Unlink? ==> s.agents[a].phase.HasAside();
    hide EffectOf, MayDo, OwnFiles;
  }

  lemma KeepsExclusive(s: State, e: Event)
    requires Inv(s) && Exclusive(s) && Enabled(s, e) && (e.Act? || e.Crash?)
    ensures Exclusive(Next(s, e))
  {
    hide Inv;
    if e.Act? {
      hide EffectOf, MayDo;
      var t := Next(s, e);
      forall b | b in t.agents && t.agents[b].phase.Owns() ensures NamedAs(t, LockPath, t.agents[b].file) {
        if b == e.a { OwnerStep(s, e.a, e.act); } else { BystanderStep(s, e.a, e.act, b); }
      }
    }
  }

  lemma OpensPath(s: State, a: nat, act: Action)
    requires a in s.agents && MayDo(s, a, act) && act.Open?
    ensures EffectOf(s, a, act).me.phase.Opened? ==> NamedFile(EffectOf(s, a, act), LockPath, act.f)
  {
    hide Fresh, Quiet;
  }

  predicate NamedFile(x: Effect, n: Name, f: FileId) { n in x.names && x.names[n] == f }

  /** Mutual exclusion: under every interleaving of steps by any number of processes, and any
      crashes, at most one acquisition is outstanding, and the lock path names its file. */
  lemma {:induction false} MutualExclusion(s: State, es: seq<Event>, a: nat, b: nat)
    requires Initial(s) && Possible(s, es) && OnlyThisCode(es)
    requires var t := Run(s, es);
             a in t.agents && b in t.agents && t.agents[a].phase.Outstanding? && t.agents[b].phase.Outstanding?
    ensures a == b && NamedAs(Run(s, es), LockPath, Run(s, es).agents[a].file)
  {
    InitialInv(s);
    RunKeeps(s, es);
    assert OwnFiles(Run(s, es));
    OwnsAlone(Run(s, es), a, b);
  }

  lemma {:induction false} RunKeeps(s: State, es: seq<Event>)
    requires Inv(s) && Possible(s, es)
    ensures Inv(Run(s, es))
    ensures Exclusive(s) && OnlyThisCode(es) ==> Exclusive(Run(s, es))
    decreases |es|
  {
    hide Inv, Next, Exclusive, Enabled;
    if es != [] {
      NextKeeps(s, es[0]);
      if Exclusive(s) && OnlyThisCode(es) { KeepsExclusive(s, es[0]); }
      RunKeeps(Next(s, es[0]), es[1..]);
    }
  }

  // ---------- Files of others ----------

  /** The name is one that some acquisition is about to unlink. */
  predicate AboutToGo(s: State, n: Name) {
    exists b :: b in s.agents && s.agents[b].phase.Unlinking() && s.agents[b].phase.aside == n
  }

  /** The file has a name that nobody is about to unlink. */
  ghost predicate Safe(s: State, g: FileId) { exists n :: NamedAs(s, n, g) && !AboutToGo(s, n) }

  lemma PathIsSafe(s: State, g: FileId)
    requires OwnAsides(s) && NamedAs(s, LockPath, g)
    ensures Safe(s, g)
  {
  }

  /** A step that neither `g`'s own creator takes, once it has created `g`, nor takes `g` from the lock
      path from outside. */
  predicate Spares(s: State, e: Event, g: FileId) {
    match e
    case Act(a, act) => a in s.agents && (act.Open? || s.agents[a].file != g)
    case Crash(_) => true
    case Create(_, _) => true
    case Meddle(removed, path, _, _) => !NamedAs(s, LockPath, g) || (!removed && path == g)
  }

  /** Which names an acquisition newly means to unlink: one under which it has identified its own
      file, or one whose file it has linked back to the lock path. */
  lemma GoingStep(s: State, a: nat, act: Action)
    requires a in s.agents && MayDo(s, a, act) && InodesUnique(s) && EffectOf(s, a, act).me.phase.Unlinking()
    ensures var x := EffectOf(s, a, act);
            var n := x.me.phase.aside;
            if s.agents[a].phase.Unlinking() then n == s.agents[a].phase.aside && x.names == s.names
            else if act.Check? then x.names == s.names && NamedAs(s, n, s.agents[a].file)
            else act.LinkBack? && n in s.names && NamedFile(x, LockPath, s.names[n])
  {
    PhaseStep(s, a, act);
    if act.Check? {
      VerifiedStep(s, a, act);
    } else {
      hide InodesUnique, Fresh, Unclaimed, Quiet;
    }
  }

  /** A name that `a` does not come to mean to unlink is still not about to go. */
  lemma StillSafe(s: State, a: nat, act: Action, n: Name)
    requires a in s.agents && MayDo(s, a, act) && At(s, a) && !AboutToGo(s, n)
    requires var me := EffectOf(s, a, act).me; me.phase.Unlinking() ==> me.phase.aside != n
    ensures !AboutToGo(Next(s, Act(a, act)), n)
  {
    hide EffectOf, MayDo;
  }

  /** A step of an acquisition that did not create `g` leaves it a name that stays. */
  lemma ActSpares(s: State, a: nat, act: Action, g: FileId)
    requires Inv(s) && At(s, a) && MayDo(s, a, act) && Safe(s, g) && (act.Open? || s.agents[a].file != g)
    ensures Safe(Next(s, Act(a, act)), g)
  {
    hide OwnFiles, VerifiedOwn, CachesOwn, Released, Serial, InodesUnique, Live, Fresh, Quiet;
    var n :| NamedAs(s, n, g) && !AboutToGo(s, n);
    var t, x := Next(s, Act(a, act)), EffectOf(s, a, act);
    NamesStep(s, a, act);
    PhaseStep(s, a, act);
    if x.me.phase.Unlinking() { GoingStep(s, a, act); }
    var n' := if act.Rename? && n == LockPath && x.names != s.names then Aside(act.token)
              else if act.LinkBack? && x.me.phase.Linked? && x.me.phase.aside == n then LockPath
              else n;
    if n' == LockPath && n != LockPath {
      assert s.agents[a].phase.HasAside() && n == s.agents[a].phase.aside;
      PathStays(s, a, act);
    } else if n' != n {
      FreshAside(s, a, act);
    }
    assert act.Unlink? ==> AboutToGo(s, s.agents[a].phase.aside);
    hide EffectOf, MayDo, AboutToGo;
    assert NamedAs(t, n', g);
    assert x.me.phase.Unlinking() ==> x.me.phase.aside != n';
    StillSafe(s, a, act, n') by { assert !AboutToGo(s, n'); }
  }

  /** The lock path is no aside name. */
  lemma PathStays(s: State, a: nat, act: Action)
    requires OwnAsides(s) && a in s.agents
    ensures !AboutToGo(s, LockPath)
  {
  }

  lemma FreshAside(s: State, a: nat, act: Action)
    requires a in s.agents && MayDo(s, a, act) && act.Rename?
    ensures !AboutToGo(s, Aside(act.token))
  {
  }

  lemma StepSpares(s: State, e: Event, g: FileId)
    requires Inv(s) && Enabled(s, e) && Safe(s, g) && Spares(s, e, g)
    ensures Safe(Next(s, e), g)
  {
    if e.Act? {
      hide Inv, Next, Safe;
      ActSpares(s, e.a, e.act, g);
    } else {
      hide Live, Fresh;
      assert OwnAsides(s);
      var n :| NamedAs(s, n, g) && !AboutToGo(s, n);
      assert NamedAs(Next(s, e), n, g) && !AboutToGo(Next(s, e), n);
    }
  }

  ghost predicate AllSpare(s: State, es: seq<Event>, g: FileId)
    requires Possible(s, es)
    decreases |es|
  {
    es == [] || (Spares(s, es[0], g) && AllSpare(Next(s, es[0]), es[1..], g))
  }

  /** Releasing destroys only one's own file: a file at the lock path, however it came there, still
      has a name after any steps in which neither its own creator acts nor anything else takes it
      from the path, and in particular when a release that found it there returns; other files may
      be put at the path while it is moved aside. */
  lemma {:induction false} ForeignKept(s: State, es: seq<Event>, g: FileId)
    requires Inv(s) && Possible(s, es) && AllSpare(s, es, g) && NamedAs(s, LockPath, g)
    ensures exists n :: NamedAs(Run(s, es), n, g)
  {
    PathIsSafe(s, g);
    hide Inv, Next, NamedAs;
    RunSpares(s, es, g);
    var t := Run(s, es);
    var n :| NamedAs(t, n, g) && !AboutToGo(t, n);
  }

  lemma {:induction false} RunSpares(s: State, es: seq<Event>, g: FileId)
    requires Inv(s) && Possible(s, es) && AllSpare(s, es, g) && Safe(s, g)
    ensures Safe(Run(s, es), g)
    decreases |es|
  {
    hide Inv, Next, Safe, Spares, Enabled;
    if es != [] {
      NextKeeps(s, es[0]);
      StepSpares(s, es[0], g);
      RunSpares(Next(s, es[0]), es[1..], g);
    }
  }

  // ---------- Releases that are kept too long ----------

  /** A release acts exactly when its own acquisition is outstanding; kept and called at any other
      time, after a later acquisition too, it changes nothing. */
  lemma StaleRelease(s: State, a: nat)
    requires Inv(s) && Enabled(s, Act(a, CallRelease))
    ensures s.agents[a].phase.Outstanding? <==> Next(s, Act(a, CallRelease)).agents[a].phase.Detaching?
    ensures !s.agents[a].phase.Outstanding? ==> Next(s, Act(a, CallRelease)) == s
  {
    hide InodesUnique, OwnFiles, OwnAsides, VerifiedOwn, Serial, Fresh, Unclaimed, Live;
    if MayRelease(s, a) { ReleasesOutstanding(s, a); }
    assert s.agents[a := s.agents[a]] == s.agents;
  }

  /** An acquisition that has ended stays ended. */
  lemma EndedStays(s: State, e: Event, a: nat)
    requires Inv(s) && Enabled(s, e) && a in s.agents && s.agents[a].phase.Ended?
    ensures a in Next(s, e).agents && Next(s, e).agents[a].phase.Ended?
  {
    if e.Act? {
      PhaseStep(s, e.a, e.act);
      FlagStep(s, e.a, e.act);
      if e.a == a && e.act.CallRelease? && MayRelease(s, a) { ReleasesOutstanding(s, a); }
    }
  }

  // ---------- Releases that succeed ----------

  /** What an action does to the contents of files. */
  lemma ContentStep(s: State, a: nat, act: Action)
    requires a in s.agents && MayDo(s, a, act)
    ensures var t, me := EffectOf(s, a, act).content, s.agents[a];
            t == s.content
            || (act.Open? && t == s.content[act.f := ""])
            || (act.Write? && t == s.content[me.file := if act.ok then me.record else act.partial])
  {
    hide Fresh, Unclaimed, Quiet, MayRelease, IsOwnFile, HeldBy;
  }

  /** How an action changes what is known of the record in the file. */
  lemma RecordStep(s: State, a: nat, act: Action)
    requires a in s.agents && MayDo(s, a, act)
    ensures Recorded(EffectOf(s, a, act).me.phase) ==>
              if act.Write? then act.ok && EffectOf(s, a, act).content == s.content[s.agents[a].file := s.agents[a].record]
              else Recorded(s.agents[a].phase) || (act.CallRelease? && MayRelease(s, a) && !s.agents[a].phase.Outstanding?)
  {
    PhaseStep(s, a, act);
    hide Fresh, Unclaimed, Quiet, MayRelease, HeldBy, Opening, Checking, UnlinkStep, Linking, CloseStep;
  }

  /** The acquisition has written its record and not yet looked at it again. */
  predicate Recorded(p: Phase) { (p.Outstanding? || p.Detaching? || p.Detached?) && p.recorded }

  predicate HasRecord(s: State, a: nat)
    requires a in s.agents
  {
    var me := s.agents[a];
    Recorded(me.phase) ==> me.file in s.content && s.content[me.file] == me.record
  }

  /** The file has no name but this one. */
  ghost predicate OnlyNamed(s: State, f: FileId, n: Name) { forall m :: NamedAs(s, m, f) ==> m == n }

  ghost predicate Nameless(s: State, f: FileId) { forall m :: !NamedAs(s, m, f) }

  /** Whoever owns the lock path holds a file with no other name, and with its record in it. */
  ghost predicate Held(s: State) {
    forall a :: a in s.agents && s.agents[a].phase.Owns() ==> OnlyNamed(s, s.agents[a].file, LockPath) && HasRecord(s, a)
  }

  /** A file made now is none that had a name or was open. */
  lemma OpensNew(s: State, f: FileId, i: nat, g: FileId)
    requires Fresh(s, f, i) && InodesUnique(s)
    ensures Nameless(s, f) && (g in s.inode ==> f != g)
  {
    forall m ensures !NamedAs(s, m, f) {
      if NamedAs(s, m, f) { assert Live(s, f); }
    }
  }

  /** A step gives a name only to a file that has one or that it makes. */
  lemma NamedBefore(s: State, a: nat, act: Action, n: Name, f: FileId)
    requires a in s.agents && MayDo(s, a, act) && NamedFile(EffectOf(s, a, act), n, f) && (act.Open? ==> act.f != f)
    ensures !Nameless(s, f)
  {
    NamesStep(s, a, act);
    hide EffectOf, MayDo;
    assert NamedAs(s, n, f) || NamedAs(s, LockPath, f) || NamedAs(s, s.agents[a].phase.aside, f);
  }

  lemma NamelessStays(s: State, a: nat, act: Action, f: FileId)
    requires At(s, a) && MayDo(s, a, act) && Nameless(s, f) && (act.Open? ==> act.f != f)
    ensures Nameless(Next(s, Act(a, act)), f)
  {
    hide EffectOf, MayDo, Nameless;
    var t := Next(s, Act(a, act));
    if !Nameless(t, f) {
      var m := NameOf(t, f);
      NamedBefore(s, a, act, m, f);
    }
  }

  lemma NameOf(s: State, f: FileId) returns (m: Name)
    requires !Nameless(s, f)
    ensures NamedAs(s, m, f)
  {
    m :| NamedAs(s, m, f);
  }

  // ---------- What an acquisition holds ----------

  /** The file of an acquisition that owns the path has no other name after any step of this code. */
  lemma OwnedStays(s: State, a: nat, act: Action, b: nat)
    requires Inv(s) && Exclusive(s) && Held(s) && At(s, a) && MayDo(s, a, act)
    requires b in s.agents && b != a && s.agents[b].phase.Owns()
    ensures OnlyNamed(Next(s, Act(a, act)), s.agents[b].file, LockPath)
  {
    hide InodesUnique, VerifiedOwn, CachesOwn, Released, Serial, Fresh, Unclaimed, Quiet, Live;
    var t, f := Next(s, Act(a, act)), s.agents[b].file;
    BystanderStep(s, a, act, b);
    NamesStep(s, a, act);
    PhaseStep(s, a, act);
    if act.Rename? { OwnsAlone(s, a, b); }
    hide EffectOf, MayDo;
    assert forall m :: NamedAs(t, m, f) ==> m == LockPath || NamedAs(s, m, f);
  }

  /** Its record stays as it is, too. */
  lemma RecordStays(s: State, a: nat, act: Action, b: nat)
    requires Inv(s) && At(s, a) && MayDo(s, a, act) && b in s.agents && b != a && s.agents[b].phase.HasFile() && HasRecord(s, b)
    ensures HasRecord(Next(s, Act(a, act)), b)
  {
    hide OwnAsides, VerifiedOwn, CachesOwn, Released, Serial, Unclaimed, Quiet, Live, Fresh;
    ContentStep(s, a, act);
    PhaseStep(s, a, act);
    if act.Open? { OpenIsOld(s, act.f, act.i, b); }
    hide EffectOf, MayDo, InodesUnique;
  }

  /** An acquisition that owns the path after its own step has its file under no other name. */
  lemma OwnStepNamed(s: State, a: nat, act: Action)
    requires Inv(s) && Held(s) && At(s, a) && MayDo(s, a, act) && EffectOf(s, a, act).me.phase.Owns()
    ensures OnlyNamed(Next(s, Act(a, act)), EffectOf(s, a, act).me.file, LockPath)
  {
    hide InodesUnique, OwnFiles, OwnAsides, VerifiedOwn, Serial, Fresh, Unclaimed, Quiet, Live, HasRecord;
    SelfStep(s, a, act);
    PhaseStep(s, a, act);
    NamesStep(s, a, act);
    if act.Open? { OpensNew(s, act.f, act.i, act.f + 1); }
    if act.CallRelease? && MayRelease(s, a) { ReleasesOutstanding(s, a); }
    FlagStep(s, a, act);
    hide EffectOf, MayDo, MayRelease, CachesOwn, Released;
    var t, f := Next(s, Act(a, act)), EffectOf(s, a, act).me.file;
    if act.Open? {
      assert f == act.f;
      assert forall m :: NamedAs(t, m, f) ==> m == LockPath || NamedAs(s, m, f);
    } else {
      assert s.agents[a].phase.Owns();
      assert f == s.agents[a].file;
      assert forall m :: NamedAs(t, m, f) ==> NamedAs(s, m, f);
    }
  }

  /** And its record in it, if it has written one. */
  lemma OwnStepRecord(s: State, a: nat, act: Action)
    requires Inv(s) && At(s, a) && MayDo(s, a, act) && HasRecord(s, a)
    ensures HasRecord(Next(s, Act(a, act)), a)
  {
    hide InodesUnique, OwnFiles, OwnAsides, VerifiedOwn, Serial, Fresh, Unclaimed, Quiet, Live;
    SelfStep(s, a, act);
    PhaseStep(s, a, act);
    RecordStep(s, a, act);
    ContentStep(s, a, act);
    if act.CallRelease? && MayRelease(s, a) { ReleasesOutstanding(s, a); }
    hide EffectOf, MayDo, MayRelease, CachesOwn, Released;
  }

  lemma KeepsHeld(s: State, e: Event)
    requires Inv(s) && Exclusive(s) && Held(s) && Enabled(s, e) && (e.Act? || e.Crash?)
    ensures Held(Next(s, e))
  {
    hide Inv, OnlyNamed, HasRecord, EffectOf, MayDo;
    var t := Next(s, e);
    if e.Act? {
      forall b | b in t.agents && t.agents[b].phase.Owns() ensures OnlyNamed(t, t.agents[b].file, LockPath) && HasRecord(t, b) {
        if b == e.a {
          OwnStepNamed(s, b, e.act);
          OwnRecordBefore(s, b, e.act);
          OwnStepRecord(s, b, e.act);
        } else {
          OwnedStays(s, e.a, e.act, b);
          RecordStays(s, e.a, e.act, b);
        }
      }
    } else {
      CrashHolds(s, e.process);
    }
  }

  /** Whoever comes to own the path has no record yet, or has it in its file. */
  lemma OwnRecordBefore(s: State, a: nat, act: Action)
    requires Inv(s) && Held(s) && At(s, a) && MayDo(s, a, act) && EffectOf(s, a, act).me.phase.Owns()
    ensures HasRecord(s, a)
  {
    hide InodesUnique, OwnFiles, OwnAsides, VerifiedOwn, Serial, Fresh, Unclaimed, Quiet, Live, OnlyNamed;
    PhaseStep(s, a, act);
    FlagStep(s, a, act);
    if act.CallRelease? && MayRelease(s, a) { ReleasesOutstanding(s, a); }
    hide EffectOf, MayDo, MayRelease, CachesOwn, Released;
  }

  lemma CrashHolds(s: State, p: nat)
    requires Held(s)
    ensures Held(Crashed(s, p))
  {
    var t := Crashed(s, p);
    forall b | b in t.agents && t.agents[b].phase.Owns() ensures OnlyNamed(t, t.agents[b].file, LockPath) && HasRecord(t, b) {
      assert s.agents[b] == t.agents[b];
      assert forall m, f :: NamedAs(t, m, f) ==> NamedAs(s, m, f);
    }
  }

  // ---------- A release that goes well ----------

  /** No call of this action's release fails. */
  predicate Succeeds(act: Action) {
    match act case Rename(ok, _) => ok case Check(ok) => ok case Unlink(ok) => ok case _ => true
  }

  /** How far the release of `f` by `a` has come, when none of its calls has failed. */
  ghost predicate GoesWell(s: State, a: nat, f: FileId) {
    && a in s.agents && f in s.inode && HasRecord(s, a)
    && var me := s.agents[a];
       && (me.phase.HasFile() ==> me.file == f)
       && match me.phase
          case Outstanding(_) => true
          case Detaching(_) => true
          case Detached(n, _) => NamedAs(s, n, f) && OnlyNamed(s, f, n)
          case Verified(n) => NamedAs(s, n, f) && OnlyNamed(s, f, n)
          case Closing => Nameless(s, f)
          case Ended => Nameless(s, f)
          case _ => false
  }

  lemma RenameGoes(s: State, a: nat, act: Action, f: FileId)
    requires Exclusive(s) && Held(s) && At(s, a) && MayDo(s, a, act) && GoesWell(s, a, f) && act.Rename? && act.ok
    ensures var t := Next(s, Act(a, act)); t.agents[a].phase.Detached? && NamedAs(t, Aside(act.token), f) && OnlyNamed(t, f, Aside(act.token))
    ensures Next(s, Act(a, act)).agents[a].phase.aside == Aside(act.token)
  {
    hide HasRecord, Unclaimed;
    assert NamedAs(s, LockPath, f) && OnlyNamed(s, f, LockPath);
    var t := Next(s, Act(a, act));
    assert forall m :: NamedAs(t, m, f) ==> m == Aside(act.token) || (NamedAs(s, m, f) && m != LockPath);
  }

  lemma CheckGoes(s: State, a: nat, act: Action, f: FileId)
    requires At(s, a) && MayDo(s, a, act) && GoesWell(s, a, f) && act.Check? && act.ok
    ensures var t, n := Next(s, Act(a, act)), s.agents[a].phase.aside;
            t.agents[a].phase == Verified(n) && NamedAs(t, n, f) && OnlyNamed(t, f, n)
  {
    var me := s.agents[a];
    assert IsOwnFile(s, me, me.phase.aside, me.phase.recorded);
    assert forall m :: NamedAs(Next(s, Act(a, act)), m, f) ==> NamedAs(s, m, f);
  }

  lemma UnlinkGoes(s: State, a: nat, act: Action, f: FileId)
    requires At(s, a) && MayDo(s, a, act) && GoesWell(s, a, f) && act.Unlink? && act.ok
    ensures var t := Next(s, Act(a, act)); t.agents[a].phase.Closing? && Nameless(t, f)
  {
    hide HasRecord;
    assert forall m :: NamedAs(Next(s, Act(a, act)), m, f) ==> NamedAs(s, m, f) && m != s.agents[a].phase.aside;
  }

  lemma CloseGoes(s: State, a: nat, act: Action, f: FileId)
    requires At(s, a) && MayDo(s, a, act) && GoesWell(s, a, f) && act.Close?
    ensures var t := Next(s, Act(a, act)); t.agents[a].phase.Ended? && Nameless(t, f)
  {
    hide HasRecord;
    assert forall m :: NamedAs(Next(s, Act(a, act)), m, f) ==> NamedAs(s, m, f);
  }

  lemma CallGoes(s: State, a: nat, act: Action, f: FileId)
    requires Inv(s) && At(s, a) && MayDo(s, a, act) && GoesWell(s, a, f) && act.CallRelease?
    ensures var t := Next(s, Act(a, act)); t == s || (s.agents[a].phase.Outstanding? && t.agents[a].phase.Detaching?)
  {
    hide EffectOf, Inv, GoesWell;
    StaleRelease(s, a);
  }

  /** Its own steps. */
  lemma OwnGoesWell(s: State, a: nat, act: Action, f: FileId)
    requires Inv(s) && Exclusive(s) && Held(s) && At(s, a) && MayDo(s, a, act) && GoesWell(s, a, f) && Succeeds(act)
    ensures GoesWell(Next(s, Act(a, act)), a, f)
  {
    hide InodesUnique, OwnFiles, OwnAsides, VerifiedOwn, CachesOwn, Released, Serial, Exclusive, Held, HasRecord, OnlyNamed,
      Nameless, Fresh, Unclaimed, Quiet, Live;
    SelfStep(s, a, act);
    PhaseStep(s, a, act);
    InodesStep(s, a, act);
    OwnStepRecord(s, a, act);
    match act {
      case CallRelease => CallGoes(s, a, act, f);
      case Rename(_, _) => RenameGoes(s, a, act, f);
      case Check(_) => CheckGoes(s, a, act, f);
      case Unlink(_) => UnlinkGoes(s, a, act, f);
      case Close => CloseGoes(s, a, act, f);
      case _ =>
    }
    hide EffectOf, MayDo;
  }

  lemma AsideStays(s: State, b: nat, act: Action, a: nat, f: FileId)
    requires OwnAsides(s) && At(s, b) && MayDo(s, b, act) && a in s.agents && b != a && f in s.inode
    requires s.agents[a].phase.HasAside() && NamedAs(s, s.agents[a].phase.aside, f) && OnlyNamed(s, f, s.agents[a].phase.aside)
    ensures var t, n := Next(s, Act(b, act)), s.agents[a].phase.aside; NamedAs(t, n, f) && OnlyNamed(t, f, n)
  {
    hide Unclaimed, Quiet, Live;
    var t, n := Next(s, Act(b, act)), s.agents[a].phase.aside;
    NamesStep(s, b, act);
    PhaseStep(s, b, act);
    assert act.Open? ==> act.f != f;
    assert act.Rename? ==> Aside(act.token) != n;
    hide EffectOf, MayDo;
    assert !NamedAs(s, LockPath, f);
    assert s.agents[b].phase.HasAside() ==> !NamedAs(s, s.agents[b].phase.aside, f);
    assert forall m :: NamedAs(t, m, f) ==> NamedAs(s, m, f);
  }

  /** The steps of the others. */
  lemma OtherGoesWell(s: State, b: nat, act: Action, a: nat, f: FileId)
    requires Inv(s) && At(s, b) && MayDo(s, b, act) && GoesWell(s, a, f) && b != a
    ensures GoesWell(Next(s, Act(b, act)), a, f)
  {
    hide InodesUnique, OwnFiles, VerifiedOwn, CachesOwn, Released, Serial, NamedAs, HasRecord, OnlyNamed, Nameless, Unclaimed,
      Quiet, Live;
    var p, t := s.agents[a].phase, Next(s, Act(b, act));
    InodesStep(s, b, act);
    assert act.Open? ==> act.f != f;
    if p.HasFile() { RecordStays(s, b, act, a); }
    if p.HasAside() { AsideStays(s, b, act, a, f); }
    if p.Closing? || p.Ended? { NamelessStays(s, b, act, f); }
    hide EffectOf, MayDo;
    assert HasRecord(t, a) by { if p.Ended? { NoRecord(t, a); } }
  }

  lemma NoRecord(s: State, a: nat)
    requires a in s.agents && s.agents[a].phase.Ended?
    ensures HasRecord(s, a)
  {
  }

  lemma CrashGoesWell(s: State, p: nat, a: nat, f: FileId)
    requires GoesWell(s, a, f) && s.agents[a].process != p
    ensures GoesWell(Crashed(s, p), a, f)
  {
    var t := Crashed(s, p);
    assert t.agents[a] == s.agents[a];
    assert forall m :: NamedAs(t, m, f) <==> NamedAs(s, m, f);
  }

  /** This code alone, where no call of `a`'s release fails and its process lives. */
  predicate AllWell(es: seq<Event>, a: nat, process: nat) {
    forall i :: 0 <= i < |es| ==>
      match es[i]
      case Act(b, act) => b == a ==> Succeeds(act)
      case Crash(p) => p != process
      case _ => false
  }

  lemma {:induction false} RunHolds(s: State, es: seq<Event>)
    requires Inv(s) && Exclusive(s) && Held(s) && Possible(s, es) && OnlyThisCode(es)
    ensures Held(Run(s, es)) && Exclusive(Run(s, es))
    decreases |es|
  {
    hide Inv, Next, Exclusive, Enabled, Held;
    if es != [] {
      NextKeeps(s, es[0]);
      KeepsExclusive(s, es[0]);
      KeepsHeld(s, es[0]);
      RunHolds(Next(s, es[0]), es[1..]);
    }
  }

  lemma StepGoesWell(s: State, e: Event, a: nat, f: FileId)
    requires Inv(s) && Exclusive(s) && Held(s) && Enabled(s, e) && GoesWell(s, a, f)
    requires AllWell([e], a, s.agents[a].process)
    ensures GoesWell(Next(s, e), a, f) && Next(s, e).agents[a].process == s.agents[a].process
  {
    hide Inv, Exclusive, Held, EffectOf, MayDo, GoesWell;
    assert a in s.agents by { Known(s, a, f); }
    assert [e][0] == e;
    match e
    case Act(b, act) =>
      SelfStep(s, b, act);
      if b == a { OwnGoesWell(s, a, act, f); } else { OtherGoesWell(s, b, act, a, f); }
    case Crash(p) => CrashGoesWell(s, p, a, f);
    case _ =>
  }

  lemma Known(s: State, a: nat, f: FileId)
    requires GoesWell(s, a, f)
    ensures a in s.agents
  {
  }

  lemma {:induction false} RunGoesWell(s: State, es: seq<Event>, a: nat, f: FileId)
    requires Inv(s) && Exclusive(s) && Held(s) && Possible(s, es) && GoesWell(s, a, f)
    requires AllWell(es, a, s.agents[a].process)
    ensures GoesWell(Run(s, es), a, f)
    decreases |es|
  {
    hide Inv, Next, Exclusive, Enabled, Held, GoesWell, Succeeds;
    assert a in s.agents by { Known(s, a, f); }
    if es != [] {
      assert AllWell([es[0]], a, s.agents[a].process);
      StepGoesWell(s, es[0], a, f);
      NextKeeps(s, es[0]);
      KeepsExclusive(s, es[0]);
      KeepsHeld(s, es[0]);
      Known(Next(s, es[0]), a, f);
      RunGoesWell(Next(s, es[0]), es[1..], a, f);
    }
  }

  /** A release of an outstanding acquisition, none of whose calls fails, leaves its file without a
      name, whatever the other processes do and whichever of them die meanwhile: so the lock path is
      free, or names the file of somebody else. */
  lemma {:induction false} ReleaseFrees(s: State, es: seq<Event>, a: nat, rest: seq<Event>)
    requires Initial(s) && Possible(s, es) && OnlyThisCode(es)
    requires var t := Run(s, es);
             && a in t.agents && t.agents[a].phase.Outstanding?
             && Possible(t, rest) && AllWell(rest, a, t.agents[a].process)
             && a in Run(t, rest).agents && Run(t, rest).agents[a].phase.Ended?
    ensures Nameless(Run(Run(s, es), rest), Run(s, es).agents[a].file)
  {
    hide Next, Enabled, Fresh, OnlyThisCode, AllWell;
    InitialInv(s);
    assert Held(s);
    RunHolds(s, es);
    RunKeeps(s, es);
    var t := Run(s, es);
    assert OpenBy(t, a, t.agents[a].file) && Live(t, t.agents[a].file);
    assert GoesWell(t, a, t.agents[a].file);
    hide Inv, Initial, Exclusive, Held;
    RunGoesWell(t, rest, a, t.agents[a].file);
  }

  // ---------- Handing the lock over ----------

  lemma StepsFirst(s: State, e: Event, es: seq<Event>)
    requires Enabled(s, e) && Possible(Next(s, e), es)
    ensures Possible(s, [e] + es) && Run(s, [e] + es) == Run(Next(s, e), es)
  {
    hide Enabled, Next;
    assert ([e] + es)[1..] == es;
  }

  lemma NoSteps(s: State)
    ensures Possible(s, []) && Run(s, []) == s
  {
  }

  /** The state in which `a` is in `phase`, over these names. */
  function Moved(s: State, a: nat, phase: Phase, names: map<Name, FileId>): State
    requires a in s.agents
  {
    s.(names := names, agents := s.agents[a := s.agents[a].(phase := phase)])
  }

  function Freed(s: State, a: nat): State
    requires a in s.agents
  {
    var me := s.agents[a];
    s.(names := s.names - {LockPath}, agents := s.agents[a := me.(phase := Ended, spent := true)],
       held := if HeldBy(s, me.process, a) then s.held - {me.process} else s.held)
  }

  function Acquired(s: State, a: nat, f: FileId, i: nat): State
    requires a in s.agents
  {
    var me := s.agents[a];
    s.(names := s.names[LockPath := f], inode := s.inode[f := i], content := s.content[f := me.record],
       agents := s.agents[a := me.(phase := Outstanding(true), file := f, acquired := true)],
       held := if me.kind.Normal? then s.held[me.process := a] else s.held)
  }

  function ReleaseCalls(a: nat, token: nat): seq<Event> {
    [Act(a, CallRelease)] + ([Act(a, Rename(true, token))] + ([Act(a, Check(true))] + ([Act(a, Unlink(true))] + ([Act(a, Close)] + []))))
  }

  function AcquireCalls(a: nat, f: FileId, i: nat): seq<Event> {
    [Act(a, Open(true, f, i))] + ([Act(a, Stat(true))] + ([Act(a, Write(true, ""))] + []))
  }

  /** One step that leads to `next`, in front of a run from there. */
  lemma StepTo(s: State, a: nat, act: Action, next: State, es: seq<Event>)
    requires At(s, a) && MayDo(s, a, act) && Next(s, Act(a, act)) == next && Possible(next, es)
    ensures Possible(s, [Act(a, act)] + es) && Run(s, [Act(a, act)] + es) == Run(next, es)
  {
    hide MayDo, At, EffectOf, Possible, Run;
    StepsFirst(s, Act(a, act), es);
  }

  /** The release of an outstanding acquisition by a quiet process, with nothing in between: it runs
      to its end, and all it changes is that the lock path is free, the acquisition has ended, and
      its process's cache no longer names it. */
  lemma ReleaseRuns(s: State, a: nat, token: nat)
    requires Inv(s) && Exclusive(s) && Held(s) && a in s.agents && s.agents[a].phase.Outstanding? && Quiet(s, s.agents[a].process)
    requires Aside(token) !in s.names && Unclaimed(s, Aside(token))
    ensures Possible(s, ReleaseCalls(a, token)) && Run(s, ReleaseCalls(a, token)) == Freed(s, a)
  {
    hide Possible, Run, Next, Inv, EffectOf, MayDo;
    var me, n := s.agents[a], Aside(token);
    var called := s.(agents := s.agents[a := me.(spent := true)]);
    var aside := (s.names - {LockPath})[n := me.file];
    var one := Moved(called, a, Detaching(me.phase.recorded), s.names);
    var two := Moved(called, a, Detached(n, me.phase.recorded), aside);
    var three := Moved(called, a, Verified(n), aside);
    var four := Moved(called, a, Closing, s.names - {LockPath});
    CallRuns(s, a);
    RenameRuns(s, a, token, called, aside);
    CheckRuns(s, a, token, called, aside);
    UnlinkRuns(s, a, token, called, aside);
    CloseRuns(s, a, called);
    NoSteps(Freed(s, a));
    StepTo(four, a, Close, Freed(s, a), []);
    StepTo(three, a, Unlink(true), four, [Act(a, Close)] + []);
    StepTo(two, a, Check(true), three, [Act(a, Unlink(true))] + ([Act(a, Close)] + []));
    StepTo(one, a, Rename(true, token), two, [Act(a, Check(true))] + ([Act(a, Unlink(true))] + ([Act(a, Close)] + [])));
    StepTo(s, a, CallRelease, one, [Act(a, Rename(true, token))] + ([Act(a, Check(true))] + ([Act(a, Unlink(true))] + ([Act(a, Close)] + []))));
  }

  /** The state after `a` has called its release. */
  predicate Called(s: State, a: nat, called: State) {
    && a in s.agents && s.agents[a].phase.Outstanding?
    && called == s.(agents := s.agents[a := s.agents[a].(spent := true)])
  }

  lemma CallRuns(s: State, a: nat)
    requires Inv(s) && a in s.agents && s.agents[a].phase.Outstanding? && Quiet(s, s.agents[a].process)
    ensures At(s, a) && MayDo(s, a, CallRelease)
    ensures var called := s.(agents := s.agents[a := s.agents[a].(spent := true)]);
            Next(s, Act(a, CallRelease)) == Moved(called, a, Detaching(s.agents[a].phase.recorded), s.names)
  {
    hide InodesUnique, OwnFiles, OwnAsides, VerifiedOwn, CachesOwn, Serial;
    assert MayRelease(s, a);
  }

  lemma RenameRuns(s: State, a: nat, token: nat, called: State, aside: map<Name, FileId>)
    requires Inv(s) && Exclusive(s) && Called(s, a, called) && Aside(token) !in s.names && Unclaimed(s, Aside(token))
    requires aside == (s.names - {LockPath})[Aside(token) := s.agents[a].file]
    ensures var one := Moved(called, a, Detaching(s.agents[a].phase.recorded), s.names);
            At(one, a) && MayDo(one, a, Rename(true, token))
            && Next(one, Act(a, Rename(true, token))) == Moved(called, a, Detached(Aside(token), s.agents[a].phase.recorded), aside)
  {
    hide InodesUnique, OwnFiles, OwnAsides, VerifiedOwn, CachesOwn, Serial;
    assert NamedAs(s, LockPath, s.agents[a].file);
  }

  lemma CheckRuns(s: State, a: nat, token: nat, called: State, aside: map<Name, FileId>)
    requires Inv(s) && Held(s) && Called(s, a, called)
    requires aside == (s.names - {LockPath})[Aside(token) := s.agents[a].file]
    ensures var two := Moved(called, a, Detached(Aside(token), s.agents[a].phase.recorded), aside);
            At(two, a) && MayDo(two, a, Check(true))
            && Next(two, Act(a, Check(true))) == Moved(called, a, Verified(Aside(token)), aside)
  {
    hide OwnFiles, OwnAsides, VerifiedOwn, CachesOwn, Serial, OnlyNamed;
    assert OpenBy(s, a, s.agents[a].file);
    assert Live(s, s.agents[a].file) && HasRecord(s, a);
  }

  lemma UnlinkRuns(s: State, a: nat, token: nat, called: State, aside: map<Name, FileId>)
    requires Inv(s) && Called(s, a, called) && Aside(token) !in s.names
    requires aside == (s.names - {LockPath})[Aside(token) := s.agents[a].file]
    ensures var three := Moved(called, a, Verified(Aside(token)), aside);
            At(three, a) && MayDo(three, a, Unlink(true))
            && Next(three, Act(a, Unlink(true))) == Moved(called, a, Closing, s.names - {LockPath})
  {
    hide InodesUnique, OwnFiles, OwnAsides, VerifiedOwn, CachesOwn, Serial;
    assert aside - {Aside(token)} == s.names - {LockPath};
  }

  lemma CloseRuns(s: State, a: nat, called: State)
    requires Inv(s) && Called(s, a, called)
    ensures var four := Moved(called, a, Closing, s.names - {LockPath});
            At(four, a) && MayDo(four, a, Close) && Next(four, Act(a, Close)) == Freed(s, a)
  {
    hide InodesUnique, OwnFiles, OwnAsides, VerifiedOwn, CachesOwn, Serial;
  }

  /** While the lock path is free, a quiet process with an empty cache that has not died acquires. */
  lemma AcquireRuns(s: State, a: nat, f: FileId, i: nat)
    requires At(s, a) && s.agents[a].phase.Idle? && Quiet(s, s.agents[a].process) && Fresh(s, f, i)
    requires LockPath !in s.names && (s.agents[a].kind.Normal? ==> s.agents[a].process !in s.held)
    ensures Possible(s, AcquireCalls(a, f, i)) && Run(s, AcquireCalls(a, f, i)) == Acquired(s, a, f, i)
  {
    hide Possible, Run, Fresh, Quiet, Next, MayDo, EffectOf;
    var one, two := Created(s, a, Opened, f, i), Created(s, a, Statted, f, i);
    CreateRuns(s, a, f, i);
    RecordRuns(s, a, f, i);
    NoSteps(Acquired(s, a, f, i));
    StepTo(two, a, Write(true, ""), Acquired(s, a, f, i), []);
    StepTo(one, a, Stat(true), two, [Act(a, Write(true, ""))] + []);
    StepTo(s, a, Open(true, f, i), one, [Act(a, Stat(true))] + ([Act(a, Write(true, ""))] + []));
  }

  /** The state after `a` has created `f`. */
  function Created(s: State, a: nat, phase: Phase, f: FileId, i: nat): State
    requires a in s.agents
  {
    s.(names := s.names[LockPath := f], inode := s.inode[f := i], content := s.content[f := ""],
       agents := s.agents[a := s.agents[a].(phase := phase, file := f)])
  }

  lemma CreateRuns(s: State, a: nat, f: FileId, i: nat)
    requires At(s, a) && s.agents[a].phase.Idle? && Quiet(s, s.agents[a].process) && Fresh(s, f, i)
    requires LockPath !in s.names && (s.agents[a].kind.Normal? ==> s.agents[a].process !in s.held)
    ensures MayDo(s, a, Open(true, f, i)) && Next(s, Act(a, Open(true, f, i))) == Created(s, a, Opened, f, i)
    ensures var one := Created(s, a, Opened, f, i);
            At(one, a) && MayDo(one, a, Stat(true)) && Next(one, Act(a, Stat(true))) == Created(s, a, Statted, f, i)
  {
    hide Fresh, Quiet;
  }

  lemma RecordRuns(s: State, a: nat, f: FileId, i: nat)
    requires At(s, a)
    ensures var two := Created(s, a, Statted, f, i);
            At(two, a) && MayDo(two, a, Write(true, "")) && Next(two, Act(a, Write(true, ""))) == Acquired(s, a, f, i)
  {
    var two := Created(s, a, Statted, f, i);
    var me := two.agents[a];
    assert two.content[f := me.record] == s.content[f := me.record];
    var you := me.(phase := Outstanding(true), acquired := true);
    assert two.agents[a := you] == s.agents[a := you];
    assert EffectOf(two, a, Write(true, "")) == Writing(two, a, me, true, "");
    hide EffectOf, MayDo;
  }

  /** The lock is handed over: in every state that this code alone can reach, a quiet process can
      release its outstanding acquisition, and then any quiet process with nothing else in its cache
      can acquire. */
  lemma {:induction false} HandedOver(s: State, es: seq<Event>, a: nat, token: nat, b: nat, f: FileId, i: nat)
    requires Initial(s) && Possible(s, es) && OnlyThisCode(es)
    requires var t := Run(s, es);
             && a in t.agents && t.agents[a].phase.Outstanding? && Quiet(t, t.agents[a].process)
             && Aside(token) !in t.names && Unclaimed(t, Aside(token))
             && At(t, b) && t.agents[b].phase.Idle? && Quiet(t, t.agents[b].process) && Fresh(t, f, i)
             && (t.agents[b].kind.Normal? && t.agents[b].process in t.held ==> t.held[t.agents[b].process] == a)
    ensures var t, release, acquire := Run(s, es), ReleaseCalls(a, token), AcquireCalls(b, f, i);
            && Possible(t, release) && Possible(Run(t, release), acquire)
            && var u := Run(Run(t, release), acquire);
               && a in u.agents && u.agents[a].phase.Ended?
               && b in u.agents && u.agents[b].phase == Outstanding(true) && NamedAs(u, LockPath, f) && u.agents[b].file == f
  {
    hide Next, Enabled, Fresh, OnlyThisCode, Possible, Run;
    InitialInv(s);
    assert Held(s);
    RunHolds(s, es);
    RunKeeps(s, es);
    var t := Run(s, es);
    ReleaseRuns(t, a, token);
    var u := Freed(t, a);
    FreshStays(t, a, f, i);
    assert At(u, b) && b != a;
    assert t.agents[b].process in u.held ==> t.agents[b].kind.Inspect?;
    AcquireRuns(u, b, f, i);
  }

  lemma FreshStays(s: State, a: nat, f: FileId, i: nat)
    requires a in s.agents && Fresh(s, f, i)
    ensures Fresh(Freed(s, a), f, i)
  {
    var t := Freed(s, a);
    forall g | Live(t, g) ensures Live(s, g) {
      if n :| NamedAs(t, n, g) { assert NamedAs(s, n, g); }
      else if b :| OpenBy(t, b, g) { assert OpenBy(s, b, g); }
    }
  }
}
