/** kfork, kexit, reparent, kwait and freeproc (kernel/proc.c) under any
    interleaving. Processes meet under wait_lock. In kwait's sleep on its own
    process, releasing wait_lock and going to sleep is one step here: by
    SleepWakeup.WakeupReachesAll, a wakeup under wait_lock reaches everyone
    who has released it in such a sleep. */
module ExitWait {
  import opened Blocks

  // ACTIVE stands for RUNNABLE, RUNNING and sleeps outside kwait.
  datatype RunState = UNUSED | USED | ACTIVE | SLEEPING | ZOMBIE

  datatype Pc =
    | Out                                 // anywhere else
    | ForkHave(np: nat)                   // kfork: np allocated
    | ForkLinked(np: nat)                 // kfork: np->parent set
    // kexit, all but the last two holding wait_lock
    | ExitScan(i: nat)                    // reparent at slot i
    | ExitTold(i: nat)                    // slot i given to init, which is not yet woken
    | ExitNotify | ExitZombie | ExitUnlock
    | ExitSwitch                          // p->lock held until swtch is over
    | Parked
    // kwait
    | WaitScan(i: nat, havekids: bool)    // holding wait_lock
    | WaitAsleep

  datatype Proc = Proc(state: RunState, parent: Option<nat>, pid: nat, pc: Pc)

  // `exited` and `reaped` record the pids that became zombies and those that
  // kwait has returned.
  datatype State = State(procs: seq<Proc>, lock: Option<nat>, nextpid: nat, exited: set<nat>, reaped: seq<nat>)

  const INIT: nat := 0   // initproc

  const EMPTY: Proc := Proc(UNUSED, None, 0, Out)   // what freeproc leaves

  datatype Action =
    | ForkAlloc(np: nat) | ForkFail | ForkLink | ForkRun
    | ExitBegin | Exit
    | WaitBegin | WaitNext(copyFails: bool, killed: bool)
    | Kill(q: nat)

  // acquire(&pp->lock) in kwait spins while pp is still switching away.
  predicate ProcLocked(pc: Pc) { pc.ExitUnlock? || pc.ExitSwitch? }

  predicate HoldsWaitLock(pc: Pc) {
    pc.ExitScan? || pc.ExitTold? || pc.ExitNotify? || pc.ExitZombie? || pc.ExitUnlock? || pc.WaitScan?
  }

  // wakeup on the channel of process q
  function Woken(pr: Proc): Proc { if pr.state == SLEEPING then pr.(state := ACTIVE) else pr }

  predicate Enabled(s: State, p: nat, a: Action) {
    && p < |s.procs| && (s.procs[p].state == ACTIVE || (a == Exit && s.procs[p].state == ZOMBIE))
    && match a {
         case ForkAlloc(np) => s.procs[p].pc == Out && np < |s.procs| && s.procs[np].state == UNUSED
         case ForkFail => s.procs[p].pc.ForkHave? && s.procs[p].pc.np < |s.procs|
         case ForkLink => s.procs[p].pc.ForkHave? && s.procs[p].pc.np < |s.procs| && s.lock == None
         case ForkRun => s.procs[p].pc.ForkLinked? && s.procs[p].pc.np < |s.procs|
         case ExitBegin => s.procs[p].pc == Out && p != INIT && s.lock == None
         case Exit =>
           (match s.procs[p].pc
            case ExitScan(i) => i <= |s.procs|
            case ExitTold(_) => true
            case ExitNotify => true
            case ExitZombie => true
            case ExitUnlock => true
            case ExitSwitch => true
            case _ => false)
         case WaitBegin => (s.procs[p].pc == Out || s.procs[p].pc == WaitAsleep) && s.lock == None
         case WaitNext(_, _) =>
           && s.procs[p].pc.WaitScan? && s.procs[p].pc.i <= |s.procs|
           && (s.procs[p].pc.i < |s.procs| && s.procs[s.procs[p].pc.i].parent == Some(p) ==>
                 !ProcLocked(s.procs[s.procs[p].pc.i].pc))
         case Kill(q) => s.procs[p].pc == Out && q < |s.procs|
       }
  }

  // A step by process p: its new record, at most one other slot and that
  // slot's new record, and the new wait_lock.
  datatype Effect = Effect(me: Proc, at: nat, other: Proc, lock: Option<nat>)

  function Only(s: State, p: nat, pc: Pc, lock: Option<nat>): Effect
    requires p < |s.procs|
  {
    Effect(s.procs[p].(pc := pc), p, s.procs[p], lock)
  }

  function Both(s: State, p: nat, pc: Pc, at: nat, other: Proc): Effect
    requires p < |s.procs|
  {
    Effect(s.procs[p].(pc := pc), at, other, s.lock)
  }

  function ExitEffect(s: State, p: nat): Effect
    requires Enabled(s, p, Exit)
  {
    var me := s.procs[p];
    match me.pc
    case ExitScan(i) =>
      if i == |s.procs| then Only(s, p, ExitNotify, s.lock)
      else if s.procs[i].parent == Some(p) then Both(s, p, ExitTold(i), i, s.procs[i].(parent := Some(INIT)))
      else Only(s, p, ExitScan(i + 1), s.lock)
    case ExitTold(i) => Both(s, p, ExitScan(i + 1), INIT, Woken(s.procs[INIT]))
    case ExitNotify =>
      if me.parent.Some? && me.parent.value < |s.procs| then
        Both(s, p, ExitZombie, me.parent.value, Woken(s.procs[me.parent.value]))
      else Only(s, p, ExitZombie, s.lock)
    case ExitZombie => Effect(me.(state := ZOMBIE, pc := ExitUnlock), p, me, s.lock)
    case ExitUnlock => Only(s, p, ExitSwitch, None)
    case ExitSwitch => Only(s, p, Parked, s.lock)
  }

  function WaitEffect(s: State, p: nat, copyFails: bool, killed: bool): Effect
    requires Enabled(s, p, WaitNext(copyFails, killed))
  {
    var me := s.procs[p];
    var i := me.pc.i;
    if i == |s.procs| then
      if !me.pc.havekids || killed then Only(s, p, Out, None)
      else Effect(me.(state := SLEEPING, pc := WaitAsleep), p, me, None)
    else if s.procs[i].parent != Some(p) then Only(s, p, WaitScan(i + 1, me.pc.havekids), s.lock)
    else if s.procs[i].state != ZOMBIE then Only(s, p, WaitScan(i + 1, true), s.lock)
    else if copyFails then Only(s, p, Out, None)
    else Effect(me.(pc := Out), i, EMPTY, None)
  }

  function EffectOf(s: State, p: nat, a: Action): Effect
    requires Enabled(s, p, a)
  {
    var pc := s.procs[p].pc;
    match a
    case ForkAlloc(np) => Both(s, p, ForkHave(np), np, Proc(USED, None, s.nextpid, Out))
    case ForkFail => Both(s, p, Out, pc.np, EMPTY)
    case ForkLink => Both(s, p, ForkLinked(pc.np), pc.np, s.procs[pc.np].(parent := Some(p)))
    case ForkRun => Both(s, p, Out, pc.np, s.procs[pc.np].(state := ACTIVE))
    case ExitBegin => Only(s, p, ExitScan(0), Some(p))
    case Exit => ExitEffect(s, p)
    case WaitBegin => Only(s, p, WaitScan(0, false), Some(p))
    case WaitNext(copyFails, killed) => WaitEffect(s, p, copyFails, killed)
    case Kill(q) => Both(s, p, Out, q, Woken(s.procs[q]))
  }

  // kwait frees a zombie child.
  predicate Reaps(s: State, p: nat, a: Action)
    requires Enabled(s, p, a)
  {
    a.WaitNext? && s.procs[p].pc.i < |s.procs| && s.procs[s.procs[p].pc.i].parent == Some(p)
    && s.procs[s.procs[p].pc.i].state == ZOMBIE && !a.copyFails
  }

  function Apply(s: State, p: nat, a: Action): State
    requires Enabled(s, p, a)
  {
    var e := EffectOf(s, p, a);
    State(
      if e.at < |s.procs| then s.procs[e.at := e.other][p := e.me] else s.procs,
      e.lock,
      if a.ForkAlloc? then s.nextpid + 1 else s.nextpid,
      if a == Exit && s.procs[p].pc == ExitZombie then s.exited + {s.procs[p].pid} else s.exited,
      if Reaps(s, p, a) then s.reaped + [s.procs[s.procs[p].pc.i].pid] else s.reaped)
  }

  // --- the invariant ---

  predicate StateOk(pr: Proc) {
    match pr.state
    case UNUSED => pr == EMPTY
    case USED => pr.pc == Out
    case ACTIVE => !(pr.pc.ExitUnlock? || pr.pc.ExitSwitch? || pr.pc.Parked?)
    case SLEEPING => pr.pc == WaitAsleep
    case ZOMBIE => pr.pc.ExitUnlock? || pr.pc.ExitSwitch? || pr.pc.Parked?
  }

  predicate Live(pr: Proc) { pr.state == ACTIVE || pr.state == SLEEPING }

  // A slot that kfork is filling, and by whom.
  predicate Forks(pc: Pc, np: nat) { pc == ForkHave(np) || pc == ForkLinked(np) }

  ghost predicate ForkOk(s: State, p: nat, n: nat)
    requires p < |s.procs|
  {
    Forks(s.procs[p].pc, n) ==>
      && n < |s.procs| && s.procs[n].state == USED
      && s.procs[n].parent == if s.procs[p].pc.ForkHave? then None else Some(p)
  }

  ghost predicate OneFork(s: State, p: nat, q: nat, n: nat)
    requires p < |s.procs| && q < |s.procs|
  {
    Forks(s.procs[p].pc, n) && Forks(s.procs[q].pc, n) ==> p == q
  }

  ghost predicate ForksOk(s: State) {
    && (forall p: nat, n: nat :: p < |s.procs| ==> ForkOk(s, p, n))
    && (forall p: nat, q: nat, n: nat :: p < |s.procs| && q < |s.procs| ==> OneFork(s, p, q, n))
  }

  ghost predicate BeingForked(s: State, n: nat) {
    exists p :: 0 <= p < |s.procs| && Forks(s.procs[p].pc, n)
  }

  // A slot is USED only while somebody's kfork is filling it.
  ghost predicate UsedOk(s: State) {
    forall n: nat :: n < |s.procs| && s.procs[n].state == USED ==> BeingForked(s, n)
  }

  ghost predicate LockOk(s: State) {
    && (forall p :: 0 <= p < |s.procs| && HoldsWaitLock(s.procs[p].pc) ==> s.lock == Some(p))
    && (s.lock.Some? ==> s.lock.value < |s.procs| && HoldsWaitLock(s.procs[s.lock.value].pc))
  }

  // q has got past slot i in reparent.
  predicate GaveAway(pc: Pc, i: nat) {
    match pc
    case ExitScan(k) => i < k
    case ExitTold(k) => i <= k
    case _ => pc.ExitNotify? || pc.ExitZombie? || pc.ExitUnlock? || pc.ExitSwitch? || pc.Parked?
  }

  // Parents are alive, and an exiting process has no child behind its scan.
  ghost predicate ParentOk(s: State, i: nat)
    requires i < |s.procs|
  {
    match s.procs[i].parent
    case None => i == INIT || s.procs[i].state == UNUSED || s.procs[i].state == USED
    case Some(q) => q < |s.procs| && Live(s.procs[q]) && !GaveAway(s.procs[q].pc, i) && i != INIT && i != q
  }

  predicate Exiting(pc: Pc) {
    pc.ExitScan? || pc.ExitTold? || pc.ExitNotify? || pc.ExitZombie? || pc.ExitUnlock? || pc.ExitSwitch? || pc.Parked?
  }

  ghost predicate FamilyOk(s: State) {
    && INIT < |s.procs| && Live(s.procs[INIT]) && s.procs[INIT].parent == None && !Exiting(s.procs[INIT].pc)
    && forall i :: 0 <= i < |s.procs| ==> ParentOk(s, i)
  }

  // The parent of a process about to be a zombie, or just become one, is awake.
  ghost predicate Notified(s: State, z: nat)
    requires z < |s.procs|
  {
    var pr := s.procs[z];
    (pr.pc.ExitZombie? || pr.pc.ExitUnlock?) && pr.parent.Some? && pr.parent.value < |s.procs| ==>
      s.procs[pr.parent.value].state != SLEEPING
  }

  // Nobody sleeps in kwait beside a zombie child, unless it is init and has
  // just been given that child.
  ghost predicate Attended(s: State, z: nat)
    requires z < |s.procs|
  {
    var pr := s.procs[z];
    pr.state == ZOMBIE && pr.parent.Some? && pr.parent.value < |s.procs|
    && s.procs[pr.parent.value].state == SLEEPING ==>
      pr.parent == Some(INIT) && s.lock.Some? && s.lock.value < |s.procs| && s.procs[s.lock.value].pc == ExitTold(z)
  }

  ghost predicate ZombiesOk(s: State) {
    && (forall z :: 0 <= z < |s.procs| ==> Notified(s, z))
    && (forall z :: 0 <= z < |s.procs| ==> Attended(s, z))
  }

  // What kwait has seen of the slots before i.
  ghost predicate ScanOk(s: State, p: nat)
    requires p < |s.procs|
  {
    s.procs[p].pc.WaitScan? ==>
      && s.procs[p].pc.i <= |s.procs|
      && (forall j :: 0 <= j < s.procs[p].pc.i && s.procs[j].parent == Some(p) ==> s.procs[j].state != ZOMBIE)
      && (s.procs[p].pc.havekids <==> exists j :: 0 <= j < s.procs[p].pc.i && s.procs[j].parent == Some(p))
  }

  ghost predicate ScansOk(s: State) {
    forall p :: 0 <= p < |s.procs| ==> ScanOk(s, p)
  }

  // A pid in use is new, not yet reaped, and has exited exactly if its process is a zombie.
  ghost predicate PidOk(s: State, i: nat)
    requires i < |s.procs|
  {
    s.procs[i].state != UNUSED ==>
      && s.procs[i].pid < s.nextpid && s.procs[i].pid !in s.reaped
      && (s.procs[i].pid in s.exited <==> s.procs[i].state == ZOMBIE)
  }

  ghost predicate PidsDiffer(s: State, i: nat, j: nat)
    requires i < |s.procs| && j < |s.procs|
  {
    i != j && s.procs[i].state != UNUSED && s.procs[j].state != UNUSED ==> s.procs[i].pid != s.procs[j].pid
  }

  // Every process that has exited is a zombie now or has been reaped.
  ghost predicate Accounted(s: State, x: nat) {
    x < s.nextpid && (x in s.reaped ||
      exists i :: 0 <= i < |s.procs| && s.procs[i].state == ZOMBIE && s.procs[i].pid == x)
  }

  ghost predicate PidsOk(s: State) {
    && (forall i: nat :: i < |s.procs| ==> PidOk(s, i))
    && (forall i: nat, j: nat :: i < |s.procs| && j < |s.procs| ==> PidsDiffer(s, i, j))
    && (forall i, j :: 0 <= i < j < |s.reaped| ==> s.reaped[i] != s.reaped[j])
    && (forall x :: x in s.reaped ==> x in s.exited)
    && (forall x :: x in s.exited ==> Accounted(s, x))
  }

  ghost predicate StatesOk(s: State) {
    forall p :: 0 <= p < |s.procs| ==> StateOk(s.procs[p])
  }

  ghost predicate Inv(s: State) {
    StatesOk(s) && LockOk(s) && ForksOk(s) && UsedOk(s) && FamilyOk(s) && ZombiesOk(s) && ScansOk(s) && PidsOk(s)
  }

  // --- every step keeps it ---

  // The slot a process is filling in kfork.
  lemma ForkedIsUsed(s: State, p: nat)
    requires ForksOk(s) && p < |s.procs| && (s.procs[p].pc.ForkHave? || s.procs[p].pc.ForkLinked?)
    ensures var n := s.procs[p].pc.np;
      && n < |s.procs| && s.procs[n].state == USED
      && s.procs[n].parent == if s.procs[p].pc.ForkHave? then None else Some(p)
  {
    assert ForkOk(s, p, s.procs[p].pc.np);
  }

  // Facts about one step's effect, slot by slot.
  lemma EffectStates(s: State, p: nat, a: Action)
    requires StatesOk(s) && ForksOk(s) && FamilyOk(s) && Enabled(s, p, a)
    ensures var e := EffectOf(s, p, a);
      e.at < |s.procs| && StateOk(e.me) && (e.at != p ==> StateOk(e.other))
  {
    assert StateOk(s.procs[p]) && ParentOk(s, p);
    if s.procs[p].pc.ForkHave? || s.procs[p].pc.ForkLinked? {
      ForkedIsUsed(s, p);
    }
  }

  lemma NewSlots(s: State, p: nat, a: Action)
    requires StatesOk(s) && ForksOk(s) && FamilyOk(s) && Enabled(s, p, a)
    ensures var e, s' := EffectOf(s, p, a), Apply(s, p, a);
      && p < |s.procs| && (s.procs[p].state == ACTIVE || s.procs[p].state == ZOMBIE)
      && e.at < |s.procs| && |s'.procs| == |s.procs| && s'.lock == e.lock
      && forall q :: 0 <= q < |s.procs| ==>
           s'.procs[q] == if q == p then e.me else if q == e.at then e.other else s.procs[q]
  {
    hide EffectOf;
    EffectStates(s, p, a);
  }

  lemma KeepsStates(s: State, p: nat, a: Action)
    requires StatesOk(s) && ForksOk(s) && FamilyOk(s) && Enabled(s, p, a)
    ensures StatesOk(Apply(s, p, a))
  {
    hide EffectOf, Apply, Enabled;
    EffectStates(s, p, a);
    NewSlots(s, p, a);
  }

  lemma EffectLock(s: State, p: nat, a: Action)
    requires StatesOk(s) && LockOk(s) && ForksOk(s) && FamilyOk(s) && Enabled(s, p, a)
    ensures var e := EffectOf(s, p, a);
      && (HoldsWaitLock(e.me.pc) <==> e.lock == Some(p))
      && (e.lock == s.lock || (s.lock == Some(p) && e.lock == None) || (s.lock == None && e.lock == Some(p)))
      && (e.at != p && e.at < |s.procs| ==> (HoldsWaitLock(e.other.pc) <==> HoldsWaitLock(s.procs[e.at].pc)))
  {
    assert StateOk(s.procs[p]);
    if s.procs[p].pc.ForkHave? || s.procs[p].pc.ForkLinked? {
      ForkedIsUsed(s, p);
    }
  }

  lemma KeepsLock(s: State, p: nat, a: Action)
    requires StatesOk(s) && LockOk(s) && ForksOk(s) && FamilyOk(s) && Enabled(s, p, a)
    ensures LockOk(Apply(s, p, a))
  {
    hide EffectOf, Apply, Enabled;
    EffectLock(s, p, a);
    NewSlots(s, p, a);
  }

  // kfork hands out each slot once.
  lemma EffectForks(s: State, p: nat, a: Action, n: nat)
    requires StatesOk(s) && LockOk(s) && ForksOk(s) && FamilyOk(s) && Enabled(s, p, a)
    ensures var e := EffectOf(s, p, a);
      && (Forks(e.me.pc, n) ==>
            (e.at == n && n != p && e.other.state == USED
              && e.other.parent == if e.me.pc.ForkHave? then None else Some(p)))
      && (Forks(e.me.pc, n) && !Forks(s.procs[p].pc, n) ==> n < |s.procs| && s.procs[n].state == UNUSED)
      && (e.at != p ==> !Forks(e.other.pc, n) || e.other.pc == s.procs[e.at].pc)
      && (e.at != p && s.procs[e.at].state == USED && !Forks(s.procs[p].pc, e.at) ==>
            e.other == s.procs[e.at].(parent := e.other.parent)
            && (e.other.parent != s.procs[e.at].parent ==> s.procs[e.at].parent == Some(p)))
  {
    assert StateOk(s.procs[p]);
    if s.procs[p].pc.ForkHave? || s.procs[p].pc.ForkLinked? {
      ForkedIsUsed(s, p);
    }
  }

  lemma KeepsForks(s: State, p: nat, a: Action)
    requires StatesOk(s) && LockOk(s) && ForksOk(s) && FamilyOk(s) && Enabled(s, p, a)
    ensures ForksOk(Apply(s, p, a))
  {
    hide EffectOf, Apply, Enabled;
    var s' := Apply(s, p, a);
    NewSlots(s, p, a);
    forall q: nat, n: nat | q < |s.procs| ensures ForkOk(s', q, n) {
      EffectForks(s, p, a, n);
      assert ForkOk(s, q, n) && OneFork(s, p, q, n);
    }
    forall q: nat, r: nat, n: nat | q < |s.procs| && r < |s.procs| ensures OneFork(s', q, r, n) {
      EffectForks(s, p, a, n);
      assert OneFork(s, q, r, n) && ForkOk(s, q, n) && ForkOk(s, r, n);
    }
  }

  lemma EffectUsed(s: State, p: nat, a: Action)
    requires StatesOk(s) && LockOk(s) && ForksOk(s) && FamilyOk(s) && Enabled(s, p, a)
    ensures var e := EffectOf(s, p, a);
      && e.me.state != USED && e.at < |s.procs|
      && (e.at != p && e.other.state == USED ==>
            && (s.procs[e.at].state == USED || (s.procs[e.at].state == UNUSED && e.other.pid == s.nextpid))
            && (s.procs[e.at].state == UNUSED || Forks(s.procs[p].pc, e.at) ==> Forks(e.me.pc, e.at)))
      && (forall n: nat :: Forks(s.procs[p].pc, n) && e.at != n ==> Forks(e.me.pc, n))
  {
    assert StateOk(s.procs[p]) && ParentOk(s, p);
    if s.procs[p].pc.ForkHave? || s.procs[p].pc.ForkLinked? {
      ForkedIsUsed(s, p);
    }
    EffectStates(s, p, a);
    assert StateOk(s.procs[EffectOf(s, p, a).at]);
  }

  lemma KeepsUsed(s: State, p: nat, a: Action)
    requires StatesOk(s) && LockOk(s) && ForksOk(s) && UsedOk(s) && FamilyOk(s) && Enabled(s, p, a)
    ensures UsedOk(Apply(s, p, a))
  {
    hide EffectOf, Apply, Enabled;
    var s', e := Apply(s, p, a), EffectOf(s, p, a);
    NewSlots(s, p, a);
    EffectUsed(s, p, a);
    if e.at != p {
      EffectOtherZombie(s, p, a);
    }
    forall n: nat | n < |s'.procs| && s'.procs[n].state == USED ensures BeingForked(s', n) {
      if s.procs[n].state == USED {
        assert BeingForked(s, n);
        var q :| 0 <= q < |s.procs| && Forks(s.procs[q].pc, n);
        assert StateOk(s.procs[q]);
        assert Forks(s'.procs[q].pc, n);
      } else {
        assert Forks(s'.procs[p].pc, n);
      }
    }
  }

  lemma EffectMover(s: State, p: nat, a: Action, i: nat)
    requires StatesOk(s) && LockOk(s) && ForksOk(s) && FamilyOk(s) && Enabled(s, p, a) && i < |s.procs|
    ensures var e := EffectOf(s, p, a);
      && e.me.parent == s.procs[p].parent && (p == INIT ==> !Exiting(e.me.pc))
      && (Live(s.procs[p]) && !Live(e.me) ==> s.procs[p].pc == ExitZombie)
      && (GaveAway(e.me.pc, i) && !GaveAway(s.procs[p].pc, i) ==>
            (if i == p then e.me.parent else if i == e.at then e.other.parent else s.procs[i].parent) != Some(p))
  {
    assert StateOk(s.procs[p]) && ParentOk(s, p) && ParentOk(s, i);
    if s.procs[p].pc.ForkHave? || s.procs[p].pc.ForkLinked? {
      ForkedIsUsed(s, p);
    }
  }

  lemma EffectOther(s: State, p: nat, a: Action, i: nat)
    requires StatesOk(s) && LockOk(s) && ForksOk(s) && FamilyOk(s) && Enabled(s, p, a) && EffectOf(s, p, a).at != p
    ensures var e := EffectOf(s, p, a);
      && e.at < |s.procs|
      && (Live(s.procs[e.at]) ==> Live(e.other) && e.other.parent in {s.procs[e.at].parent, Some(INIT)})
      && (GaveAway(e.other.pc, i) ==> GaveAway(s.procs[e.at].pc, i))
      && (Exiting(e.other.pc) ==> Exiting(s.procs[e.at].pc))
      && (e.other.parent == None ==> e.at == INIT || e.other.state == UNUSED || e.other.state == USED)
      && (e.other.parent != None && e.other.parent != s.procs[e.at].parent ==>
            (e.other.parent == Some(p) && e.me.pc.ForkLinked? && Live(e.me) && s.procs[e.at].state == USED)
            || (e.other.parent == Some(INIT) && s.procs[e.at].parent == Some(p)))
  {
    assert StateOk(s.procs[p]) && ParentOk(s, p);
    if s.procs[p].pc.ForkHave? || s.procs[p].pc.ForkLinked? {
      ForkedIsUsed(s, p);
    }
    EffectStates(s, p, a);
    assert ParentOk(s, EffectOf(s, p, a).at) && StateOk(s.procs[EffectOf(s, p, a).at]);
  }

  lemma KeepsFamily(s: State, p: nat, a: Action)
    requires StatesOk(s) && LockOk(s) && ForksOk(s) && FamilyOk(s) && Enabled(s, p, a)
    ensures FamilyOk(Apply(s, p, a))
  {
    hide EffectOf, Apply, Enabled;
    var s', e := Apply(s, p, a), EffectOf(s, p, a);
    NewSlots(s, p, a);
    EffectMover(s, p, a, INIT);
    if e.at != p {
      EffectOther(s, p, a, INIT);
    }
    forall i | 0 <= i < |s.procs| ensures ParentOk(s', i) {
      EffectMover(s, p, a, i);
      if e.at != p {
        EffectOther(s, p, a, i);
      }
      assert ParentOk(s, i) && StateOk(s.procs[p]);
    }
  }

  predicate Ending(pc: Pc) { pc.ExitZombie? || pc.ExitUnlock? }

  lemma EffectMoverZombie(s: State, p: nat, a: Action)
    requires StatesOk(s) && LockOk(s) && ForksOk(s) && FamilyOk(s) && Enabled(s, p, a)
    ensures var e := EffectOf(s, p, a);
      // it falls asleep only after a whole scan
      && (e.me.state == SLEEPING ==> s.procs[p].pc == WaitScan(|s.procs|, true) && e.at == p && e.lock == None)
      && (e.me.state == ZOMBIE ==> e.at == p && (s.procs[p].state == ZOMBIE || s.procs[p].pc == ExitZombie))
      // it wakes its parent before it ends, and init before it scans on
      && (Ending(e.me.pc) && !(Ending(s.procs[p].pc) && e.at == p) ==>
            s.procs[p].pc == ExitNotify && s.procs[p].parent == Some(e.at) && e.at != p && e.other.state != SLEEPING)
      && (s.procs[p].pc.ExitTold? ==> e.at == INIT && p != INIT && e.other.state != SLEEPING)
  {
    assert StateOk(s.procs[p]) && ParentOk(s, p);
    if s.procs[p].pc.ForkHave? || s.procs[p].pc.ForkLinked? {
      ForkedIsUsed(s, p);
    }
  }

  lemma EffectOtherZombie(s: State, p: nat, a: Action)
    requires StatesOk(s) && LockOk(s) && ForksOk(s) && FamilyOk(s) && Enabled(s, p, a) && EffectOf(s, p, a).at != p
    ensures var e := EffectOf(s, p, a);
      && e.at < |s.procs|
      && (e.other.state == SLEEPING ==> s.procs[e.at].state == SLEEPING)
      && (e.other.state == ZOMBIE ==> s.procs[e.at].state == ZOMBIE)
      && (Ending(e.other.pc) || Live(s.procs[e.at]) ==> s.procs[e.at].pc == e.other.pc)
      && (e.other.parent == s.procs[e.at].parent || e.other.state == UNUSED || e.other.state == USED
          || (s.procs[e.at].parent == Some(p) && e.other.parent == Some(INIT)
              && e.me.pc == ExitTold(e.at) && e.lock == Some(p)))
  {
    assert StateOk(s.procs[p]) && ParentOk(s, p);
    if s.procs[p].pc.ForkHave? || s.procs[p].pc.ForkLinked? {
      ForkedIsUsed(s, p);
    }
    EffectStates(s, p, a);
    assert StateOk(s.procs[EffectOf(s, p, a).at]);
  }

  lemma KeepsNotified(s: State, p: nat, a: Action, z: nat)
    requires StatesOk(s) && LockOk(s) && ForksOk(s) && FamilyOk(s) && Enabled(s, p, a) && z < |s.procs|
    requires Notified(s, z)
    ensures z < |Apply(s, p, a).procs| && Notified(Apply(s, p, a), z)
  {
    hide EffectOf, Apply, Enabled;
    var e := EffectOf(s, p, a);
    NewSlots(s, p, a);
    EffectStates(s, p, a);
    EffectMover(s, p, a, INIT);
    EffectMoverZombie(s, p, a);
    EffectLock(s, p, a);
    if e.at != p {
      EffectOtherZombie(s, p, a);
    }
    assert ParentOk(s, z);
    if Ending(s.procs[z].pc) {
      assert HoldsWaitLock(s.procs[z].pc);
      assert s.procs[p].pc.WaitScan? ==> HoldsWaitLock(s.procs[p].pc);
    }
  }

  lemma KeepsAttended(s: State, p: nat, a: Action, z: nat)
    requires StatesOk(s) && LockOk(s) && ForksOk(s) && FamilyOk(s) && Enabled(s, p, a) && z < |s.procs|
    requires Notified(s, z) && Attended(s, z) && ScanOk(s, p)
    ensures z < |Apply(s, p, a).procs| && Attended(Apply(s, p, a), z)
  {
    hide EffectOf, Apply, Enabled;
    var e := EffectOf(s, p, a);
    NewSlots(s, p, a);
    EffectStates(s, p, a);
    EffectMover(s, p, a, INIT);
    EffectMoverZombie(s, p, a);
    EffectLock(s, p, a);
    if e.at != p {
      EffectOtherZombie(s, p, a);
    }
    assert ParentOk(s, z);
    if s.lock.Some? {
      assert StateOk(s.procs[s.lock.value]);
    }
  }

  lemma KeepsZombies(s: State, p: nat, a: Action)
    requires StatesOk(s) && LockOk(s) && ForksOk(s) && FamilyOk(s) && ZombiesOk(s) && ScansOk(s) && Enabled(s, p, a)
    ensures ZombiesOk(Apply(s, p, a))
  {
    hide Apply, Notified, Attended, ScanOk;
    NewSlots(s, p, a);
    forall z | 0 <= z < |s.procs| ensures Notified(Apply(s, p, a), z) && Attended(Apply(s, p, a), z) {
      KeepsNotified(s, p, a, z);
      KeepsAttended(s, p, a, z);
    }
  }

  // Nobody but its holder changes what wait_lock protects.
  lemma EffectUnderLock(s: State, p: nat, a: Action)
    requires StatesOk(s) && LockOk(s) && ForksOk(s) && FamilyOk(s) && Enabled(s, p, a) && s.lock.Some?
    requires s.lock != Some(p)
    ensures var e := EffectOf(s, p, a);
      && e.at < |s.procs| && e.me.parent == s.procs[p].parent && (e.me.state == ZOMBIE ==> s.procs[p].state == ZOMBIE)
      && (e.at != p ==>
            e.other.parent == s.procs[e.at].parent && (e.other.state == ZOMBIE ==> s.procs[e.at].state == ZOMBIE))
      && (e.at != p ==> e.other.pc == s.procs[e.at].pc) && !e.me.pc.WaitScan?
  {
    assert StateOk(s.procs[p]) && ParentOk(s, p);
    assert !HoldsWaitLock(s.procs[p].pc);
    if s.procs[p].pc.ForkHave? || s.procs[p].pc.ForkLinked? {
      ForkedIsUsed(s, p);
    }
    EffectStates(s, p, a);
    assert StateOk(s.procs[EffectOf(s, p, a).at]);
  }

  lemma EffectScan(s: State, p: nat, a: Action)
    requires StatesOk(s) && ForksOk(s) && FamilyOk(s) && Enabled(s, p, a) && EffectOf(s, p, a).me.pc.WaitScan?
    ensures var e := EffectOf(s, p, a);
      && e.at == p && e.me.parent == s.procs[p].parent
      && (e.me.pc == WaitScan(0, false) || (&& s.procs[p].pc.WaitScan? && e.me.pc.i == s.procs[p].pc.i + 1 <= |s.procs|
            && (s.procs[s.procs[p].pc.i].parent == Some(p) ==> s.procs[s.procs[p].pc.i].state != ZOMBIE)
            && e.me.pc.havekids == (s.procs[p].pc.havekids || s.procs[s.procs[p].pc.i].parent == Some(p))))
  {
  }

  lemma KeepsScan(s: State, p: nat, a: Action, q: nat)
    requires StatesOk(s) && LockOk(s) && ForksOk(s) && FamilyOk(s) && Enabled(s, p, a) && q < |s.procs| && ScanOk(s, q)
    ensures q < |Apply(s, p, a).procs| && ScanOk(Apply(s, p, a), q)
  {
    hide EffectOf, Apply, Enabled;
    var s', e := Apply(s, p, a), EffectOf(s, p, a);
    NewSlots(s, p, a);
    if s'.procs[q].pc.WaitScan? {
      if q == p {
        EffectScan(s, p, a);
        assert ParentOk(s, p);
        assert forall j :: 0 <= j < |s.procs| ==> s'.procs[j].parent == s.procs[j].parent;
        var i := s'.procs[p].pc.i;
        if s'.procs[p].pc.havekids && s.procs[p].pc.havekids {
          var j :| 0 <= j < i - 1 && s.procs[j].parent == Some(p);
          assert s'.procs[j].parent == Some(p);
        } else if s'.procs[p].pc.havekids {
          assert s'.procs[i - 1].parent == Some(p);
        }
      } else {
        KeepsOtherScan(s, p, a, q);
      }
    }
  }

  lemma KeepsOtherScan(s: State, p: nat, a: Action, q: nat)
    requires StatesOk(s) && LockOk(s) && ForksOk(s) && FamilyOk(s) && Enabled(s, p, a) && q < |s.procs| && ScanOk(s, q)
    requires q != p
    requires q < |Apply(s, p, a).procs| && Apply(s, p, a).procs[q].pc.WaitScan?
    ensures ScanOk(Apply(s, p, a), q)
  {
    hide EffectOf, Apply, Enabled;
    var s', e := Apply(s, p, a), EffectOf(s, p, a);
    NewSlots(s, p, a);
    EffectLock(s, p, a);
    assert HoldsWaitLock(s.procs[q].pc) by {
      if e.at == q {
        EffectLock(s, p, a);
      }
    }
    EffectUnderLock(s, p, a);
    assert s'.procs[q].pc == s.procs[q].pc;
    assert forall j :: 0 <= j < |s.procs| ==> s'.procs[j].parent == s.procs[j].parent;
    if s.procs[q].pc.havekids {
      var j :| 0 <= j < s.procs[q].pc.i && s.procs[j].parent == Some(q);
      assert s'.procs[j].parent == Some(q);
    }
  }

  lemma EffectPids(s: State, p: nat, a: Action)
    requires StatesOk(s) && ForksOk(s) && FamilyOk(s) && Enabled(s, p, a)
    ensures var e, s' := EffectOf(s, p, a), Apply(s, p, a);
      && e.at < |s.procs| && e.me.pid == s.procs[p].pid && s.procs[p].state != UNUSED && e.me.state != UNUSED
      && s.nextpid <= s'.nextpid
      && (s'.exited != s.exited ==>
            s.procs[p].state != ZOMBIE && e.me.state == ZOMBIE && s'.exited == s.exited + {s.procs[p].pid})
      && (s'.exited == s.exited && s.procs[p].pid !in s.exited ==>
            (e.me.state == ZOMBIE <==> s.procs[p].state == ZOMBIE))
      && (s.procs[p].state == ZOMBIE ==> e.me.state == ZOMBIE)
      && (s'.reaped != s.reaped ==>
            && e.at != p && s.procs[e.at].state == ZOMBIE && e.other.state == UNUSED
             && s'.reaped == s.reaped + [s.procs[e.at].pid])
  {
    assert StateOk(s.procs[p]) && ParentOk(s, p);
    if s.procs[p].pc.ForkHave? || s.procs[p].pc.ForkLinked? {
      ForkedIsUsed(s, p);
    }
    EffectStates(s, p, a);
  }

  lemma EffectOtherPid(s: State, p: nat, a: Action)
    requires StatesOk(s) && ForksOk(s) && FamilyOk(s) && Enabled(s, p, a) && EffectOf(s, p, a).at != p
    ensures var e, s' := EffectOf(s, p, a), Apply(s, p, a);
      && e.at < |s.procs|
      && ((e.other.pid == s.procs[e.at].pid
           && (e.other.state == UNUSED <==> s.procs[e.at].state == UNUSED)
            && (e.other.state == ZOMBIE <==> s.procs[e.at].state == ZOMBIE))
          || (s'.nextpid == s.nextpid + 1 && e.other.state == USED
              && e.other.pid == s.nextpid && s.procs[e.at].state == UNUSED)
          || (e.other.state == UNUSED
              && (s.procs[e.at].state == ZOMBIE ==> s'.reaped == s.reaped + [s.procs[e.at].pid])))
  {
    assert StateOk(s.procs[p]) && ParentOk(s, p);
    if s.procs[p].pc.ForkHave? || s.procs[p].pc.ForkLinked? {
      ForkedIsUsed(s, p);
    }
    EffectStates(s, p, a);
    assert StateOk(s.procs[EffectOf(s, p, a).at]);
  }

  lemma KeepsPids(s: State, p: nat, a: Action)
    requires StatesOk(s) && ForksOk(s) && FamilyOk(s) && PidsOk(s) && Enabled(s, p, a)
    ensures PidsOk(Apply(s, p, a))
  {
    hide EffectOf, Apply, Enabled;
    var s', e := Apply(s, p, a), EffectOf(s, p, a);
    NewSlots(s, p, a);
    EffectPids(s, p, a);
    if e.at != p {
      EffectOtherPid(s, p, a);
    }
    assert PidOk(s, p) && PidOk(s, e.at) && PidsDiffer(s, p, e.at);
    forall i: nat | i < |s.procs| ensures PidOk(s', i) {
      assert PidOk(s, i) && PidsDiffer(s, i, p) && PidsDiffer(s, i, e.at);
    }
    forall i: nat, j: nat | i < |s.procs| && j < |s.procs| ensures PidsDiffer(s', i, j) {
      assert PidOk(s, i) && PidOk(s, j) && PidsDiffer(s, i, j);
    }
    forall x | x in s'.exited ensures Accounted(s', x) {
      KeepsAccounted(s, p, a, x);
    }
  }

  lemma KeepsAccounted(s: State, p: nat, a: Action, x: nat)
    requires StatesOk(s) && ForksOk(s) && FamilyOk(s) && PidsOk(s) && Enabled(s, p, a) && x in Apply(s, p, a).exited
    ensures Accounted(Apply(s, p, a), x)
  {
    hide EffectOf, Apply, Enabled;
    var s', e := Apply(s, p, a), EffectOf(s, p, a);
    NewSlots(s, p, a);
    EffectPids(s, p, a);
    if e.at != p {
      EffectOtherPid(s, p, a);
    }
    assert PidOk(s, p);
    if x in s.exited && x !in s.reaped {
      assert Accounted(s, x);
      var i :| 0 <= i < |s.procs| && s.procs[i].state == ZOMBIE && s.procs[i].pid == x;
      if s'.procs[i].state == ZOMBIE {
        assert s'.procs[i].pid == x;
      }
    } else if x !in s.exited {
      assert s'.procs[p].state == ZOMBIE && s'.procs[p].pid == x;
    }
  }

  lemma StepKeepsInv(s: State, p: nat, a: Action)
    requires Inv(s) && Enabled(s, p, a)
    ensures Inv(Apply(s, p, a))
  {
    hide Apply, Enabled, StatesOk, LockOk, ForksOk, UsedOk, FamilyOk, ZombiesOk, PidsOk, ScanOk;
    NewSlots(s, p, a);
    KeepsStates(s, p, a);
    KeepsLock(s, p, a);
    KeepsForks(s, p, a);
    KeepsUsed(s, p, a);
    KeepsFamily(s, p, a);
    KeepsZombies(s, p, a);
    KeepsPids(s, p, a);
    forall q | 0 <= q < |s.procs| ensures ScanOk(Apply(s, p, a), q) {
      KeepsScan(s, p, a, q);
    }
  }

  // --- whole runs ---

  datatype Move = Move(p: nat, a: Action)

  ghost predicate Run(trace: seq<State>, moves: seq<Move>) {
    && |trace| == |moves| + 1
    && forall i :: 0 <= i < |moves| ==>
         Enabled(trace[i], moves[i].p, moves[i].a) && trace[i + 1] == Apply(trace[i], moves[i].p, moves[i].a)
  }

  // Only init exists.
  ghost predicate Initial(s: State) {
    && |s.procs| > 0 && s.procs[INIT] == Proc(ACTIVE, None, 1, Out) && s.lock == None
    && (forall i :: 0 < i < |s.procs| ==> s.procs[i] == EMPTY)
    && s.nextpid == 2 && s.exited == {} && s.reaped == []
  }

  lemma InitialInv(s: State)
    requires Initial(s)
    ensures Inv(s)
  {
    assert forall p :: 0 <= p < |s.procs| ==> s.procs[p].state != USED && s.procs[p].pc == Out;
  }

  lemma {:induction false} RunKeepsInv(trace: seq<State>, moves: seq<Move>, i: nat)
    requires Run(trace, moves) && Initial(trace[0]) && i < |trace|
    ensures Inv(trace[i])
  {
    if i == 0 {
      InitialInv(trace[0]);
    } else {
      RunKeepsInv(trace, moves, i - 1);
      StepKeepsInv(trace[i - 1], moves[i - 1].p, moves[i - 1].a);
    }
  }

  // A parent pointer never names an unused slot or a zombie.
  lemma ParentsAreAlive(trace: seq<State>, moves: seq<Move>, i: nat, c: nat, q: nat)
    requires Run(trace, moves) && Initial(trace[0]) && i < |trace|
    requires c < |trace[i].procs| && trace[i].procs[c].parent == Some(q)
    ensures q < |trace[i].procs| && Live(trace[i].procs[q])
  {
    RunKeepsInv(trace, moves, i);
    assert ParentOk(trace[i], c);
  }

  // Every zombie has a live parent, which is awake whenever wait_lock is free.
  lemma NoStrandedZombie(trace: seq<State>, moves: seq<Move>, i: nat, z: nat)
    requires Run(trace, moves) && Initial(trace[0]) && i < |trace|
    requires z < |trace[i].procs| && trace[i].procs[z].state == ZOMBIE
    ensures var s, pr := trace[i], trace[i].procs[z];
      && pr.parent.Some? && pr.parent.value < |s.procs| && Live(s.procs[pr.parent.value])
      && (s.lock == None ==> s.procs[pr.parent.value].state == ACTIVE)
  {
    RunKeepsInv(trace, moves, i);
    assert ParentOk(trace[i], z) && Attended(trace[i], z);
  }

  // kwait returns each pid at most once, only pids that have exited, and
  // every exited process is still a zombie or has been returned.
  lemma ReapedOnce(trace: seq<State>, moves: seq<Move>, i: nat)
    requires Run(trace, moves) && Initial(trace[0]) && i < |trace|
    ensures var s := trace[i];
      && (forall j, k :: 0 <= j < k < |s.reaped| ==> s.reaped[j] != s.reaped[k])
      && (forall x :: x in s.reaped ==> x in s.exited)
      && (forall x :: x in s.exited ==> Accounted(s, x))
      && (forall j :: 0 <= j < |s.procs| && s.procs[j].state == ZOMBIE ==>
            s.procs[j].pid in s.exited && s.procs[j].pid !in s.reaped)
  {
    RunKeepsInv(trace, moves, i);
    var s := trace[i];
    forall j | 0 <= j < |s.procs| && s.procs[j].state == ZOMBIE
      ensures s.procs[j].pid in s.exited && s.procs[j].pid !in s.reaped
    {
      assert PidOk(s, j);
    }
  }

  // What kwait frees is a child of the caller that has finished switching away.
  lemma ReapsOwnParkedChild(trace: seq<State>, moves: seq<Move>, i: nat)
    requires Run(trace, moves) && Initial(trace[0]) && i < |moves| && Reaps(trace[i], moves[i].p, moves[i].a)
    ensures var s, z := trace[i], trace[i].procs[moves[i].p].pc.i;
      && z < |s.procs| && s.procs[z].parent == Some(moves[i].p) && s.procs[z].state == ZOMBIE && s.procs[z].pc == Parked
      && trace[i + 1].reaped == s.reaped + [s.procs[z].pid] && trace[i + 1].procs[z] == EMPTY
  {
    RunKeepsInv(trace, moves, i);
    var s := trace[i];
    assert StateOk(s.procs[s.procs[moves[i].p].pc.i]) && StateOk(s.procs[moves[i].p]);
  }

  // kwait gives up without a child only if it has none, and sleeps only if it
  // has children, none of them a zombie.
  lemma WaitDecides(trace: seq<State>, moves: seq<Move>, i: nat, p: nat)
    requires Run(trace, moves) && Initial(trace[0]) && i < |trace|
    requires p < |trace[i].procs| && trace[i].procs[p].pc.WaitScan? && trace[i].procs[p].pc.i == |trace[i].procs|
    ensures var s := trace[i];
      && (s.procs[p].pc.havekids <==> exists j :: 0 <= j < |s.procs| && s.procs[j].parent == Some(p))
      && (forall j :: 0 <= j < |s.procs| && s.procs[j].parent == Some(p) ==> s.procs[j].state != ZOMBIE)
  {
    RunKeepsInv(trace, moves, i);
    assert ScanOk(trace[i], p);
  }

  // A process asleep in kwait is woken exactly by the exit of a child, by an
  // exit that gives a child to init, or by a kill.
  lemma SleeperWakes(trace: seq<State>, moves: seq<Move>, i: nat, q: nat)
    requires Run(trace, moves) && Initial(trace[0]) && i < |moves|
    requires q < |trace[i].procs| && trace[i].procs[q].state == SLEEPING
    ensures q < |trace[i + 1].procs|
    ensures var s, p, a := trace[i], moves[i].p, moves[i].a;
      trace[i + 1].procs[q].state != SLEEPING <==>
        || (a == Exit && s.procs[p].pc == ExitNotify && s.procs[p].parent == Some(q))
        || (a == Exit && s.procs[p].pc.ExitTold? && q == INIT)
        || a == Kill(q)
  {
    RunKeepsInv(trace, moves, i);
    WakesExactly(trace[i], moves[i].p, moves[i].a, q);
  }

  lemma WakesExactly(s: State, p: nat, a: Action, q: nat)
    requires Inv(s) && Enabled(s, p, a) && q < |s.procs| && s.procs[q].state == SLEEPING
    ensures |Apply(s, p, a).procs| == |s.procs|
    ensures Apply(s, p, a).procs[q].state != SLEEPING <==>
      || (a == Exit && s.procs[p].pc == ExitNotify && s.procs[p].parent == Some(q))
      || (a == Exit && s.procs[p].pc.ExitTold? && q == INIT)
      || a == Kill(q)
  {
    hide ZombiesOk, ScansOk, PidsOk, UsedOk, LockOk;
    NewSlots(s, p, a);
    assert StateOk(s.procs[p]) && ParentOk(s, p) && StateOk(s.procs[q]);
    if s.procs[p].pc.ForkHave? || s.procs[p].pc.ForkLinked? {
      ForkedIsUsed(s, p);
    }
  }

  // A slot in state USED is being filled by exactly one kfork.
  lemma UsedIsBeingForked(trace: seq<State>, moves: seq<Move>, i: nat, n: nat)
    requires Run(trace, moves) && Initial(trace[0]) && i < |trace|
    requires n < |trace[i].procs| && trace[i].procs[n].state == USED
    ensures exists p :: 0 <= p < |trace[i].procs| && Forks(trace[i].procs[p].pc, n)
    ensures forall p: nat, q: nat :: p < |trace[i].procs| && q < |trace[i].procs| ==>
      Forks(trace[i].procs[p].pc, n) && Forks(trace[i].procs[q].pc, n) ==> p == q
  {
    RunKeepsInv(trace, moves, i);
    var s := trace[i];
    assert BeingForked(s, n);
    forall p: nat, q: nat | p < |s.procs| && q < |s.procs| && Forks(s.procs[p].pc, n) && Forks(s.procs[q].pc, n)
      ensures p == q
    {
      assert OneFork(s, p, q, n);
    }
  }

  // Slot m is in use with pid x.
  ghost predicate Names(s: State, m: nat, x: nat) {
    m < |s.procs| && s.procs[m].state != UNUSED && s.procs[m].pid == x
  }

  // A pid stays with its slot: once slot k has had it, no other slot ever has
  // it, and the slot never returns to USED with it.
  lemma {:induction false} PidStays(trace: seq<State>, moves: seq<Move>, j: nat, i: nat, k: nat, x: nat)
    requires Run(trace, moves) && Initial(trace[0]) && j <= i < |trace| && Names(trace[j], k, x)
    ensures x < trace[i].nextpid
    ensures forall m: nat :: Names(trace[i], m, x) ==> m == k
    ensures trace[j].procs[k].state != USED && Names(trace[i], k, x) ==> trace[i].procs[k].state != USED
    decreases i
  {
    hide Apply, Enabled, Inv, Initial;
    if i == j {
      RunKeepsInv(trace, moves, i);
      NamedOnce(trace[i], k, x);
    } else {
      PidStays(trace, moves, j, i - 1, k, x);
      RunKeepsInv(trace, moves, i - 1);
      PidStep(trace[i - 1], moves[i - 1].p, moves[i - 1].a, x);
    }
  }

  lemma NamedOnce(s: State, k: nat, x: nat)
    requires Inv(s) && Names(s, k, x)
    ensures x < s.nextpid && forall m: nat :: Names(s, m, x) ==> m == k
  {
    assert PidOk(s, k);
    forall m: nat | Names(s, m, x) ensures m == k {
      assert PidsDiffer(s, m, k);
    }
  }

  // A step gives a slot in use a new pid only from nextpid.
  lemma PidStep(s: State, p: nat, a: Action, x: nat)
    requires Inv(s) && Enabled(s, p, a) && x < s.nextpid
    ensures var s' := Apply(s, p, a);
      && s.nextpid <= s'.nextpid
      && forall m: nat :: Names(s', m, x) ==>
           Names(s, m, x) && (s.procs[m].state != USED ==> s'.procs[m].state != USED)
  {
    hide EffectOf, Apply, Enabled;
    NewSlots(s, p, a);
    EffectPids(s, p, a);
    EffectUsed(s, p, a);
    if EffectOf(s, p, a).at != p {
      EffectOtherPid(s, p, a);
    }
  }

  // kfork's last step: the child can run, it is the caller's, and its pid has
  // in no earlier state been that of another slot, or of this one except while
  // kfork was filling it. Nothing else changes.
  lemma ForkedChildRuns(trace: seq<State>, moves: seq<Move>, i: nat)
    requires Run(trace, moves) && Initial(trace[0]) && i < |moves| && moves[i].a == ForkRun
    ensures var s, s', p := trace[i], trace[i + 1], moves[i].p;
      && p < |s.procs| && s.procs[p].pc.ForkLinked? && s.procs[p].pc.np < |s.procs| == |s'.procs|
      && var n := s.procs[p].pc.np;
         && n != p && s'.procs[n] == Proc(ACTIVE, Some(p), s.procs[n].pid, Out)
         && s'.procs[p] == s.procs[p].(pc := Out) && s' == s.(procs := s'.procs)
         && (forall q :: 0 <= q < |s.procs| && q != n && q != p ==> s'.procs[q] == s.procs[q])
         && (forall j: nat, q: nat :: j <= i && Names(trace[j], q, s'.procs[n].pid) ==>
               q == n && trace[j].procs[q].state == USED)
  {
    RunKeepsInv(trace, moves, i);
    var s, p := trace[i], moves[i].p;
    ForkedIsUsed(s, p);
    var n := s.procs[p].pc.np;
    assert StateOk(s.procs[n]) && StateOk(s.procs[p]);
    forall j: nat, q: nat | j <= i && Names(trace[j], q, s.procs[n].pid)
      ensures q == n && trace[j].procs[q].state == USED
    {
      PidStays(trace, moves, j, i, q, s.procs[n].pid);
      assert Names(s, n, s.procs[n].pid);
    }
  }

  // --- a run in which a parent sleeps in kwait, its child exits, and it reaps the child ---

  lemma Then(t: seq<State>, m: seq<Move>, p: nat, a: Action, s: State) returns (t': seq<State>, m': seq<Move>)
    requires Run(t, m) && Enabled(t[|t| - 1], p, a) && Apply(t[|t| - 1], p, a) == s
    ensures Run(t', m') && t'[0] == t[0] && t'[|t'| - 1] == s
  {
    t', m' := t + [s], m + [Move(p, a)];
  }

  // init in the given state, and its child in slot 1 with pid 2.
  function Pair(init: RunState, at: Pc, child: RunState, pc: Pc, lock: Option<nat>, exited: set<nat>): State {
    State([Proc(init, None, 1, at), Proc(child, Some(INIT), 2, pc)], lock, 3, exited, [])
  }

  lemma ForksChild() returns (t: seq<State>, m: seq<Move>)
    ensures Run(t, m) && Initial(t[0]) && t[|t| - 1] == Pair(ACTIVE, Out, ACTIVE, Out, None, {})
  {
    t, m := [State([Proc(ACTIVE, None, 1, Out), EMPTY], None, 2, {}, [])], [];
    assert Run(t, m);
    hide Run;
    t, m := Then(t, m, 0, ForkAlloc(1),
      State([Proc(ACTIVE, None, 1, ForkHave(1)), Proc(USED, None, 2, Out)], None, 3, {}, []));
    t, m := Then(t, m, 0, ForkLink, Pair(ACTIVE, ForkLinked(1), USED, Out, None, {}));
    t, m := Then(t, m, 0, ForkRun, Pair(ACTIVE, Out, ACTIVE, Out, None, {}));
  }

  lemma ParentSleeps(t0: seq<State>, m0: seq<Move>) returns (t: seq<State>, m: seq<Move>)
    requires Run(t0, m0) && t0[|t0| - 1] == Pair(ACTIVE, Out, ACTIVE, Out, None, {})
    ensures Run(t, m) && t[0] == t0[0] && t[|t| - 1] == Pair(SLEEPING, WaitAsleep, ACTIVE, Out, None, {})
  {
    hide Run;
    t, m := Then(t0, m0, 0, WaitBegin, Pair(ACTIVE, WaitScan(0, false), ACTIVE, Out, Some(0), {}));
    t, m := Then(t, m, 0, WaitNext(false, false), Pair(ACTIVE, WaitScan(1, false), ACTIVE, Out, Some(0), {}));
    t, m := Then(t, m, 0, WaitNext(false, false), Pair(ACTIVE, WaitScan(2, true), ACTIVE, Out, Some(0), {}));
    t, m := Then(t, m, 0, WaitNext(false, false), Pair(SLEEPING, WaitAsleep, ACTIVE, Out, None, {}));
  }

  lemma ChildExits(t0: seq<State>, m0: seq<Move>) returns (t: seq<State>, m: seq<Move>)
    requires Run(t0, m0) && t0[|t0| - 1] == Pair(SLEEPING, WaitAsleep, ACTIVE, Out, None, {})
    ensures Run(t, m) && t[0] == t0[0] && t[|t| - 1] == Pair(ACTIVE, WaitAsleep, ACTIVE, ExitZombie, Some(1), {})
  {
    hide Run;
    t, m := Then(t0, m0, 1, ExitBegin, Pair(SLEEPING, WaitAsleep, ACTIVE, ExitScan(0), Some(1), {}));
    t, m := Then(t, m, 1, Exit, Pair(SLEEPING, WaitAsleep, ACTIVE, ExitScan(1), Some(1), {}));
    t, m := Then(t, m, 1, Exit, Pair(SLEEPING, WaitAsleep, ACTIVE, ExitScan(2), Some(1), {}));
    t, m := Then(t, m, 1, Exit, Pair(SLEEPING, WaitAsleep, ACTIVE, ExitNotify, Some(1), {}));
    t, m := Then(t, m, 1, Exit, Pair(ACTIVE, WaitAsleep, ACTIVE, ExitZombie, Some(1), {}));
  }

  lemma ChildParks(t0: seq<State>, m0: seq<Move>) returns (t: seq<State>, m: seq<Move>)
    requires Run(t0, m0) && t0[|t0| - 1] == Pair(ACTIVE, WaitAsleep, ACTIVE, ExitZombie, Some(1), {})
    ensures Run(t, m) && t[0] == t0[0] && t[|t| - 1] == Pair(ACTIVE, WaitAsleep, ZOMBIE, Parked, None, {2})
  {
    hide Run;
    t, m := Then(t0, m0, 1, Exit, Pair(ACTIVE, WaitAsleep, ZOMBIE, ExitUnlock, Some(1), {2}));
    t, m := Then(t, m, 1, Exit, Pair(ACTIVE, WaitAsleep, ZOMBIE, ExitSwitch, None, {2}));
    t, m := Then(t, m, 1, Exit, Pair(ACTIVE, WaitAsleep, ZOMBIE, Parked, None, {2}));
  }

  lemma ChildIsReaped() returns (t: seq<State>, m: seq<Move>)
    ensures Run(t, m) && Initial(t[0])
    ensures t[|t| - 1] == State([Proc(ACTIVE, None, 1, Out), EMPTY], None, 3, {2}, [2])
  {
    hide Run;
    t, m := ForksChild();
    t, m := ParentSleeps(t, m);
    t, m := ChildExits(t, m);
    t, m := ChildParks(t, m);
    t, m := Then(t, m, 0, WaitBegin, Pair(ACTIVE, WaitScan(0, false), ZOMBIE, Parked, Some(0), {2}));
    t, m := Then(t, m, 0, WaitNext(false, false), Pair(ACTIVE, WaitScan(1, false), ZOMBIE, Parked, Some(0), {2}));
    t, m := Then(t, m, 0, WaitNext(false, false), State([Proc(ACTIVE, None, 1, Out), EMPTY], None, 3, {2}, [2]));
  }
}
