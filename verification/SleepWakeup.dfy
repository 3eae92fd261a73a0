/** sleep, wakeup, sched and scheduler (kernel/proc.c) under any interleaving of
    any number of CPUs. The users of sleep and wakeup are sleep locks
    (kernel/sleeplock.c) and any code that sleeps on or wakes up a channel
    under a condition lock, in a process or in an interrupt handler. A step is
    one acquire, one release, one switch or one access made under a lock. */
module SleepWakeup {
  import opened Blocks

  datatype RunState = SLEEPING | RUNNABLE | RUNNING

  // Where a CPU is in the kernel. A sleep lock, its address as a channel and
  // its spin lock share a number; wait_lock and its like are spin locks whose
  // sleep lock nobody uses.
  datatype Pc =
    | Idle
    // acquiresleep
    | Acquiring(l: nat) | Testing(l: nat) | Taking(l: nat) | Leaving(l: nat)
    // any section under a spin lock, on the way back to `ret`
    | Entering(lk: nat, ret: Pc) | Inside(lk: nat, ret: Pc)
    // sleep(chan, lk), called from `then`
    | SleepEnter(chan: nat, lk: nat, then_: Pc) | SleepUnlock(chan: nat, lk: nat, then_: Pc)
    | SleepChan(chan: nat, lk: nat, then_: Pc) | SleepMark(chan: nat, lk: nat, then_: Pc)
    | SleepSwitch(chan: nat, lk: nat, then_: Pc) | Asleep(chan: nat, lk: nat, then_: Pc)
    | Resumed(chan: nat, lk: nat, then_: Pc) | SleepRelease(chan: nat, lk: nat, then_: Pc)
    | Reacquiring(chan: nat, lk: nat, then_: Pc)
    // releasesleep
    | Releasing(l: nat) | Clearing(l: nat)
    // wakeup(chan) under lk at process k, called from `then`
    | Scan(chan: nat, lk: nat, k: nat, then_: Pc) | ScanLocked(chan: nat, lk: nat, k: nat, then_: Pc)
    | ScanDone(chan: nat, lk: nat, k: nat, then_: Pc)
    // yield, on the way to `ret`
    | YieldEnter(ret: Pc) | YieldMark(ret: Pc) | YieldSwitch(ret: Pc) | Yielded(ret: Pc) | YieldRelease(ret: Pc)
    // kkill of process k
    | KillEnter(k: nat) | KillLocked(k: nat) | KillDone(k: nat)

  // `cpu` is where the process runs, `holds` the sleep locks it has acquired;
  // both only record what has happened.
  datatype Proc = Proc(state: RunState, chan: Option<nat>, pc: Pc, cpu: Option<nat>, holds: set<nat>)

  datatype Cpu =
    | Looking             // scheduler, between two processes
    | Picked(p: nat)      // scheduler, holding p->lock, before the test of p->state
    | Back(p: nat)        // scheduler, after swtch, still holding p->lock
    | Running(p: nat)     // c->proc
    | Serving(pc: Pc)     // an interrupt while there was no process to run

  datatype SleepLock = SleepLock(lk: Option<nat>, locked: bool, pid: Option<nat>)

  // procs[p].lock is plock[p]; a spin lock is None or the CPU that holds it.
  datatype State = State(procs: seq<Proc>, plock: seq<Option<nat>>, cpus: seq<Cpu>, locks: seq<SleepLock>)

  // --- which locks are held at a program point ---

  predicate HoldsProc(p: nat, pc: Pc, q: nat) {
    match pc
    case SleepUnlock(_, _, _) => q == p
    case SleepChan(_, _, _) => q == p
    case SleepMark(_, _, _) => q == p
    case SleepSwitch(_, _, _) => q == p
    case Resumed(_, _, _) => q == p
    case SleepRelease(_, _, _) => q == p
    case YieldMark(_) => q == p
    case YieldSwitch(_) => q == p
    case YieldRelease(_) => q == p
    case ScanLocked(_, _, k, _) => q == k
    case ScanDone(_, _, k, _) => q == k
    case KillLocked(k) => q == k
    case KillDone(k) => q == k
    case _ => false
  }

  predicate HoldsCond(pc: Pc, l: nat) {
    match pc
    case Testing(m) => l == m
    case Taking(m) => l == m
    case Leaving(m) => l == m
    case Inside(m, _) => l == m
    case SleepEnter(_, m, _) => l == m
    case SleepUnlock(_, m, _) => l == m
    case Clearing(m) => l == m
    case Scan(_, m, _, _) => l == m
    case ScanLocked(_, m, _, _) => l == m
    case ScanDone(_, m, _, _) => l == m
    case _ => false
  }

  predicate OffCpu(pc: Pc) { pc.Asleep? || pc.Yielded? }

  // Points where interrupts are on, so that a handler can run on top of the
  // process and the timer can force a yield.
  predicate Preemptible(pc: Pc) {
    || pc.Idle? || pc.Acquiring? || pc.Reacquiring? || pc.Releasing? || pc.KillEnter?
    || (pc.Entering? && pc.ret.Idle?)
  }

  // --- the steps ---

  datatype Action =
    | Advance                // the next step, where there is only one
    | Start(pc: Pc)          // an idle process enters acquiresleep, releasesleep, kkill or a section
    | Interrupt(lk: nat)     // a handler that enters a section
    | CallSleep(chan: nat)   // inside a section: sleep(chan, lk)
    | CallWakeup(chan: nat)  // inside a section: wakeup(chan)
    | Leave                  // release the section's lock
    | Preempt
    | Pick(p: nat)           // the scheduler acquires p->lock
    | Dispatch               // it tests p->state and switches to p, or lets go
    | Return                 // it releases the lock of the process that switched back

  predicate Shape(s: State) {
    |s.plock| == |s.procs|
  }

  function PutPc(s: State, p: nat, pc: Pc): State
    requires p < |s.procs|
  {
    s.(procs := s.procs[p := s.procs[p].(pc := pc)])
  }

  function LockProc(s: State, q: nat, o: Option<nat>): State
    requires q < |s.plock|
  {
    s.(plock := s.plock[q := o])
  }

  function LockCond(s: State, l: nat, o: Option<nat>): State
    requires l < |s.locks|
  {
    s.(locks := s.locks[l := s.locks[l].(lk := o)])
  }

  function Wake(pr: Proc): Proc { if pr.state == SLEEPING then pr.(state := RUNNABLE) else pr }

  // wakeup(chan) on one process
  function WakeIf(pr: Proc, chan: nat): Proc { if pr.chan == Some(chan) then Wake(pr) else pr }

  // The process lock or spin lock that the next step acquires, if any.
  predicate WantsProc(p: nat, pc: Pc, q: nat) {
    match pc
    case SleepEnter(_, _, _) => q == p
    case YieldEnter(_) => q == p
    case Scan(_, _, k, _) => q == k && k != p
    case KillEnter(k) => q == k
    case _ => false
  }

  predicate WantsCond(pc: Pc, l: nat) {
    match pc
    case Acquiring(m) => l == m
    case Entering(m, _) => l == m
    case Reacquiring(_, m, _) => l == m
    case Releasing(m) => l == m
    case _ => false
  }

  // There is a next step, and only one.
  predicate HasNext(pc: Pc) { !pc.Idle? && !pc.Inside? && !OffCpu(pc) }

  // The lock that the next step of `me` at pc wants is free.
  predicate CanAdvance(s: State, me: nat, pc: Pc)
    requires Shape(s)
  {
    && (forall q :: 0 <= q < |s.procs| && WantsProc(me, pc, q) ==> s.plock[q] == None)
    && (forall l :: 0 <= l < |s.locks| && WantsCond(pc, l) ==> s.locks[l].lk == None)
  }

  // sleep is called from acquiresleep or from a section of a process.
  predicate SleepCaller(locks: nat, chan: nat, lk: nat, t: Pc) {
    lk < locks && ((t == Testing(lk) && chan == lk) || t == Inside(lk, Idle))
  }

  // What the point refers to exists, and where it returns to is preemptible.
  predicate InRange(procs: nat, locks: nat, pc: Pc) {
    match pc
    case Idle => true
    case Entering(lk, ret) => lk < locks && Preemptible(ret) && InRange(procs, locks, ret)
    case Inside(lk, ret) => lk < locks && Preemptible(ret) && InRange(procs, locks, ret)
    case SleepEnter(chan, lk, t) => SleepCaller(locks, chan, lk, t)
    case SleepUnlock(chan, lk, t) => SleepCaller(locks, chan, lk, t)
    case SleepChan(chan, lk, t) => SleepCaller(locks, chan, lk, t)
    case SleepMark(chan, lk, t) => SleepCaller(locks, chan, lk, t)
    case SleepSwitch(chan, lk, t) => SleepCaller(locks, chan, lk, t)
    case Asleep(chan, lk, t) => SleepCaller(locks, chan, lk, t)
    case Resumed(chan, lk, t) => SleepCaller(locks, chan, lk, t)
    case SleepRelease(chan, lk, t) => SleepCaller(locks, chan, lk, t)
    case Reacquiring(chan, lk, t) => SleepCaller(locks, chan, lk, t)
    case Scan(chan, lk, k, t) => lk < locks && k <= procs && ScanCaller(chan, lk, t) && InRange(procs, locks, t)
    case ScanLocked(chan, lk, k, t) => lk < locks && k < procs && ScanCaller(chan, lk, t) && InRange(procs, locks, t)
    case ScanDone(chan, lk, k, t) => lk < locks && k < procs && ScanCaller(chan, lk, t) && InRange(procs, locks, t)
    case YieldEnter(ret) => Preemptible(ret) && InRange(procs, locks, ret)
    case YieldMark(ret) => Preemptible(ret) && InRange(procs, locks, ret)
    case YieldSwitch(ret) => Preemptible(ret) && InRange(procs, locks, ret)
    case Yielded(ret) => Preemptible(ret) && InRange(procs, locks, ret)
    case YieldRelease(ret) => Preemptible(ret) && InRange(procs, locks, ret)
    case KillEnter(k) => k < procs
    case KillLocked(k) => k < procs
    case KillDone(k) => k < procs
    case _ => pc.l < locks
  }

  // wakeup is called from releasesleep or from a section.
  predicate ScanCaller(chan: nat, lk: nat, t: Pc) {
    (t == Leaving(lk) && chan == lk) || (t.Inside? && t.lk == lk)
  }

  // Points of code that needs no process: a section and its wakeups.
  predicate Shared(pc: Pc) { pc.Entering? || pc.Inside? || pc.Scan? || pc.ScanLocked? || pc.ScanDone? }

  // The next step of such code by `me`, which is no process in a handler of an idle CPU.
  function SharedStep(s: State, c: nat, me: nat, pc: Pc): (State, Pc)
    requires Shape(s) && InRange(|s.procs|, |s.locks|, pc) && Shared(pc) && !pc.Inside?
  {
    match pc
    case Entering(lk, ret) => (LockCond(s, lk, Some(c)), Inside(lk, ret))
    case Scan(chan, lk, k, t) =>
      if k == |s.procs| then (s, t)
      else if k == me then (s, Scan(chan, lk, k + 1, t))
      else (LockProc(s, k, Some(c)), ScanLocked(chan, lk, k, t))
    case ScanLocked(chan, lk, k, t) =>
      (s.(procs := s.procs[k := WakeIf(s.procs[k], chan)]), ScanDone(chan, lk, k, t))
    case ScanDone(chan, lk, k, t) => (LockProc(s, k, None), Scan(chan, lk, k + 1, t))
  }

  predicate SameShape(s: State, t: State) {
    |t.procs| == |s.procs| && |t.plock| == |s.plock| && |t.cpus| == |s.cpus| && |t.locks| == |s.locks|
  }

  function AdvanceProc(s: State, c: nat, p: nat): (t: State)
    requires Shape(s) && p < |s.procs| && c < |s.cpus|
    requires InRange(|s.procs|, |s.locks|, s.procs[p].pc) && HasNext(s.procs[p].pc) && CanAdvance(s, p, s.procs[p].pc)
    ensures SameShape(s, t)
  {
    var me := s.procs[p];
    if Shared(me.pc) then var (t, pc) := SharedStep(s, c, p, me.pc); PutPc(t, p, pc)
    else match me.pc
    case Acquiring(l) => PutPc(LockCond(s, l, Some(c)), p, Testing(l))
    case Testing(l) => PutPc(s, p, if s.locks[l].locked then SleepEnter(l, l, Testing(l)) else Taking(l))
    case Taking(l) =>
      s.(locks := s.locks[l := s.locks[l].(locked := true, pid := Some(p))],
         procs := s.procs[p := me.(pc := Leaving(l), holds := me.holds + {l})])
    case Leaving(l) => PutPc(LockCond(s, l, None), p, Idle)
    case SleepEnter(h, l, t) => PutPc(LockProc(s, p, Some(c)), p, SleepUnlock(h, l, t))
    case SleepUnlock(h, l, t) => PutPc(LockCond(s, l, None), p, SleepChan(h, l, t))
    case SleepChan(h, l, t) => s.(procs := s.procs[p := me.(chan := Some(h), pc := SleepMark(h, l, t))])
    case SleepMark(h, l, t) => s.(procs := s.procs[p := me.(state := SLEEPING, pc := SleepSwitch(h, l, t))])
    case SleepSwitch(h, l, t) =>
      s.(cpus := s.cpus[c := Back(p)], procs := s.procs[p := me.(pc := Asleep(h, l, t), cpu := None)])
    case Resumed(h, l, t) => s.(procs := s.procs[p := me.(chan := None, pc := SleepRelease(h, l, t))])
    case SleepRelease(h, l, t) => PutPc(LockProc(s, p, None), p, Reacquiring(h, l, t))
    case Reacquiring(h, l, t) => PutPc(LockCond(s, l, Some(c)), p, t)
    case Releasing(l) => PutPc(LockCond(s, l, Some(c)), p, Clearing(l))
    case Clearing(l) =>
      s.(locks := s.locks[l := s.locks[l].(locked := false, pid := None)],
         procs := s.procs[p := me.(pc := Scan(l, l, 0, Leaving(l)), holds := me.holds - {l})])
    case YieldEnter(ret) => PutPc(LockProc(s, p, Some(c)), p, YieldMark(ret))
    case YieldMark(ret) => s.(procs := s.procs[p := me.(state := RUNNABLE, pc := YieldSwitch(ret))])
    case YieldSwitch(ret) =>
      s.(cpus := s.cpus[c := Back(p)], procs := s.procs[p := me.(pc := Yielded(ret), cpu := None)])
    case YieldRelease(ret) => PutPc(LockProc(s, p, None), p, ret)
    case KillEnter(k) => PutPc(LockProc(s, k, Some(c)), p, KillLocked(k))
    case KillLocked(k) => PutPc(s.(procs := s.procs[k := Wake(s.procs[k])]), p, KillDone(k))
    case KillDone(k) => PutPc(LockProc(s, k, None), p, Idle)
  }

  // Where the process goes on when the scheduler switches to it: where it
  // switched away, or wherever another CPU still runs it.
  function ResumeAt(pc: Pc): Pc {
    match pc
    case Asleep(h, l, t) => Resumed(h, l, t)
    case Yielded(ret) => YieldRelease(ret)
    case _ => pc
  }

  // The process that runs on the CPU can do a.
  predicate CanRun(s: State, p: nat, a: Action)
    requires Shape(s)
  {
    && p < |s.procs|
    && var pc := s.procs[p].pc;
       if a.Advance? then InRange(|s.procs|, |s.locks|, pc) && HasNext(pc) && CanAdvance(s, p, pc)
       else if a.Start? then
         && pc == Idle && InRange(|s.procs|, |s.locks|, a.pc)
         // releasesleep is for the holder
         && (|| a.pc.Acquiring? || (a.pc.Releasing? && a.pc.l in s.procs[p].holds) || a.pc.KillEnter?
             || (a.pc.Entering? && a.pc.ret == Idle))
       else if a.Interrupt? then Preemptible(pc) && a.lk < |s.locks|
       else if a.CallSleep? then pc.Inside? && pc.ret == Idle   // a handler does not sleep
       else if a.CallWakeup? then pc.Inside?
       else if a.Leave? then pc.Inside? && pc.lk < |s.locks|
       else a.Preempt? && Preemptible(pc)
  }

  function RunStep(s: State, c: nat, p: nat, a: Action): (t: State)
    requires Shape(s) && c < |s.cpus| && CanRun(s, p, a)
    ensures SameShape(s, t)
  {
    var pc := s.procs[p].pc;
    if a.Advance? then AdvanceProc(s, c, p)
    else if a.Start? then PutPc(s, p, a.pc)
    else if a.Interrupt? then PutPc(s, p, Entering(a.lk, pc))
    else if a.CallSleep? then PutPc(s, p, SleepEnter(a.chan, pc.lk, pc))
    else if a.CallWakeup? then PutPc(s, p, Scan(a.chan, pc.lk, 0, pc))
    else if a.Leave? then PutPc(LockCond(s, pc.lk, None), p, pc.ret)
    else PutPc(s, p, YieldEnter(pc))
  }

  // The handler that runs on an idle CPU can do a.
  predicate CanServe(s: State, pc: Pc, a: Action)
    requires Shape(s)
  {
    if a.Advance? then InRange(|s.procs|, |s.locks|, pc) && Shared(pc) && HasNext(pc) && CanAdvance(s, |s.procs|, pc)
    else if a.CallWakeup? then pc.Inside?
    else a.Leave? && pc.Inside? && pc.lk < |s.locks|
  }

  function ServeStep(s: State, c: nat, pc: Pc, a: Action): (t: State)
    requires Shape(s) && c < |s.cpus| && CanServe(s, pc, a)
    ensures SameShape(s, t)
  {
    if a.Advance? then
      var (t, pc') := SharedStep(s, c, |s.procs|, pc);
      t.(cpus := s.cpus[c := Serving(pc')])
    else if a.CallWakeup? then s.(cpus := s.cpus[c := Serving(Scan(a.chan, pc.lk, 0, pc))])
    else LockCond(s, pc.lk, None).(cpus := s.cpus[c := Looking])
  }

  // The scheduler's test of p->state under p->lock, and the switch.
  function Switch(s: State, c: nat, q: nat): (t: State)
    requires Shape(s) && c < |s.cpus| && q < |s.procs|
    ensures SameShape(s, t)
  {
    var pr := s.procs[q];
    if pr.state == RUNNABLE then
      var pr' := pr.(state := RUNNING, pc := ResumeAt(pr.pc), cpu := Some(c));
      s.(cpus := s.cpus[c := Running(q)], procs := s.procs[q := pr'])
    else LockProc(s, q, None).(cpus := s.cpus[c := Looking])
  }

  predicate Enabled(s: State, c: nat, a: Action) {
    && Shape(s) && c < |s.cpus|
    && match s.cpus[c] {
         case Running(p) => CanRun(s, p, a)
         case Serving(pc) => CanServe(s, pc, a)
         case Looking => if a.Pick? then a.p < |s.procs| && s.plock[a.p] == None else a.Interrupt? && a.lk < |s.locks|
         case Picked(q) => a == Dispatch && q < |s.procs|
         case Back(q) => a == Return && q < |s.procs|
       }
  }

  function Apply(s: State, c: nat, a: Action): (t: State)
    requires Enabled(s, c, a)
    ensures SameShape(s, t)
  {
    match s.cpus[c]
    case Running(p) => RunStep(s, c, p, a)
    case Serving(pc) => ServeStep(s, c, pc, a)
    case Looking =>
      if a.Pick? then LockProc(s, a.p, Some(c)).(cpus := s.cpus[c := Picked(a.p)])
      else s.(cpus := s.cpus[c := Serving(Entering(a.lk, Idle))])
    case Picked(q) => Switch(s, c, q)
    case Back(q) => LockProc(s, q, None).(cpus := s.cpus[c := Looking])
  }

  // --- the invariant ---

  // Every process is on one CPU at most, and exactly when its program point says so.
  ghost predicate ProcPlaced(s: State, p: nat)
    requires p < |s.procs|
  {
    var pr := s.procs[p];
    && InRange(|s.procs|, |s.locks|, pr.pc) && (pr.cpu.Some? <==> !OffCpu(pr.pc))
    && (pr.cpu.Some? ==> pr.cpu.value < |s.cpus| && s.cpus[pr.cpu.value] == Running(p))
  }

  ghost predicate CpuPlaced(s: State, c: nat)
    requires c < |s.cpus|
  {
    match s.cpus[c]
    case Looking => true
    case Picked(p) => p < |s.procs|
    case Back(p) => p < |s.procs|
    case Running(p) => p < |s.procs| && s.procs[p].cpu == Some(c)
    case Serving(pc) => Shared(pc) && InRange(|s.procs|, |s.locks|, pc) && CalledFromSection(pc)
  }

  predicate CalledFromSection(pc: Pc) {
    pc.Scan? || pc.ScanLocked? || pc.ScanDone? ==> pc.then_.Inside?
  }

  ghost predicate Placed(s: State) {
    && Shape(s)
    && (forall p :: 0 <= p < |s.procs| ==> ProcPlaced(s, p))
    && (forall c :: 0 <= c < |s.cpus| ==> CpuPlaced(s, c))
  }

  predicate StateOk(pr: Proc) {
    && (match pr.pc
        case SleepSwitch(_, _, _) => pr.state == SLEEPING
        case Asleep(_, _, _) => pr.state != RUNNING
        case YieldSwitch(_) => pr.state == RUNNABLE
        case Yielded(_) => pr.state == RUNNABLE
        case _ => pr.state == RUNNING)
    && pr.chan == (if pr.pc.SleepMark? || pr.pc.SleepSwitch? || pr.pc.Asleep? || pr.pc.Resumed?
                   then Some(pr.pc.chan) else None)
  }

  ghost predicate StatesOk(s: State) {
    forall p :: 0 <= p < |s.procs| ==> StateOk(s.procs[p])
  }

  // The locks that the code running on CPU c is entitled to.
  ghost predicate HasProc(s: State, c: nat, q: nat)
    requires c < |s.cpus|
  {
    match s.cpus[c]
    case Looking => false
    case Picked(p) => q == p
    case Back(p) => q == p
    case Running(p) => p < |s.procs| && HoldsProc(p, s.procs[p].pc, q)
    case Serving(pc) => HoldsProc(|s.procs|, pc, q)
  }

  ghost predicate HasCond(s: State, c: nat, l: nat)
    requires c < |s.cpus|
  {
    match s.cpus[c]
    case Running(p) => p < |s.procs| && HoldsCond(s.procs[p].pc, l)
    case Serving(pc) => HoldsCond(pc, l)
    case _ => false
  }

  ghost predicate ProcLocksOk(s: State) {
    && |s.plock| == |s.procs|
    && (forall q :: 0 <= q < |s.plock| && s.plock[q].Some? ==>
          s.plock[q].value < |s.cpus| && HasProc(s, s.plock[q].value, q))
    && (forall c, q :: 0 <= c < |s.cpus| && 0 <= q < |s.plock| && HasProc(s, c, q) ==> s.plock[q] == Some(c))
  }

  ghost predicate CondLocksOk(s: State) {
    && (forall l :: 0 <= l < |s.locks| && s.locks[l].lk.Some? ==>
          s.locks[l].lk.value < |s.cpus| && HasCond(s, s.locks[l].lk.value, l))
    && (forall c, l :: 0 <= c < |s.cpus| && 0 <= l < |s.locks| && HasCond(s, c, l) ==> s.locks[l].lk == Some(c))
  }

  // What a process knows about a sleep lock whose spin lock it holds.
  ghost predicate Knows(s: State, pr: Proc) {
    match pr.pc
    case Taking(l) => l < |s.locks| && !s.locks[l].locked
    case SleepEnter(_, l, t) => t.Testing? ==> l < |s.locks| && s.locks[l].locked
    case SleepUnlock(_, l, t) => t.Testing? ==> l < |s.locks| && s.locks[l].locked
    case Scan(_, l, _, t) => t.Leaving? ==> l < |s.locks| && !s.locks[l].locked
    case ScanLocked(_, l, _, t) => t.Leaving? ==> l < |s.locks| && !s.locks[l].locked
    case ScanDone(_, l, _, t) => t.Leaving? ==> l < |s.locks| && !s.locks[l].locked
    case _ => true
  }

  // The point that interrupts and yields come back to.
  function Under(pc: Pc): Pc {
    match pc
    case Entering(_, ret) => ret
    case Inside(_, ret) => ret
    case Scan(_, _, _, t) => if t.Inside? then t.ret else pc
    case ScanLocked(_, _, _, t) => if t.Inside? then t.ret else pc
    case ScanDone(_, _, _, t) => if t.Inside? then t.ret else pc
    case YieldEnter(ret) => ret
    case YieldMark(ret) => ret
    case YieldSwitch(ret) => ret
    case Yielded(ret) => ret
    case YieldRelease(ret) => ret
    case _ => pc
  }

  predicate Releases(pc: Pc, l: nat) { Under(pc) == Releasing(l) || Under(pc) == Clearing(l) }

  // A sleep lock belongs to the process its pid names and to nobody else.
  ghost predicate HoldersOk(s: State) {
    && (forall p, l :: 0 <= p < |s.procs| && Releases(s.procs[p].pc, l) ==> l in s.procs[p].holds)
    && (forall p, l {:trigger l in s.procs[p].holds} :: 0 <= p < |s.procs| && l in s.procs[p].holds ==>
          0 <= l < |s.locks| && s.locks[l].pid == Some(p))
    && (forall l :: 0 <= l < |s.locks| ==> (s.locks[l].locked <==> s.locks[l].pid.Some?))
    && (forall l :: 0 <= l < |s.locks| && s.locks[l].pid.Some? ==>
          s.locks[l].pid.value < |s.procs| && l in s.procs[s.locks[l].pid.value].holds)
  }

  ghost predicate Owned(s: State) {
    && (forall p :: 0 <= p < |s.procs| ==> Knows(s, s.procs[p]))
    && HoldersOk(s)
  }

  // The process has let go of lk in sleep(chan, lk) and no wakeup has reached it.
  predicate Committed(pr: Proc, chan: nat, lk: nat) {
    && (pr.pc.SleepChan? || pr.pc.SleepMark? || pr.pc.SleepSwitch? || (pr.pc.Asleep? && pr.state == SLEEPING))
    && pr.pc.chan == chan && pr.pc.lk == lk
  }

  // The code of a process or a handler that runs on CPU c.
  function CodeAt(s: State, c: nat): Option<Pc>
    requires c < |s.cpus|
  {
    match s.cpus[c]
    case Running(p) => if p < |s.procs| then Some(s.procs[p].pc) else None
    case Serving(pc) => Some(pc)
    case _ => None
  }

  predicate Scanning(pc: Pc, chan: nat, lk: nat) {
    (pc.Scan? || pc.ScanLocked? || pc.ScanDone?) && pc.chan == chan && pc.lk == lk
  }

  // A scan that has process q behind it.
  predicate Behind(pc: Pc, q: nat) {
    match pc
    case Scan(_, _, k, _) => q < k
    case ScanLocked(_, _, k, _) => q < k
    case ScanDone(_, _, k, _) => q <= k
    case _ => false
  }

  // A wakeup under the lock leaves nobody behind who waits for it.
  ghost predicate CleanBehind(s: State, c: nat, q: nat)
    requires c < |s.cpus| && q < |s.procs|
  {
    var pc := CodeAt(s, c);
    pc.Some? && Behind(pc.value, q) ==> !Committed(s.procs[q], pc.value.chan, pc.value.lk)
  }

  ghost predicate ScansClean(s: State) {
    forall c, q :: 0 <= c < |s.cpus| && 0 <= q < |s.procs| ==> CleanBehind(s, c, q)
  }

  // A process that waits for a sleep lock in acquiresleep.
  predicate WaitsFor(pr: Proc, l: nat) { Committed(pr, l, l) && pr.pc.then_ == Testing(l) }

  // releasesleep waking up those who wait for l.
  predicate Waker(pc: Pc, l: nat) { Scanning(pc, l, l) && pc.then_ == Leaving(l) }

  // The lock is held, or its releaser is waking the waiters up.
  ghost predicate Expected(s: State, l: nat) {
    || (l < |s.locks| && s.locks[l].locked)
    || exists w :: 0 <= w < |s.procs| && Waker(s.procs[w].pc, l)
  }

  ghost predicate NothingLost(s: State) {
    forall p, l: nat :: 0 <= p < |s.procs| && WaitsFor(s.procs[p], l) ==> Expected(s, l)
  }

  ghost predicate Inv(s: State) {
    Placed(s) && StatesOk(s) && ProcLocksOk(s) && CondLocksOk(s) && Owned(s) && ScansClean(s) && NothingLost(s)
  }

  // --- what a step changes ---

  // The process that a step on CPU c may move.
  function Subject(cpu: Cpu): Option<nat> {
    if cpu.Looking? || cpu.Serving? then None else Some(cpu.p)
  }

  // A process that does not move can only be woken.
  predicate WokenAtMost(pr: Proc, pr': Proc) {
    pr' == pr || (pr.state == SLEEPING && pr' == pr.(state := RUNNABLE))
  }

  // What a step on CPU c leaves alone.
  ghost predicate Aside(s: State, t: State, c: nat) {
    && c < |s.cpus| && SameShape(s, t)
    && (forall d :: 0 <= d < |s.cpus| && d != c ==> t.cpus[d] == s.cpus[d])
    && (forall q :: 0 <= q < |s.procs| && Some(q) != Subject(s.cpus[c]) ==> WokenAtMost(s.procs[q], t.procs[q]))
  }

  lemma StepFrame(s: State, c: nat, a: Action)
    requires Enabled(s, c, a)
    ensures Aside(s, Apply(s, c, a), c)
  {
    hide CanAdvance;
  }

  // The scheduler only switches to a process that has switched away.
  lemma RunnableIsOff(s: State, c: nat, q: nat)
    requires Placed(s) && StatesOk(s) && ProcLocksOk(s) && c < |s.cpus| && s.cpus[c] == Picked(q)
    ensures q < |s.procs| && (s.procs[q].state == RUNNABLE ==> OffCpu(s.procs[q].pc))
  {
    assert CpuPlaced(s, c);
    assert ProcPlaced(s, q) && StateOk(s.procs[q]);
    if s.procs[q].pc.YieldSwitch? {
      assert HasProc(s, s.procs[q].cpu.value, q) && HasProc(s, c, q);
      assert false;
    }
  }

  // The subject of a step runs on that CPU, or on none, or does not move.
  lemma SubjectIsHere(s: State, c: nat, a: Action)
    requires Placed(s) && StatesOk(s) && ProcLocksOk(s) && Enabled(s, c, a)
    ensures var p := Subject(s.cpus[c]);
      && (p.Some? ==> p.value < |s.procs|)
      && (p.Some? && Apply(s, c, a).procs[p.value] != s.procs[p.value] ==>
            s.procs[p.value].cpu == None || s.procs[p.value].cpu == Some(c))
  {
    assert CpuPlaced(s, c);
    if s.cpus[c].Picked? {
      RunnableIsOff(s, c, s.cpus[c].p);
      assert ProcPlaced(s, s.cpus[c].p);
    }
  }

  // Nothing that runs on another CPU changes its program point.
  lemma ElsewhereSame(s: State, c: nat, a: Action, d: nat)
    requires Placed(s) && StatesOk(s) && ProcLocksOk(s) && Enabled(s, c, a) && d < |s.cpus| && d != c
    ensures var s' := Apply(s, c, a);
      && |s'.cpus| == |s.cpus| && |s'.procs| == |s.procs| && s'.cpus[d] == s.cpus[d]
      && (s.cpus[d].Running? ==>
            s.cpus[d].p < |s.procs| && WokenAtMost(s.procs[s.cpus[d].p], s'.procs[s.cpus[d].p]))
  {
    hide Apply;
    StepFrame(s, c, a);
    SubjectIsHere(s, c, a);
    assert CpuPlaced(s, d);
  }

  // --- every step keeps the invariant ---

  // The process on CPU c can take its next step.
  ghost predicate Ready(s: State, c: nat, p: nat) {
    && Shape(s) && p < |s.procs| && c < |s.cpus| && s.cpus[c] == Running(p) && s.procs[p].cpu == Some(c)
    && InRange(|s.procs|, |s.locks|, s.procs[p].pc) && CanAdvance(s, p, s.procs[p].pc)
    && StateOk(s.procs[p]) && HasNext(s.procs[p].pc)
  }

  lemma AdvanceSharedPlaced(s: State, c: nat, p: nat)
    requires Ready(s, c, p) && Shared(s.procs[p].pc)
    ensures CpuPlaced(AdvanceProc(s, c, p), c) && ProcPlaced(AdvanceProc(s, c, p), p)
  {
    hide CanAdvance, StateOk;
  }

  // Program points of acquiresleep and releasesleep.
  predicate OfSleepLock(pc: Pc) {
    pc.Acquiring? || pc.Testing? || pc.Taking? || pc.Leaving? || pc.Releasing? || pc.Clearing?
  }

  lemma AdvanceLockPlaced(s: State, c: nat, p: nat)
    requires Ready(s, c, p) && OfSleepLock(s.procs[p].pc)
    ensures CpuPlaced(AdvanceProc(s, c, p), c) && ProcPlaced(AdvanceProc(s, c, p), p)
  {
    hide CanAdvance, StateOk;
    var l := s.procs[p].pc.l;
    assert InRange(|s.procs|, |s.locks|, Leaving(l)) && InRange(|s.procs|, |s.locks|, Idle);
  }

  lemma AdvanceSleepPlaced(s: State, c: nat, p: nat)
    requires Ready(s, c, p) && !Shared(s.procs[p].pc) && !OfSleepLock(s.procs[p].pc)
    ensures CpuPlaced(AdvanceProc(s, c, p), c) && ProcPlaced(AdvanceProc(s, c, p), p)
  {
    hide CanAdvance, StateOk;
    assert InRange(|s.procs|, |s.locks|, Idle);
  }

  lemma AdvancePlaced(s: State, c: nat, p: nat)
    requires Ready(s, c, p)
    ensures CpuPlaced(AdvanceProc(s, c, p), c) && ProcPlaced(AdvanceProc(s, c, p), p)
  {
    hide AdvanceProc, CpuPlaced, ProcPlaced;
    if Shared(s.procs[p].pc) {
      AdvanceSharedPlaced(s, c, p);
    } else if OfSleepLock(s.procs[p].pc) {
      AdvanceLockPlaced(s, c, p);
    } else {
      AdvanceSleepPlaced(s, c, p);
    }
  }

  lemma AdvanceState(s: State, c: nat, p: nat)
    requires Ready(s, c, p)
    ensures |AdvanceProc(s, c, p).procs| == |s.procs| && StateOk(AdvanceProc(s, c, p).procs[p])
  {
    hide CanAdvance;
  }

  // Program points whose step may touch the lock of another process.
  predicate OnOther(pc: Pc) {
    Shared(pc) || pc.KillEnter? || pc.KillLocked? || pc.KillDone?
  }

  lemma AdvanceOtherLock(s: State, c: nat, p: nat, q: nat)
    requires Ready(s, c, p) && q < |s.procs| && OnOther(s.procs[p].pc)
    requires HasProc(s, c, q) ==> s.plock[q] == Some(c)
    requires WantsProc(p, s.procs[p].pc, q) ==> s.plock[q] == None
    ensures ProcLockMoves(s, AdvanceProc(s, c, p), c, q)
  {
    hide StateOk, CanAdvance, HoldsCond;
  }

  lemma AdvanceOwnLock(s: State, c: nat, p: nat, q: nat)
    requires Ready(s, c, p) && q < |s.procs| && !OnOther(s.procs[p].pc)
    requires HasProc(s, c, q) ==> s.plock[q] == Some(c)
    requires WantsProc(p, s.procs[p].pc, q) ==> s.plock[q] == None
    ensures ProcLockMoves(s, AdvanceProc(s, c, p), c, q)
  {
    hide StateOk, CanAdvance, HoldsCond;
  }

  lemma AdvanceProcLock(s: State, c: nat, p: nat, q: nat)
    requires Ready(s, c, p) && q < |s.procs| && (HasProc(s, c, q) ==> s.plock[q] == Some(c))
    requires WantsProc(p, s.procs[p].pc, q) ==> s.plock[q] == None
    ensures ProcLockMoves(s, AdvanceProc(s, c, p), c, q)
  {
    hide AdvanceProc, ProcLockMoves;
    if OnOther(s.procs[p].pc) {
      AdvanceOtherLock(s, c, p, q);
    } else {
      AdvanceOwnLock(s, c, p, q);
    }
  }

  lemma AdvanceSharedCond(s: State, c: nat, p: nat, l: nat)
    requires Ready(s, c, p) && l < |s.locks| && Shared(s.procs[p].pc)
    requires HasCond(s, c, l) ==> s.locks[l].lk == Some(c)
    requires WantsCond(s.procs[p].pc, l) ==> s.locks[l].lk == None
    ensures CondLockMoves(s, AdvanceProc(s, c, p), c, l)
  {
    hide StateOk, CanAdvance, HoldsProc;
  }

  lemma AdvanceLockCond(s: State, c: nat, p: nat, l: nat)
    requires Ready(s, c, p) && l < |s.locks| && OfSleepLock(s.procs[p].pc)
    requires HasCond(s, c, l) ==> s.locks[l].lk == Some(c)
    requires WantsCond(s.procs[p].pc, l) ==> s.locks[l].lk == None
    ensures CondLockMoves(s, AdvanceProc(s, c, p), c, l)
  {
    hide StateOk, CanAdvance, HoldsProc;
  }

  lemma AdvanceSleepCond(s: State, c: nat, p: nat, l: nat)
    requires Ready(s, c, p) && l < |s.locks| && !Shared(s.procs[p].pc) && !OfSleepLock(s.procs[p].pc)
    requires HasCond(s, c, l) ==> s.locks[l].lk == Some(c)
    requires WantsCond(s.procs[p].pc, l) ==> s.locks[l].lk == None
    ensures CondLockMoves(s, AdvanceProc(s, c, p), c, l)
  {
    hide StateOk, CanAdvance, HoldsProc;
  }

  lemma AdvanceCondLock(s: State, c: nat, p: nat, l: nat)
    requires Ready(s, c, p) && l < |s.locks| && (HasCond(s, c, l) ==> s.locks[l].lk == Some(c))
    requires WantsCond(s.procs[p].pc, l) ==> s.locks[l].lk == None
    ensures CondLockMoves(s, AdvanceProc(s, c, p), c, l)
  {
    hide AdvanceProc, CondLockMoves;
    if Shared(s.procs[p].pc) {
      AdvanceSharedCond(s, c, p, l);
    } else if OfSleepLock(s.procs[p].pc) {
      AdvanceLockCond(s, c, p, l);
    } else {
      AdvanceSleepCond(s, c, p, l);
    }
  }

  // CPU c takes and gives up locks only when they are free or its own.
  ghost predicate ProcLockMoves(s: State, s': State, c: nat, q: nat) {
    && c < |s.cpus| && c < |s'.cpus| && q < |s.plock| && q < |s'.plock|
    && s'.plock[q] == (if HasProc(s', c, q) then Some(c) else if HasProc(s, c, q) then None else s.plock[q])
    && (HasProc(s', c, q) && !HasProc(s, c, q) ==> s.plock[q] == None)
  }

  ghost predicate CondLockMoves(s: State, s': State, c: nat, l: nat) {
    && c < |s.cpus| && c < |s'.cpus| && l < |s.locks| && l < |s'.locks|
    && s'.locks[l].lk == (if HasCond(s', c, l) then Some(c) else if HasCond(s, c, l) then None else s.locks[l].lk)
    && (HasCond(s', c, l) && !HasCond(s, c, l) ==> s.locks[l].lk == None)
  }

  // A step of a running process that is not its only next one.
  predicate Chosen(s: State, c: nat, a: Action) {
    c < |s.cpus| && s.cpus[c].Running? && a != Advance
  }

  lemma ChosenLocal(s: State, c: nat, a: Action)
    requires Enabled(s, c, a) && Chosen(s, c, a) && CpuPlaced(s, c)
    requires s.cpus[c].p < |s.procs| && ProcPlaced(s, s.cpus[c].p) && StateOk(s.procs[s.cpus[c].p])
    ensures var s', p := Apply(s, c, a), s.cpus[c].p;
      && |s'.cpus| == |s.cpus| && |s'.procs| == |s.procs|
      && CpuPlaced(s', c) && ProcPlaced(s', p) && StateOk(s'.procs[p])
  {
    hide CanAdvance;
  }

  lemma ServingLocal(s: State, c: nat, a: Action)
    requires Enabled(s, c, a) && CpuPlaced(s, c) && s.cpus[c].Serving?
    ensures var s' := Apply(s, c, a); |s'.cpus| == |s.cpus| && |s'.procs| == |s.procs| && CpuPlaced(s', c)
  {
    hide CanAdvance;
  }

  lemma SchedulerLocal(s: State, c: nat, a: Action)
    requires Placed(s) && StatesOk(s) && ProcLocksOk(s) && Enabled(s, c, a) && !s.cpus[c].Running?
    requires !s.cpus[c].Serving?
    ensures var s' := Apply(s, c, a);
      && |s'.cpus| == |s.cpus| && |s'.procs| == |s.procs| && CpuPlaced(s', c)
      && (Subject(s.cpus[c]).Some? ==>
            s.cpus[c].p < |s.procs| && ProcPlaced(s', s.cpus[c].p) && StateOk(s'.procs[s.cpus[c].p]))
  {
    assert CpuPlaced(s, c);
    if Subject(s.cpus[c]).Some? {
      assert ProcPlaced(s, s.cpus[c].p) && StateOk(s.procs[s.cpus[c].p]);
    }
    if s.cpus[c].Picked? {
      RunnableIsOff(s, c, s.cpus[c].p);
    }
  }

  lemma SubjectLocal(s: State, c: nat, a: Action)
    requires Placed(s) && StatesOk(s) && ProcLocksOk(s) && Enabled(s, c, a)
    ensures var s' := Apply(s, c, a);
      && |s'.cpus| == |s.cpus| && |s'.procs| == |s.procs| && CpuPlaced(s', c)
      && (Subject(s.cpus[c]).Some? ==>
            s.cpus[c].p < |s.procs| && ProcPlaced(s', s.cpus[c].p) && StateOk(s'.procs[s.cpus[c].p]))
  {
    hide AdvanceProc, SharedStep, InRange, CanAdvance;
    assert CpuPlaced(s, c);
    if s.cpus[c].Serving? {
      ServingLocal(s, c, a);
    } else if !s.cpus[c].Running? {
      SchedulerLocal(s, c, a);
    } else {
      var p := s.cpus[c].p;
      assert ProcPlaced(s, p) && StateOk(s.procs[p]);
      if a == Advance {
        ReadyToAdvance(s, c);
        AdvancePlaced(s, c, p);
        AdvanceState(s, c, p);
      } else {
        ChosenLocal(s, c, a);
      }
    }
  }

  lemma ReadyToAdvance(s: State, c: nat)
    requires Placed(s) && StatesOk(s) && Enabled(s, c, Advance) && s.cpus[c].Running?
    ensures Ready(s, c, s.cpus[c].p)
  {
    assert CpuPlaced(s, c) && ProcPlaced(s, s.cpus[c].p) && StateOk(s.procs[s.cpus[c].p]);
  }

  lemma KeepsPlaced(s: State, c: nat, a: Action)
    requires Placed(s) && StatesOk(s) && ProcLocksOk(s) && Enabled(s, c, a)
    ensures Placed(Apply(s, c, a))
  {
    hide Apply;
    var s' := Apply(s, c, a);
    StepFrame(s, c, a);
    SubjectLocal(s, c, a);
    forall q | 0 <= q < |s.procs| && Some(q) != Subject(s.cpus[c]) ensures ProcPlaced(s', q) {
      assert ProcPlaced(s, q);
    }
    forall d | 0 <= d < |s.cpus| && d != c ensures CpuPlaced(s', d) {
      ElsewhereSame(s, c, a, d);
      assert CpuPlaced(s, d);
    }
  }

  // Whoever wakes a process holds its lock.
  lemma WokenIsHeld(s: State, c: nat, a: Action, q: nat)
    requires Enabled(s, c, a) && q < |s.procs| && Some(q) != Subject(s.cpus[c])
    ensures |Apply(s, c, a).procs| == |s.procs|
    ensures Apply(s, c, a).procs[q] != s.procs[q] ==> HasProc(s, c, q) && s.procs[q].state == SLEEPING
  {
    hide CanAdvance;
  }

  // A process that another one wakes has switched away.
  lemma SleepersAreOff(s: State, c: nat, a: Action, q: nat)
    requires Placed(s) && StatesOk(s) && ProcLocksOk(s) && Enabled(s, c, a) && q < |s.procs|
    ensures |Apply(s, c, a).procs| == |s.procs|
    ensures Some(q) != Subject(s.cpus[c]) && Apply(s, c, a).procs[q] != s.procs[q] ==> s.procs[q].pc.Asleep?
  {
    StepFrame(s, c, a);
    if Some(q) != Subject(s.cpus[c]) {
      WokenIsHeld(s, c, a, q);
      hide Apply, Enabled;
      assert ProcPlaced(s, q) && StateOk(s.procs[q]);
      assert HasProc(s, c, q) ==> s.plock[q] == Some(c);
      if s.procs[q].pc.SleepSwitch? {
        assert HasProc(s, s.procs[q].cpu.value, q) && CpuPlaced(s, s.procs[q].cpu.value);
      }
    }
  }

  lemma KeepsStates(s: State, c: nat, a: Action)
    requires Placed(s) && StatesOk(s) && ProcLocksOk(s) && Enabled(s, c, a)
    ensures StatesOk(Apply(s, c, a))
  {
    hide Apply;
    var s' := Apply(s, c, a);
    StepFrame(s, c, a);
    forall q | 0 <= q < |s.procs| ensures StateOk(s'.procs[q]) {
      assert StateOk(s.procs[q]);
      if Some(q) == Subject(s.cpus[c]) {
        SubjectLocal(s, c, a);
      } else {
        SleepersAreOff(s, c, a, q);
      }
    }
  }

  lemma ChosenLocks(s: State, c: nat, a: Action, q: nat, l: nat)
    requires Shape(s) && Enabled(s, c, a) && Chosen(s, c, a) && CpuPlaced(s, c) && ProcPlaced(s, s.cpus[c].p)
    requires q < |s.procs| && (HasProc(s, c, q) ==> s.plock[q] == Some(c))
    requires l < |s.locks| ==> (HasCond(s, c, l) ==> s.locks[l].lk == Some(c))
    ensures ProcLockMoves(s, Apply(s, c, a), c, q)
    ensures l < |s.locks| ==> CondLockMoves(s, Apply(s, c, a), c, l)
  {
    hide CanAdvance;
  }

  lemma ServingProcLock(s: State, c: nat, a: Action, q: nat)
    requires Enabled(s, c, a) && s.cpus[c].Serving? && CpuPlaced(s, c)
    requires q < |s.procs| && (HasProc(s, c, q) ==> s.plock[q] == Some(c))
    ensures ProcLockMoves(s, Apply(s, c, a), c, q)
  {
  }

  lemma ServingCondLock(s: State, c: nat, a: Action, l: nat)
    requires Enabled(s, c, a) && s.cpus[c].Serving? && CpuPlaced(s, c)
    requires l < |s.locks| && (HasCond(s, c, l) ==> s.locks[l].lk == Some(c))
    ensures CondLockMoves(s, Apply(s, c, a), c, l)
  {
  }

  lemma SchedulerLocks(s: State, c: nat, a: Action)
    requires Placed(s) && StatesOk(s) && ProcLocksOk(s) && CondLocksOk(s) && Enabled(s, c, a)
    requires !s.cpus[c].Running? && !s.cpus[c].Serving?
    ensures forall q :: 0 <= q < |s.procs| ==> ProcLockMoves(s, Apply(s, c, a), c, q)
    ensures forall l :: 0 <= l < |s.locks| ==> CondLockMoves(s, Apply(s, c, a), c, l)
  {
    hide AdvanceProc, SharedStep;
    assert CpuPlaced(s, c);
    if s.cpus[c].Picked? {
      RunnableIsOff(s, c, s.cpus[c].p);
    }
  }

  lemma ProcLockStep(s: State, c: nat, a: Action, q: nat)
    requires Placed(s) && StatesOk(s) && ProcLocksOk(s) && CondLocksOk(s) && Enabled(s, c, a) && q < |s.procs|
    ensures ProcLockMoves(s, Apply(s, c, a), c, q)
  {
    hide AdvanceProc, SharedStep, InRange, ProcLockMoves, CondLockMoves;
    assert CpuPlaced(s, c);
    if s.cpus[c].Serving? {
      ServingProcLock(s, c, a, q);
    } else if !s.cpus[c].Running? {
      SchedulerLocks(s, c, a);
    } else if a == Advance {
      ReadyToAdvance(s, c);
      AdvanceProcLock(s, c, s.cpus[c].p, q);
    } else {
      assert ProcPlaced(s, s.cpus[c].p);
      ChosenLocks(s, c, a, q, |s.locks|);
    }
  }

  lemma CondLockStep(s: State, c: nat, a: Action, l: nat)
    requires Placed(s) && StatesOk(s) && ProcLocksOk(s) && CondLocksOk(s) && Enabled(s, c, a) && l < |s.locks|
    ensures CondLockMoves(s, Apply(s, c, a), c, l)
  {
    hide AdvanceProc, SharedStep, InRange, ProcLockMoves, CondLockMoves;
    assert CpuPlaced(s, c);
    if s.cpus[c].Serving? {
      ServingCondLock(s, c, a, l);
    } else if !s.cpus[c].Running? {
      SchedulerLocks(s, c, a);
    } else if a == Advance {
      ReadyToAdvance(s, c);
      AdvanceCondLock(s, c, s.cpus[c].p, l);
    } else {
      assert ProcPlaced(s, s.cpus[c].p);
      ChosenLocks(s, c, a, s.cpus[c].p, l);
    }
  }

  lemma KeepsLocks(s: State, c: nat, a: Action)
    requires Placed(s) && StatesOk(s) && ProcLocksOk(s) && CondLocksOk(s) && Enabled(s, c, a)
    ensures ProcLocksOk(Apply(s, c, a)) && CondLocksOk(Apply(s, c, a))
  {
    hide Apply, Enabled;
    var s' := Apply(s, c, a);
    StepFrame(s, c, a);
    forall d, q | 0 <= d < |s.cpus| && 0 <= q < |s.procs| ensures HasProc(s', d, q) <==> s'.plock[q] == Some(d) {
      ProcLockStep(s, c, a, q);
      if d != c {
        ElsewhereSame(s, c, a, d);
        assert HasProc(s', d, q) == HasProc(s, d, q);
      }
    }
    forall d, l | 0 <= d < |s.cpus| && 0 <= l < |s.locks| ensures HasCond(s', d, l) <==> s'.locks[l].lk == Some(d) {
      CondLockStep(s, c, a, l);
      if d != c {
        ElsewhereSame(s, c, a, d);
        assert HasCond(s', d, l) == HasCond(s, d, l);
      }
    }
    forall q | 0 <= q < |s'.plock| && s'.plock[q].Some? ensures s'.plock[q].value < |s'.cpus| {
      ProcLockStep(s, c, a, q);
    }
    forall l | 0 <= l < |s'.locks| && s'.locks[l].lk.Some? ensures s'.locks[l].lk.value < |s'.cpus| {
      CondLockStep(s, c, a, l);
    }
  }

  // --- ownership of the sleep locks ---

  // The sleep lock whose contents a step changes: acquiresleep takes it or
  // releasesleep clears it.
  function Touched(s: State, c: nat, a: Action): Option<nat> {
    if c < |s.cpus| && s.cpus[c].Running? && s.cpus[c].p < |s.procs| && a == Advance then
      match s.procs[s.cpus[c].p].pc
      case Taking(l) => Some(l)
      case Clearing(l) => Some(l)
      case _ => None
    else None
  }

  // A step that leaves the contents of the sleep locks alone.
  ghost predicate SameContents(s: State, t: State, but: Option<nat>) {
    && SameShape(s, t)
    && (forall l :: 0 <= l < |s.locks| && but != Some(l) ==>
          t.locks[l].locked == s.locks[l].locked && t.locks[l].pid == s.locks[l].pid)
    && (but == None ==> forall q :: 0 <= q < |s.procs| ==> t.procs[q].holds == s.procs[q].holds)
  }

  lemma AdvanceUntouched(s: State, c: nat, p: nat)
    requires Enabled(s, c, Advance) && s.cpus[c] == Running(p)
    ensures SameContents(s, AdvanceProc(s, c, p), Touched(s, c, Advance))
  {
    hide CanAdvance;
  }

  lemma UntouchedSame(s: State, c: nat, a: Action)
    requires Enabled(s, c, a)
    ensures SameContents(s, Apply(s, c, a), Touched(s, c, a))
  {
    if s.cpus[c].Running? && a == Advance {
      AdvanceUntouched(s, c, s.cpus[c].p);
    } else {
      hide AdvanceProc, CanAdvance;
    }
  }

  // Whoever knows something about a sleep lock has its spin lock, so that
  // nobody else is at a point where it could change the contents.
  lemma KnowledgeIsExclusive(s: State, c: nat, a: Action, q: nat)
    requires Placed(s) && CondLocksOk(s) && Enabled(s, c, a) && q < |s.procs| && Some(q) != Subject(s.cpus[c])
    ensures Touched(s, c, a).Some? ==> !HoldsCond(s.procs[q].pc, Touched(s, c, a).value)
  {
    assert CpuPlaced(s, c) && ProcPlaced(s, q);
    if Touched(s, c, a).Some? && s.procs[q].cpu.Some? {
      var l := Touched(s, c, a).value;
      assert HasCond(s, c, l) && (HoldsCond(s.procs[q].pc, l) ==> HasCond(s, s.procs[q].cpu.value, l));
    }
  }

  lemma AdvanceKnows(s: State, c: nat, p: nat)
    requires Ready(s, c, p) && Knows(s, s.procs[p])
    ensures |AdvanceProc(s, c, p).procs| == |s.procs| && Knows(AdvanceProc(s, c, p), AdvanceProc(s, c, p).procs[p])
  {
    hide CanAdvance, StateOk;
  }

  lemma SubjectKnows(s: State, c: nat, a: Action)
    requires Placed(s) && StatesOk(s) && ProcLocksOk(s) && Enabled(s, c, a) && Subject(s.cpus[c]).Some?
    requires s.cpus[c].p < |s.procs| && Knows(s, s.procs[s.cpus[c].p])
    ensures var s' := Apply(s, c, a); |s'.procs| == |s.procs| && Knows(s', s'.procs[s.cpus[c].p])
  {
    hide AdvanceProc;
    assert CpuPlaced(s, c);
    var p := s.cpus[c].p;
    assert ProcPlaced(s, p) && StateOk(s.procs[p]);
    if s.cpus[c].Picked? {
      RunnableIsOff(s, c, p);
    } else if a == Advance {
      AdvanceKnows(s, c, p);
    }
  }

  lemma KeepsKnowledge(s: State, c: nat, a: Action)
    requires Placed(s) && StatesOk(s) && ProcLocksOk(s) && CondLocksOk(s) && Enabled(s, c, a)
    requires forall p :: 0 <= p < |s.procs| ==> Knows(s, s.procs[p])
    ensures var s' := Apply(s, c, a); |s'.procs| == |s.procs| && forall p :: 0 <= p < |s'.procs| ==>
      Knows(s', s'.procs[p])
  {
    hide Apply, Enabled;
    var s' := Apply(s, c, a);
    StepFrame(s, c, a);
    UntouchedSame(s, c, a);
    forall q | 0 <= q < |s.procs| ensures Knows(s', s'.procs[q]) {
      if Some(q) == Subject(s.cpus[c]) {
        SubjectKnows(s, c, a);
      } else {
        KnowledgeIsExclusive(s, c, a, q);
      }
    }
  }

  lemma SharedReleases(s: State, c: nat, p: nat, l: nat)
    requires Ready(s, c, p) && Shared(s.procs[p].pc)
    ensures Releases(AdvanceProc(s, c, p).procs[p].pc, l) ==> Releases(s.procs[p].pc, l)
  {
    hide CanAdvance, StateOk, HoldsProc, HoldsCond;
  }

  lemma OwnReleases(s: State, c: nat, p: nat, l: nat)
    requires Ready(s, c, p) && !Shared(s.procs[p].pc) && !s.procs[p].pc.Taking? && !s.procs[p].pc.Clearing?
    ensures Releases(AdvanceProc(s, c, p).procs[p].pc, l) ==> Releases(s.procs[p].pc, l)
  {
    hide CanAdvance, StateOk, HoldsProc, HoldsCond;
  }

  lemma AdvanceReleases(s: State, c: nat, p: nat, l: nat)
    requires Ready(s, c, p) && !s.procs[p].pc.Taking? && !s.procs[p].pc.Clearing?
    ensures Releases(AdvanceProc(s, c, p).procs[p].pc, l) ==> Releases(s.procs[p].pc, l)
  {
    hide AdvanceProc, Releases;
    if Shared(s.procs[p].pc) {
      SharedReleases(s, c, p, l);
    } else {
      OwnReleases(s, c, p, l);
    }
  }

  lemma SubjectReleases(s: State, c: nat, a: Action, l: nat)
    requires Placed(s) && StatesOk(s) && Enabled(s, c, a) && Subject(s.cpus[c]).Some? && s.cpus[c].p < |s.procs|
    requires Touched(s, c, a) == None && (Releases(s.procs[s.cpus[c].p].pc, l) ==> l in s.procs[s.cpus[c].p].holds)
    ensures Releases(Apply(s, c, a).procs[s.cpus[c].p].pc, l) ==> l in s.procs[s.cpus[c].p].holds
  {
    if s.cpus[c].Running? && a == Advance {
      ReadyToAdvance(s, c);
      hide Releases, AdvanceProc;
      AdvanceReleases(s, c, s.cpus[c].p, l);
    } else {
      hide AdvanceProc, CanAdvance, StateOk;
      assert ProcPlaced(s, s.cpus[c].p);
    }
  }

  lemma TakeKeepsHolders(s: State, c: nat, p: nat)
    requires HoldersOk(s) && Ready(s, c, p) && s.procs[p].pc.Taking? && Knows(s, s.procs[p])
    ensures HoldersOk(AdvanceProc(s, c, p))
  {
    hide CanAdvance, StateOk;
  }

  lemma ClearKeepsHolders(s: State, c: nat, p: nat)
    requires HoldersOk(s) && Ready(s, c, p) && s.procs[p].pc.Clearing?
    ensures HoldersOk(AdvanceProc(s, c, p))
  {
    hide CanAdvance, StateOk;
    assert Releases(s.procs[p].pc, s.procs[p].pc.l);
  }

  lemma KeepsHolders(s: State, c: nat, a: Action)
    requires Placed(s) && StatesOk(s) && ProcLocksOk(s) && CondLocksOk(s) && HoldersOk(s) && Enabled(s, c, a)
    requires forall p :: 0 <= p < |s.procs| ==> Knows(s, s.procs[p])
    ensures HoldersOk(Apply(s, c, a))
  {
    hide AdvanceProc;
    assert CpuPlaced(s, c);
    if Touched(s, c, a) == None {
      hide Apply, Enabled;
      var s' := Apply(s, c, a);
      StepFrame(s, c, a);
      UntouchedSame(s, c, a);
      forall q, l: nat | 0 <= q < |s.procs| && Releases(s'.procs[q].pc, l) ensures l in s'.procs[q].holds {
        if Some(q) == Subject(s.cpus[c]) {
          SubjectReleases(s, c, a, l);
        }
      }
    } else {
      var p := s.cpus[c].p;
      assert Knows(s, s.procs[p]) && ProcPlaced(s, p) && StateOk(s.procs[p]);
      hide HoldersOk;
      if s.procs[p].pc.Taking? {
        TakeKeepsHolders(s, c, p);
      } else {
        ClearKeepsHolders(s, c, p);
      }
    }
  }

  // --- a wakeup leaves nobody behind ---

  // The only way to start waiting is to release the condition lock in sleep.
  lemma CommitStep(s: State, c: nat, a: Action, q: nat, chan: nat, lk: nat)
    requires Placed(s) && StatesOk(s) && Enabled(s, c, a) && q < |s.procs|
    ensures var s' := Apply(s, c, a);
      && |s'.procs| == |s.procs|
      && (Committed(s'.procs[q], chan, lk) ==>
            || (Committed(s.procs[q], chan, lk) && s'.procs[q].pc.then_ == s.procs[q].pc.then_)
            || (s.cpus[c] == Running(q) && a == Advance
                && s.procs[q].pc == SleepUnlock(chan, lk, s'.procs[q].pc.then_)))
  {
    StepFrame(s, c, a);
    if Some(q) == Subject(s.cpus[c]) {
      if s.cpus[c].Running? && a == Advance {
        ReadyToAdvance(s, c);
        hide Committed;
        AdvanceCommits(s, c, q, chan, lk);
      } else {
        hide AdvanceProc, SharedStep;
        assert ProcPlaced(s, q) && StateOk(s.procs[q]);
      }
    } else {
      hide Apply, Enabled;
    }
  }

  lemma AdvanceCommits(s: State, c: nat, q: nat, chan: nat, lk: nat)
    requires Ready(s, c, q)
    ensures var s' := AdvanceProc(s, c, q);
      && |s'.procs| == |s.procs|
      && (Committed(s'.procs[q], chan, lk) ==>
            || (Committed(s.procs[q], chan, lk) && s'.procs[q].pc.then_ == s.procs[q].pc.then_)
            || s.procs[q].pc == SleepUnlock(chan, lk, s'.procs[q].pc.then_))
  {
    hide CanAdvance;
  }

  // A process whose lock another CPU holds is not on its way to sleep.
  lemma LockedIsSettled(s: State, c: nat, q: nat, chan: nat, lk: nat)
    requires Placed(s) && StatesOk(s) && ProcLocksOk(s) && c < |s.cpus| && q < |s.procs|
    requires HasProc(s, c, q) && s.cpus[c] != Running(q) && Committed(s.procs[q], chan, lk)
    ensures s.procs[q].pc.Asleep? && s.procs[q].state == SLEEPING && s.procs[q].chan == Some(chan)
  {
    assert ProcPlaced(s, q) && StateOk(s.procs[q]);
    assert s.plock[q] == Some(c);
    assert s.procs[q].cpu.Some? ==> !HasProc(s, s.procs[q].cpu.value, q);
  }

  // Where a scan goes: it has one more process behind it only after waking it,
  // or if that process is itself.
  ghost predicate ScanGoes(s: State, t: State, c: nat, q: nat)
    requires c < |s.cpus| && c < |t.cpus| && q < |s.procs| && q < |t.procs|
  {
    var pc, pc' := CodeAt(s, c), CodeAt(t, c);
    pc'.Some? && Behind(pc'.value, q) ==>
      && pc.Some? && Scanning(pc.value, pc'.value.chan, pc'.value.lk)
      && (|| Behind(pc.value, q) || s.cpus[c] == Running(q)
          || (pc.value.ScanLocked? && pc.value.k == q && t.procs[q] == WakeIf(s.procs[q], pc.value.chan)))
  }

  lemma ScanStepShared(s: State, c: nat, p: nat, q: nat)
    requires Ready(s, c, p) && q < |s.procs| && Shared(s.procs[p].pc)
    ensures ScanGoes(s, AdvanceProc(s, c, p), c, q)
  {
    hide CanAdvance, StateOk;
  }

  lemma ScanStepOwn(s: State, c: nat, p: nat, q: nat)
    requires Ready(s, c, p) && q < |s.procs| && !Shared(s.procs[p].pc)
    ensures ScanGoes(s, AdvanceProc(s, c, p), c, q)
  {
    hide CanAdvance, StateOk;
  }

  lemma ScanStepElse(s: State, c: nat, a: Action, q: nat)
    requires Placed(s) && StatesOk(s) && ProcLocksOk(s) && Enabled(s, c, a) && q < |s.procs|
    requires !(s.cpus[c].Running? && a.Advance?)
    ensures SameShape(s, Apply(s, c, a)) && ScanGoes(s, Apply(s, c, a), c, q)
  {
    hide CanAdvance;
    assert CpuPlaced(s, c);
    if s.cpus[c].Picked? {
      RunnableIsOff(s, c, s.cpus[c].p);
    }
    if s.cpus[c].Running? {
      assert ProcPlaced(s, s.cpus[c].p);
    }
  }

  lemma ScanStep(s: State, c: nat, a: Action, q: nat)
    requires Placed(s) && StatesOk(s) && ProcLocksOk(s) && Enabled(s, c, a) && q < |s.procs|
    ensures SameShape(s, Apply(s, c, a)) && ScanGoes(s, Apply(s, c, a), c, q)
  {
    hide AdvanceProc, ScanGoes;
    if s.cpus[c].Running? && a.Advance? {
      ReadyToAdvance(s, c);
      if Shared(s.procs[s.cpus[c].p].pc) {
        ScanStepShared(s, c, s.cpus[c].p, q);
      } else {
        ScanStepOwn(s, c, s.cpus[c].p, q);
      }
    } else {
      ScanStepElse(s, c, a, q);
    }
  }

  // The process that scans is not asleep.
  lemma ScannerIsAwake(s: State, c: nat, q: nat, chan: nat, lk: nat)
    requires c < |s.cpus| && q < |s.procs| && s.cpus[c] == Running(q)
    requires Scanning(s.procs[q].pc, chan, lk)
    ensures forall h, l :: !Committed(s.procs[q], h, l)
  {
  }

  // Nobody can start to wait for a channel under the lock of a scan.
  lemma NoNewSleeper(s: State, c: nat, d: nat, q: nat, chan: nat, lk: nat)
    requires Placed(s) && CondLocksOk(s) && c < |s.cpus| && d < |s.cpus| && c != d && q < |s.procs|
    requires CodeAt(s, c).Some? && Scanning(CodeAt(s, c).value, chan, lk)
    requires s.cpus[d] == Running(q)
    ensures forall t :: s.procs[q].pc != SleepUnlock(chan, lk, t)
  {
    assert CpuPlaced(s, c);
    assert s.cpus[c].Running? ==> ProcPlaced(s, s.cpus[c].p);
    assert HasCond(s, c, lk) && s.locks[lk].lk == Some(c) && !HasCond(s, d, lk);
  }

  // Another CPU's scan stays clean.
  lemma ElsewhereClean(s: State, c: nat, a: Action, d: nat, q: nat)
    requires Inv(s) && Enabled(s, c, a) && d < |s.cpus| && d != c && q < |s.procs|
    requires d < |Apply(s, c, a).cpus| && q < |Apply(s, c, a).procs|
    ensures CleanBehind(Apply(s, c, a), d, q)
  {
    hide Apply, Enabled;
    var s' := Apply(s, c, a);
    StepFrame(s, c, a);
    ElsewhereSame(s, c, a, d);
    assert CleanBehind(s, d, q);
    var pc := CodeAt(s, d);
    if pc.Some? && Behind(pc.value, q) {
      CommitStep(s, c, a, q, pc.value.chan, pc.value.lk);
      if s.cpus[c] == Running(q) {
        NoNewSleeper(s, d, c, q, pc.value.chan, pc.value.lk);
      }
    }
  }

  lemma HereClean(s: State, c: nat, a: Action, q: nat)
    requires Inv(s) && Enabled(s, c, a) && q < |s.procs|
    requires c < |Apply(s, c, a).cpus| && q < |Apply(s, c, a).procs|
    ensures CleanBehind(Apply(s, c, a), c, q)
  {
    var s' := Apply(s, c, a);
    StepFrame(s, c, a);
    ScanStep(s, c, a, q);
    hide Apply, Enabled;
    assert CleanBehind(s, c, q);
    var pc, pc' := CodeAt(s, c), CodeAt(s', c);
    if pc'.Some? && Behind(pc'.value, q) {
      var chan, lk := pc.value.chan, pc.value.lk;
      CommitStep(s, c, a, q, chan, lk);
      if s.cpus[c] == Running(q) {
        ScannerIsAwake(s, c, q, chan, lk);
      } else if !Behind(pc.value, q) && Committed(s.procs[q], chan, lk) {
        assert CpuPlaced(s, c) && HasProc(s, c, q);
        LockedIsSettled(s, c, q, chan, lk);
      }
    }
  }

  lemma KeepsScansClean(s: State, c: nat, a: Action)
    requires Inv(s) && Enabled(s, c, a)
    ensures ScansClean(Apply(s, c, a))
  {
    StepFrame(s, c, a);
    hide Apply, Enabled, Inv, CleanBehind;
    var s' := Apply(s, c, a);
    forall d, q | 0 <= d < |s'.cpus| && 0 <= q < |s'.procs| ensures CleanBehind(s', d, q) {
      if d == c {
        HereClean(s, c, a, q);
      } else {
        ElsewhereClean(s, c, a, d, q);
      }
    }
  }

  // --- no wakeup of a sleep lock is lost ---

  // The waker of a sleep lock goes on until nobody waits.
  lemma WakerStays(s: State, c: nat, a: Action, w: nat, l: nat, q: nat)
    requires Inv(s) && Enabled(s, c, a) && w < |s.procs| && Waker(s.procs[w].pc, l)
    requires q < |s.procs| && WaitsFor(s.procs[q], l)
    ensures |Apply(s, c, a).procs| == |s.procs| && Waker(Apply(s, c, a).procs[w].pc, l)
  {
    hide Apply, Enabled;
    var s' := Apply(s, c, a);
    StepFrame(s, c, a);
    assert ProcPlaced(s, w) && CpuPlaced(s, c);
    if s.cpus[c] == Running(w) {
      assert CleanBehind(s, c, q);
      WakerNext(s, c, a, w, l);
    } else if Some(w) == Subject(s.cpus[c]) {
      NotOffCpu(s, c, a, w);
    }
  }

  lemma WakerNext(s: State, c: nat, a: Action, w: nat, l: nat)
    requires Enabled(s, c, a) && w < |s.procs| && s.cpus[c] == Running(w) && Waker(s.procs[w].pc, l)
    ensures |Apply(s, c, a).procs| == |s.procs|
    ensures Waker(Apply(s, c, a).procs[w].pc, l) || s.procs[w].pc == Scan(l, l, |s.procs|, Leaving(l))
  {
    hide CanAdvance;
  }

  // The scheduler moves no process that is on a CPU.
  lemma NotOffCpu(s: State, c: nat, a: Action, w: nat)
    requires Placed(s) && StatesOk(s) && ProcLocksOk(s) && Enabled(s, c, a) && !s.cpus[c].Running?
    requires w < |s.procs| && !OffCpu(s.procs[w].pc)
    ensures |Apply(s, c, a).procs| == |s.procs| && Apply(s, c, a).procs[w].pc == s.procs[w].pc
  {
    if s.cpus[c].Picked? {
      RunnableIsOff(s, c, s.cpus[c].p);
    }
  }

  // A lock that was held is held still, or its releaser starts waking.
  lemma ReleaserWakes(s: State, c: nat, a: Action, l: nat)
    requires Enabled(s, c, a) && l < |s.locks| && s.locks[l].locked
    ensures Expected(Apply(s, c, a), l)
  {
    hide CanAdvance;
    var s' := Apply(s, c, a);
    UntouchedSame(s, c, a);
    if Touched(s, c, a) == Some(l) {
      assert s'.locks[l].locked || Waker(s'.procs[s.cpus[c].p].pc, l);
    }
  }

  lemma StaysExpected(s: State, c: nat, a: Action, q: nat, l: nat)
    requires Inv(s) && Enabled(s, c, a) && q < |s.procs| && WaitsFor(s.procs[q], l)
    ensures Expected(Apply(s, c, a), l)
  {
    assert Expected(s, l);
    if l < |s.locks| && s.locks[l].locked {
      ReleaserWakes(s, c, a, l);
    } else {
      hide Apply, Enabled, Inv;
      var w :| 0 <= w < |s.procs| && Waker(s.procs[w].pc, l);
      WakerStays(s, c, a, w, l, q);
    }
  }

  lemma KeepsNothingLost(s: State, c: nat, a: Action)
    requires Inv(s) && Enabled(s, c, a)
    ensures NothingLost(Apply(s, c, a))
  {
    hide Apply, Enabled;
    var s' := Apply(s, c, a);
    StepFrame(s, c, a);
    forall q, l: nat | 0 <= q < |s'.procs| && WaitsFor(s'.procs[q], l) ensures Expected(s', l) {
      CommitStep(s, c, a, q, l, l);
      if Committed(s.procs[q], l, l) {
        StaysExpected(s, c, a, q, l);
      } else {
        assert Knows(s, s.procs[q]);
        ReleaserWakes(s, c, a, l);
      }
    }
  }

  lemma StepKeepsInv(s: State, c: nat, a: Action)
    requires Inv(s) && Enabled(s, c, a)
    ensures Inv(Apply(s, c, a))
  {
    hide Apply, Enabled, Placed, StatesOk, ProcLocksOk, CondLocksOk, HoldersOk, ScansClean, NothingLost;
    KeepsPlaced(s, c, a);
    KeepsStates(s, c, a);
    KeepsLocks(s, c, a);
    KeepsKnowledge(s, c, a);
    KeepsHolders(s, c, a);
    KeepsScansClean(s, c, a);
    KeepsNothingLost(s, c, a);
  }

  // --- whole runs ---

  datatype Move = Move(c: nat, a: Action)

  ghost predicate Run(trace: seq<State>, moves: seq<Move>) {
    && |trace| == |moves| + 1
    && forall i :: 0 <= i < |moves| ==>
         Enabled(trace[i], moves[i].c, moves[i].a) && trace[i + 1] == Apply(trace[i], moves[i].c, moves[i].a)
  }

  // All processes are runnable in the middle of nowhere, all locks are free.
  ghost predicate Initial(s: State) {
    && |s.plock| == |s.procs|
    && (forall p :: 0 <= p < |s.procs| ==>
          s.procs[p] == Proc(RUNNABLE, None, Yielded(Idle), None, {}) && s.plock[p] == None)
    && (forall c :: 0 <= c < |s.cpus| ==> s.cpus[c] == Looking)
    && (forall l :: 0 <= l < |s.locks| ==> s.locks[l] == SleepLock(None, false, None))
  }

  lemma {:induction false} RunKeepsInv(trace: seq<State>, moves: seq<Move>, i: nat)
    requires Run(trace, moves) && Initial(trace[0]) && i < |trace|
    ensures Inv(trace[i])
  {
    if i == 0 {
      InitialInv(trace[0]);
    } else {
      RunKeepsInv(trace, moves, i - 1);
      StepKeepsInv(trace[i - 1], moves[i - 1].c, moves[i - 1].a);
    }
  }

  lemma InitialInv(s: State)
    requires Initial(s)
    ensures Inv(s)
  {
    forall p | 0 <= p < |s.procs| ensures ProcPlaced(s, p) && Knows(s, s.procs[p]) {
      assert InRange(|s.procs|, |s.locks|, Yielded(Idle));
    }
  }

  // For every channel and condition lock: when a wakeup(chan) issued under lk,
  // by a process or a handler, has been through all processes, nobody who let
  // go of lk in sleep(chan, lk) waits any more.
  lemma WakeupReachesAll(trace: seq<State>, moves: seq<Move>, i: nat, c: nat, chan: nat, lk: nat, p: nat)
    requires Run(trace, moves) && Initial(trace[0]) && i < |trace| && c < |trace[i].cpus| && p < |trace[i].procs|
    requires CodeAt(trace[i], c).Some? && Scanning(CodeAt(trace[i], c).value, chan, lk)
    requires CodeAt(trace[i], c).value.Scan? && CodeAt(trace[i], c).value.k == |trace[i].procs|
    ensures !Committed(trace[i].procs[p], chan, lk)
  {
    RunKeepsInv(trace, moves, i);
    assert CleanBehind(trace[i], c, p);
  }

  // And while it is under way, whoever waits is still ahead of it.
  lemma WaiterIsAhead(trace: seq<State>, moves: seq<Move>, i: nat, c: nat, chan: nat, lk: nat, p: nat)
    requires Run(trace, moves) && Initial(trace[0]) && i < |trace| && c < |trace[i].cpus| && p < |trace[i].procs|
    requires CodeAt(trace[i], c).Some? && Scanning(CodeAt(trace[i], c).value, chan, lk)
    requires Committed(trace[i].procs[p], chan, lk)
    ensures !Behind(CodeAt(trace[i], c).value, p)
  {
    RunKeepsInv(trace, moves, i);
    assert CleanBehind(trace[i], c, p);
  }

  // So a process that waits for a sleep lock waits for one that is held, or
  // has the wakeup of its releaser still ahead; with the spin lock free, the
  // sleep lock is held.
  lemma NoLostWakeup(trace: seq<State>, moves: seq<Move>, i: nat, p: nat, l: nat)
    requires Run(trace, moves) && Initial(trace[0]) && i < |trace|
    requires p < |trace[i].procs| && l < |trace[i].locks| && WaitsFor(trace[i].procs[p], l)
    ensures trace[i].locks[l].locked
      || exists w :: 0 <= w < |trace[i].procs| && Waker(trace[i].procs[w].pc, l) && !Behind(trace[i].procs[w].pc, p)
    ensures trace[i].locks[l].lk == None ==> trace[i].locks[l].locked
  {
    RunKeepsInv(trace, moves, i);
    var s := trace[i];
    assert Expected(s, l);
    if !s.locks[l].locked {
      var w :| 0 <= w < |s.procs| && Waker(s.procs[w].pc, l);
      assert ProcPlaced(s, w);
      WaiterIsAhead(trace, moves, i, s.procs[w].cpu.value, l, l, p);
      assert HasCond(s, s.procs[w].cpu.value, l);
    }
  }

  // A sleep lock never has two holders.
  lemma MutualExclusion(trace: seq<State>, moves: seq<Move>, i: nat, p: nat, q: nat, l: nat)
    requires Run(trace, moves) && Initial(trace[0]) && i < |trace|
    requires p < |trace[i].procs| && q < |trace[i].procs| && l in trace[i].procs[p].holds
    requires l in trace[i].procs[q].holds
    ensures p == q
  {
    RunKeepsInv(trace, moves, i);
    assert trace[i].locks[l].pid == Some(p);
  }

  // No process ever runs on two CPUs.
  lemma OneCpuEach(trace: seq<State>, moves: seq<Move>, i: nat, c: nat, d: nat)
    requires Run(trace, moves) && Initial(trace[0]) && i < |trace|
    requires c < |trace[i].cpus| && d < |trace[i].cpus| && trace[i].cpus[c].Running?
    requires trace[i].cpus[c] == trace[i].cpus[d]
    ensures c == d
  {
    RunKeepsInv(trace, moves, i);
    assert CpuPlaced(trace[i], c) && CpuPlaced(trace[i], d);
  }

  // sched() finds p->lock held by this CPU, no other spin lock held by it, and
  // the process not RUNNING: none of its panics can happen.
  lemma SchedNeverPanics(trace: seq<State>, moves: seq<Move>, i: nat, c: nat)
    requires Run(trace, moves) && Initial(trace[0]) && i < |trace|
    requires c < |trace[i].cpus| && trace[i].cpus[c].Running? && trace[i].cpus[c].p < |trace[i].procs|
    requires var pc := trace[i].procs[trace[i].cpus[c].p].pc; pc.SleepSwitch? || pc.YieldSwitch?
    ensures var s, p := trace[i], trace[i].cpus[c].p;
      && p < |s.plock| == |s.procs| && s.plock[p] == Some(c) && s.procs[p].state != RUNNING
      && (forall q :: 0 <= q < |s.plock| && s.plock[q] == Some(c) ==> q == p)
      && (forall l :: 0 <= l < |s.locks| ==> s.locks[l].lk != Some(c))
  {
    RunKeepsInv(trace, moves, i);
    var s, p := trace[i], trace[i].cpus[c].p;
    assert CpuPlaced(s, c) && StateOk(s.procs[p]) && HasProc(s, c, p);
  }

  // acquire() never finds the lock already held by its own CPU.
  lemma AcquireNeverPanics(trace: seq<State>, moves: seq<Move>, i: nat, c: nat)
    requires Run(trace, moves) && Initial(trace[0]) && i < |trace|
    requires c < |trace[i].cpus| && CodeAt(trace[i], c).Some?
    ensures var s, pc := trace[i], CodeAt(trace[i], c).value;
      var me := if s.cpus[c].Running? then s.cpus[c].p else |s.procs|;
      && |s.plock| == |s.procs|
      && (forall q :: 0 <= q < |s.procs| && WantsProc(me, pc, q) ==> s.plock[q] != Some(c))
      && (forall l :: 0 <= l < |s.locks| && WantsCond(pc, l) ==> s.locks[l].lk != Some(c))
  {
    RunKeepsInv(trace, moves, i);
  }
}
