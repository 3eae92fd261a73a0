/** The multi-level feedback queue as a transition system (kernel/proc.c,
    kernel/trap.c). clockintr takes no p->lock, so its statements interleave
    with the three stores that mlfq_boost makes on another CPU; everything
    else holds p->lock and is one step. */
module MlfqProtocol {
  import opened Sums

  const MLFQ_LEVELS: nat := 4

  type Counters = xs: seq<nat> | |xs| == MLFQ_LEVELS witness [0, 0, 0, 0]

  // mlfq_quantum
  function Quantum(level: nat): nat
    requires level < MLFQ_LEVELS
  {
    [2, 4, 8, 16][level]
  }

  datatype RunState = UNUSED | USED | SLEEPING | RUNNABLE | RUNNING | ZOMBIE

  datatype Proc = Proc(
    state: RunState, level: nat, currentTicks: nat, expired: bool,
    sliceStart: nat, syscalls: nat, ticks: Counters, timesScheduled: nat)

  // init_mlfq_state
  function NewProc(state: RunState): Proc { Proc(state, 0, 0, false, 0, 0, [0, 0, 0, 0], 0) }

  predicate Present(pr: Proc) { pr.state != UNUSED && pr.state != ZOMBIE }

  // --- the history of levels ---

  datatype Event = Boosted(p: nat) | Created(p: nat) | Demoted(p: nat)

  predicate Resets(e: Event, p: nat) { e == Boosted(p) || e == Created(p) }

  // How often p has been demoted since a boost last reached it, or since its creation.
  function Demotions(log: seq<Event>, p: nat): nat {
    if log == [] then 0
    else
      var last := log[|log| - 1];
      if Resets(last, p) then 0 else Demotions(log[..|log| - 1], p) + if last == Demoted(p) then 1 else 0
  }

  lemma DemotionsAfter(log: seq<Event>, e: Event, p: nat)
    ensures Demotions(log + [e], p) == if Resets(e, p) then 0 else Demotions(log, p) + if e == Demoted(p) then 1 else 0
  {
    assert (log + [e])[..|log|] == log;
  }

  // The demotions of p in any part of the log.
  function CountDemoted(log: seq<Event>, p: nat): nat {
    if log == [] then 0 else CountDemoted(log[..|log| - 1], p) + if log[|log| - 1] == Demoted(p) then 1 else 0
  }

  // At no point of its history has p been demoted more often than there are levels below.
  ghost predicate NeverMany(log: seq<Event>, p: nat) {
    forall k :: 0 <= k <= |log| ==> Demotions(log[..k], p) < MLFQ_LEVELS
  }

  lemma NeverManyAfter(log: seq<Event>, e: Event, p: nat)
    requires NeverMany(log, p) && (e == Demoted(p) ==> Demotions(log, p) < MLFQ_LEVELS - 1)
    ensures NeverMany(log + [e], p)
  {
    DemotionsAfter(log, e, p);
    assert log[..|log|] == log;
    forall k | 0 <= k <= |log| + 1 ensures Demotions((log + [e])[..k], p) < MLFQ_LEVELS {
      if k <= |log| {
        assert (log + [e])[..k] == log[..k];
      } else {
        assert (log + [e])[..k] == log + [e];
      }
    }
  }

  // Between two resets the demotions are counted one by one.
  lemma {:induction false} WindowCounts(log: seq<Event>, p: nat, lo: nat, hi: nat)
    requires lo <= hi <= |log| && forall k :: lo <= k < hi ==> !Resets(log[k], p)
    ensures CountDemoted(log[lo..hi], p) <= Demotions(log[..hi], p)
    decreases hi
  {
    if lo < hi {
      WindowCounts(log, p, lo, hi - 1);
      assert log[lo..hi][..hi - 1 - lo] == log[lo..hi - 1];
      assert log[..hi][..hi - 1] == log[..hi - 1];
    }
  }

  // --- what the pieces of code do to one process ---

  // clockintr up to `p->current_ticks++`
  function CountTick(pr: Proc): Proc {
    pr.(level := if pr.level < MLFQ_LEVELS then pr.level else 0, currentTicks := pr.currentTicks + 1)
  }

  function ChargeTick(pr: Proc): Proc {
    if pr.level < MLFQ_LEVELS then pr.(ticks := pr.ticks[pr.level := pr.ticks[pr.level] + 1]) else pr
  }

  // yield demotes a process that made fewer system calls than ticks.
  predicate Demotes(pr: Proc) {
    pr.expired && pr.syscalls - pr.sliceStart < pr.currentTicks && pr.level < MLFQ_LEVELS - 1
  }

  function YieldOf(pr: Proc): Proc {
    pr.(state := RUNNABLE, level := if Demotes(pr) then pr.level + 1 else pr.level,
        currentTicks := if pr.expired then 0 else pr.currentTicks, expired := false)
  }

  function DispatchOf(pr: Proc): Proc {
    pr.(state := RUNNING, currentTicks := 0, expired := false,
        sliceStart := pr.syscalls, timesScheduled := pr.timesScheduled + 1)
  }

  // --- the steps ---

  // Where the CPU of a running process is: outside the timer interrupt, after
  // `current_ticks++`, after `ticks[level]++`, about to set time_slice_expired,
  // at the test of usertrap or kerneltrap, inside yield waiting for p->lock.
  datatype Stage = Outside | Counted | Charged | Over | Checked | Yielding

  // mlfq_boost has made that many of its three stores to process q.
  datatype Boost = NoBoost | Boosting(q: nat, stores: nat)

  datatype State = State(procs: seq<Proc>, stage: seq<Stage>, boost: Boost, log: seq<Event>, charged: seq<nat>)

  datatype Action =
    | Tick(p: nat) | Charge(p: nat) | Compare(p: nat) | Expire(p: nat) | Test(p: nat) | Yield(p: nat)
    | BoostBegin | BoostStep
    | Dispatch(p: nat)                     // scheduler switches to p
    | Syscall(p: nat)
    | Become(p: nat, state: RunState)      // fork, sleep, wakeup, kill, exit and freeproc
    | Create(p: nat)                       // allocproc

  function Stores(b: Boost, p: nat): nat { if b.Boosting? && b.q == p then b.stores else 0 }

  // mlfq_boost holds p->lock from its first store to its last.
  predicate LockFree(s: State, p: nat) { Stores(s.boost, p) == 0 }

  predicate Shape(s: State) {
    |s.stage| == |s.procs| == |s.charged|
  }

  predicate Enabled(s: State, a: Action) {
    && Shape(s)
    && match a {
         case Tick(p) => p < |s.procs| && s.procs[p].state == RUNNING && s.stage[p].Outside?
         case Charge(p) => p < |s.procs| && s.stage[p].Counted?
         case Compare(p) => p < |s.procs| && s.stage[p].Charged?
         case Expire(p) => p < |s.procs| && s.stage[p].Over?
         case Test(p) => p < |s.procs| && s.stage[p].Checked?
         case Yield(p) => p < |s.procs| && s.stage[p].Yielding? && LockFree(s, p)
         case BoostBegin => s.boost.NoBoost?
         case BoostStep => s.boost.Boosting?
         case Dispatch(p) => p < |s.procs| && s.procs[p].state == RUNNABLE && LockFree(s, p)
         case Syscall(p) => p < |s.procs| && s.procs[p].state == RUNNING && s.stage[p].Outside?
         case Become(p, state) =>
           && p < |s.procs| && LockFree(s, p) && state != RUNNING
           && (Present(s.procs[p]) || (s.procs[p].state == ZOMBIE && state == UNUSED))
           && (s.stage[p].Outside? || s.stage[p].Checked?)  // a killed process exits before the test
         case Create(p) => p < |s.procs| && s.procs[p].state == UNUSED && LockFree(s, p)
       }
  }

  function Put(s: State, p: nat, pr: Proc, stage: Stage): State
    requires Shape(s) && p < |s.procs|
  {
    s.(procs := s.procs[p := pr], stage := s.stage[p := stage])
  }

  function Apply(s: State, a: Action): State
    requires Enabled(s, a)
  {
    match a
    case Tick(p) => Put(s, p, CountTick(s.procs[p]), Counted).(charged := s.charged[p := s.charged[p] + 1])
    case Charge(p) => Put(s, p, ChargeTick(s.procs[p]), Charged)
    case Compare(p) =>
      var pr := s.procs[p];
      Put(s, p, pr, if pr.level < MLFQ_LEVELS && pr.currentTicks >= Quantum(pr.level) then Over else Checked)
    case Expire(p) => Put(s, p, s.procs[p].(expired := true), Checked)
    case Test(p) => Put(s, p, s.procs[p], if s.procs[p].expired then Yielding else Outside)
    case Yield(p) =>
      Put(s, p, YieldOf(s.procs[p]), Outside).(log := if Demotes(s.procs[p]) then s.log + [Demoted(p)] else s.log)
    case BoostBegin => s.(boost := Boosting(0, 0))
    case BoostStep => BoostStore(s, s.boost.q)
    case Dispatch(p) => Put(s, p, DispatchOf(s.procs[p]), Outside)
    case Syscall(p) => Put(s, p, s.procs[p].(syscalls := s.procs[p].syscalls + 1), Outside)
    case Become(p, state) => Put(s, p, s.procs[p].(state := state), Outside)
    case Create(p) =>
      Put(s, p, NewProc(USED), Outside).(log := s.log + [Created(p)], charged := s.charged[p := 0])
  }

  // The next store of mlfq_boost, or its step to the next process.
  function BoostStore(s: State, q: nat): State
    requires Shape(s) && s.boost.Boosting?
  {
    if q >= |s.procs| then s.(boost := NoBoost)
    else if s.boost.stores == 0 && !Present(s.procs[q]) then s.(boost := Boosting(q + 1, 0))
    else if s.boost.stores == 0 then
      Put(s, q, s.procs[q].(level := 0), s.stage[q]).(boost := Boosting(q, 1), log := s.log + [Boosted(q)])
    else if s.boost.stores == 1 then
      Put(s, q, s.procs[q].(currentTicks := 0), s.stage[q]).(boost := Boosting(q, 2))
    else Put(s, q, s.procs[q].(expired := false), s.stage[q]).(boost := Boosting(q + 1, 0))
  }

  // --- the invariant ---

  // The time slice of a running process after that many stores of a boost.
  // After the first store the ticks are still those of the old level. The last
  // store may erase an expiry that was just found: then the process goes on
  // with a used-up quantum at level 0, and the next tick finds it.
  predicate SliceOk(pr: Proc, stage: Stage, stores: nat)
    requires pr.level < MLFQ_LEVELS
  {
    var t, q := pr.currentTicks, Quantum(pr.level);
    && (stage.Outside? || stage.Counted? || stage.Charged? || stage.Over? ==> !pr.expired)
    && (stores == 0 ==>
          match stage
          case Outside => t < q || (t == q && pr.level == 0)
          case Checked => pr.expired || t < q || (t == q && pr.level == 0)
          case Yielding => true
          case _ => t <= q || (t == q + 1 && pr.level == 0))
    && (stores == 1 ==>
          match stage
          case Outside => t < Quantum(MLFQ_LEVELS - 1)
          case Checked => pr.expired || t < Quantum(MLFQ_LEVELS - 1)
          case Yielding => true
          case _ => t <= Quantum(MLFQ_LEVELS - 1))
    && (stores == 2 ==>
          match stage
          case Outside => t <= 1
          case Checked => t <= 1 || (t == 2 && pr.expired)
          case _ => t <= 2)
  }

  ghost predicate ProcOk(pr: Proc, stage: Stage, stores: nat, log: seq<Event>, p: nat, charged: nat) {
    && pr.level < MLFQ_LEVELS && pr.sliceStart <= pr.syscalls && NeverMany(log, p)
    && (Present(pr) ==> pr.level == Demotions(log, p))
    && (Present(pr) ==> Total(pr.ticks) + (if stage.Counted? then 1 else 0) == charged)
    && (!stage.Outside? ==> pr.state == RUNNING)
    && (stores > 0 ==> Present(pr) && pr.level == 0)
    && (pr.state == RUNNING ==> SliceOk(pr, stage, stores))
  }

  ghost predicate Inv(s: State) {
    && Shape(s) && (s.boost.Boosting? ==> s.boost.stores <= 2)
    && forall q :: 0 <= q < |s.procs| ==>
         ProcOk(s.procs[q], s.stage[q], Stores(s.boost, q), s.log, q, s.charged[q])
  }

  // A step that touches process p only.
  lemma OthersKeep(s: State, t: State, p: nat, q: nat)
    requires Inv(s) && Shape(t) && |t.procs| == |s.procs| && q < |s.procs| && q != p
    requires t.procs[q] == s.procs[q] && t.stage[q] == s.stage[q] && t.charged[q] == s.charged[q]
    requires t.log == s.log || exists e: Event :: t.log == s.log + [e] && e.p == p
    requires Stores(t.boost, q) == Stores(s.boost, q)
    ensures ProcOk(t.procs[q], t.stage[q], Stores(t.boost, q), t.log, q, t.charged[q])
  {
    hide SliceOk, Demotions, NeverMany;
    assert ProcOk(s.procs[q], s.stage[q], Stores(s.boost, q), s.log, q, s.charged[q]);
    if t.log != s.log {
      var e: Event :| t.log == s.log + [e] && e.p == p;
      DemotionsAfter(s.log, e, q);
      NeverManyAfter(s.log, e, q);
    }
  }

  // clockintr, statement by statement
  lemma TickKeeps(s: State, a: Action, p: nat)
    requires Inv(s) && Enabled(s, a) && p < |s.procs|
    requires a == Tick(p) || a == Charge(p) || a == Compare(p) || a == Expire(p) || a == Test(p)
    ensures var t := Apply(s, a); ProcOk(t.procs[p], t.stage[p], Stores(t.boost, p), t.log, p, t.charged[p])
  {
    hide NeverMany, Demotions, Total;
    var pr := s.procs[p];
    assert ProcOk(pr, s.stage[p], Stores(s.boost, p), s.log, p, s.charged[p]);
    TotalUpdate(pr.ticks, pr.level, pr.ticks[pr.level] + 1);
  }

  // The steps of p under p->lock
  lemma LockedKeeps(s: State, a: Action, p: nat)
    requires Inv(s) && Enabled(s, a) && p < |s.procs|
    requires a == Yield(p) || a == Dispatch(p) || a == Syscall(p) || a == Create(p) || (a.Become? && a.p == p)
    ensures var t := Apply(s, a); ProcOk(t.procs[p], t.stage[p], Stores(t.boost, p), t.log, p, t.charged[p])
  {
    hide NeverMany, Demotions, Total;
    assert ProcOk(s.procs[p], s.stage[p], Stores(s.boost, p), s.log, p, s.charged[p]);
    DemotionsAfter(s.log, Created(p), p);
    NeverManyAfter(s.log, Created(p), p);
    TotalOfZeros([0, 0, 0, 0]);
    if Demotes(s.procs[p]) && a == Yield(p) {
      DemotionsAfter(s.log, Demoted(p), p);
      NeverManyAfter(s.log, Demoted(p), p);
    }
  }

  lemma BoostKeeps(s: State)
    requires Inv(s) && s.boost.Boosting? && s.boost.q < |s.procs|
    ensures var t, p := Apply(s, BoostStep), s.boost.q;
      ProcOk(t.procs[p], t.stage[p], Stores(t.boost, p), t.log, p, t.charged[p])
  {
    hide NeverMany, Demotions, Total;
    var p := s.boost.q;
    assert ProcOk(s.procs[p], s.stage[p], Stores(s.boost, p), s.log, p, s.charged[p]);
    DemotionsAfter(s.log, Boosted(p), p);
    NeverManyAfter(s.log, Boosted(p), p);
  }

  // The process a step is about.
  function Subject(s: State, a: Action): nat {
    if a.BoostStep? then (if s.boost.Boosting? then s.boost.q else 0)
    else if a.BoostBegin? then |s.procs| else a.p
  }

  lemma StepFrame(s: State, a: Action, q: nat)
    requires Enabled(s, a) && q < |s.procs| && q != Subject(s, a)
    requires s.boost.Boosting? ==> s.boost.stores <= 2
    ensures var t := Apply(s, a);
      && Shape(t) && |t.procs| == |s.procs| && t.procs[q] == s.procs[q] && t.stage[q] == s.stage[q]
      && t.charged[q] == s.charged[q] && Stores(t.boost, q) == Stores(s.boost, q)
      && (t.log == s.log || exists e: Event :: t.log == s.log + [e] && e.p == Subject(s, a))
  {
    var p := Subject(s, a);
    var t := Apply(s, a);
    assert t.log == s.log || t.log == s.log + [Demoted(p)]
      || t.log == s.log + [Boosted(p)] || t.log == s.log + [Created(p)];
    assert Demoted(p).p == Boosted(p).p == Created(p).p == p;
  }

  lemma StepKeepsInv(s: State, a: Action)
    requires Inv(s) && Enabled(s, a)
    ensures Inv(Apply(s, a))
  {
    hide ProcOk;
    var t, p := Apply(s, a), Subject(s, a);
    forall q | 0 <= q < |s.procs| ensures ProcOk(t.procs[q], t.stage[q], Stores(t.boost, q), t.log, q, t.charged[q]) {
      if q != p {
        StepFrame(s, a, q);
        OthersKeep(s, t, p, q);
      } else if a.BoostStep? {
        BoostKeeps(s);
      } else if a.Tick? || a.Charge? || a.Compare? || a.Expire? || a.Test? {
        TickKeeps(s, a, p);
      } else {
        LockedKeeps(s, a, p);
      }
    }
  }

  // --- every run ---

  ghost predicate Run(s: State, actions: seq<Action>, t: State)
    decreases |actions|
  {
    if actions == [] then s == t else Enabled(s, actions[0]) && Run(Apply(s, actions[0]), actions[1..], t)
  }

  // procinit
  function Boot(n: nat): State {
    State(seq(n, _ => NewProc(UNUSED)), seq(n, _ => Outside), NoBoost, [], seq(n, _ => 0))
  }

  lemma BootInv(n: nat)
    ensures Inv(Boot(n))
  {
  }

  lemma {:induction false} RunKeepsInv(s: State, actions: seq<Action>, t: State)
    requires Inv(s) && Run(s, actions, t)
    ensures Inv(t)
    decreases |actions|
  {
    hide Inv;
    if actions != [] {
      StepKeepsInv(s, actions[0]);
      RunKeepsInv(Apply(s, actions[0]), actions[1..], t);
    }
  }

  lemma NoSteps(s: State)
    ensures Run(s, [], s)
  {
  }

  lemma {:induction false} RunAppend(s: State, actions: seq<Action>, t: State, a: Action)
    requires Run(s, actions, t) && Enabled(t, a)
    ensures Run(s, actions + [a], Apply(t, a))
    decreases |actions|
  {
    hide Enabled, Apply;
    if actions == [] {
      assert [a][1..] == [] && Run(Apply(s, a), [], Apply(s, a));
    } else {
      RunAppend(Apply(s, actions[0]), actions[1..], t, a);
      assert (actions + [a])[1..] == actions[1..] + [a];
    }
  }

  lemma {:induction false} RunCompose(s: State, a: seq<Action>, t: State, b: seq<Action>, u: State)
    requires Run(s, a, t) && Run(t, b, u)
    ensures Run(s, a + b, u)
    decreases |a|
  {
    hide Enabled, Apply;
    if a == [] {
      assert a + b == b;
    } else {
      RunCompose(Apply(s, a[0]), a[1..], t, b, u);
      assert (a + b)[1..] == a[1..] + b;
    }
  }

  // In every run, however its steps interleave: a level is a level, it is the
  // number of demotions since a boost last reached the process, and every tick
  // taken is on record at one level.
  lemma LevelIsDemotions(n: nat, actions: seq<Action>, t: State, p: nat)
    requires Run(Boot(n), actions, t) && p < |t.procs|
    ensures t.procs[p].level < MLFQ_LEVELS
    ensures Present(t.procs[p]) ==> t.procs[p].level == Demotions(t.log, p)
    ensures p < |t.charged| && p < |t.stage|
    ensures Present(t.procs[p]) && !t.stage[p].Counted? ==> Total(t.procs[p].ticks) == t.charged[p]
  {
    BootInv(n);
    RunKeepsInv(Boot(n), actions, t);
    assert ProcOk(t.procs[p], t.stage[p], Stores(t.boost, p), t.log, p, t.charged[p]);
  }

  // Between two boosts of a process, or its creation and a boost, it is
  // demoted at most three times, in every run and at every point of its log.
  lemma FewDemotions(n: nat, actions: seq<Action>, t: State, p: nat, lo: nat, hi: nat)
    requires Run(Boot(n), actions, t) && p < |t.procs| && lo <= hi <= |t.log|
    requires forall k :: lo <= k < hi ==> !Resets(t.log[k], p)
    ensures CountDemoted(t.log[lo..hi], p) <= MLFQ_LEVELS - 1
  {
    BootInv(n);
    RunKeepsInv(Boot(n), actions, t);
    assert ProcOk(t.procs[p], t.stage[p], Stores(t.boost, p), t.log, p, t.charged[p]);
    WindowCounts(t.log, p, lo, hi);
  }

  // Nothing else moves a process between levels: each change of a level is on
  // the log as the process's boost, its creation, or one demotion by one level.
  // The range check at the start of clockintr never fires.
  lemma LevelChangesAreLogged(n: nat, actions: seq<Action>, s: State, a: Action, p: nat)
    requires Run(Boot(n), actions, s) && Enabled(s, a) && p < |s.procs|
    ensures var t := Apply(s, a);
      && |t.procs| == |s.procs|
      && (t.procs[p].level != s.procs[p].level ==>
            || (t.log == s.log + [Boosted(p)] && t.procs[p].level == 0 && a == BoostStep)
            || (t.log == s.log + [Created(p)] && t.procs[p].level == 0 && a == Create(p))
            || (t.log == s.log + [Demoted(p)] && t.procs[p].level == s.procs[p].level + 1 && a == Yield(p)))
  {
    BootInv(n);
    RunKeepsInv(Boot(n), actions, s);
    assert ProcOk(s.procs[p], s.stage[p], Stores(s.boost, p), s.log, p, s.charged[p]);
  }

  // The steps of p that its time slice depends on: system calls since the last
  // dispatch, ticks since the last dispatch or second store of a boost, and
  // whether the slice has expired since the last dispatch or boost.
  datatype Slice = Slice(syscalls: nat, ticks: nat, expired: bool)

  function SliceAfter(s: State, a: Action, p: nat, n: Slice): Slice {
    if a == Dispatch(p) || a == Create(p) then Slice(0, 0, false)
    else if a == Syscall(p) then n.(syscalls := n.syscalls + 1)
    else if a == Tick(p) then n.(ticks := n.ticks + 1)
    else if a == Expire(p) then n.(expired := true)
    else if a == BoostStep && s.boost == Boosting(p, 1) then n.(ticks := 0)
    else if a == BoostStep && s.boost == Boosting(p, 2) then n.(expired := false)
    else n
  }

  // Counted over a run from s.
  ghost function SliceOf(s: State, actions: seq<Action>, p: nat, n: Slice): Slice
    decreases |actions|
  {
    if actions == [] || !Enabled(s, actions[0]) then n
    else SliceOf(Apply(s, actions[0]), actions[1..], p, SliceAfter(s, actions[0], p, n))
  }

  ghost predicate Agrees(s: State, p: nat, n: Slice) {
    p < |s.procs| && s.procs[p].state == RUNNING ==>
      var pr := s.procs[p];
      pr.syscalls == pr.sliceStart + n.syscalls && pr.currentTicks == n.ticks && pr.expired == n.expired
  }

  lemma SliceStep(s: State, a: Action, p: nat, n: Slice)
    requires Inv(s) && Enabled(s, a) && Agrees(s, p, n)
    ensures Agrees(Apply(s, a), p, SliceAfter(s, a, p, n))
  {
    hide SliceOk, NeverMany, Demotions, Total;
    if p < |s.procs| {
      assert ProcOk(s.procs[p], s.stage[p], Stores(s.boost, p), s.log, p, s.charged[p]);
    }
  }

  lemma {:induction false} SliceAgrees(s: State, actions: seq<Action>, t: State, p: nat, n: Slice)
    requires Inv(s) && Run(s, actions, t) && Agrees(s, p, n)
    ensures Agrees(t, p, SliceOf(s, actions, p, n))
    decreases |actions|
  {
    hide Inv, Agrees, Enabled, Apply, SliceAfter;
    if actions != [] {
      StepKeepsInv(s, actions[0]);
      SliceStep(s, actions[0], p, n);
      SliceAgrees(Apply(s, actions[0]), actions[1..], t, p, SliceAfter(s, actions[0], p, n));
    }
  }

  // In every run: yield demotes exactly the processes whose slice has expired,
  // that have been demoted less than three times since they were boosted, and
  // that made fewer system calls since they were dispatched than they took
  // ticks since then or since the boost.
  lemma DemotedExactlyIf(n: nat, actions: seq<Action>, s: State, p: nat)
    requires Run(Boot(n), actions, s) && Enabled(s, Yield(p))
    ensures var slice := SliceOf(Boot(n), actions, p, Slice(0, 0, false));
      Apply(s, Yield(p)).log ==
        if slice.expired && slice.syscalls < slice.ticks && Demotions(s.log, p) < 3 then s.log + [Demoted(p)] else s.log
  {
    BootInv(n);
    RunKeepsInv(Boot(n), actions, s);
    SliceAgrees(Boot(n), actions, s, p, Slice(0, 0, false));
    hide NeverMany, Demotions, Total, SliceOk, SliceOf;
    assert ProcOk(s.procs[p], s.stage[p], Stores(s.boost, p), s.log, p, s.charged[p]);
  }

  // What getmlfqinfo reports, counted over a run: the dispatches, system calls
  // and ticks of p since its creation, each tick at the level p had when it was
  // charged.
  datatype Tally = Tally(dispatches: nat, syscalls: nat, ticks: Counters)

  function TallyAfter(s: State, a: Action, p: nat, n: Tally): Tally {
    if a == Create(p) then Tally(0, 0, [0, 0, 0, 0])
    else if a == Dispatch(p) then n.(dispatches := n.dispatches + 1)
    else if a == Syscall(p) then n.(syscalls := n.syscalls + 1)
    else if a == Charge(p) && p < |s.procs| && s.procs[p].level < MLFQ_LEVELS then
      n.(ticks := n.ticks[s.procs[p].level := n.ticks[s.procs[p].level] + 1])
    else n
  }

  ghost function TallyOf(s: State, actions: seq<Action>, p: nat, n: Tally): Tally
    decreases |actions|
  {
    if actions == [] || !Enabled(s, actions[0]) then n
    else TallyOf(Apply(s, actions[0]), actions[1..], p, TallyAfter(s, actions[0], p, n))
  }

  ghost predicate Reports(s: State, p: nat, n: Tally) {
    p < |s.procs| ==>
      s.procs[p].timesScheduled == n.dispatches && s.procs[p].syscalls == n.syscalls && s.procs[p].ticks == n.ticks
  }

  lemma TallyStep(s: State, a: Action, p: nat, n: Tally)
    requires Enabled(s, a) && Reports(s, p, n)
    ensures Reports(Apply(s, a), p, TallyAfter(s, a, p, n))
  {
  }

  lemma {:induction false} TallyReports(s: State, actions: seq<Action>, t: State, p: nat, n: Tally)
    requires Run(s, actions, t) && Reports(s, p, n)
    ensures Reports(t, p, TallyOf(s, actions, p, n))
    decreases |actions|
  {
    hide Reports, Enabled, Apply, TallyAfter;
    if actions != [] {
      TallyStep(s, actions[0], p, n);
      TallyReports(Apply(s, actions[0]), actions[1..], t, p, TallyAfter(s, actions[0], p, n));
    }
  }

  lemma StatisticsAreExact(n: nat, actions: seq<Action>, t: State, p: nat)
    requires Run(Boot(n), actions, t) && p < |t.procs|
    ensures var tally := TallyOf(Boot(n), actions, p, Tally(0, 0, [0, 0, 0, 0]));
      t.procs[p].timesScheduled == tally.dispatches && t.procs[p].syscalls == tally.syscalls
      && t.procs[p].ticks == tally.ticks
  {
    TallyReports(Boot(n), actions, t, p, Tally(0, 0, [0, 0, 0, 0]));
  }

  // What a process has used of its quantum while it goes on, outside the timer
  // interrupt: less than all of it, but for a boost. One that has made only
  // its first store leaves the ticks of the old level beside level 0, and one
  // that is over may leave exactly the quantum of level 0 used up.
  lemma InsideQuantum(n: nat, actions: seq<Action>, t: State, p: nat)
    requires Run(Boot(n), actions, t) && p < |t.procs| && p < |t.stage|
    requires t.procs[p].state == RUNNING && t.stage[p].Outside?
    ensures t.procs[p].level < MLFQ_LEVELS && !t.procs[p].expired
    ensures var ticks, level := t.procs[p].currentTicks, t.procs[p].level;
      || ticks < Quantum(level)
      || (level == 0 && Stores(t.boost, p) == 0 && ticks == Quantum(0))
      || (level == 0 && Stores(t.boost, p) == 1 && ticks < Quantum(MLFQ_LEVELS - 1))
  {
    BootInv(n);
    RunKeepsInv(Boot(n), actions, t);
    assert ProcOk(t.procs[p], t.stage[p], Stores(t.boost, p), t.log, p, t.charged[p]);
  }

  // Process p has used up its quantum, and nothing says so.
  predicate UsedUp(s: State, p: nat) {
    && Shape(s) && p < |s.procs| && s.procs[p].state == RUNNING && !s.procs[p].expired
    && s.procs[p].level < MLFQ_LEVELS && s.procs[p].currentTicks >= Quantum(s.procs[p].level)
  }

  // It is at the test of usertrap or kerneltrap, which will let it go on.
  predicate Missed(s: State, p: nat) { UsedUp(s, p) && s.stage[p].Checked? }

  predicate RunsOn(s: State, p: nat) { UsedUp(s, p) && s.stage[p].Outside? }

  // The test misses a used-up quantum exactly when a boost comes between it
  // and clockintr: its last store erases the expiry, after both ticks of level
  // 0 have fallen between its second store and that one; or its first store
  // makes the quantum shorter than the ticks already counted.
  lemma MissedByBoost(n: nat, actions: seq<Action>, s: State, a: Action, p: nat)
    requires Run(Boot(n), actions, s) && Enabled(s, a) && p < |s.procs| && !Missed(s, p)
    ensures Missed(Apply(s, a), p) <==>
      && a == BoostStep && s.stage[p].Checked?
      && (|| (s.boost == Boosting(p, 2) && s.procs[p].expired && s.procs[p].currentTicks == 2)
          || (s.boost == Boosting(p, 0) && !s.procs[p].expired && s.procs[p].currentTicks >= 2))
  {
    BootInv(n);
    RunKeepsInv(Boot(n), actions, s);
    hide NeverMany, Demotions, Total;
    assert ProcOk(s.procs[p], s.stage[p], Stores(s.boost, p), s.log, p, s.charged[p]);
  }

  // A process starts to run on with its quantum used up exactly when the test
  // has missed that, or when the first store of a boost comes while it runs.
  lemma RunsOnByBoost(n: nat, actions: seq<Action>, s: State, a: Action, p: nat)
    requires Run(Boot(n), actions, s) && Enabled(s, a) && p < |s.procs| && !RunsOn(s, p)
    ensures RunsOn(Apply(s, a), p) <==>
      || (a == Test(p) && Missed(s, p))
      || (a == BoostStep && s.boost == Boosting(p, 0) && s.stage[p].Outside?
          && s.procs[p].state == RUNNING && s.procs[p].currentTicks >= 2)
  {
    BootInv(n);
    RunKeepsInv(Boot(n), actions, s);
    hide NeverMany, Demotions, Total;
    assert ProcOk(s.procs[p], s.stage[p], Stores(s.boost, p), s.log, p, s.charged[p]);
  }

  // The first way: the process takes both ticks of its quantum between the last
  // two stores of a boost, and the last store hides the expiry from the test.
  lemma OverrunIsReachable() returns (actions: seq<Action>, t: State)
    ensures Run(Boot(1), actions, t) && RunsOn(t, 0) && Stores(t.boost, 0) == 0
    ensures t.procs[0].level == 0 && t.procs[0].currentTicks == Quantum(0)
  {
    hide Run;
    actions, t := MidBoost();
    actions, t := OneTick(actions, t);
    actions, t := Extend(actions, t, Test(0));
    actions, t := OneTick(actions, t);
    actions, t := Extend(actions, t, Expire(0));
    actions, t := Extend(actions, t, BoostStep);
    actions, t := Extend(actions, t, Test(0));
  }

  // The second way: the third tick of a quantum of level 1, and then the first
  // store of a boost.
  lemma ShortenedIsReachable() returns (actions: seq<Action>, t: State)
    ensures Run(Boot(1), actions, t) && RunsOn(t, 0) && t.boost == Boosting(0, 1)
    ensures t.procs[0].level == 0 && t.procs[0].currentTicks == 3
  {
    hide Run;
    actions, t := AtLevelOne();
    actions, t := OneTick(actions, t);
    actions, t := Extend(actions, t, Test(0));
    actions, t := OneTick(actions, t);
    actions, t := Extend(actions, t, Test(0));
    actions, t := OneTick(actions, t);
    actions, t := Extend(actions, t, BoostBegin);
    actions, t := Extend(actions, t, BoostStep);
    actions, t := Extend(actions, t, Test(0));
  }

  // A process that has used up one quantum without a system call.
  lemma AtLevelOne() returns (actions: seq<Action>, t: State)
    ensures Run(Boot(1), actions, t) && Shape(t) && |t.procs| == 1 && t.boost == NoBoost
    ensures t.stage[0] == Outside && t.procs[0].state == RUNNING && !t.procs[0].expired
    ensures t.procs[0].level == 1 && t.procs[0].currentTicks == 0
  {
    hide Run;
    actions, t := FirstDispatch();
    actions, t := OneTick(actions, t);
    actions, t := Extend(actions, t, Test(0));
    actions, t := OneTick(actions, t);
    actions, t := Extend(actions, t, Expire(0));
    actions, t := Extend(actions, t, Test(0));
    actions, t := Extend(actions, t, Yield(0));
    actions, t := Extend(actions, t, Dispatch(0));
  }

  lemma Extend(actions: seq<Action>, s: State, a: Action) returns (actions': seq<Action>, t: State)
    requires Run(Boot(1), actions, s) && Enabled(s, a)
    ensures Run(Boot(1), actions', t) && t == Apply(s, a)
  {
    hide Run;
    RunAppend(Boot(1), actions, s, a);
    actions', t := actions + [a], Apply(s, a);
  }

  lemma FirstDispatch() returns (actions: seq<Action>, t: State)
    ensures Run(Boot(1), actions, t) && Shape(t) && |t.procs| == 1 && t.boost == NoBoost
    ensures t.stage[0] == Outside && t.procs[0].state == RUNNING && !t.procs[0].expired
    ensures t.procs[0].level == 0 && t.procs[0].currentTicks == 0 && t.procs[0].syscalls == t.procs[0].sliceStart
  {
    NoSteps(Boot(1));
    hide Run;
    actions, t := [], Boot(1);
    actions, t := Extend(actions, t, Create(0));
    actions, t := Extend(actions, t, Become(0, RUNNABLE));
    actions, t := Extend(actions, t, Dispatch(0));
  }

  // Up to the second store of a boost of a running process.
  lemma MidBoost() returns (actions: seq<Action>, t: State)
    ensures Run(Boot(1), actions, t) && Shape(t) && |t.procs| == 1 && t.boost == Boosting(0, 2)
    ensures t.stage[0] == Outside && t.procs[0].state == RUNNING
    ensures t.procs[0].level == 0 && t.procs[0].currentTicks == 0 && !t.procs[0].expired
  {
    hide Run;
    actions, t := FirstDispatch();
    actions, t := Extend(actions, t, BoostBegin);
    actions, t := Extend(actions, t, BoostStep);
    actions, t := Extend(actions, t, BoostStep);
  }

  lemma OneTick(actions: seq<Action>, s: State) returns (actions': seq<Action>, t: State)
    requires Run(Boot(1), actions, s) && Shape(s) && |s.procs| == 1 && s.stage[0] == Outside
    requires s.procs[0].state == RUNNING && s.procs[0].level < MLFQ_LEVELS
    ensures Run(Boot(1), actions', t) && Shape(t) && |t.procs| == 1 && t.boost == s.boost
    ensures t.stage[0] == if s.procs[0].currentTicks + 1 >= Quantum(s.procs[0].level) then Over else Checked
    ensures t.procs[0] == s.procs[0].(currentTicks := s.procs[0].currentTicks + 1, ticks := t.procs[0].ticks)
  {
    hide Run;
    actions', t := Extend(actions, s, Tick(0));
    actions', t := Extend(actions', t, Charge(0));
    actions', t := Extend(actions', t, Compare(0));
  }
}
