/** What sleep, wakeup, kkill and sleep locks do over whole runs: who leaves
    sleep and why, who takes a sleep lock and when, and one run that does it. */
module SleepRuns {
  import opened Blocks
  import opened SleepWakeup

  // The next step on CPU c is that of wakeup on q's channel, or of kkill on q.
  ghost predicate Reaches(s: State, c: nat, q: nat) {
    && c < |s.cpus| && q < |s.procs| && CodeAt(s, c).Some?
    && var pc := CodeAt(s, c).value;
       || pc == KillLocked(q)
       || (pc.ScanLocked? && pc.k == q && s.procs[q].chan == Some(pc.chan))
  }

  lemma WokenByOther(s: State, c: nat, a: Action, q: nat)
    requires Enabled(s, c, a) && q < |s.procs| && Some(q) != Subject(s.cpus[c])
    ensures |Apply(s, c, a).procs| == |s.procs|
    ensures Apply(s, c, a).procs[q] != s.procs[q] ==> a.Advance? && Reaches(s, c, q)
  {
    hide CanAdvance;
    if s.cpus[c].Running? && a.Advance? {
      var pc := s.procs[s.cpus[c].p].pc;
      assert CodeAt(s, c) == Some(pc);
      if pc.KillLocked? || pc.ScanLocked? {
        assert pc.k != q ==> Apply(s, c, a).procs[q] == s.procs[q];
      } else {
        assert Apply(s, c, a).procs[q] == s.procs[q];
      }
    }
  }

  // The process is on its way into sleep(chan, lk), or sleeps there.
  predicate Pending(pr: Proc, chan: nat, lk: nat) {
    || ((pr.pc.SleepEnter? || pr.pc.SleepUnlock?) && pr.pc.chan == chan && pr.pc.lk == lk)
    || Committed(pr, chan, lk)
  }

  // It goes on by itself until it sleeps, and then the scheduler and the code
  // of other processes leave it alone.
  lemma PendingStep(s: State, c: nat, a: Action, q: nat, chan: nat, lk: nat)
    requires Inv(s) && Enabled(s, c, a) && q < |s.procs| && Pending(s.procs[q], chan, lk)
    ensures |Apply(s, c, a).procs| == |s.procs|
    ensures Pending(Apply(s, c, a).procs[q], chan, lk) || (a.Advance? && Reaches(s, c, q))
  {
    hide Inv, Apply, Enabled;
    StepFrame(s, c, a);
    if Some(q) == Subject(s.cpus[c]) {
      PendingSubject(s, c, a, q, chan, lk);
    } else {
      WokenByOther(s, c, a, q);
    }
  }

  lemma PendingSubject(s: State, c: nat, a: Action, q: nat, chan: nat, lk: nat)
    requires Inv(s) && Enabled(s, c, a) && q < |s.procs| && Pending(s.procs[q], chan, lk)
    requires Some(q) == Subject(s.cpus[c])
    ensures |Apply(s, c, a).procs| == |s.procs| && Pending(Apply(s, c, a).procs[q], chan, lk)
  {
    hide CanAdvance, InRange;
    assert ProcPlaced(s, q) && CpuPlaced(s, c) && StateOk(s.procs[q]);
  }

  // A process leaves sleep(chan, lk) only after a wakeup(chan) or a kill has
  // reached it there.
  lemma {:induction false} SleepsUntilReached(trace: seq<State>, moves: seq<Move>, i: nat, j: nat, q: nat, chan: nat,
                                              lk: nat)
    requires Run(trace, moves) && Initial(trace[0]) && i <= j < |trace|
    requires q < |trace[i].procs| && Pending(trace[i].procs[q], chan, lk)
    ensures q < |trace[j].procs|
    ensures Pending(trace[j].procs[q], chan, lk) || exists k ::
      i <= k < j && Reaches(trace[k], moves[k].c, q) && Pending(trace[k].procs[q], chan, lk)
    decreases j
  {
    hide Initial, Apply, Enabled, Inv, Pending;
    if i < j {
      SleepsUntilReached(trace, moves, i, j - 1, q, chan, lk);
      StepFrame(trace[j - 1], moves[j - 1].c, moves[j - 1].a);
      if Pending(trace[j - 1].procs[q], chan, lk) {
        RunKeepsInv(trace, moves, j - 1);
        PendingStep(trace[j - 1], moves[j - 1].c, moves[j - 1].a, q, chan, lk);
      }
    }
  }

  // Whoever calls sleep(chan, lk) is not back in its section before that.
  lemma SleepCallWaits(trace: seq<State>, moves: seq<Move>, i: nat, j: nat, p: nat, chan: nat)
    requires Run(trace, moves) && Initial(trace[0]) && i < j < |trace| && moves[i].a == CallSleep(chan)
    requires moves[i].c < |trace[i].cpus| && trace[i].cpus[moves[i].c] == Running(p) && p < |trace[i].procs|
    requires p < |trace[j].procs| && trace[j].procs[p].pc == trace[i].procs[p].pc
    ensures exists k ::
      i < k < j && Reaches(trace[k], moves[k].c, p) && Pending(trace[k].procs[p], chan, trace[i].procs[p].pc.lk)
  {
    var lk := trace[i].procs[p].pc.lk;
    assert Pending(trace[i + 1].procs[p], chan, lk);
    SleepsUntilReached(trace, moves, i + 1, j, p, chan, lk);
  }

  // --- a whole call of wakeup ---

  // CPU c is in wakeup(chan) called from t under lk.
  ghost predicate InWakeup(s: State, c: nat, chan: nat, lk: nat, t: Pc) {
    c < |s.cpus| && CodeAt(s, c).Some? && Scanning(CodeAt(s, c).value, chan, lk) && CodeAt(s, c).value.then_ == t
  }

  ghost predicate NobodyWaits(s: State, chan: nat, lk: nat) {
    forall q :: 0 <= q < |s.procs| ==> !Committed(s.procs[q], chan, lk)
  }

  // A step of wakeup leads on in it, or, past the last process, back to t.
  lemma WakeupAdvances(s: State, a: Action, c: nat, chan: nat, lk: nat, t: Pc)
    requires Inv(s) && Enabled(s, c, a) && InWakeup(s, c, chan, lk, t)
    ensures SameShape(s, Apply(s, c, a))
    ensures InWakeup(Apply(s, c, a), c, chan, lk, t) || (
      && CodeAt(s, c) == Some(Scan(chan, lk, |s.procs|, t)) && CodeAt(Apply(s, c, a), c) == Some(t)
      && (s.cpus[c].Running? ==> Apply(s, c, a).cpus[c] == s.cpus[c])
      && forall q :: 0 <= q < |s.procs| && s.cpus[c] != Running(q) ==> Apply(s, c, a).procs[q] == s.procs[q])
  {
    hide CanAdvance;
    assert CpuPlaced(s, c);
    if s.cpus[c].Running? {
      assert ProcPlaced(s, s.cpus[c].p);
    }
  }

  lemma WakeupStep(s: State, d: nat, a: Action, c: nat, chan: nat, lk: nat, t: Pc)
    requires Inv(s) && Enabled(s, d, a) && InWakeup(s, c, chan, lk, t) && t.Inside?
    ensures var s' := Apply(s, d, a);
      && c < |s'.cpus|
      && (InWakeup(s', c, chan, lk, t) || (CodeAt(s', c) == Some(t) && NobodyWaits(s', chan, lk)))
  {
    hide Apply, Enabled, Inv;
    if d != c {
      assert Placed(s) && StatesOk(s) && ProcLocksOk(s) by { UnfoldInv(s); }
      ElsewhereSame(s, d, a, c);
    } else {
      WakeupAdvances(s, a, c, chan, lk, t);
      if !InWakeup(Apply(s, c, a), c, chan, lk, t) {
        BackFromWakeup(s, Apply(s, c, a), c, chan, lk, t);
      }
    }
  }

  lemma UnfoldInv(s: State)
    requires Inv(s)
    ensures Placed(s) && StatesOk(s) && ProcLocksOk(s) && ScansClean(s)
  {
  }

  lemma BackFromWakeup(s: State, s': State, c: nat, chan: nat, lk: nat, t: Pc)
    requires Inv(s) && SameShape(s, s') && c < |s.cpus| && CodeAt(s, c) == Some(Scan(chan, lk, |s.procs|, t))
    requires CodeAt(s', c) == Some(t) && t.Inside? && (s.cpus[c].Running? ==> s'.cpus[c] == s.cpus[c])
    requires forall q :: 0 <= q < |s.procs| && s.cpus[c] != Running(q) ==> s'.procs[q] == s.procs[q]
    ensures NobodyWaits(s', chan, lk)
  {
    hide Placed, StatesOk, ProcLocksOk, CondLocksOk, Owned, NothingLost;
    forall q | 0 <= q < |s'.procs| ensures !Committed(s'.procs[q], chan, lk) {
      assert CleanBehind(s, c, q);
    }
  }

  // wakeup(chan) called at step i under lk, by a process or a handler: when its
  // CPU is back where it was called, nobody waits in sleep(chan, lk).
  lemma {:induction false} WakeupCallWakes(trace: seq<State>, moves: seq<Move>, i: nat, j: nat, chan: nat, t: Pc)
    requires Run(trace, moves) && Initial(trace[0]) && i < j < |trace| && moves[i].a == CallWakeup(chan)
    requires moves[i].c < |trace[i].cpus| && CodeAt(trace[i], moves[i].c) == Some(t)
    requires forall k :: i < k < j ==> moves[i].c < |trace[k].cpus| && CodeAt(trace[k], moves[i].c) != Some(t)
    ensures t.Inside? && moves[i].c < |trace[j].cpus|
    ensures if CodeAt(trace[j], moves[i].c) == Some(t) then NobodyWaits(trace[j], chan, t.lk)
            else InWakeup(trace[j], moves[i].c, chan, t.lk, t)
    decreases j
  {
    var c := moves[i].c;
    if j == i + 1 {
      WakeupBegins(trace[i], c, chan, t);
    } else {
      hide Initial, Apply, Enabled, Inv, NobodyWaits;
      WakeupCallWakes(trace, moves, i, j - 1, chan, t);
      RunKeepsInv(trace, moves, j - 1);
      WakeupStep(trace[j - 1], moves[j - 1].c, moves[j - 1].a, c, chan, t.lk, t);
    }
  }

  lemma WakeupBegins(s: State, c: nat, chan: nat, t: Pc)
    requires Enabled(s, c, CallWakeup(chan)) && CodeAt(s, c) == Some(t)
    ensures t.Inside? && InWakeup(Apply(s, c, CallWakeup(chan)), c, chan, t.lk, t)
  {
  }

  // --- no step is idle ---

  // A program point is not the one it returns to.
  lemma OuterDiffers(pc: Pc)
    ensures pc.Inside? || pc.YieldRelease? ==> pc.ret != pc
    ensures pc.Scan? || pc.Reacquiring? ==> pc.then_ != pc
    ensures YieldEnter(pc) != pc && forall lk :: Entering(lk, pc) != pc
  {
    if pc.Inside? || pc.YieldRelease? {
      assert pc.ret < pc;
    }
    if pc.Scan? || pc.Reacquiring? {
      assert pc.then_ < pc;
    }
    assert pc < YieldEnter(pc);
    forall lk ensures Entering(lk, pc) != pc {
      assert pc < Entering(lk, pc);
    }
  }

  lemma EveryStepMoves(s: State, c: nat, a: Action)
    requires Enabled(s, c, a)
    ensures Apply(s, c, a) != s
  {
    hide CanAdvance;
    var t := Apply(s, c, a);
    if s.cpus[c].Running? {
      var p := s.cpus[c].p;
      OuterDiffers(s.procs[p].pc);
      assert t.procs[p].pc != s.procs[p].pc;
    } else {
      assert t.cpus[c] != s.cpus[c];
    }
  }

  // Both do wake it.
  lemma ReachedIsAwake(s: State, c: nat, a: Action, q: nat)
    requires Inv(s) && Enabled(s, c, a) && a.Advance? && Reaches(s, c, q)
    ensures |Apply(s, c, a).procs| == |s.procs| && Apply(s, c, a).procs[q].state != SLEEPING
  {
    hide CanAdvance, InRange;
    assert CpuPlaced(s, c) && StateOk(s.procs[q]);
  }

  // acquiresleep takes a lock that nobody holds, and then its process does.
  lemma TakesFreeLock(trace: seq<State>, moves: seq<Move>, i: nat, c: nat, p: nat, l: nat)
    requires Run(trace, moves) && Initial(trace[0]) && i < |moves| && moves[i] == Move(c, Advance)
    requires c < |trace[i].cpus| && trace[i].cpus[c] == Running(p) && p < |trace[i].procs|
    requires trace[i].procs[p].pc == Taking(l)
    ensures forall q :: 0 <= q < |trace[i].procs| ==> l !in trace[i].procs[q].holds
    ensures p < |trace[i + 1].procs| && trace[i + 1].procs[p].holds == trace[i].procs[p].holds + {l}
    ensures l < |trace[i + 1].locks| && trace[i + 1].locks[l].locked && trace[i + 1].locks[l].pid == Some(p)
  {
    RunKeepsInv(trace, moves, i);
    assert ProcPlaced(trace[i], p) && Knows(trace[i], trace[i].procs[p]);
  }

  // --- a run in which a process sleeps for a lock and gets it from its holder ---

  lemma Then(t: seq<State>, m: seq<Move>, c: nat, a: Action, s: State) returns (t': seq<State>, m': seq<Move>)
    requires Run(t, m) && Enabled(t[|t| - 1], c, a) && Apply(t[|t| - 1], c, a) == s
    ensures Run(t', m') && t <= t' && t'[|t'| - 1] == s
  {
    t', m' := t + [s], m + [Move(c, a)];
  }

  const NEW: Proc := Proc(RUNNABLE, None, Yielded(Idle), None, {})

  function On(c: nat, pc: Pc, holds: set<nat>): Proc { Proc(RUNNING, None, pc, Some(c), holds) }

  function Waiting(st: RunState, pc: Pc, cpu: Option<nat>): Proc { Proc(st, Some(0), pc, cpu, {}) }

  // Two processes and their locks, two CPUs and one sleep lock.
  function Two(p: Proc, q: Proc, x: Option<nat>, y: Option<nat>, c: Cpu, d: Cpu, l: SleepLock): State {
    State([p, q], [x, y], [c, d], [l])
  }

  lemma OneLock()
    ensures var none: set<nat> := {}; none + {0} == {0} && {0} - {0} == none
  {
  }

  lemma FirstRuns(t0: seq<State>, m0: seq<Move>) returns (t: seq<State>, m: seq<Move>)
    requires Run(t0, m0) && t0[|t0| - 1] ==
      Two(NEW, NEW, None, None, Looking, Looking, SleepLock(None, false, None))
    ensures Run(t, m) && t0 <= t && t[|t| - 1] ==
      Two(On(0, Idle, {}), NEW, None, None, Running(0), Looking, SleepLock(None, false, None))
  {
    hide Run;
    t, m := Then(t0, m0, 0, Pick(0),
      Two(NEW, NEW, Some(0), None, Picked(0), Looking, SleepLock(None, false, None)));
    t, m := Then(t, m, 0, Dispatch,
      Two(On(0, YieldRelease(Idle), {}), NEW, Some(0), None, Running(0), Looking, SleepLock(None, false, None)));
    t, m := Then(t, m, 0, Advance,
      Two(On(0, Idle, {}), NEW, None, None, Running(0), Looking, SleepLock(None, false, None)));
  }

  lemma SecondRuns(t0: seq<State>, m0: seq<Move>) returns (t: seq<State>, m: seq<Move>)
    requires Run(t0, m0) && t0[|t0| - 1] ==
      Two(On(0, Idle, {}), NEW, None, None, Running(0), Looking, SleepLock(None, false, None))
    ensures Run(t, m) && t0 <= t && t[|t| - 1] ==
      Two(On(0, Idle, {}), On(1, Idle, {}), None, None, Running(0), Running(1), SleepLock(None, false, None))
  {
    hide Run;
    t, m := Then(t0, m0, 1, Pick(1),
      Two(On(0, Idle, {}), NEW, None, Some(1), Running(0), Picked(1), SleepLock(None, false, None)));
    t, m := Then(t, m, 1, Dispatch,
      Two(On(0, Idle, {}), On(1, YieldRelease(Idle), {}), None, Some(1),
          Running(0), Running(1), SleepLock(None, false, None)));
    t, m := Then(t, m, 1, Advance,
      Two(On(0, Idle, {}), On(1, Idle, {}), None, None, Running(0), Running(1), SleepLock(None, false, None)));
  }

  lemma FirstFindsItFree(t0: seq<State>, m0: seq<Move>) returns (t: seq<State>, m: seq<Move>)
    requires Run(t0, m0) && t0[|t0| - 1] ==
      Two(On(0, Idle, {}), On(1, Idle, {}), None, None, Running(0), Running(1), SleepLock(None, false, None))
    ensures Run(t, m) && t0 <= t && t[|t| - 1] ==
      Two(On(0, Taking(0), {}), On(1, Idle, {}), None, None, Running(0), Running(1), SleepLock(Some(0), false, None))
  {
    hide Run;
    OneLock();
    t, m := Then(t0, m0, 0, Start(Acquiring(0)),
      Two(On(0, Acquiring(0), {}), On(1, Idle, {}), None, None, Running(0), Running(1), SleepLock(None, false, None)));
    t, m := Then(t, m, 0, Advance,
      Two(On(0, Testing(0), {}), On(1, Idle, {}), None, None, Running(0), Running(1), SleepLock(Some(0), false, None)));
    t, m := Then(t, m, 0, Advance,
      Two(On(0, Taking(0), {}), On(1, Idle, {}), None, None, Running(0), Running(1), SleepLock(Some(0), false, None)));
  }

  lemma FirstTakesIt(t0: seq<State>, m0: seq<Move>) returns (t: seq<State>, m: seq<Move>)
    requires Run(t0, m0) && t0[|t0| - 1] ==
      Two(On(0, Taking(0), {}), On(1, Idle, {}), None, None, Running(0), Running(1), SleepLock(Some(0), false, None))
    ensures Run(t, m) && t0 <= t && t[|t| - 1] ==
      Two(On(0, Idle, {0}), On(1, Idle, {}), None, None, Running(0), Running(1), SleepLock(None, true, Some(0)))
  {
    hide Run;
    OneLock();
    t, m := Then(t0, m0, 0, Advance,
      Two(On(0, Leaving(0), {0}), On(1, Idle, {}), None, None,
          Running(0), Running(1), SleepLock(Some(0), true, Some(0))));
    t, m := Then(t, m, 0, Advance,
      Two(On(0, Idle, {0}), On(1, Idle, {}), None, None, Running(0), Running(1), SleepLock(None, true, Some(0))));
  }

  lemma SecondFindsItTaken(t0: seq<State>, m0: seq<Move>) returns (t: seq<State>, m: seq<Move>)
    requires Run(t0, m0) && t0[|t0| - 1] ==
      Two(On(0, Idle, {0}), On(1, Idle, {}), None, None, Running(0), Running(1), SleepLock(None, true, Some(0)))
    ensures Run(t, m) && t0 <= t && t[|t| - 1] ==
      Two(On(0, Idle, {0}), On(1, SleepEnter(0, 0, Testing(0)), {}), None, None,
          Running(0), Running(1), SleepLock(Some(1), true, Some(0)))
  {
    hide Run;
    t, m := Then(t0, m0, 1, Start(Acquiring(0)),
      Two(On(0, Idle, {0}), On(1, Acquiring(0), {}), None, None,
          Running(0), Running(1), SleepLock(None, true, Some(0))));
    t, m := Then(t, m, 1, Advance,
      Two(On(0, Idle, {0}), On(1, Testing(0), {}), None, None,
          Running(0), Running(1), SleepLock(Some(1), true, Some(0))));
    t, m := Then(t, m, 1, Advance,
      Two(On(0, Idle, {0}), On(1, SleepEnter(0, 0, Testing(0)), {}), None, None,
          Running(0), Running(1), SleepLock(Some(1), true, Some(0))));
  }

  lemma SecondLetsGo(t0: seq<State>, m0: seq<Move>) returns (t: seq<State>, m: seq<Move>)
    requires Run(t0, m0) && t0[|t0| - 1] ==
      Two(On(0, Idle, {0}), On(1, SleepEnter(0, 0, Testing(0)), {}), None, None,
          Running(0), Running(1), SleepLock(Some(1), true, Some(0)))
    ensures Run(t, m) && t0 <= t && t[|t| - 1] ==
      Two(On(0, Idle, {0}), On(1, SleepChan(0, 0, Testing(0)), {}), None, Some(1),
          Running(0), Running(1), SleepLock(None, true, Some(0)))
  {
    hide Run;
    t, m := Then(t0, m0, 1, Advance,
      Two(On(0, Idle, {0}), On(1, SleepUnlock(0, 0, Testing(0)), {}), None, Some(1),
          Running(0), Running(1), SleepLock(Some(1), true, Some(0))));
    t, m := Then(t, m, 1, Advance,
      Two(On(0, Idle, {0}), On(1, SleepChan(0, 0, Testing(0)), {}), None, Some(1),
          Running(0), Running(1), SleepLock(None, true, Some(0))));
  }

  lemma SecondMarksItself(t0: seq<State>, m0: seq<Move>) returns (t: seq<State>, m: seq<Move>)
    requires Run(t0, m0) && t0[|t0| - 1] ==
      Two(On(0, Idle, {0}), On(1, SleepChan(0, 0, Testing(0)), {}), None, Some(1),
          Running(0), Running(1), SleepLock(None, true, Some(0)))
    ensures Run(t, m) && t0 <= t && t[|t| - 1] ==
      Two(On(0, Idle, {0}), Waiting(SLEEPING, SleepSwitch(0, 0, Testing(0)), Some(1)), None, Some(1),
          Running(0), Running(1), SleepLock(None, true, Some(0)))
  {
    hide Run;
    t, m := Then(t0, m0, 1, Advance,
      Two(On(0, Idle, {0}), Waiting(RUNNING, SleepMark(0, 0, Testing(0)), Some(1)), None, Some(1),
          Running(0), Running(1), SleepLock(None, true, Some(0))));
    t, m := Then(t, m, 1, Advance,
      Two(On(0, Idle, {0}), Waiting(SLEEPING, SleepSwitch(0, 0, Testing(0)), Some(1)), None, Some(1),
          Running(0), Running(1), SleepLock(None, true, Some(0))));
  }

  lemma SecondSwitches(t0: seq<State>, m0: seq<Move>) returns (t: seq<State>, m: seq<Move>)
    requires Run(t0, m0) && t0[|t0| - 1] ==
      Two(On(0, Idle, {0}), Waiting(SLEEPING, SleepSwitch(0, 0, Testing(0)), Some(1)), None, Some(1),
          Running(0), Running(1), SleepLock(None, true, Some(0)))
    ensures Run(t, m) && t0 <= t && t[|t| - 1] ==
      Two(On(0, Idle, {0}), Waiting(SLEEPING, Asleep(0, 0, Testing(0)), None), None, None,
          Running(0), Looking, SleepLock(None, true, Some(0)))
  {
    hide Run;
    t, m := Then(t0, m0, 1, Advance,
      Two(On(0, Idle, {0}), Waiting(SLEEPING, Asleep(0, 0, Testing(0)), None), None, Some(1),
          Running(0), Back(1), SleepLock(None, true, Some(0))));
    t, m := Then(t, m, 1, Return,
      Two(On(0, Idle, {0}), Waiting(SLEEPING, Asleep(0, 0, Testing(0)), None), None, None,
          Running(0), Looking, SleepLock(None, true, Some(0))));
  }

  lemma FirstClears(t0: seq<State>, m0: seq<Move>) returns (t: seq<State>, m: seq<Move>)
    requires Run(t0, m0) && t0[|t0| - 1] ==
      Two(On(0, Idle, {0}), Waiting(SLEEPING, Asleep(0, 0, Testing(0)), None), None, None,
          Running(0), Looking, SleepLock(None, true, Some(0)))
    ensures Run(t, m) && t0 <= t && t[|t| - 1] ==
      Two(On(0, Scan(0, 0, 0, Leaving(0)), {}), Waiting(SLEEPING, Asleep(0, 0, Testing(0)), None), None, None,
          Running(0), Looking, SleepLock(Some(0), false, None))
  {
    hide Run;
    OneLock();
    t, m := Then(t0, m0, 0, Start(Releasing(0)),
      Two(On(0, Releasing(0), {0}), Waiting(SLEEPING, Asleep(0, 0, Testing(0)), None), None, None,
          Running(0), Looking, SleepLock(None, true, Some(0))));
    t, m := Then(t, m, 0, Advance,
      Two(On(0, Clearing(0), {0}), Waiting(SLEEPING, Asleep(0, 0, Testing(0)), None), None, None,
          Running(0), Looking, SleepLock(Some(0), true, Some(0))));
    t, m := Then(t, m, 0, Advance,
      Two(On(0, Scan(0, 0, 0, Leaving(0)), {}), Waiting(SLEEPING, Asleep(0, 0, Testing(0)), None), None, None,
          Running(0), Looking, SleepLock(Some(0), false, None)));
  }

  lemma FirstFindsSecond(t0: seq<State>, m0: seq<Move>) returns (t: seq<State>, m: seq<Move>)
    requires Run(t0, m0) && t0[|t0| - 1] ==
      Two(On(0, Scan(0, 0, 0, Leaving(0)), {}), Waiting(SLEEPING, Asleep(0, 0, Testing(0)), None), None, None,
          Running(0), Looking, SleepLock(Some(0), false, None))
    ensures Run(t, m) && t0 <= t && t[|t| - 1] ==
      Two(On(0, ScanLocked(0, 0, 1, Leaving(0)), {}), Waiting(SLEEPING, Asleep(0, 0, Testing(0)), None), None, Some(0),
          Running(0), Looking, SleepLock(Some(0), false, None))
  {
    hide Run;
    t, m := Then(t0, m0, 0, Advance,
      Two(On(0, Scan(0, 0, 1, Leaving(0)), {}), Waiting(SLEEPING, Asleep(0, 0, Testing(0)), None), None, None,
          Running(0), Looking, SleepLock(Some(0), false, None)));
    t, m := Then(t, m, 0, Advance,
      Two(On(0, ScanLocked(0, 0, 1, Leaving(0)), {}), Waiting(SLEEPING, Asleep(0, 0, Testing(0)), None), None, Some(0),
          Running(0), Looking, SleepLock(Some(0), false, None)));
  }

  lemma FirstWakesSecond(t0: seq<State>, m0: seq<Move>) returns (t: seq<State>, m: seq<Move>)
    requires Run(t0, m0) && t0[|t0| - 1] ==
      Two(On(0, ScanLocked(0, 0, 1, Leaving(0)), {}), Waiting(SLEEPING, Asleep(0, 0, Testing(0)), None), None, Some(0),
          Running(0), Looking, SleepLock(Some(0), false, None))
    ensures Run(t, m) && t0 <= t && t[|t| - 1] ==
      Two(On(0, Scan(0, 0, 2, Leaving(0)), {}), Waiting(RUNNABLE, Asleep(0, 0, Testing(0)), None), None, None,
          Running(0), Looking, SleepLock(Some(0), false, None))
  {
    hide Run;
    t, m := Then(t0, m0, 0, Advance,
      Two(On(0, ScanDone(0, 0, 1, Leaving(0)), {}), Waiting(RUNNABLE, Asleep(0, 0, Testing(0)), None), None, Some(0),
          Running(0), Looking, SleepLock(Some(0), false, None)));
    t, m := Then(t, m, 0, Advance,
      Two(On(0, Scan(0, 0, 2, Leaving(0)), {}), Waiting(RUNNABLE, Asleep(0, 0, Testing(0)), None), None, None,
          Running(0), Looking, SleepLock(Some(0), false, None)));
  }

  lemma FirstLeaves(t0: seq<State>, m0: seq<Move>) returns (t: seq<State>, m: seq<Move>)
    requires Run(t0, m0) && t0[|t0| - 1] ==
      Two(On(0, Scan(0, 0, 2, Leaving(0)), {}), Waiting(RUNNABLE, Asleep(0, 0, Testing(0)), None), None, None,
          Running(0), Looking, SleepLock(Some(0), false, None))
    ensures Run(t, m) && t0 <= t && t[|t| - 1] ==
      Two(On(0, Idle, {}), Waiting(RUNNABLE, Asleep(0, 0, Testing(0)), None), None, None,
          Running(0), Looking, SleepLock(None, false, None))
  {
    hide Run;
    t, m := Then(t0, m0, 0, Advance,
      Two(On(0, Leaving(0), {}), Waiting(RUNNABLE, Asleep(0, 0, Testing(0)), None), None, None,
          Running(0), Looking, SleepLock(Some(0), false, None)));
    t, m := Then(t, m, 0, Advance,
      Two(On(0, Idle, {}), Waiting(RUNNABLE, Asleep(0, 0, Testing(0)), None), None, None,
          Running(0), Looking, SleepLock(None, false, None)));
  }

  lemma SecondIsPicked(t0: seq<State>, m0: seq<Move>) returns (t: seq<State>, m: seq<Move>)
    requires Run(t0, m0) && t0[|t0| - 1] ==
      Two(On(0, Idle, {}), Waiting(RUNNABLE, Asleep(0, 0, Testing(0)), None), None, None,
          Running(0), Looking, SleepLock(None, false, None))
    ensures Run(t, m) && t0 <= t && t[|t| - 1] ==
      Two(On(0, Idle, {}), Waiting(RUNNING, Resumed(0, 0, Testing(0)), Some(1)), None, Some(1),
          Running(0), Running(1), SleepLock(None, false, None))
  {
    hide Run;
    t, m := Then(t0, m0, 1, Pick(1),
      Two(On(0, Idle, {}), Waiting(RUNNABLE, Asleep(0, 0, Testing(0)), None), None, Some(1),
          Running(0), Picked(1), SleepLock(None, false, None)));
    t, m := Then(t, m, 1, Dispatch,
      Two(On(0, Idle, {}), Waiting(RUNNING, Resumed(0, 0, Testing(0)), Some(1)), None, Some(1),
          Running(0), Running(1), SleepLock(None, false, None)));
  }

  lemma SecondResumes(t0: seq<State>, m0: seq<Move>) returns (t: seq<State>, m: seq<Move>)
    requires Run(t0, m0) && t0[|t0| - 1] ==
      Two(On(0, Idle, {}), Waiting(RUNNING, Resumed(0, 0, Testing(0)), Some(1)), None, Some(1),
          Running(0), Running(1), SleepLock(None, false, None))
    ensures Run(t, m) && t0 <= t && t[|t| - 1] ==
      Two(On(0, Idle, {}), On(1, Reacquiring(0, 0, Testing(0)), {}), None, None,
          Running(0), Running(1), SleepLock(None, false, None))
  {
    hide Run;
    t, m := Then(t0, m0, 1, Advance,
      Two(On(0, Idle, {}), On(1, SleepRelease(0, 0, Testing(0)), {}), None, Some(1),
          Running(0), Running(1), SleepLock(None, false, None)));
    t, m := Then(t, m, 1, Advance,
      Two(On(0, Idle, {}), On(1, Reacquiring(0, 0, Testing(0)), {}), None, None,
          Running(0), Running(1), SleepLock(None, false, None)));
  }

  lemma SecondFindsItFree(t0: seq<State>, m0: seq<Move>) returns (t: seq<State>, m: seq<Move>)
    requires Run(t0, m0) && t0[|t0| - 1] ==
      Two(On(0, Idle, {}), On(1, Reacquiring(0, 0, Testing(0)), {}), None, None,
          Running(0), Running(1), SleepLock(None, false, None))
    ensures Run(t, m) && t0 <= t && t[|t| - 1] ==
      Two(On(0, Idle, {}), On(1, Taking(0), {}), None, None, Running(0), Running(1), SleepLock(Some(1), false, None))
  {
    hide Run;
    OneLock();
    t, m := Then(t0, m0, 1, Advance,
      Two(On(0, Idle, {}), On(1, Testing(0), {}), None, None, Running(0), Running(1), SleepLock(Some(1), false, None)));
    t, m := Then(t, m, 1, Advance,
      Two(On(0, Idle, {}), On(1, Taking(0), {}), None, None, Running(0), Running(1), SleepLock(Some(1), false, None)));
  }

  lemma SecondTakesIt(t0: seq<State>, m0: seq<Move>) returns (t: seq<State>, m: seq<Move>)
    requires Run(t0, m0) && t0[|t0| - 1] ==
      Two(On(0, Idle, {}), On(1, Taking(0), {}), None, None, Running(0), Running(1), SleepLock(Some(1), false, None))
    ensures Run(t, m) && t0 <= t && t[|t| - 1] ==
      Two(On(0, Idle, {}), On(1, Idle, {0}), None, None, Running(0), Running(1), SleepLock(None, true, Some(1)))
  {
    hide Run;
    OneLock();
    t, m := Then(t0, m0, 1, Advance,
      Two(On(0, Idle, {}), On(1, Leaving(0), {0}), None, None,
          Running(0), Running(1), SleepLock(Some(1), true, Some(1))));
    t, m := Then(t, m, 1, Advance,
      Two(On(0, Idle, {}), On(1, Idle, {0}), None, None, Running(0), Running(1), SleepLock(None, true, Some(1))));
  }

  lemma LockIsWaitedFor() returns (t: seq<State>, m: seq<Move>)
    ensures Run(t, m) && Initial(t[0]) && t[|t| - 1] ==
      Two(On(0, Idle, {0}), Waiting(SLEEPING, Asleep(0, 0, Testing(0)), None), None, None,
          Running(0), Looking, SleepLock(None, true, Some(0)))
  {
    var s := Two(NEW, NEW, None, None, Looking, Looking, SleepLock(None, false, None));
    assert Initial(s);
    t, m := [s], [];
    assert Run(t, m);
    hide Run, Initial, Two, On, Waiting;
    t, m := FirstRuns(t, m);
    t, m := SecondRuns(t, m);
    t, m := FirstFindsItFree(t, m);
    t, m := FirstTakesIt(t, m);
    t, m := SecondFindsItTaken(t, m);
    t, m := SecondLetsGo(t, m);
    t, m := SecondMarksItself(t, m);
    t, m := SecondSwitches(t, m);
  }

  lemma LockIsHandedOver() returns (t: seq<State>, m: seq<Move>, i: nat)
    ensures Run(t, m) && Initial(t[0]) && i < |t|
    // process 1 waits for the lock that process 0 holds,
    ensures |t[i].procs| == 2 && WaitsFor(t[i].procs[1], 0) && t[i].procs[0].holds == {0}
    // and in the end process 1 holds it
    ensures t[|t| - 1] ==
      Two(On(0, Idle, {}), On(1, Idle, {0}), None, None, Running(0), Running(1), SleepLock(None, true, Some(1)))
  {
    t, m := LockIsWaitedFor();
    i := |t| - 1;
    hide Run, Initial, Two, On, Waiting;
    t, m := FirstClears(t, m);
    t, m := FirstFindsSecond(t, m);
    t, m := FirstWakesSecond(t, m);
    t, m := FirstLeaves(t, m);
    t, m := SecondIsPicked(t, m);
    t, m := SecondResumes(t, m);
    t, m := SecondFindsItFree(t, m);
    t, m := SecondTakesIt(t, m);
  }
}
