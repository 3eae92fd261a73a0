/** The code of the multi-level feedback queue: mlfq_boost, scheduler and yield
    (kernel/proc.c) and the timer tick (kernel/trap.c). Each method is one
    uninterrupted piece of kernel code and is proved to be a run of the
    transition system in MlfqProtocol, which also has all interleavings. */
module Mlfq {
  import opened Blocks
  import opened Rings
  import opened P = MlfqProtocol

  const BOOST_INTERVAL: nat := 128

  // What the pieces of code do to one process, undisturbed.

  function Ticked(pr: Proc): Proc
    requires pr.level < MLFQ_LEVELS
  {
    pr.(currentTicks := pr.currentTicks + 1,
        ticks := pr.ticks[pr.level := pr.ticks[pr.level] + 1],
        expired := pr.expired || pr.currentTicks + 1 >= Quantum(pr.level))
  }

  function BoostOf(pr: Proc): Proc {
    if Present(pr) then pr.(level := 0, currentTicks := 0, expired := false) else pr
  }

  // The boosts of the first n processes.
  function Boosts(procs: seq<Proc>, n: nat): seq<Event>
    requires n <= |procs|
  {
    if n == 0 then [] else Boosts(procs, n - 1) + if Present(procs[n - 1]) then [Boosted(n - 1)] else []
  }

  predicate InSlice(pr: Proc) {
    pr.state == RUNNING ==> pr.level < MLFQ_LEVELS && !pr.expired && pr.currentTicks < Quantum(pr.level)
  }

  // None of the first n processes from start on is runnable at this level.
  ghost predicate NotBefore(procs: seq<Proc>, level: nat, start: nat, n: nat)
    requires |procs| > 0
  {
    forall j: nat :: j < n ==> !RunnableAt(procs, level, At(start, j, |procs|))
  }

  predicate RunnableAt(procs: seq<Proc>, level: nat, q: nat) {
    q < |procs| && procs[q].state == RUNNABLE && procs[q].level == level
  }

  // p is runnable, no runnable process has a lower level number, and p is the
  // first of its level in round-robin order.
  ghost predicate Picks(procs: seq<Proc>, heads: seq<nat>, p: nat)
    requires |procs| > 0 && |heads| == MLFQ_LEVELS
  {
    && p < |procs| && procs[p].state == RUNNABLE && procs[p].level < MLFQ_LEVELS
    && (forall q :: 0 <= q < |procs| && procs[q].state == RUNNABLE ==> procs[p].level <= procs[q].level)
    && FirstOfLevel(procs, heads[procs[p].level], p)
  }

  ghost predicate FirstOfLevel(procs: seq<Proc>, start: nat, p: nat)
    requires p < |procs|
  {
    exists i: nat :: i < |procs| && p == At(start, i, |procs|) && NotBefore(procs, procs[p].level, start, i)
  }

  class Scheduler {
    var procs: seq<Proc>
    var heads: seq<nat>            // mlfq_head
    var clock: nat                 // ticks
    ghost var stage: seq<Stage>
    ghost var boost: P.Boost
    ghost var log: seq<Event>
    ghost var charged: seq<nat>    // timer ticks each process has taken

    ghost function View(): P.State
      reads this
    {
      P.State(procs, stage, boost, log, charged)
    }

    ghost predicate Valid()
      reads this
    {
      && Inv(View()) && |procs| > 0 && boost == NoBoost
      && |heads| == MLFQ_LEVELS && (forall l :: 0 <= l < MLFQ_LEVELS ==> heads[l] < |procs|)
      && |stage| == |procs| && (forall q :: 0 <= q < |procs| ==> stage[q] == Outside && InSlice(procs[q]))
    }

    constructor (n: nat)
      requires n > 0
      ensures Valid() && View() == Boot(n) && heads == [0, 0, 0, 0]
    {
      procs, heads, clock := seq(n, _ => NewProc(UNUSED)), [0, 0, 0, 0], 0;
      stage, boost, log, charged := seq(n, _ => Outside), NoBoost, [], seq(n, _ => 0);
      new;
      BootInv(n);
    }

    // The body of mlfq_boost's loop.
    method BoostOne(p: nat, ghost s: P.State, ghost before: seq<Action>) returns (ghost acts: seq<Action>)
      requires p < |procs| && Shape(View()) && boost == Boosting(p, 0) && Run(s, before, View())
      modifies this`procs, this`boost, this`log
      ensures boost == Boosting(p + 1, 0) && Run(s, acts, View())
      ensures procs == old(procs)[p := BoostOf(old(procs)[p])]
      ensures log == old(log) + if Present(old(procs)[p]) then [Boosted(p)] else []
    {
      hide Run;
      RunAppend(s, before, View(), BoostStep);
      acts := before + [BoostStep];
      if procs[p].state != UNUSED && procs[p].state != ZOMBIE {
        procs := procs[p := procs[p].(level := 0)];
        boost, log := Boosting(p, 1), log + [Boosted(p)];
        assert stage[p := stage[p]] == stage;
        RunAppend(s, acts, View(), BoostStep);
        procs := procs[p := procs[p].(currentTicks := 0)];
        boost, acts := Boosting(p, 2), acts + [BoostStep];
        RunAppend(s, acts, View(), BoostStep);
        procs := procs[p := procs[p].(expired := false)];
        boost, acts := Boosting(p + 1, 0), acts + [BoostStep];
      } else {
        boost := Boosting(p + 1, 0);
        assert procs[p := procs[p]] == procs;
      }
    }

    // mlfq_boost
    method Boost() returns (ghost acts: seq<Action>)
      requires Shape(View()) && boost == NoBoost
      modifies this`procs, this`log, this`boost
      ensures boost == NoBoost && Run(old(View()), acts, View())
      ensures log == old(log) + Boosts(old(procs), |old(procs)|)
      ensures |procs| == |old(procs)| && forall q :: 0 <= q < |procs| ==> procs[q] == BoostOf(old(procs)[q])
      // every process is back at the first level with a whole quantum
      ensures forall q :: 0 <= q < |procs| && old(procs)[q].state != UNUSED && old(procs)[q].state != ZOMBIE ==>
        procs[q].level == 0 && procs[q].currentTicks == 0 && !procs[q].expired
    {
      hide Run;
      NoSteps(View());
      RunAppend(View(), [], View(), BoostBegin);
      boost, acts := Boosting(0, 0), [] + [BoostBegin];
      var p := 0;
      while p < |procs|
        invariant p <= |procs| == |old(procs)| && boost == Boosting(p, 0) && Shape(View())
        invariant Run(old(View()), acts, View()) && log == old(log) + Boosts(old(procs), p)
        invariant forall q :: 0 <= q < |procs| ==> procs[q] == if q < p then BoostOf(old(procs)[q]) else old(procs)[q]
      {
        acts := BoostOne(p, old(View()), acts);
        p := p + 1;
      }
      RunAppend(old(View()), acts, View(), BoostStep);
      boost, acts := NoBoost, acts + [BoostStep];
    }

    // yield, as far as scheduling goes
    method YieldCpu(p: nat)
      requires p < |procs| && Shape(View()) && stage[p] == Yielding && boost == NoBoost
      modifies this`procs, this`log, this`stage
      ensures Enabled(old(View()), Yield(p)) && View() == Apply(old(View()), Yield(p))
      ensures procs == old(procs)[p := YieldOf(old(procs)[p])] && stage == old(stage)[p := Outside]
      ensures log == if Demotes(old(procs)[p]) then old(log) + [Demoted(p)] else old(log)
    {
      var pr := procs[p];
      if pr.expired {
        if pr.syscalls - pr.sliceStart < pr.currentTicks {
          if pr.level < MLFQ_LEVELS - 1 {
            pr := pr.(level := pr.level + 1);
            log := log + [Demoted(p)];
          }
        }
        pr := pr.(currentTicks := 0, expired := false);
      }
      procs := procs[p := pr.(state := RUNNABLE)];
      stage := stage[p := Outside];
    }

    // The accounting of clockintr, undisturbed.
    method CountAndCheck(p: nat) returns (ghost acts: seq<Action>)
      requires Shape(View()) && p < |procs| && procs[p].state == RUNNING && stage[p] == Outside
      requires procs[p].level < MLFQ_LEVELS
      modifies this`procs, this`stage, this`charged
      ensures Shape(View()) && Run(old(View()), acts, View())
      ensures procs == old(procs)[p := Ticked(old(procs)[p])] && stage == old(stage)[p := Checked]
      ensures charged == old(charged)[p := old(charged)[p] + 1]
    {
      hide Run;
      NoSteps(View());
      ghost var s := View();
      var pr := procs[p];
      RunAppend(s, [], View(), Tick(p));
      procs := procs[p := pr.(currentTicks := pr.currentTicks + 1)];
      stage, charged, acts := stage[p := Counted], charged[p := charged[p] + 1], [] + [Tick(p)];
      pr := procs[p];
      RunAppend(s, acts, View(), Charge(p));
      procs := procs[p := pr.(ticks := pr.ticks[pr.level := pr.ticks[pr.level] + 1])];
      stage, acts := stage[p := Charged], acts + [Charge(p)];
      pr := procs[p];
      RunAppend(s, acts, View(), Compare(p));
      if pr.currentTicks >= Quantum(pr.level) {
        assert procs[p := pr] == procs;
        stage, acts := stage[p := Over], acts + [Compare(p)];
        RunAppend(s, acts, View(), Expire(p));
        procs := procs[p := pr.(expired := true)];
        stage, acts := stage[p := Checked], acts + [Expire(p)];
      } else {
        assert procs[p := pr] == procs;
        stage, acts := stage[p := Checked], acts + [Compare(p)];
      }
    }

    // The boost that clockintr on CPU 0 makes every BOOST_INTERVAL ticks.
    method CountTime(onCpu0: bool) returns (ghost acts: seq<Action>)
      requires Shape(View()) && boost == NoBoost
      modifies this`procs, this`log, this`boost, this`clock
      ensures boost == NoBoost && Run(old(View()), acts, View()) && clock == old(clock) + (if onCpu0 then 1 else 0)
      ensures var due := onCpu0 && clock % BOOST_INTERVAL == 0;
        && log == old(log) + (if due then Boosts(old(procs), |old(procs)|) else [])
        && |procs| == |old(procs)|
        && forall q :: 0 <= q < |procs| ==> procs[q] == if due then BoostOf(old(procs)[q]) else old(procs)[q]
    {
      NoSteps(View());
      acts := [];
      if onCpu0 {
        clock := clock + 1;
        if clock % BOOST_INTERVAL == 0 {
          acts := Boost();
        }
      }
    }

    // The test in usertrap or kerneltrap.
    method TestAndYield(p: nat) returns (yielded: bool, ghost acts: seq<Action>)
      requires Shape(View()) && p < |procs| && stage[p] == Checked && boost == NoBoost
      modifies this`procs, this`log, this`stage
      ensures Run(old(View()), acts, View()) && yielded == old(procs)[p].expired
      ensures procs == (if yielded then old(procs)[p := YieldOf(old(procs)[p])] else old(procs))
      ensures log == (if yielded && Demotes(old(procs)[p]) then old(log) + [Demoted(p)] else old(log))
      ensures stage == old(stage)[p := Outside]
    {
      hide Run;
      ghost var s := View();
      NoSteps(s);
      RunAppend(s, [], s, Test(p));
      acts := [] + [Test(p)];
      assert procs[p := procs[p]] == procs;
      yielded := procs[p].expired;
      if yielded {
        stage := stage[p := Yielding];
        RunAppend(s, acts, View(), Yield(p));
        YieldCpu(p);
        acts := acts + [Yield(p)];
      } else {
        stage := stage[p := Outside];
      }
    }

    // clockintr and the test after it, undisturbed
    method HandleTick(p: nat, onCpu0: bool) returns (yielded: bool, ghost acts: seq<Action>)
      requires Shape(View()) && boost == NoBoost && p < |procs| && procs[p].level < MLFQ_LEVELS
      requires procs[p].state == RUNNING && stage[p] == Outside
      modifies this`procs, this`log, this`clock, this`charged, this`stage, this`boost
      ensures Run(old(View()), acts, View()) && clock == old(clock) + (if onCpu0 then 1 else 0)
      ensures boost == NoBoost && stage == old(stage)[p := Outside] && charged == old(charged)[p := old(charged)[p] + 1]
      ensures var due, pr := onCpu0 && clock % BOOST_INTERVAL == 0, Ticked(old(procs)[p]);
        && |procs| == |old(procs)| && yielded == (!due && pr.expired)
        && procs[p] == (if due then BoostOf(pr) else if yielded then YieldOf(pr) else pr)
        && (forall q :: 0 <= q < |procs| && q != p ==>
              procs[q] == if due then BoostOf(old(procs)[q]) else old(procs)[q])
        && log == old(log) + (if due then Boosts(old(procs), |procs|)
                              else if yielded && Demotes(pr) then [Demoted(p)] else [])
    {
      hide Run, Boosts;
      ghost var s := View();
      acts := CountAndCheck(p);
      ghost var t, more := View(), acts;
      more := CountTime(onCpu0);
      BoostsSame(old(procs), t.procs, |procs|);
      RunCompose(s, acts, t, more, View());
      t, acts := View(), acts + more;
      yielded, more := TestAndYield(p);
      RunCompose(s, acts, t, more, View());
      acts := acts + more;
    }

    // A timer interrupt while p runs: the process is resumed only inside its
    // quantum, and it yields exactly at the end of it.
    method TimerTrap(p: nat, onCpu0: bool) returns (yielded: bool, ghost acts: seq<Action>)
      requires Valid() && p < |procs| && procs[p].state == RUNNING
      modifies this`procs, this`log, this`clock, this`charged, this`stage, this`boost
      ensures Valid() && Run(old(View()), acts, View())
      ensures |procs| == |old(procs)| && clock == old(clock) + (if onCpu0 then 1 else 0)
      ensures |old(charged)| == |procs| && charged == old(charged)[p := old(charged)[p] + 1]
      ensures var due := onCpu0 && clock % BOOST_INTERVAL == 0; var pr := old(procs)[p];
        && pr.level < MLFQ_LEVELS
        && yielded == (!due && pr.currentTicks + 1 == Quantum(pr.level))
        && procs[p] == (if due then BoostOf(Ticked(pr)) else if yielded then YieldOf(Ticked(pr)) else Ticked(pr))
        && (forall q :: 0 <= q < |procs| && q != p ==>
              procs[q] == if due then BoostOf(old(procs)[q]) else old(procs)[q])
        && (yielded || (procs[p].level < MLFQ_LEVELS && procs[p].currentTicks < Quantum(procs[p].level)))
        && log == old(log) + (if due then Boosts(old(procs), |procs|)
                              else if yielded && Demotes(Ticked(pr)) then [Demoted(p)] else [])
    {
      hide Run, ProcOk, Boosts;
      ghost var s := View();
      LevelsInRange(s, p);
      assert InSlice(procs[p]);
      yielded, acts := HandleTick(p, onCpu0);
      RunKeepsInv(s, acts, View());
      forall q | 0 <= q < |procs| ensures InSlice(procs[q]) {
        assert InSlice(s.procs[q]);
      }
    }

    // One round of scheduler, with nothing else changing meanwhile: a runnable
    // process of the lowest level number, the first from mlfq_head on.
    method Schedule() returns (r: Option<nat>)
      requires Valid()
      modifies this`procs, this`heads
      ensures Valid() && |procs| == |old(procs)|
      ensures r == None ==> procs == old(procs) && heads == old(heads)
      ensures r == None ==> forall q :: 0 <= q < |procs| ==> procs[q].state != RUNNABLE
      ensures r.Some? ==> r.value < |procs| && Picks(old(procs), old(heads), r.value)
      ensures r.Some? ==> Enabled(old(View()), Dispatch(r.value)) && View() == Apply(old(View()), Dispatch(r.value))
      ensures r.Some? ==> procs == old(procs)[r.value := DispatchOf(old(procs)[r.value])]
      ensures r.Some? ==> heads == old(heads)[old(procs)[r.value].level := r.value]
    {
      hide ProcOk;
      for level := 0 to MLFQ_LEVELS
        invariant procs == old(procs) && heads == old(heads)
        invariant forall q :: 0 <= q < |procs| && procs[q].state == RUNNABLE ==> procs[q].level >= level
      {
        var start := heads[level];
        for i := 0 to |procs|
          invariant procs == old(procs) && heads == old(heads)
          invariant NotBefore(procs, level, start, i)
        {
          var idx := (start + i) % |procs|;
          assert idx == At(start, i, |procs|);
          var p := procs[idx];
          if p.state == RUNNABLE && p.level == level {
            assert FirstOfLevel(procs, heads[level], idx);
            StepKeepsInv(View(), Dispatch(idx));
            assert stage[idx := Outside] == stage;
            procs := procs[idx := p.(state := RUNNING)];
            procs := procs[idx := procs[idx].(currentTicks := 0, expired := false, sliceStart := p.syscalls)];
            procs := procs[idx := procs[idx].(timesScheduled := p.timesScheduled + 1)];
            heads := heads[level := idx];
            return Some(idx);
          }
        }
        forall q | 0 <= q < |procs| && procs[q].state == RUNNABLE ensures procs[q].level != level {
          var k := AtCovers(start, q, |procs|);
        }
      }
      forall q | 0 <= q < |procs| ensures procs[q].state != RUNNABLE {
        LevelsInRange(View(), q);
      }
      return None;
    }

    // A system call is counted.
    method CountSyscall(p: nat)
      requires Valid() && p < |procs| && procs[p].state == RUNNING
      modifies this`procs
      ensures Valid() && Enabled(old(View()), Syscall(p)) && View() == Apply(old(View()), Syscall(p))
      ensures procs == old(procs)[p := old(procs)[p].(syscalls := old(procs)[p].syscalls + 1)]
    {
      hide ProcOk;
      StepKeepsInv(View(), Syscall(p));
      assert stage[p := Outside] == stage;
      procs := procs[p := procs[p].(syscalls := procs[p].syscalls + 1)];
    }

    // Every other change of state: fork, sleep, wakeup, kill, exit and
    // freeproc. None of them moves a process between levels.
    method SetState(p: nat, state: RunState)
      requires Valid() && p < |procs| && state != RUNNING
      requires Present(procs[p]) || (procs[p].state == ZOMBIE && state == UNUSED)
      modifies this`procs
      ensures Valid() && Enabled(old(View()), Become(p, state)) && View() == Apply(old(View()), Become(p, state))
      ensures procs == old(procs)[p := old(procs)[p].(state := state)]
    {
      hide ProcOk;
      StepKeepsInv(View(), Become(p, state));
      assert stage[p := Outside] == stage;
      procs := procs[p := procs[p].(state := state)];
    }

    // allocproc
    method Allocate(p: nat)
      requires Valid() && p < |procs| && procs[p].state == UNUSED
      modifies this`procs, this`log, this`charged
      ensures Valid() && Enabled(old(View()), Create(p)) && View() == Apply(old(View()), Create(p))
      ensures procs == old(procs)[p := NewProc(USED)] && log == old(log) + [Created(p)]
    {
      hide ProcOk;
      StepKeepsInv(View(), Create(p));
      assert stage[p := Outside] == stage;
      procs, log, charged := procs[p := NewProc(USED)], log + [Created(p)], charged[p := 0];
    }
  }

  lemma LevelsInRange(s: P.State, p: nat)
    requires Inv(s) && p < |s.procs|
    ensures s.procs[p].level < MLFQ_LEVELS
  {
    assert ProcOk(s.procs[p], s.stage[p], Stores(s.boost, p), s.log, p, s.charged[p]);
  }

  lemma {:induction false} BoostsSame(procs: seq<Proc>, procs': seq<Proc>, n: nat)
    requires n <= |procs| == |procs'| && forall q :: 0 <= q < n ==> procs'[q].state == procs[q].state
    ensures Boosts(procs', n) == Boosts(procs, n)
  {
    if n > 0 {
      BoostsSame(procs, procs', n - 1);
    }
  }
}
