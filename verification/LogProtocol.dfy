/** begin_op / log_write / end_op (kernel/log.c) as a transition system over all
    processes: what every interleaving keeps. */
module LogProtocol {
  import opened Blocks

  // cap is LOGBLOCKS, maxOp is MAXOPBLOCKS.
  datatype Limits = Limits(cap: nat, maxOp: nat)

  // ops[p] is None outside an operation, otherwise the number of blocks that
  // p's current operation has newly added to the log.
  datatype State = State(blocks: seq<Word32>, outstanding: nat, committing: bool, ops: seq<Option<nat>>)

  datatype Step =
    | Begin(p: nat)                // begin_op admits p
    | Write(p: nat, b: Word32)     // log_write(b) by p
    | End(p: nat)                  // end_op by p, up to its first release
    | Committed                    // commit() is over and `committing` is cleared

  ghost predicate Admits(lim: Limits, s: State) {
    !s.committing && |s.blocks| + (s.outstanding + 1) * lim.maxOp <= lim.cap
  }

  ghost predicate Enabled(lim: Limits, s: State, t: Step) {
    match t
    case Begin(p) => p < |s.ops| && s.ops[p].None? && Admits(lim, s)
    case Write(p, b) =>
      && p < |s.ops| && s.ops[p].Some?
      && |s.blocks| < lim.cap && s.outstanding >= 1    // else log_write panics
      && (b !in s.blocks ==> s.ops[p].value < lim.maxOp)
    case End(p) => p < |s.ops| && s.ops[p].Some? && s.outstanding > 0 && !s.committing
    case Committed => s.committing
  }

  ghost function Apply(lim: Limits, s: State, t: Step): State
    requires Enabled(lim, s, t)
  {
    match t
    case Begin(p) => s.(outstanding := s.outstanding + 1, ops := s.ops[p := Some(0)])
    case Write(p, b) =>
      if b in s.blocks then s
      else s.(blocks := s.blocks + [b], ops := s.ops[p := Some(s.ops[p].value + 1)])
    case End(p) =>
      s.(outstanding := s.outstanding - 1, ops := s.ops[p := None], committing := s.outstanding == 1)
    case Committed => s.(blocks := [], committing := false)
  }

  // Blocks that running operations may still add.
  ghost function Slack(maxOp: nat, ops: seq<Option<nat>>): int {
    if ops == [] then 0
    else Slack(maxOp, ops[..|ops| - 1]) + (if ops[|ops| - 1].Some? then maxOp - ops[|ops| - 1].value else 0)
  }

  ghost function Running(ops: seq<Option<nat>>): nat {
    if ops == [] then 0
    else Running(ops[..|ops| - 1]) + (if ops[|ops| - 1].Some? then 1 else 0)
  }

  ghost function Charge(maxOp: nat, o: Option<nat>): int {
    if o.Some? then maxOp - o.value else 0
  }

  lemma {:induction false} UpdateOps(maxOp: nat, ops: seq<Option<nat>>, p: nat, o: Option<nat>)
    requires p < |ops|
    ensures Slack(maxOp, ops[p := o]) == Slack(maxOp, ops) - Charge(maxOp, ops[p]) + Charge(maxOp, o)
    ensures Running(ops[p := o]) == Running(ops) - (if ops[p].Some? then 1 else 0) + (if o.Some? then 1 else 0)
  {
    var k := |ops| - 1;
    if p < k {
      UpdateOps(maxOp, ops[..k], p, o);
      assert ops[p := o][..k] == ops[..k][p := o];
    } else {
      assert ops[p := o][..k] == ops[..k];
    }
  }

  lemma {:induction false} SlackBounds(maxOp: nat, ops: seq<Option<nat>>)
    requires forall p :: 0 <= p < |ops| && ops[p].Some? ==> ops[p].value <= maxOp
    ensures 0 <= Slack(maxOp, ops) <= Running(ops) * maxOp
    ensures forall p :: 0 <= p < |ops| ==> Charge(maxOp, ops[p]) <= Slack(maxOp, ops)
    ensures forall p :: 0 <= p < |ops| && ops[p].Some? ==> Running(ops) > 0
  {
    if ops != [] {
      var k := |ops| - 1;
      SlackBounds(maxOp, ops[..k]);
      assert forall p :: 0 <= p < k ==> ops[p] == ops[..k][p];
    }
  }

  ghost predicate Inv(lim: Limits, s: State) {
    && Running(s.ops) == s.outstanding
    && (forall p :: 0 <= p < |s.ops| && s.ops[p].Some? ==> s.ops[p].value <= lim.maxOp)
    && |s.blocks| + Slack(lim.maxOp, s.ops) <= lim.cap
    && (forall i, j :: 0 <= i < j < |s.blocks| ==> s.blocks[i] != s.blocks[j])
    && (s.committing ==> s.outstanding == 0)
    // the last operation to end commits, so a log at rest is empty
    && (s.outstanding == 0 && !s.committing ==> s.blocks == [])
  }

  lemma StepKeepsInv(lim: Limits, s: State, t: Step)
    requires Inv(lim, s) && Enabled(lim, s, t)
    ensures Inv(lim, Apply(lim, s, t))
  {
    hide Slack, Running;
    SlackBounds(lim.maxOp, s.ops);
    match t {
      case Begin(p) =>
        UpdateOps(lim.maxOp, s.ops, p, Some(0));
        OneMore(s.outstanding, lim.maxOp);
      case Write(p, b) =>
        UpdateOps(lim.maxOp, s.ops, p, Some(s.ops[p].value + 1));
      case End(p) =>
        UpdateOps(lim.maxOp, s.ops, p, None);
      case Committed =>
    }
  }

  lemma OneMore(a: nat, b: nat)
    ensures (a + 1) * b == a * b + b
  {
  }

  // Reservation: an operation within its budget always finds room, no panic
  // of end_op is reachable, and the log never overflows.
  lemma AppendFindsRoom(lim: Limits, s: State, p: nat, b: Word32)
    requires Inv(lim, s) && p < |s.ops| && s.ops[p].Some?
    ensures |s.blocks| <= lim.cap && s.outstanding >= 1 && !s.committing
    ensures s.ops[p].value < lim.maxOp ==> Enabled(lim, s, Write(p, b))
    ensures Enabled(lim, s, End(p))
  {
    SlackBounds(lim.maxOp, s.ops);
  }

  // Commit isolation: while a commit runs, nothing else can happen to the log.
  lemma CommitIsIsolated(lim: Limits, s: State, t: Step)
    requires Inv(lim, s) && s.committing && Enabled(lim, s, t)
    ensures t == Committed
  {
    SlackBounds(lim.maxOp, s.ops);
  }

  // A run is a start state and the steps taken.
  ghost predicate Run(lim: Limits, s: State, steps: seq<Step>, s': State)
    decreases |steps|
  {
    if steps == [] then s == s'
    else Enabled(lim, s, steps[0]) && Run(lim, Apply(lim, s, steps[0]), steps[1..], s')
  }

  lemma {:induction false} RunKeepsInv(lim: Limits, s: State, steps: seq<Step>, s': State)
    requires Inv(lim, s) && Run(lim, s, steps, s')
    ensures Inv(lim, s') && |s'.blocks| <= lim.cap
    decreases |steps|
  {
    if steps == [] {
      SlackBounds(lim.maxOp, s.ops);
    } else {
      StepKeepsInv(lim, s, steps[0]);
      RunKeepsInv(lim, Apply(lim, s, steps[0]), steps[1..], s');
    }
  }

  // The log is never left with blocks that nobody is going to commit: in every
  // run from the empty log, blocks are logged only while an operation runs or
  // a commit is under way, and exactly the last end_op starts that commit.
  lemma LoggedIsCommitted(lim: Limits, k: nat, steps: seq<Step>, s: State)
    requires Run(lim, Begun(k, 0), steps, s)
    ensures s.blocks != [] ==> s.outstanding > 0 || s.committing
    ensures forall p: nat :: Enabled(lim, s, End(p)) ==>
      (Apply(lim, s, End(p)).committing <==> forall q :: 0 <= q < |s.ops| && q != p ==> s.ops[q].None?)
  {
    NoneRunning(k);
    RunKeepsInv(lim, Begun(k, 0), steps, s);
    forall p: nat | Enabled(lim, s, End(p))
      ensures Apply(lim, s, End(p)).committing <==> forall q :: 0 <= q < |s.ops| && q != p ==> s.ops[q].None?
    {
      LastOne(lim, s, p);
    }
  }

  lemma LastOne(lim: Limits, s: State, p: nat)
    requires Inv(lim, s) && Enabled(lim, s, End(p))
    ensures Apply(lim, s, End(p)).committing <==> forall q :: 0 <= q < |s.ops| && q != p ==> s.ops[q].None?
  {
    UpdateOps(lim.maxOp, s.ops, p, None);
    var after := s.ops[p := None];
    RunningIs(after);
    if q :| 0 <= q < |s.ops| && q != p && !s.ops[q].None? {
      assert after[q] == s.ops[q];
    } else {
      assert forall q :: 0 <= q < |after| ==> after[q].None?;
    }
  }

  lemma {:induction false} RunningIs(ops: seq<Option<nat>>)
    ensures Running(ops) == 0 <==> forall q :: 0 <= q < |ops| ==> ops[q].None?
  {
    if ops != [] {
      RunningIs(ops[..|ops| - 1]);
      assert forall q :: 0 <= q < |ops| - 1 ==> ops[..|ops| - 1][q] == ops[q];
    }
  }

  lemma NoneRunning(k: nat)
    ensures forall lim :: Inv(lim, Begun(k, 0))
  {
    RunningIs(Begun(k, 0).ops);
    forall lim: Limits ensures Inv(lim, Begun(k, 0)) {
      SlackBounds(lim.maxOp, Begun(k, 0).ops);
    }
  }

  // The full-log test of log_write comes before its absorption search, so when
  // the log is exactly full a write of an already logged block panics: the
  // log_write of a running operation goes through iff there is a free slot.
  lemma AbsorbedWriteNeedsSlot(lim: Limits, s: State, p: nat, b: Word32)
    requires Inv(lim, s) && p < |s.ops| && s.ops[p].Some? && b in s.blocks
    ensures Enabled(lim, s, Write(p, b)) <==> |s.blocks| != lim.cap
  {
    SlackBounds(lim.maxOp, s.ops);
  }

  // --- such a state is reached: k operations that all use up their budget ---

  lemma {:induction false} RunSnoc(lim: Limits, s: State, steps: seq<Step>, s': State, t: Step)
    requires Run(lim, s, steps, s') && Enabled(lim, s', t)
    ensures Run(lim, s, steps + [t], Apply(lim, s', t))
    decreases |steps|
  {
    if steps == [] {
      assert [t][1..] == [] && Run(lim, Apply(lim, s, t), [], Apply(lim, s, t));
    } else {
      RunSnoc(lim, Apply(lim, s, steps[0]), steps[1..], s', t);
      assert (steps + [t])[1..] == steps[1..] + [t];
    }
  }

  // j of k operations have begun.
  ghost function Begun(k: nat, j: nat): State {
    State([], j, false, seq(k, q => if q < j then Some(0) else None))
  }

  // The first p operations have added m blocks each, the next one r.
  ghost function Filled(k: nat, m: nat, p: nat, r: nat): State
    requires p * m + r <= 0x1_0000_0000
  {
    State(seq(p * m + r, i => i), k, false, seq(k, q => Some(if q < p then m else if q == p then r else 0)))
  }

  lemma TimesMonotone(j: nat, k: nat, m: nat)
    requires j <= k
    ensures j * m <= k * m
  {
  }

  lemma BeginOne(k: nat, m: nat, j: nat)
    requires j < k
    ensures Enabled(Limits(k * m, m), Begun(k, j), Begin(j))
    ensures Apply(Limits(k * m, m), Begun(k, j), Begin(j)) == Begun(k, j + 1)
  {
    TimesMonotone(j + 1, k, m);
  }

  lemma {:induction false} BeginAll(k: nat, m: nat, j: nat) returns (steps: seq<Step>)
    requires j <= k
    ensures Run(Limits(k * m, m), Begun(k, 0), steps, Begun(k, j))
  {
    if j == 0 {
      steps := [];
    } else {
      hide Run, Begun, Apply, Enabled;
      steps := BeginAll(k, m, j - 1);
      BeginOne(k, m, j - 1);
      RunSnoc(Limits(k * m, m), Begun(k, 0), steps, Begun(k, j - 1), Begin(j - 1));
      steps := steps + [Begin(j - 1)];
    }
  }

  lemma FillOne(k: nat, m: nat, p: nat, r: nat)
    requires p < k && r < m && p * m + r + 1 <= k * m <= 0x1_0000_0000
    ensures Enabled(Limits(k * m, m), Filled(k, m, p, r), Write(p, p * m + r))
    ensures Apply(Limits(k * m, m), Filled(k, m, p, r), Write(p, p * m + r)) == Filled(k, m, p, r + 1)
  {
    var s := Filled(k, m, p, r);
    assert forall i :: 0 <= i < |s.blocks| ==> s.blocks[i] == i;
  }

  lemma {:induction false} FillAll(k: nat, m: nat, p: nat, r: nat) returns (steps: seq<Step>)
    requires p < k && r <= m && k * m <= 0x1_0000_0000
    ensures p * m + r <= k * m && Run(Limits(k * m, m), Begun(k, 0), steps, Filled(k, m, p, r))
    decreases p, r
  {
    hide Run;
    OneMore(p, m);
    TimesMonotone(p + 1, k, m);
    if r > 0 {
      steps := FillAll(k, m, p, r - 1);
      FillOne(k, m, p, r - 1);
      RunSnoc(Limits(k * m, m), Begun(k, 0), steps, Filled(k, m, p, r - 1), Write(p, p * m + r - 1));
      steps := steps + [Write(p, p * m + r - 1)];
    } else if p > 0 {
      steps := FillAll(k, m, p - 1, m);
      OneMore(p - 1, m);
      assert Filled(k, m, p - 1, m) == Filled(k, m, p, 0);
    } else {
      steps := BeginAll(k, m, k);
      assert Begun(k, k) == Filled(k, m, 0, 0);
    }
  }

  // With LOGBLOCKS a multiple of MAXOPBLOCKS, as in the kernel, operations
  // within their budgets fill the log, and rewriting a block then panics.
  lemma FullLogIsReachable(k: nat, m: nat) returns (steps: seq<Step>, full: State)
    requires k > 0 && m > 0 && k * m <= 0x1_0000_0000
    ensures Run(Limits(k * m, m), Begun(k, 0), steps, full) && |full.blocks| == k * m
    ensures |full.ops| == k && (forall p :: 0 <= p < k ==> full.ops[p] == Some(m))
    ensures forall p :: 0 <= p < k ==> !Enabled(Limits(k * m, m), full, Write(p, 0))
  {
    steps := FillAll(k, m, k - 1, m);
    full := Filled(k, m, k - 1, m);
    OneMore(k - 1, m);
  }
}
