/** Victim selection of evict_page (kernel/memsys.c): the clock over the frame
    table, with the owner's scheduling level as priority. */
module Clock {
  import opened Blocks
  import opened Rings
  import opened MlfqProtocol

  // `owner` is the level of the process that owns the page.
  datatype Frame = Frame(inUse: bool, owner: Option<nat>, refBit: bool)

  const NOBODYS: Frame := Frame(false, None, false)

  predicate Owned(f: Frame) { f.inUse && f.owner.Some? }

  // What passing the hand over a frame leaves.
  function Passed(f: Frame): Frame { if Owned(f) then f.(refBit := false) else f }

  // --- what is looked for ---

  // A candidate has its reference bit clear; if there is none, all owned
  // frames are candidates.
  ghost predicate Candidate(t: seq<Frame>, start: nat, i: nat, all: bool)
    requires start < |t|
  {
    AtBounds(start, i, |t|);
    Owned(t[At(start, i, |t|)]) && (all || !t[At(start, i, |t|)].refBit)
  }

  ghost function Level(t: seq<Frame>, start: nat, i: nat): nat
    requires start < |t|
  {
    AtBounds(start, i, |t|);
    var f := t[At(start, i, |t|)];
    if f.owner.Some? then f.owner.value else 0
  }

  // v is the first candidate of the highest level among the n frames from start on.
  ghost predicate Best(t: seq<Frame>, start: nat, n: nat, all: bool, v: nat)
    requires start < |t|
  {
    && v < n && Candidate(t, start, v, all)
    && (forall i: nat :: i < n && Candidate(t, start, i, all) ==> Level(t, start, i) <= Level(t, start, v))
    && (forall i: nat :: i < v && Candidate(t, start, i, all) ==> Level(t, start, i) < Level(t, start, v))
  }

  ghost predicate NoneOf(t: seq<Frame>, start: nat, n: nat, all: bool)
    requires start < |t|
  {
    forall i: nat :: i < n ==> !Candidate(t, start, i, all)
  }

  // The hand has passed the first m frames.
  ghost predicate Swept(t: seq<Frame>, t': seq<Frame>, start: nat, m: nat)
    requires start < |t|
  {
    |t'| == |t| && forall i: nat :: i < |t| ==>
      (AtBounds(start, i, |t|); t'[At(start, i, |t|)] ==
       if i < m then Passed(t[At(start, i, |t|)]) else t[At(start, i, |t|)])
  }

  lemma SweepStep(t: seq<Frame>, t': seq<Frame>, start: nat, m: nat)
    requires start < |t| && Swept(t, t', start, m) && m < |t|
    ensures At(start, m, |t|) < |t| && t'[At(start, m, |t|)] == t[At(start, m, |t|)]
    ensures Swept(t, t'[At(start, m, |t|) := Passed(t[At(start, m, |t|)])], start, m + 1)
  {
    AtBounds(start, m, |t|);
    var k := At(start, m, |t|);
    var t'' := t'[k := Passed(t[k])];
    forall i: nat | i < |t|
      ensures (AtBounds(start, i, |t|); t''[At(start, i, |t|)] ==
        if i < m + 1 then Passed(t[At(start, i, |t|)]) else t[At(start, i, |t|)])
    {
      AtBounds(start, i, |t|);
      if i < m {
        AtDiffers(start, i, m, |t|);
      } else if m < i {
        AtDiffers(start, m, i, |t|);
      }
    }
  }

  // --- the scan ---

  // After n frames of a revolution; `second` says that the first one found nothing.
  ghost predicate Scanned(t: seq<Frame>, start: nat, n: nat, second: bool, victim: Option<nat>, best: int, v: nat)
    requires start < |t|
  {
    && n <= |t| && (second ==> NoneOf(t, start, |t|, false))
    && if victim == None then best == -1 && NoneOf(t, start, n, second)
       else victim == Some(At(start, v, |t|)) && Best(t, start, n, second, v) && best == Level(t, start, v)
  }

  lemma ScanSkip(t: seq<Frame>, start: nat, n: nat, second: bool, victim: Option<nat>, best: int, v: nat)
    requires start < |t| && n < |t| && Scanned(t, start, n, second, victim, best, v)
    requires !Candidate(t, start, n, second) || (victim.Some? && Level(t, start, n) <= best)
    ensures Scanned(t, start, n + 1, second, victim, best, v)
  {
  }

  lemma ScanTake(t: seq<Frame>, start: nat, n: nat, second: bool, victim: Option<nat>, best: int, v: nat)
    requires start < |t| && n < |t| && Scanned(t, start, n, second, victim, best, v)
    requires Candidate(t, start, n, second) && Level(t, start, n) > best
    ensures Scanned(t, start, n + 1, second, Some(At(start, n, |t|)), Level(t, start, n), n)
  {
  }

  // Nothing beats the lowest level of the scheduler.
  lemma LastLevelIsBest(t: seq<Frame>, start: nat, n: nat, second: bool, v: nat)
    requires start < |t| && n <= |t| && Best(t, start, n, second, v) && Level(t, start, v) == MLFQ_LEVELS - 1
    requires LevelsOk(t)
    ensures Best(t, start, |t|, second, v)
  {
    forall i: nat | i < |t| && Candidate(t, start, i, second) ensures Level(t, start, i) <= Level(t, start, v) {
      AtBounds(start, i, |t|);
    }
  }

  predicate LevelsOk(t: seq<Frame>) {
    forall k :: 0 <= k < |t| && t[k].owner.Some? ==> t[k].owner.value < MLFQ_LEVELS
  }

  // The choice that evict_page is to make.
  ghost predicate Chosen(t: seq<Frame>, start: nat, v: nat)
    requires start < |t|
  {
    if NoneOf(t, start, |t|, false) then Best(t, start, |t|, true, v) else Best(t, start, |t|, false, v)
  }

  lemma SweptNone(t: seq<Frame>, start: nat)
    requires start < |t|
    ensures Swept(t, t, start, 0)
  {
  }

  lemma NoneYet(t: seq<Frame>, start: nat, all: bool)
    requires start < |t|
    ensures NoneOf(t, start, 0, all)
  {
  }

  // What the hand finds and leaves at the n-th frame of a revolution.
  lemma SweepSees(t: seq<Frame>, t': seq<Frame>, start: nat, n: nat, second: bool)
    requires start < |t| && n < |t| && Swept(t, t', start, if second then |t| else n)
    ensures |t'| == |t| && At(start, n, |t|) < |t|
    ensures var k := At(start, n, |t|);
      && Owned(t'[k]) == Owned(t[k]) && t'[k].owner == t[k].owner
      && (Owned(t'[k]) ==> (!t'[k].refBit <==> Candidate(t, start, n, second)))
      && (!Owned(t'[k]) ==> !Candidate(t, start, n, second))
      && Swept(t, t'[k := Passed(t'[k])], start, if second then |t| else n + 1)
      && (!t'[k].refBit ==> Swept(t, t', start, if second then |t| else n + 1))
  {
    AtBounds(start, n, |t|);
    var k := At(start, n, |t|);
    if second {
      assert t'[k := Passed(t'[k])] == t';
    } else {
      SweepStep(t, t', start, n);
      if !t'[k].refBit {
        assert t'[k := Passed(t[k])] == t';
      }
    }
  }

  lemma HandBack(start: nat, n: nat, size: nat)
    requires start < size && 0 < n <= size
    ensures At(start, n, size) == start <==> n == size
  {
    AtBounds(start, 0, size);
    if n < size {
      AtDiffers(start, 0, n, size);
    }
  }

  // Some frame is owned exactly if the whole revolution has a candidate.
  lemma OwnedIsCandidate(t: seq<Frame>, start: nat)
    requires start < |t|
    ensures NoneOf(t, start, |t|, true) <==> forall k :: 0 <= k < |t| ==> !Owned(t[k])
  {
    if NoneOf(t, start, |t|, true) {
      forall k | 0 <= k < |t| ensures !Owned(t[k]) {
        var i := AtCovers(start, k, |t|);
        assert !Candidate(t, start, i, true);
      }
    }
    if forall k :: 0 <= k < |t| ==> !Owned(t[k]) {
      forall i: nat | i < |t| ensures !Candidate(t, start, i, true) {
        AtBounds(start, i, |t|);
      }
    }
  }

  lemma ChosenIs(t: seq<Frame>, start: nat, second: bool, v: nat)
    requires start < |t|
    ensures Best(t, start, |t|, second, v) && (second ==> NoneOf(t, start, |t|, false)) ==>
      Chosen(t, start, v) && !NoneOf(t, start, |t|, true)
  {
    assert Best(t, start, |t|, second, v) ==> Candidate(t, start, v, true);
  }

  lemma SweptLevels(t: seq<Frame>, t': seq<Frame>, start: nat, m: nat)
    requires start < |t| && Swept(t, t', start, m) && LevelsOk(t)
    ensures |t'| == |t| && LevelsOk(t')
  {
    forall k | 0 <= k < |t'| && t'[k].owner.Some? ensures t'[k].owner.value < MLFQ_LEVELS {
      var i := AtCovers(start, k, |t|);
    }
  }

  // --- a start that is not the hand ---

  // evict_page reads the hand into start_index before it has frame_lock. If
  // another eviction moves the hand meanwhile, the scan begins at `hand` and
  // the test for its end looks for `start`, d frames further on.

  // The table after the hand has passed d frames.
  ghost function After(t: seq<Frame>, hand: nat, d: nat): (t': seq<Frame>)
    requires hand < |t|
    ensures |t'| == |t|
  {
    seq(|t|, k requires 0 <= k < |t| => if Dist(hand, k, |t|) < d then Passed(t[k]) else t[k])
  }

  lemma SweptIsAfter(t: seq<Frame>, t': seq<Frame>, hand: nat, d: nat)
    requires hand < |t| && Swept(t, t', hand, d)
    ensures t' == After(t, hand, d)
  {
    forall k | 0 <= k < |t| ensures t'[k] == After(t, hand, d)[k] {
      AtDist(hand, k, |t|);
      AtBounds(hand, Dist(hand, k, |t|), |t|);
    }
  }

  // What the frame d + j steps after the hand is to a scan that starts d steps
  // after it, when the d frames have been passed.
  lemma AfterSees(t: seq<Frame>, hand: nat, d: nat, j: nat)
    requires hand < |t| && d < |t| && j < |t|
    ensures At(hand, d, |t|) < |t|
    ensures var s, i, t1 := At(hand, d, |t|), Beyond(d, j, |t|), After(t, hand, d);
      && At(s, j, |t|) == At(hand, i, |t|) && Level(t1, s, j) == Level(t, hand, i)
      && (Candidate(t1, s, j, true) <==> Candidate(t, hand, i, true))
      && (Candidate(t1, s, j, false) <==> Candidate(t, hand, i, i < d))
  {
    AtBeyond(hand, d, j, |t|);
    AtBounds(hand, d, |t|);
    AtBounds(At(hand, d, |t|), j, |t|);
    DistAt(hand, Beyond(d, j, |t|), |t|);
  }

  // Frame `victim` is what evict_page takes.
  ghost predicate Taken(t: seq<Frame>, hand: nat, start: nat, victim: nat)
    requires hand < |t| && start < |t|
  {
    var d := Dist(hand, start, |t|);
    if NoneOf(t, hand, d, false)
    then exists v: nat :: Chosen(After(t, hand, d), start, v) && victim == At(start, v, |t|)
    else exists v: nat :: Best(t, hand, d, false, v) && victim == At(hand, v, |t|)
  }

  // What it would take undisturbed.
  ghost predicate BestOfAll(t: seq<Frame>, hand: nat, victim: nat)
    requires hand < |t|
  {
    exists v: nat :: Chosen(t, hand, v) && victim == At(hand, v, |t|)
  }

  // How many turns of the loop that takes, where v is the victim's place from
  // the hand or, after the first frames, from start.
  ghost function Turns(t: seq<Frame>, hand: nat, start: nat, v: nat): nat
    requires hand < |t| && start < |t|
  {
    var d := Dist(hand, start, |t|);
    if NoneOf(t, hand, d, false) then
      var t1 := After(t, hand, d);
      d + (if NoneOf(t1, start, |t|, false) then |t| else 0)
        + (if Level(t1, start, v) == MLFQ_LEVELS - 1 then v + 1 else |t|)
    else if Level(t, hand, v) == MLFQ_LEVELS - 1 then v + 1 else d
  }

  ghost predicate Top(t: seq<Frame>, hand: nat, i: nat, all: bool)
    requires hand < |t|
  {
    && Candidate(t, hand, i, all)
    && forall j: nat :: j < |t| && Candidate(t, hand, j, all) ==> Level(t, hand, j) <= Level(t, hand, i)
  }

  // Level at least that of every owned frame among the first d.
  ghost predicate AtLeastFirst(t: seq<Frame>, hand: nat, d: nat, i: nat)
    requires hand < |t|
  {
    forall j: nat :: j < d && Candidate(t, hand, j, true) ==> Level(t, hand, j) <= Level(t, hand, i)
  }

  // The d frames before start do no harm: they hold a clear frame of the
  // highest level of any clear frame; or no clear frame, and no owned one above
  // all clear ones; or, if no frame is clear at all, none that is owned or one
  // of the highest level of any owned frame.
  ghost predicate Harmless(t: seq<Frame>, hand: nat, d: nat)
    requires hand < |t|
  {
    if !NoneOf(t, hand, d, false) then exists i: nat :: i < d && Top(t, hand, i, false)
    else if !NoneOf(t, hand, |t|, false) then
      exists i: nat :: i < |t| && Candidate(t, hand, i, false) && AtLeastFirst(t, hand, d, i)
    else NoneOf(t, hand, d, true) || exists i: nat :: i < d && Top(t, hand, i, true)
  }

  lemma SamePlace(hand: nat, i: nat, j: nat, n: nat)
    requires hand < n && i < n && j < n && At(hand, i, n) == At(hand, j, n)
    ensures i == j
  {
    DistAt(hand, i, n);
    DistAt(hand, j, n);
  }

  lemma BestOfAllIs(t: seq<Frame>, hand: nat, i: nat)
    requires hand < |t| && i < |t|
    ensures BestOfAll(t, hand, At(hand, i, |t|)) <==> Chosen(t, hand, i)
  {
    if BestOfAll(t, hand, At(hand, i, |t|)) {
      var v: nat :| Chosen(t, hand, v) && At(hand, i, |t|) == At(hand, v, |t|);
      SamePlace(hand, i, v, |t|);
    }
  }

  // The first d frames hold a clear one.
  lemma HarmlessLead(t: seq<Frame>, hand: nat, d: nat, v: nat)
    requires hand < |t| && d < |t| && Best(t, hand, d, false, v)
    ensures Chosen(t, hand, v) <==> exists i: nat :: i < d && Top(t, hand, i, false)
  {
    assert Candidate(t, hand, v, false) && !NoneOf(t, hand, |t|, false);
    if Chosen(t, hand, v) {
      assert Top(t, hand, v, false);
    }
    if i: nat :| i < d && Top(t, hand, i, false) {
      assert Level(t, hand, i) <= Level(t, hand, v);
      assert Best(t, hand, |t|, false, v);
    }
  }

  // They do not, and some later frame is clear.
  lemma HarmlessClear(t: seq<Frame>, hand: nat, d: nat, v: nat)
    requires hand < |t| && d < |t| && NoneOf(t, hand, d, false) && !NoneOf(t, hand, |t|, false)
    requires At(hand, d, |t|) < |t| && Chosen(After(t, hand, d), At(hand, d, |t|), v)
    ensures v < |t|
    ensures Chosen(t, hand, Beyond(d, v, |t|)) <==>
      exists i: nat :: i < |t| && Candidate(t, hand, i, false) && AtLeastFirst(t, hand, d, i)
  {
    var n, s, t1 := |t|, At(hand, d, |t|), After(t, hand, d);
    var c: nat :| c < n && Candidate(t, hand, c, false);
    assert c >= d && Beyond(d, c - d, n) == c;
    AfterSees(t, hand, d, c - d);
    assert Candidate(t1, s, c - d, false);
    assert Best(t1, s, n, false, v);
    var w := Beyond(d, v, n);
    AfterSees(t, hand, d, v);
    if Chosen(t, hand, w) {
      assert Candidate(t, hand, w, false);
      forall j: nat | j < d && Candidate(t, hand, j, true) ensures Level(t, hand, j) <= Level(t, hand, w) {
        AfterSees(t, hand, d, n - d + j);
        assert Candidate(t1, s, n - d + j, false);
      }
      assert AtLeastFirst(t, hand, d, w);
    }
    if i: nat :| i < n && Candidate(t, hand, i, false) && AtLeastFirst(t, hand, d, i) {
      AfterSees(t, hand, d, i - d);
      assert Candidate(t1, s, i - d, false);
      ClearFirst(t, hand, d, v, i);
      forall j: nat | j < n && Candidate(t, hand, j, false)
        ensures Level(t, hand, j) <= Level(t, hand, w) && (j < w ==> Level(t, hand, j) < Level(t, hand, w))
      {
        AfterSees(t, hand, d, j - d);
        assert Candidate(t1, s, j - d, false);
      }
      assert Best(t, hand, n, false, w);
    }
  }

  // On equal levels the frames from start on come before the d passed ones.
  lemma ClearFirst(t: seq<Frame>, hand: nat, d: nat, v: nat, i: nat)
    requires hand < |t| && d < |t| && At(hand, d, |t|) < |t| && NoneOf(t, hand, d, false)
    requires Best(After(t, hand, d), At(hand, d, |t|), |t|, false, v)
    requires d <= i < |t| && Candidate(t, hand, i, false) && AtLeastFirst(t, hand, d, i)
    ensures v < |t| - d && Beyond(d, v, |t|) == d + v
  {
    var n, s, t1 := |t|, At(hand, d, |t|), After(t, hand, d);
    AfterSees(t, hand, d, i - d);
    assert Beyond(d, i - d, n) == i && Candidate(t1, s, i - d, false);
    AfterSees(t, hand, d, v);
  }

  // No frame is clear, and the first d hold an owned one.
  lemma HarmlessOwned(t: seq<Frame>, hand: nat, d: nat, v: nat)
    requires hand < |t| && d < |t| && NoneOf(t, hand, |t|, false) && !NoneOf(t, hand, d, true)
    requires At(hand, d, |t|) < |t| && Chosen(After(t, hand, d), At(hand, d, |t|), v)
    ensures v < |t|
    ensures Chosen(t, hand, Beyond(d, v, |t|)) <==> exists i: nat :: i < d && Top(t, hand, i, true)
  {
    var n, s, t1 := |t|, At(hand, d, |t|), After(t, hand, d);
    var c: nat :| c < d && Candidate(t, hand, c, true);
    AfterSees(t, hand, d, n - d + c);
    assert Candidate(t1, s, n - d + c, false);
    assert Best(t1, s, n, false, v);
    var w := Beyond(d, v, n);
    AfterSees(t, hand, d, v);
    assert w < d && v == n - d + w;
    if Chosen(t, hand, w) {
      assert Top(t, hand, w, true);
    }
    if i: nat :| i < d && Top(t, hand, i, true) {
      AfterSees(t, hand, d, n - d + i);
      assert Level(t, hand, i) <= Level(t, hand, w);
      forall j: nat | j < w && Candidate(t, hand, j, true) ensures Level(t, hand, j) < Level(t, hand, w) {
        AfterSees(t, hand, d, n - d + j);
        assert Candidate(t1, s, n - d + j, false);
      }
      assert Best(t, hand, n, true, w);
    }
  }

  // No frame is clear, and none of the first d is owned.
  lemma HarmlessEmpty(t: seq<Frame>, hand: nat, d: nat, v: nat)
    requires hand < |t| && d < |t| && NoneOf(t, hand, |t|, false) && NoneOf(t, hand, d, true)
    requires At(hand, d, |t|) < |t| && Chosen(After(t, hand, d), At(hand, d, |t|), v)
    ensures v < |t| && Chosen(t, hand, Beyond(d, v, |t|))
  {
    var n, s, t1 := |t|, At(hand, d, |t|), After(t, hand, d);
    forall j: nat | j < n ensures !Candidate(t1, s, j, false) {
      AfterSees(t, hand, d, j);
    }
    assert Best(t1, s, n, true, v);
    var w := Beyond(d, v, n);
    AfterSees(t, hand, d, v);
    assert w == d + v;
    forall j: nat | j < n && Candidate(t, hand, j, true)
      ensures Level(t, hand, j) <= Level(t, hand, w) && (j < w ==> Level(t, hand, j) < Level(t, hand, w))
    {
      AfterSees(t, hand, d, j - d);
      assert Candidate(t1, s, j - d, true);
    }
    assert Best(t, hand, n, true, w);
  }

  // A stale start changes the choice exactly if the frames before it do harm;
  // start == hand is the undisturbed case.
  lemma StaleStartIsHarmless(t: seq<Frame>, hand: nat, start: nat, victim: nat)
    requires hand < |t| && start < |t| && Taken(t, hand, start, victim)
    ensures BestOfAll(t, hand, victim) <==> Harmless(t, hand, Dist(hand, start, |t|))
    ensures start == hand ==> BestOfAll(t, hand, victim)
  {
    var d := Dist(hand, start, |t|);
    AtDist(hand, start, |t|);
    if !NoneOf(t, hand, d, false) {
      var v: nat :| Best(t, hand, d, false, v) && victim == At(hand, v, |t|);
      BestOfAllIs(t, hand, v);
      HarmlessLead(t, hand, d, v);
    } else {
      var v: nat :| Chosen(After(t, hand, d), start, v) && victim == At(start, v, |t|);
      assert v < |t|;
      AtBeyond(hand, d, v, |t|);
      BestOfAllIs(t, hand, Beyond(d, v, |t|));
      if !NoneOf(t, hand, |t|, false) {
        HarmlessClear(t, hand, d, v);
      } else if !NoneOf(t, hand, d, true) {
        HarmlessOwned(t, hand, d, v);
      } else {
        HarmlessEmpty(t, hand, d, v);
      }
    }
  }

  // --- the phases of the loop: up to start, then the revolutions from there ---

  lemma Begins(t: seq<Frame>, hand: nat, start: nat)
    requires hand < |t| && start < |t|
    ensures At(hand, 0, |t|) == hand && Swept(t, t, hand, 0) && Scanned(t, hand, 0, false, None, -1, 0)
    ensures Dist(hand, start, |t|) == 0 ==> start == hand && After(t, hand, 0) == t && NoneOf(t, hand, 0, false)
  {
    AtBounds(hand, 0, |t|);
    SweptNone(t, hand);
    SweptIsAfter(t, t, hand, 0);
  }

  lemma BackAtStart(hand: nat, start: nat, from: nat, n: nat, size: nat, lead: bool)
    requires hand < size && start < size && from == (if lead then hand else start) && 0 < n <= size
    requires lead ==> n <= Dist(hand, start, size)
    ensures At(from, n, size) == start <==> n == if lead then Dist(hand, start, size) else size
  {
    if lead {
      AtDist(hand, start, size);
      DistAt(hand, n, size);
    } else {
      HandBack(start, n, size);
    }
  }

  lemma LeadIsOver(t: seq<Frame>, t': seq<Frame>, hand: nat, start: nat, best: int, v: nat)
    requires hand < |t| && start < |t| && LevelsOk(t)
    requires Swept(t, t', hand, Dist(hand, start, |t|))
    requires Scanned(t, hand, Dist(hand, start, |t|), false, None, best, v)
    ensures t' == After(t, hand, Dist(hand, start, |t|)) && NoneOf(t, hand, Dist(hand, start, |t|), false)
    ensures LevelsOk(t') && At(start, 0, |t|) == start && Swept(t', t', start, 0) && best == -1
    ensures Scanned(t', start, 0, false, None, -1, v)
  {
    SweptIsAfter(t, t', hand, Dist(hand, start, |t|));
    SweptLevels(t, t', hand, Dist(hand, start, |t|));
    AtBounds(start, 0, |t|);
    SweptNone(t', start);
  }

  // A candidate among the first d frames is the best of them.
  lemma LeadEnds(t: seq<Frame>, hand: nat, start: nat, v: nat)
    requires hand < |t| && start < |t|
    requires
      || (Best(t, hand, |t|, false, v) && v < Dist(hand, start, |t|))
      || Best(t, hand, Dist(hand, start, |t|), false, v)
    ensures Best(t, hand, Dist(hand, start, |t|), false, v) && !NoneOf(t, hand, Dist(hand, start, |t|), false)
    ensures Taken(t, hand, start, At(hand, v, |t|)) && exists k :: 0 <= k < |t| && Owned(t[k])
  {
    assert Candidate(t, hand, v, false);
    AtBounds(hand, v, |t|);
  }

  lemma LaterEnds(t: seq<Frame>, hand: nat, start: nat, second: bool, v: nat)
    requires hand < |t| && start < |t| && NoneOf(t, hand, Dist(hand, start, |t|), false)
    requires var t1 := After(t, hand, Dist(hand, start, |t|));
      Best(t1, start, |t|, second, v) && (second ==> NoneOf(t1, start, |t|, false))
    ensures var t1 := After(t, hand, Dist(hand, start, |t|));
      Chosen(t1, start, v) && (second <==> NoneOf(t1, start, |t|, false)) && !NoneOf(t1, start, |t|, true)
    ensures Taken(t, hand, start, At(start, v, |t|)) && exists k :: 0 <= k < |t| && Owned(t[k])
  {
    var t1 := After(t, hand, Dist(hand, start, |t|));
    ChosenIs(t1, start, second, v);
    assert Candidate(t1, start, v, second) && Candidate(t1, start, v, true);
    AtBounds(start, v, |t|);
    assert Owned(t[At(start, v, |t|)]);
  }

  // Passing frames gives none an owner.
  lemma NobodyOwns(t: seq<Frame>, hand: nat, d: nat, start: nat)
    requires hand < |t| && start < |t| && NoneOf(After(t, hand, d), start, |t|, true)
    ensures forall k :: 0 <= k < |t| ==> !Owned(t[k])
  {
    OwnedIsCandidate(After(t, hand, d), start);
    assert forall k :: 0 <= k < |t| ==> Owned(After(t, hand, d)[k]) == Owned(t[k]);
  }

  class FrameTable {
    const table: array<Frame>
    var hand: nat

    ghost predicate Valid()
      reads this, table
    {
      hand < table.Length && LevelsOk(table[..])
    }

    constructor (n: nat)
      requires n > 0
      ensures Valid() && fresh(table) && table.Length == n && hand == 0
      ensures forall k :: 0 <= k < n ==> table[k] == NOBODYS
    {
      table := new Frame[n](_ => NOBODYS);
      hand := 0;
    }

    // One turn of the loop, up to the test that the hand is back.
    method Turn(ghost start: nat, victim0: Option<nat>, best0: int, ghost t: seq<Frame>, ghost n: nat,
                ghost second: bool, ghost v0: nat)
      returns (victim: Option<nat>, best: int, early: bool, ghost v: nat)
      requires start < |t| == table.Length && LevelsOk(t) && n < |t| && hand == At(start, n, |t|)
      requires best0 < MLFQ_LEVELS - 1
      requires Scanned(t, start, n, second, victim0, best0, v0) && Swept(t, table[..], start, if second then |t| else n)
      modifies table, this`hand
      ensures early ==> victim == Some(hand) && hand == At(start, v, |t|) && Best(t, start, |t|, second, v)
      ensures early ==> v == n && Level(t, start, v) == MLFQ_LEVELS - 1
      ensures early ==> Swept(t, table[..], start, if second then |t| else v)
      ensures !early ==>
        hand == At(start, n + 1, |t|) && best < MLFQ_LEVELS - 1 && Scanned(t, start, n + 1, second, victim, best, v)
      ensures !early ==> Swept(t, table[..], start, if second then |t| else n + 1)
    {
      hide At, Best, NoneOf, Swept;
      victim, best, v, early := victim0, best0, v0, false;
      AtBounds(start, n, |t|);
      AtNext(start, n, |t|);
      SweepSees(t, table[..], start, n, second);
      var entry := table[hand];
      assert entry == table[..][hand];
      if entry.inUse && entry.owner.Some? {
        var priority := entry.owner.value;
        if !entry.refBit {
          if best == -1 || priority > best {
            ScanTake(t, start, n, second, victim, best, v);
            victim, best, v := Some(hand), priority, n;
            if best == MLFQ_LEVELS - 1 {
              LastLevelIsBest(t, start, n + 1, second, v);
              early := true;
              return;
            }
          } else {
            ScanSkip(t, start, n, second, victim, best, v);
          }
        } else {
          ScanSkip(t, start, n, second, victim, best, v);
          table[hand] := entry.(refBit := false);
        }
      } else {
        ScanSkip(t, start, n, second, victim, best, v);
      }
      assert table[..] == old(table[..])[hand := Passed(entry)];
      hand := (hand + 1) % table.Length;
    }

    // evict_page's choice, in at most `turns` turns of its loop; `done` says
    // that the loop has ended, leaving `victim`, after `taken` turns. `start` is
    // what start_index was when it was read, and may be any index.
    method Choose(start: nat, turns: nat)
      returns (done: bool, victim: Option<nat>, taken: nat, ghost v: nat, ghost m: nat)
      requires Valid() && start < table.Length
      modifies table, this`hand
      ensures Valid() && (done ==> victim.Some? && Taken(old(table[..]), old(hand), start, victim.value))
      // the first frames, if one of them is clear, or the revolutions after them
      ensures var t, h, d := old(table[..]), old(hand), Dist(old(hand), start, table.Length);
        if done && !NoneOf(t, h, d, false) then
          && victim == Some(At(h, v, |t|)) && Best(t, h, d, false, v)
          && hand == (if Level(t, h, v) == MLFQ_LEVELS - 1 then victim.value else start)
          && Swept(t, table[..], h, m)
        else if done then
          var t1 := After(t, h, d);
          && victim == Some(At(start, v, |t|)) && Chosen(t1, start, v)
          && hand == (if Level(t1, start, v) == MLFQ_LEVELS - 1 then victim.value else start)
          && Swept(t1, table[..], start, m)
        else true
      ensures taken == if done then Turns(old(table[..]), old(hand), start, v) else turns
      // d turns and two revolutions are enough if any frame is owned; else the
      // loop never ends
      ensures (exists k :: 0 <= k < table.Length && Owned(old(table[k]))) ==>
        done || turns < Dist(old(hand), start, table.Length) + 2 * table.Length
      ensures (forall k :: 0 <= k < table.Length ==> !Owned(old(table[k]))) ==> !done
    {
      hide At, Best, NoneOf, Swept, Candidate, After, Taken, Chosen, Owned, Level, LevelsOk;
      ghost var t, h, d := table[..], hand, Dist(hand, start, table.Length);
      ghost var base, from: nat, n: nat, second, lead := t, h, 0, false, d > 0;
      var best: int;
      victim, best, done, taken, v, m := None, -1, false, 0, 0, 0;
      Begins(t, h, start);
      while taken < turns
        invariant start < |t| == table.Length == |base| && from < |t| && LevelsOk(base) && n < |t|
        invariant hand == At(from, n, |t|) && best < MLFQ_LEVELS - 1 && taken <= turns
        invariant Scanned(base, from, n, second, victim, best, v) && m == (if second then |t| else n)
        invariant Swept(base, table[..], from, m)
        invariant lead ==> base == t && from == h && !second && n < d && taken == n
        invariant !lead ==> base == After(t, h, d) && from == start && NoneOf(t, h, d, false)
        invariant !lead ==> if second then taken == d + |t| + n || NoneOf(base, from, |t|, true) else taken == d + n
      {
        var early;
        victim, best, early, v := Turn(from, victim, best, base, n, second, v);
        taken := taken + 1;
        if early {
          m := if second then |t| else v;
          done := true;
          break;
        }
        n := n + 1;
        m := if second then |t| else n;
        BackAtStart(h, start, from, n, |t|, lead);
        if hand == start && victim != None {
          done := true;
          break;
        }
        if lead && n == d {
          LeadIsOver(t, table[..], h, start, best, v);
          base, from, n, m, lead := table[..], start, 0, 0, false;
        } else if n == |t| {
          NoneYet(base, from, true);
          second, n := true, 0;
          AtBounds(from, 0, |t|);
        }
      }
      SweptLevels(base, table[..], from, m);
      AtBounds(from, n, |t|);
      AtBounds(from, v, |t|);
      if !done {
        if !lead && NoneOf(base, from, |t|, true) {
          NobodyOwns(t, h, d, start);
        }
      } else if lead {
        LeadEnds(t, h, start, v);
      } else {
        LaterEnds(t, h, start, second, v);
      }
    }
  }

  // --- what a stale start can do ---

  const RACE: seq<Frame> :=
    [Frame(true, Some(2), false), Frame(true, Some(3), false), Frame(true, Some(0), false), NOBODYS]

  lemma OneChoice(t: seq<Frame>, hand: nat, n: nat, all: bool, v: nat, w: nat)
    requires hand < |t| && Best(t, hand, n, all, v) && Best(t, hand, n, all, w)
    ensures v == w
  {
  }

  // The frame at a place, and what it is to the scan.
  lemma Place(t: seq<Frame>, hand: nat, i: nat, k: nat)
    requires hand < |t| && i < |t| && k < |t| && Dist(hand, k, |t|) == i
    ensures At(hand, i, |t|) == k && (t[k].owner.Some? ==> Level(t, hand, i) == t[k].owner.value)
    ensures forall all :: Candidate(t, hand, i, all) <==> Owned(t[k]) && (all || !t[k].refBit)
  {
    AtDist(hand, k, |t|);
  }

  // A worse victim: frame 2, of level 0, although frame 0, of level 2, is clear
  // too; the scan starts at 1 and ends at 0.
  lemma StaleStartTakesWorse(t: seq<Frame>)
    requires t == RACE[1 := NOBODYS]
    ensures Best(t, 1, 3, false, 1) && !NoneOf(t, 1, 3, false) && Level(t, 1, 1) == 0
    ensures At(1, 1, 4) == 2 && Taken(t, 1, 0, 2)
    ensures BestOfAll(t, 1, 0) && !BestOfAll(t, 1, 2) && !Harmless(t, 1, 3)
  {
    Place(t, 1, 0, 1);
    Place(t, 1, 1, 2);
    Place(t, 1, 2, 3);
    Place(t, 1, 3, 0);
    hide At, Candidate, Level, Harmless;
    assert Best(t, 1, 3, false, 1) && !NoneOf(t, 1, 3, false);
    assert !NoneOf(t, 1, 4, false) && Best(t, 1, 4, false, 3) && !Best(t, 1, 4, false, 1);
    assert Taken(t, 1, 0, 2) && Chosen(t, 1, 3) && !Chosen(t, 1, 1);
    BestOfAllIs(t, 1, 1);
    BestOfAllIs(t, 1, 3);
    StaleStartIsHarmless(t, 1, 0, 2);
  }

  // A longer scan: five turns for two frames, where two revolutions are four.
  lemma StaleStartTakesLonger(t: seq<Frame>)
    requires t == [NOBODYS, Frame(true, Some(0), true)]
    ensures NoneOf(t, 0, 1, false) && Chosen(After(t, 0, 1), 1, 0) && Taken(t, 0, 1, 1)
    ensures Turns(t, 0, 1, 0) == 5
  {
    assert After(t, 0, 1) == t;
    Place(t, 0, 0, 0);
    Place(t, 1, 0, 1);
    Place(t, 1, 1, 0);
    hide At, Candidate, Level, After;
    assert NoneOf(t, 0, 1, false) && NoneOf(t, 1, 2, false) && Best(t, 1, 2, true, 0);
  }

  // How the hand gets away from start: this CPU reads start_index, another one
  // evicts frame 1, of the last level, and stops there, and then this one scans.
  method RaceOnHand() returns (f: FrameTable, victim: Option<nat>)
    ensures fresh(f) && fresh(f.table) && f.Valid() && f.table.Length == 4 && victim == Some(2)
  {
    f := new FrameTable(4);
    f.table[0] := Frame(true, Some(2), false);
    f.table[1] := Frame(true, Some(3), false);
    f.table[2] := Frame(true, Some(0), false);
    assert f.table[..] == RACE;
    var start := f.hand;
    OtherEviction(f);
    victim := LateScan(f, start);
  }

  method LateScan(f: FrameTable, start: nat) returns (victim: Option<nat>)
    requires f.Valid() && f.hand == 1 && start == 0
    requires f.table[..] == RACE[1 := NOBODYS]
    modifies f`hand, f.table
    ensures f.Valid() && victim == Some(2)
  {
    ghost var t := f.table[..];
    StaleStartTakesWorse(t);
    assert Owned(f.table[..][0]) && f.table.Length == 4;
    hide At, Best, NoneOf, Swept, Candidate, After, Taken, Chosen, Owned, Level, BestOfAll, Harmless, Turns;
    var done, taken;
    ghost var v, m;
    done, victim, taken, v, m := f.Choose(start, 11);
    OneChoice(t, 1, 3, false, v, 1);
  }

  // One whole evict_page, up to the removal of the frame.
  method OtherEviction(f: FrameTable)
    requires f.Valid() && f.hand == 0
    requires f.table[..] == RACE
    modifies f`hand, f.table
    ensures f.Valid() && f.hand == 1
    ensures f.table[..] == RACE[1 := NOBODYS]
  {
    ghost var t := f.table[..];
    LastLevelFirst(t);
    assert Owned(f.table[..][0]) && f.table.Length == 4;
    var victim := FirstScan(f);
    f.table[victim] := NOBODYS;
    assert f.table[..] == t[1 := NOBODYS];
  }

  method FirstScan(f: FrameTable) returns (victim: nat)
    requires f.Valid() && f.hand == 0 && f.table.Length == 4 && Owned(f.table[0])
    requires forall k :: 0 <= k < 4 ==> !f.table[k].refBit
    requires Best(f.table[..], 0, 4, false, 1) && Level(f.table[..], 0, 1) == MLFQ_LEVELS - 1
    modifies f`hand, f.table
    ensures f.Valid() && victim == f.hand == 1 && f.table[..] == old(f.table[..])
  {
    ghost var t := f.table[..];
    Begins(t, 0, 0);
    Place(t, 0, 1, 1);
    assert Candidate(t, 0, 1, false) && !NoneOf(t, 0, 4, false);
    assert forall v: nat :: Chosen(t, 0, v) ==> Best(t, 0, 4, false, v);
    hide At, Best, NoneOf, Swept, Candidate, After, Taken, Chosen, Owned, Level, Turns;
    var done, found, taken;
    ghost var v, m;
    done, found, taken, v, m := f.Choose(0, 8);
    NothingCleared(t, f.table[..], 0, m);
    OneChoice(t, 0, 4, false, v, 1);
    victim := found.value;
  }

  lemma LastLevelFirst(t: seq<Frame>)
    requires t == RACE
    ensures Best(t, 0, 4, false, 1) && Level(t, 0, 1) == MLFQ_LEVELS - 1
  {
    Place(t, 0, 0, 0);
    Place(t, 0, 1, 1);
    Place(t, 0, 2, 2);
    Place(t, 0, 3, 3);
    hide At, Candidate, Level;
  }

  lemma NothingCleared(t: seq<Frame>, t': seq<Frame>, start: nat, m: nat)
    requires start < |t| && Swept(t, t', start, m) && forall k :: 0 <= k < |t| ==> !t[k].refBit
    ensures t' == t
  {
    SweptIsAfter(t, t', start, m);
  }
}
