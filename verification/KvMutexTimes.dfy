/** The lock times that clients write: each is what the writer's own clock showed when it last read it, so a lock that
    was taken or refreshed stands for its lifetime from then on. */
module KvMutexTimes {
  import opened KvMutex

  ghost predicate StepAt(h: Setting, life: nat, run: seq<State>, k: nat, a: Action) {
    k + 1 < |run| && StepBy(h.strays, life, run[k], a, run[k + 1])
  }

  /** A client that has read its clock for the time it is going to write. */
  predicate HasNow(c: Client) {
    c.Timed? || c.SawFree? || c.Resetting? || c.Stamped? || c.StrayStamped?
  }

  lemma LastStep(h: Setting, life: nat, run: seq<State>, k: nat) returns (a: Action)
    requires IsRun(h, life, run) && 0 < k < |run|
    ensures StepAt(h, life, run, k - 1, a)
  {
    assert Step(h.strays, life, run[k - 1], run[k]);
    a :| StepBy(h.strays, life, run[k - 1], a, run[k]);
  }

  /** Clients keep their number, and clocks never go back. */
  lemma {:induction false} ClocksRise(h: Setting, life: nat, run: seq<State>, j: nat, k: nat, i: nat)
    requires IsRun(h, life, run) && j <= k < |run|
    ensures |run[k].clients| == |run[j].clients| && 0 < ClockOf(run[j], i) <= ClockOf(run[k], i)
    decreases k
  {
    if k > 0 {
      var a := LastStep(h, life, run, k);
      if j < k {
        ClocksRise(h, life, run, j, k - 1, i);
      } else {
        ClocksRise(h, life, run, k - 1, k - 1, i);
      }
    }
  }

  /** The step in which the client reads its clock: before it locks, or between the Get and the Update of a refresh. */
  function ReadOf(c: Client, i: nat): Action {
    if c.Stamped? || c.StrayStamped? then Stamp(i) else ReadClock(i)
  }

  lemma NowStep(strays: bool, life: nat, s: State, a: Action, s': State, i: nat)
    requires StepBy(strays, life, s, a, s') && i < |s.clients| && HasNow(s'.clients[i])
    ensures if a == ReadOf(s'.clients[i], i) then s'.clients[i].now == ClockOf(s, i)
            else HasNow(s.clients[i]) && s.clients[i].now == s'.clients[i].now && ReadOf(s.clients[i], i) == ReadOf(s'.clients[i], i)
  {
  }

  /** The time a client is about to write is what its clock showed when it read it. */
  lemma {:induction false} NowWasRead(h: Setting, life: nat, run: seq<State>, k: nat, i: nat) returns (j: nat)
    requires IsRun(h, life, run) && k < |run| && i < |run[k].clients| && HasNow(run[k].clients[i])
    ensures j < k && StepAt(h, life, run, j, ReadOf(run[k].clients[i], i)) && run[k].clients[i].now == ClockOf(run[j], i)
    decreases k
  {
    var a := LastStep(h, life, run, k);
    NowStep(h.strays, life, run[k - 1], a, run[k], i);
    if a == ReadOf(run[k].clients[i], i) {
      j := k - 1;
    } else {
      j := NowWasRead(h, life, run, k - 1, i);
    }
  }

  /** A refreshing holder got the key before it read its clock, and saw a lock on it. */
  lemma {:induction false} RefreshGotKey(h: Setting, life: nat, run: seq<State>, k: nat, i: nat) returns (g: nat)
    requires IsRun(h, life, run) && k < |run| && i < |run[k].clients| && run[k].clients[i].Refreshing?
    ensures g < k && StepAt(h, life, run, g, RefreshGet(i)) && run[g].reg.Entry?
    ensures run[k].clients[i].value == run[g].reg.value && run[k].clients[i].seen == run[g].reg.rev
    decreases k
  {
    var a := LastStep(h, life, run, k);
    if a == RefreshGet(i) {
      g := k - 1;
    } else {
      g := RefreshGotKey(h, life, run, k - 1, i);
    }
  }

  /** A holder that has stamped its refresh got the key before that. */
  lemma {:induction false} StampFollowsGet(h: Setting, life: nat, run: seq<State>, k: nat, i: nat) returns (g: nat, j: nat)
    requires IsRun(h, life, run) && k < |run| && i < |run[k].clients| && run[k].clients[i].Stamped?
    ensures g < j < k && StepAt(h, life, run, g, RefreshGet(i)) && StepAt(h, life, run, j, Stamp(i))
    ensures run[g].reg.Entry? && run[g].reg.value != 0 && run[k].clients[i].seen == run[g].reg.rev
    ensures run[k].clients[i].now == ClockOf(run[j], i)
    decreases k
  {
    var a := LastStep(h, life, run, k);
    if a == Stamp(i) {
      j := k - 1;
      g := RefreshGotKey(h, life, run, j, i);
    } else {
      g, j := StampFollowsGet(h, life, run, k - 1, i);
    }
  }

  // ---------------------------------------------------------------- what is written

  /** A holder's refresh that succeeds writes what its clock showed between the Get and the Update: no earlier than the
      Get, which saw a lock. */
  lemma RefreshWritesClock(h: Setting, life: nat, run: seq<State>, k: nat, i: nat) returns (g: nat, j: nat)
    requires IsRun(h, life, run) && StepAt(h, life, run, k, RefreshUpdate(i))
    requires run[k].clients[i].Stamped? && Current(run[k], run[k].clients[i].seen)
    ensures g < j < k && StepAt(h, life, run, g, RefreshGet(i)) && StepAt(h, life, run, j, Stamp(i))
    ensures run[g].reg.Entry? && run[g].reg.value != 0 && run[g].reg.rev == run[k].reg.rev
    ensures run[k + 1].reg.Entry? && run[k + 1].reg.value == ClockOf(run[j], i)
    ensures 0 < ClockOf(run[g], i) <= run[k + 1].reg.value
    ensures run[k + 1].clients[i] == Holding(run[k + 1].reg.rev, run[k + 1].reg.value)
  {
    g, j := StampFollowsGet(h, life, run, k, i);
    ClocksRise(h, life, run, g, j, i);
  }

  /** Every lock time that is ever stored is what the writer's clock showed when it last read it, and is not 0. */
  lemma LockTimeIsRead(h: Setting, life: nat, run: seq<State>, k: nat, a: Action) returns (j: nat)
    requires IsRun(h, life, run) && StepAt(h, life, run, k, a) && run[k + 1].reg != run[k].reg && !a.UnlockUpdate?
    ensures run[k + 1].reg.Entry? && j < k && (StepAt(h, life, run, j, ReadClock(a.c)) || StepAt(h, life, run, j, Stamp(a.c)))
    ensures run[k + 1].reg.value == ClockOf(run[j], a.c) > 0
  {
    j := NowWasRead(h, life, run, k, a.c);
    ClocksRise(h, life, run, j, j, a.c);
  }

  /** An unlock that succeeds frees the lock. */
  lemma UnlockFrees(h: Setting, life: nat, run: seq<State>, k: nat, i: nat)
    requires IsRun(h, life, run) && StepAt(h, life, run, k, UnlockUpdate(i)) && run[k + 1].reg != run[k].reg
    ensures run[k + 1].reg.Entry? && run[k + 1].reg.value == 0 != run[k].clients[i].value
  {
  }

  /** What saw the lock free writes nothing: a refresh ends with an error there, and so does an unlock. */
  lemma FreeLockIsLeft(h: Setting, life: nat, run: seq<State>, k: nat, a: Action)
    requires IsRun(h, life, run) && StepAt(h, life, run, k, a) && (a.Stamp? || a.UnlockUpdate?) && run[k].clients[a.c].value == 0
    ensures run[k + 1] == At(run[k], a.c, Idle)
  {
  }

  /** Every Update names the revision that its client saw. */
  lemma UpdateNeedsRevision(h: Setting, life: nat, run: seq<State>, k: nat, a: Action)
    requires IsRun(h, life, run) && StepAt(h, life, run, k, a) && (a.LockUpdate? || a.RefreshUpdate? || a.UnlockUpdate?)
    requires run[k + 1].reg != run[k].reg
    ensures var c := run[k].clients[a.c]; run[k].reg.Entry? && run[k].reg.rev == if c.SawFree? then c.rev else c.seen
    ensures run[k + 1].reg.Entry? && run[k + 1].reg.rev == run[k].last + 1 == run[k + 1].last
  {
  }

  // ---------------------------------------------------------------- what others make of it

  /** A client that finds a lock whose lifetime has not passed on its clock writes nothing and does not go on to reset
      it: it gets the error if it asked for one, and else waits and starts over. */
  lemma LockStands(h: Setting, life: nat, run: seq<State>, m: nat, c: nat, errorOnLocked: bool)
    requires IsRun(h, life, run) && StepAt(h, life, run, m, LockGet(c, errorOnLocked)) && !run[m].clients[c].reset
    requires run[m].reg.Entry? && run[m].reg.value != 0 && run[m].clients[c].now <= run[m].reg.value + life
    ensures run[m + 1].reg == run[m].reg && run[m + 1].clients[c] == if errorOnLocked then Idle else Locking(false)
  {
  }

  /** So a lock just refreshed is not reset by any client whose clock is not past that reading by more than the lifetime,
      unless the client had decided to before. */
  lemma RefreshedLockStands(h: Setting, life: nat, run: seq<State>, k: nat, i: nat, m: nat, c: nat, errorOnLocked: bool)
    returns (j: nat)
    requires IsRun(h, life, run) && StepAt(h, life, run, k, RefreshUpdate(i))
    requires run[k].clients[i].Stamped? && Current(run[k], run[k].clients[i].seen)
    requires k < m && StepAt(h, life, run, m, LockGet(c, errorOnLocked)) && !run[m].clients[c].reset && run[m].reg == run[k + 1].reg
    ensures j < k && StepAt(h, life, run, j, Stamp(i))
    ensures run[m].clients[c].now <= ClockOf(run[j], i) + life ==>
      run[m + 1].reg == run[m].reg && run[m + 1].clients[c] == if errorOnLocked then Idle else Locking(false)
  {
    var g;
    g, j := RefreshWritesClock(h, life, run, k, i);
    if run[m].clients[c].now <= ClockOf(run[j], i) + life {
      LockStands(h, life, run, m, c, errorOnLocked);
    }
  }
}
