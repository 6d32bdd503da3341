/** The lock kept in one key of the revisioned key/value store.  Clients run between their reading of the clock,
    their Get and their Put or Update; each of these is one step. */
module KvMutex {

  /** The lock key: 0 when free, else the time of the lock, with the revision of the last write. */
  datatype Register = Absent | Entry(value: int, rev: nat)

  /** Where a client stands.  A holder knows the revision of its last write and the time it wrote.  A client that
      does not hold the lock may still call the functions that refresh and unlock. */
  datatype Client =
    | Idle
    | Locking(reset: bool)
    | Timed(reset: bool, now: int)
    | SawFree(now: int, rev: nat)
    | Resetting(now: int)
    | Holding(rev: nat, since: int)
    | Refreshing(rev: nat, since: int, value: int, seen: nat)
    | Stamped(rev: nat, since: int, seen: nat, now: int)
    | Unlocking(rev: nat, since: int, value: int, seen: nat)
    | StrayRefreshing(value: int, seen: nat)
    | StrayStamped(seen: nat, now: int)
    | StrayUnlocking(value: int, seen: nat)
  {
    predicate Holder() {
      Holding? || Refreshing? || Stamped? || Unlocking?
    }
  }

  /** `last` is the highest revision given out; `clients` are indexed by their number.  Each client reads a clock of
      its own; `skews` are how far they are ahead of the slowest. */
  datatype State = State(reg: Register, last: nat, clock: int, skews: seq<nat>, clients: seq<Client>)

  function Init(keyExists: bool, skews: seq<nat>): State {
    State(if keyExists then Entry(0, 0) else Absent, 0, 1, skews, seq(|skews|, _ => Idle))
  }

  function ClockOf(s: State, c: nat): int {
    s.clock + if c < |s.skews| then s.skews[c] else 0
  }

  datatype Action =
    | Tick
    | Begin(c: nat)
    | ReadClock(c: nat)
    | LockGet(c: nat, errorOnLocked: bool)
    | LockUpdate(c: nat)
    | ResetPut(c: nat)
    | RefreshGet(c: nat)
    | Stamp(c: nat)
    | RefreshUpdate(c: nat)
    | UnlockGet(c: nat)
    | UnlockUpdate(c: nat)

  function At(s: State, c: nat, to: Client): State
    requires c < |s.clients|
  {
    s.(clients := s.clients[c := to])
  }

  /** A write gets the next revision. */
  function Written(s: State, value: int): State {
    s.(reg := Entry(value, s.last + 1), last := s.last + 1)
  }

  /** Update succeeds only on the revision the client saw. */
  predicate Current(s: State, rev: nat) {
    s.reg.Entry? && s.reg.rev == rev
  }

  predicate Enabled(s: State, a: Action) {
    a.Tick? ||
    (a.c < |s.clients| &&
     var c := s.clients[a.c];
     match a
     case Begin(_) => c.Idle?
     case ReadClock(_) => c.Locking?
     case LockGet(_, _) => c.Timed?
     case LockUpdate(_) => c.SawFree?
     case ResetPut(_) => c.Resetting?
     case RefreshGet(_) => (c.Holding? || c.Idle?) && s.reg.Entry?
     case Stamp(_) => c.Refreshing? || c.StrayRefreshing?
     case RefreshUpdate(_) => c.Stamped? || c.StrayStamped?
     case UnlockGet(_) => (c.Holding? || c.Idle?) && s.reg.Entry?
     case UnlockUpdate(_) => c.Unlocking? || c.StrayUnlocking?)
  }

  function Next(life: nat, s: State, a: Action): State
    requires Enabled(s, a)
  {
    match a
    case Tick => s.(clock := s.clock + 1)
    case Begin(i) => At(s, i, Locking(false))
    case ReadClock(i) => At(s, i, Timed(s.clients[i].reset, ClockOf(s, i)))
    case LockGet(i, errorOnLocked) =>
      var c := s.clients[i];
      if s.reg.Absent? || c.reset then At(s, i, Resetting(c.now))
      else if s.reg.value == 0 then At(s, i, SawFree(c.now, s.reg.rev))
      else if s.reg.value + life < c.now then At(s, i, Locking(true))
      else At(s, i, if errorOnLocked then Idle else Locking(false))
    case LockUpdate(i) =>
      var c := s.clients[i];
      if Current(s, c.rev) then At(Written(s, c.now), i, Holding(s.last + 1, c.now))
      else At(s, i, Locking(false)) // another lock was faster
    case ResetPut(i) =>
      var c := s.clients[i];
      At(Written(s, c.now), i, Holding(s.last + 1, c.now))
    case RefreshGet(i) =>
      var c := s.clients[i];
      At(s, i, if c.Holding? then Refreshing(c.rev, c.since, s.reg.value, s.reg.rev) else StrayRefreshing(s.reg.value, s.reg.rev))
    case Stamp(i) =>
      var c := s.clients[i];
      if c.value == 0 then At(s, i, Idle) // "was already unlocked"
      else At(s, i, if c.Refreshing? then Stamped(c.rev, c.since, c.seen, ClockOf(s, i))
      else StrayStamped(c.seen, ClockOf(s, i)))
    case RefreshUpdate(i) =>
      var c := s.clients[i];
      if Current(s, c.seen) then At(Written(s, c.now), i, Holding(s.last + 1, c.now))
      else At(s, i, if c.Stamped? then Holding(c.rev, c.since) else Idle)
    case UnlockGet(i) =>
      var c := s.clients[i];
      At(s, i, if c.Holding? then Unlocking(c.rev, c.since, s.reg.value, s.reg.rev) else StrayUnlocking(s.reg.value, s.reg.rev))
    case UnlockUpdate(i) =>
      var c := s.clients[i];
      if c.value != 0 && Current(s, c.seen) then At(Written(s, 0), i, Idle)
      else At(s, i, Idle)
  }

  /** A client that does not hold the lock refreshes or unlocks it: the code warns of the revision and goes on. */
  predicate Stray(s: State, a: Action)
    requires Enabled(s, a)
  {
    (a.RefreshGet? || a.UnlockGet?) && s.clients[a.c].Idle?
  }

  ghost predicate StepBy(strays: bool, life: nat, s: State, a: Action, s': State) {
    Enabled(s, a) && (Stray(s, a) ==> strays) && s' == Next(life, s, a)
  }

  ghost predicate Step(strays: bool, life: nat, s: State, s': State) {
    exists a :: StepBy(strays, life, s, a, s')
  }

  /** On nobody's clock does a holder outlive the lifetime of its last write. */
  predicate InTime(life: nat, s: State) {
    forall i, j :: 0 <= i < |s.clients| && 0 <= j < |s.clients| && s.clients[i].Holder() ==>
      ClockOf(s, j) <= s.clients[i].since + life
  }

  /** `keyExists`: the lock key is there from the start.  `late`: holders may outlive the lifetime, on some clock.
      `strays`: clients may refresh or unlock what they do not hold. */
  datatype Setting = Setting(keyExists: bool, late: bool, strays: bool)

  const SAFE := Setting(true, false, false)

  ghost predicate IsRun(h: Setting, life: nat, run: seq<State>) {
    && run != []
    && run[0] == Init(h.keyExists, run[0].skews)
    && (forall j, k :: 0 <= j && k == j + 1 && k < |run| ==> Step(h.strays, life, run[j], run[k]))
    && (!h.late ==> forall k :: 0 <= k < |run| ==> InTime(life, run[k]))
  }

  ghost predicate Exclusive(s: State) {
    forall i, j :: 0 <= i < |s.clients| && 0 <= j < |s.clients| && s.clients[i].Holder() && s.clients[j].Holder() ==> i == j
  }

  // ---------------------------------------------------------------- the invariant

  ghost predicate ClientOk(s: State, i: nat, c: Client)
    requires s.reg.Entry?
  {
    match c
    case Idle => true
    case Locking(reset) => !reset
    case Timed(reset, now) => !reset && 0 < now <= ClockOf(s, i)
    case SawFree(now, rev) => 0 < now <= ClockOf(s, i) && rev <= s.reg.rev && (rev == s.reg.rev ==> s.reg.value == 0)
    case Resetting(_) => false
    case Holding(rev, since) => since == s.reg.value != 0 && rev == s.reg.rev
    case Refreshing(rev, since, value, seen) => value == since == s.reg.value != 0 && rev == seen == s.reg.rev
    case Stamped(rev, since, seen, now) => since == s.reg.value != 0 && rev == seen == s.reg.rev && 0 < now <= ClockOf(s, i)
    case Unlocking(rev, since, value, seen) => value == since == s.reg.value != 0 && rev == seen == s.reg.rev
    case StrayRefreshing(_, _) => false
    case StrayStamped(_, _) => false
    case StrayUnlocking(_, _) => false
  }

  ghost predicate Inv(s: State) {
    && s.reg.Entry? && s.reg.rev == s.last && s.clock > 0
    && (forall i :: 0 <= i < |s.clients| ==> ClientOk(s, i, s.clients[i]))
    && Exclusive(s)
    && (s.reg.value != 0 ==> exists i :: 0 <= i < |s.clients| && s.clients[i].Holder())
  }

  lemma InitInv(skews: seq<nat>)
    ensures Inv(Init(true, skews))
  {
  }

  /** While the register holds a lock time, its holder is in time, so nobody takes the lock to be dead. */
  lemma NotExpired(life: nat, s: State, j: nat, now: int)
    requires Inv(s) && InTime(life, s) && j < |s.clients| && now <= ClockOf(s, j) && s.reg.value != 0
    ensures s.reg.value + life >= now
  {
    var i :| 0 <= i < |s.clients| && s.clients[i].Holder();
    assert ClientOk(s, i, s.clients[i]);
  }

  /** A step that only moves one client between states without the lock. */
  lemma QuietMove(s: State, i: nat, to: Client)
    requires Inv(s) && i < |s.clients| && !s.clients[i].Holder() && !to.Holder() && ClientOk(s, i, to)
    ensures Inv(At(s, i, to))
  {
    var s' := At(s, i, to);
    forall j | 0 <= j < |s'.clients|
      ensures ClientOk(s', j, s'.clients[j])
    {
      assert ClientOk(s, j, s.clients[j]);
    }
    if s.reg.value != 0 {
      var h :| 0 <= h < |s.clients| && s.clients[h].Holder();
      assert s'.clients[h].Holder();
    }
  }

  /** The holder moves on without giving up the lock. */
  lemma HolderMove(s: State, i: nat, to: Client)
    requires Inv(s) && i < |s.clients| && s.clients[i].Holder() && to.Holder() && ClientOk(s, i, to)
    ensures Inv(At(s, i, to))
  {
    var s' := At(s, i, to);
    forall j | 0 <= j < |s'.clients|
      ensures ClientOk(s', j, s'.clients[j])
    {
      assert ClientOk(s, j, s.clients[j]);
    }
    assert s'.clients[i].Holder();
  }

  /** A write by the only client that may hold the lock. */
  lemma WriteMove(s: State, i: nat, value: int, to: Client)
    requires Inv(s) && i < |s.clients|
    requires forall j :: 0 <= j < |s.clients| && j != i ==> !s.clients[j].Holder()
    requires if value == 0 then to == Idle else to == Holding(s.last + 1, value)
    ensures Inv(At(Written(s, value), i, to))
  {
    var s' := At(Written(s, value), i, to);
    forall j | 0 <= j < |s'.clients|
      ensures ClientOk(s', j, s'.clients[j])
    {
      assert ClientOk(s, j, s.clients[j]);
    }
    if value != 0 {
      assert s'.clients[i].Holder();
    }
  }

  lemma TickKeepsInv(s: State)
    requires Inv(s)
    ensures Inv(s.(clock := s.clock + 1))
  {
    var s' := s.(clock := s.clock + 1);
    forall j | 0 <= j < |s.clients|
      ensures ClientOk(s', j, s'.clients[j])
    {
      assert ClientOk(s, j, s.clients[j]);
    }
  }

  /** The steps of a client that asks for the lock.  It never gets as far as the unconditional Put. */
  lemma AskerKeepsInv(life: nat, s: State, a: Action, s': State)
    requires Inv(s) && InTime(life, s) && StepBy(false, life, s, a, s')
    requires a.Begin? || a.ReadClock? || a.LockGet? || a.ResetPut?
    ensures Inv(s')
  {
    var c := s.clients[a.c];
    assert ClientOk(s, a.c, c);
    if a.LockGet? && s.reg.value != 0 {
      NotExpired(life, s, a.c, c.now);
    }
    if !a.ResetPut? {
      QuietMove(s, a.c, s'.clients[a.c]);
    }
  }

  /** Taking the lock with the revision of a free register. */
  lemma TakeKeepsInv(life: nat, s: State, i: nat, s': State)
    requires Inv(s) && StepBy(false, life, s, LockUpdate(i), s')
    ensures Inv(s')
  {
    var c := s.clients[i];
    assert ClientOk(s, i, c);
    if Current(s, c.rev) {
      forall j | 0 <= j < |s.clients|
        ensures !s.clients[j].Holder()
      {
        assert ClientOk(s, j, s.clients[j]);
      }
      WriteMove(s, i, c.now, Holding(s.last + 1, c.now));
    } else {
      QuietMove(s, i, s'.clients[i]);
    }
  }

  /** The steps of the holder. */
  lemma HolderKeepsInv(life: nat, s: State, a: Action, s': State)
    requires Inv(s) && StepBy(false, life, s, a, s')
    requires a.RefreshGet? || a.Stamp? || a.RefreshUpdate? || a.UnlockGet? || a.UnlockUpdate?
    ensures Inv(s')
  {
    var i := a.c;
    assert ClientOk(s, i, s.clients[i]);
    if a.RefreshUpdate? {
      WriteMove(s, i, s.clients[i].now, Holding(s.last + 1, s.clients[i].now));
    } else if a.UnlockUpdate? {
      WriteMove(s, i, 0, Idle);
    } else {
      HolderMove(s, i, s'.clients[i]);
    }
  }

  lemma StepKeepsInv(life: nat, s: State, a: Action, s': State)
    requires Inv(s) && InTime(life, s) && StepBy(false, life, s, a, s')
    ensures Inv(s')
  {
    if a.Tick? {
      TickKeepsInv(s);
    } else if a.LockUpdate? {
      TakeKeepsInv(life, s, a.c, s');
    } else if a.Begin? || a.ReadClock? || a.LockGet? || a.ResetPut? {
      AskerKeepsInv(life, s, a, s');
    } else {
      HolderKeepsInv(life, s, a, s');
    }
  }

  lemma {:induction false} RunInv(life: nat, run: seq<State>, k: nat)
    requires IsRun(SAFE, life, run) && k < |run|
    ensures Inv(run[k])
    decreases k
  {
    if k == 0 {
      InitInv(run[0].skews);
    } else {
      var s, s' := run[k - 1], run[k];
      assert Step(false, life, s, s');
      var a :| StepBy(false, life, s, a, s');
      RunInv(life, run, k - 1);
      StepKeepsInv(life, s, a, s');
    }
  }

  /** At most one client holds the lock, and its revision is the stored one. */
  lemma AtMostOneHolder(life: nat, run: seq<State>, k: nat, i: nat, j: nat)
    requires IsRun(SAFE, life, run) && k < |run| && i < |run[k].clients| && j < |run[k].clients|
    requires run[k].clients[i].Holder()
    ensures run[k].reg.Entry? && run[k].clients[i].rev == run[k].reg.rev && run[k].clients[i].since == run[k].reg.value != 0
    ensures run[k].clients[j].Holder() ==> i == j
  {
    RunInv(life, run, k);
    assert ClientOk(run[k], i, run[k].clients[i]);
  }

  /** The Update of a holder that refreshes or unlocks never fails. */
  lemma HolderUpdateSucceeds(life: nat, run: seq<State>, k: nat, i: nat)
    requires IsRun(SAFE, life, run) && k < |run| && i < |run[k].clients|
    requires run[k].clients[i].Stamped? || run[k].clients[i].Unlocking?
    ensures Current(run[k], run[k].clients[i].seen)
    ensures run[k].clients[i].Unlocking? ==> run[k].clients[i].value != 0
  {
    RunInv(life, run, k);
    assert ClientOk(run[k], i, run[k].clients[i]);
  }

  // ---------------------------------------------------------------- where exclusion fails

  lemma Extended(h: Setting, life: nat, run: seq<State>, a: Action) returns (longer: seq<State>)
    requires IsRun(h, life, run) && Enabled(run[|run| - 1], a) && (Stray(run[|run| - 1], a) ==> h.strays)
    requires !h.late ==> InTime(life, Next(life, run[|run| - 1], a))
    ensures IsRun(h, life, longer) && longer[|longer| - 1] == Next(life, run[|run| - 1], a)
  {
    longer := run + [Next(life, run[|run| - 1], a)];
    assert StepBy(h.strays, life, run[|run| - 1], a, longer[|run|]);
    forall j, k | 0 <= j && k == j + 1 && k < |longer|
      ensures Step(h.strays, life, longer[j], longer[k])
    {
      if k < |run| {
        assert Step(h.strays, life, run[j], run[k]);
      }
    }
  }

  lemma AskerInTime(life: nat, s: State, c: nat, to: Client)
    requires InTime(life, s) && c < |s.clients| && !to.Holder()
    ensures InTime(life, At(s, c, to))
  {
    var s' := At(s, c, to);
    forall i, j | 0 <= i < |s'.clients| && 0 <= j < |s'.clients| && s'.clients[i].Holder()
      ensures ClockOf(s', j) <= s'.clients[i].since + life
    {
      assert s.clients[i].Holder() && ClockOf(s, j) == ClockOf(s', j);
    }
  }

  /** A client that does nothing yet starts to lock: it reads its clock and gets the key. */
  lemma Asked(h: Setting, life: nat, run: seq<State>, c: nat) returns (longer: seq<State>)
    requires IsRun(h, life, run) && c < |run[|run| - 1].clients| && run[|run| - 1].clients[c].Idle?
    ensures IsRun(h, life, longer)
    ensures var s := run[|run| - 1];
      longer[|longer| - 1] == Next(life, At(s, c, Timed(false, ClockOf(s, c))), LockGet(c, false))
  {
    var s := run[|run| - 1];
    var timed := At(s, c, Timed(false, ClockOf(s, c)));
    if !h.late {
      AskerInTime(life, s, c, Locking(false));
      AskerInTime(life, s, c, Timed(false, ClockOf(s, c)));
      AskerInTime(life, timed, c, Next(life, timed, LockGet(c, false)).clients[c]);
    }
    longer := Extended(h, life, run, Begin(c));
    assert Next(life, longer[|longer| - 1], ReadClock(c)) == timed;
    longer := Extended(h, life, longer, ReadClock(c));
    longer := Extended(h, life, longer, LockGet(c, false));
  }

  /** Two clients have both found no key. */
  lemma BothFoundNone(h: Setting, life: nat) returns (run: seq<State>)
    requires !h.keyExists
    ensures IsRun(h, life, run) && run[|run| - 1] == State(Absent, 0, 1, [0, 0], [Resetting(1), Resetting(1)])
  {
    run := [Init(false, [0, 0])];
    run := Asked(h, life, run, 0);
    run := Asked(h, life, run, 1);
    assert run[|run| - 1].clients == [Resetting(1), Resetting(1)];
  }

  /** Two clients that both find no key both put it, and both hold the lock. */
  lemma FirstCreationRun(h: Setting, life: nat) returns (run: seq<State>)
    requires !h.keyExists
    ensures IsRun(h, life, run) && !Exclusive(run[|run| - 1])
  {
    run := BothFoundNone(h, life);
    run := Extended(h, life, run, ResetPut(0));
    run := Extended(h, life, run, ResetPut(1));
    var s := run[|run| - 1];
    assert s.clients[0].Holder() && s.clients[1].Holder();
  }

  lemma Held(h: Setting, life: nat) returns (run: seq<State>)
    requires h.keyExists
    ensures IsRun(h, life, run)
    ensures run[|run| - 1] == State(Entry(1, 1), 1, 1, [0, 0], [Holding(1, 1), Idle])
  {
    run := [Init(true, [0, 0])];
    run := Asked(h, life, run, 0);
    run := Extended(h, life, run, LockUpdate(0));
    assert run[|run| - 1].clients == [Holding(1, 1), Idle];
  }

  lemma {:induction false} Waited(h: Setting, life: nat, run: seq<State>, n: nat) returns (longer: seq<State>)
    requires h.late && IsRun(h, life, run)
    ensures IsRun(h, life, longer)
    ensures var s := run[|run| - 1]; longer[|longer| - 1] == s.(clock := s.clock + n)
    decreases n
  {
    longer := run;
    if n > 0 {
      longer := Extended(h, life, run, Tick);
      longer := Waited(h, life, longer, n - 1);
    }
  }

  /** A holder that outlives the lifetime loses the lock to a client that puts it over, and still believes to hold it. */
  lemma ExpiryRun(h: Setting, life: nat) returns (run: seq<State>)
    requires h.keyExists && h.late
    ensures IsRun(h, life, run) && !Exclusive(run[|run| - 1])
  {
    run := Held(h, life);
    run := Waited(h, life, run, life + 1);
    run := Asked(h, life, run, 1);
    run := Extended(h, life, run, ReadClock(1));
    run := Extended(h, life, run, LockGet(1, false));
    run := Extended(h, life, run, ResetPut(1));
    var s := run[|run| - 1];
    assert s.clients[0].Holder() && s.clients[1].Holder();
  }

  /** A client that holds nothing unlocks the lock of another, whatever revision it names, and then takes it. */
  lemma StrayRun(h: Setting, life: nat) returns (run: seq<State>)
    requires h.keyExists && h.strays
    ensures IsRun(h, life, run) && !Exclusive(run[|run| - 1])
  {
    run := Held(h, life);
    run := Extended(h, life, run, UnlockGet(1));
    run := Extended(h, life, run, UnlockUpdate(1));
    run := Asked(h, life, run, 1);
    run := Extended(h, life, run, LockUpdate(1));
    var s := run[|run| - 1];
    assert s.clients[0].Holder() && s.clients[1].Holder();
  }

  ghost predicate AlwaysExclusive(h: Setting, life: nat) {
    forall run :: IsRun(h, life, run) ==> Exclusive(run[|run| - 1])
  }

  /** Mutual exclusion over every interleaving holds exactly when the key exists at the start, no holder outlives
      the lifetime on anybody's clock, and only holders refresh and unlock. */
  lemma ExclusiveIff(h: Setting, life: nat)
    ensures AlwaysExclusive(h, life) <==> h.keyExists && !h.late && !h.strays
  {
    if !h.keyExists {
      var run := FirstCreationRun(h, life);
    } else if h.late {
      var run := ExpiryRun(h, life);
    } else if h.strays {
      var run := StrayRun(h, life);
    } else {
      forall run | IsRun(h, life, run)
        ensures Exclusive(run[|run| - 1])
      {
        RunInv(life, run, |run| - 1);
      }
    }
  }
}
