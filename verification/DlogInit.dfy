/** Lazy initialisation of the writer library (`__dlog_init` in log.c) under any interleaving of
    any number of threads, with the pthread lock compiled in. One step is one access to the
    shared variables. */
module DlogInit {
  import opened Options

  const MAIN := 0
  const RADIO := 1
  const SYSTEM := 2
  const APPS := 3

  /** What `write_to_log` points to. */
  datatype Mode = Init | Null | Kernel

  /** Where a thread is. `InKernel(true)` was reached by the tail call of `__dlog_init`. */
  datatype Pc =
    | Idle
    | WantLock | Check | Opening(dev: nat) | Level | Publish | FixSystem | FixApps | Unlock | Tail
    | InNull | InKernel(viaInit: bool)

  datatype State = State(
    lock: Option<nat>,
    mode: Mode,
    fds: seq<int>,
    level: int,
    threads: seq<Pc>,
    opens: seq<nat>, // how often each device was opened
    got: seq<int>)   // what its last open returned

  function Start(n: nat): State {
    State(None, Init, [-1, -1, -1, -1], 8, seq(n, _ => Idle), [0, 0, 0, 0], [-1, -1, -1, -1])
  }

  predicate Shape(s: State) {
    |s.fds| == 4 && |s.opens| == 4 && |s.got| == 4 && forall t :: 0 <= t < |s.threads| && s.threads[t].Opening? ==> s.threads[t].dev < 4
  }

  /** A call through the function pointer. */
  function Dispatch(mode: Mode, viaInit: bool): Pc {
    match mode case Init => WantLock case Null => InNull case Kernel => InKernel(viaInit)
  }

  function At(s: State, t: nat, pc: Pc): State
    requires t < |s.threads|
  {
    s.(threads := s.threads[t := pc])
  }

  /** The next step of thread t; v is what the environment returns (a descriptor, a level). */
  function Step(s: State, t: nat, v: int): (u: State)
    requires Shape(s)
    ensures Shape(u) && |u.threads| == |s.threads|
  {
    if t >= |s.threads| then s
    else match s.threads[t]
      case Idle => At(s, t, Dispatch(s.mode, false))
      case WantLock => if s.lock.None? then At(s.(lock := Some(t)), t, Check) else s
      case Check => At(s, t, if s.mode == Init then Opening(MAIN) else Unlock)
      case Opening(k) =>
        var fd := if v < 0 then -1 else v;
        At(s.(fds := s.fds[k := fd], opens := s.opens[k := s.opens[k] + 1], got := s.got[k := fd]),
           t, if k < APPS then Opening(k + 1) else Level)
      case Level => At(s.(level := v), t, Publish)
      case Publish =>
        At(s.(mode := if s.fds[MAIN] < 0 || s.fds[RADIO] < 0 then Null else Kernel), t, FixSystem)
      case FixSystem =>
        At(if s.fds[SYSTEM] < 0 then s.(fds := s.fds[SYSTEM := s.fds[MAIN]]) else s, t, FixApps)
      case FixApps =>
        At(if s.fds[APPS] < 0 then s.(fds := s.fds[APPS := s.fds[MAIN]]) else s, t, Unlock)
      case Unlock => At(s.(lock := None), t, Tail)
      case Tail => At(s, t, Dispatch(s.mode, true))
      case InNull => At(s, t, Idle)
      case InKernel(_) => At(s, t, Idle)
  }

  /** A schedule says which thread moves and what its system call returns. */
  function Run(n: nat, schedule: seq<(nat, int)>): (s: State)
    ensures Shape(s) && |s.threads| == n
  {
    if schedule == [] then Start(n)
    else
      var last := schedule[|schedule| - 1];
      Step(Run(n, schedule[..|schedule| - 1]), last.0, last.1)
  }

  // ----- the invariant

  predicate Locked(pc: Pc) {
    pc.Check? || pc.Opening? || pc.Level? || pc.Publish? || pc.FixSystem? || pc.FixApps? || pc.Unlock?
  }

  /** How many devices have been opened when a thread is at pc. */
  function Opened(pc: Pc, mode: Mode): nat {
    if pc.Opening? then pc.dev
    else if pc.Level? || pc.Publish? || mode != Init then 4
    else 0
  }

  predicate OpensAre(opens: seq<nat>, k: nat)
    requires |opens| == 4
  {
    forall d :: 0 <= d < 4 ==> opens[d] == if d < k then 1 else 0
  }

  /** The initialisation is over: the pointer and the descriptors are final. */
  predicate Settled(s: State) {
    s.mode != Init && (s.lock.Some? && s.lock.value < |s.threads| ==>
      var pc := s.threads[s.lock.value]; !pc.FixSystem? && !pc.FixApps?)
  }

  /** The descriptor of device d: what its open returned, or after the fallback MAIN's. */
  function Descriptor(s: State, pc: Pc, d: nat): int
    requires Shape(s) && d < 4
  {
    var fallenBack := s.mode != Init && !pc.FixSystem? && (d == SYSTEM || (d == APPS && !pc.FixApps?));
    if fallenBack && s.got[d] < 0 then s.got[MAIN] else s.got[d]
  }

  /** What holds of the shared variables while the lock holder (or nobody: Idle) is at pc. */
  predicate Phase(s: State, pc: Pc)
    requires Shape(s)
  {
    && OpensAre(s.opens, Opened(pc, s.mode))
    && (pc.Opening? || pc.Level? || pc.Publish? ==> s.mode == Init)
    && (pc.FixSystem? || pc.FixApps? || pc.Unlock? ==> s.mode != Init)
    && (forall d :: 0 <= d < 4 && d < Opened(pc, s.mode) ==> s.fds[d] == Descriptor(s, pc, d))
    && (s.mode != Init ==> (s.mode == Kernel <==> s.got[MAIN] >= 0 && s.got[RADIO] >= 0))
  }

  /** The lock holder is the one thread between lock and unlock. */
  ghost predicate Exclusive(s: State) {
    && (s.lock.Some? ==> s.lock.value < |s.threads|)
    && (forall t :: 0 <= t < |s.threads| ==> (Locked(s.threads[t]) <==> s.lock == Some(t)))
  }

  function HolderPc(s: State): Pc {
    if s.lock.Some? && s.lock.value < |s.threads| then s.threads[s.lock.value] else Idle
  }

  /** Threads that have left `__dlog_init`, or called through the pointer. */
  ghost predicate Callers(s: State) {
    && (forall t :: 0 <= t < |s.threads| && (s.threads[t].Tail? || s.threads[t] == InKernel(true)) ==> Settled(s))
    && (forall t :: 0 <= t < |s.threads| && s.threads[t].InKernel? ==> s.mode == Kernel)
    && (forall t :: 0 <= t < |s.threads| && s.threads[t].InNull? ==> s.mode == Null)
  }

  ghost predicate Inv(s: State) {
    Shape(s) && Exclusive(s) && Phase(s, HolderPc(s)) && Callers(s)
  }

  lemma StepKeepsExclusive(s: State, t: nat, v: int)
    requires Shape(s) && Exclusive(s)
    ensures Exclusive(Step(s, t, v))
  {
  }

  lemma OpeningKeepsPhase(s: State, t: nat, v: int)
    requires Shape(s) && Exclusive(s) && Phase(s, HolderPc(s)) && t < |s.threads| && s.threads[t].Opening?
    ensures Phase(Step(s, t, v), HolderPc(Step(s, t, v)))
  {
    var u, k := Step(s, t, v), s.threads[t].dev;
    assert HolderPc(s) == s.threads[t];
    assert HolderPc(u) == if k < APPS then Opening(k + 1) else Level;
    assert OpensAre(u.opens, k + 1);
  }

  lemma StepKeepsPhase(s: State, t: nat, v: int)
    requires Shape(s) && Exclusive(s) && Phase(s, HolderPc(s))
    ensures Phase(Step(s, t, v), HolderPc(Step(s, t, v)))
  {
    if t < |s.threads| && s.threads[t].Opening? {
      OpeningKeepsPhase(s, t, v);
    } else if t < |s.threads| && Locked(s.threads[t]) {
      assert HolderPc(s) == s.threads[t];
    } else if s.lock.Some? {
      assert s.lock.value != t && Step(s, t, v).threads[s.lock.value] == s.threads[s.lock.value];
      assert HolderPc(Step(s, t, v)) == HolderPc(s);
    }
  }

  lemma StepKeepsCallers(s: State, t: nat, v: int)
    requires Inv(s)
    ensures Callers(Step(s, t, v))
  {
    StepSettles(s, t, v);
    if t < |s.threads| && (s.threads[t].Check? || s.threads[t].Unlock?) {
      assert HolderPc(s) == s.threads[t];
    }
  }

  lemma StepKeepsInv(s: State, t: nat, v: int)
    requires Inv(s)
    ensures Inv(Step(s, t, v))
  {
    StepKeepsExclusive(s, t, v);
    StepKeepsPhase(s, t, v);
    StepKeepsCallers(s, t, v);
  }

  lemma {:induction false} RunKeepsInv(n: nat, schedule: seq<(nat, int)>)
    ensures Inv(Run(n, schedule))
  {
    if schedule != [] {
      RunKeepsInv(n, schedule[..|schedule| - 1]);
      var last := schedule[|schedule| - 1];
      StepKeepsInv(Run(n, schedule[..|schedule| - 1]), last.0, last.1);
    }
  }

  // ----- what follows for every run

  /** Each device is opened at most once, and all four are once the pointer has changed. */
  lemma OpenedAtMostOnce(n: nat, schedule: seq<(nat, int)>, d: nat)
    requires d < 4
    ensures Run(n, schedule).opens[d] <= 1
    ensures Run(n, schedule).mode != Init ==> Run(n, schedule).opens[d] == 1
  {
    RunKeepsInv(n, schedule);
  }

  /** Kernel mode means MAIN and RADIO are open, and all four are when the lock is free. */
  lemma KernelMeansOpen(n: nat, schedule: seq<(nat, int)>)
    ensures var s := Run(n, schedule);
            s.mode == Kernel ==>
              && s.fds[MAIN] >= 0 && s.fds[RADIO] >= 0
              && (s.lock.None? ==> s.fds[SYSTEM] >= 0 && s.fds[APPS] >= 0)
  {
    RunKeepsInv(n, schedule);
  }

  // ----- what the environment returned

  /** Step i of the schedule is one that a thread makes at pc. */
  predicate StepsAt(n: nat, schedule: seq<(nat, int)>, i: nat, pc: Pc) {
    i < |schedule| && schedule[i].0 < n && Run(n, schedule[..i]).threads[schedule[i].0] == pc
  }

  /** Step i is the only one made at pc. */
  ghost predicate OnlyAt(n: nat, schedule: seq<(nat, int)>, i: nat, pc: Pc) {
    StepsAt(n, schedule, i, pc) && forall k: nat :: StepsAt(n, schedule, k, pc) ==> k == i
  }

  ghost predicate NeverAt(n: nat, schedule: seq<(nat, int)>, pc: Pc) {
    forall i: nat :: !StepsAt(n, schedule, i, pc)
  }

  lemma StepsAtFront(n: nat, schedule: seq<(nat, int)>, pc: Pc)
    requires schedule != []
    ensures forall i: nat :: i < |schedule| - 1 ==>
              (StepsAt(n, schedule, i, pc) <==> StepsAt(n, schedule[..|schedule| - 1], i, pc))
  {
    assert forall i: nat :: i < |schedule| - 1 ==> schedule[..|schedule| - 1][..i] == schedule[..i];
  }

  lemma OnlyAtLater(n: nat, schedule: seq<(nat, int)>, i: nat, pc: Pc)
    requires schedule != [] && OnlyAt(n, schedule[..|schedule| - 1], i, pc) && !StepsAt(n, schedule, |schedule| - 1, pc)
    ensures OnlyAt(n, schedule, i, pc)
  {
    StepsAtFront(n, schedule, pc);
  }

  lemma OnlyAtLast(n: nat, schedule: seq<(nat, int)>, pc: Pc)
    requires schedule != [] && StepsAt(n, schedule, |schedule| - 1, pc)
    requires NeverAt(n, schedule[..|schedule| - 1], pc)
    ensures OnlyAt(n, schedule, |schedule| - 1, pc)
  {
    StepsAtFront(n, schedule, pc);
  }

  /** How one step changes what is recorded of device d. */
  lemma OpenStep(s: State, t: nat, v: int, d: nat)
    requires Shape(s) && d < 4
    ensures var u := Step(s, t, v);
            if t < |s.threads| && s.threads[t] == Opening(d)
            then u.opens[d] == s.opens[d] + 1 && u.got[d] == (if v < 0 then -1 else v) && u.fds[d] == u.got[d]
            else u.opens[d] == s.opens[d] && u.got[d] == s.got[d]
  {
  }

  /** A device is opened in at most one step, and what is recorded is what the open returned then. */
  lemma {:induction false} OpenedInOneStep(n: nat, schedule: seq<(nat, int)>, d: nat) returns (i: nat)
    requires d < 4
    ensures var s := Run(n, schedule);
            if s.opens[d] == 0 then s.got[d] == -1 && NeverAt(n, schedule, Opening(d))
            else OnlyAt(n, schedule, i, Opening(d)) && s.got[d] == if schedule[i].1 < 0 then -1 else schedule[i].1
  {
    i := 0;
    if schedule != [] {
      var front, last := schedule[..|schedule| - 1], schedule[|schedule| - 1];
      i := OpenedInOneStep(n, front, d);
      OpenStep(Run(n, front), last.0, last.1, d);
      RunKeepsInv(n, front);
      RunKeepsInv(n, schedule);
      StepsAtFront(n, schedule, Opening(d));
      if StepsAt(n, schedule, |schedule| - 1, Opening(d)) {
        OnlyAtLast(n, schedule, Opening(d));
        i := |schedule| - 1;
      } else if Run(n, front).opens[d] != 0 {
        OnlyAtLater(n, schedule, i, Opening(d));
      }
    }
  }

  /** Once the pointer has changed, each device was opened in exactly one step, and `got` is what that
      open returned (-1 for any failure). */
  lemma GotIsReturned(n: nat, schedule: seq<(nat, int)>, d: nat) returns (i: nat)
    requires d < 4 && Run(n, schedule).mode != Init
    ensures OnlyAt(n, schedule, i, Opening(d))
    ensures Run(n, schedule).got[d] == if schedule[i].1 < 0 then -1 else schedule[i].1
  {
    i := OpenedInOneStep(n, schedule, d);
    RunKeepsInv(n, schedule);
  }

  /** The debug level has been set. */
  predicate LevelSet(s: State) {
    s.mode != Init || HolderPc(s) == Publish
  }

  lemma LevelStep(s: State, t: nat, v: int)
    requires Inv(s)
    ensures var u := Step(s, t, v);
            if t < |s.threads| && s.threads[t] == Level
            then !LevelSet(s) && LevelSet(u) && u.level == v
            else u.level == s.level && (LevelSet(u) <==> LevelSet(s))
  {
    var u := Step(s, t, v);
    if t < |s.threads| && Locked(s.threads[t]) {
      assert HolderPc(s) == s.threads[t];
    } else if s.lock.Some? {
      assert s.lock.value != t && u.threads[s.lock.value] == s.threads[s.lock.value];
      assert HolderPc(u) == HolderPc(s);
    }
  }

  /** The level is 8 until one step sets it to what the environment gives then. */
  lemma {:induction false} LevelInOneStep(n: nat, schedule: seq<(nat, int)>) returns (i: nat)
    ensures var s := Run(n, schedule);
            if !LevelSet(s) then s.level == 8 && NeverAt(n, schedule, Level)
            else OnlyAt(n, schedule, i, Level) && s.level == schedule[i].1
  {
    i := 0;
    if schedule != [] {
      var front, last := schedule[..|schedule| - 1], schedule[|schedule| - 1];
      i := LevelInOneStep(n, front);
      RunKeepsInv(n, front);
      LevelStep(Run(n, front), last.0, last.1);
      StepsAtFront(n, schedule, Level);
      if StepsAt(n, schedule, |schedule| - 1, Level) {
        OnlyAtLast(n, schedule, Level);
        i := |schedule| - 1;
      } else if LevelSet(Run(n, front)) {
        OnlyAtLater(n, schedule, i, Level);
      }
    }
  }

  /** Once initialisation is over: kernel mode exactly if MAIN and RADIO opened, and a device that
      did not open is served by MAIN. */
  lemma SettledDescriptors(n: nat, schedule: seq<(nat, int)>, d: nat)
    requires d < 4 && Settled(Run(n, schedule))
    ensures var s := Run(n, schedule);
            && (s.mode == Kernel <==> s.got[MAIN] >= 0 && s.got[RADIO] >= 0)
            && s.fds[d] == if (d == SYSTEM || d == APPS) && s.got[d] < 0 then s.got[MAIN] else s.got[d]
  {
    RunKeepsInv(n, schedule);
  }

  /** The same by what the opens returned, for each device in the one step that opened it: with m and
      r the results for MAIN and RADIO, the mode is kernel if and only if neither is negative, and a
      device whose open failed has MAIN's descriptor if it is SYSTEM or APPS. */
  lemma SettledByReturns(n: nat, schedule: seq<(nat, int)>, d: nat) returns (m: nat, r: nat, i: nat)
    requires d < 4 && Settled(Run(n, schedule))
    ensures OnlyAt(n, schedule, m, Opening(0)) && OnlyAt(n, schedule, r, Opening(1)) && OnlyAt(n, schedule, i, Opening(d))
    ensures var s := Run(n, schedule);
            && (s.mode == Kernel <==> schedule[m].1 >= 0 && schedule[r].1 >= 0)
            && s.fds[d] == (if schedule[i].1 >= 0 then schedule[i].1
                            else if d < 2 || schedule[m].1 < 0 then -1 else schedule[m].1)
  {
    m := GotIsReturned(n, schedule, 0);
    r := GotIsReturned(n, schedule, 1);
    i := GotIsReturned(n, schedule, d);
    SettledDescriptors(n, schedule, d);
  }

  // ----- calls

  /** How many steps a call has left at most, waiting aside. */
  function StepsLeft(pc: Pc): int {
    match pc
    case Idle => 0
    case InNull => 1
    case InKernel(_) => 1
    case Tail => 2
    case Unlock => 3
    case FixApps => 4
    case FixSystem => 5
    case Publish => 6
    case Level => 7
    case Opening(d) => 11 - d
    case Check => 12
    case WantLock => 13
  }

  /** A call into the library comes back only from one of the two writers, and gets there: every step
      of its thread, unless it waits for the lock that another thread holds, brings it closer. */
  lemma EveryCallWrites(s: State, t: nat, v: int)
    requires Inv(s) && t < |s.threads|
    ensures var pc, next := s.threads[t], Step(s, t, v).threads[t];
            && (pc == Idle ==> next != Idle && (next == WantLock <==> s.mode == Init))
            && (pc != Idle && next == Idle ==> pc.InNull? || pc.InKernel?)
            && (pc != Idle && !(pc == WantLock && s.lock.Some?) ==> 0 <= StepsLeft(next) < StepsLeft(pc))
            && (pc == WantLock && s.lock.Some? ==> s.lock.value != t && s.lock.value < |s.threads|)
  {
  }

  lemma TailCallers(s: State, t: nat)
    requires Callers(s) && t < |s.threads|
    ensures s.threads[t].Tail? ==> s.mode != Init
    ensures s.threads[t] == InKernel(true) ==> Settled(s) && s.mode == Kernel
  {
  }

  lemma SettledIsValid(s: State, pc: Pc)
    requires Shape(s) && Phase(s, pc) && pc == HolderPc(s)
    ensures Settled(s) && s.mode == Kernel ==> forall d :: 0 <= d < 4 ==> s.fds[d] >= 0
  {
    if Settled(s) && s.mode == Kernel {
      assert !pc.FixSystem? && !pc.FixApps?;
      assert forall d :: 0 <= d < 4 ==> s.fds[d] == Descriptor(s, pc, d);
    }
  }

  /** The tail call of `__dlog_init` never enters it again, and a write that it makes finds all
      four descriptors valid. */
  lemma TailCallIsSafe(n: nat, schedule: seq<(nat, int)>, t: nat)
    requires t < n
    ensures var s := Run(n, schedule);
            && (s.threads[t].Tail? ==> s.mode != Init)
            && (s.threads[t] == InKernel(true) ==> forall d :: 0 <= d < 4 ==> s.fds[d] >= 0)
  {
    RunKeepsInv(n, schedule);
    TailCallers(Run(n, schedule), t);
    SettledIsValid(Run(n, schedule), HolderPc(Run(n, schedule)));
  }

  /** The pointer leaves its first value once and never changes again, and neither does the debug
      level from then on; once initialisation is over the descriptors do not change either. */
  lemma {:induction false} SettlesOnce(n: nat, early: seq<(nat, int)>, late: seq<(nat, int)>)
    ensures Run(n, early).mode != Init ==>
              Run(n, early + late).mode == Run(n, early).mode && Run(n, early + late).level == Run(n, early).level
    ensures Settled(Run(n, early)) ==> Settled(Run(n, early + late)) && Run(n, early + late).fds == Run(n, early).fds
  {
    if late == [] {
      assert early + late == early;
    } else {
      var front, last := late[..|late| - 1], late[|late| - 1];
      SettlesOnce(n, early, front);
      assert (early + late)[..|early + late| - 1] == early + front;
      RunKeepsInv(n, early + front);
      StepSettles(Run(n, early + front), last.0, last.1);
    }
  }

  lemma StepSettles(s: State, t: nat, v: int)
    requires Inv(s)
    ensures s.mode != Init ==> Step(s, t, v).mode == s.mode && Step(s, t, v).level == s.level
    ensures Settled(s) ==> Settled(Step(s, t, v)) && Step(s, t, v).fds == s.fds
  {
  }

  ghost predicate Reachable(n: nat, s: State) {
    exists schedule :: Run(n, schedule) == s
  }

  /** Thread t moves; with two threads, the parts of the state that matter here. */
  lemma Move(s: State, t: nat, v: int) returns (u: State)
    requires Reachable(2, s) && Shape(s)
    ensures u == Step(s, t, v) && Reachable(2, u) && Shape(u) && |u.threads| == |s.threads|
  {
    u := Step(s, t, v);
    var schedule :| Run(2, schedule) == s;
    assert (schedule + [(t, v)])[..|schedule|] == schedule;
    assert Run(2, schedule + [(t, v)]) == u;
  }

  predicate Looks(s: State, mode: Mode, fds: seq<int>, pc0: Pc, pc1: Pc) {
    |s.threads| == 2 && s.mode == mode && fds <= s.fds && s.threads[0] == pc0 && s.threads[1] == pc1
  }

  lemma Enter() returns (s: State)
    ensures Reachable(2, s) && Shape(s) && Looks(s, Init, [], Opening(MAIN), Idle)
  {
    s := Start(2);
    assert Run(2, []) == s;
    s := Move(s, 0, 0);
    assert Looks(s, Init, [], WantLock, Idle) && s.lock.None?;
    s := Move(s, 0, 0);
    assert Looks(s, Init, [], Check, Idle);
    s := Move(s, 0, 0);
  }

  lemma OpensFail() returns (s: State)
    ensures Reachable(2, s) && Shape(s) && Looks(s, Init, [3, 4, -1], Level, Idle)
  {
    s := Enter();
    s := Move(s, 0, 3);
    assert Looks(s, Init, [3], Opening(RADIO), Idle);
    s := Move(s, 0, 4);
    assert Looks(s, Init, [3, 4], Opening(SYSTEM), Idle);
    s := Move(s, 0, -1);
    assert Looks(s, Init, [3, 4, -1], Opening(APPS), Idle);
    s := Move(s, 0, -1);
  }

  /** The pointer is published before the fallbacks: a thread that calls straight through it can
      meet a descriptor that is not valid. */
  lemma PublishedBeforeFallback()
    ensures exists schedule :: Run(2, schedule).threads[1] == InKernel(false) && Run(2, schedule).fds[SYSTEM] < 0
  {
    var s := OpensFail();
    s := Move(s, 0, 0);
    assert Looks(s, Init, [3, 4, -1], Publish, Idle);
    s := Move(s, 0, 0);
    assert Looks(s, Kernel, [3, 4, -1], FixSystem, Idle) by { assert s.fds[0] == 3 && s.fds[1] == 4; }
    s := Move(s, 1, 0);
    assert s.fds[SYSTEM] == [3, 4, -1][SYSTEM];
    var schedule :| Run(2, schedule) == s;
  }

  /** The lock holder has not yet reached the fallback of device d. */
  predicate FallbackAhead(pc: Pc, d: nat) {
    (d == SYSTEM && pc.FixSystem?) || (d == APPS && (pc.FixSystem? || pc.FixApps?))
  }

  lemma InvalidInPhase(s: State, pc: Pc, d: nat)
    requires Shape(s) && Phase(s, pc) && s.mode == Kernel && d < 4
    ensures s.fds[d] < 0 <==> s.got[d] < 0 && FallbackAhead(pc, d)
  {
    assert s.fds[d] == Descriptor(s, pc, d);
  }

  /** Exactly when: in kernel mode a descriptor is invalid if and only if its device did not open
      and the lock holder is still ahead of its fallback. */
  lemma InvalidIffBeforeFallback(n: nat, schedule: seq<(nat, int)>, d: nat)
    requires d < 4 && Run(n, schedule).mode == Kernel
    ensures var s := Run(n, schedule);
            s.fds[d] < 0 <==>
              s.got[d] < 0 && exists t :: 0 <= t < n && s.lock == Some(t) && FallbackAhead(s.threads[t], d)
  {
    RunKeepsInv(n, schedule);
    InvalidInPhase(Run(n, schedule), HolderPc(Run(n, schedule)), d);
  }
}
