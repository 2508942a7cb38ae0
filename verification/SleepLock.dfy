/** acquiresleep and releasesleep of kernel/sleeplock.c over sleep and wakeup of
    kernel/proc.c, as interleaved steps of any number of processes.

    A spinlock operation is one step.  The sections of wakeup and kkill that
    hold another process's p->lock contain no other lock operation, so each is
    one step that is enabled only while that p->lock is free; sleep holds its
    own p->lock across several steps. */
module SleepLock {

  datatype State = RUNNING | RUNNABLE | SLEEPING

  datatype Chan = NoChan | ThisLock | Elsewhere

  /** Where a process is; each constructor names what it is about to do. */
  datatype Pc =
    | Outside            // not using the lock: may call acquiresleep
    | AcquireSpin        // acquire(&lk->lk)
    | TestLocked         // while (lk->locked)
    | SleepTakeProc      // sleep: acquire(&p->lock)
    | SleepDropSpin      //   release(lk)
    | SleepMark          //   p->chan = chan; p->state = SLEEPING
    | SleepSwitched      //   in sched(): waiting to be run again
    | SleepTidy          //   p->chan = 0; release(&p->lock)
    | Take               // lk->locked = 1; lk->pid = myproc()->pid
    | AcquireDone        // release(&lk->lk)
    | Holding            // acquiresleep has returned: may call releasesleep
    | ReleaseSpin        // acquire(&lk->lk)
    | Clear              // lk->locked = 0; lk->pid = 0
    | Wake(i: nat)       // wakeup(lk): at table entry i
    | ReleaseDone        // release(&lk->lk)

  datatype Proc = Proc(pc: Pc, state: State, chan: Chan, lock: bool)

  datatype Holder = Free | By(p: nat)

  /** lk->lk with its holder, lk->locked and lk->pid, and the process table. */
  datatype System = System(spin: Holder, locked: bool, pid: Holder, procs: seq<Proc>)

  datatype Action =
    | Advance(p: nat)          // process p executes its next step
    | Schedule(p: nat)         // the scheduler resumes p
    | SwitchedOut(p: nat)      // the scheduler releases p->lock after p's sched()
    | Preempt(p: nat)          // yield()
    | Kill(p: nat)             // kkill
    | SleepElsewhere(p: nat)   // p sleeps on, or is woken from, another channel
    | WakeElsewhere(p: nat)

  ghost predicate Init(s: System) {
    && s.spin == Free && !s.locked && s.pid == Free
    && forall p | 0 <= p < |s.procs| :: s.procs[p] == Proc(Outside, RUNNING, NoChan, false)
  }

  predicate Enabled(s: System, a: Action) {
    && a.p < |s.procs|
    && var q := s.procs[a.p];
       match a
       case Advance(p) =>
         && q.state == RUNNING
         && (match q.pc
             case AcquireSpin => s.spin == Free
             case ReleaseSpin => s.spin == Free
             case SleepTakeProc => !q.lock
             case Wake(i) => i < |s.procs| && i != p ==> !s.procs[i].lock
             case _ => true)
       case Schedule(p) => q.state == RUNNABLE && !q.lock
       case SwitchedOut(p) => q.pc == SleepSwitched && q.lock
       case Preempt(p) => q.state == RUNNING && !q.lock && MayYield(q.pc)
       case Kill(p) => !q.lock
       case SleepElsewhere(p) => q.state == RUNNING && !q.lock && (q.pc == Outside || q.pc == Holding)
       case WakeElsewhere(p) => q.state == SLEEPING && !q.lock && q.chan == Elsewhere
  }

  /** No spinlock is held at these points, so interrupts are on. */
  predicate MayYield(pc: Pc) {
    pc in {Outside, AcquireSpin, Holding, ReleaseSpin}
  }

  function Apply(s: System, a: Action): System
    requires Enabled(s, a)
  {
    var p, q := a.p, s.procs[a.p];
    match a
    case Advance(_) => Step(s, p)
    case Schedule(_) =>
      // a process that was in sleep() continues inside it, holding p->lock
      if q.pc == SleepSwitched then Set(s, p, q.(state := RUNNING, pc := SleepTidy, lock := true))
      else Set(s, p, q.(state := RUNNING, chan := NoChan))
    case SwitchedOut(_) => Set(s, p, q.(lock := false))
    case Preempt(_) => Set(s, p, q.(state := RUNNABLE))
    case Kill(_) => Set(s, p, if q.state == SLEEPING then q.(state := RUNNABLE) else q)
    case SleepElsewhere(_) => Set(s, p, q.(state := SLEEPING, chan := Elsewhere))
    case WakeElsewhere(_) => Set(s, p, q.(state := RUNNABLE))
  }

  function Set(s: System, p: nat, q: Proc): System
    requires p < |s.procs|
  {
    s.(procs := s.procs[p := q])
  }

  function Goto(s: System, p: nat, pc: Pc): System
    requires p < |s.procs|
  {
    Set(s, p, s.procs[p].(pc := pc))
  }

  function Step(s: System, p: nat): System
    requires Enabled(s, Advance(p))
  {
    var q := s.procs[p];
    match q.pc
    case Outside => Goto(s, p, AcquireSpin)
    case AcquireSpin => Goto(s.(spin := By(p)), p, TestLocked)
    case TestLocked => Goto(s, p, if s.locked then SleepTakeProc else Take)
    case SleepTakeProc => Set(s, p, q.(pc := SleepDropSpin, lock := true))
    case SleepDropSpin => Goto(s.(spin := Free), p, SleepMark)
    case SleepMark => Set(s, p, q.(pc := SleepSwitched, chan := ThisLock, state := SLEEPING))
    case SleepSwitched => s
    case SleepTidy => Set(s, p, q.(pc := AcquireSpin, chan := NoChan, lock := false))
    case Take => Goto(s.(locked := true, pid := By(p)), p, AcquireDone)
    case AcquireDone => Goto(s.(spin := Free), p, Holding)
    case Holding => Goto(s, p, ReleaseSpin)
    case ReleaseSpin => Goto(s.(spin := By(p)), p, Clear)
    case Clear => Goto(s.(locked := false, pid := Free), p, Wake(0))
    case Wake(i) =>
      if i >= |s.procs| then Goto(s, p, ReleaseDone)
      else
        var r := s.procs[i];
        var woken := if i != p && r.state == SLEEPING && r.chan == ThisLock
                     then Set(s, i, r.(state := RUNNABLE)) else s;
        Goto(woken, p, Wake(i + 1))
    case ReleaseDone => Goto(s.(spin := Free), p, Outside)
  }

  /** s' is reached from s by some sequence of enabled actions. */
  ghost predicate Run(s: System, actions: seq<Action>, s': System) {
    if actions == [] then s == s' else
      var n := |actions| - 1;
      exists m :: Run(s, actions[..n], m) && Enabled(m, actions[n]) && s' == Apply(m, actions[n])
  }

  // The invariant.

  predicate InSpin(pc: Pc) {
    pc.TestLocked? || pc.SleepTakeProc? || pc.SleepDropSpin? || pc.Take? || pc.AcquireDone? || pc.Clear? || pc.Wake? || pc.ReleaseDone?
  }

  predicate Owns(pc: Pc) {
    pc.AcquireDone? || pc.Holding? || pc.ReleaseSpin? || pc.Clear?
  }

  /** Committed to sleeping on the lock, and not woken since. */
  predicate Waiting(q: Proc) {
    q.pc.SleepTakeProc? || q.pc.SleepDropSpin? || q.pc.SleepMark? || (q.pc.SleepSwitched? && q.state == SLEEPING)
  }

  /** The holder of the spinlock is in wakeup and has not passed entry p. */
  predicate WakeComing(s: System, p: nat) {
    s.spin.By? && s.spin.p < |s.procs| && s.procs[s.spin.p].pc.Wake? && s.procs[s.spin.p].pc.i <= p
  }

  ghost predicate LocalOk(q: Proc) {
    && (q.lock <==> q.pc.SleepDropSpin? || q.pc.SleepMark? || q.pc.SleepTidy? || (q.pc.SleepSwitched? && q.lock && q.state == SLEEPING))
    && (q.chan == ThisLock ==> q.pc.SleepSwitched? || q.pc.SleepTidy?)
    && (q.state != RUNNING ==> MayYield(q.pc) || q.pc.SleepSwitched?)
    && (q.pc.SleepSwitched? ==> q.state != RUNNING && q.chan == ThisLock)
    && (q.state == SLEEPING && !q.pc.SleepSwitched? ==> q.chan == Elsewhere)
  }

  ghost predicate ProcOk(s: System, p: nat)
    requires p < |s.procs|
  {
    var q := s.procs[p];
    && LocalOk(q)
    && (InSpin(q.pc) <==> s.spin == By(p))
    && (Owns(q.pc) <==> s.pid == By(p))
    && (q.pc.Take? ==> !s.locked)
    && (q.pc.SleepTakeProc? || q.pc.SleepDropSpin? ==> s.locked)
    && (Waiting(q) ==> s.locked || WakeComing(s, p))
  }

  ghost predicate Inv(s: System) {
    && (s.spin.By? ==> s.spin.p < |s.procs|)
    && (s.locked <==> s.pid.By?) && (s.pid.By? ==> s.pid.p < |s.procs|)
    && forall p | 0 <= p < |s.procs| :: ProcOk(s, p)
  }

  lemma InitInv(s: System)
    requires Init(s)
    ensures Inv(s)
  {
  }

  lemma EnvironmentKeeps(s: System, a: Action, x: nat)
    requires Enabled(s, a) && !a.Advance? && x < |s.procs|
    requires ProcOk(s, x) && ProcOk(s, a.p)
    ensures ProcOk(Apply(s, a), x)
  {
  }

  lemma EnvironmentInv(s: System, a: Action)
    requires Inv(s) && Enabled(s, a) && !a.Advance?
    ensures Inv(Apply(s, a))
  {
    hide ProcOk;
    forall x | 0 <= x < |s.procs| ensures ProcOk(Apply(s, a), x) {
      assert ProcOk(s, x) && ProcOk(s, a.p);
      EnvironmentKeeps(s, a, x);
    }
  }

  lemma StepKeepsSelf(s: System, p: nat)
    requires Enabled(s, Advance(p)) && ProcOk(s, p) && Inv(s)
    ensures ProcOk(Step(s, p), p)
  {
  }

  lemma StepKeepsOther(s: System, p: nat, x: nat)
    requires Enabled(s, Advance(p)) && x < |s.procs| && x != p
    requires ProcOk(s, p) && ProcOk(s, x) && (s.locked <==> s.pid.By?)
    ensures ProcOk(Step(s, p), x)
  {
  }

  lemma StepInv(s: System, p: nat)
    requires Inv(s) && Enabled(s, Advance(p))
    ensures Inv(Step(s, p))
  {
    forall x | 0 <= x < |s.procs| ensures ProcOk(Step(s, p), x) {
      assert ProcOk(s, x) && ProcOk(s, p);
      if x == p {
        StepKeepsSelf(s, p);
      } else {
        StepKeepsOther(s, p, x);
      }
    }
  }

  lemma {:induction false} RunInv(s: System, actions: seq<Action>, s': System)
    requires Init(s) && Run(s, actions, s')
    ensures Inv(s')
    decreases |actions|
  {
    if actions == [] {
      InitInv(s);
    } else {
      var n := |actions| - 1;
      var m :| Run(s, actions[..n], m) && Enabled(m, actions[n]) && s' == Apply(m, actions[n]);
      RunInv(s, actions[..n], m);
      if actions[n].Advance? {
        StepInv(m, actions[n].p);
      } else {
        EnvironmentInv(m, actions[n]);
      }
    }
  }

  /** No wakeup is lost: in every reachable state in which the inner spinlock
      is free and the sleeplock is not held, no process sleeps on it. */
  lemma NoLostWakeup(s: System, actions: seq<Action>, s': System, p: nat)
    requires Init(s) && Run(s, actions, s') && p < |s'.procs|
    requires s'.spin == Free && !s'.locked
    ensures !(s'.procs[p].state == SLEEPING && s'.procs[p].chan == ThisLock)
  {
    RunInv(s, actions, s');
    assert ProcOk(s', p);
  }

  /** At most one process holds the sleeplock, and lk->pid names it. */
  lemma MutualExclusion(s: System, actions: seq<Action>, s': System, p: nat)
    requires Init(s) && Run(s, actions, s') && p < |s'.procs|
    requires s'.procs[p].pc == Holding
    ensures s'.locked && s'.pid == By(p)
    ensures forall q | 0 <= q < |s'.procs| && q != p :: s'.procs[q].pc != Holding
  {
    RunInv(s, actions, s');
    assert ProcOk(s', p);
    forall q | 0 <= q < |s'.procs| && q != p ensures s'.procs[q].pc != Holding {
      assert ProcOk(s', q);
    }
  }

  /** The protocol does not deadlock on p->lock: the holder of the spinlock can
      always go on, or is in wakeup waiting for the p->lock of a process that
      can itself go on and is about to release it. */
  lemma SpinHolderProgresses(s: System, actions: seq<Action>, s': System) returns (a: Action)
    requires Init(s) && Run(s, actions, s') && s'.spin.By?
    ensures Enabled(s', a)
    ensures s'.spin.p < |s'.procs|
    ensures a == Advance(s'.spin.p) ||
            (s'.procs[a.p].lock && s'.procs[s'.spin.p].pc == Wake(a.p) && (a.SwitchedOut? || a.Advance?))
  {
    RunInv(s, actions, s');
    var w := s'.spin.p;
    assert ProcOk(s', w);
    a := Advance(w);
    if !Enabled(s', a) {
      var i := s'.procs[w].pc.i;
      assert ProcOk(s', i);
      a := if s'.procs[i].pc.SleepSwitched? then SwitchedOut(i) else Advance(i);
    }
  }

  // Who changes what.

  predicate InAcquire(pc: Pc) {
    || pc.AcquireSpin? || pc.TestLocked? || pc.SleepTakeProc? || pc.SleepDropSpin? || pc.SleepMark? || pc.SleepSwitched?
    || pc.SleepTidy? || pc.Take? || pc.AcquireDone?
  }

  predicate InRelease(pc: Pc) {
    pc.ReleaseSpin? || pc.Clear? || pc.Wake? || pc.ReleaseDone?
  }

  /** acquiresleep is left only with the lock and releasesleep only without it;
      a process goes to sleep only while the lock is taken. */
  ghost predicate PcExplained(s: System, a: Action, s': System, c: nat)
    requires c < |s.procs| == |s'.procs|
  {
    var x, y := s.procs[c].pc, s'.procs[c].pc;
    && (InAcquire(x) ==> InAcquire(y) || y.Holding?)
    && (InRelease(x) ==> InRelease(y) || y.Outside?)
    && (x.Outside? ==> y.Outside? || y.AcquireSpin?)
    && (x.Holding? ==> y.Holding? || y.ReleaseSpin?)
    && (y.Holding? && !x.Holding? <==> a == Advance(c) && x.AcquireDone?)
    && (y.Outside? && !x.Outside? <==> a == Advance(c) && x.ReleaseDone?)
    && (y.Take? && !x.Take? <==> a == Advance(c) && x.TestLocked? && !s.locked)
    && (y.SleepTakeProc? && !x.SleepTakeProc? <==> a == Advance(c) && x.TestLocked? && s.locked)
  }

  /** The lock changes hands only by the process that takes or clears it. */
  ghost predicate LockExplained(s: System, a: Action, s': System, c: nat)
    requires c < |s.procs|
  {
    && (s.pid != By(c) && s'.pid == By(c) <==> a == Advance(c) && s.procs[c].pc.Take?)
    && (s.pid == By(c) && s'.pid != By(c) <==> a == Advance(c) && s.procs[c].pc.Clear?)
    && (s.pid == By(c) && s'.pid != By(c) ==> s'.pid == Free)
  }

  predicate Cause(s: System, a: Action, c: nat, from: State, to: State)
    requires c < |s.procs|
  {
    match (from, to)
    case (RUNNABLE, RUNNING) => a == Schedule(c)
    case (RUNNING, RUNNABLE) => a == Preempt(c)
    case (RUNNING, SLEEPING) => a == SleepElsewhere(c) || (a == Advance(c) && s.procs[c].pc == SleepMark)
    case (SLEEPING, RUNNABLE) =>
      || a == Kill(c) || (a == WakeElsewhere(c) && s.procs[c].chan == Elsewhere)
      || (a.Advance? && a.p < |s.procs| && a.p != c && s.procs[a.p].pc == Wake(c) && s.procs[c].chan == ThisLock)
    case _ => false
  }

  ghost predicate StateExplained(s: System, a: Action, s': System, c: nat)
    requires c < |s.procs| == |s'.procs|
  {
    forall to: State | to != s.procs[c].state :: s'.procs[c].state == to <==> Cause(s, a, c, s.procs[c].state, to)
  }

  /** How far a call still has to go: its stages, and in wakeup the entries of
      the process table. */
  function Rank(pc: Pc, n: nat): (nat, nat) {
    match pc
    case SleepTidy => (7, 0)
    case AcquireSpin => (6, 0)
    case TestLocked => (5, 0)
    case SleepTakeProc => (4, 0)
    case SleepDropSpin => (3, 0)
    case SleepMark => (2, 0)
    case SleepSwitched => (1, 0)
    case Take => (4, 0)
    case AcquireDone => (3, 0)
    case ReleaseSpin => (5, 0)
    case Clear => (4, 0)
    case Wake(i) => (3, if i < n then n - i else 0)
    case ReleaseDone => (2, 0)
    case Outside => (0, 0)
    case Holding => (0, 0)
  }

  /** A process is moved by its own actions alone; a call starts at its first
      step, and every step brings it closer to the end, or to sleep. */
  ghost predicate MovesOn(s: System, a: Action, s': System, c: nat)
    requires c < |s.procs| == |s'.procs|
  {
    var x, y, n := s.procs[c].pc, s'.procs[c].pc, |s.procs|;
    && (y != x ==> a.p == c)
    && (a == Advance(c) && x.Outside? ==> y.AcquireSpin?) && (a == Advance(c) && x.Holding? ==> y.ReleaseSpin?)
    && (a == Advance(c) && (InAcquire(x) || InRelease(x)) ==>
          Rank(y, n).0 < Rank(x, n).0 || (Rank(y, n).0 == Rank(x, n).0 && Rank(y, n).1 < Rank(x, n).1))
  }

  predicate TakesLock(s: System, a: Action, c: nat)
    requires c < |s.procs|
  {
    (a == Advance(c) && s.procs[c].pc.SleepTakeProc?) || (a == Schedule(c) && s.procs[c].pc.SleepSwitched?)
  }

  predicate DropsLock(s: System, a: Action, c: nat)
    requires c < |s.procs|
  {
    (a == Advance(c) && s.procs[c].pc.SleepTidy?) || a == SwitchedOut(c)
  }

  /** p->lock, and what a process sleeps on. */
  ghost predicate HeldExplained(s: System, a: Action, s': System, c: nat)
    requires c < |s.procs| == |s'.procs|
  {
    var x, y := s.procs[c], s'.procs[c];
    && y.lock == (if TakesLock(s, a, c) then true else if DropsLock(s, a, c) then false else x.lock)
    && (TakesLock(s, a, c) ==> !x.lock) && (DropsLock(s, a, c) ==> x.lock)
    && y.chan == (if a == Advance(c) && x.pc.SleepMark? then ThisLock
                  else if a == SleepElsewhere(c) then Elsewhere
                  else if (a == Advance(c) && x.pc.SleepTidy?) || (a == Schedule(c) && !x.pc.SleepSwitched?) then NoChan
                  else x.chan)
  }

  lemma StepMoves(s: System, a: Action, c: nat)
    requires Enabled(s, a) && a.Advance? && c < |s.procs| && ProcOk(s, c) && ProcOk(s, a.p)
    ensures |Apply(s, a).procs| == |s.procs| && PcExplained(s, a, Apply(s, a), c)
  {
  }

  lemma StepLock(s: System, a: Action, c: nat)
    requires Enabled(s, a) && a.Advance? && c < |s.procs| && ProcOk(s, c) && ProcOk(s, a.p)
    requires s.locked <==> s.pid.By?
    ensures |Apply(s, a).procs| == |s.procs| && LockExplained(s, a, Apply(s, a), c)
  {
  }

  lemma StepState(s: System, a: Action, c: nat)
    requires Enabled(s, a) && a.Advance? && c < |s.procs| && ProcOk(s, c) && ProcOk(s, a.p)
    ensures |Apply(s, a).procs| == |s.procs| && StateExplained(s, a, Apply(s, a), c)
  {
  }

  lemma StepHolds(s: System, a: Action, c: nat)
    requires Enabled(s, a) && a.Advance? && c < |s.procs| && ProcOk(s, c) && ProcOk(s, a.p)
    ensures |Apply(s, a).procs| == |s.procs| && HeldExplained(s, a, Apply(s, a), c)
  {
  }

  lemma StepOnward(s: System, a: Action, c: nat)
    requires Enabled(s, a) && a.Advance? && c < |s.procs| && ProcOk(s, c) && ProcOk(s, a.p)
    ensures |Apply(s, a).procs| == |s.procs| && MovesOn(s, a, Apply(s, a), c)
  {
  }

  lemma EnvironmentMoves(s: System, a: Action, c: nat)
    requires Enabled(s, a) && !a.Advance? && c < |s.procs| && ProcOk(s, c) && ProcOk(s, a.p)
    ensures |Apply(s, a).procs| == |s.procs| && PcExplained(s, a, Apply(s, a), c)
  {
  }

  lemma EnvironmentLock(s: System, a: Action, c: nat)
    requires Enabled(s, a) && !a.Advance? && c < |s.procs| && ProcOk(s, c) && ProcOk(s, a.p)
    ensures |Apply(s, a).procs| == |s.procs| && LockExplained(s, a, Apply(s, a), c)
  {
  }

  lemma EnvironmentState(s: System, a: Action, c: nat)
    requires Enabled(s, a) && !a.Advance? && c < |s.procs| && ProcOk(s, c) && ProcOk(s, a.p)
    ensures |Apply(s, a).procs| == |s.procs| && StateExplained(s, a, Apply(s, a), c)
  {
  }

  lemma EnvironmentHolds(s: System, a: Action, c: nat)
    requires Enabled(s, a) && !a.Advance? && c < |s.procs| && ProcOk(s, c) && ProcOk(s, a.p)
    ensures |Apply(s, a).procs| == |s.procs| && HeldExplained(s, a, Apply(s, a), c)
  {
  }

  lemma EnvironmentOnward(s: System, a: Action, c: nat)
    requires Enabled(s, a) && !a.Advance? && c < |s.procs| && ProcOk(s, c) && ProcOk(s, a.p)
    ensures |Apply(s, a).procs| == |s.procs| && MovesOn(s, a, Apply(s, a), c)
  {
  }

  /** In every reachable state and for every action, where a process is, its
      state, its p->lock and channel, and the holder of the lock change exactly for the causes above. */
  lemma ProcessChanges(s: System, actions: seq<Action>, s': System, a: Action, c: nat)
    requires Init(s) && Run(s, actions, s') && Enabled(s', a) && c < |s'.procs|
    ensures |Apply(s', a).procs| == |s'.procs|
    ensures PcExplained(s', a, Apply(s', a), c)
    ensures LockExplained(s', a, Apply(s', a), c)
    ensures StateExplained(s', a, Apply(s', a), c)
    ensures HeldExplained(s', a, Apply(s', a), c)
    ensures MovesOn(s', a, Apply(s', a), c)
  {
    hide Run;
    RunInv(s, actions, s');
    assert ProcOk(s', c) && ProcOk(s', a.p);
    hide ProcOk, PcExplained, LockExplained, StateExplained, HeldExplained, MovesOn;
    if a.Advance? {
      StepMoves(s', a, c);
      StepLock(s', a, c);
      StepState(s', a, c);
      StepHolds(s', a, c);
      StepOnward(s', a, c);
    } else {
      EnvironmentMoves(s', a, c);
      EnvironmentLock(s', a, c);
      EnvironmentState(s', a, c);
      EnvironmentHolds(s', a, c);
      EnvironmentOnward(s', a, c);
    }
  }

  /** While the spinlock is free, every process that runs can go on. */
  lemma RunnerProgresses(s: System, actions: seq<Action>, s': System, p: nat)
    requires Init(s) && Run(s, actions, s') && s'.spin == Free && p < |s'.procs| && s'.procs[p].state == RUNNING
    ensures Enabled(s', Advance(p)) && Apply(s', Advance(p)).procs[p].pc != s'.procs[p].pc
  {
    hide Run;
    RunInv(s, actions, s');
    assert ProcOk(s', p);
  }

  /** Only a process on a CPU executes; and only there, with its p->lock free,
      it yields, or sleeps elsewhere, which it does while outside of the calls. */
  lemma WhoRuns(s: System, actions: seq<Action>, s': System, a: Action)
    requires Init(s) && Run(s, actions, s') && a.p < |s'.procs|
    ensures Enabled(s', a) && (a.Advance? || a.Preempt? || a.SleepElsewhere?) ==> s'.procs[a.p].state == RUNNING
    ensures s'.procs[a.p].state == RUNNING && (s'.procs[a.p].pc.Outside? || s'.procs[a.p].pc.Holding?) ==>
              Enabled(s', Preempt(a.p)) && Enabled(s', SleepElsewhere(a.p)) && Enabled(s', Kill(a.p))
    ensures s'.procs[a.p].state == SLEEPING && !s'.procs[a.p].pc.SleepSwitched? ==> Enabled(s', WakeElsewhere(a.p))
  {
    hide Run;
    RunInv(s, actions, s');
    assert ProcOk(s', a.p);
  }
}
