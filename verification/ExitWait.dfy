/** kfork, kexit, reparent and kwait of kernel/proc.c, as interleaved steps of
    any number of processes over one process table.

    wait_lock is an explicit lock.  A section that holds some p->lock and
    performs no other lock operation is one step, enabled only while that
    p->lock is free; kfork, sleep and kexit hold a p->lock across steps. */
module ExitWait {

  datatype State = UNUSED | USED | SLEEPING | RUNNABLE | RUNNING | ZOMBIE

  /** kwait sleeps on the caller's own table entry. */
  datatype Chan = NoChan | OwnEntry | Elsewhere

  datatype Pc =
    | Gone                         // not executing: free, being made, or reaped
    | User                         // anywhere but in the code below
    // kfork, making entry k
    | ForkCopy(k: nat)             // holding np->lock: uvmcopy, or fail
    | ForkLock(k: nat)             // acquire(&wait_lock)
    | ForkParent(k: nat)           // np->parent = p
    | ForkUnlock(k: nat)           // release(&wait_lock)
    | ForkStart(k: nat)            // np->state = RUNNABLE
    // kexit
    | ExitLock                     // acquire(&wait_lock)
    | ExitReparent(i: nat)         // reparent: at table entry i
    | ExitWakeInit(i: nat, j: nat) //   wakeup(initproc): at table entry j
    | ExitWake(t: nat, j: nat)     // wakeup(p->parent): at table entry j
    | ExitTake                     // acquire(&p->lock)
    | ExitZombie                   // p->state = ZOMBIE
    | ExitUnlock                   // release(&wait_lock)
    | ExitSwitch                   // sched(), still holding p->lock
    // kwait
    | WaitLock                     // acquire(&wait_lock)
    | WaitScan(i: nat, kids: bool) // table scan: at entry i
    | WaitUnlock                   // release(&wait_lock); return
    | SleepTake                    // sleep(p, &wait_lock): acquire(&p->lock)
    | SleepDrop                    //   release(&wait_lock)
    | SleepMark                    //   p->chan = p; p->state = SLEEPING
    | SleepSwitched                //   in sched()
    | SleepTidy                    //   p->chan = 0; release(&p->lock)

  datatype Link = Nobody | Child(p: nat)

  /** maker is the process whose kfork allocated the entry. */
  datatype Proc = Proc(state: State, pc: Pc, chan: Chan, parent: Link, lock: bool, maker: nat)

  datatype Holder = Free | By(p: nat)

  datatype System = System(waitLock: Holder, procs: seq<Proc>)

  const INIT: nat := 0

  datatype Action =
    | Fork(p: nat, k: nat)
    | Exit(p: nat)
    | Wait(p: nat)
    | ForkFails(p: nat)
    | CopyoutFails(p: nat)
    | WaitKilled(p: nat)
    | Advance(p: nat)
    | Schedule(p: nat)
    | SwitchedOut(p: nat)
    | Preempt(p: nat)
    | Kill(p: nat)
    | SleepElsewhere(p: nat)
    | WakeElsewhere(p: nat)

  ghost predicate Init(s: System) {
    && |s.procs| > INIT && s.waitLock == Free
    && (forall p | 0 <= p < |s.procs| && p != INIT :: s.procs[p] == Proc(UNUSED, Gone, NoChan, Nobody, false, 0))
    && s.procs[INIT] == Proc(RUNNING, User, NoChan, Nobody, false, 0)
  }

  predicate MayYield(pc: Pc) {
    pc.User? || pc.ForkLock? || pc.ForkStart? || pc.ExitLock? || pc.WaitLock?
  }

  predicate ForkPc(pc: Pc) {
    pc.ForkCopy? || pc.ForkLock? || pc.ForkParent? || pc.ForkUnlock? || pc.ForkStart?
  }

  predicate ReparentPc(pc: Pc) {
    pc.ExitReparent? || pc.ExitWakeInit?
  }

  predicate ExitPc(pc: Pc) {
    pc.ExitLock? || pc.ExitWake? || pc.ExitTake? || pc.ExitZombie? || pc.ExitUnlock?
  }

  predicate WaitPc(pc: Pc) {
    pc.WaitLock? || pc.WaitScan? || pc.WaitUnlock? || pc.SleepTake? || pc.SleepDrop? || pc.SleepMark? || pc.SleepTidy?
  }

  predicate Enabled(s: System, a: Action) {
    && a.p < |s.procs|
    && var x := s.procs[a.p];
       && (ForkPc(x.pc) ==> x.pc.k < |s.procs|)
       && match a
       case Fork(p, k) => x.state == RUNNING && x.pc.User? && k < |s.procs| && s.procs[k].state == UNUSED && !s.procs[k].lock
       case Exit(p) => x.state == RUNNING && x.pc.User? && p != INIT
       case Wait(p) => x.state == RUNNING && x.pc.User?
       case ForkFails(p) => x.state == RUNNING && x.pc.ForkCopy?
       case CopyoutFails(p) => x.state == RUNNING && x.pc.WaitScan? && MayReap(s, p, x.pc.i)
       case WaitKilled(p) => x.state == RUNNING && x.pc.WaitScan? && x.pc.i >= |s.procs|
       case Advance(p) =>
         && (x.state == RUNNING || x.pc.ExitUnlock?)
         && (ForkPc(x.pc) || ReparentPc(x.pc) || ExitPc(x.pc) || WaitPc(x.pc))
         && (x.pc.ForkLock? || x.pc.ExitLock? || x.pc.WaitLock? ==> s.waitLock == Free)
         && (x.pc.ForkStart? ==> Unlocked(s, x.pc.k))
         && (x.pc.ExitTake? || x.pc.SleepTake? ==> !x.lock)
         && (x.pc.ExitWakeInit? || x.pc.ExitWake? ==> x.pc.j == p || Unlocked(s, x.pc.j))
         && (x.pc.WaitScan? && x.pc.i < |s.procs| && s.procs[x.pc.i].parent == Child(p) ==> Unlocked(s, x.pc.i))
       case Schedule(p) => x.state == RUNNABLE && !x.lock
       case SwitchedOut(p) => (x.pc.SleepSwitched? || x.pc.ExitSwitch?) && x.lock
       case Preempt(p) => x.state == RUNNING && !x.lock && MayYield(x.pc)
       case Kill(p) => !x.lock
       case SleepElsewhere(p) => x.state == RUNNING && !x.lock && x.pc.User?
       case WakeElsewhere(p) => x.state == SLEEPING && !x.lock && x.chan == Elsewhere
  }

  predicate Unlocked(s: System, k: nat) {
    k < |s.procs| ==> !s.procs[k].lock
  }

  predicate MayReap(s: System, p: nat, i: nat) {
    i < |s.procs| && s.procs[i].parent == Child(p) && !s.procs[i].lock && s.procs[i].state == ZOMBIE
  }

  /** What an action changes: wait_lock, entry k and then the actor's entry. */
  datatype Effect = Effect(waitLock: Holder, k: nat, other: Proc, me: Proc)

  function After(s: System, p: nat, e: Effect): System
    requires p < |s.procs| && e.k < |s.procs|
  {
    System(e.waitLock, s.procs[e.k := e.other][p := e.me])
  }

  function Alone(s: System, p: nat, me: Proc): Effect {
    Effect(s.waitLock, p, me, me)
  }

  function FreeProc(x: Proc): Proc {
    x.(state := UNUSED, pc := Gone, chan := NoChan, parent := Nobody, lock := false)
  }

  /** The body of wakeup(&proc[t]) for entry j, by process p going to pc. */
  function WakeEntry(s: System, p: nat, t: nat, j: nat, pc: Pc): Effect
    requires p < |s.procs| && j < |s.procs|
  {
    var y, me := s.procs[j], s.procs[p].(pc := pc);
    if j != p && j == t && y.state == SLEEPING && y.chan == OwnEntry
    then Effect(s.waitLock, j, y.(state := RUNNABLE), me) else Alone(s, p, me)
  }

  function ForkStep(s: System, p: nat): Effect
    requires p < |s.procs| && ForkPc(s.procs[p].pc) && s.procs[p].pc.k < |s.procs|
  {
    var x, k := s.procs[p], s.procs[p].pc.k;
    var y := s.procs[k];
    match x.pc
    case ForkCopy(_) => Effect(s.waitLock, k, y.(lock := false), x.(pc := ForkLock(k)))
    case ForkLock(_) => Effect(By(p), k, y, x.(pc := ForkParent(k)))
    case ForkParent(_) => Effect(s.waitLock, k, y.(parent := Child(p)), x.(pc := ForkUnlock(k)))
    case ForkUnlock(_) => Effect(Free, k, y, x.(pc := ForkStart(k)))
    case ForkStart(_) => Effect(s.waitLock, k, y.(state := RUNNABLE, pc := User), x.(pc := User))
  }

  function ReparentStep(s: System, p: nat): Effect
    requires p < |s.procs| && ReparentPc(s.procs[p].pc)
  {
    var x := s.procs[p];
    match x.pc
    case ExitReparent(i) =>
      if i >= |s.procs| then Alone(s, p, x.(pc := if x.parent.Child? then ExitWake(x.parent.p, 0) else ExitTake))
      else if s.procs[i].parent == Child(p)
      then Effect(s.waitLock, i, s.procs[i].(parent := Child(INIT)), x.(pc := ExitWakeInit(i, 0)))
      else Alone(s, p, x.(pc := ExitReparent(i + 1)))
    case ExitWakeInit(i, j) =>
      if j >= |s.procs| then Alone(s, p, x.(pc := ExitReparent(i + 1)))
      else WakeEntry(s, p, INIT, j, ExitWakeInit(i, j + 1))
  }

  function ExitStep(s: System, p: nat): Effect
    requires p < |s.procs| && ExitPc(s.procs[p].pc)
  {
    var x := s.procs[p];
    match x.pc
    case ExitLock => Effect(By(p), p, x, x.(pc := ExitReparent(0)))
    case ExitWake(t, j) =>
      if j >= |s.procs| then Alone(s, p, x.(pc := ExitTake))
      else WakeEntry(s, p, t, j, ExitWake(t, j + 1))
    case ExitTake => Alone(s, p, x.(pc := ExitZombie, lock := true))
    case ExitZombie => Alone(s, p, x.(pc := ExitUnlock, state := ZOMBIE))
    case ExitUnlock => Effect(Free, p, x, x.(pc := ExitSwitch))
  }

  function WaitStep(s: System, p: nat): Effect
    requires p < |s.procs| && WaitPc(s.procs[p].pc)
  {
    var x := s.procs[p];
    match x.pc
    case WaitLock => Effect(By(p), p, x, x.(pc := WaitScan(0, false)))
    case WaitScan(i, kids) =>
      if i >= |s.procs| then Alone(s, p, x.(pc := if kids then SleepTake else WaitUnlock))
      else if s.procs[i].parent != Child(p) then Alone(s, p, x.(pc := WaitScan(i + 1, kids)))
      else if s.procs[i].state == ZOMBIE then Effect(s.waitLock, i, FreeProc(s.procs[i]), x.(pc := WaitUnlock))
      else Alone(s, p, x.(pc := WaitScan(i + 1, true)))
    case WaitUnlock => Effect(Free, p, x, x.(pc := User))
    case SleepTake => Alone(s, p, x.(pc := SleepDrop, lock := true))
    case SleepDrop => Effect(Free, p, x, x.(pc := SleepMark))
    case SleepMark => Alone(s, p, x.(pc := SleepSwitched, chan := OwnEntry, state := SLEEPING))
    case SleepTidy => Alone(s, p, x.(pc := WaitLock, chan := NoChan, lock := false))
  }

  /** System calls and their failures. */
  function CallStep(s: System, a: Action): Effect
    requires a.p < |s.procs| && IsCall(a) && (a.Fork? ==> a.k < |s.procs|)
    requires a.ForkFails? ==> s.procs[a.p].pc.ForkCopy? && s.procs[a.p].pc.k < |s.procs|
  {
    var p, x := a.p, s.procs[a.p];
    match a
    case Fork(_, k) => Effect(s.waitLock, k, s.procs[k].(state := USED, lock := true, maker := p), x.(pc := ForkCopy(k)))
    case Exit(_) => Alone(s, p, x.(pc := ExitLock))
    case Wait(_) => Alone(s, p, x.(pc := WaitLock))
    case ForkFails(_) => Effect(s.waitLock, x.pc.k, FreeProc(s.procs[x.pc.k]), x.(pc := User))
    case CopyoutFails(_) => Alone(s, p, x.(pc := WaitUnlock))
    case WaitKilled(_) => Alone(s, p, x.(pc := WaitUnlock))
  }

  /** What the scheduler, kkill and sleeping on other channels do to entry p. */
  function SchedStep(s: System, a: Action): Proc
    requires a.p < |s.procs| && !IsCall(a) && !a.Advance?
  {
    var x := s.procs[a.p];
    match a
    case Schedule(_) =>
      if x.pc.SleepSwitched? then x.(state := RUNNING, pc := SleepTidy, lock := true)
      else x.(state := RUNNING, chan := NoChan)
    case SwitchedOut(_) => if x.pc.ExitSwitch? then x.(lock := false, pc := Gone) else x.(lock := false)
    case Preempt(_) => x.(state := RUNNABLE)
    case Kill(_) => if x.state == SLEEPING then x.(state := RUNNABLE) else x
    case SleepElsewhere(_) => x.(state := SLEEPING, chan := Elsewhere)
    case WakeElsewhere(_) => x.(state := RUNNABLE)
  }

  predicate IsCall(a: Action) {
    a.Fork? || a.Exit? || a.Wait? || a.ForkFails? || a.CopyoutFails? || a.WaitKilled?
  }

  function Apply(s: System, a: Action): System
    requires Enabled(s, a)
  {
    After(s, a.p,
      if IsCall(a) then CallStep(s, a)
      else if !a.Advance? then Alone(s, a.p, SchedStep(s, a))
      else if ForkPc(s.procs[a.p].pc) then ForkStep(s, a.p)
      else if ReparentPc(s.procs[a.p].pc) then ReparentStep(s, a.p)
      else if ExitPc(s.procs[a.p].pc) then ExitStep(s, a.p)
      else WaitStep(s, a.p))
  }

  ghost predicate Run(s: System, actions: seq<Action>, s': System) {
    if actions == [] then s == s' else
      var n := |actions| - 1;
      exists m :: Run(s, actions[..n], m) && Enabled(m, actions[n]) && s' == Apply(m, actions[n])
  }

  // The invariant.

  predicate Live(st: State) {
    st.SLEEPING? || st.RUNNABLE? || st.RUNNING?
  }

  predicate HoldsWait(pc: Pc) {
    pc.ForkParent? || pc.ForkUnlock? || pc.ExitReparent? || pc.ExitWakeInit? || pc.ExitWake? || pc.ExitTake? || pc.ExitZombie?
    || pc.ExitUnlock? || pc.WaitScan? || pc.WaitUnlock? || pc.SleepTake? || pc.SleepDrop?
  }

  predicate Exiting(pc: Pc) {
    pc.ExitLock? || pc.ExitReparent? || pc.ExitWakeInit? || pc.ExitWake? || pc.ExitTake? || pc.ExitZombie?
  }

  /** Past reparent: has given all children away. */
  predicate Childless(pc: Pc) {
    pc.ExitWake? || pc.ExitTake? || pc.ExitZombie? || pc.ExitUnlock? || pc.ExitSwitch? || pc.Gone?
  }

  /** Committed to sleeping in kwait, and not woken since. */
  predicate Waiting(x: Proc) {
    x.pc.SleepTake? || x.pc.SleepDrop? || x.pc.SleepMark? || (x.pc.SleepSwitched? && x.state == SLEEPING)
  }

  /** A process in reparent is about to wake init. */
  predicate InitWakeComing(s: System, q: nat) {
    && q == INIT && s.waitLock.By? && s.waitLock.p < |s.procs|
    && s.procs[s.waitLock.p].pc.ExitWakeInit? && s.procs[s.waitLock.p].pc.j <= q
  }

  ghost predicate LocalOk(x: Proc) {
    && (x.pc.SleepDrop? || x.pc.SleepMark? || x.pc.SleepTidy? || x.pc.ExitZombie? || x.pc.ExitUnlock? || x.pc.ExitSwitch? ==> x.lock)
    && (x.lock ==> x.pc.SleepDrop? || x.pc.SleepMark? || x.pc.SleepTidy? || x.pc.ExitZombie? || x.pc.ExitUnlock? || x.pc.ExitSwitch?
                   || (x.pc.SleepSwitched? && x.state == SLEEPING) || x.state == USED)
    && (x.state == ZOMBIE <==> x.pc.ExitUnlock? || x.pc.ExitSwitch? || (x.pc.Gone? && x.state != UNUSED && x.state != USED))
    && (x.state == UNUSED || x.state == USED ==> x.pc.Gone?)
    && (x.state == UNUSED ==> x.parent == Nobody && !x.lock)
    && (x.pc.Gone? ==> !Live(x.state))
    && (x.state == SLEEPING || x.state == RUNNABLE ==> MayYield(x.pc) || x.pc.SleepSwitched?)
    && (x.chan == OwnEntry ==> x.pc.SleepSwitched? || x.pc.SleepTidy?)
    && (x.pc.SleepSwitched? ==> x.chan == OwnEntry && x.state != RUNNING && Live(x.state))
  }

  ghost predicate LockOk(s: System, c: nat)
    requires c < |s.procs|
  {
    HoldsWait(s.procs[c].pc) <==> s.waitLock == By(c)
  }

  ghost predicate Tame(s: System, c: nat)
    requires c < |s.procs|
  {
    LocalOk(s.procs[c]) && LockOk(s, c)
  }

  /** The entry k that a process in kfork is making. */
  ghost predicate ForkOk(s: System, p: nat)
    requires p < |s.procs|
  {
    var pc := s.procs[p].pc;
    ForkPc(pc) ==>
      && pc.k < |s.procs| && pc.k != p && pc.k != INIT
      && var y := s.procs[pc.k];
         && y.state == USED && y.maker == p
         && (y.lock <==> pc.ForkCopy?)
         && y.parent == if pc.ForkUnlock? || pc.ForkStart? then Child(p) else Nobody
  }

  /** Every started process but init has a parent that is alive and has not
      given its children away. */
  ghost predicate ParentOk(s: System, c: nat)
    requires c < |s.procs|
  {
    var x := s.procs[c];
    && (c == INIT ==> x.parent == Nobody)
    && (c != INIT && (Live(x.state) || x.state == ZOMBIE) ==> x.parent.Child?)
    && (x.parent.Child? ==>
          && x.parent.p < |s.procs| && x.parent.p != c
          && var y := s.procs[x.parent.p];
             && Live(y.state) && !Childless(y.pc)
             && (y.pc.ExitReparent? ==> y.pc.i <= c)
             && (y.pc.ExitWakeInit? ==> y.pc.i < c))
  }

  /** What a parent in kwait knows of its child c. */
  ghost predicate ChildSeen(s: System, c: nat)
    requires c < |s.procs|
  {
    var x := s.procs[c];
    x.parent.Child? && x.parent.p < |s.procs| ==>
      var y := s.procs[x.parent.p];
      && (y.pc.WaitScan? && c < y.pc.i ==> y.pc.kids && x.state != ZOMBIE)
      && (y.pc.SleepTake? || y.pc.SleepDrop? ==> x.state != ZOMBIE)
      && (Waiting(y) && x.state == ZOMBIE ==> InitWakeComing(s, x.parent.p))
  }

  /** A process past its wakeup(p->parent) has a parent that is not waiting. */
  ghost predicate ExitOk(s: System, c: nat)
    requires c < |s.procs|
  {
    var x := s.procs[c];
    && (Exiting(x.pc) ==> c != INIT)
    && (x.pc.ExitWake? ==>
          x.parent == Child(x.pc.t) && x.pc.t < |s.procs| && (x.pc.t < x.pc.j ==> !Waiting(s.procs[x.pc.t])))
    && (x.pc.ExitTake? || x.pc.ExitZombie? || x.pc.ExitUnlock? ==>
          x.parent.Child? && x.parent.p < |s.procs| && !Waiting(s.procs[x.parent.p]))
  }

  ghost predicate ProcOk(s: System, c: nat)
    requires c < |s.procs|
  {
    && Tame(s, c) && ForkOk(s, c) && ParentOk(s, c) && ChildSeen(s, c) && ExitOk(s, c)
  }

  ghost predicate Inv(s: System) {
    && |s.procs| > INIT && Live(s.procs[INIT].state)
    && (s.waitLock.By? ==> s.waitLock.p < |s.procs|)
    && forall c | 0 <= c < |s.procs| :: ProcOk(s, c)
  }

  lemma InitInv(s: System)
    requires Init(s)
    ensures Inv(s)
  {
  }

  // Preservation, one part of the invariant and one group of actions at a
  // time; c is any entry.

  lemma ForkKeepsTame(s: System, p: nat, c: nat)
    requires Enabled(s, Advance(p)) && ForkPc(s.procs[p].pc) && c < |s.procs|
    requires Tame(s, c) && Tame(s, p) && ForkOk(s, p) && ExitOk(s, p) && ParentOk(s, p)
    ensures Tame(After(s, p, ForkStep(s, p)), c)
  {
  }

  lemma ForkKeepsFork(s: System, p: nat, c: nat)
    requires Enabled(s, Advance(p)) && ForkPc(s.procs[p].pc) && c < |s.procs|
    requires ForkOk(s, c) && Tame(s, c) && Tame(s, p) && ForkOk(s, p) && ExitOk(s, p) && ParentOk(s, p)
    requires ForkPc(s.procs[c].pc) && s.procs[c].pc.k < |s.procs| ==> Tame(s, s.procs[c].pc.k)
    requires ForkPc(s.procs[p].pc) ==> Tame(s, s.procs[p].pc.k)
    ensures ForkOk(After(s, p, ForkStep(s, p)), c)
  {
  }

  lemma ForkKeepsParent(s: System, p: nat, c: nat)
    requires Enabled(s, Advance(p)) && ForkPc(s.procs[p].pc) && c < |s.procs|
    requires ParentOk(s, c) && Tame(s, c) && Tame(s, p) && ForkOk(s, p) && ExitOk(s, p) && ParentOk(s, p)
    ensures ParentOk(After(s, p, ForkStep(s, p)), c)
  {
  }

  lemma ForkKeepsSeen(s: System, p: nat, c: nat)
    requires Enabled(s, Advance(p)) && ForkPc(s.procs[p].pc) && c < |s.procs|
    requires ChildSeen(s, c) && Tame(s, c) && Tame(s, p) && ForkOk(s, p) && ExitOk(s, p) && ParentOk(s, p)
    requires s.procs[c].parent.Child? && s.procs[c].parent.p < |s.procs| ==> Tame(s, s.procs[c].parent.p)
    requires ForkPc(s.procs[p].pc) ==> Tame(s, s.procs[p].pc.k)
    ensures ChildSeen(After(s, p, ForkStep(s, p)), c)
  {
  }

  lemma ForkKeepsExit(s: System, p: nat, c: nat)
    requires Enabled(s, Advance(p)) && ForkPc(s.procs[p].pc) && c < |s.procs|
    requires ExitOk(s, c) && Tame(s, c) && Tame(s, p) && ForkOk(s, p) && ExitOk(s, p) && ParentOk(s, p)
    requires s.procs[c].parent.Child? && s.procs[c].parent.p < |s.procs| ==> Tame(s, s.procs[c].parent.p)
    requires ForkPc(s.procs[p].pc) ==> Tame(s, s.procs[p].pc.k)
    ensures ExitOk(After(s, p, ForkStep(s, p)), c)
  {
  }

  lemma ReparentKeepsTame(s: System, p: nat, c: nat)
    requires Enabled(s, Advance(p)) && ReparentPc(s.procs[p].pc) && c < |s.procs|
    requires Tame(s, c) && Tame(s, p) && ForkOk(s, p) && ExitOk(s, p) && ParentOk(s, p)
    ensures Tame(After(s, p, ReparentStep(s, p)), c)
  {
  }

  lemma ReparentKeepsFork(s: System, p: nat, c: nat)
    requires Enabled(s, Advance(p)) && ReparentPc(s.procs[p].pc) && c < |s.procs|
    requires ForkOk(s, c) && Tame(s, c) && Tame(s, p) && ForkOk(s, p) && ExitOk(s, p) && ParentOk(s, p)
    requires ForkPc(s.procs[c].pc) && s.procs[c].pc.k < |s.procs| ==> Tame(s, s.procs[c].pc.k)
    ensures ForkOk(After(s, p, ReparentStep(s, p)), c)
  {
  }

  lemma ReparentKeepsParent(s: System, p: nat, c: nat)
    requires Enabled(s, Advance(p)) && ReparentPc(s.procs[p].pc) && c < |s.procs|
    requires ParentOk(s, c) && Tame(s, c) && Tame(s, p) && ForkOk(s, p) && ExitOk(s, p) && ParentOk(s, p)
    requires |s.procs| > INIT && Tame(s, INIT) && ExitOk(s, INIT) && Live(s.procs[INIT].state)
    ensures ParentOk(After(s, p, ReparentStep(s, p)), c)
  {
  }

  lemma ReparentKeepsSeen(s: System, p: nat, c: nat)
    requires Enabled(s, Advance(p)) && ReparentPc(s.procs[p].pc) && c < |s.procs|
    requires ChildSeen(s, c) && Tame(s, c) && Tame(s, p) && ForkOk(s, p) && ExitOk(s, p) && ParentOk(s, p)
    requires |s.procs| > INIT && Tame(s, INIT) && ExitOk(s, INIT) && Live(s.procs[INIT].state)
    requires s.procs[c].parent.Child? && s.procs[c].parent.p < |s.procs| ==> Tame(s, s.procs[c].parent.p)
    ensures ChildSeen(After(s, p, ReparentStep(s, p)), c)
  {
  }

  lemma ReparentKeepsExit(s: System, p: nat, c: nat)
    requires Enabled(s, Advance(p)) && ReparentPc(s.procs[p].pc) && c < |s.procs|
    requires ExitOk(s, c) && Tame(s, c) && Tame(s, p) && ForkOk(s, p) && ExitOk(s, p) && ParentOk(s, p)
    requires s.procs[c].parent.Child? && s.procs[c].parent.p < |s.procs| ==> Tame(s, s.procs[c].parent.p)
    ensures ExitOk(After(s, p, ReparentStep(s, p)), c)
  {
  }

  lemma ExitKeepsTame(s: System, p: nat, c: nat)
    requires Enabled(s, Advance(p)) && ExitPc(s.procs[p].pc) && c < |s.procs|
    requires Tame(s, c) && Tame(s, p) && ForkOk(s, p) && ExitOk(s, p) && ParentOk(s, p)
    ensures Tame(After(s, p, ExitStep(s, p)), c)
  {
  }

  lemma ExitKeepsFork(s: System, p: nat, c: nat)
    requires Enabled(s, Advance(p)) && ExitPc(s.procs[p].pc) && c < |s.procs|
    requires ForkOk(s, c) && Tame(s, c) && Tame(s, p) && ForkOk(s, p) && ExitOk(s, p) && ParentOk(s, p)
    requires ForkPc(s.procs[c].pc) && s.procs[c].pc.k < |s.procs| ==> Tame(s, s.procs[c].pc.k)
    ensures ForkOk(After(s, p, ExitStep(s, p)), c)
  {
  }

  lemma ExitKeepsParent(s: System, p: nat, c: nat)
    requires Enabled(s, Advance(p)) && ExitPc(s.procs[p].pc) && c < |s.procs|
    requires ParentOk(s, c) && Tame(s, c) && Tame(s, p) && ForkOk(s, p) && ExitOk(s, p) && ParentOk(s, p)
    ensures ParentOk(After(s, p, ExitStep(s, p)), c)
  {
  }

  lemma ExitKeepsSeen(s: System, p: nat, c: nat)
    requires Enabled(s, Advance(p)) && ExitPc(s.procs[p].pc) && c < |s.procs|
    requires ChildSeen(s, c) && Tame(s, c) && Tame(s, p) && ForkOk(s, p) && ExitOk(s, p) && ParentOk(s, p)
    requires s.procs[c].parent.Child? && s.procs[c].parent.p < |s.procs| ==> Tame(s, s.procs[c].parent.p)
    ensures ChildSeen(After(s, p, ExitStep(s, p)), c)
  {
  }

  lemma ExitKeepsExit(s: System, p: nat, c: nat)
    requires Enabled(s, Advance(p)) && ExitPc(s.procs[p].pc) && c < |s.procs|
    requires ExitOk(s, c) && Tame(s, c) && Tame(s, p) && ForkOk(s, p) && ExitOk(s, p) && ParentOk(s, p)
    requires s.procs[c].parent.Child? && s.procs[c].parent.p < |s.procs| ==> Tame(s, s.procs[c].parent.p)
    ensures ExitOk(After(s, p, ExitStep(s, p)), c)
  {
  }

  lemma WaitKeepsTame(s: System, p: nat, c: nat)
    requires Enabled(s, Advance(p)) && WaitPc(s.procs[p].pc) && c < |s.procs|
    requires Tame(s, c) && Tame(s, p)
    ensures Tame(After(s, p, WaitStep(s, p)), c)
  {
  }

  lemma WaitKeepsFork(s: System, p: nat, c: nat)
    requires Enabled(s, Advance(p)) && WaitPc(s.procs[p].pc) && c < |s.procs|
    requires ForkOk(s, c) && Tame(s, c) && Tame(s, p)
    requires ForkPc(s.procs[c].pc) && s.procs[c].pc.k < |s.procs| ==> Tame(s, s.procs[c].pc.k)
    ensures ForkOk(After(s, p, WaitStep(s, p)), c)
  {
  }

  lemma WaitKeepsParent(s: System, p: nat, c: nat)
    requires Enabled(s, Advance(p)) && WaitPc(s.procs[p].pc) && c < |s.procs|
    requires ParentOk(s, c) && Tame(s, c) && Tame(s, p)
    ensures ParentOk(After(s, p, WaitStep(s, p)), c)
  {
  }

  lemma WaitKeepsSeen(s: System, p: nat, c: nat)
    requires Enabled(s, Advance(p)) && WaitPc(s.procs[p].pc) && c < |s.procs|
    requires ChildSeen(s, c) && Tame(s, c) && Tame(s, p)
    requires s.procs[c].parent.Child? && s.procs[c].parent.p < |s.procs| ==> Tame(s, s.procs[c].parent.p)
    ensures ChildSeen(After(s, p, WaitStep(s, p)), c)
  {
  }

  lemma WaitKeepsExit(s: System, p: nat, c: nat)
    requires Enabled(s, Advance(p)) && WaitPc(s.procs[p].pc) && c < |s.procs|
    requires ExitOk(s, c) && Tame(s, c) && Tame(s, p)
    requires s.procs[c].parent.Child? && s.procs[c].parent.p < |s.procs| ==> Tame(s, s.procs[c].parent.p)
    ensures ExitOk(After(s, p, WaitStep(s, p)), c)
  {
  }

  lemma CallKeepsTame(s: System, a: Action, c: nat)
    requires Enabled(s, a) && IsCall(a) && c < |s.procs|
    requires Tame(s, c) && Tame(s, a.p) && ForkOk(s, a.p)
    requires a.Fork? ==> Tame(s, a.k)
    ensures Tame(After(s, a.p, CallStep(s, a)), c)
  {
  }

  lemma CallKeepsFork(s: System, a: Action, c: nat)
    requires Enabled(s, a) && IsCall(a) && c < |s.procs|
    requires ForkOk(s, c) && Tame(s, c) && Tame(s, a.p) && ForkOk(s, a.p) && ExitOk(s, a.p) && ParentOk(s, a.p)
    requires |s.procs| > INIT && Tame(s, INIT) && ExitOk(s, INIT) && Live(s.procs[INIT].state)
    requires ForkPc(s.procs[c].pc) && s.procs[c].pc.k < |s.procs| ==> Tame(s, s.procs[c].pc.k)
    requires a.Fork? ==> Tame(s, a.k)
    requires ForkPc(s.procs[a.p].pc) ==> Tame(s, s.procs[a.p].pc.k)
    ensures ForkOk(After(s, a.p, CallStep(s, a)), c)
  {
  }

  lemma CallKeepsParent(s: System, a: Action, c: nat)
    requires Enabled(s, a) && IsCall(a) && c < |s.procs|
    requires ParentOk(s, c) && Tame(s, c) && Tame(s, a.p) && ForkOk(s, a.p)
    requires a.Fork? ==> Tame(s, a.k)
    ensures ParentOk(After(s, a.p, CallStep(s, a)), c)
  {
  }

  lemma CallKeepsSeen(s: System, a: Action, c: nat)
    requires Enabled(s, a) && IsCall(a) && c < |s.procs|
    requires ChildSeen(s, c) && Tame(s, c) && Tame(s, a.p) && ForkOk(s, a.p) && ExitOk(s, a.p) && ParentOk(s, a.p)
    requires s.procs[c].parent.Child? && s.procs[c].parent.p < |s.procs| ==> Tame(s, s.procs[c].parent.p)
    requires a.Fork? ==> Tame(s, a.k)
    requires ForkPc(s.procs[a.p].pc) ==> Tame(s, s.procs[a.p].pc.k)
    ensures ChildSeen(After(s, a.p, CallStep(s, a)), c)
  {
  }

  lemma CallKeepsExit(s: System, a: Action, c: nat)
    requires Enabled(s, a) && IsCall(a) && c < |s.procs|
    requires ExitOk(s, c) && Tame(s, c) && Tame(s, a.p) && ForkOk(s, a.p) && ExitOk(s, a.p) && ParentOk(s, a.p)
    requires s.procs[c].parent.Child? && s.procs[c].parent.p < |s.procs| ==> Tame(s, s.procs[c].parent.p)
    requires a.Fork? ==> Tame(s, a.k)
    requires ForkPc(s.procs[a.p].pc) ==> Tame(s, s.procs[a.p].pc.k)
    ensures ExitOk(After(s, a.p, CallStep(s, a)), c)
  {
  }

  lemma SchedKeepsTame(s: System, a: Action, c: nat)
    requires Enabled(s, a) && !IsCall(a) && !a.Advance? && c < |s.procs|
    requires Tame(s, c) && Tame(s, a.p)
    ensures Tame(After(s, a.p, Alone(s, a.p, SchedStep(s, a))), c)
  {
  }

  lemma SchedKeepsFork(s: System, a: Action, c: nat)
    requires Enabled(s, a) && !IsCall(a) && !a.Advance? && c < |s.procs|
    requires ForkOk(s, c) && Tame(s, c) && Tame(s, a.p)
    requires ForkPc(s.procs[c].pc) && s.procs[c].pc.k < |s.procs| ==> Tame(s, s.procs[c].pc.k)
    ensures ForkOk(After(s, a.p, Alone(s, a.p, SchedStep(s, a))), c)
  {
  }

  lemma SchedKeepsParent(s: System, a: Action, c: nat)
    requires Enabled(s, a) && !IsCall(a) && !a.Advance? && c < |s.procs|
    requires ParentOk(s, c) && Tame(s, c) && Tame(s, a.p)
    ensures ParentOk(After(s, a.p, Alone(s, a.p, SchedStep(s, a))), c)
  {
  }

  lemma SchedKeepsSeen(s: System, a: Action, c: nat)
    requires Enabled(s, a) && !IsCall(a) && !a.Advance? && c < |s.procs|
    requires ChildSeen(s, c) && Tame(s, c) && Tame(s, a.p)
    requires s.procs[c].parent.Child? && s.procs[c].parent.p < |s.procs| ==> Tame(s, s.procs[c].parent.p)
    ensures ChildSeen(After(s, a.p, Alone(s, a.p, SchedStep(s, a))), c)
  {
  }

  lemma SchedKeepsExit(s: System, a: Action, c: nat)
    requires Enabled(s, a) && !IsCall(a) && !a.Advance? && c < |s.procs|
    requires ExitOk(s, c) && Tame(s, c) && Tame(s, a.p)
    requires s.procs[c].parent.Child? && s.procs[c].parent.p < |s.procs| ==> Tame(s, s.procs[c].parent.p)
    ensures ExitOk(After(s, a.p, Alone(s, a.p, SchedStep(s, a))), c)
  {
  }

  /** What the invariant says of entry c and the entries it refers to. */
  lemma Nearby(s: System, c: nat)
    requires Inv(s) && c < |s.procs|
    ensures ProcOk(s, c) && ProcOk(s, INIT)
    ensures s.procs[c].parent.Child? && s.procs[c].parent.p < |s.procs| ==> ProcOk(s, s.procs[c].parent.p)
    ensures ForkPc(s.procs[c].pc) && s.procs[c].pc.k < |s.procs| ==> ProcOk(s, s.procs[c].pc.k)
  {
  }

  lemma ForkKeeps(s: System, p: nat, c: nat)
    requires Inv(s) && Enabled(s, Advance(p)) && ForkPc(s.procs[p].pc) && c < |s.procs|
    ensures ProcOk(After(s, p, ForkStep(s, p)), c)
  {
    hide Tame, ForkOk, ParentOk, ChildSeen, ExitOk, ForkStep, After;
    Nearby(s, c);
    Nearby(s, p);
    ForkKeepsTame(s, p, c);
    ForkKeepsFork(s, p, c);
    ForkKeepsParent(s, p, c);
    ForkKeepsSeen(s, p, c);
    ForkKeepsExit(s, p, c);
  }

  lemma ReparentKeeps(s: System, p: nat, c: nat)
    requires Inv(s) && Enabled(s, Advance(p)) && ReparentPc(s.procs[p].pc) && c < |s.procs|
    ensures ProcOk(After(s, p, ReparentStep(s, p)), c)
  {
    hide Tame, ForkOk, ParentOk, ChildSeen, ExitOk, ReparentStep, After;
    Nearby(s, c);
    Nearby(s, p);
    ReparentKeepsTame(s, p, c);
    ReparentKeepsFork(s, p, c);
    ReparentKeepsParent(s, p, c);
    ReparentKeepsSeen(s, p, c);
    ReparentKeepsExit(s, p, c);
  }

  lemma ExitKeeps(s: System, p: nat, c: nat)
    requires Inv(s) && Enabled(s, Advance(p)) && ExitPc(s.procs[p].pc) && c < |s.procs|
    ensures ProcOk(After(s, p, ExitStep(s, p)), c)
  {
    hide Tame, ForkOk, ParentOk, ChildSeen, ExitOk, ExitStep, After;
    Nearby(s, c);
    Nearby(s, p);
    ExitKeepsTame(s, p, c);
    ExitKeepsFork(s, p, c);
    ExitKeepsParent(s, p, c);
    ExitKeepsSeen(s, p, c);
    ExitKeepsExit(s, p, c);
  }

  lemma WaitKeeps(s: System, p: nat, c: nat)
    requires Inv(s) && Enabled(s, Advance(p)) && WaitPc(s.procs[p].pc) && c < |s.procs|
    ensures ProcOk(After(s, p, WaitStep(s, p)), c)
  {
    hide Tame, ForkOk, ParentOk, ChildSeen, ExitOk, WaitStep, After;
    Nearby(s, c);
    Nearby(s, p);
    WaitKeepsTame(s, p, c);
    WaitKeepsFork(s, p, c);
    WaitKeepsParent(s, p, c);
    WaitKeepsSeen(s, p, c);
    WaitKeepsExit(s, p, c);
  }

  lemma CallKeeps(s: System, a: Action, c: nat)
    requires Inv(s) && Enabled(s, a) && IsCall(a) && c < |s.procs|
    ensures ProcOk(After(s, a.p, CallStep(s, a)), c)
  {
    hide Tame, ForkOk, ParentOk, ChildSeen, ExitOk, CallStep, After;
    Nearby(s, c);
    Nearby(s, a.p);
    assert a.Fork? ==> ProcOk(s, a.k);
    CallKeepsTame(s, a, c);
    CallKeepsFork(s, a, c);
    CallKeepsParent(s, a, c);
    CallKeepsSeen(s, a, c);
    CallKeepsExit(s, a, c);
  }

  lemma SchedKeeps(s: System, a: Action, c: nat)
    requires Inv(s) && Enabled(s, a) && !IsCall(a) && !a.Advance? && c < |s.procs|
    ensures ProcOk(After(s, a.p, Alone(s, a.p, SchedStep(s, a))), c)
  {
    hide Tame, ForkOk, ParentOk, ChildSeen, ExitOk, SchedStep, After;
    Nearby(s, c);
    Nearby(s, a.p);
    SchedKeepsTame(s, a, c);
    SchedKeepsFork(s, a, c);
    SchedKeepsParent(s, a, c);
    SchedKeepsSeen(s, a, c);
    SchedKeepsExit(s, a, c);
  }

  lemma ActionKeeps(s: System, a: Action, c: nat)
    requires Inv(s) && Enabled(s, a) && c < |s.procs|
    ensures ProcOk(Apply(s, a), c)
  {
    hide ProcOk;
    if IsCall(a) {
      CallKeeps(s, a, c);
    } else if !a.Advance? {
      SchedKeeps(s, a, c);
    } else if ForkPc(s.procs[a.p].pc) {
      ForkKeeps(s, a.p, c);
    } else if ReparentPc(s.procs[a.p].pc) {
      ReparentKeeps(s, a.p, c);
    } else if ExitPc(s.procs[a.p].pc) {
      ExitKeeps(s, a.p, c);
    } else {
      WaitKeeps(s, a.p, c);
    }
  }

  lemma InitStaysAlive(s: System, a: Action)
    requires Enabled(s, a) && |s.procs| > INIT && Live(s.procs[INIT].state)
    requires ProcOk(s, INIT) && ProcOk(s, a.p)
    ensures Live(Apply(s, a).procs[INIT].state)
  {
  }

  lemma ActionInv(s: System, a: Action)
    requires Inv(s) && Enabled(s, a)
    ensures Inv(Apply(s, a))
  {
    hide ProcOk;
    InitStaysAlive(s, a);
    forall c | 0 <= c < |s.procs| ensures ProcOk(Apply(s, a), c) {
      ActionKeeps(s, a, c);
    }
  }

  lemma {:induction false} RunInv(s: System, actions: seq<Action>, s': System)
    requires Init(s) && Run(s, actions, s')
    ensures Inv(s')
    decreases |actions|
  {
    if actions == [] {
      InitInv(s);
    } else {
      var n := |actions| - 1;
      var m :| Run(s, actions[..n], m) && Enabled(m, actions[n]) && s' == Apply(m, actions[n]);
      RunInv(s, actions[..n], m);
      ActionInv(m, actions[n]);
    }
  }

  /** In every reachable state, every started process other than init has a
      parent, and that parent is neither free, nor being made, nor a zombie. */
  lemma ParentsAreAlive(s: System, actions: seq<Action>, s': System, c: nat)
    requires Init(s) && Run(s, actions, s') && c < |s'.procs| && c != INIT
    requires s'.procs[c].state in {SLEEPING, RUNNABLE, RUNNING, ZOMBIE}
    ensures s'.procs[c].parent.Child? && s'.procs[c].parent.p < |s'.procs|
    ensures s'.procs[s'.procs[c].parent.p].state in {SLEEPING, RUNNABLE, RUNNING}
  {
    hide Run;
    RunInv(s, actions, s');
    assert ProcOk(s', c);
  }

  /** No exit is missed: whenever wait_lock is free, no process sleeps in kwait
      while it has a zombie child, although kexit wakes the parent before it
      becomes a zombie. */
  lemma NoMissedExit(s: System, actions: seq<Action>, s': System, p: nat, c: nat)
    requires Init(s) && Run(s, actions, s') && p < |s'.procs| && c < |s'.procs|
    requires s'.waitLock == Free
    requires s'.procs[c].parent == Child(p) && s'.procs[c].state == ZOMBIE
    ensures !(s'.procs[p].state == SLEEPING && s'.procs[p].chan == OwnEntry)
  {
    hide Run;
    RunInv(s, actions, s');
    assert ProcOk(s', c) && ProcOk(s', p);
  }

  /** kwait frees only a process that has left the CPU for good. */
  lemma ReapedIsOffCpu(s: System, actions: seq<Action>, s': System, p: nat, c: nat)
    requires Init(s) && Run(s, actions, s') && p < |s'.procs| && s'.procs[p].pc.WaitScan?
    requires MayReap(s', p, c)
    ensures s'.procs[c].pc == Gone && forall a | Enabled(s', a) && a.p == c :: a == Kill(c)
  {
    hide Run;
    RunInv(s, actions, s');
    assert ProcOk(s', c);
    hide Inv, ProcOk;
    forall a | Enabled(s', a) && a.p == c ensures a == Kill(c) {
    }
  }

  /** kwait gives up for want of children only when there are none. */
  lemma NoChildrenMeansNone(s: System, actions: seq<Action>, s': System, p: nat, c: nat)
    requires Init(s) && Run(s, actions, s') && p < |s'.procs| && c < |s'.procs|
    requires s'.procs[p].pc.WaitScan? && s'.procs[p].pc.i >= |s'.procs| && !s'.procs[p].pc.kids
    ensures s'.procs[c].parent != Child(p)
  {
    hide Run;
    RunInv(s, actions, s');
    assert ProcOk(s', c);
  }

  // Who changes what.

  predicate AtPc(s: System, a: Action, pc: Pc) { a.Advance? && a.p < |s.procs| && s.procs[a.p].pc == pc }

  /** a is the step of wakeup that finds entry c asleep in kwait. */
  predicate Wakes(s: System, a: Action, c: nat) {
    && a.Advance? && a.p < |s.procs| && a.p != c && c < |s.procs| && s.procs[c].state == SLEEPING && s.procs[c].chan == OwnEntry
    && var pc := s.procs[a.p].pc;
       (pc.ExitWake? && pc.t == pc.j == c) || (pc.ExitWakeInit? && pc.j == c == INIT)
  }

  /** a is the step of kwait that finds the zombie c. */
  predicate Reaps(s: System, a: Action, c: nat) {
    && a.Advance? && a.p < |s.procs| && s.procs[a.p].pc.WaitScan? && s.procs[a.p].pc.i == c && MayReap(s, a.p, c)
  }

  /** What makes a process go from one state to another, if anything does. */
  predicate Cause(s: System, a: Action, c: nat, from: State, to: State)
    requires c < |s.procs|
  {
    match (from, to)
    case (UNUSED, USED) => a.Fork? && a.k == c
    case (USED, UNUSED) => a.ForkFails? && a.p < |s.procs| && s.procs[a.p].pc == ForkCopy(c)
    case (USED, RUNNABLE) => AtPc(s, a, ForkStart(c))
    case (RUNNABLE, RUNNING) => a == Schedule(c)
    case (RUNNING, RUNNABLE) => a == Preempt(c)
    case (RUNNING, SLEEPING) => a == SleepElsewhere(c) || (a == Advance(c) && s.procs[c].pc == SleepMark)
    case (SLEEPING, RUNNABLE) => a == Kill(c) || (a == WakeElsewhere(c) && s.procs[c].chan == Elsewhere) || Wakes(s, a, c)
    case (RUNNING, ZOMBIE) => a == Advance(c) && s.procs[c].pc == ExitZombie
    case (ZOMBIE, UNUSED) => Reaps(s, a, c)
    case _ => false
  }

  ghost predicate StateExplained(s: System, a: Action, s': System, c: nat)
    requires c < |s.procs| == |s'.procs|
  {
    && (forall to: State | to != s.procs[c].state :: s'.procs[c].state == to <==> Cause(s, a, c, s.procs[c].state, to))
    && s'.procs[c].maker == if a.Fork? && a.k == c then a.p else s.procs[c].maker
  }

  /** A process gets its parent from kfork, init from reparent, and loses it when
      it is reaped; nothing else changes it. */
  ghost predicate ParentExplained(s: System, a: Action, s': System, c: nat)
    requires c < |s.procs| == |s'.procs|
  {
    s'.procs[c].parent ==
      if AtPc(s, a, ForkParent(c)) then Child(a.p)
      else if AtPc(s, a, ExitReparent(c)) && s.procs[c].parent == Child(a.p) then Child(INIT)
      else if Reaps(s, a, c) then Nobody
      else s.procs[c].parent
  }

  /** Where process c returns from its call, gives up, sleeps, or is gone. */
  ghost predicate PcExplained(s: System, a: Action, s': System, c: nat)
    requires c < |s.procs| == |s'.procs|
  {
    var x, y := s.procs[c].pc, s'.procs[c].pc;
    && (y.User? && !x.User? <==>
          AtPc(s, a, ForkStart(c)) || a == ForkFails(c) || (a == Advance(c) && (x.ForkStart? || x.WaitUnlock?)))
    && (y.WaitUnlock? && !x.WaitUnlock? <==>
          || a == WaitKilled(c) || a == CopyoutFails(c)
          || (a == Advance(c) && x.WaitScan? && if x.i < |s.procs| then Reaps(s, a, x.i) else !x.kids))
    && (y.SleepTake? && !x.SleepTake? <==> a == Advance(c) && x.WaitScan? && x.i >= |s.procs| && x.kids)
    && (x.WaitScan? && y.WaitScan? && y != x ==> y.i == x.i + 1)
    && (y.WaitScan? && !x.WaitScan? ==> x.WaitLock? && y == WaitScan(0, false))
    && (y.Gone? && !x.Gone? <==> a == SwitchedOut(c) && x.ExitSwitch?)
    && (Exiting(x) || x.ExitUnlock? || x.ExitSwitch? ==> Exiting(y) || y.ExitUnlock? || y.ExitSwitch? || y.Gone?)
    && (WaitPc(x) || x.SleepSwitched? ==> WaitPc(y) || y.SleepSwitched? || y.User?)
    && (ForkPc(x) ==> (ForkPc(y) && y.k == x.k) || y.User?)
  }

  function Sub(n: nat, i: nat): nat { if i < n then n - i else 0 }

  /** How far a call still has to go: stages, and in a stage the table entries to
      pass, for reparent with those of the wakeup of init. */
  function Rank(pc: Pc, n: nat): (nat, nat, nat) {
    match pc
    case ForkCopy(_) => (5, 0, 0)
    case ForkLock(_) => (4, 0, 0)
    case ForkParent(_) => (3, 0, 0)
    case ForkUnlock(_) => (2, 0, 0)
    case ForkStart(_) => (1, 0, 0)
    case ExitLock => (7, 0, 0)
    case ExitReparent(i) => (6, 2 * Sub(n, i), 0)
    case ExitWakeInit(i, j) => (6, 2 * Sub(n, i + 1) + 1, Sub(n, j))
    case ExitWake(_, j) => (5, Sub(n, j), 0)
    case ExitTake => (4, 0, 0)
    case ExitZombie => (3, 0, 0)
    case ExitUnlock => (2, 0, 0)
    case ExitSwitch => (1, 0, 0)
    case SleepTidy => (7, 0, 0)
    case WaitLock => (6, 0, 0)
    case WaitScan(i, _) => (5, Sub(n, i), 0)
    case SleepTake => (4, 0, 0)
    case SleepDrop => (3, 0, 0)
    case SleepMark => (2, 0, 0)
    case WaitUnlock => (2, 0, 0)
    case SleepSwitched => (1, 0, 0)
    case _ => (0, 0, 0)
  }

  /** y is closer than x to the end of the call, or to going to sleep. */
  predicate Later(x: Pc, y: Pc, n: nat) {
    var (a, b, c), (a', b', c') := Rank(x, n), Rank(y, n);
    a' < a || (a' == a && (b' < b || (b' == b && c' < c)))
  }

  /** A process is moved by its own actions alone; a call starts at its first
      step, and every step brings it closer to the end. */
  ghost predicate MovesOn(s: System, a: Action, s': System, c: nat)
    requires c < |s.procs| == |s'.procs|
  {
    var x, y := s.procs[c].pc, s'.procs[c].pc;
    && (y != x ==> a.p == c || AtPc(s, a, ForkStart(c)))
    && (a == Exit(c) ==> y.ExitLock?) && (a == Wait(c) ==> y.WaitLock?) && (a.Fork? && a.p == c ==> y == ForkCopy(a.k))
    && (a == Advance(c) ==> Later(x, y, |s.procs|))
  }

  /** The lock of an entry, and what its process sleeps on. */
  ghost predicate HeldExplained(s: System, a: Action, s': System, c: nat)
    requires c < |s.procs| == |s'.procs|
  {
    var x, y := s.procs[c], s'.procs[c];
    && y.lock == (if TakesLock(s, a, c) then true else if DropsLock(s, a, c) then false else x.lock)
    && (TakesLock(s, a, c) ==> !x.lock) && (DropsLock(s, a, c) ==> x.lock)
    && y.chan == (if a == Advance(c) && x.pc.SleepMark? then OwnEntry
                  else if a == SleepElsewhere(c) then Elsewhere
                  else if (a == Advance(c) && x.pc.SleepTidy?) || (a == Schedule(c) && !x.pc.SleepSwitched?) then NoChan
                  else if Reaps(s, a, c) || (a.ForkFails? && a.p < |s.procs| && s.procs[a.p].pc == ForkCopy(c)) then NoChan
                  else x.chan)
  }

  predicate TakesLock(s: System, a: Action, c: nat)
    requires c < |s.procs|
  {
    var pc := s.procs[c].pc;
    (a.Fork? && a.k == c) || (a == Advance(c) && (pc.SleepTake? || pc.ExitTake?)) || (a == Schedule(c) && pc.SleepSwitched?)
  }

  predicate DropsLock(s: System, a: Action, c: nat)
    requires c < |s.procs|
  {
    || AtPc(s, a, ForkCopy(c)) || (a.ForkFails? && a.p < |s.procs| && s.procs[a.p].pc == ForkCopy(c))
    || (a == Advance(c) && s.procs[c].pc.SleepTidy?) || a == SwitchedOut(c)
  }

  /** wait_lock is taken and given back by the process itself. */
  ghost predicate LockExplained(s: System, a: Action, s': System, c: nat)
    requires c < |s.procs|
  {
    && (s.waitLock == Free && s'.waitLock == By(c) <==>
          a == Advance(c) && (s.procs[c].pc.ForkLock? || s.procs[c].pc.ExitLock? || s.procs[c].pc.WaitLock?))
    && (s.waitLock == By(c) && s'.waitLock != By(c) <==>
          a == Advance(c) && (s.procs[c].pc.ForkUnlock? || s.procs[c].pc.ExitUnlock? || s.procs[c].pc.WaitUnlock? || s.procs[c].pc.SleepDrop?))
    && (s.waitLock == By(c) && s'.waitLock != By(c) ==> s'.waitLock == Free)
  }

  ghost predicate Explained(s: System, a: Action, s': System, c: nat)
    requires c < |s.procs| == |s'.procs|
  {
    && StateExplained(s, a, s', c) && ParentExplained(s, a, s', c) && PcExplained(s, a, s', c) && LockExplained(s, a, s', c)
    && HeldExplained(s, a, s', c) && MovesOn(s, a, s', c)
  }

  lemma ForkChanges(s: System, p: nat, c: nat)
    requires Enabled(s, Advance(p)) && ForkPc(s.procs[p].pc) && c < |s.procs|
    requires Tame(s, c) && Tame(s, p) && ForkOk(s, p)
    ensures StateExplained(s, Advance(p), After(s, p, ForkStep(s, p)), c)
    ensures ParentExplained(s, Advance(p), After(s, p, ForkStep(s, p)), c)
  {
  }

  lemma ForkMoves(s: System, p: nat, c: nat)
    requires Enabled(s, Advance(p)) && ForkPc(s.procs[p].pc) && c < |s.procs|
    requires Tame(s, c) && Tame(s, p) && ForkOk(s, p)
    ensures PcExplained(s, Advance(p), After(s, p, ForkStep(s, p)), c)
    ensures LockExplained(s, Advance(p), After(s, p, ForkStep(s, p)), c)
  {
  }

  lemma ForkHolds(s: System, p: nat, c: nat)
    requires Enabled(s, Advance(p)) && ForkPc(s.procs[p].pc) && c < |s.procs|
    requires Tame(s, c) && Tame(s, p) && ForkOk(s, p)
    ensures HeldExplained(s, Advance(p), After(s, p, ForkStep(s, p)), c)
  {
  }

  lemma ForkOnward(s: System, p: nat, c: nat)
    requires Enabled(s, Advance(p)) && ForkPc(s.procs[p].pc) && c < |s.procs|
    requires Tame(s, c) && Tame(s, p) && ForkOk(s, p)
    ensures MovesOn(s, Advance(p), After(s, p, ForkStep(s, p)), c)
  {
  }

  lemma ReparentChanges(s: System, p: nat, c: nat)
    requires Enabled(s, Advance(p)) && ReparentPc(s.procs[p].pc) && c < |s.procs|
    requires Tame(s, c) && Tame(s, p) && ParentOk(s, p)
    ensures StateExplained(s, Advance(p), After(s, p, ReparentStep(s, p)), c)
    ensures ParentExplained(s, Advance(p), After(s, p, ReparentStep(s, p)), c)
  {
  }

  lemma ReparentMoves(s: System, p: nat, c: nat)
    requires Enabled(s, Advance(p)) && ReparentPc(s.procs[p].pc) && c < |s.procs|
    requires Tame(s, c) && Tame(s, p) && ParentOk(s, p)
    ensures PcExplained(s, Advance(p), After(s, p, ReparentStep(s, p)), c)
    ensures LockExplained(s, Advance(p), After(s, p, ReparentStep(s, p)), c)
  {
  }

  lemma ReparentHolds(s: System, p: nat, c: nat)
    requires Enabled(s, Advance(p)) && ReparentPc(s.procs[p].pc) && c < |s.procs|
    requires Tame(s, c) && Tame(s, p) && ParentOk(s, p)
    ensures HeldExplained(s, Advance(p), After(s, p, ReparentStep(s, p)), c)
  {
  }

  lemma ReparentOnward(s: System, p: nat, c: nat)
    requires Enabled(s, Advance(p)) && ReparentPc(s.procs[p].pc) && c < |s.procs|
    requires Tame(s, c) && Tame(s, p) && ParentOk(s, p)
    ensures MovesOn(s, Advance(p), After(s, p, ReparentStep(s, p)), c)
  {
  }

  lemma ExitChanges(s: System, p: nat, c: nat)
    requires Enabled(s, Advance(p)) && ExitPc(s.procs[p].pc) && c < |s.procs|
    requires Tame(s, c) && Tame(s, p)
    ensures StateExplained(s, Advance(p), After(s, p, ExitStep(s, p)), c)
    ensures ParentExplained(s, Advance(p), After(s, p, ExitStep(s, p)), c)
  {
  }

  lemma ExitMoves(s: System, p: nat, c: nat)
    requires Enabled(s, Advance(p)) && ExitPc(s.procs[p].pc) && c < |s.procs|
    requires Tame(s, c) && Tame(s, p)
    ensures PcExplained(s, Advance(p), After(s, p, ExitStep(s, p)), c)
    ensures LockExplained(s, Advance(p), After(s, p, ExitStep(s, p)), c)
  {
  }

  lemma ExitHolds(s: System, p: nat, c: nat)
    requires Enabled(s, Advance(p)) && ExitPc(s.procs[p].pc) && c < |s.procs|
    requires Tame(s, c) && Tame(s, p)
    ensures HeldExplained(s, Advance(p), After(s, p, ExitStep(s, p)), c)
  {
  }

  lemma ExitOnward(s: System, p: nat, c: nat)
    requires Enabled(s, Advance(p)) && ExitPc(s.procs[p].pc) && c < |s.procs|
    requires Tame(s, c) && Tame(s, p)
    ensures MovesOn(s, Advance(p), After(s, p, ExitStep(s, p)), c)
  {
  }

  lemma WaitChanges(s: System, p: nat, c: nat)
    requires Enabled(s, Advance(p)) && WaitPc(s.procs[p].pc) && c < |s.procs|
    requires Tame(s, c) && Tame(s, p) && ParentOk(s, p)
    ensures StateExplained(s, Advance(p), After(s, p, WaitStep(s, p)), c)
    ensures ParentExplained(s, Advance(p), After(s, p, WaitStep(s, p)), c)
  {
  }

  lemma WaitMoves(s: System, p: nat, c: nat)
    requires Enabled(s, Advance(p)) && WaitPc(s.procs[p].pc) && c < |s.procs|
    requires Tame(s, c) && Tame(s, p) && ParentOk(s, p)
    ensures PcExplained(s, Advance(p), After(s, p, WaitStep(s, p)), c)
    ensures LockExplained(s, Advance(p), After(s, p, WaitStep(s, p)), c)
  {
  }

  lemma WaitHolds(s: System, p: nat, c: nat)
    requires Enabled(s, Advance(p)) && WaitPc(s.procs[p].pc) && c < |s.procs|
    requires Tame(s, c) && Tame(s, p) && ParentOk(s, p)
    ensures HeldExplained(s, Advance(p), After(s, p, WaitStep(s, p)), c)
  {
  }

  lemma WaitOnward(s: System, p: nat, c: nat)
    requires Enabled(s, Advance(p)) && WaitPc(s.procs[p].pc) && c < |s.procs|
    requires Tame(s, c) && Tame(s, p) && ParentOk(s, p)
    ensures MovesOn(s, Advance(p), After(s, p, WaitStep(s, p)), c)
  {
  }

  lemma CallChanges(s: System, a: Action, c: nat)
    requires Enabled(s, a) && IsCall(a) && c < |s.procs|
    requires Tame(s, c) && Tame(s, a.p) && ForkOk(s, a.p)
    ensures StateExplained(s, a, After(s, a.p, CallStep(s, a)), c)
    ensures ParentExplained(s, a, After(s, a.p, CallStep(s, a)), c)
  {
  }

  lemma CallMoves(s: System, a: Action, c: nat)
    requires Enabled(s, a) && IsCall(a) && c < |s.procs|
    requires Tame(s, c) && Tame(s, a.p) && ForkOk(s, a.p)
    ensures PcExplained(s, a, After(s, a.p, CallStep(s, a)), c)
    ensures LockExplained(s, a, After(s, a.p, CallStep(s, a)), c)
  {
  }

  lemma CallHolds(s: System, a: Action, c: nat)
    requires Enabled(s, a) && IsCall(a) && c < |s.procs|
    requires Tame(s, c) && Tame(s, a.p) && ForkOk(s, a.p)
    ensures HeldExplained(s, a, After(s, a.p, CallStep(s, a)), c)
  {
  }

  lemma CallOnward(s: System, a: Action, c: nat)
    requires Enabled(s, a) && IsCall(a) && c < |s.procs|
    requires Tame(s, c) && Tame(s, a.p) && ForkOk(s, a.p)
    ensures MovesOn(s, a, After(s, a.p, CallStep(s, a)), c)
  {
  }

  lemma SchedChanges(s: System, a: Action, c: nat)
    requires Enabled(s, a) && !IsCall(a) && !a.Advance? && c < |s.procs|
    requires Tame(s, c) && Tame(s, a.p)
    ensures StateExplained(s, a, After(s, a.p, Alone(s, a.p, SchedStep(s, a))), c)
    ensures ParentExplained(s, a, After(s, a.p, Alone(s, a.p, SchedStep(s, a))), c)
  {
  }

  lemma SchedMoves(s: System, a: Action, c: nat)
    requires Enabled(s, a) && !IsCall(a) && !a.Advance? && c < |s.procs|
    requires Tame(s, c) && Tame(s, a.p)
    ensures PcExplained(s, a, After(s, a.p, Alone(s, a.p, SchedStep(s, a))), c)
    ensures LockExplained(s, a, After(s, a.p, Alone(s, a.p, SchedStep(s, a))), c)
  {
  }

  lemma SchedHolds(s: System, a: Action, c: nat)
    requires Enabled(s, a) && !IsCall(a) && !a.Advance? && c < |s.procs|
    requires Tame(s, c) && Tame(s, a.p)
    ensures HeldExplained(s, a, After(s, a.p, Alone(s, a.p, SchedStep(s, a))), c)
  {
  }

  lemma SchedOnward(s: System, a: Action, c: nat)
    requires Enabled(s, a) && !IsCall(a) && !a.Advance? && c < |s.procs|
    requires Tame(s, c) && Tame(s, a.p)
    ensures MovesOn(s, a, After(s, a.p, Alone(s, a.p, SchedStep(s, a))), c)
  {
  }

  lemma ActionExplained(s: System, a: Action, c: nat)
    requires Inv(s) && Enabled(s, a) && c < |s.procs|
    ensures Explained(s, a, Apply(s, a), c)
  {
    assert ProcOk(s, c) && ProcOk(s, a.p);
    hide StateExplained, ParentExplained, PcExplained, LockExplained, HeldExplained, MovesOn, Tame, ForkOk, ParentOk;
    if IsCall(a) {
      CallChanges(s, a, c);
      CallMoves(s, a, c);
      CallHolds(s, a, c);
      CallOnward(s, a, c);
    } else if !a.Advance? {
      SchedChanges(s, a, c);
      SchedMoves(s, a, c);
      SchedHolds(s, a, c);
      SchedOnward(s, a, c);
    } else if ForkPc(s.procs[a.p].pc) {
      ForkChanges(s, a.p, c);
      ForkMoves(s, a.p, c);
      ForkHolds(s, a.p, c);
      ForkOnward(s, a.p, c);
    } else if ReparentPc(s.procs[a.p].pc) {
      ReparentChanges(s, a.p, c);
      ReparentMoves(s, a.p, c);
      ReparentHolds(s, a.p, c);
      ReparentOnward(s, a.p, c);
    } else if ExitPc(s.procs[a.p].pc) {
      ExitChanges(s, a.p, c);
      ExitMoves(s, a.p, c);
      ExitHolds(s, a.p, c);
      ExitOnward(s, a.p, c);
    } else {
      WaitChanges(s, a.p, c);
      WaitMoves(s, a.p, c);
      WaitHolds(s, a.p, c);
      WaitOnward(s, a.p, c);
    }
  }

  /** The life of a table entry: in every reachable state and for every action,
      its state, its parent, and where its process is change exactly when there
      is a cause for it, and to what the cause says. */
  lemma EntryChanges(s: System, actions: seq<Action>, s': System, a: Action, c: nat)
    requires Init(s) && Run(s, actions, s') && Enabled(s', a) && c < |s'.procs|
    ensures Explained(s', a, Apply(s', a), c)
  {
    hide Run;
    RunInv(s, actions, s');
    ActionExplained(s', a, c);
  }

  /** kwait frees the zombie child that it finds, and touches nobody else. */
  lemma ChildIsReaped(s: System, actions: seq<Action>, s': System, p: nat)
    requires Init(s) && Run(s, actions, s') && Enabled(s', Advance(p))
    requires s'.procs[p].pc.WaitScan? && MayReap(s', p, s'.procs[p].pc.i)
    ensures var i, s2 := s'.procs[p].pc.i, Apply(s', Advance(p));
            && i != p && s2.procs[i] == Proc(UNUSED, Gone, NoChan, Nobody, false, s'.procs[i].maker)
            && s2.procs[p] == s'.procs[p].(pc := WaitUnlock) && s2.waitLock == s'.waitLock
            && forall c | 0 <= c < |s2.procs| && c != i && c != p :: s2.procs[c] == s'.procs[c]
  {
    hide Run;
    RunInv(s, actions, s');
    assert ProcOk(s', p) && ProcOk(s', s'.procs[p].pc.i);
  }

  /** The last step of kfork starts the child, and touches nobody else. */
  lemma ChildIsStarted(s: System, actions: seq<Action>, s': System, p: nat)
    requires Init(s) && Run(s, actions, s') && Enabled(s', Advance(p)) && s'.procs[p].pc.ForkStart?
    ensures var k, s2 := s'.procs[p].pc.k, Apply(s', Advance(p));
            && k != p && s'.procs[k].state == USED
            && s2.procs[k] == Proc(RUNNABLE, User, s'.procs[k].chan, Child(p), false, p)
            && s2.procs[p] == s'.procs[p].(pc := User) && s2.waitLock == s'.waitLock
            && forall c | 0 <= c < |s2.procs| && c != k && c != p :: s2.procs[c] == s'.procs[c]
  {
    hide Run;
    RunInv(s, actions, s');
    assert ProcOk(s', p);
  }

  /** A process that has exited has no children left, has a parent that can reap
      it, and waits for nothing but that. */
  lemma ExitedIsChildless(s: System, actions: seq<Action>, s': System, p: nat, c: nat)
    requires Init(s) && Run(s, actions, s') && p < |s'.procs| && c < |s'.procs| && s'.procs[p].state == ZOMBIE
    ensures s'.procs[c].parent != Child(p)
    ensures s'.procs[p].parent.Child? && s'.procs[p].parent.p < |s'.procs| && Live(s'.procs[s'.procs[p].parent.p].state)
    ensures s'.procs[p].lock ==> Enabled(s', if s'.procs[p].pc.ExitUnlock? then Advance(p) else SwitchedOut(p))
    ensures !s'.procs[p].lock ==> MayReap(s', s'.procs[p].parent.p, p)
  {
    hide Run;
    RunInv(s, actions, s');
    assert ProcOk(s', c) && ProcOk(s', p);
  }

  // Progress.

  /** An entry that is being made belongs to a kfork in progress. */
  ghost predicate MakerOk(s: System, c: nat)
    requires c < |s.procs|
  {
    var m := s.procs[c].maker;
    s.procs[c].state == USED ==> m < |s.procs| && ForkPc(s.procs[m].pc) && s.procs[m].pc.k == c
  }

  lemma MakerStays(s: System, a: Action, s': System, c: nat)
    requires Enabled(s, a) && c < |s.procs| == |s'.procs| && MakerOk(s, c) && Explained(s, a, s', c)
    requires s.procs[c].state == USED ==> s.procs[s.procs[c].maker].state != USED && Explained(s, a, s', s.procs[c].maker)
    requires (a.Fork? ==> s'.procs[a.p].pc == ForkCopy(a.k)) && ForkOk(s, a.p)
    ensures MakerOk(s', c)
  {
    hide ParentExplained, LockExplained, HeldExplained, LocalOk, Later;
    var x := s.procs[c].state;
    assert x != USED ==> (s'.procs[c].state == USED <==> Cause(s, a, c, x, USED));
    assert x == USED ==> (s'.procs[c].state == RUNNABLE <==> Cause(s, a, c, x, RUNNABLE));
    assert x == USED ==> (s'.procs[c].state == UNUSED <==> Cause(s, a, c, x, UNUSED));
  }

  lemma {:induction false} RunMakers(s: System, actions: seq<Action>, s': System)
    requires Init(s) && Run(s, actions, s')
    ensures forall c | 0 <= c < |s'.procs| :: MakerOk(s', c)
    decreases |actions|
  {
    if actions != [] {
      var n := |actions| - 1;
      var m :| Run(s, actions[..n], m) && Enabled(m, actions[n]) && s' == Apply(m, actions[n]);
      RunInv(s, actions[..n], m);
      RunMakers(s, actions[..n], m);
      ForkEntered(m, actions[n]);
      assert ProcOk(m, actions[n].p);
      hide Explained, Run, Apply;
      forall c | 0 <= c < |s'.procs| ensures MakerOk(s', c) {
        assert MakerOk(m, c);
        ActionExplained(m, actions[n], c);
        if m.procs[c].state == USED {
          assert ProcOk(m, m.procs[c].maker);
          ActionExplained(m, actions[n], m.procs[c].maker);
        }
        MakerStays(m, actions[n], s', c);
      }
    }
  }

  lemma ForkEntered(s: System, a: Action)
    requires Inv(s) && Enabled(s, a)
    ensures |Apply(s, a).procs| == |s.procs| && (a.Fork? ==> Apply(s, a).procs[a.p].pc == ForkCopy(a.k))
  {
    assert ProcOk(s, a.p);
  }

  /** Whoever holds an entry's lock can go on and is about to release it. */
  predicate Releases(s: System, a: Action, i: nat) {
    && i < |s.procs| && s.procs[i].lock
    && (a == Advance(i) || a == SwitchedOut(i) || (a == Advance(s.procs[i].maker) && s.procs[i].state == USED))
  }

  lemma LockHolderProgresses(s: System, i: nat) returns (a: Action)
    requires Inv(s) && i < |s.procs| && s.procs[i].lock && MakerOk(s, i)
    ensures Enabled(s, a) && Releases(s, a, i)
  {
    assert ProcOk(s, i);
    var x := s.procs[i];
    if x.state == USED {
      assert ProcOk(s, x.maker);
      a := Advance(x.maker);
    } else {
      a := if x.pc.SleepSwitched? || x.pc.ExitSwitch? then SwitchedOut(i) else Advance(i);
    }
  }

  /** kfork, kexit and kwait do not deadlock: a process in one of them can go on,
      unless it waits to be run again, for wait_lock, or for the lock of a table
      entry; the holder of wait_lock can go on or waits for an entry; and the
      holder of an entry's lock can always go on. */
  lemma NoDeadlock(s: System, actions: seq<Action>, s': System, p: nat) returns (a: Action)
    requires Init(s) && Run(s, actions, s') && p < |s'.procs|
    requires s'.waitLock == By(p) || (s'.waitLock == Free && s'.procs[p].state == RUNNING && !s'.procs[p].pc.User?)
    ensures Enabled(s', a)
    ensures a == Advance(p) || exists i :: Releases(s', a, i)
  {
    hide Run;
    RunInv(s, actions, s');
    RunMakers(s, actions, s');
    hide Inv;
    a := Advance(p);
    if !Enabled(s', a) {
      var i := Blocker(s', p);
      a := LockHolderProgresses(s', i);
    }
  }

  /** The entry whose lock keeps p from going on. */
  lemma Blocker(s: System, p: nat) returns (i: nat)
    requires Inv(s) && p < |s.procs| && !Enabled(s, Advance(p))
    requires s.waitLock == By(p) || (s.waitLock == Free && s.procs[p].state == RUNNING && !s.procs[p].pc.User?)
    ensures i < |s.procs| && s.procs[i].lock
  {
    assert ProcOk(s, p);
    var pc := s.procs[p].pc;
    i := if pc.ForkStart? then pc.k else if pc.ExitWakeInit? || pc.ExitWake? then pc.j else if pc.WaitScan? then pc.i else p;
  }

  /** Only a process on a CPU makes calls and executes them; one in user code may
      make any, and those that can fail may fail. */
  lemma WhoRuns(s: System, actions: seq<Action>, s': System, a: Action)
    requires Init(s) && Run(s, actions, s') && a.p < |s'.procs|
    ensures Enabled(s', a) && (IsCall(a) || a.Advance?) ==> s'.procs[a.p].state == RUNNING || s'.procs[a.p].pc.ExitUnlock?
    ensures s'.procs[a.p].state == RUNNING && s'.procs[a.p].pc.User? ==>
              Enabled(s', Wait(a.p)) && (a.p != INIT ==> Enabled(s', Exit(a.p)))
    ensures s'.procs[a.p].pc.ForkCopy? ==> Enabled(s', ForkFails(a.p))
    ensures s'.procs[a.p].pc.WaitScan? && s'.procs[a.p].pc.i >= |s'.procs| ==> Enabled(s', WaitKilled(a.p))
    ensures s'.procs[a.p].pc.WaitScan? && MayReap(s', a.p, s'.procs[a.p].pc.i) ==> Enabled(s', CopyoutFails(a.p))
  {
    hide Run;
    RunInv(s, actions, s');
    assert ProcOk(s', a.p);
  }
}
