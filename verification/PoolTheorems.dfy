/**
 What callers and operators of the pool can rely on in every reachable state.
 */
module PoolTheorems {
  import opened Common
  import opened Pool
  import opened PoolRun

  /** Every state that any interleaving reaches from a new pool satisfies the invariant. */
  lemma Reachable(maxSize: int, steps: seq<Step>)
    requires ValidRun(Start(maxSize), steps)
    ensures Inv(Run(Start(maxSize), steps))
  {
    RunKeepsInv(Start(maxSize), steps);
  }

  /** The guards `max(0, ...)` and `len(idle) < max_size` are always satisfied. */
  lemma GuardsNeverBite(w: World, step: Step)
    requires Inv(w) && Enabled(w, step)
    ensures step.ConnectFailed? || step.GiveUpSlot? || step.PutBack? ==> w.m.total >= 1
    ensures step.PutBack? ==> |w.m.idle| < w.m.maxSize
    ensures step.PutBack? && !w.m.disposed && step.conn in Open(w) ==> Next(w, step).m.idle == w.m.idle + [step.conn]
    ensures step.DisposePool? ==> w.m.total >= |w.m.idle|
  {
  }

  /** `metrics()['in_use']` counts exactly the connections that are out of the pool or being opened. */
  lemma MetricsExact(w: World)
    requires Inv(w)
    ensures MetricsOf(w.m).inUse == Out(w) && MetricsOf(w.m).total <= MetricsOf(w.m).maxSize
    ensures w.m.disposed ==> MetricsOf(w.m).idle == 0
  {
  }

  /** Some connection in the idle list could be handed out. */
  ghost predicate Reusable(w: World) {
    exists i :: 0 <= i < |w.m.idle| && w.m.idle[i] in Open(w)
  }

  /** The last open connection of the idle list, at place `i`. */
  ghost predicate LastOpen(w: World, i: nat) {
    && i < |w.m.idle| && w.m.idle[i] in Open(w)
    && forall j :: i < j < |w.m.idle| ==> w.m.idle[j] !in Open(w)
  }

  /**
   Which of its five answers `acquire` gives under the lock.  A disposed pool refuses.  A live one
   hands out the last idle connection that is still open, else reserves a slot if fewer than
   `max_size` connections are out, else lets the caller sleep behind all other sleepers until its
   deadline has passed, and only then gives up.
   */
  lemma AcquireExact(w: World, t: Tid, expired: bool)
    requires Inv(w) && t !in w.m.asleep
    ensures var (m, r) := TryAcquire(w.m, t, Open(w), expired);
            && (r.Refused? <==> w.m.disposed)
            && (r.Reused? <==> !w.m.disposed && Reusable(w))
            && (r.Reserved? <==> !w.m.disposed && !Reusable(w) && Out(w) < w.m.maxSize)
            && (r.TimedOut? <==> !w.m.disposed && !Reusable(w) && Out(w) == w.m.maxSize && expired)
            && (r.Waits? <==> !w.m.disposed && !Reusable(w) && Out(w) == w.m.maxSize && !expired)
  {
    var m0 := w.m.(woken := w.m.woken - {t});
    DropDeadEffect(m0, Open(w));
    var m1 := DropDead(m0, Open(w));
    assert m1.idle != [] ==> w.m.idle[|m1.idle| - 1] in Open(w);
    assert forall i :: 0 <= i < |m1.idle| ==> m1.idle[i] == w.m.idle[i];
    hide Owned, RolledBack, Handled, Queued, NoLostWakeup, DropDead;
  }

  /** And what each of them leaves behind. */
  lemma AcquireLeaves(w: World, t: Tid, expired: bool)
    requires Inv(w) && t !in w.m.asleep
    ensures var (m, r) := TryAcquire(w.m, t, Open(w), expired);
            && (r.Reused? ==> LastOpen(w, |m.idle|) && r.conn == w.m.idle[|m.idle|] && m.idle == w.m.idle[..|m.idle|])
            && (r.Reserved? ==> m.idle == [] && m.total == Out(w) + 1)
            && (r.TimedOut? ==> m == w.m.(woken := w.m.woken - {t}, exhaustions := w.m.exhaustions + 1))
            && (r.Waits? ==> m == w.m.(woken := w.m.woken - {t}, asleep := w.m.asleep + [t]))
            && (r.Refused? ==> m == w.m.(woken := w.m.woken - {t}))
  {
    TurnEffect(w.m, t, Open(w), expired);
    if w.m.idle == [] {
      assert DropDead(w.m.(woken := w.m.woken - {t}), Open(w)) == w.m.(woken := w.m.woken - {t});
    } else if TryAcquire(w.m, t, Open(w), expired).1.TimedOut? || TryAcquire(w.m, t, Open(w), expired).1.Waits? {
      BlockedMeansExhausted(w, t, expired);
      assert false;
    }
  }

  /** A caller waits or times out only when every slot is in use. */
  lemma BlockedMeansExhausted(w: World, t: Tid, expired: bool)
    requires Inv(w) && t !in w.m.asleep
    requires var r := TryAcquire(w.m, t, Open(w), expired).1; r.Waits? || r.TimedOut?
    ensures Out(w) == w.m.maxSize && w.m.idle == []
  {
    DropDeadEffect(w.m.(woken := w.m.woken - {t}), Open(w));
  }

  /** With sleepers and nobody on the way, every slot is in use, so some release is still to come. */
  lemma SleepersAwaitRelease(w: World)
    requires Inv(w) && !w.m.disposed && w.m.asleep != [] && w.m.woken == {}
    ensures w.m.idle == [] && w.m.total == w.m.maxSize && Out(w) == w.m.maxSize >= 1
  {
  }

  /** And that release wakes the thread that has waited longest. */
  lemma ReleaseWakes(w: World, step: Step)
    requires Inv(w) && Enabled(w, step) && w.m.asleep != []
    requires step.ConnectFailed? || step.GiveUpSlot? || step.PutBack?
    ensures w.m.asleep[0] in Next(w, step).m.woken && Next(w, step).m.asleep == w.m.asleep[1..]
    ensures FreeSlots(Next(w, step).m) == FreeSlots(w.m) + 1
  {
  }

  /** Disposing the pool wakes every sleeper, nobody falls asleep again, and callers are refused. */
  lemma DisposeReleasesSleepers(w: World, t: Tid, expired: bool)
    requires Inv(w)
    ensures Next(w, DisposePool).m.asleep == [] && Next(w, DisposePool).m.disposed
    ensures !w.m.disposed ==> forall s <- w.m.asleep :: s in Next(w, DisposePool).m.woken
    ensures w.m.disposed ==> w.m.asleep == [] && TryAcquire(w.m, t, Open(w), expired).1 == Refused
  {
  }

  /** After disposal, once the last holder has closed, nothing is left open and the count is zero. */
  lemma DisposedDrains(maxSize: int, steps: seq<Step>)
    requires ValidRun(Start(maxSize), steps)
    requires var w := Run(Start(maxSize), steps);
             && w.m.disposed && w.connecting == 0
             && w.held == {} && w.returning == {} && w.doomed == {} && w.closing == {}
    ensures var w := Run(Start(maxSize), steps); w.created <= w.closed && w.m.total == 0
  {
    Reachable(maxSize, steps);
  }

  /** A caller is never handed a connection with an unfinished transaction or one that is in use. */
  lemma ReuseIsClean(w: World, t: Tid, expired: bool, h: Handle)
    requires Inv(w) && Enabled(w, Acquire(t, expired, h))
    requires TryAcquire(w.m, t, Open(w), expired).1.Reused?
    ensures var conn := TryAcquire(w.m, t, Open(w), expired).1.conn;
            && conn in Open(w) && conn !in w.dirty
            && conn !in w.held && conn !in w.returning && conn !in w.closing
            && conn !in Next(w, Acquire(t, expired, h)).m.idle
  {
    TurnEffect(w.m, t, Open(w), expired);
    AcquireKeepsInv(w, Acquire(t, expired, h));
  }

  // ---------- Wrappers ----------

  /**
   In every run, an open wrapper reaches a connection that is out of the pool and that no other open
   wrapper reaches; a closed one reaches nothing.
   */
  lemma WrapperOwns(maxSize: int, steps: seq<Step>, h: Handle, g: Handle)
    requires ValidRun(Start(maxSize), steps)
    requires var w := Run(Start(maxSize), steps); h in w.wrappers
    ensures var w := Run(Start(maxSize), steps);
            match Target(w.wrappers, h)
            case None => w.wrappers[h] == Wrapper(None, true)
            case Some(c) => && c in w.held && c !in w.m.idle && c !in w.returning && c !in w.closing
                            && (Target(w.wrappers, g) == Some(c) ==> g == h)
  {
    Reachable(maxSize, steps);
  }

  /** However often a closed wrapper is used or closed again, nothing changes. */
  lemma StaleWrapperHarmless(w: World, h: Handle, rollbackOk: bool)
    requires Inv(w) && Target(w.wrappers, h).None?
    ensures Next(w, UseHandle(h)) == w && Next(w, CloseHandle(h, rollbackOk)) == w
  {
    CloseHandleIs(w, h, rollbackOk);
  }

  lemma WrapperAfter(w: World, step: Step, h: Handle)
    requires Enabled(w, step) && h in w.wrappers
    ensures h in Next(w, step).wrappers
    ensures Target(Next(w, step).wrappers, h)
         == if step.CloseHandle? && step.h == h then None else Target(w.wrappers, h)
  {
    hide TryAcquire, Decrement, ReturnToIdle, Dispose;
  }

  lemma DirtyAfter(w: World, step: Step, c: Conn)
    requires Enabled(w, step) && c in w.held
    requires !(step.CloseHandle? && Target(w.wrappers, step.h) == Some(c))
    ensures c in Next(w, step).held
    ensures c in Next(w, step).dirty <==> c in w.dirty || (step.UseHandle? && Target(w.wrappers, step.h) == Some(c))
  {
    hide TryAcquire, Decrement, ReturnToIdle, Dispose;
  }

  /**
   Until its own wrapper is closed a connection stays out, with that wrapper; and nobody but a call
   through that wrapper makes it dirty.  No step of any other caller, with whatever wrapper, can do
   either.
   */
  lemma HeldUntilClosed(w: World, step: Step, h: Handle)
    requires Inv(w) && Enabled(w, step) && Target(w.wrappers, h).Some?
    requires !(step.CloseHandle? && step.h == h)
    ensures var c := Target(w.wrappers, h).value;
            && c in w.held && c in Next(w, step).held
            && Target(Next(w, step).wrappers, h) == Some(c)
            && (c in Next(w, step).dirty <==> c in w.dirty || step == UseHandle(h))
  {
    var c := Target(w.wrappers, h).value;
    assert Handled(w);
    assert c in w.held;
    assert forall g :: Target(w.wrappers, g) == Some(c) ==> g == h;
    hide Inv, Next, Handled;
    WrapperAfter(w, step, h);
    DirtyAfter(w, step, c);
  }

  /** The critical section that ends the release of a connection. */
  function EndOfRelease(w: World, conn: Conn): Step {
    if conn in w.doomed then GiveUpSlot(conn) else PutBack(conn)
  }

  lemma CloseEffect(w: World, h: Handle, rollbackOk: bool, conn: Conn)
    requires Inv(w) && Target(w.wrappers, h) == Some(conn)
    ensures var w1 := Next(w, CloseHandle(h, rollbackOk));
            && Inv(w1) && w1.m == w.m
            && (if conn in w.closed || !rollbackOk then conn in w1.doomed
                else conn in w1.returning && conn in Open(w1) && conn !in w1.dirty)
  {
    CloseHandleIs(w, h, rollbackOk);
    assert conn in w.held && conn in w.created;
    hide Inv, Target;
    StepKeepsInv(w, CloseHandle(h, rollbackOk));
  }

  lemma EndOfReleaseEffect(w: World, conn: Conn)
    requires Inv(w) && (conn in w.doomed || (conn in w.returning && conn in Open(w) && conn !in w.dirty))
    ensures Enabled(w, EndOfRelease(w, conn))
    ensures var w2 := Next(w, EndOfRelease(w, conn));
            && (conn in w2.m.idle <==> conn !in w.doomed && !w.m.disposed)
            && (if conn in w2.m.idle then w2.m.idle == w.m.idle + [conn] && conn in Open(w2) && conn !in w2.dirty
                else w2.m.idle == w.m.idle && (conn in w2.closed || conn in w2.closing))
            && FreeSlots(w2.m) == FreeSlots(w.m) + 1
            && (w.m.asleep != [] ==> w2.m.asleep == w.m.asleep[1..] && w.m.asleep[0] in w2.m.woken)
  {
    GuardsNeverBite(w, EndOfRelease(w, conn));
    assert conn !in w.m.idle && w.m.total >= 1 && (conn in w.doomed ==> conn in w.closed);
    hide Inv;
  }

  /**
   Closing an open wrapper makes its connection available again, clean and on top of the idle list,
   exactly when it is alive, could be rolled back and the pool is not disposed; otherwise it is closed
   or about to be.  Either way one slot becomes free, and the longest sleeper is woken for it.
   */
  lemma ReleaseExact(w: World, h: Handle, rollbackOk: bool)
    requires Inv(w) && Target(w.wrappers, h).Some?
    ensures var conn := Target(w.wrappers, h).value;
            var w1 := Next(w, CloseHandle(h, rollbackOk));
            && Enabled(w1, EndOfRelease(w1, conn))
            && var w2 := Next(w1, EndOfRelease(w1, conn));
               && (conn in w2.m.idle <==> conn !in w.closed && rollbackOk && !w.m.disposed)
               && (if conn in w2.m.idle then w2.m.idle == w.m.idle + [conn] && conn in Open(w2) && conn !in w2.dirty
                   else w2.m.idle == w.m.idle && (conn in w2.closed || conn in w2.closing))
               && FreeSlots(w2.m) == FreeSlots(w.m) + 1
               && (w.m.asleep != [] ==> w2.m.asleep == w.m.asleep[1..] && w.m.asleep[0] in w2.m.woken)
  {
    var conn := Target(w.wrappers, h).value;
    hide Inv, Next, Target, EndOfRelease, FreeSlots;
    CloseEffect(w, h, rollbackOk, conn);
    EndOfReleaseEffect(Next(w, CloseHandle(h, rollbackOk)), conn);
  }

  function Releases(w: World, steps: seq<Step>, h: Handle): nat
    requires ValidRun(w, steps)
    decreases |steps|
  {
    if steps == [] then 0
    else
      (if steps[0].CloseHandle? && steps[0].h == h && Target(w.wrappers, h).Some? then 1 else 0)
      + Releases(Next(w, steps[0]), steps[1..], h)
  }

  /** Over a whole run a wrapper gives its connection back at most once, and exactly once if it ends up closed. */
  lemma {:induction false} ReleasedOnce(w: World, steps: seq<Step>, h: Handle)
    requires Inv(w) && ValidRun(w, steps) && h in w.wrappers
    ensures Releases(w, steps, h)
         == if Target(w.wrappers, h).Some? && Target(Run(w, steps).wrappers, h).None? then 1 else 0
    ensures Target(w.wrappers, h).None? ==> Target(Run(w, steps).wrappers, h).None?
    decreases |steps|
  {
    if steps != [] {
      hide Inv, Next;
      WrapperAfter(w, steps[0], h);
      StepKeepsInv(w, steps[0]);
      ReleasedOnce(Next(w, steps[0]), steps[1..], h);
    }
  }

  // ---------- The exhaustion counter ----------

  function TimeOuts(w: World, steps: seq<Step>): nat
    requires ValidRun(w, steps)
    decreases |steps|
  {
    if steps == [] then 0
    else
      (if steps[0].Acquire? && TryAcquire(w.m, steps[0].t, Open(w), steps[0].expired).1.TimedOut? then 1 else 0)
      + TimeOuts(Next(w, steps[0]), steps[1..])
  }

  lemma StepCounts(w: World, step: Step)
    requires Enabled(w, step)
    ensures Next(w, step).m.exhaustions
         == w.m.exhaustions
            + (if step.Acquire? && TryAcquire(w.m, step.t, Open(w), step.expired).1.TimedOut? then 1 else 0)
  {
  }

  /** `exhaustions_total` is the number of callers that timed out, in every run. */
  lemma {:induction false} ExhaustionsExact(w: World, steps: seq<Step>)
    requires ValidRun(w, steps)
    ensures Run(w, steps).m.exhaustions == w.m.exhaustions + TimeOuts(w, steps)
    decreases |steps|
  {
    if steps != [] {
      StepCounts(w, steps[0]);
      hide Next;
      ExhaustionsExact(Next(w, steps[0]), steps[1..]);
    }
  }
}
