/**
 Progress of a sleeping thread: it is woken after as many slots have come free as threads slept before it.
 */
module PoolProgress {
  import opened Pool
  import opened PoolRun

  /** Slots freed and connections put back by a step; each comes with one wake-up. */
  function Freed(w: World, step: Step): nat
    requires Enabled(w, step)
  {
    match step
    case Acquire(t, expired, _) =>
      if w.m.disposed then 0
      else
        var m0 := w.m.(woken := w.m.woken - {t});
        DropDeadIdle(m0, Open(w));
        |m0.idle| - |DropDead(m0, Open(w)).idle|
    case ConnectFailed => 1
    case GiveUpSlot(_) => 1
    case PutBack(_) => 1
    case _ => 0
  }

  function FreedBy(w: World, steps: seq<Step>): nat
    requires ValidRun(w, steps)
    decreases |steps|
  {
    if steps == [] then 0 else Freed(w, steps[0]) + FreedBy(Next(w, steps[0]), steps[1..])
  }

  /** The thread is woken at some point of the run. */
  predicate WokenDuring(w: World, steps: seq<Step>, t: Tid)
    requires ValidRun(w, steps)
    decreases |steps|
  {
    t in w.m.woken || (steps != [] && WokenDuring(Next(w, steps[0]), steps[1..], t))
  }

  /** The thread is woken, or it sleeps at most at place `k`. */
  predicate Within(m: Monitor, t: Tid, k: int) {
    t in m.woken || exists i :: 0 <= i < |m.asleep| && i <= k && m.asleep[i] == t
  }

  lemma NotifyMoves(m: Monitor, t: Tid, k: int)
    requires Within(m, t, k)
    ensures Within(Notify(m), t, k - 1)
  {
    if t !in m.woken {
      var i :| 0 <= i < |m.asleep| && i <= k && m.asleep[i] == t;
      if i > 0 {
        assert Notify(m).asleep[i - 1] == t;
      }
    }
  }

  lemma WithinSame(m: Monitor, m': Monitor, t: Tid, k: int)
    requires Within(m, t, k) && m.asleep <= m'.asleep && (t in m.woken ==> t in m'.woken)
    ensures Within(m', t, k)
  {
    if t !in m.woken {
      var i :| 0 <= i < |m.asleep| && i <= k && m.asleep[i] == t;
      assert m'.asleep[i] == t;
    }
  }

  lemma DecrementMoves(m: Monitor, t: Tid, k: int)
    requires Within(m, t, k)
    ensures Within(Decrement(m), t, k - 1)
  {
    WithinSame(m, m.(total := Clamp(m.total - 1)), t, k);
    NotifyMoves(m.(total := Clamp(m.total - 1)), t, k);
  }

  /** Each dead connection that is dropped brings the thread one place forward. */
  lemma {:induction false} DropDeadMoves(m: Monitor, open: set<Conn>, t: Tid, k: int)
    requires Within(m, t, k)
    ensures |DropDead(m, open).idle| <= |m.idle|
    ensures Within(DropDead(m, open), t, k - (|m.idle| - |DropDead(m, open).idle|))
    decreases |m.idle|
  {
    if m.idle != [] && m.idle[|m.idle| - 1] !in open {
      var m1 := m.(idle := m.idle[..|m.idle| - 1]);
      WithinSame(m, m1, t, k);
      DecrementMoves(m1, t, k);
      assert |Decrement(m1).idle| == |m.idle| - 1;
      hide Decrement, Within;
      DropDeadMoves(Decrement(m1), open, t, k - 1);
    }
  }

  lemma AcquireMoves(w: World, step: Step, t: Tid, k: int)
    requires step.Acquire? && Enabled(w, step) && t in w.m.asleep && Within(w.m, t, k) && t !in w.m.woken
    requires !w.m.disposed
    ensures Within(Next(w, step).m, t, k - Freed(w, step))
  {
    var m0 := w.m.(woken := w.m.woken - {step.t});
    WithinSame(w.m, m0, t, k);
    DropDeadMoves(m0, Open(w), t, k);
    var m1 := DropDead(m0, Open(w));
    var m2 := Next(w, step).m;
    assert m1.asleep <= m2.asleep && m2.woken == m1.woken;
    hide DropDead, Next, Within;
    WithinSame(m1, m2, t, k - Freed(w, step));
  }

  /** A thread that gives up waiting makes room for those behind it. */
  lemma {:induction false} WithoutMoves(s: seq<Tid>, t: Tid, u: Tid, i: nat)
    requires i < |s| && s[i] == t && u != t
    ensures exists j :: 0 <= j <= i && j < |Without(s, u)| && Without(s, u)[j] == t
  {
    if s[0] == u {
      assert i > 0 && Without(s, u)[i - 1] == t;
    } else if i == 0 {
      assert Without(s, u)[0] == t;
    } else {
      WithoutMoves(s[1..], t, u, i - 1);
      var j :| 0 <= j <= i - 1 && j < |Without(s[1..], u)| && Without(s[1..], u)[j] == t;
      assert Without(s, u)[j + 1] == t;
    }
  }

  lemma TimeOutMoves(m: Monitor, t: Tid, u: Tid, k: int)
    requires Within(m, t, k) && u != t
    ensures Within(m.(asleep := Without(m.asleep, u)), t, k)
  {
    if t !in m.woken {
      var i :| 0 <= i < |m.asleep| && i <= k && m.asleep[i] == t;
      WithoutMoves(m.asleep, t, u, i);
    }
  }

  lemma PutBackMoves(m: Monitor, conn: Conn, open: bool, t: Tid, k: int)
    requires Within(m, t, k)
    ensures Within(ReturnToIdle(m, conn, open).0, t, k - 1)
  {
    WithinSame(m, m.(idle := m.idle + [conn]), t, k);
    hide Notify, Decrement, Within;
    NotifyMoves(m.(idle := m.idle + [conn]), t, k);
    DecrementMoves(m, t, k);
  }

  /** The step is neither this thread's time-out nor the end of the pool. */
  predicate Spares(step: Step, t: Tid) {
    !(step.WaitTimedOut? && step.t == t) && !step.DisposePool?
  }

  lemma StepMoves(w: World, step: Step, t: Tid, k: int)
    requires Enabled(w, step) && Spares(step, t) && !w.m.disposed
    requires t !in w.m.woken && Within(w.m, t, k)
    ensures Within(Next(w, step).m, t, k - Freed(w, step)) && !Next(w, step).m.disposed
  {
    assert t in w.m.asleep;
    hide Within, DropDead;
    match step
    case Acquire(_, _, _) => AcquireMoves(w, step, t, k);
    case WaitTimedOut(u) => TimeOutMoves(w.m, t, u, k);
    case ConnectFailed => DecrementMoves(w.m, t, k);
    case GiveUpSlot(_) => DecrementMoves(w.m, t, k);
    case PutBack(conn) => PutBackMoves(w.m, conn, conn in Open(w), t, k);
    case _ =>
  }

  /**
   A thread with `k` sleepers before it is woken, at the latest, by the next `k + 1` slots freed or
   connections put back, whatever the other threads do, unless it times out or the pool is disposed.
   */
  lemma {:induction false} SleeperIsWoken(w: World, steps: seq<Step>, t: Tid, k: nat)
    requires ValidRun(w, steps) && !w.m.disposed
    requires k < |w.m.asleep| && w.m.asleep[k] == t
    requires forall i :: 0 <= i < |steps| ==> Spares(steps[i], t)
    requires FreedBy(w, steps) > k
    ensures WokenDuring(w, steps, t)
  {
    assert Within(w.m, t, k);
    WokenWithin(w, steps, t, k);
  }

  lemma {:induction false} WokenWithin(w: World, steps: seq<Step>, t: Tid, k: int)
    requires ValidRun(w, steps) && !w.m.disposed && Within(w.m, t, k)
    requires forall i :: 0 <= i < |steps| ==> Spares(steps[i], t)
    requires FreedBy(w, steps) > k
    ensures WokenDuring(w, steps, t)
    decreases |steps|
  {
    if t !in w.m.woken && steps != [] {
      assert forall i :: 0 <= i < |steps[1..]| ==> steps[1..][i] == steps[i + 1];
      hide Next, Freed, Within, Spares;
      StepMoves(w, steps[0], t, k);
      WokenWithin(Next(w, steps[0]), steps[1..], t, k - Freed(w, steps[0]));
    }
  }
}
