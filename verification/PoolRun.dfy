/**
 The connection pool under any interleaving of threads.

 Between two critical sections a thread is asleep, woken, opening a connection, or somewhere inside
 `release`.  Connections are followed from the moment they are opened until they are closed.
 */
module PoolRun {
  import opened Common
  import opened Pool

  /**
   `connecting` threads hold a reserved slot and are opening a connection.  A connection handed to a
   caller is `held`; in `release` it becomes `returning` (rolled back, about to be put back) or
   `doomed` (dead, its slot about to be given up); `closing` connections have left the pool and are
   about to be closed.  `dirty` connections were used since their last rollback.  `wrappers` are the
   objects that callers have, whether or not they closed them.
   */
  datatype World = World(
    m: Monitor,
    connecting: nat,
    created: set<Conn>,
    held: set<Conn>,
    returning: set<Conn>,
    doomed: set<Conn>,
    closing: set<Conn>,
    closed: set<Conn>,
    dirty: set<Conn>,
    wrappers: map<Handle, Wrapper>)

  type Handle = nat    // identity of a wrapper

  datatype Step =
    | Acquire(t: Tid, expired: bool, h: Handle)
    | WaitTimedOut(t: Tid)
    | Connected(conn: Conn, h: Handle)
    | ConnectFailed
    | UseHandle(h: Handle)
    | Dies(conn: Conn)
    | CloseHandle(h: Handle, rollbackOk: bool)
    | GiveUpSlot(conn: Conn)
    | PutBack(conn: Conn)
    | DisposePool
    | CloseOne(conn: Conn)

  function Start(maxSize: int): World {
    World(Monitor(if maxSize < 1 then 1 else maxSize, [], 0, false, 0, [], {}), 0, {}, {}, {}, {}, {}, {}, {},
          map[])
  }

  function Open(w: World): set<Conn> {
    w.created - w.closed
  }

  /** Any caller may use or close any wrapper at any time; new wrappers and connections are new. */
  predicate Enabled(w: World, step: Step) {
    match step
    case Acquire(t, _, h) => t !in w.m.asleep && h !in w.wrappers
    case WaitTimedOut(t) => t in w.m.asleep
    case Connected(conn, h) => w.connecting > 0 && conn !in w.created && h !in w.wrappers
    case ConnectFailed => w.connecting > 0
    case UseHandle(_) => true
    case Dies(conn) => conn in w.created
    case CloseHandle(_, _) => true
    case GiveUpSlot(conn) => conn in w.doomed
    case PutBack(conn) => conn in w.returning
    case DisposePool => true
    case CloseOne(conn) => conn in w.closing
  }

  function Without(s: seq<Tid>, t: Tid): seq<Tid> {
    if s == [] then [] else if s[0] == t then s[1..] else [s[0]] + Without(s[1..], t)
  }

  function Elements<T>(s: seq<T>): set<T> {
    set x | x in s
  }

  /** The connection that the wrapper reaches, if it is open. */
  function Target(ws: map<Handle, Wrapper>, h: Handle): Option<Conn> {
    if h in ws then Reached(ws[h]) else None
  }

  /** `release` up to the point where it takes the lock. */
  function Released(w: World, conn: Conn, rollbackOk: bool): World {
    var w' := w.(held := w.held - {conn});
    if conn in w.closed then w'.(doomed := w.doomed + {conn})
    else if !rollbackOk then w'.(doomed := w.doomed + {conn}, closed := w.closed + {conn})
    else w'.(returning := w.returning + {conn}, dirty := w.dirty - {conn})
  }

  function Next(w: World, step: Step): World
    requires Enabled(w, step)
  {
    match step
    case Acquire(t, expired, h) =>
      var (m, r) := TryAcquire(w.m, t, Open(w), expired);
      (match r
       case Reused(conn) =>
         w.(m := m, held := w.held + {conn}, wrappers := w.wrappers[h := Wrapper(Some(conn), false)])
       case Reserved => w.(m := m, connecting := w.connecting + 1)
       case _ => w.(m := m))
    case WaitTimedOut(t) => w.(m := w.m.(asleep := Without(w.m.asleep, t)))
    case Connected(conn, h) =>
      w.(connecting := w.connecting - 1, created := w.created + {conn}, held := w.held + {conn},
         wrappers := w.wrappers[h := Wrapper(Some(conn), false)])
    case ConnectFailed => w.(m := Decrement(w.m), connecting := w.connecting - 1)
    case UseHandle(h) =>
      (match Target(w.wrappers, h)
       case None => w
       case Some(conn) => w.(dirty := w.dirty + {conn}))
    case Dies(conn) => w.(closed := w.closed + {conn})
    case CloseHandle(h, rollbackOk) =>
      if h !in w.wrappers then w
      else
        var (p, released) := CloseWrapper(w.wrappers[h]);
        var w' := w.(wrappers := w.wrappers[h := p]);
        (match released
         case None => w'
         case Some(conn) => Released(w', conn, rollbackOk))
    case GiveUpSlot(conn) => w.(m := Decrement(w.m), doomed := w.doomed - {conn})
    case PutBack(conn) =>
      var (m, kept) := ReturnToIdle(w.m, conn, conn in Open(w));
      w.(m := m, returning := w.returning - {conn},
         closing := if kept then w.closing else w.closing + {conn})
    case DisposePool =>
      var (m, orphans) := Dispose(w.m);
      w.(m := m, closing := w.closing + Elements(orphans))
    case CloseOne(conn) => w.(closing := w.closing - {conn}, closed := w.closed + {conn})
  }

  predicate ValidRun(w: World, steps: seq<Step>)
    decreases |steps|
  {
    steps != [] ==> Enabled(w, steps[0]) && ValidRun(Next(w, steps[0]), steps[1..])
  }

  function Run(w: World, steps: seq<Step>): World
    requires ValidRun(w, steps)
    decreases |steps|
  {
    if steps == [] then w else Run(Next(w, steps[0]), steps[1..])
  }

  // ---------- Invariants ----------

  ghost predicate Distinct<T>(s: seq<T>) {
    forall i, j :: 0 <= i < j < |s| ==> s[i] != s[j]
  }

  /** Connections outside the idle list that still occupy a slot. */
  function Out(w: World): nat {
    |w.held| + |w.returning| + |w.doomed| + w.connecting
  }

  /** `_total_connections` is exact and bounded. */
  ghost predicate Conserved(w: World) {
    1 <= w.m.maxSize && w.m.total == |w.m.idle| + Out(w) <= w.m.maxSize
  }

  /** Every connection is in one place, and one that left the pool is closed or about to be. */
  ghost predicate Owned(w: World) {
    && Distinct(w.m.idle)
    && (forall c <- w.m.idle :: c in w.created && c !in w.held && c !in w.returning && c !in w.doomed && c !in w.closing)
    && (forall c <- w.held :: c in w.created && c !in w.returning && c !in w.doomed && c !in w.closing)
    && (forall c <- w.returning :: c in w.created && c !in w.doomed && c !in w.closing)
    && (forall c <- w.doomed :: c in w.closed && c !in w.closing)
    && (forall c <- w.closing :: c in w.created)
    && (forall c <- w.closed :: c in w.created)
    && (forall c <- w.created :: c in w.m.idle || c in w.held || c in w.returning || c in w.closing || c in w.closed)
  }

  /** A live connection that another caller could be given carries no unfinished transaction. */
  ghost predicate RolledBack(w: World) {
    forall conn :: (conn in w.m.idle || conn in w.returning) && conn in Open(w) ==> conn !in w.dirty
  }

  /** An open wrapper has a connection to itself, and every connection that is out has a wrapper. */
  ghost predicate Handled(w: World) {
    && (forall h <- w.wrappers :: w.wrappers[h].closed <==> w.wrappers[h].adapter.None?)
    && (forall h :: Target(w.wrappers, h).Some? ==> Target(w.wrappers, h).value in w.held)
    && (forall h, g :: Target(w.wrappers, h).Some? && Target(w.wrappers, h) == Target(w.wrappers, g) ==> h == g)
    && (forall c <- w.held :: exists h :: Target(w.wrappers, h) == Some(c))
  }

  ghost predicate Queued(m: Monitor) {
    Distinct(m.asleep) && Elements(m.asleep) !! m.woken
  }

  function FreeSlots(m: Monitor): int {
    |m.idle| + m.maxSize - m.total
  }

  /** No lost wake-up: with a thread asleep, every free slot has a woken thread on its way to it. */
  ghost predicate NoLostWakeup(m: Monitor) {
    !m.disposed && m.asleep != [] ==> FreeSlots(m) <= |m.woken|
  }

  ghost predicate Disposed(m: Monitor) {
    m.disposed ==> m.idle == [] && m.asleep == []
  }

  ghost predicate Inv(w: World) {
    Conserved(w) && Owned(w) && RolledBack(w) && Handled(w) && Queued(w.m) && NoLostWakeup(w.m) && Disposed(w.m)
  }

  // ---------- Critical sections ----------

  lemma NotifyWakes(m: Monitor)
    requires Queued(m)
    ensures Queued(Notify(m))
    ensures m.asleep != [] ==> |Notify(m).woken| == |m.woken| + 1
    ensures Notify(m).idle == m.idle && Notify(m).total == m.total && Notify(m).maxSize == m.maxSize
    ensures Notify(m).disposed == m.disposed
    ensures Notify(m).asleep != [] ==> m.asleep != []
  {
    if m.asleep != [] {
      assert m.asleep[0] in Elements(m.asleep);
      forall t | t in m.asleep[1..]
        ensures t in m.asleep && t != m.asleep[0]
      {
      }
    }
  }

  /** Dropping dead connections only shortens the idle list, by connections that are not open. */
  lemma {:induction false} DropDeadIdle(m: Monitor, open: set<Conn>)
    ensures var r := DropDead(m, open);
            && r.idle <= m.idle
            && (forall i :: |r.idle| <= i < |m.idle| ==> m.idle[i] !in open)
    decreases |m.idle|
  {
    if m.idle != [] && m.idle[|m.idle| - 1] !in open {
      var m1 := Decrement(m.(idle := m.idle[..|m.idle| - 1]));
      assert m1.idle == m.idle[..|m.idle| - 1];
      DropDeadIdle(m1, open);
      assert DropDead(m, open) == DropDead(m1, open);
      hide DropDead, Decrement;
      forall i | |DropDead(m, open).idle| <= i < |m.idle|
        ensures m.idle[i] !in open
      {
        assert i < |m.idle| - 1 ==> m1.idle[i] == m.idle[i];
      }
    }
  }

  /** It frees no slot without waking somebody for it. */
  lemma {:induction false} DropDeadWakes(m: Monitor, open: set<Conn>)
    requires |m.idle| <= m.total && Queued(m)
    ensures var r := DropDead(m, open);
            && Queued(r)
            && r.total - |r.idle| == m.total - |m.idle|
            && (r.asleep != [] ==> m.asleep != [] && |r.woken| >= |m.woken|)
    decreases |m.idle|
  {
    if m.idle != [] && m.idle[|m.idle| - 1] !in open {
      var m1 := m.(idle := m.idle[..|m.idle| - 1], total := m.total - 1);
      assert Queued(m1);
      hide Queued, Notify;
      NotifyWakes(m1);
      assert Decrement(m.(idle := m.idle[..|m.idle| - 1])) == Notify(m1);
      DropDeadWakes(Notify(m1), open);
    }
  }

  lemma DropDeadEffect(m: Monitor, open: set<Conn>)
    requires |m.idle| <= m.total && Queued(m)
    ensures var r := DropDead(m, open);
            && Queued(r)
            && r.idle <= m.idle
            && (forall i :: |r.idle| <= i < |m.idle| ==> m.idle[i] !in open)
            && r.total - |r.idle| == m.total - |m.idle|
            && (r.asleep != [] ==> m.asleep != [] && |r.woken| >= |m.woken|)
  {
    hide Queued, DropDead;
    DropDeadIdle(m, open);
    DropDeadWakes(m, open);
  }

  lemma PrefixElements<T>(s: seq<T>, p: seq<T>)
    requires Distinct(s) && p <= s
    ensures Distinct(p)
    ensures forall x <- p :: x in s
    ensures forall i :: |p| <= i < |s| ==> s[i] !in p
    ensures forall x <- s :: x in p || exists i :: |p| <= i < |s| && s[i] == x
  {
  }

  lemma {:induction false} WithoutKeeps(s: seq<Tid>, t: Tid)
    requires Distinct(s)
    ensures Distinct(Without(s, t))
    ensures forall x :: x in Without(s, t) <==> x in s && x != t
  {
    if s != [] {
      WithoutKeeps(s[1..], t);
      assert s[0] !in s[1..];
      assert forall x :: x in s <==> x == s[0] || x in s[1..];
      if s[0] != t {
        var rest := Without(s[1..], t);
        assert Without(s, t) == [s[0]] + rest;
        assert s[0] !in rest;
      }
    }
  }

  // ---------- `acquire` keeps the invariant ----------

  /** What one turn of the acquire loop does to the monitor. */
  lemma TurnEffect(m: Monitor, t: Tid, open: set<Conn>, expired: bool)
    requires |m.idle| <= m.total <= m.maxSize && Queued(m) && t !in m.asleep
    requires NoLostWakeup(m) && Disposed(m)
    ensures var (m', r) := TryAcquire(m, t, open, expired);
            && Queued(m') && NoLostWakeup(m') && Disposed(m')
            && m'.maxSize == m.maxSize && m'.idle <= m.idle
            && m'.total - |m'.idle| == m.total - |m.idle| + (if r.Reused? || r.Reserved? then 1 else 0)
            && m'.total <= m.maxSize
            && (forall i :: |m'.idle| + (if r.Reused? then 1 else 0) <= i < |m.idle| ==> m.idle[i] !in open)
            && (r.Reused? ==> |m'.idle| < |m.idle| && r.conn == m.idle[|m'.idle|] && r.conn in open)
  {
    var m0 := m.(woken := m.woken - {t});
    if !m.disposed {
      assert |m0.woken| >= |m.woken| - 1;
      assert t !in m.woken ==> m0.woken == m.woken;
      DropDeadEffect(m0, open);
      var m1 := DropDead(m0, open);
      assert FreeSlots(m1) == FreeSlots(m);
    }
  }

  lemma AcquireKeepsOwned(w: World, m': Monitor, reused: Option<Conn>)
    requires Owned(w) && RolledBack(w) && m'.idle <= w.m.idle
    requires reused.Some? ==> |m'.idle| < |w.m.idle| && reused.value == w.m.idle[|m'.idle|]
    requires forall i :: |m'.idle| + (if reused.Some? then 1 else 0) <= i < |w.m.idle| ==> w.m.idle[i] !in Open(w)
    ensures var w' := w.(m := m', held := if reused.Some? then w.held + {reused.value} else w.held);
            Owned(w') && RolledBack(w') && |w'.held| == |w.held| + (if reused.Some? then 1 else 0)
  {
    PrefixElements(w.m.idle, m'.idle);
    assert forall c <- w.m.idle :: c in w.created;
    if reused.Some? {
      assert reused.value in w.m.idle && reused.value !in m'.idle;
    }
  }

  /** Wrappers do not decide where connections are. */
  lemma WrappersDecideNothing(w: World, ws: map<Handle, Wrapper>)
    requires Owned(w) && RolledBack(w)
    ensures Owned(w.(wrappers := ws)) && RolledBack(w.(wrappers := ws))
  {
  }

  lemma AcquireConnections(w: World, step: Step)
    requires Owned(w) && RolledBack(w) && step.Acquire? && Enabled(w, step)
    requires |w.m.idle| <= w.m.total <= w.m.maxSize && Queued(w.m) && NoLostWakeup(w.m) && Disposed(w.m)
    ensures var w' := Next(w, step);
            var r := TryAcquire(w.m, step.t, Open(w), step.expired).1;
            && Owned(w') && RolledBack(w')
            && Out(w') == Out(w) + (if r.Reused? || r.Reserved? then 1 else 0)
  {
    hide TryAcquire, Queued, NoLostWakeup, Disposed, Owned, RolledBack;
    TurnEffect(w.m, step.t, Open(w), step.expired);
    var (m', r) := TryAcquire(w.m, step.t, Open(w), step.expired);
    AcquireKeepsOwned(w, m', if r.Reused? then Some(r.conn) else None);
    if r.Reused? {
      var w1 := w.(m := m', held := w.held + {r.conn});
      WrappersDecideNothing(w1, w.wrappers[step.h := Wrapper(Some(r.conn), false)]);
    } else {
      IdleDecides(w.(m := m'), m', if r.Reserved? then w.connecting + 1 else w.connecting);
    }
  }

  /** A new wrapper around a connection that nobody holds. */
  lemma NewWrapper(w: World, w': World, h: Handle, conn: Conn)
    requires Handled(w) && h !in w.wrappers && conn !in w.held
    requires w'.held == w.held + {conn} && w'.wrappers == w.wrappers[h := Wrapper(Some(conn), false)]
    ensures Handled(w')
  {
    var ws, ws' := w.wrappers, w'.wrappers;
    assert forall g :: Target(ws', g) == if g == h then Some(conn) else Target(ws, g);
    forall c | c in w'.held
      ensures exists g :: Target(ws', g) == Some(c)
    {
      if c == conn {
        assert Target(ws', h) == Some(c);
      } else {
        var g :| Target(ws, g) == Some(c);
        assert Target(ws', g) == Some(c);
      }
    }
  }

  lemma AcquireHandles(w: World, step: Step)
    requires Handled(w) && Owned(w) && step.Acquire? && Enabled(w, step)
    requires |w.m.idle| <= w.m.total <= w.m.maxSize && Queued(w.m) && NoLostWakeup(w.m) && Disposed(w.m)
    ensures Handled(Next(w, step))
  {
    var r := TryAcquire(w.m, step.t, Open(w), step.expired).1;
    if r.Reused? {
      TurnEffect(w.m, step.t, Open(w), step.expired);
      assert r.conn in w.m.idle;
      assert r.conn !in w.held;
      hide TryAcquire, Owned, Handled;
      NewWrapper(w, Next(w, step), step.h, r.conn);
    }
  }

  lemma AcquireKeepsInv(w: World, step: Step)
    requires Inv(w) && step.Acquire? && Enabled(w, step)
    ensures Inv(Next(w, step))
  {
    hide TryAcquire, Queued, NoLostWakeup, Disposed, Owned, RolledBack, Handled, Out;
    TurnEffect(w.m, step.t, Open(w), step.expired);
    AcquireConnections(w, step);
    AcquireHandles(w, step);
    assert Next(w, step).m == TryAcquire(w.m, step.t, Open(w), step.expired).0;
  }

  // ---------- Every other step keeps the invariant ----------

  /** Slots that the step moves from outside the idle list back into the pool. */
  function SlotsLeft(step: Step): nat {
    if step.ConnectFailed? || step.GiveUpSlot? || step.PutBack? then 1 else 0
  }

  /** A slot is freed or a connection put back: somebody is woken if anybody sleeps. */
  lemma FreeingMonitor(w: World, step: Step)
    requires Conserved(w) && Queued(w.m) && NoLostWakeup(w.m) && Disposed(w.m) && Enabled(w, step)
    requires step.WaitTimedOut? || step.ConnectFailed? || step.GiveUpSlot? || step.PutBack? || step.DisposePool?
    ensures var m' := Next(w, step).m;
            && Queued(m') && NoLostWakeup(m') && Disposed(m')
            && m'.maxSize == w.m.maxSize
            && m'.total - |m'.idle| == w.m.total - |w.m.idle| - SlotsLeft(step)
            && m'.total <= w.m.total
  {
    match step
    case WaitTimedOut(t) => WithoutKeeps(w.m.asleep, t);
    case PutBack(conn) =>
      NotifyWakes(w.m.(idle := w.m.idle + [conn]));
      NotifyWakes(w.m.(total := Clamp(w.m.total - 1)));
    case _ => NotifyWakes(w.m.(total := Clamp(w.m.total - 1)));
  }

  lemma PutBackConnections(w: World, conn: Conn)
    requires Owned(w) && RolledBack(w) && Disposed(w.m) && conn in w.returning
    ensures Owned(Next(w, PutBack(conn))) && RolledBack(Next(w, PutBack(conn)))
  {
    var idle := w.m.idle + [conn];
    assert forall c :: c in idle <==> c in w.m.idle || c == conn;
    assert Next(w, PutBack(conn)).m.idle == idle || Next(w, PutBack(conn)).m.idle == w.m.idle;
  }

  lemma DisposeConnections(w: World)
    requires Owned(w) && RolledBack(w)
    ensures Owned(Next(w, DisposePool)) && RolledBack(Next(w, DisposePool))
  {
  }

  lemma ReleasedConnections(w: World, conn: Conn, rollbackOk: bool)
    requires Owned(w) && RolledBack(w) && conn in w.held
    ensures Owned(Released(w, conn, rollbackOk)) && RolledBack(Released(w, conn, rollbackOk))
  {
  }

  /** Closing an open wrapper releases a connection that is held; closing a closed one does nothing. */
  lemma CloseHandleIs(w: World, h: Handle, rollbackOk: bool)
    requires Handled(w)
    ensures Target(w.wrappers, h).None? ==> Next(w, CloseHandle(h, rollbackOk)) == w
    ensures Target(w.wrappers, h).Some? ==>
              && Target(w.wrappers, h).value in w.held
              && Next(w, CloseHandle(h, rollbackOk))
                 == Released(w.(wrappers := w.wrappers[h := Wrapper(None, true)]),
                             Target(w.wrappers, h).value, rollbackOk)
  {
    if h in w.wrappers && w.wrappers[h].closed {
      assert w.wrappers[h := w.wrappers[h]] == w.wrappers;
    }
  }

  lemma CloseHandleConnections(w: World, h: Handle, rollbackOk: bool)
    requires Owned(w) && RolledBack(w) && Handled(w)
    ensures Owned(Next(w, CloseHandle(h, rollbackOk))) && RolledBack(Next(w, CloseHandle(h, rollbackOk)))
  {
    hide Owned, RolledBack, Handled, Next, Released;
    CloseHandleIs(w, h, rollbackOk);
    if Target(w.wrappers, h).Some? {
      var ws := w.wrappers[h := Wrapper(None, true)];
      WrappersDecideNothing(w, ws);
      ReleasedConnections(w.(wrappers := ws), Target(w.wrappers, h).value, rollbackOk);
    }
  }

  lemma ClosedWrapper(w: World, w': World, h: Handle, conn: Conn)
    requires Handled(w) && Target(w.wrappers, h) == Some(conn)
    requires w'.held == w.held - {conn} && w'.wrappers == w.wrappers[h := Wrapper(None, true)]
    ensures Handled(w')
  {
    var ws, ws' := w.wrappers, w'.wrappers;
    assert forall g :: Target(ws', g) == if g == h then None else Target(ws, g);
    forall c | c in w'.held
      ensures exists g :: Target(ws', g) == Some(c)
    {
      var g :| Target(ws, g) == Some(c);
      assert Target(ws', g) == Some(c);
    }
  }

  lemma HandlesAfter(w: World, step: Step)
    requires Handled(w) && Owned(w) && Enabled(w, step) && !step.Acquire?
    ensures Handled(Next(w, step))
  {
    if step.Connected? {
      assert step.conn !in w.held;
      hide Handled, Owned;
      NewWrapper(w, Next(w, step), step.h, step.conn);
    } else if step.CloseHandle? {
      CloseHandleIs(w, step.h, step.rollbackOk);
      if Target(w.wrappers, step.h).Some? {
        hide Handled, Owned;
        ClosedWrapper(w, Next(w, step), step.h, Target(w.wrappers, step.h).value);
      }
    } else {
      SameHandles(w, Next(w, step));
    }
  }

  lemma SameHandles(w: World, w': World)
    requires Handled(w) && w'.held == w.held && w'.wrappers == w.wrappers
    ensures Handled(w')
  {
  }

  /** Of the monitor only the idle list matters for where connections are. */
  lemma IdleDecides(w: World, m: Monitor, connecting: nat)
    requires Owned(w) && RolledBack(w) && m.idle == w.m.idle
    ensures Owned(w.(m := m, connecting := connecting)) && RolledBack(w.(m := m, connecting := connecting))
  {
  }

  lemma GiveUpSlotConnections(w: World, conn: Conn)
    requires Owned(w) && RolledBack(w) && conn in w.doomed
    ensures Owned(Next(w, GiveUpSlot(conn))) && RolledBack(Next(w, GiveUpSlot(conn)))
  {
    IdleDecides(w, Decrement(w.m), w.connecting);
    var w1 := w.(m := Decrement(w.m));
    hide Decrement;
    assert Next(w, GiveUpSlot(conn)) == w1.(doomed := w.doomed - {conn});
  }

  lemma ConnectedConnections(w: World, conn: Conn, h: Handle)
    requires Owned(w) && RolledBack(w) && Enabled(w, Connected(conn, h))
    ensures Owned(Next(w, Connected(conn, h))) && RolledBack(Next(w, Connected(conn, h)))
  {
  }

  lemma UsedConnections(w: World, step: Step)
    requires Owned(w) && RolledBack(w) && Handled(w) && Enabled(w, step)
    requires step.UseHandle? || step.Dies? || step.CloseOne?
    ensures Owned(Next(w, step)) && RolledBack(Next(w, step))
  {
  }

  lemma OtherConnections(w: World, step: Step)
    requires Inv(w) && Enabled(w, step) && !step.Acquire?
    ensures Owned(Next(w, step)) && RolledBack(Next(w, step))
  {
    hide Owned, RolledBack, Handled, Queued, NoLostWakeup, Disposed, Conserved;
    match step
    case PutBack(conn) => PutBackConnections(w, conn);
    case DisposePool => DisposeConnections(w);
    case CloseHandle(h, rollbackOk) => CloseHandleConnections(w, h, rollbackOk);
    case GiveUpSlot(conn) => GiveUpSlotConnections(w, conn);
    case Connected(conn, h) => ConnectedConnections(w, conn, h);
    case ConnectFailed => IdleDecides(w, Decrement(w.m), w.connecting - 1);
    case WaitTimedOut(t) => IdleDecides(w, w.m.(asleep := Without(w.m.asleep, t)), w.connecting);
    case _ => UsedConnections(w, step);
  }

  lemma ReleasedOut(w: World, conn: Conn, rollbackOk: bool)
    requires Owned(w) && conn in w.held
    ensures Out(Released(w, conn, rollbackOk)) == Out(w)
  {
    assert conn !in w.doomed && conn !in w.returning;
    hide Owned;
    var w' := Released(w, conn, rollbackOk);
    assert |w.held - {conn}| == |w.held| - 1;
    if w'.doomed != w.doomed {
      assert |w'.doomed| == |w.doomed| + 1 && w'.returning == w.returning;
    } else {
      assert |w'.returning| == |w.returning| + 1;
    }
  }

  lemma CloseHandleOut(w: World, h: Handle, rollbackOk: bool)
    requires Owned(w) && RolledBack(w) && Handled(w)
    ensures Out(Next(w, CloseHandle(h, rollbackOk))) == Out(w)
  {
    hide Owned, RolledBack, Handled, Next, Released;
    CloseHandleIs(w, h, rollbackOk);
    if Target(w.wrappers, h).Some? {
      var w1 := w.(wrappers := w.wrappers[h := Wrapper(None, true)]);
      WrappersDecideNothing(w, w1.wrappers);
      ReleasedOut(w1, Target(w.wrappers, h).value, rollbackOk);
    }
  }

  lemma ConnectedOut(w: World, conn: Conn, h: Handle)
    requires Enabled(w, Connected(conn, h)) && conn !in w.held
    ensures Out(Next(w, Connected(conn, h))) == Out(w)
  {
    assert |w.held + {conn}| == |w.held| + 1;
  }

  lemma GiveUpSlotOut(w: World, conn: Conn)
    requires conn in w.doomed
    ensures Out(Next(w, GiveUpSlot(conn))) == Out(w) - 1
  {
    hide Decrement;
    assert |w.doomed - {conn}| == |w.doomed| - 1;
  }

  lemma PutBackOut(w: World, conn: Conn)
    requires conn in w.returning
    ensures Out(Next(w, PutBack(conn))) == Out(w) - 1
  {
    hide ReturnToIdle;
    assert |w.returning - {conn}| == |w.returning| - 1;
  }

  lemma StillOut(w: World, step: Step)
    requires Enabled(w, step)
    requires step.WaitTimedOut? || step.ConnectFailed? || step.UseHandle? || step.Dies? || step.DisposePool? || step.CloseOne?
    ensures Out(Next(w, step)) == Out(w) - SlotsLeft(step)
  {
    hide Decrement, Dispose, Without, Elements;
  }

  /** A connection moves from one place outside the idle list to another, or leaves all of them. */
  lemma OutAfter(w: World, step: Step)
    requires Owned(w) && RolledBack(w) && Handled(w) && Enabled(w, step) && !step.Acquire?
    ensures Out(Next(w, step)) == Out(w) - SlotsLeft(step)
  {
    assert step.Connected? ==> step.conn !in w.held;
    hide Owned, RolledBack, Handled, Next, Out;
    if step.Connected? {
      ConnectedOut(w, step.conn, step.h);
    } else if step.CloseHandle? {
      CloseHandleOut(w, step.h, step.rollbackOk);
    } else if step.GiveUpSlot? {
      GiveUpSlotOut(w, step.conn);
    } else if step.PutBack? {
      PutBackOut(w, step.conn);
    } else {
      StillOut(w, step);
    }
  }

  lemma OtherCounts(w: World, step: Step)
    requires Inv(w) && Enabled(w, step) && !step.Acquire?
    requires Next(w, step).m.maxSize == w.m.maxSize && Next(w, step).m.total <= w.m.total
    requires Next(w, step).m.total - |Next(w, step).m.idle|
          == w.m.total - |w.m.idle| - SlotsLeft(step)
    ensures Conserved(Next(w, step))
  {
    hide Next, Out, Owned, Queued, NoLostWakeup, Disposed, RolledBack, Handled;
    OutAfter(w, step);
  }

  lemma StepKeepsInv(w: World, step: Step)
    requires Inv(w) && Enabled(w, step)
    ensures Inv(Next(w, step))
  {
    if step.Acquire? {
      AcquireKeepsInv(w, step);
    } else {
      if step.WaitTimedOut? || step.ConnectFailed? || step.GiveUpSlot? || step.PutBack? || step.DisposePool? {
        FreeingMonitor(w, step);
      }
      hide Queued, NoLostWakeup, Disposed, RolledBack, Owned, Handled;
      OtherConnections(w, step);
      HandlesAfter(w, step);
      OtherCounts(w, step);
    }
  }

  /** Every state of every run: conservation, ownership, rollback and wake-up all hold. */
  lemma {:induction false} RunKeepsInv(w: World, steps: seq<Step>)
    requires Inv(w) && ValidRun(w, steps)
    ensures Inv(Run(w, steps))
    decreases |steps|
  {
    if steps != [] {
      StepKeepsInv(w, steps[0]);
      RunKeepsInv(Next(w, steps[0]), steps[1..]);
    }
  }
}
