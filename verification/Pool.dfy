/**
 The monitor of `_PostgresAdapterPool` in app/db/connection.py.

 `Monitor` is everything the pool's lock protects, including the waiters of its condition variable.
 Each function on it is one critical section; the methods of `AdapterPool` are proved to perform
 exactly these.
 */
module Pool {
  import opened Common

  type Tid = nat     // a thread
  type Conn = nat    // a raw database connection

  /**
   `asleep` lists the threads waiting on the condition, longest waiting first; `woken` are the
   threads that were notified and have not yet got the lock back.
   */
  datatype Monitor = Monitor(
    maxSize: nat,
    idle: seq<Conn>,
    total: nat,
    disposed: bool,
    exhaustions: nat,
    asleep: seq<Tid>,
    woken: set<Tid>)

  datatype Acquired =
    | Reused(conn: Conn)
    | Reserved            // a slot is taken, the connection is opened outside the lock
    | Waits
    | TimedOut
    | Refused             // the pool is disposed

  function Notify(m: Monitor): Monitor {
    if m.asleep == [] then m
    else m.(asleep := m.asleep[1..], woken := m.woken + {m.asleep[0]})
  }

  function NotifyAll(m: Monitor): Monitor {
    m.(asleep := [], woken := m.woken + set t | t in m.asleep)
  }

  function Clamp(n: int): nat {
    if n < 0 then 0 else n
  }

  function Decrement(m: Monitor): Monitor {
    Notify(m.(total := Clamp(m.total - 1)))
  }

  /** Pop dead connections off the idle stack until it is empty or a live one is on top. */
  function DropDead(m: Monitor, open: set<Conn>): (r: Monitor)
    ensures r.idle != [] ==> r.idle[|r.idle| - 1] in open
    ensures r.maxSize == m.maxSize && r.disposed == m.disposed && r.exhaustions == m.exhaustions
    decreases |m.idle|
  {
    if m.idle == [] || m.idle[|m.idle| - 1] in open then m
    else DropDead(Decrement(m.(idle := m.idle[..|m.idle| - 1])), open)
  }

  /** One turn of the loop in `acquire`, from getting the lock to giving it up. */
  function TryAcquire(m: Monitor, t: Tid, open: set<Conn>, expired: bool): (Monitor, Acquired) {
    var m0 := m.(woken := m.woken - {t});
    if m0.disposed then (m0, Refused)
    else
      var m1 := DropDead(m0, open);
      if m1.idle != [] then
        (m1.(idle := m1.idle[..|m1.idle| - 1]), Reused(m1.idle[|m1.idle| - 1]))
      else if m1.total < m1.maxSize then (m1.(total := m1.total + 1), Reserved)
      else if expired then (m1.(exhaustions := m1.exhaustions + 1), TimedOut)
      else (m1.(asleep := m1.asleep + [t]), Waits)
  }

  /** `_return_raw_connection_to_idle_pool`; false tells the caller to close the connection. */
  function ReturnToIdle(m: Monitor, conn: Conn, open: bool): (Monitor, bool) {
    if !m.disposed && |m.idle| < m.maxSize && open then (Notify(m.(idle := m.idle + [conn])), true)
    else (Decrement(m), false)
  }

  function Dispose(m: Monitor): (Monitor, seq<Conn>) {
    if m.disposed then (m, [])
    else (NotifyAll(m.(disposed := true, idle := [], total := Clamp(m.total - |m.idle|))), m.idle)
  }

  datatype Metrics = Metrics(maxSize: nat, inUse: nat, idle: nat, total: nat, exhaustions: nat)

  function MetricsOf(m: Monitor): Metrics {
    Metrics(m.maxSize, Clamp(m.total - |m.idle|), |m.idle|, m.total, m.exhaustions)
  }

  class AdapterPool {
    const maxSize: nat
    var idle: seq<Conn>
    var total: nat
    var disposed: bool
    var exhaustions: nat
    var asleep: seq<Tid>
    var woken: set<Tid>

    ghost function View(): Monitor
      reads this
    {
      Monitor(maxSize, idle, total, disposed, exhaustions, asleep, woken)
    }

    constructor (size: int)
      ensures View() == Monitor(if size < 1 then 1 else size, [], 0, false, 0, [], {})
    {
      maxSize := if size < 1 then 1 else size;
      idle, total, disposed, exhaustions, asleep, woken := [], 0, false, 0, [], {};
    }

    method WakeOne()
      modifies `asleep, `woken
      ensures View() == Notify(old(View()))
    {
      if asleep != [] {
        woken := woken + {asleep[0]};
        asleep := asleep[1..];
      }
    }

    method DecrementTotal()
      modifies `total, `asleep, `woken
      ensures View() == Decrement(old(View()))
    {
      total := if total > 0 then total - 1 else 0;
      WakeOne();
    }

    /** `open` are the connections that report themselves open, `expired` whether the deadline has passed. */
    method Turn(t: Tid, open: set<Conn>, expired: bool) returns (r: Acquired)
      modifies this
      ensures (View(), r) == TryAcquire(old(View()), t, open, expired)
    {
      woken := woken - {t};
      if disposed {
        return Refused;
      }
      ghost var start := View();
      while idle != []
        invariant DropDead(View(), open) == DropDead(start, open)
        invariant !disposed
        decreases |idle|
      {
        var conn := idle[|idle| - 1];
        idle := idle[..|idle| - 1];
        if conn in open {
          return Reused(conn);
        }
        DecrementTotal();
      }
      if total < maxSize {
        total := total + 1;
        return Reserved;
      }
      if expired {
        exhaustions := exhaustions + 1;
        return TimedOut;
      }
      asleep := asleep + [t];
      r := Waits;
    }

    method ReturnRaw(conn: Conn, open: bool) returns (kept: bool)
      modifies this
      ensures (View(), kept) == ReturnToIdle(old(View()), conn, open)
    {
      if disposed {
        DecrementTotal();
        return false;
      }
      if |idle| < maxSize && open {
        idle := idle + [conn];
        WakeOne();
        return true;
      }
      DecrementTotal();
      kept := false;
    }

    method DisposeAll() returns (orphans: seq<Conn>)
      modifies this
      ensures (View(), orphans) == Dispose(old(View()))
    {
      if disposed {
        return [];
      }
      disposed := true;
      orphans := idle;
      idle := [];
      total := if total > |orphans| then total - |orphans| else 0;
      woken := woken + set t | t in asleep;
      asleep := [];
    }

    method ReadMetrics() returns (r: Metrics)
      ensures r == MetricsOf(View())
    {
      r := Metrics(maxSize, if total > |idle| then total - |idle| else 0, |idle|, total, exhaustions);
    }
  }

  /** The wrapper handed to callers. */
  datatype Wrapper = Wrapper(adapter: Option<Conn>, closed: bool)

  /** The connection that calls on the wrapper reach; None is the exception of a closed wrapper. */
  function Reached(p: Wrapper): Option<Conn> {
    if p.closed then None else p.adapter
  }

  /** `close`: the wrapper afterwards and the connection it releases. */
  function CloseWrapper(p: Wrapper): (Wrapper, Option<Conn>) {
    if p.closed then (p, None) else (Wrapper(None, true), p.adapter)
  }

  class PooledConnection {
    var adapter: Option<Conn>
    var closed: bool

    ghost function View(): Wrapper
      reads this
    {
      Wrapper(adapter, closed)
    }

    constructor (conn: Conn)
      ensures View() == Wrapper(Some(conn), false)
    {
      adapter, closed := Some(conn), false;
    }

    method Close() returns (released: Option<Conn>)
      modifies this
      ensures (View(), released) == CloseWrapper(old(View()))
    {
      if closed {
        return None;
      }
      closed := true;
      released := adapter;
      adapter := None;
    }

    /** `__getattr__`: every use of the connection goes through here. */
    method GetAttr() returns (target: Option<Conn>)
      ensures target == Reached(View())
    {
      if closed || adapter.None? {
        return None;
      }
      target := adapter;
    }
  }
}
