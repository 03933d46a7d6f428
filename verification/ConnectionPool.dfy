/** The bounded connection pool of src/remote.rs: a mutex, a condition variable
    and lazily created connections. Every critical section is one method of the
    class; `Next` interleaves them over any number of threads, with failing
    connects, spurious wakeups and a condition variable that wakes at least one
    waiter per notification. */
module ConnectionPool {
  import opened Primitives

  type Conn = nat
  type Thread = nat

  /** What a thread is doing with respect to the pool. */
  datatype Role =
    | Outside                // not using the pool
    | Waiting                // blocked on the condition variable
    | Woken(notified: bool)  // left the wait, has not retaken the lock yet
    | Connecting             // counted in `created`, opening a connection
    | Holding(conn: Conn)

  /** `idle` is the stack of idle connections, `connects` the number of
      connections opened so far (the identity of the next one). */
  datatype Shared = Shared(idle: seq<Conn>, created: nat, maxSize: nat, connects: nat)

  datatype System = System(pool: Shared, roles: map<Thread, Role>)

  // ----- the critical sections

  /** One turn of the checkout loop under the lock. */
  function Attempt(s: Shared): (Shared, Role) {
    if s.idle != [] then (s.(idle := s.idle[..|s.idle| - 1]), Holding(s.idle[|s.idle| - 1]))
    else if s.created < s.maxSize then (s.(created := s.created + 1), Connecting)
    else (s, Waiting)
  }

  function Connected(s: Shared): (Shared, Role) {
    (s.(connects := s.connects + 1), Holding(s.connects))
  }

  /** `saturating_sub`. */
  function GiveUp(s: Shared): Shared {
    s.(created := if s.created > 0 then s.created - 1 else 0)
  }

  function CheckIn(s: Shared, conn: Conn): Shared {
    s.(idle := s.idle + [conn])
  }

  class Pool {
    var idle: seq<Conn>
    var created: nat
    const maxSize: nat
    var connects: nat

    function State(): Shared
      reads this
    {
      Shared(idle, created, maxSize, connects)
    }

    /** Opens one connection eagerly; the pool holds at least one. */
    constructor (poolSize: nat)
      ensures State() == Initial(poolSize)
    {
      idle := [0];
      created := 1;
      maxSize := Max(poolSize, 1);
      connects := 1;
    }

    /** Returns how the turn ended for the calling thread. */
    method TryCheckout() returns (role: Role)
      modifies this
      ensures (State(), role) == Attempt(old(State()))
    {
      if idle != [] {
        role := Holding(idle[|idle| - 1]);
        idle := idle[..|idle| - 1];
      } else if created < maxSize {
        created := created + 1;
        role := Connecting;
      } else {
        role := Waiting;
      }
    }

    method ConnectFailed()
      modifies this
      ensures State() == GiveUp(old(State()))
    {
      created := if created > 0 then created - 1 else 0;
    }

    method Return(conn: Conn)
      modifies this
      ensures State() == CheckIn(old(State()), conn)
    {
      idle := idle + [conn];
    }
  }

  // ----- the interleaved system

  function Initial(poolSize: nat): Shared {
    Shared([0], 1, Max(poolSize, 1), 1)
  }

  ghost predicate Init(y: System, poolSize: nat) {
    y.pool == Initial(poolSize) && forall t <- y.roles :: y.roles[t] == Outside
  }

  /** After `notify_one`: some waiter is woken if there is one (further waiters
      may leave by spurious wakeups at any time). */
  ghost predicate Notified(before: map<Thread, Role>, after: map<Thread, Role>) {
    if exists w :: w in before && before[w] == Waiting
    then exists w :: w in before && before[w] == Waiting && after == before[w := Woken(true)]
    else after == before
  }

  datatype Move =
    | Checkout(t: Thread)      // a thread from outside, or a woken one, takes its turn
    | Spurious(t: Thread)      // a waiter leaves without a notification
    | ConnectOk(t: Thread)
    | ConnectFail(t: Thread)
    | Replace(t: Thread)       // a holder swaps in a fresh connection after a failed read
    | Drop(t: Thread)          // PooledConnection dropped: check in and notify

  ghost predicate Next(y: System, z: System, m: Move) {
    m.t in y.roles &&
    match m
    case Checkout(t) =>
      && (y.roles[t].Outside? || y.roles[t].Woken?)
      && z == System(Attempt(y.pool).0, y.roles[t := Attempt(y.pool).1])
    case Spurious(t) =>
      && y.roles[t].Waiting?
      && z == System(y.pool, y.roles[t := Woken(false)])
    case ConnectOk(t) =>
      && y.roles[t].Connecting?
      && z == System(Connected(y.pool).0, y.roles[t := Connected(y.pool).1])
    case ConnectFail(t) =>
      && y.roles[t].Connecting?
      && z.pool == GiveUp(y.pool)
      && Notified(y.roles[t := Outside], z.roles)
    case Replace(t) =>
      && y.roles[t].Holding?
      && z == System(Connected(y.pool).0, y.roles[t := Connected(y.pool).1])
    case Drop(t) =>
      && y.roles[t].Holding?
      && z.pool == CheckIn(y.pool, y.roles[t].conn)
      && Notified(y.roles[t := Outside], z.roles)
  }

  /** A run: any number of moves in any order. */
  ghost predicate Run(states: seq<System>, moves: seq<Move>, poolSize: nat) {
    && |states| == |moves| + 1
    && Init(states[0], poolSize)
    && forall k :: 0 <= k < |moves| ==> Next(states[k], states[k + 1], moves[k])
  }

  // ----- counting threads

  predicate InUse(r: Role) { r.Connecting? || r.Holding? }
  predicate IsNotified(r: Role) { r == Woken(true) }

  function Users(roles: map<Thread, Role>): set<Thread> {
    set t | t in roles && InUse(roles[t])
  }

  function NotifiedSet(roles: map<Thread, Role>): set<Thread> {
    set t | t in roles && IsNotified(roles[t])
  }

  /** Connections that could still be handed out or created. */
  function Free(s: Shared): int {
    |s.idle| + s.maxSize - s.created
  }

  // ----- the invariant

  /** Every connection is idle or held, and by one thread only. */
  ghost predicate Distinct(y: System) {
    && (forall i, j :: 0 <= i < j < |y.pool.idle| ==> y.pool.idle[i] != y.pool.idle[j])
    && (forall c <- y.pool.idle :: c < y.pool.connects)
    && (forall t <- y.roles :: y.roles[t].Holding? ==>
          y.roles[t].conn < y.pool.connects && y.roles[t].conn !in y.pool.idle)
    && (forall t, u :: t in y.roles && u in y.roles && t != u && y.roles[t].Holding? && y.roles[u].Holding? ==>
          y.roles[t].conn != y.roles[u].conn)
  }

  ghost predicate Balanced(y: System) {
    && |y.pool.idle| + |Users(y.roles)| == y.pool.created
    && y.pool.created <= y.pool.maxSize
    && y.pool.maxSize >= 1
  }

  /** If a thread waits, every free slot is promised to a notified thread that
      has yet to take its turn. */
  ghost predicate NoLostWakeup(y: System) {
    (exists w :: w in y.roles && y.roles[w] == Waiting) ==> Free(y.pool) <= |NotifiedSet(y.roles)|
  }

  ghost predicate Inv(y: System) {
    Distinct(y) && Balanced(y) && NoLostWakeup(y)
  }

  lemma SetRole(roles: map<Thread, Role>, t: Thread, r: Role)
    requires t in roles
    ensures |Users(roles[t := r])| == |Users(roles)| + (if InUse(r) then 1 else 0) - (if InUse(roles[t]) then 1 else 0)
    ensures |NotifiedSet(roles[t := r])|
            == |NotifiedSet(roles)| + (if IsNotified(r) then 1 else 0) - (if IsNotified(roles[t]) then 1 else 0)
  {
    SetUser(roles, t, r);
    SetNotified(roles, t, r);
  }

  lemma SetUser(roles: map<Thread, Role>, t: Thread, r: Role)
    requires t in roles
    ensures |Users(roles[t := r])| == |Users(roles)| + (if InUse(r) then 1 else 0) - (if InUse(roles[t]) then 1 else 0)
  {
    var rest := Users(roles) - {t};
    assert Users(roles) == if InUse(roles[t]) then rest + {t} else rest;
    assert Users(roles[t := r]) == if InUse(r) then rest + {t} else rest;
  }

  lemma SetNotified(roles: map<Thread, Role>, t: Thread, r: Role)
    requires t in roles
    ensures |NotifiedSet(roles[t := r])|
            == |NotifiedSet(roles)| + (if IsNotified(r) then 1 else 0) - (if IsNotified(roles[t]) then 1 else 0)
  {
    var rest := NotifiedSet(roles) - {t};
    assert NotifiedSet(roles) == if IsNotified(roles[t]) then rest + {t} else rest;
    assert NotifiedSet(roles[t := r]) == if IsNotified(r) then rest + {t} else rest;
  }

  lemma InitInv(y: System, poolSize: nat)
    requires Init(y, poolSize)
    ensures Inv(y)
  {
    assert Users(y.roles) == {};
  }

  /** The woken thread, when there was a waiter. */
  lemma NotifyCounts(before: map<Thread, Role>, after: map<Thread, Role>)
    requires Notified(before, after)
    ensures |Users(after)| == |Users(before)|
    ensures (exists w :: w in after && after[w] == Waiting) ==> |NotifiedSet(after)| == |NotifiedSet(before)| + 1
    ensures after.Keys == before.Keys
    ensures forall t <- before :: after[t] == before[t] || (before[t] == Waiting && after[t] == Woken(true))
  {
    if exists w :: w in before && before[w] == Waiting {
      var w :| w in before && before[w] == Waiting && after == before[w := Woken(true)];
      SetRole(before, w, Woken(true));
    }
  }

  lemma NextInv(y: System, z: System, m: Move)
    requires Inv(y) && Next(y, z, m)
    ensures Inv(z)
  {
    match m
    case Checkout(t) =>
      SetRole(y.roles, t, Attempt(y.pool).1);
      CheckoutInv(y, z, t);
    case Spurious(t) =>
      SetRole(y.roles, t, Woken(false));
    case ConnectOk(t) =>
      SetRole(y.roles, t, Connected(y.pool).1);
    case ConnectFail(t) =>
      SetRole(y.roles, t, Outside);
      NotifyCounts(y.roles[t := Outside], z.roles);
      ReleaseInv(y, z, t);
    case Replace(t) =>
      SetRole(y.roles, t, Connected(y.pool).1);
    case Drop(t) =>
      SetRole(y.roles, t, Outside);
      NotifyCounts(y.roles[t := Outside], z.roles);
      ReleaseInv(y, z, t);
  }

  lemma PopDistinct(y: System, t: Thread)
    requires Distinct(y) && y.pool.idle != [] && t in y.roles
    ensures Distinct(System(Attempt(y.pool).0, y.roles[t := Attempt(y.pool).1]))
  {
    var n := |y.pool.idle| - 1;
    var last, rest := y.pool.idle[n], y.pool.idle[..n];
    assert last in y.pool.idle;
    forall c <- rest
      ensures c in y.pool.idle && c != last
    {
      var i :| 0 <= i < |rest| && rest[i] == c;
      assert y.pool.idle[i] == c && i < n;
    }
  }

  lemma CheckoutInv(y: System, z: System, t: Thread)
    requires Inv(y) && Next(y, z, Checkout(t))
    ensures Inv(z)
  {
    SetRole(y.roles, t, Attempt(y.pool).1);
    if y.pool.idle != [] {
      PopDistinct(y, t);
    }
    assert Distinct(z);
    if w :| w in z.roles && z.roles[w] == Waiting && w != t {
      assert y.roles[w] == Waiting;
    }
  }

  lemma ReleaseInv(y: System, z: System, t: Thread)
    requires Inv(y) && (Next(y, z, ConnectFail(t)) || Next(y, z, Drop(t)))
    ensures Inv(z)
  {
    var mid := y.roles[t := Outside];
    SetRole(y.roles, t, Outside);
    NotifyCounts(mid, z.roles);
    assert y.pool.created >= 1;
    if exists w :: w in z.roles && z.roles[w] == Waiting {
      var w :| w in z.roles && z.roles[w] == Waiting;
      assert w != t && y.roles[w] == Waiting;
    }
  }

  /** In every state of every run: connections are never shared between
      threads, created = idle + in use <= max, and no wakeup is lost. */
  lemma {:induction false} RunInv(states: seq<System>, moves: seq<Move>, poolSize: nat, k: nat)
    requires Run(states, moves, poolSize) && k < |states|
    ensures Inv(states[k])
  {
    if k == 0 {
      InitInv(states[0], poolSize);
    } else {
      RunInv(states, moves, poolSize, k - 1);
      NextInv(states[k - 1], states[k], moves[k - 1]);
    }
  }

  /** Hence no deadlock: while a thread waits, some other thread holds a
      connection, is opening one, or has been notified and will take its turn. */
  lemma NoDeadlock(states: seq<System>, moves: seq<Move>, poolSize: nat, k: nat, w: Thread)
    requires Run(states, moves, poolSize) && k < |states|
    requires w in states[k].roles && states[k].roles[w] == Waiting
    ensures exists t :: t in states[k].roles && (InUse(states[k].roles[t]) || IsNotified(states[k].roles[t]))
  {
    RunInv(states, moves, poolSize, k);
    var y := states[k];
    if Users(y.roles) == {} {
      assert Free(y.pool) >= 1;
      assert NotifiedSet(y.roles) != {};
      var t :| t in NotifiedSet(y.roles);
    } else {
      var t :| t in Users(y.roles);
    }
  }

  // ----- connections are reused

  /** A thread opens a connection only while none is idle and the limit allows it, waits
      only while none is idle and the limit is reached, and otherwise takes an idle one,
      which then is idle no more. */
  lemma CheckoutReuses(y: System, z: System, t: Thread)
    requires Inv(y) && Next(y, z, Checkout(t))
    ensures z.roles[t].Connecting? <==> y.pool.idle == [] && y.pool.created < y.pool.maxSize
    ensures z.roles[t].Waiting? <==> y.pool.idle == [] && y.pool.created == y.pool.maxSize
    ensures z.roles[t].Holding? <==> y.pool.idle != []
    ensures z.roles[t].Holding? ==>
              && multiset(y.pool.idle) == multiset(z.pool.idle) + multiset{z.roles[t].conn}
              && z.pool.created == y.pool.created && z.pool.connects == y.pool.connects
    ensures z.roles[t].Connecting? ==> z.pool == y.pool.(created := y.pool.created + 1)
    ensures z.roles[t].Waiting? ==> z.pool == y.pool
  {
    if y.pool.idle != [] {
      var n := |y.pool.idle| - 1;
      assert y.pool.idle == y.pool.idle[..n] + [y.pool.idle[n]];
    }
  }

  /** The connection returned last is the one that is taken next. */
  lemma LastReturnedIsReused(s: Shared, conn: Conn)
    ensures Attempt(CheckIn(s, conn)) == (s, Holding(conn))
  {
    assert CheckIn(s, conn).idle[..|s.idle|] == s.idle;
  }
}
