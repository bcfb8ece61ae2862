/** The per-server session pool (internal/ts3/pool.go). The Go pool is two
    buffered channels of capacity `max`: `clients`, the FIFO queue of idle
    sessions, and `sem`, whose fill level counts the slots taken by sessions
    in existence. Here the queue is a sequence and the fill level an integer.
    The pool is generic in what a session is (`S`) and in what describes its
    factory (`F`); calling the factory is foreign code, so `Get` receives what
    that call would return. Closing a session is recorded in `closed`. */
module Ts3Pool {
  import opened Errors

  /** What `Get` hands back. */
  datatype Outcome<S> =
    | Reused(session: S)   // the oldest idle session
    | Created(session: S)  // a slot was claimed and the factory built a session
    | Failed(err: Error)   // the factory failed, or no session became available in time
    | Drained              // the pool is closed: a receive from the closed queue yields nil and no error

  /** Whether an outcome hands a session to the caller. */
  predicate Obtained<S>(o: Outcome<S>)
  {
    o.Reused? || o.Created?
  }

  /** The observable state of an open pool: the idle queue, the taken slots
      and the sessions closed so far. */
  datatype State<S> = State(idle: seq<S>, slots: int, closed: seq<S>)

  /** `Get` on an open pool as a value: the outcome and the new state. */
  function Acquire<S>(st: State<S>, max: int, made: Result<S>): (Outcome<S>, State<S>)
  {
    if st.idle != [] then (Reused(st.idle[0]), st.(idle := st.idle[1..]))
    else if st.slots < max then
      match made
      case Ok(c) => (Created(c), st.(slots := st.slots + 1))
      case Err(e) => (Failed(e), st)
    else (Failed(PoolTimeout), st)
  }

  /** `Put` as a value. */
  function GiveBack<S>(st: State<S>, max: int, c: S): State<S>
  {
    if |st.idle| < max then st.(idle := st.idle + [c])
    else Dispose(st, c)
  }

  /** `Discard` as a value. */
  function Dispose<S>(st: State<S>, c: S): State<S>
  {
    st.(closed := st.closed + [c], slots := if st.slots > 0 then st.slots - 1 else 0)
  }

  /** What `Get` decides: a session is handed out exactly when one is idle or
      a free slot meets a working factory; the oldest idle session comes
      first; a built session is the factory's; without a session the state
      is unchanged. */
  lemma AcquireOutcome<S>(st: State<S>, max: int, made: Result<S>)
    ensures var (o, st') := Acquire(st, max, made);
      && (Obtained(o) <==> st.idle != [] || (st.slots < max && made.Ok?))
      && (o.Reused? ==> st.idle != [] && o.session == st.idle[0] && st' == st.(idle := st.idle[1..]))
      && (o.Created? ==> made == Ok(o.session) && st' == st.(slots := st.slots + 1))
      && (!Obtained(o) ==> st' == st)
      && (o == Failed(PoolTimeout) <== st.idle == [] && st.slots >= max)
  {
  }

  class Pool<F, S(==)> {
    const factory: F
    const max: int
    /** The idle queue, oldest first. */
    var idle: seq<S>
    /** Number of slots taken. */
    var slots: int
    /** Whether `Close` has closed the idle queue. */
    var shut: bool
    /** The sessions the pool has closed, in order. */
    var closed: seq<S>
    /** The sessions handed out by `Get` and not yet given back. */
    ghost var lent: multiset<S>

    /** The channel capacities bound both structures, and a closed pool has
        drained its queue. */
    predicate Valid()
      reads this
    {
      0 <= slots <= max && |idle| <= max && (shut ==> idle == [])
    }

    /** The observable state. */
    function Snapshot(): State<S>
      reads this
    {
      State(idle, slots, closed)
    }

    /** Every taken slot belongs to exactly one session, idle or lent out. */
    ghost predicate Balanced()
      reads this
    {
      |idle| + |lent| == slots
    }

    /** `NewPool`: an empty queue and no slot taken. `make` refuses a
        negative capacity. */
    constructor (factory: F, max: int)
      requires max >= 0
      ensures this.factory == factory && this.max == max
      ensures idle == [] && slots == 0 && !shut && closed == [] && lent == multiset{}
      ensures Valid() && Balanced()
    {
      this.factory, this.max := factory, max;
      idle, slots, shut, closed := [], 0, false, [];
      lent := multiset{};
    }

    /** `Get`, where `made` is what calling the factory would return. An idle
        session is reused first; otherwise a free slot is claimed and the
        factory called, the slot going back if the factory fails; with
        neither, nothing else can happen while the caller waits, so the wait
        ends in the timeout and the pool is unchanged. */
    method Get(made: Result<S>) returns (o: Outcome<S>)
      requires Valid()
      modifies this
      ensures Valid()
      ensures shut == old(shut) && closed == old(closed)
      ensures old(idle) != [] ==>
        && o == Reused(old(idle)[0]) && idle == old(idle)[1..] && slots == old(slots)
        && lent == old(lent) + multiset{o.session}
      ensures old(idle) == [] && old(shut) ==>
        o == Drained && idle == [] && slots == old(slots) && lent == old(lent)
      ensures old(idle) == [] && !old(shut) && old(slots) < max ==>
        && idle == []
        && (made.Ok? ==> o == Created(made.value) && slots == old(slots) + 1 && lent == old(lent) + multiset{made.value})
        && (made.Err? ==> o == Failed(made.error) && slots == old(slots) && lent == old(lent))
      ensures old(idle) == [] && !old(shut) && old(slots) >= max ==>
        o == Failed(PoolTimeout) && idle == [] && slots == old(slots) && lent == old(lent)
      ensures !old(shut) ==> (o, Snapshot()) == Acquire(old(Snapshot()), max, made)
      ensures Obtained(o) ==> lent == old(lent) + multiset{o.session}
      ensures !Obtained(o) ==> idle == old(idle) && slots == old(slots) && lent == old(lent)
      ensures old(Balanced()) ==> Balanced()
    {
      // 1. an idle session, if any (a closed queue yields nil at once)
      if idle != [] {
        o := Reused(idle[0]);
        idle := idle[1..];
        lent := lent + multiset{o.session};
        return;
      }
      if shut {
        return Drained;
      }
      // 2. a free slot, if any
      if slots < max {
        slots := slots + 1;
        match made
        case Ok(s) =>
          lent := lent + multiset{s};
          return Created(s);
        case Err(e) =>
          slots := slots - 1;
          return Failed(e);
      }
      // 3. the wait: no other party runs, so the timer fires
      return Failed(PoolTimeout);
    }

    /** `Put`: the session joins the back of the queue and keeps its slot;
        with the queue full it is closed and a slot is released if one is
        taken. Sending on a closed queue panics, hence `!shut`. */
    method Put(c: S)
      requires Valid() && !shut
      modifies this
      ensures Valid() && !shut
      ensures |old(idle)| < max ==> idle == old(idle) + [c] && slots == old(slots) && closed == old(closed)
      ensures |old(idle)| >= max ==>
        && idle == old(idle) && closed == old(closed) + [c]
        && slots == (if old(slots) > 0 then old(slots) - 1 else 0)
      ensures Snapshot() == GiveBack(old(Snapshot()), max, c)
      ensures lent == old(lent) - multiset{c}
      ensures old(Balanced()) && c in old(lent) ==> Balanced() && |old(idle)| < max
    {
      lent := lent - multiset{c};
      if |idle| < max {
        idle := idle + [c];
      } else {
        closed := closed + [c];
        if slots > 0 {
          slots := slots - 1;
        }
      }
    }

    /** `Discard`: the session is closed and a slot is released if one is
        taken; the idle queue is not touched. */
    method Discard(c: S)
      requires Valid()
      modifies this
      ensures Valid()
      ensures idle == old(idle) && shut == old(shut) && closed == old(closed) + [c]
      ensures slots == (if old(slots) > 0 then old(slots) - 1 else 0)
      ensures Snapshot() == Dispose(old(Snapshot()), c)
      ensures lent == old(lent) - multiset{c}
      ensures old(Balanced()) && c in old(lent) ==> Balanced() && old(slots) > 0
    {
      lent := lent - multiset{c};
      closed := closed + [c];
      if slots > 0 {
        slots := slots - 1;
      }
    }

    /** `Close`: closes the queue, then closes every idle session, oldest
        first. The slots they held are not released. Closing a closed
        channel panics, hence `!shut`. */
    method Close()
      requires Valid() && !shut
      modifies this
      ensures Valid() && shut
      ensures idle == [] && closed == old(closed) + old(idle)
      ensures slots == old(slots) && lent == old(lent)
    {
      shut := true;
      while idle != []
        invariant closed + idle == old(closed) + old(idle)
        invariant shut && |idle| <= max && slots == old(slots) && lent == old(lent)
        decreases |idle|
      {
        var c := idle[0];
        closed, idle := closed + [c], idle[1..];
      }
    }
  }

  /** While every session given back was obtained from `Get`, the queue is
      never full when `Put` runs, so its overflow branch is dead. */
  lemma PutNeverOverflows<F, S>(p: Pool<F, S>, c: S)
    requires p.Valid() && p.Balanced() && c in p.lent
    ensures |p.idle| < p.max
  {
    assert |p.lent| >= 1;
  }

  /** Under the same discipline `Discard` always finds a taken slot. */
  lemma DiscardFindsSlot<F, S>(p: Pool<F, S>, c: S)
    requires p.Balanced() && c in p.lent
    ensures p.slots >= 1
  {
    assert |p.lent| >= 1;
  }

  /** The pool's unit test as a run: with capacity 2 two sessions are built,
      a third request finds neither an idle session nor a slot, the session
      put back is the one handed out next, and after a discard the next
      request builds a new session. */
  method PoolScenario() returns (first: Outcome<int>, second: Outcome<int>, waiting: Outcome<int>,
                                 recycled: Outcome<int>, rebuilt: Outcome<int>)
    ensures first == Created(1) && second == Created(2)
    ensures waiting == Failed(PoolTimeout)
    ensures recycled == Reused(1)
    ensures rebuilt == Created(4) && rebuilt.session != 1 && rebuilt.session != 2
  {
    var p := new Pool<string, int>("factory", 2);
    first := p.Get(Ok(1));
    second := p.Get(Ok(2));
    waiting := p.Get(Ok(3));
    p.Put(1);
    recycled := p.Get(Ok(3));
    p.Discard(2);
    rebuilt := p.Get(Ok(4));
  }
}
