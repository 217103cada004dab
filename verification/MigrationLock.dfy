/**
 The migration lock: a key in Redis that expires unless it is renewed, a heartbeat that renews it, and the object that
 acquires and releases it. Time is a real number of seconds; each Redis operation takes effect at one instant.
 */
module MigrationLock {
  import opened Prelude

  type Token = nat

  // ----- The key -----

  datatype Key = Free | Held(token: Token, until: real)

  predicate Live(k: Key, now: real) {
    k.Held? && now < k.until
  }

  predicate Owns(k: Key, token: Token, now: real) {
    Live(k, now) && k.token == token
  }

  /** Set if absent with expiry; compare and extend; compare and delete. */
  datatype Op = SetIfAbsent(token: Token) | Extend(token: Token) | Delete(token: Token)

  datatype Event = Event(at: real, op: Op)

  /** The key after an operation, and whether the operation took effect. */
  function Apply(k: Key, e: Event, ttl: real): (Key, bool) {
    match e.op
    case SetIfAbsent(token) => if Live(k, e.at) then (k, false) else (Held(token, e.at + ttl), true)
    case Extend(token) => if Owns(k, token, e.at) then (Held(token, e.at + ttl), true) else (k, false)
    case Delete(token) => if Owns(k, token, e.at) then (Free, true) else (k, false)
  }

  function After(k: Key, es: seq<Event>, ttl: real): Key
    decreases |es|
  {
    if es == [] then k else After(Apply(k, es[0], ttl).0, es[1..], ttl)
  }

  /** None of the operations takes effect; in particular nobody acquires the lock. */
  ghost predicate NoneTakesEffect(k: Key, es: seq<Event>, ttl: real) {
    forall i :: 0 <= i < |es| ==> Apply(k, es[i], ttl) == (k, false)
  }

  lemma {:induction false} NoEffect(k: Key, es: seq<Event>, ttl: real)
    requires NoneTakesEffect(k, es, ttl)
    ensures After(k, es, ttl) == k
    decreases |es|
  {
    if es != [] {
      NoEffect(k, es[1..], ttl);
    }
  }

  // ----- The heartbeat -----

  /**
   One turn of the heartbeat: it wakes up at `call` and asks Redis to renew; the request takes effect at `at`, or is
   lost when `error`; it returns at `back`. With `stop` the wait was ended by the stop event. `others` are the
   operations of other clients since the turn before.
   */
  datatype Wake = Wake(stop: bool, others: seq<Event>, call: real, at: real, back: real, error: bool)

  datatype Outcome = Running | Stopped | NotOwned

  /** The key after these turns, and how the loop stands. */
  function Heartbeat(k: Key, h: Token, ttl: real, wakes: seq<Wake>): (Key, Outcome)
    decreases |wakes|
  {
    if wakes == [] then (k, Running)
    else
      var w := wakes[0];
      var k1 := After(k, w.others, ttl);
      if w.stop then (k1, Stopped)
      else if w.error then Heartbeat(k1, h, ttl, wakes[1..])
      else
        var (k2, renewed) := Apply(k1, Event(w.at, Extend(h)), ttl);
        if renewed then Heartbeat(k2, h, ttl, wakes[1..]) else (k2, NotOwned)
  }

  const MIN_RENEW_INTERVAL := 0.1
  const INTERVAL_DIVISOR := 3.0

  function DefaultInterval(ttl: real): real {
    if ttl / INTERVAL_DIVISOR > MIN_RENEW_INTERVAL then ttl / INTERVAL_DIVISOR else MIN_RENEW_INTERVAL
  }

  // ----- Runs -----

  /** `back0` is when the call before the first turn returned; every call takes less than `d`. */
  ghost predicate Timed(wakes: seq<Wake>, back0: real, interval: real, d: real)
    decreases |wakes|
  {
    wakes == [] ||
    (var w := wakes[0];
     w.call == back0 + interval && w.call <= w.at <= w.back < w.call + d && Timed(wakes[1..], w.back, interval, d))
  }

  ghost predicate NoTwoLost(wakes: seq<Wake>) {
    forall i :: 0 < i < |wakes| ==> !(LostAt(wakes, i - 1) && LostAt(wakes, i))
  }

  predicate LostAt(wakes: seq<Wake>, i: int) {
    0 <= i < |wakes| && wakes[i].error
  }

  /** The other clients use other tokens, and act before the renewal takes effect. */
  ghost predicate OthersApart(wakes: seq<Wake>, h: Token) {
    forall i, j :: 0 <= i < |wakes| && 0 <= j < |wakes[i].others| ==>
      wakes[i].others[j].op.token != h && wakes[i].others[j].at <= wakes[i].at
  }

  ghost predicate NoStop(wakes: seq<Wake>) {
    forall i :: 0 <= i < |wakes| ==> !wakes[i].stop
  }

  /** Turn `i` of the loop is reached, with a key that is still the holder's, and no operation of another client has taken effect. */
  ghost predicate KeptAt(k: Key, h: Token, ttl: real, wakes: seq<Wake>, i: nat)
    requires i < |wakes|
  {
    var (k1, outcome) := Heartbeat(k, h, ttl, wakes[..i]);
    outcome == Running && k1.Held? && k1.token == h && NoneTakesEffect(k1, wakes[i].others, ttl)
  }

  /** In every turn up to the first stop. */
  ghost predicate Kept(k: Key, h: Token, ttl: real, wakes: seq<Wake>) {
    forall i: nat :: i < |wakes| && NoStop(wakes[..i]) ==> KeptAt(k, h, ttl, wakes, i)
  }

  /** The time of the last renewal that was not lost, of those before a stop; `last` without one. */
  function LastRenewal(wakes: seq<Wake>, last: real): real
    decreases |wakes|
  {
    if wakes == [] || wakes[0].stop then last
    else LastRenewal(wakes[1..], if wakes[0].error then last else wakes[0].at)
  }

  /** What one turn does that is not stopped: a lost call leaves the loop running, a failed compare ends it. */
  lemma HeartbeatTurn(k: Key, h: Token, ttl: real, w: Wake, rest: seq<Wake>)
    requires !w.stop
    ensures var k1 := After(k, w.others, ttl);
            Heartbeat(k, h, ttl, [w] + rest) ==
              if w.error then Heartbeat(k1, h, ttl, rest)
              else if k1.Held? && k1.token == h && w.at < k1.until then Heartbeat(Held(h, w.at + ttl), h, ttl, rest)
              else (k1, NotOwned)
  {
    assert ([w] + rest)[1..] == rest;
  }

  lemma KeptFirst(k: Key, h: Token, ttl: real, wakes: seq<Wake>)
    requires wakes != [] && Kept(k, h, ttl, wakes)
    ensures k.Held? && k.token == h && NoneTakesEffect(k, wakes[0].others, ttl)
  {
    var zero: nat := 0;
    assert wakes[..zero] == [] && NoStop(wakes[..zero]);
    assert KeptAt(k, h, ttl, wakes, zero);
  }

  /** The turns after the first one, from the key that the first one leaves. */
  lemma KeptRest(k: Key, h: Token, ttl: real, wakes: seq<Wake>, k1: Key)
    requires wakes != [] && k.Held? && k.token == h && NoneTakesEffect(k, wakes[0].others, ttl)
    requires !wakes[0].stop ==>
               Kept(k1, h, ttl, wakes[1..]) && forall rest :: Heartbeat(k, h, ttl, [wakes[0]] + rest) == Heartbeat(k1, h, ttl, rest)
    ensures Kept(k, h, ttl, wakes)
  {
    forall i: nat | i < |wakes| && NoStop(wakes[..i])
      ensures KeptAt(k, h, ttl, wakes, i)
    {
      if i == 0 {
        assert wakes[..i] == [];
      } else {
        assert wakes[..i][0] == wakes[0];
        var rest := wakes[1..];
        assert wakes[..i] == [wakes[0]] + rest[..i - 1];
        assert NoStop(rest[..i - 1]) by {
          var shorter, longer := rest[..i - 1], wakes[..i];
          assert forall j :: 0 <= j < |shorter| ==> shorter[j] == longer[j + 1];
        }
        assert KeptAt(k1, h, ttl, rest, i - 1);
      }
    }
  }

  ghost predicate Allowed(wakes: seq<Wake>, h: Token, back0: real, interval: real, d: real) {
    Timed(wakes, back0, interval, d) && NoTwoLost(wakes) && OthersApart(wakes, h)
  }

  lemma OthersFail(h: Token, until: real, ttl: real, w: Wake)
    requires forall j :: 0 <= j < |w.others| ==> w.others[j].op.token != h && w.others[j].at < until
    ensures NoneTakesEffect(Held(h, until), w.others, ttl)
  {
  }

  /** `last` is when the key was set or renewed last; `lost` says whether the turn just before was lost. */
  lemma {:induction false} HolderKeepsKey(
    h: Token, ttl: real, interval: real, d: real, wakes: seq<Wake>, last: real, back0: real, lost: bool)
    requires 2.0 * interval + 3.0 * d <= ttl && interval > 0.0 && d > 0.0
    requires Allowed(wakes, h, back0, interval, d) && (lost ==> !LostAt(wakes, 0))
    requires last <= back0 < last + if lost then interval + 2.0 * d else d
    ensures Kept(Held(h, last + ttl), h, ttl, wakes)
    ensures Heartbeat(Held(h, last + ttl), h, ttl, wakes) ==
            (Held(h, LastRenewal(wakes, last) + ttl), if NoStop(wakes) then Running else Stopped)
    decreases |wakes|
  {
    if wakes != [] {
      var w, k := wakes[0], Held(h, last + ttl);
      var rest, next := wakes[1..], if w.error then last else w.at;
      assert w.at < last + ttl;
      forall j | 0 <= j < |w.others|
        ensures w.others[j].op.token != h && w.others[j].at < last + ttl
      {
      }
      OthersFail(h, last + ttl, ttl, w);
      NoEffect(k, w.others, ttl);
      assert wakes == [w] + rest;
      assert NoStop(wakes) <==> !w.stop && NoStop(rest) by {
        assert forall i :: 1 <= i < |wakes| ==> wakes[i] == rest[i - 1];
        assert forall i :: 0 <= i < |rest| ==> rest[i] == wakes[i + 1];
      }
      if !w.stop {
        RestAllowed(wakes, h, back0, interval, d);
        HolderKeepsKey(h, ttl, interval, d, rest, next, w.back, w.error);
        forall more
          ensures Heartbeat(k, h, ttl, [w] + more) == Heartbeat(Held(h, next + ttl), h, ttl, more)
        {
          HeartbeatTurn(k, h, ttl, w, more);
        }
      }
      KeptRest(k, h, ttl, wakes, Held(h, next + ttl));
    }
  }

  lemma RestAllowed(wakes: seq<Wake>, h: Token, back0: real, interval: real, d: real)
    requires wakes != [] && Allowed(wakes, h, back0, interval, d)
    ensures Allowed(wakes[1..], h, wakes[0].back, interval, d) && (wakes[0].error ==> !LostAt(wakes[1..], 0))
  {
    var rest := wakes[1..];
    forall i | 0 < i < |rest|
      ensures !(LostAt(rest, i - 1) && LostAt(rest, i))
    {
      var k := i + 1;
      assert !(LostAt(wakes, k - 1) && LostAt(wakes, k));
    }
    if |rest| > 0 {
      var one := 1;
      assert !(LostAt(wakes, one - 1) && LostAt(wakes, one));
    }
  }

  /** The lock was set at `acquired`, in a call that returned at `back`; then the heartbeat took these turns. */
  datatype Holding = Holding(holder: Token, acquired: real, back: real, wakes: seq<Wake>)

  ghost predicate Possible(r: Holding, interval: real, d: real) {
    r.acquired <= r.back < r.acquired + d && Allowed(r.wakes, r.holder, r.back, interval, d)
  }

  ghost predicate RunKept(r: Holding, ttl: real) {
    Kept(Held(r.holder, r.acquired + ttl), r.holder, ttl, r.wakes)
  }

  /**
   Every run is safe: with every call shorter than `d` and no two renewals lost in a row, the holder keeps the key and
   nobody else acquires it.
   */
  ghost predicate LeaseSafe(ttl: real, interval: real, d: real) {
    forall r :: Possible(r, interval, d) ==> RunKept(r, ttl)
  }

  /** A run that loses one renewal and takes as long as allowed: another client gets the key before the next renewal. */
  lemma LateRenewal(ttl: real, interval: real, d: real) returns (r: Holding)
    requires ttl > 0.0 && interval > 0.0 && d > 0.0 && 2.0 * interval + 3.0 * d > ttl
    ensures Possible(r, interval, d) && !RunKept(r, ttl)
  {
    var slow := if ttl <= 2.0 * interval then 0.0 else (ttl - 2.0 * interval) / 3.0;
    var back0 := slow;
    var call1 := back0 + interval;
    var first := Wake(false, [], call1, call1, call1 + slow, true);
    var call2 := call1 + slow + interval;
    var taken := Event(call2 + slow, SetIfAbsent(1));
    var second := Wake(false, [taken], call2, call2 + slow, call2 + slow, false);
    var wakes := [first, second];
    assert wakes[1..] == [second] && [second][1..] == [];
    assert Timed([second], first.back, interval, d);
    assert Timed(wakes, back0, interval, d);
    assert call2 + slow >= ttl;
    assert Apply(Held(0, ttl), taken, ttl).1;
    assert !NoneTakesEffect(Held(0, ttl), [taken], ttl) by {
      assert Apply(Held(0, ttl), [taken][0], ttl).1;
    }
    assert !Kept(Held(0, ttl), 0, ttl, wakes) by {
      assert wakes[..1] == [first] + [];
      HeartbeatTurn(Held(0, ttl), 0, ttl, first, []);
      assert NoStop(wakes[..1]) && !KeptAt(Held(0, ttl), 0, ttl, wakes, 1);
    }
    r := Holding(0, 0.0, back0, wakes);
    assert 0.0 + ttl == ttl;
  }

  /** Safety of all runs, exactly: twice the interval and three calls must fit into the time to live. */
  lemma LeaseSafeExactly(ttl: real, interval: real, d: real)
    requires ttl > 0.0 && interval > 0.0 && d > 0.0
    ensures LeaseSafe(ttl, interval, d) <==> 2.0 * interval + 3.0 * d <= ttl
  {
    if 2.0 * interval + 3.0 * d <= ttl {
      forall r | Possible(r, interval, d)
        ensures RunKept(r, ttl)
      {
        HolderKeepsKey(r.holder, ttl, interval, d, r.wakes, r.acquired, r.back, false);
      }
    } else {
      var r := LateRenewal(ttl, interval, d);
    }
  }

  /** With the default interval and calls shorter than a ninth of the time to live, exactly from 0.3 seconds on. */
  lemma DefaultIsSafeExactly(ttl: real)
    requires ttl > 0.0
    ensures LeaseSafe(ttl, DefaultInterval(ttl), ttl / 9.0) <==> ttl >= 0.3
  {
    LeaseSafeExactly(ttl, DefaultInterval(ttl), ttl / 9.0);
  }

  // ----- The lock object -----

  class Redis {
    var key: Key
    var now: real
    var tokens: nat  // tokens given out so far

    constructor ()
    {
      key, now, tokens := Free, 0.0, 0;
    }
  }

  /** A heartbeat thread with its stop event. */
  class Beat {
    const token: Token
    var stopped: bool

    constructor (token: Token)
      ensures this.token == token && !stopped
    {
      this.token := token;
      stopped := false;
    }
  }

  /** The redis-py lock object: its token is there once it has been acquired. */
  datatype LockObject = LockObject(token: Option<Token>)

  datatype LockError = AlreadyAcquired

  /** What the release request does: it reaches Redis, or it fails with an error that is only logged. */
  datatype Release = Reaches | Fails

  class DbMigrationAutoRenewLock {
    const redis: Redis
    const ttl: real
    const interval: real
    var lock: Option<LockObject>
    var beat: Beat?
    var acquired: bool

    ghost predicate Valid()
      reads this, beat
    {
      (acquired ==> lock.Some? && lock.value.token.Some? && beat != null && beat.token == lock.value.token.value && !beat.stopped) &&
      (!acquired ==> beat == null)
    }

    constructor (redis: Redis, ttl: real, interval: Option<real>)
      ensures Valid() && !acquired && lock == None && this.redis == redis && this.ttl == ttl
      ensures this.interval == if interval.Some? then interval.value else DefaultInterval(ttl)
    {
      this.redis, this.ttl := redis, ttl;
      this.interval := if interval.Some? then interval.value else DefaultInterval(ttl);
      lock, beat, acquired := None, null, false;
    }

    /** Refuses a second acquisition; otherwise succeeds exactly when nobody holds the key, with a new heartbeat. */
    method Acquire() returns (r: Result<bool, LockError>)
      requires Valid()
      modifies this, redis
      ensures Valid() && redis.now == old(redis.now)
      ensures old(acquired) ==> r == Err(AlreadyAcquired) && lock == old(lock) && beat == old(beat) && redis.key == old(redis.key)
      ensures !old(acquired) ==> r == Ok(acquired) && (acquired <==> !Live(old(redis.key), redis.now))
      ensures !old(acquired) && acquired ==>
                fresh(beat) && beat.token == old(redis.tokens) && redis.key == Held(beat.token, redis.now + ttl)
      ensures !acquired ==> redis.key == old(redis.key) && lock.Some?
      ensures redis.tokens == if old(acquired) then old(redis.tokens) else old(redis.tokens) + 1
    {
      if acquired {
        return Err(AlreadyAcquired);
      }
      if lock.None? {
        lock := Some(LockObject(None));
      }
      var token := redis.tokens;
      redis.tokens := redis.tokens + 1;
      var (key, done) := Apply(redis.key, Event(redis.now, SetIfAbsent(token)), ttl);
      redis.key := key;
      acquired := done;
      if acquired {
        lock := Some(LockObject(Some(token)));
        StartHeartbeat();
      }
      return Ok(acquired);
    }

    /** Does nothing without a lock object or while a heartbeat runs. */
    method StartHeartbeat()
      requires lock.Some? ==> lock.value.token.Some?
      modifies this`beat
      ensures lock.None? || old(beat) != null ==> beat == old(beat)
      ensures lock.Some? && old(beat) == null ==> fresh(beat) && beat.token == lock.value.token.value && !beat.stopped
    {
      if lock.None? {
        return;
      }
      if beat != null {
        return;
      }
      beat := new Beat(lock.value.token.value);
    }

    method StopHeartbeat()
      modifies this`beat, beat
      ensures beat == null && (old(beat) != null ==> old(beat).stopped)
    {
      if beat == null {
        return;
      }
      beat.stopped := true;
      beat := null;
    }

    function Owned(): bool
      reads this, redis
    {
      lock.Some? && lock.value.token.Some? && Owns(redis.key, lock.value.token.value, redis.now)
    }

    /**
     Never raises. The heartbeat is told to stop, and a key that is still ours is deleted if the request gets through;
     a key of another client is left alone. After it a fresh acquisition is possible, whatever happened before.
     */
    method ReleaseSafely(release: Release)
      requires Valid()
      modifies this, redis`key, beat
      ensures Valid() && !acquired && lock == None && beat == null
      ensures old(beat) != null ==> old(beat).stopped
      ensures redis.key == if old(Owned()) && release.Reaches? then Free else old(redis.key)
    {
      if lock.None? {
        return;
      }
      var held := lock.value;
      StopHeartbeat();
      if held.token.Some? && release.Reaches? {
        redis.key := Apply(redis.key, Event(redis.now, Delete(held.token.value)), ttl).0;
      }
      acquired := false;
      lock := None;
    }
  }

  /** The heartbeat thread: waits, renews, and ends when it is stopped or finds that the lock is no longer its own. */
  method HeartbeatLoop(redis: Redis, beat: Beat, ttl: real, wakes: seq<Wake>) returns (outcome: Outcome)
    modifies redis`key
    ensures (redis.key, outcome) == Heartbeat(old(redis.key), beat.token, ttl, wakes)
  {
    var i := 0;
    while i < |wakes|
      invariant 0 <= i <= |wakes|
      invariant Heartbeat(redis.key, beat.token, ttl, wakes[i..]) == Heartbeat(old(redis.key), beat.token, ttl, wakes)
    {
      var w := wakes[i];
      assert wakes[i..][0] == w && wakes[i..][1..] == wakes[i + 1..];
      redis.key := After(redis.key, w.others, ttl);
      if w.stop {
        return Stopped;
      }
      if !w.error {
        var (key, renewed) := Apply(redis.key, Event(w.at, Extend(beat.token)), ttl);
        redis.key := key;
        if !renewed {
          return NotOwned;
        }
      }
      i := i + 1;
    }
    return Running;
  }

  /** A heartbeat that outlives its lock leaves the key of a later holder alone. */
  lemma {:induction false} StaleHeartbeatIsHarmless(k: Key, h: Token, ttl: real, wakes: seq<Wake>)
    requires k.Held? && k.token != h
    requires forall i :: 0 <= i < |wakes| ==> wakes[i].others == []
    ensures Heartbeat(k, h, ttl, wakes).0 == k
    decreases |wakes|
  {
    if wakes != [] && !wakes[0].stop && wakes[0].error {
      StaleHeartbeatIsHarmless(k, h, ttl, wakes[1..]);
    }
  }
}
