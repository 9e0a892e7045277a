/** The scheduler's leader election over one Redis key.

    Any number of replicas poll, lead, refresh, step down, release and crash; time passes
    between their steps. Times are milliseconds on the clock of the Redis server. */
module LeaderLock {
  type Token = nat

  // The key with its expiry; a key at or past its expiry is gone.
  datatype Lock = Free | Held(token: Token, expiry: int)

  function Live(lock: Lock, now: int): Lock {
    if lock.Held? && now < lock.expiry then lock else Free
  }

  predicate Owns(lock: Lock, now: int, token: Token) {
    Live(lock, now).Held? && lock.token == token
  }

  // SET NX PX, the refresh script and the release script.
  function AfterAcquire(lock: Lock, token: Token, now: int, ttl: int): Lock {
    if Live(lock, now).Free? then Held(token, now + ttl) else lock
  }

  function AfterRefresh(lock: Lock, token: Token, now: int, ttl: int): Lock {
    if Owns(lock, now, token) then Held(token, now + ttl) else lock
  }

  function AfterRelease(lock: Lock, token: Token, now: int): Lock {
    if Owns(lock, now, token) then Free else lock
  }

  // The key as Redis stores it; every script reads it after dropping it if it is due.
  class LockStore {
    var key: Lock

    constructor ()
      ensures key == Free
    {
      key := Free;
    }

    method TryAcquire(token: Token, now: int, ttl: int) returns (won: bool)
      modifies this
      ensures won <==> Live(old(key), now).Free?
      ensures key == AfterAcquire(old(key), token, now, ttl)
      ensures won && ttl > 0 ==> Owns(key, now, token)
    {
      var current := Live(key, now);
      if current.Held? {
        return false;
      }
      key := Held(token, now + ttl);
      return true;
    }

    method TryRefresh(token: Token, now: int, ttl: int) returns (ok: bool)
      modifies this
      ensures ok <==> Owns(old(key), now, token)
      ensures key == AfterRefresh(old(key), token, now, ttl)
    {
      var current := Live(key, now);
      if current.Held? && current.token == token {
        key := Held(token, now + ttl);
        return true;
      }
      return false;
    }

    method Release(token: Token, now: int)
      modifies this
      ensures key == AfterRelease(old(key), token, now)
      ensures !Owns(key, now, token)
    {
      var current := Live(key, now);
      if current.Held? && current.token == token {
        key := Free;
      }
    }
  }

  // ----- replicas -----

  // `Leading`: the job scheduler runs; `Leaving`: it has stopped, the release is still to
  // come. Both are inside `_run_as_leader` and remember the last evaluation that succeeded,
  // the acquisition counting as the first.
  datatype Phase =
    | Standby(lastPoll: int)
    | Leading(lastEval: int)
    | Leaving(lastEval: int)
    | Dead

  datatype System = System(now: int, lock: Lock, phase: map<Token, Phase>)

  datatype Action =
    | Boot(who: Token)
    | Poll(who: Token)
    | Refresh(who: Token)
    | Interrupt(who: Token)
    | Release(who: Token)
    | Crash(who: Token)
    | Advance(delay: nat)

  predicate Enabled(s: System, a: Action) {
    match a
    case Boot(who) => who !in s.phase
    case Poll(who) => who in s.phase && s.phase[who].Standby?
    case Refresh(who) => who in s.phase && s.phase[who].Leading?
    case Interrupt(who) => who in s.phase && s.phase[who].Leading?
    case Release(who) => who in s.phase && s.phase[who].Leaving?
    case Crash(who) => who in s.phase && !s.phase[who].Dead?
    case Advance(_) => true
  }

  function Step(ttl: int, s: System, a: Action): System
    requires Enabled(s, a)
  {
    match a
    case Boot(who) => s.(phase := s.phase[who := Standby(s.now)])
    case Poll(who) =>
      s.(lock := AfterAcquire(s.lock, who, s.now, ttl),
         phase := s.phase[who := if Live(s.lock, s.now).Free? then Leading(s.now) else Standby(s.now)])
    case Refresh(who) =>
      s.(lock := AfterRefresh(s.lock, who, s.now, ttl),
         phase := s.phase[who := if Owns(s.lock, s.now, who) then Leading(s.now) else Leaving(s.phase[who].lastEval)])
    case Interrupt(who) => s.(phase := s.phase[who := Leaving(s.phase[who].lastEval)])
    case Release(who) => s.(lock := AfterRelease(s.lock, who, s.now), phase := s.phase[who := Standby(s.now)])
    case Crash(who) => s.(phase := s.phase[who := Dead])
    case Advance(delay) => s.(now := s.now + delay)
  }

  ghost predicate Next(ttl: int, s: System, s': System) {
    exists a :: Enabled(s, a) && s' == Step(ttl, s, a)
  }

  ghost predicate Init(s: System) {
    s.lock == Free && forall i :: i in s.phase ==> s.phase[i] == Standby(s.now)
  }

  // Consecutive states of the system, from anywhere.
  ghost predicate Segment(ttl: int, run: seq<System>) {
    |run| > 0 && forall k :: 0 <= k < |run| - 1 ==> Next(ttl, run[k], run[k + 1])
  }

  ghost predicate Behaviour(ttl: int, run: seq<System>) {
    Segment(ttl, run) && Init(run[0])
  }

  predicate Inside(s: System, i: Token) {
    i in s.phase && (s.phase[i].Leading? || s.phase[i].Leaving?)
  }

  predicate Leads(s: System, i: Token) {
    i in s.phase && s.phase[i].Leading?
  }

  // The replica's last successful evaluation is less than a TTL ago.
  predicate Timely(ttl: int, s: System, i: Token) {
    Inside(s, i) && s.now < s.phase[i].lastEval + ttl
  }

  // ----- the invariant -----

  ghost predicate LockInv(ttl: int, s: System) {
    && (s.lock.Held? ==> s.lock.expiry <= s.now + ttl)
    && (forall i :: i in s.phase && s.phase[i].Standby? ==> s.phase[i].lastPoll <= s.now)
    && (forall i :: Inside(s, i) ==>
          && s.phase[i].lastEval <= s.now
          && (Timely(ttl, s, i) ==> s.lock == Held(i, s.phase[i].lastEval + ttl))
          && (s.lock.Held? && s.lock.token == i ==> s.lock.expiry == s.phase[i].lastEval + ttl))
  }

  lemma StepKeepsInv(ttl: int, s: System, a: Action)
    requires ttl > 0 && LockInv(ttl, s) && Enabled(s, a)
    ensures LockInv(ttl, Step(ttl, s, a))
  {
  }

  lemma {:induction false} SegmentKeepsInv(ttl: int, run: seq<System>, k: nat)
    requires ttl > 0 && Segment(ttl, run) && LockInv(ttl, run[0]) && k < |run|
    ensures LockInv(ttl, run[k])
  {
    if k == 0 {
    } else {
      SegmentKeepsInv(ttl, run, k - 1);
      assert Next(ttl, run[k - 1], run[k - 1 + 1]);
      var a :| Enabled(run[k - 1], a) && run[k] == Step(ttl, run[k - 1], a);
      StepKeepsInv(ttl, run[k - 1], a);
    }
  }

  lemma BehaviourKeepsInv(ttl: int, run: seq<System>, k: nat)
    requires ttl > 0 && Behaviour(ttl, run) && k < |run|
    ensures LockInv(ttl, run[k])
  {
    SegmentKeepsInv(ttl, run, k);
  }

  // ----- safety -----

  // In every reachable state a replica inside the leader section owns the unexpired lock
  // exactly when its last successful evaluation is less than a TTL ago.
  lemma OwnsIffTimely(ttl: int, run: seq<System>, k: nat, i: Token)
    requires ttl > 0 && Behaviour(ttl, run) && k < |run| && Inside(run[k], i)
    ensures Timely(ttl, run[k], i) <==> Owns(run[k].lock, run[k].now, i)
  {
    BehaviourKeepsInv(ttl, run, k);
  }

  // Mutual exclusion: while no one inside has let a TTL pass since its last evaluation, at
  // most one replica is inside, and it owns the unexpired lock.
  lemma AtMostOneLeader(ttl: int, run: seq<System>, k: nat)
    requires ttl > 0 && Behaviour(ttl, run) && k < |run|
    requires forall i :: Inside(run[k], i) ==> Timely(ttl, run[k], i)
    ensures forall i, j :: Inside(run[k], i) && Inside(run[k], j) ==> i == j
    ensures forall i :: Inside(run[k], i) ==> Owns(run[k].lock, run[k].now, i)
  {
    BehaviourKeepsInv(ttl, run, k);
  }

  // No step but its owner's own refresh or release touches a live lock.
  lemma LiveLockIsPrivate(ttl: int, s: System, a: Action)
    requires Enabled(s, a) && Live(s.lock, s.now).Held?
    ensures Step(ttl, s, a).lock == s.lock || a == Refresh(s.lock.token) || a == Release(s.lock.token)
  {
  }

  // A leader that lost the lock stops leading at its next evaluation, and leaves the lock alone.
  lemma LostLeaderStepsDown(ttl: int, run: seq<System>, k: nat, i: Token)
    requires ttl > 0 && Behaviour(ttl, run) && k < |run| && Leads(run[k], i) && !Timely(ttl, run[k], i)
    ensures var s := Step(ttl, run[k], Refresh(i)); !Leads(s, i) && s.lock == run[k].lock
  {
    OwnsIffTimely(ttl, run, k, i);
  }

  // A leader that still has the lock keeps leading through its next evaluation, and has the
  // lock for a whole TTL again.
  lemma TimelyLeaderStays(ttl: int, run: seq<System>, k: nat, i: Token)
    requires ttl > 0 && Behaviour(ttl, run) && k < |run| && Leads(run[k], i) && Timely(ttl, run[k], i)
    ensures var s := Step(ttl, run[k], Refresh(i));
            Leads(s, i) && s.lock == Held(i, run[k].now + ttl) && s.phase[i].lastEval == run[k].now
  {
    OwnsIffTimely(ttl, run, k, i);
  }

  // A leader that is shut down while it has the lock hands it over at once: it stops leading, it
  // gives the lock back and stands by, and the next replica to poll leads, whichever it is.
  lemma ReleaseHandsOver(ttl: int, run: seq<System>, k: nat, i: Token, j: Token)
    requires ttl > 0 && Behaviour(ttl, run) && k < |run| && Leads(run[k], i) && Timely(ttl, run[k], i)
    requires j == i || (j in run[k].phase && run[k].phase[j].Standby?)
    ensures var stopping := Step(ttl, run[k], Interrupt(i));
            && !Leads(stopping, i) && Owns(stopping.lock, stopping.now, i) && Enabled(stopping, Release(i))
            && var released := Step(ttl, stopping, Release(i));
               && released.phase[i] == Standby(released.now) && Live(released.lock, released.now).Free?
               && Enabled(released, Poll(j))
               && var next := Step(ttl, released, Poll(j));
                  Leads(next, j) && next.lock == Held(j, run[k].now + ttl)
  {
    OwnsIffTimely(ttl, run, k, i);
  }

  // A stale leader that goes on leading has not evaluated again.
  lemma StaleStaysStale(ttl: int, s: System, s': System, i: Token)
    requires ttl > 0 && LockInv(ttl, s) && Next(ttl, s, s')
    requires Leads(s, i) && Leads(s', i) && !Timely(ttl, s, i)
    ensures s'.phase[i] == s.phase[i] && s.now <= s'.now && !Timely(ttl, s', i)
  {
  }

  lemma {:induction false} StaleThroughout(ttl: int, run: seq<System>, i: Token, k: nat)
    requires ttl > 0 && Segment(ttl, run) && LockInv(ttl, run[0]) && k < |run|
    requires forall m :: 0 <= m < |run| ==> Leads(run[m], i)
    requires Leads(run[0], i) && !Timely(ttl, run[0], i)
    ensures Leads(run[k], i) && run[k].phase[i] == run[0].phase[i] && !Timely(ttl, run[k], i)
  {
    if k == 0 {
    } else {
      StaleThroughout(ttl, run, i, k - 1);
      SegmentKeepsInv(ttl, run, k - 1);
      assert Next(ttl, run[k - 1], run[k - 1 + 1]);
      StaleStaysStale(ttl, run[k - 1], run[k], i);
    }
  }

  // No timing assumption: if two replicas lead side by side, it is for no longer than the
  // longest time a leader goes without a successful evaluation exceeds the TTL.
  lemma OverlapIsBounded(ttl: int, gap: int, prefix: seq<System>, run: seq<System>, i: Token, j: Token)
    requires ttl > 0 && Behaviour(ttl, prefix) && Segment(ttl, run) && prefix[|prefix| - 1] == run[0]
    requires i != j && forall m :: 0 <= m < |run| ==> Leads(run[m], i) && Leads(run[m], j)
    requires forall m, r :: 0 <= m < |run| && Leads(run[m], r) ==> run[m].now - run[m].phase[r].lastEval <= gap
    ensures run[|run| - 1].now - run[0].now <= gap - ttl
  {
    BehaviourKeepsInv(ttl, prefix, |prefix| - 1);
    var stale := if Timely(ttl, run[0], i) then j else i;
    assert !Timely(ttl, run[0], stale);
    StaleThroughout(ttl, run, stale, |run| - 1);
  }

  // A crashed leader's lock is respected to its last millisecond: until it runs out nobody
  // takes it over, prolongs it or deletes it, and nobody becomes leader.
  lemma {:induction false} CrashedLockHolds(ttl: int, run: seq<System>, i: Token, k: nat)
    requires ttl > 0 && Segment(ttl, run) && k < |run|
    requires i in run[0].phase && run[0].phase[i].Dead? && Owns(run[0].lock, run[0].now, i)
    requires run[k].now < run[0].lock.expiry
    ensures run[k].lock == run[0].lock && i in run[k].phase && run[k].phase[i].Dead?
    ensures run[0].now <= run[k].now && forall r :: Leads(run[k], r) ==> Leads(run[0], r)
  {
    if k == 0 {
    } else {
      assert Next(ttl, run[k - 1], run[k - 1 + 1]);
      var a :| Enabled(run[k - 1], a) && run[k] == Step(ttl, run[k - 1], a);
      CrashedLockHolds(ttl, run, i, k - 1);
      LiveLockIsPrivate(ttl, run[k - 1], a);
    }
  }

  // ----- failover -----

  ghost predicate Leaderless(run: seq<System>) {
    forall m, r :: 0 <= m < |run| ==> !Leads(run[m], r)
  }

  // `i` is up throughout and, while on standby, never lets more than `poll` pass between polls.
  ghost predicate PollsOften(run: seq<System>, i: Token, poll: int) {
    forall m :: 0 <= m < |run| ==>
      && i in run[m].phase && !run[m].phase[i].Dead?
      && (run[m].phase[i].Standby? ==> run[m].now - run[m].phase[i].lastPoll <= poll)
  }

  // As long as nobody leads, the old lock can only run out, and every poll fell before that.
  lemma {:induction false} PollsFailBefore(ttl: int, poll: int, run: seq<System>, i: Token, k: nat)
    requires ttl > 0 && Segment(ttl, run) && LockInv(ttl, run[0]) && k < |run|
    requires Leaderless(run) && PollsOften(run, i, poll) && run[0].phase[i].Standby?
    ensures run[k].lock == run[0].lock || run[k].lock == Free
    ensures run[k].phase[i].Standby? && run[k].phase[i].lastPoll < run[0].now + ttl
  {
    if k == 0 {
    } else {
      PollsFailBefore(ttl, poll, run, i, k - 1);
      assert Next(ttl, run[k - 1], run[k - 1 + 1]);
      assert forall r :: !Leads(run[k - 1], r) && !Leads(run[k], r);
      StandbyStep(ttl, run[k - 1], run[k], i, run[0].lock, run[0].now + ttl);
    }
  }

  lemma StandbyStep(ttl: int, s: System, s': System, i: Token, lock: Lock, due: int)
    requires Next(ttl, s, s') && (forall r :: !Leads(s, r) && !Leads(s', r))
    requires i in s.phase && s.phase[i].Standby? && i in s'.phase && !s'.phase[i].Dead?
    requires (s.lock == lock || s.lock == Free) && (lock.Held? ==> lock.expiry <= due)
    requires s.phase[i].lastPoll < due
    ensures s'.lock == lock || s'.lock == Free
    ensures s'.phase[i].Standby? && s'.phase[i].lastPoll < due
  {
    var a :| Enabled(s, a) && s' == Step(ttl, s, a);
    assert a.Refresh? ==> Leads(s, a.who);
    assert a.Poll? && Live(s.lock, s.now).Free? ==> Leads(s', a.who);
  }

  // Failover: with one live standby polling at most `poll` apart, nobody leads only for less
  // than TTL + poll, counted from any moment of any behaviour, in particular from a crash.
  lemma FailoverBound(ttl: int, poll: int, prefix: seq<System>, run: seq<System>, i: Token)
    requires ttl > 0 && Behaviour(ttl, prefix) && Segment(ttl, run) && prefix[|prefix| - 1] == run[0]
    requires PollsOften(run, i, poll) && run[0].phase[i].Standby?
    requires Leaderless(run)
    ensures run[|run| - 1].now < run[0].now + ttl + poll
  {
    BehaviourKeepsInv(ttl, prefix, |prefix| - 1);
    PollsFailBefore(ttl, poll, run, i, |run| - 1);
  }

  // ----- the bound cannot be improved -----

  // Replica 1 has crashed holding the lock; replica 2 has just polled in vain at time `t`.
  function Waiting(ttl: int, t: int): System {
    System(t, Held(1, ttl), map[1 := Dead, 2 := Standby(t)])
  }

  lemma SegmentSnoc(ttl: int, run: seq<System>, a: Action)
    requires Segment(ttl, run) && Enabled(run[|run| - 1], a)
    ensures Segment(ttl, run + [Step(ttl, run[|run| - 1], a)])
  {
    var more := run + [Step(ttl, run[|run| - 1], a)];
    forall k | 0 <= k < |more| - 1
      ensures Next(ttl, more[k], more[k + 1])
    {
      if k < |run| - 1 {
        assert Next(ttl, run[k], run[k + 1]);
      }
    }
  }

  // Polling every millisecond until just before the lock runs out.
  lemma {:induction false} WaitingRun(ttl: int, t: nat) returns (run: seq<System>)
    requires t < ttl
    ensures Segment(ttl, run) && Leaderless(run) && PollsOften(run, 2, 1)
    ensures run[0] == Waiting(ttl, 0) && run[|run| - 1] == Waiting(ttl, t)
  {
    if t == 0 {
      run := [Waiting(ttl, 0)];
    } else {
      var before := WaitingRun(ttl, t - 1);
      SegmentSnoc(ttl, before, Advance(1));
      var later := before + [Step(ttl, Waiting(ttl, t - 1), Advance(1))];
      SegmentSnoc(ttl, later, Poll(2));
      run := later + [Step(ttl, later[|later| - 1], Poll(2))];
      assert run[|run| - 1].phase == Waiting(ttl, t).phase;
    }
  }

  // A crash after which nobody leads for TTL + poll - 1 milliseconds.
  lemma FailoverBoundIsTight(ttl: int, poll: nat) returns (prefix: seq<System>, run: seq<System>)
    requires ttl > 0 && poll > 0
    ensures Behaviour(ttl, prefix) && Segment(ttl, run) && prefix[|prefix| - 1] == run[0]
    ensures |prefix| > 1 && Leads(prefix[|prefix| - 2], 1) && run[0] == Step(ttl, prefix[|prefix| - 2], Crash(1))
    ensures PollsOften(run, 2, poll) && run[0].phase[2].Standby? && Leaderless(run)
    ensures run[|run| - 1].now == run[0].now + ttl + poll - 1
  {
    var s0 := System(0, Free, map[1 := Standby(0), 2 := Standby(0)]);
    var s1 := Step(ttl, s0, Poll(1));
    var s2 := Step(ttl, s1, Poll(2));
    SegmentSnoc(ttl, [s0], Poll(1));
    SegmentSnoc(ttl, [s0] + [s1], Poll(2));
    SegmentSnoc(ttl, [s0] + [s1] + [s2], Crash(1));
    prefix := [s0] + [s1] + [s2] + [Step(ttl, s2, Crash(1))];
    assert prefix[3].phase == Waiting(ttl, 0).phase;
    var waiting := WaitingRun(ttl, ttl - 1);
    SegmentSnoc(ttl, waiting, Advance(poll));
    run := waiting + [Step(ttl, Waiting(ttl, ttl - 1), Advance(poll))];
  }

  // A stretch of a behaviour in which replica `i` stands by and polls, and nobody leads.
  ghost predicate FailsOver(ttl: int, poll: int, prefix: seq<System>, run: seq<System>, i: Token) {
    && Behaviour(ttl, prefix) && Segment(ttl, run) && prefix[|prefix| - 1] == run[0]
    && PollsOften(run, i, poll) && run[0].phase[i].Standby? && Leaderless(run)
  }

  ghost predicate FailoverWithin(ttl: int, poll: int, bound: int) {
    forall prefix: seq<System>, run: seq<System>, i: Token ::
      FailsOver(ttl, poll, prefix, run, i) ==> run[|run| - 1].now - run[0].now <= bound
  }

  // The documented failover latency of at most the TTL holds in every behaviour exactly when
  // standbys poll every millisecond.
  lemma FailoverWithinTtlIff(ttl: int, poll: nat)
    requires ttl > 0 && poll > 0
    ensures FailoverWithin(ttl, poll, ttl) <==> poll == 1
  {
    if poll == 1 {
      forall prefix: seq<System>, run: seq<System>, i: Token | FailsOver(ttl, poll, prefix, run, i)
        ensures run[|run| - 1].now - run[0].now <= ttl
      {
        FailoverBound(ttl, poll, prefix, run, i);
      }
    } else {
      var prefix, run := FailoverBoundIsTight(ttl, poll);
      assert FailsOver(ttl, poll, prefix, run, 2);
    }
  }
}
