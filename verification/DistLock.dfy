/**
 The token lock in Redis, and the deadline a long job keeps to. A lock is a key holding its
 holder's token until it expires; a job stops at a deadline it stamps after it acquired, since
 nothing renews its lock. Nodes read one clock here.
 */
module DistLock {
  import opened Prelude

  datatype Held = Held(token: nat, expires: int)

  /** A key past its expiry is as good as gone. */
  predicate Live(keys: map<string, Held>, key: string, now: int) {
    key in keys && now < keys[key].expires
  }

  function SetNX(keys: map<string, Held>, key: string, token: nat, now: int, ttl: nat): map<string, Held> {
    if Live(keys, key, now) then keys else keys[key := Held(token, now + ttl)]
  }

  predicate Owns(keys: map<string, Held>, key: string, token: nat, now: int) {
    Live(keys, key, now) && keys[key].token == token
  }

  function DelIfMatch(keys: map<string, Held>, key: string, token: nat, now: int): map<string, Held> {
    if Owns(keys, key, token, now) then keys - {key} else keys
  }

  function ExpireIfMatch(keys: map<string, Held>, key: string, token: nat, now: int, ttl: nat): map<string, Held> {
    if Owns(keys, key, token, now) then keys[key := Held(token, now + ttl)] else keys
  }

  datatype LockError = LockHeld | LockLost

  /** From `now` on, and as far as anyone can tell, nobody's hold on a key changed but that of `token` on `key`. */
  ghost predicate OthersUntouched(before: map<string, Held>, after: map<string, Held>, key: string, token: nat,
                                  now: int) {
    forall k, t, at :: now <= at && (k != key || t != token) ==> (Owns(after, k, t, at) <==> Owns(before, k, t, at))
  }

  /** The locker over a shared store; each call reads the store's clock once. */
  class RedisLocker {
    var keys: map<string, Held>
    var nextToken: nat

    ghost predicate Valid()
      reads this
    {
      forall k :: k in keys ==> keys[k].token < nextToken
    }

    constructor ()
      ensures Valid() && keys == map[] && nextToken == 0
    {
      keys, nextToken := map[], 0;
    }

    /**
     Takes a key exactly when nobody owns it, under a token that never owned anything, for the
     given time and no longer.
     */
    method Acquire(key: string, now: int, ttl: nat) returns (r: Result<nat, LockError>)
      requires Valid()
      modifies this
      ensures Valid()
      ensures r.Ok? <==> forall t :: !Owns(old(keys), key, t, now)
      ensures r.Ok? ==>
                && (forall k, at :: !Owns(old(keys), k, r.value, at))
                && (forall at :: now <= at ==> (Owns(keys, key, r.value, at) <==> at < now + ttl))
                && OthersUntouched(old(keys), keys, key, r.value, now)
      ensures r.Err? ==> r.error == LockHeld && keys == old(keys)
    {
      var token := nextToken;
      nextToken := nextToken + 1;
      if Live(keys, key, now) {
        assert Owns(keys, key, keys[key].token, now);
        return Err(LockHeld);
      }
      keys := SetNX(keys, key, token, now, ttl);
      return Ok(token);
    }

    /** Afterwards this holder owns the key no more, and every other holder owns what it owned. */
    method Release(key: string, token: nat, now: int)
      requires Valid()
      modifies this`keys
      ensures Valid() && forall at :: now <= at ==> !Owns(keys, key, token, at)
      ensures OthersUntouched(old(keys), keys, key, token, now)
    {
      keys := DelIfMatch(keys, key, token, now);
    }

    /**
     Succeeds exactly for the owner, who then owns the key for the given time from now; anyone else
     learns that the lock is lost. Nobody else gains or loses anything.
     */
    method Refresh(key: string, token: nat, now: int, ttl: nat) returns (err: Option<LockError>)
      requires Valid()
      modifies this`keys
      ensures Valid() && (err.None? <==> Owns(old(keys), key, token, now)) && (err.Some? ==> err.value == LockLost)
      ensures forall at :: now <= at ==> (Owns(keys, key, token, at) <==> err.None? && at < now + ttl)
      ensures OthersUntouched(old(keys), keys, key, token, now)
    {
      err := if Owns(keys, key, token, now) then None else Some(LockLost);
      keys := ExpireIfMatch(keys, key, token, now, ttl);
    }
  }

  // ---------------------------------------------------------------- jobs under the lock

  /**
   A job that acquired `key` at `since`. `stamped` is when it worked out its deadline, None until
   it has; the deadline is one TTL from there. An ended job has released.
   */
  datatype Job = Job(key: string, since: int, ttl: nat, stamped: Option<int>, ended: bool)

  datatype State = State(keys: map<string, Held>, jobs: map<nat, Job>, now: int, nextToken: nat)

  const IDLE := State(map[], map[], 0, 0)

  datatype Step =
    | DoAcquire(key: string, ttl: nat)
    | DoStamp(token: nat)
    | DoRelease(token: nat)
    | DoRefresh(token: nat)
    | DoForce(key: string)
    | DoTick(elapsed: nat)

  predicate Enabled(s: State, step: Step) {
    match step
    case DoAcquire(key, _) => !Live(s.keys, key, s.now)
    case DoStamp(t) => t in s.jobs && s.jobs[t].stamped.None? && !s.jobs[t].ended
    case DoRelease(t) => t in s.jobs
    case DoRefresh(t) => t in s.jobs
    case DoForce(_) => true
    case DoTick(_) => true
  }

  function Apply(s: State, step: Step): State
    requires Enabled(s, step)
  {
    match step
    case DoAcquire(key, ttl) =>
      s.(keys := SetNX(s.keys, key, s.nextToken, s.now, ttl),
         jobs := s.jobs[s.nextToken := Job(key, s.now, ttl, None, false)],
         nextToken := s.nextToken + 1)
    case DoStamp(t) => s.(jobs := s.jobs[t := s.jobs[t].(stamped := Some(s.now))])
    case DoRelease(t) =>
      s.(keys := DelIfMatch(s.keys, s.jobs[t].key, t, s.now), jobs := s.jobs[t := s.jobs[t].(ended := true)])
    case DoRefresh(t) => s.(keys := ExpireIfMatch(s.keys, s.jobs[t].key, t, s.now, s.jobs[t].ttl))
    case DoForce(key) => s.(keys := s.keys - {key})
    case DoTick(d) => s.(now := s.now + d)
  }

  predicate ValidRun(s: State, steps: seq<Step>)
    decreases |steps|
  {
    steps == [] || (Enabled(s, steps[0]) && ValidRun(Apply(s, steps[0]), steps[1..]))
  }

  function Exec(s: State, steps: seq<Step>): State
    requires ValidRun(s, steps)
    decreases |steps|
  {
    if steps == [] then s else Exec(Apply(s, steps[0]), steps[1..])
  }

  predicate Unforced(steps: seq<Step>) {
    forall i :: 0 <= i < |steps| ==> !steps[i].DoForce?
  }

  /** The job is running and its deadline check lets it go on. */
  predicate Passes(s: State, t: nat) {
    t in s.jobs && !s.jobs[t].ended && s.jobs[t].stamped.Some? && s.now < s.jobs[t].stamped.value + s.jobs[t].ttl
  }

  /** How long after acquiring the job stamped its deadline. */
  function Gap(s: State, t: nat): int
    requires t in s.jobs && s.jobs[t].stamped.Some?
  {
    s.jobs[t].stamped.value - s.jobs[t].since
  }

  ghost predicate Inv(s: State) {
    && (forall t :: t in s.jobs ==> t < s.nextToken && s.jobs[t].since <= s.now
                                    && (s.jobs[t].stamped.Some? ==>
                                            s.jobs[t].since <= s.jobs[t].stamped.value <= s.now))
    // a running job's key is its own until one TTL after it acquired
    && (forall t :: t in s.jobs && !s.jobs[t].ended && s.now < s.jobs[t].since + s.jobs[t].ttl ==>
          Owns(s.keys, s.jobs[t].key, t, s.now) && s.jobs[t].since + s.jobs[t].ttl <= s.keys[s.jobs[t].key].expires)
  }

  lemma InvStep(s: State, step: Step)
    requires Inv(s) && Enabled(s, step) && !step.DoForce?
    ensures Inv(Apply(s, step))
  {
  }

  lemma {:induction false} InvRun(s: State, steps: seq<Step>)
    requires Inv(s) && ValidRun(s, steps) && Unforced(steps)
    ensures Inv(Exec(s, steps))
    decreases |steps|
  {
    if steps != [] {
      InvStep(s, steps[0]);
      InvRun(Apply(s, steps[0]), steps[1..]);
    }
  }

  /**
   Two jobs of one key pass their deadline checks at once only inside the gap between acquiring
   and stamping: one of them is past its lock's life, by less than its own gap. Stamped in the
   instant they acquired, at most one job per key ever passes.
   */
  lemma AtMostOnePasses(steps: seq<Step>, t: nat, u: nat)
    requires ValidRun(IDLE, steps) && Unforced(steps)
    requires var s := Exec(IDLE, steps); Passes(s, t) && Passes(s, u) && t != u && s.jobs[t].key == s.jobs[u].key
    ensures var s := Exec(IDLE, steps);
            (s.jobs[t].since + s.jobs[t].ttl <= s.now < s.jobs[t].since + s.jobs[t].ttl + Gap(s, t))
            || (s.jobs[u].since + s.jobs[u].ttl <= s.now < s.jobs[u].since + s.jobs[u].ttl + Gap(s, u))
    ensures var s := Exec(IDLE, steps); !(Gap(s, t) == 0 && Gap(s, u) == 0)
  {
    InvRun(IDLE, steps);
  }

  function OverlapRun(ttl: nat, gap: nat): seq<Step> {
    [DoAcquire("gc", ttl), DoTick(gap), DoStamp(0), DoTick(if gap < ttl then ttl - gap else 0),
     DoAcquire("gc", ttl), DoStamp(1)]
  }

  /** And any gap at all is too much: for every TTL and every gap there is a run in which two jobs pass together. */
  lemma AnyGapOverlaps(ttl: nat, gap: nat)
    requires ttl > 0 && gap > 0
    ensures var steps := OverlapRun(ttl, gap);
            ValidRun(IDLE, steps) && Unforced(steps) && Passes(Exec(IDLE, steps), 0) && Passes(Exec(IDLE, steps), 1)
            && Gap(Exec(IDLE, steps), 0) == gap && Gap(Exec(IDLE, steps), 1) == 0
  {
    var steps := OverlapRun(ttl, gap);
    var s1 := Apply(IDLE, steps[0]);
    var s2 := Apply(s1, steps[1]);
    var s3 := Apply(s2, steps[2]);
    var s4 := Apply(s3, steps[3]);
    var s5 := Apply(s4, steps[4]);
    var s6 := Apply(s5, steps[5]);
    RunOf(s5, steps[5..], s6);
    RunOf(s4, steps[4..], s6);
    RunOf(s3, steps[3..], s6);
    RunOf(s2, steps[2..], s6);
    RunOf(s1, steps[1..], s6);
  }

  /** Clearing a lock whoever holds it lets a second job in, with no gap at all. */
  lemma ForcedReleaseOverlaps()
    ensures var steps := [DoAcquire("blobmig", 2), DoStamp(0), DoForce("blobmig"), DoAcquire("blobmig", 2), DoStamp(1)];
            ValidRun(IDLE, steps) && Passes(Exec(IDLE, steps), 0) && Passes(Exec(IDLE, steps), 1)
            && Gap(Exec(IDLE, steps), 0) == Gap(Exec(IDLE, steps), 1) == 0
  {
    var s1 := Apply(IDLE, DoAcquire("blobmig", 2));
    var s2 := Apply(s1, DoStamp(0));
    var s3 := Apply(s2, DoForce("blobmig"));
    var s4 := Apply(s3, DoAcquire("blobmig", 2));
    var s5 := Apply(s4, DoStamp(1));
    var steps := [DoAcquire("blobmig", 2), DoStamp(0), DoForce("blobmig"), DoAcquire("blobmig", 2), DoStamp(1)];
    RunOf(s4, steps[4..], s5);
    RunOf(s3, steps[3..], s5);
    RunOf(s2, steps[2..], s5);
    RunOf(s1, steps[1..], s5);
  }

  lemma RunOf(s: State, steps: seq<Step>, last: State)
    requires steps != [] && Enabled(s, steps[0])
    requires ValidRun(Apply(s, steps[0]), steps[1..]) && Exec(Apply(s, steps[0]), steps[1..]) == last
    ensures ValidRun(s, steps) && Exec(s, steps) == last
  {
  }

  /**
   A late Release or Refresh leaves another holder's lock alone: in every run, once another job has
   acquired the key and still runs in its lease, whatever the late job does changes no key.
   */
  lemma OvertakenHolderIsLate(steps: seq<Step>, t: nat, u: nat)
    requires ValidRun(IDLE, steps) && Unforced(steps)
    requires var s := Exec(IDLE, steps);
             t in s.jobs && u in s.jobs && t != u && s.jobs[t].key == s.jobs[u].key
             && !s.jobs[u].ended && s.now < s.jobs[u].since + s.jobs[u].ttl
    ensures var s := Exec(IDLE, steps);
            Apply(s, DoRelease(t)).keys == s.keys && Apply(s, DoRefresh(t)).keys == s.keys
  {
    InvRun(IDLE, steps);
  }
}
