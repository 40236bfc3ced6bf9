/**
 The durable queue behind automatic promotion, drained by any number of replicas.

 The queue is a state machine. Each of its steps is one atomic database statement, as the
 repository interface promises it; a run is any interleaving of steps, so a worker may stall
 between its Claim and its Finish for as long as it likes, lose its lease, and come back.
 `log` is the history the theorems are stated about; no step reads it.
 */
module AutoQueue {
  import opened Prelude

  /** A row is unique per (rule, component). */
  datatype Pair = Pair(ruleId: Id, componentId: Id)

  datatype Claim = Claim(token: nat, until: int)

  datatype Row = Row(
    id: nat,
    lastPublishedAt: int,
    dueAt: int,
    generation: nat,
    attempts: nat,
    waitingForScan: bool,
    started: bool,
    reason: string,
    claim: Option<Claim>)

  /** What Claim hands a worker: the row as it was, under the claim's token. */
  datatype Entry = Entry(
    pair: Pair,
    id: nat,
    lastPublishedAt: int,
    generation: nat,
    attempts: nat,
    started: bool,
    token: nat)

  datatype Reschedule = Reschedule(
    dueIn: int,
    waitingForScan: bool,
    started: bool,
    countAttempt: bool,
    reason: string)

  /** What an operator deleted; the rows of its pairs go with it. */
  datatype Gone = GoneRule(ruleId: Id) | GoneComponent(componentId: Id)

  datatype Event =
    | Published(pairs: set<Pair>, publishedAt: int)
    | Claimed(entry: Entry, at: int, until: int)
    | Released(holder: Entry)
    | Removed(holder: Entry)
    | Dropped(gone: Gone)

  /** `now` is the database clock; `nextId` and `nextToken` make row ids and claim tokens fresh. */
  datatype Queue = Queue(
    rows: map<Pair, Row>,
    now: int,
    nextId: nat,
    nextToken: nat,
    log: seq<Event>)

  const EMPTY_QUEUE := Queue(map[], 0, 0, 0, [])

  function Max(a: int, b: int): int {
    if a < b then b else a
  }

  // ---------------------------------------------------------------- the statements

  function Refreshed(q: Queue, p: Pair, at: int, settle: int): Row {
    if p in q.rows then
      var row := q.rows[p];
      row.(lastPublishedAt := Max(row.lastPublishedAt, at), dueAt := q.now + settle, generation := row.generation + 1,
           attempts := 0, waitingForScan := false, started := false, reason := "")
    else
      Row(q.nextId, at, q.now + settle, 1, 0, false, false, "", None)
  }

  /** One INSERT ... SELECT over the pairs of every auto_promote rule of the repository. */
  function EnqueuePublish(q: Queue, pairs: set<Pair>, at: int, settle: int): Queue {
    q.(rows := map p | p in q.rows.Keys + pairs :: if p in pairs then Refreshed(q, p, at, settle) else q.rows[p],
       nextId := q.nextId + 1,
       log := q.log + [Published(pairs, at)])
  }

  predicate Claimable(q: Queue, p: Pair) {
    p in q.rows && q.rows[p].dueAt <= q.now && (q.rows[p].claim.Some? ==> q.rows[p].claim.value.until <= q.now)
  }

  function EntryOf(q: Queue, p: Pair): Entry
    requires p in q.rows
  {
    var row := q.rows[p];
    Entry(p, row.id, row.lastPublishedAt, row.generation, row.attempts, row.started, q.nextToken)
  }

  function ClaimRow(q: Queue, p: Pair, lease: nat): Queue
    requires Claimable(q, p)
  {
    q.(rows := q.rows[p := q.rows[p].(claim := Some(Claim(q.nextToken, q.now + lease)))],
       nextToken := q.nextToken + 1,
       log := q.log + [Claimed(EntryOf(q, p), q.now, q.now + lease)])
  }

  /** Whether the row is still under the claim `e` was handed out with. */
  predicate Holds(q: Queue, e: Entry) {
    && e.pair in q.rows
    && q.rows[e.pair].id == e.id
    && q.rows[e.pair].claim.Some?
    && q.rows[e.pair].claim.value.token == e.token
  }

  function Finish(q: Queue, e: Entry): Queue {
    if !Holds(q, e) then q
    else if q.rows[e.pair].generation == e.generation then
      q.(rows := q.rows - {e.pair}, log := q.log + [Removed(e)])
    else
      q.(rows := q.rows[e.pair := q.rows[e.pair].(claim := None)], log := q.log + [Released(e)])
  }

  function RetryRow(q: Queue, e: Entry, r: Reschedule): Queue {
    if !Holds(q, e) then q
    else
      var row := q.rows[e.pair];
      var freed :=
        if row.generation == e.generation then
          row.(claim := None, dueAt := q.now + r.dueIn, attempts := row.attempts + (if r.countAttempt then 1 else 0),
               waitingForScan := r.waitingForScan, started := r.started, reason := r.reason)
        else row.(claim := None);
      q.(rows := q.rows[e.pair := freed], log := q.log + [Released(e)])
  }

  function WakeForScan(q: Queue, componentId: Id): Queue {
    q.(rows := map p | p in q.rows ::
         if p.componentId == componentId && q.rows[p].waitingForScan && q.rows[p].dueAt > q.now
         then q.rows[p].(dueAt := q.now) else q.rows[p])
  }

  predicate Concerns(gone: Gone, p: Pair) {
    match gone
    case GoneRule(r) => p.ruleId == r
    case GoneComponent(c) => p.componentId == c
  }

  /** Deleting a rule or a component deletes its rows by cascade. */
  function DropRows(q: Queue, gone: Gone): Queue {
    q.(rows := map p | p in q.rows && !Concerns(gone, p) :: q.rows[p], log := q.log + [Dropped(gone)])
  }

  predicate Queued(q: Queue, p: Pair) {
    p in q.rows
  }

  // ---------------------------------------------------------------- runs

  datatype Step =
    | DoPublish(pairs: set<Pair>, at: int, settle: int)
    | DoClaim(pair: Pair, lease: nat)
    | DoFinish(entry: Entry)
    | DoRetry(entry: Entry, how: Reschedule)
    | DoWake(componentId: Id)
    | DoDrop(gone: Gone)
    | DoTick(elapsed: nat)

  /** A worker knows an entry only because some claim handed it out; nothing says when. */
  predicate HandedOut(q: Queue, e: Entry) {
    exists j :: 0 <= j < |q.log| && q.log[j].Claimed? && q.log[j].entry == e
  }

  predicate Enabled(q: Queue, s: Step) {
    match s
    case DoClaim(p, _) => Claimable(q, p)
    case DoFinish(e) => HandedOut(q, e)
    case DoRetry(e, _) => HandedOut(q, e)
    case _ => true
  }

  function Apply(q: Queue, s: Step): Queue
    requires Enabled(q, s)
  {
    match s
    case DoPublish(pairs, at, settle) => EnqueuePublish(q, pairs, at, settle)
    case DoClaim(p, lease) => ClaimRow(q, p, lease)
    case DoFinish(e) => Finish(q, e)
    case DoRetry(e, r) => RetryRow(q, e, r)
    case DoWake(c) => WakeForScan(q, c)
    case DoDrop(gone) => DropRows(q, gone)
    case DoTick(d) => q.(now := q.now + d)
  }

  predicate ValidRun(q: Queue, steps: seq<Step>)
    decreases |steps|
  {
    steps == [] || (Enabled(q, steps[0]) && ValidRun(Apply(q, steps[0]), steps[1..]))
  }

  function Exec(q: Queue, steps: seq<Step>): Queue
    requires ValidRun(q, steps)
    decreases |steps|
  {
    if steps == [] then q else Exec(Apply(q, steps[0]), steps[1..])
  }

  // ---------------------------------------------------------------- the properties

  predicate PublishOf(log: seq<Event>, i: int, p: Pair) {
    0 <= i < |log| && log[i].Published? && p in log[i].pairs
  }

  predicate ClaimOf(log: seq<Event>, j: int, p: Pair) {
    0 <= j < |log| && log[j].Claimed? && log[j].entry.pair == p
  }

  /** The publish at i was evaluated: claimed after it, and that very claim later removed the row. */
  ghost predicate Covered(log: seq<Event>, i: int, p: Pair) {
    exists j, k :: i < j < k < |log| && ClaimOf(log, j, p) && log[k] == Removed(log[j].entry)
  }

  /** The rule or the component was deleted after position i. */
  ghost predicate DroppedAfter(log: seq<Event>, i: int, p: Pair) {
    exists k :: i < k < |log| && k >= 0 && log[k].Dropped? && Concerns(log[k].gone, p)
  }

  /** The publish at i needs no evaluation any more: it had one, or there is nothing left to evaluate. */
  ghost predicate Settled(log: seq<Event>, i: int, p: Pair) {
    Covered(log, i, p) || DroppedAfter(log, i, p)
  }

  ghost predicate NothingLost(q: Queue) {
    forall i, p {:trigger PublishOf(q.log, i, p)} :: PublishOf(q.log, i, p) ==> p in q.rows || Settled(q.log, i, p)
  }

  /** A queued row knows the latest publish that is still to be evaluated. */
  ghost predicate KnowsLatest(q: Queue) {
    forall i, p {:trigger PublishOf(q.log, i, p)} :: PublishOf(q.log, i, p) && p in q.rows ==>
      Settled(q.log, i, p) || q.log[i].publishedAt <= q.rows[p].lastPublishedAt
  }

  ghost predicate FreshStamps(q: Queue) {
    && (forall p :: p in q.rows ==> q.rows[p].id < q.nextId
                                    && (q.rows[p].claim.Some? ==> q.rows[p].claim.value.token < q.nextToken))
    && (forall j, p {:trigger ClaimOf(q.log, j, p)} :: ClaimOf(q.log, j, p) ==>
          q.log[j].entry.id < q.nextId && q.log[j].entry.token < q.nextToken && q.log[j].at <= q.now)
  }

  /** Tokens name claims. */
  ghost predicate TokensDistinct(q: Queue) {
    forall j, k, p, r {:trigger ClaimOf(q.log, j, p), ClaimOf(q.log, k, r)} ::
      ClaimOf(q.log, j, p) && ClaimOf(q.log, k, r) && j < k ==> q.log[j].entry.token < q.log[k].entry.token
  }

  /** A generation equal to the claimed one means no publish came after the claim. */
  ghost predicate GenerationsTell(q: Queue) {
    forall j, p {:trigger ClaimOf(q.log, j, p)} ::
      ClaimOf(q.log, j, p) && p in q.rows && q.rows[p].id == q.log[j].entry.id ==>
        && q.log[j].entry.generation <= q.rows[p].generation
        && (q.log[j].entry.generation == q.rows[p].generation ==> forall i :: PublishOf(q.log, i, p) ==> i < j)
  }

  /** An overtaken claim no longer names the row's holder. */
  ghost predicate LatestClaimHolds(q: Queue) {
    forall j, k, p {:trigger ClaimOf(q.log, j, p), ClaimOf(q.log, k, p)} ::
      ClaimOf(q.log, j, p) && ClaimOf(q.log, k, p) && j < k ==> !Holds(q, q.log[j].entry)
  }

  /** At m the claim at j was given back, removed its row, or lost it with the rule or the component. */
  predicate FreedAfter(log: seq<Event>, j: int, m: int)
    requires 0 <= j < |log| && log[j].Claimed?
  {
    && j < m < |log|
    && (log[m] == Released(log[j].entry) || log[m] == Removed(log[j].entry)
        || (log[m].Dropped? && Concerns(log[m].gone, log[j].entry.pair)))
  }

  /** A claim not given back keeps the row until its lease is over. */
  ghost predicate LeaseKept(q: Queue) {
    forall j, p {:trigger ClaimOf(q.log, j, p)} :: ClaimOf(q.log, j, p) ==>
      || (exists m :: FreedAfter(q.log, j, m))
      || q.log[j].until <= q.now
      || (Holds(q, q.log[j].entry) && q.rows[p].claim.value.until == q.log[j].until)
  }

  /** Two claims of one pair: the first was freed in between, or its lease had run out. */
  ghost predicate LeasesExclude(q: Queue) {
    forall j, k, p {:trigger ClaimOf(q.log, j, p), ClaimOf(q.log, k, p)} ::
      ClaimOf(q.log, j, p) && ClaimOf(q.log, k, p) && j < k ==>
        (exists m :: FreedAfter(q.log, j, m) && m < k) || q.log[j].until <= q.log[k].at
  }

  ghost predicate Inv(q: Queue) {
    && FreshStamps(q) && TokensDistinct(q) && GenerationsTell(q) && LatestClaimHolds(q)
    && LeaseKept(q) && LeasesExclude(q) && NothingLost(q) && KnowsLatest(q)
  }

  // ---------------------------------------------------------------- proofs

  lemma SettledGrows(log: seq<Event>, more: seq<Event>, i: int, p: Pair)
    requires Settled(log, i, p)
    ensures Settled(log + more, i, p)
  {
    var log' := log + more;
    if Covered(log, i, p) {
      var j, k :| i < j < k < |log| && ClaimOf(log, j, p) && log[k] == Removed(log[j].entry);
      assert ClaimOf(log', j, p) && log'[k] == Removed(log'[j].entry);
    } else {
      var k :| i < k < |log| && k >= 0 && log[k].Dropped? && Concerns(log[k].gone, p);
      assert log'[k].Dropped? && Concerns(log'[k].gone, p);
    }
  }

  /** Every event of the longer log is an old one or the one just appended. */
  lemma LogGrows(q: Queue, s: Step)
    requires Enabled(q, s)
    ensures q.log <= Apply(q, s).log && |Apply(q, s).log| <= |q.log| + 1
    ensures forall i, p {:trigger PublishOf(Apply(q, s).log, i, p)} :: PublishOf(Apply(q, s).log, i, p) ==>
              PublishOf(q.log, i, p) || (i == |q.log| && s.DoPublish? && p in s.pairs)
    ensures forall j, p {:trigger ClaimOf(Apply(q, s).log, j, p)} :: ClaimOf(Apply(q, s).log, j, p) ==>
              ClaimOf(q.log, j, p) || (j == |q.log| && s.DoClaim? && p == s.pair)
    ensures forall i, p :: PublishOf(q.log, i, p) ==> PublishOf(Apply(q, s).log, i, p)
  {
  }

  lemma StampsStep(q: Queue, s: Step)
    requires Inv(q) && Enabled(q, s)
    ensures FreshStamps(Apply(q, s)) && TokensDistinct(Apply(q, s))
  {
    LogGrows(q, s);
  }

  lemma GenerationsStep(q: Queue, s: Step)
    requires Inv(q) && Enabled(q, s)
    ensures GenerationsTell(Apply(q, s))
  {
    LogGrows(q, s);
  }

  lemma HolderStep(q: Queue, s: Step)
    requires Inv(q) && Enabled(q, s)
    ensures LatestClaimHolds(Apply(q, s))
  {
    LogGrows(q, s);
  }

  lemma LeaseStep(q: Queue, s: Step)
    requires Inv(q) && Enabled(q, s)
    ensures LeaseKept(Apply(q, s)) && LeasesExclude(Apply(q, s))
  {
    LogGrows(q, s);
    var q' := Apply(q, s);
    forall j, m | 0 <= j < |q.log| && q.log[j].Claimed? && FreedAfter(q.log, j, m)
      ensures FreedAfter(q'.log, j, m)
    {
    }
    forall j, p | ClaimOf(q'.log, j, p)
      ensures (exists m :: FreedAfter(q'.log, j, m)) || q'.log[j].until <= q'.now
              || (Holds(q', q'.log[j].entry) && q'.rows[p].claim.value.until == q'.log[j].until)
    {
      if (s.DoFinish? || s.DoRetry?) && Holds(q, s.entry) && s.entry.pair == p && ClaimOf(q.log, j, p)
           && Holds(q, q.log[j].entry) {
        SameToken(q, j, s.entry);
        assert FreedAfter(q'.log, j, |q.log|);
      }
      if s.DoDrop? && Concerns(s.gone, p) && ClaimOf(q.log, j, p) {
        assert FreedAfter(q'.log, j, |q.log|);
      }
    }
    forall j, k, p | ClaimOf(q'.log, j, p) && ClaimOf(q'.log, k, p) && j < k
      ensures (exists m :: FreedAfter(q'.log, j, m) && m < k) || q'.log[j].until <= q'.log[k].at
    {
      if !ClaimOf(q.log, k, p) {
        assert ClaimOf(q.log, j, p);
      }
    }
  }

  /** Two handed-out entries with one token are the same entry. */
  lemma SameToken(q: Queue, j: int, e: Entry)
    requires TokensDistinct(q) && HandedOut(q, e)
    requires 0 <= j < |q.log| && q.log[j].Claimed? && q.log[j].entry.token == e.token
    ensures q.log[j].entry == e
  {
    var k :| 0 <= k < |q.log| && q.log[k].Claimed? && q.log[k].entry == e;
    assert ClaimOf(q.log, j, q.log[j].entry.pair) && ClaimOf(q.log, k, e.pair);
  }

  lemma CoverStep(q: Queue, s: Step)
    requires Inv(q) && Enabled(q, s)
    ensures NothingLost(Apply(q, s)) && KnowsLatest(Apply(q, s))
  {
    LogGrows(q, s);
    var q' := Apply(q, s);
    forall i, p | PublishOf(q'.log, i, p)
      ensures p in q'.rows || Settled(q'.log, i, p)
      ensures p in q'.rows ==> Settled(q'.log, i, p) || q'.log[i].publishedAt <= q'.rows[p].lastPublishedAt
    {
      if PublishOf(q.log, i, p) {
        if Settled(q.log, i, p) {
          SettledGrows(q.log, q'.log[|q.log|..], i, p);
          assert q.log + q'.log[|q.log|..] == q'.log;
        } else if s.DoDrop? && Concerns(s.gone, p) {
          assert q'.log[|q.log|].Dropped? && DroppedAfter(q'.log, i, p);
        } else if p !in q'.rows {
          var e := s.entry;
          var j :| 0 <= j < |q.log| && q.log[j].Claimed? && q.log[j].entry == e;
          assert ClaimOf(q.log, j, p) && ClaimOf(q'.log, j, p);
          assert i < j < |q.log| && q'.log[|q.log|] == Removed(q'.log[j].entry);
        }
      }
    }
  }

  lemma InvStep(q: Queue, s: Step)
    requires Inv(q) && Enabled(q, s)
    ensures Inv(Apply(q, s))
  {
    StampsStep(q, s);
    GenerationsStep(q, s);
    HolderStep(q, s);
    LeaseStep(q, s);
    CoverStep(q, s);
  }

  lemma {:induction false} InvRun(q: Queue, steps: seq<Step>)
    requires Inv(q) && ValidRun(q, steps)
    ensures Inv(Exec(q, steps))
    decreases |steps|
  {
    if steps != [] {
      InvStep(q, steps[0]);
      InvRun(Apply(q, steps[0]), steps[1..]);
    }
  }

  // ---------------------------------------------------------------- the theorems

  /**
   Over every run of any number of replicas: a recorded publish is still queued, or some
   evaluation claimed after it finished, or its rule or component was deleted since. A queued row
   carries the time of its latest publish still to be evaluated.
   */
  lemma NoPublishIsLost(steps: seq<Step>, i: int, p: Pair)
    requires ValidRun(EMPTY_QUEUE, steps)
    requires PublishOf(Exec(EMPTY_QUEUE, steps).log, i, p)
    ensures var q := Exec(EMPTY_QUEUE, steps);
            Covered(q.log, i, p) || DroppedAfter(q.log, i, p)
            || (p in q.rows && q.log[i].publishedAt <= q.rows[p].lastPublishedAt)
  {
    InvRun(EMPTY_QUEUE, steps);
  }

  /**
   A row goes away in two ways only: Finish by the holder of its current, latest claim, with no
   publish recorded since that claim, or the deletion of its rule or component.
   */
  lemma OnlyTheHolderRemoves(steps: seq<Step>, s: Step, p: Pair)
    requires ValidRun(EMPTY_QUEUE, steps)
    requires Enabled(Exec(EMPTY_QUEUE, steps), s)
    requires p in Exec(EMPTY_QUEUE, steps).rows && p !in Apply(Exec(EMPTY_QUEUE, steps), s).rows
    ensures var q := Exec(EMPTY_QUEUE, steps);
            || (s.DoDrop? && Concerns(s.gone, p))
            || (s.DoFinish? && s.entry.pair == p && Holds(q, s.entry)
                && exists j :: ClaimOf(q.log, j, p) && q.log[j].entry == s.entry
                     && (forall k :: ClaimOf(q.log, k, p) ==> k <= j)
                     && (forall i :: PublishOf(q.log, i, p) ==> i < j))
  {
    var q := Exec(EMPTY_QUEUE, steps);
    InvRun(EMPTY_QUEUE, steps);
    if s.DoFinish? {
      var j :| 0 <= j < |q.log| && q.log[j].Claimed? && q.log[j].entry == s.entry;
      assert ClaimOf(q.log, j, p);
    }
  }

  /** An entry tells its claim. */
  lemma ClaimsAreDistinct(steps: seq<Step>, j: int, p: Pair)
    requires ValidRun(EMPTY_QUEUE, steps) && ClaimOf(Exec(EMPTY_QUEUE, steps).log, j, p)
    ensures var log := Exec(EMPTY_QUEUE, steps).log;
            forall k :: ClaimOf(log, k, p) && log[k].entry == log[j].entry ==> k == j
  {
    InvRun(EMPTY_QUEUE, steps);
  }

  /** Once the pair has been claimed again, a worker's Finish and Retry change nothing at all. */
  lemma StaleWorkerChangesNothing(steps: seq<Step>, j: int, k: int, p: Pair, r: Reschedule)
    requires ValidRun(EMPTY_QUEUE, steps)
    requires ClaimOf(Exec(EMPTY_QUEUE, steps).log, j, p) && ClaimOf(Exec(EMPTY_QUEUE, steps).log, k, p) && j < k
    ensures var q := Exec(EMPTY_QUEUE, steps);
            Finish(q, q.log[j].entry) == q && RetryRow(q, q.log[j].entry, r) == q
  {
    InvRun(EMPTY_QUEUE, steps);
  }

  /** No two replicas hold one row: the earlier claim was given back or its row dropped first, or its lease was over. */
  lemma OneHolderPerLease(steps: seq<Step>, j: int, k: int, p: Pair)
    requires ValidRun(EMPTY_QUEUE, steps)
    requires ClaimOf(Exec(EMPTY_QUEUE, steps).log, j, p) && ClaimOf(Exec(EMPTY_QUEUE, steps).log, k, p) && j < k
    ensures var log := Exec(EMPTY_QUEUE, steps).log;
            (exists m :: FreedAfter(log, j, m) && m < k) || log[j].until <= log[k].at
  {
    InvRun(EMPTY_QUEUE, steps);
  }
}
