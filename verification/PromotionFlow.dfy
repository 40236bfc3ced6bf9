/**
 Promote, Approve, Reject and the automatic worker, over the request desk and the durable queue.
 Each call here is one actor running alone; PromotionRequests and AutoQueue interleave their steps.
 */
module PromotionFlow {
  import opened Prelude
  import opened PromotionGates
  import Q = AutoQueue
  import D = PromotionRequests

  /** Everything a copy needs, as it is when the bytes are about to move. */
  predicate CopyAllowed(w: World, rule: Rule, comp: Id, automatic: bool) {
    && ComponentLookup !in w.down && RepositoryLookup !in w.down
    && comp in w.components
    && Covers(w, rule, w.components[comp])
    && ScanPasses(w, rule, comp)
    && rule.toRepo in w.repositories
    && w.plan(w.components[comp], rule.toRepo, automatic).Ok?
  }

  /** The copy of a request goes through: allowed, and either nothing is missing in the target or the bytes arrive. */
  predicate CopySucceeds(w: World, rule: Rule, comp: Id, automatic: bool) {
    && CopyAllowed(w, rule, comp, automatic)
    && ((automatic && w.plan(w.components[comp], rule.toRepo, true) == Ok(0))
          || w.copy(w.components[comp], rule.toRepo).None?)
  }

  /** A scan that looked at the content published at `since`. */
  predicate ScanOf(w: World, comp: Id, since: int) {
    comp in w.scans && since <= w.scans[comp].scannedAt
  }

  /** What an automatic request must pass, over the gates every request passes, before it is approved. */
  predicate ApprovalOpen(w: World, q: Q.Queue, r: D.Request, rule: Rule) {
    r.automatic ==>
      && (w.worker ==> QueueRead !in w.down && !Q.Queued(q, r.pair))
      && (rule.requireScanPass && r.publishedAt.Some? ==>
            ScanOf(w, r.pair.componentId, r.publishedAt.value) && !w.scans[r.pair.componentId].failed)
  }

  /**
   The approval gate reads one queue row, yet it answers for the history: when it opens in any
   reachable state, every publish ever recorded for the request's pair was evaluated to the end
   by a claim made after it, unless the rule or the component was deleted since.
   */
  lemma OpenApprovalMeansAllEvaluated(steps: seq<Q.Step>, w: World, r: D.Request, rule: Rule, i: int)
    requires Q.ValidRun(Q.EMPTY_QUEUE, steps)
    requires w.worker && r.automatic && ApprovalOpen(w, Q.Exec(Q.EMPTY_QUEUE, steps), r, rule)
    requires Q.PublishOf(Q.Exec(Q.EMPTY_QUEUE, steps).log, i, r.pair)
    ensures Q.Settled(Q.Exec(Q.EMPTY_QUEUE, steps).log, i, r.pair)
  {
    Q.NoPublishIsLost(steps, i, r.pair);
  }

  /** `d'` is reached from `d` by steps of the request machine. */
  ghost predicate Reaches(d: D.Desk, d': D.Desk) {
    exists steps :: D.ValidRun(d, steps) && D.Exec(d, steps) == d'
  }

  lemma ReachesStep(d: D.Desk, s: D.Step, d': D.Desk)
    requires D.Enabled(d, s) && Reaches(D.Apply(d, s), d')
    ensures Reaches(d, d')
  {
    var rest :| D.ValidRun(D.Apply(d, s), rest) && D.Exec(D.Apply(d, s), rest) == d';
    var steps := [s] + rest;
    assert steps[1..] == rest;
    assert D.ValidRun(d, steps) && D.Exec(d, steps) == d';
  }

  lemma ReachesSelf(d: D.Desk)
    ensures Reaches(d, d)
  {
    assert D.ValidRun(d, []) && D.Exec(d, []) == d;
  }

  lemma {:induction false} ReachesOn(d: D.Desk, steps: seq<D.Step>, d': D.Desk)
    requires D.ValidRun(d, steps) && Reaches(D.Exec(d, steps), d')
    ensures Reaches(d, d')
    decreases |steps|
  {
    if steps != [] {
      ReachesOn(D.Apply(d, steps[0]), steps[1..], d');
      ReachesStep(d, steps[0], d');
    }
  }

  lemma ReachesTransitive(d: D.Desk, middle: D.Desk, d': D.Desk)
    requires Reaches(d, middle) && Reaches(middle, d')
    ensures Reaches(d, d')
  {
    var steps :| D.ValidRun(d, steps) && D.Exec(d, steps) == middle;
    ReachesOn(d, steps, d');
  }

  datatype Options = Options(settleWindow: int, scanWait: int, maxAttempts: nat, retrigger: bool)

  /** How one evaluation of a queue row ended. */
  datatype Verdict =
    | Dropped
    | Rescheduled(how: Q.Reschedule)
    | Blocked(reason: string)
    | Filed(request: nat)
    | Copied(request: nat, failure: Option<string>)
    | Unsettled(request: nat)

  const AUTO_RETRY_BASE := 15
  const AUTO_RETRY_MAX := 300

  function Doubled(n: nat): nat {
    if n == 0 then AUTO_RETRY_BASE else 2 * Doubled(n - 1)
  }

  lemma {:induction false} DoubledGrows(m: nat, n: nat)
    requires m <= n
    ensures AUTO_RETRY_BASE <= Doubled(m) <= Doubled(n)
    decreases n
  {
    if m < n {
      DoubledGrows(m, n - 1);
    } else if n > 0 {
      DoubledGrows(m - 1, n - 1);
    }
  }

  /** The backoff doubles per attempt until it meets the cap, and stays there. */
  method AutoBackoff(attempts: nat) returns (d: nat)
    ensures d == if Doubled(attempts) < AUTO_RETRY_MAX then Doubled(attempts) else AUTO_RETRY_MAX
  {
    d := AUTO_RETRY_BASE;
    var i := 0;
    while i < attempts && d < AUTO_RETRY_MAX
      invariant i <= attempts && d == Doubled(i)
    {
      d := d * 2;
      i := i + 1;
    }
    DoubledGrows(i, attempts);
    if d > AUTO_RETRY_MAX {
      d := AUTO_RETRY_MAX;
    }
  }

  function ScanRecheck(waited: int): (d: int)
    ensures AUTO_RETRY_BASE <= d <= AUTO_RETRY_MAX
    ensures 2 * AUTO_RETRY_BASE <= waited <= 2 * AUTO_RETRY_MAX ==> 2 * d <= waited < 2 * (d + 1)
  {
    if waited / 2 < AUTO_RETRY_BASE then AUTO_RETRY_BASE
    else if waited / 2 > AUTO_RETRY_MAX then AUTO_RETRY_MAX
    else waited / 2
  }

  // ---------------------------------------------------------------- what the worker is meant to decide

  /** The row still belongs to a live automatic rule and a component that rule promotes from. */
  predicate Live(w: World, e: Q.Entry) {
    && RuleLookup !in w.down && ComponentLookup !in w.down
    && FindRule(w.rules, e.pair.ruleId).Some?
    && e.pair.componentId in w.components
    && var rule := FindRule(w.rules, e.pair.ruleId).value;
       rule.autoPromote && w.components[e.pair.componentId].repository == rule.fromRepo
  }

  predicate Settled(e: Q.Entry, now: int, o: Options) {
    e.lastPublishedAt + o.settleWindow <= now
  }

  /** The row must wait for a scan of its latest publish, and may. */
  predicate AwaitsScan(w: World, e: Q.Entry, now: int, o: Options) {
    && Live(w, e)
    && var rule := FindRule(w.rules, e.pair.ruleId).value;
       var comp := w.components[e.pair.componentId];
       Covers(w, rule, comp) && Settled(e, now, o) && rule.requireScanPass
       && !ScanOf(w, comp.id, e.lastPublishedAt) && w.scannable(comp.format)
       && now - e.lastPublishedAt < o.scanWait
  }

  /** Every gate of the rule holds for the row's latest publish. */
  predicate Gated(w: World, e: Q.Entry, now: int, o: Options) {
    && Live(w, e)
    && var rule := FindRule(w.rules, e.pair.ruleId).value;
       var comp := w.components[e.pair.componentId];
       && Covers(w, rule, comp)
       && Settled(e, now, o)
       && (rule.requireScanPass ==>
             ScanOf(w, comp.id, e.lastPublishedAt) && !w.scans[comp.id].failed && ScanPasses(w, rule, comp.id))
  }

  /** And what is missing in the target can be told. */
  predicate Planned(w: World, e: Q.Entry, now: int, o: Options) {
    && Gated(w, e, now, o) && RepositoryLookup !in w.down
    && var rule := FindRule(w.rules, e.pair.ruleId).value;
       rule.toRepo in w.repositories && w.plan(w.components[e.pair.componentId], rule.toRepo, true).Ok?
  }

  function MissingCount(w: World, e: Q.Entry): nat
    requires Live(w, e)
    requires var rule := FindRule(w.rules, e.pair.ruleId).value;
             w.plan(w.components[e.pair.componentId], rule.toRepo, true).Ok?
  {
    w.plan(w.components[e.pair.componentId], FindRule(w.rules, e.pair.ruleId).value.toRepo, true).value
  }

  predicate Promotable(w: World, e: Q.Entry, now: int, o: Options) {
    Planned(w, e, now, o) && MissingCount(w, e) > 0
  }

  /** Nothing to promote and nothing to record: the rule or component is not what it was, or the target has it all. */
  predicate Pointless(w: World, e: Q.Entry, now: int, o: Options) {
    && RuleLookup !in w.down
    && var found := FindRule(w.rules, e.pair.ruleId);
       || found.None?
       || !found.value.autoPromote
       || (&& ComponentLookup !in w.down
           && (|| e.pair.componentId !in w.components
               || w.components[e.pair.componentId].repository != found.value.fromRepo
               || EvalPathFilter(w, found.value, w.components[e.pair.componentId]) == Ok(false)
               || (Planned(w, e, now, o) && MissingCount(w, e) == 0)))
  }

  predicate Wellkeyed(w: World) {
    forall c :: c in w.components ==> w.components[c].id == c
  }

  // ---------------------------------------------------------------- what an evaluation leaves behind

  function Finished(q: Q.Queue, e: Q.Entry, down: set<Call>): Q.Queue {
    if QueueWrite in down then q else Q.Finish(q, e)
  }

  function Retried(q: Q.Queue, e: Q.Entry, how: Q.Reschedule, down: set<Call>): Q.Queue {
    if QueueWrite in down then q else Q.RetryRow(q, e, how)
  }

  /** The desk once a refusal has been recorded as well as the calls that do not fail allow. */
  function Refused(d: D.Desk, e: Q.Entry, reason: string, down: set<Call>): D.Desk {
    var failed := if PendingFail in down then d else D.FailPendingAuto(d, e.pair, reason);
    if (e.pair in d.autoIndex && PendingFail !in down) || RefusalInsert in down then failed
    else D.CreateAuto(failed, e.pair, D.Failed, e.lastPublishedAt, reason).0
  }

  /**
   A refusal shows on the desk as one failed automatic request: the pending one, if there was
   one, and otherwise a new one. Every other request is as it was, and nothing was copied.
   */
  predicate RefusalRecorded(d: D.Desk, d': D.Desk, e: Q.Entry) {
    && e.pair !in d'.autoIndex
    && d'.copies == d.copies
    && var id := if e.pair in d.autoIndex then d.autoIndex[e.pair] else d.nextId;
       && d'.requests.Keys == d.requests.Keys + {id}
       && d'.requests[id].pair == e.pair && d'.requests[id].automatic && d'.requests[id].status.Failed?
       && forall other :: other in d.requests && other != id ==> d'.requests[other] == d.requests[other]
  }

  /** The one call a refusal cannot do without. */
  function Recorder(d: D.Desk, e: Q.Entry): Call {
    if e.pair in d.autoIndex then PendingFail else RefusalInsert
  }

  /**
   A refusal is recorded exactly when that call works; and when it fails, a request still pending
   from an earlier publish stays pending, whatever else is written.
   */
  lemma RefusalRecordedExactly(d: D.Desk, e: Q.Entry, reason: string, down: set<Call>)
    requires D.Inv(d) && D.Unlocked(d, e.pair)
    ensures var d' := Refused(d, e, reason, down);
            && (RefusalRecorded(d, d', e) <==> Recorder(d, e) !in down)
            && (e.pair in d.autoIndex && PendingFail in down ==>
                  d.autoIndex[e.pair] in d.requests && d.autoIndex[e.pair] in d'.requests
                  && d'.requests[d.autoIndex[e.pair]] == d.requests[d.autoIndex[e.pair]]
                  && D.PendingAuto(d', d.autoIndex[e.pair], e.pair))
            && d'.copies == d.copies && d'.locks == d.locks
  {
    hide D.Counted;
    if e.pair in d.autoIndex {
      assert D.PendingAuto(d, d.autoIndex[e.pair], e.pair);
    }
    assert d.nextId !in d.requests;
  }

  lemma RefusedReaches(d: D.Desk, e: Q.Entry, reason: string, down: set<Call>)
    requires D.Unlocked(d, e.pair)
    ensures Reaches(d, Refused(d, e, reason, down))
  {
    var failed := if PendingFail in down then d else D.FailPendingAuto(d, e.pair, reason);
    var filing := D.DoCreateAuto(e.pair, D.Failed, e.lastPublishedAt, reason);
    ReachesSelf(failed);
    ReachesSelf(D.Apply(failed, filing));
    ReachesStep(failed, filing, D.Apply(failed, filing));
    if PendingFail !in down {
      ReachesStep(d, D.DoFailPending(e.pair, reason), Refused(d, e, reason, down));
    }
  }

  /** The pending request as filing it again leaves it. */
  function Refiled(d: D.Desk, e: Q.Entry): D.Desk {
    D.CreateAuto(d, e.pair, D.Pending, e.lastPublishedAt, "").0
  }

  /** A failure the worker tries again after. */
  predicate Transient(down: set<Call>) {
    || RuleLookup in down || ComponentLookup in down || RepositoryLookup in down
    || RequestInsert in down || RequestReadback in down
  }

  /** The request an evaluation files cannot be filed, or cannot be read back where one was pending. */
  predicate FilingFails(d: D.Desk, e: Q.Entry, down: set<Call>) {
    RequestInsert in down || (e.pair in d.autoIndex && RequestReadback in down)
  }

  /** The pending request of the row's pair is still there, as it was or filed again. */
  predicate StaysPending(w: World, d: D.Desk, d': D.Desk, e: Q.Entry)
    requires e.pair in d.autoIndex
  {
    var id := d.autoIndex[e.pair];
    D.PendingAuto(d', id, e.pair)
    && (RequestReadback !in w.down ==> id in d.requests && d'.requests[id] == d.requests[id])
  }

  /** What every way out of an evaluation has in common. */
  ghost predicate Accounted(w: World, d: D.Desk, q: Q.Queue, d': D.Desk, q': Q.Queue, e: Q.Entry, o: Options,
                            v: Verdict) {
    && Reaches(d, d')
    && q' == (if v.Rescheduled? then Retried(q, e, v.how, w.down) else Finished(q, e, w.down))
    && (v.Dropped? ==> d' == d)
    && (v.Rescheduled? ==> d' == d || (RequestReadback in w.down && d' == Refiled(d, e)))
    && (v.Blocked? ==> (RefusalRecorded(d, d', e) <==> Recorder(d, e) !in w.down) && d'.copies == d.copies
                       && (e.pair in d.autoIndex && PendingFail in w.down ==>
                             StaysPending(w, d, d', e)))
    && d'.locks == d.locks
    && (v.Rescheduled? && v.how.countAttempt ==>
          !v.how.waitingForScan && e.attempts + 1 < o.maxAttempts && Transient(w.down))
  }

  predicate Acceptable(w: World, rule: Rule, comp: Id) {
    && ComponentLookup !in w.down
    && comp in w.components
    && Covers(w, rule, w.components[comp])
    && ScanPasses(w, rule, comp)
    && w.plan(w.components[comp], rule.toRepo, false).Ok?
  }

  /** The whole batch passes. */
  predicate Passes(w: World, ruleId: Id, batch: seq<Id>) {
    && RuleLookup !in w.down && FindRule(w.rules, ruleId).Some?
    && forall c :: c in batch ==> Acceptable(w, FindRule(w.rules, ruleId).value, c)
  }

  /** How many requests of a batch are filed before one cannot be. */
  function FiledOf(n: nat, refused: set<nat>): (r: nat)
    ensures r <= n && (forall i :: 0 <= i < r ==> i !in refused) && (r < n ==> r in refused)
  {
    FiledFrom(0, n, refused)
  }

  function FiledFrom(i: nat, n: nat, refused: set<nat>): (r: nat)
    requires i <= n
    ensures i <= r <= n && (forall k :: i <= k < r ==> k !in refused) && (r < n ==> r in refused)
    decreases n - i
  {
    if i == n || i in refused then i else FiledFrom(i + 1, n, refused)
  }

  /** What Promote leaves behind for one component; `dies` is whether its settlement could not be written. */
  predicate Outcome(d: D.Desk, id: nat, pair: Q.Pair, rule: Rule, w: World, dies: bool) {
    && id in d.requests && d.requests[id].pair == pair && !d.requests[id].automatic
    && (if rule.requireManualApproval || dies then d.requests[id].status.Pending?
        else if CopySucceeds(w, rule, pair.componentId, false) then d.requests[id].status.Completed?
        else d.requests[id].status.Failed?)
  }

  class PromotionService {
    var world: World
    var queue: Q.Queue
    var desk: D.Desk
    const options: Options

    constructor (world: World, options: Options)
      ensures this.world == world && this.options == options
      ensures desk == D.EMPTY_DESK && queue == Q.EMPTY_QUEUE
    {
      this.world, this.options := world, options;
      desk, queue := D.EMPTY_DESK, Q.EMPTY_QUEUE;
    }

    /** Re-runs every gate in the world as it is at copy time, then moves the bytes. The desk counts the run. */
    method ExecuteCopy(w: World, id: nat, rule: Rule) returns (err: Option<string>)
      requires id in desk.requests && D.Enabled(desk, D.DoCopy(id))
      modifies this`desk
      ensures desk == D.Apply(old(desk), D.DoCopy(id))
      ensures var r := desk.requests[id];
              err.None? <==> CopySucceeds(w, rule, r.pair.componentId, r.automatic)
    {
      var r := desk.requests[id];
      desk := D.Apply(desk, D.DoCopy(id));
      if ComponentLookup in w.down || r.pair.componentId !in w.components {
        return Some("source component not found");
      }
      var comp := w.components[r.pair.componentId];
      err := RuleAppliesTo(w, rule, comp);
      if err.Some? { return; }
      err := ScanGate(w, rule, r.pair.componentId);
      if err.Some? { return; }
      if RepositoryLookup in w.down || rule.toRepo !in w.repositories {
        return Some("target repository not found");
      }
      match w.plan(comp, rule.toRepo, r.automatic)
      case Err(e) => return Some(e);
      case Ok(missing) =>
        if r.automatic && missing == 0 {
          return None;
        }
        err := w.copy(comp, rule.toRepo);
    }

    method AutoApprovalGate(r: D.Request, rule: Rule) returns (err: Option<string>)
      ensures err.None? <==> ApprovalOpen(world, queue, r, rule)
    {
      if !r.automatic {
        return None;
      }
      if world.worker {
        if QueueRead in world.down {
          return Some("cannot check for a newer publish");
        }
        if Q.Queued(queue, r.pair) {
          return Some("the component was published again and is being re-evaluated");
        }
      }
      if !rule.requireScanPass || r.publishedAt.None? {
        return None;
      }
      var comp := r.pair.componentId;
      if comp !in world.scans || world.scans[comp].scannedAt < r.publishedAt.value {
        return Some("no scan of the current content yet");
      }
      return if world.scans[comp].failed then Some("the scan of the current content failed") else None;
    }

    /**
     Settles one pending request for good, or leaves it pending: because its content is still being
     looked at, or because the settlement could not be written. Completed exactly when the rule is
     there, an automatic request's gate is open, the copy goes through and the settlement is
     written; the copy runs at most once, and not at all behind a closed gate.
     */
    method Approve(id: nat) returns (err: Option<string>)
      requires id !in desk.locks
      modifies this`desk
      ensures Reaches(old(desk), desk)
      ensures !(id in old(desk.requests) && old(desk.requests)[id].status.Pending?) ==> err.Some? && desk == old(desk)
      ensures id in old(desk.requests) && old(desk.requests)[id].status.Pending? ==>
                var r := old(desk.requests)[id];
                var rule := if RuleLookup in world.down then None else FindRule(world.rules, r.pair.ruleId);
                var open := rule.Some? && ApprovalOpen(world, queue, r, rule.value);
                && desk.requests.Keys == old(desk.requests).Keys
                && (err.None? <==> desk.requests[id].status.Completed?)
                && (desk.requests[id].status.Completed? <==>
                      open && CopySucceeds(world, rule.value, r.pair.componentId, r.automatic)
                           && Settlement !in world.down)
                && (desk.requests[id].status.Pending? <==> (rule.Some? && !open) || Settlement in world.down)
                && (desk.requests[id].status.Pending? ==> desk.requests == old(desk.requests))
                && (!desk.requests[id].status.Pending? ==>
                      desk.requests[id].status.Completed? || desk.requests[id].status.Failed?)
                && desk.copies == old(desk.copies) + (if open then multiset{id} else multiset{})
                && desk.lost == old(desk.lost) + (if open && Settlement in world.down then multiset{id} else multiset{})
    {
      hide ApprovalOpen, CopySucceeds, FindRule, Reaches;
      if id !in desk.requests || !desk.requests[id].status.Pending? {
        ReachesSelf(desk);
        return Some("request not found or no longer pending");
      }
      ghost var before := desk;
      desk := D.Apply(desk, D.DoLock(id));
      err := ApproveLocked(id);
      ReachesStep(before, D.DoLock(id), desk);
      assert before.locks == before.locks[id := false] - {id};
    }

    /** The part of an approval that runs under the row lock. */
    method ApproveLocked(id: nat) returns (err: Option<string>)
      requires id in desk.locks && !desk.locks[id] && id in desk.requests
      modifies this`desk
      ensures Reaches(old(desk), desk)
      ensures var r := old(desk.requests)[id];
              var rule := if RuleLookup in world.down then None else FindRule(world.rules, r.pair.ruleId);
              var open := rule.Some? && ApprovalOpen(world, queue, r, rule.value);
              var done := open && CopySucceeds(world, rule.value, r.pair.componentId, r.automatic);
              && (err.None? <==> done && Settlement !in world.down)
              && (if Settlement in world.down || (rule.Some? && !open) then desk.requests == old(desk.requests)
                  else id in desk.requests
                       && desk.requests == old(desk.requests)[id := r.(status := if done then D.Completed else D.Failed,
                                                                       error := desk.requests[id].error)])
              && desk.copies == old(desk.copies) + (if open then multiset{id} else multiset{})
              && desk.lost == old(desk.lost) + (if open && Settlement in world.down then multiset{id} else multiset{})
    {
      hide ApprovalOpen, CopySucceeds, FindRule, Reaches;
      ghost var locked := desk;
      var r := desk.requests[id];
      var rule := if RuleLookup in world.down then None else FindRule(world.rules, r.pair.ruleId);
      if rule.None? {
        var _ := End(id, D.Failed, "promotion rule not found", Settlement in world.down);
        return Some("promotion rule not found");
      }
      err := AutoApprovalGate(r, rule.value);
      if err.Some? {
        var _ := End(id, D.Pending, "", Settlement in world.down);
        return;
      }
      err := ExecuteCopy(world, id, rule.value);
      var written := End(id, if err.Some? then D.Failed else D.Completed, if err.Some? then err.value else "",
                         Settlement in world.down);
      ReachesStep(locked, D.DoCopy(id), desk);
      if !written {
        err := Some("settlement not written");
      }
    }

    /** Ends the transaction that holds the row: with an outcome, or, when that cannot be written, with nothing. */
    method End(id: nat, status: D.Status, error: string, dies: bool) returns (written: bool)
      requires id in desk.requests && D.Enabled(desk, D.DoCommit(id, status, error))
      modifies this`desk
      ensures written == !dies
      ensures desk == D.Apply(old(desk), if dies then D.DoAbort(id) else D.DoCommit(id, status, error))
      ensures Reaches(old(desk), desk)
    {
      ghost var before := desk;
      ghost var step := if dies then D.DoAbort(id) else D.DoCommit(id, status, error);
      if dies {
        desk := D.Apply(desk, D.DoAbort(id));
      } else {
        desk := D.Apply(desk, D.DoCommit(id, status, error));
      }
      ReachesSelf(desk);
      ReachesStep(before, step, desk);
      return !dies;
    }

    /** A rejection settles a pending request without copying anything, if it can be written. */
    method Reject(id: nat, reason: string) returns (ok: bool)
      requires id !in desk.locks
      modifies this`desk
      ensures Reaches(old(desk), desk)
      ensures ok <==> id in old(desk.requests) && old(desk.requests)[id].status.Pending? && Settlement !in world.down
      ensures !ok ==> desk.requests == old(desk.requests)
      ensures ok ==>
                desk.requests ==
                  old(desk.requests)[id := old(desk.requests)[id].(status := D.Rejected, error := reason)]
      ensures desk.copies == old(desk.copies) && desk.lost == old(desk.lost)
    {
      ok := id in desk.requests && desk.requests[id].status.Pending?;
      ReachesSelf(desk);
      if ok {
        ghost var before := desk;
        desk := D.Apply(desk, D.DoLock(id));
        ok := End(id, D.Rejected, reason, Settlement in world.down);
        ReachesStep(before, D.DoLock(id), desk);
      }
    }

    method JudgeBatch(rule: Rule, batch: seq<Id>) returns (ok: bool)
      ensures ok <==> forall c :: c in batch ==> Acceptable(world, rule, c)
    {
      for i := 0 to |batch|
        invariant forall k :: 0 <= k < i ==> Acceptable(world, rule, batch[k])
      {
        assert batch[i] in batch;
        if ComponentLookup in world.down || batch[i] !in world.components {
          return false;
        }
        var comp := world.components[batch[i]];
        var err := RuleAppliesTo(world, rule, comp);
        if err.Some? { return false; }
        err := ScanGate(world, rule, batch[i]);
        assert err.Some? || world.plan(comp, rule.toRepo, false).Err? ==> !Acceptable(world, rule, batch[i]);
        if err.Some? || world.plan(comp, rule.toRepo, false).Err? {
          return false;
        }
      }
      return true;
    }

    /**
     The whole batch is judged before the first request exists: a batch with one component that
     does not pass leaves the desk as it was. Otherwise each component gets one request, in the
     batch's order, pending when approval is required and settled at once when not, up to the first
     whose request cannot be filed (`refused` holds such places, `dying` those whose settlement
     cannot be written). The call then fails, and leaves behind what came before: it is
     all-or-nothing exactly when the first place is the one refused, or none is.
     */
    method Promote(ruleId: Id, batch: seq<Id>, refused: set<nat>, dying: set<nat>) returns (results: Option<seq<nat>>)
      requires D.Inv(desk)
      modifies this`desk
      ensures D.Inv(desk) && Reaches(old(desk), desk)
      ensures var filed := FiledOf(|batch|, refused);
              && (results.Some? <==> Passes(world, ruleId, batch) && filed == |batch|)
              && (!Passes(world, ruleId, batch) ==> desk == old(desk))
              && (Passes(world, ruleId, batch) ==> desk.nextId == old(desk.nextId) + filed)
              && (Passes(world, ruleId, batch) ==> forall i :: 0 <= i < filed ==>
                    Outcome(desk, old(desk.nextId) + i, Q.Pair(ruleId, batch[i]), FindRule(world.rules, ruleId).value,
                            world, i in dying))
      ensures Passes(world, ruleId, batch) ==>
                ((results.None? ==> desk == old(desk)) <==> FiledOf(|batch|, refused) in {0, |batch|})
      ensures results.Some? ==> |results.value| == |batch|
                                && forall i :: 0 <= i < |batch| ==> results.value[i] == old(desk.nextId) + i
    {
      ReachesSelf(desk);
      var found := if RuleLookup in world.down then None else FindRule(world.rules, ruleId);
      if found.None? {
        return None;
      }
      var rule := found.value;
      var ok := JudgeBatch(rule, batch);
      if !ok {
        return None;
      }
      var filed := [];
      hide Outcome, Passes, Acceptable, Reaches, D.Inv;
      for i := 0 to |batch|
        invariant D.Inv(desk) && Reaches(old(desk), desk)
        invariant |filed| == i && desk.nextId == old(desk.nextId) + i && (i == 0 ==> desk == old(desk))
        invariant forall k :: 0 <= k < i ==> k !in refused
        invariant forall k :: 0 <= k < i ==> filed[k] == old(desk.nextId) + k
                                             && Outcome(desk, filed[k], Q.Pair(ruleId, batch[k]), rule,
                                                             world, k in dying)
      {
        if i in refused {
          return None;
        }
        ghost var before := desk;
        InvIds(desk);
        var id := PromoteOne(rule, Q.Pair(ruleId, batch[i]), i in dying);
        ReachesTransitive(old(desk), before, desk);
        ReachesInv(before, desk);
        filed := filed + [id];
        forall k | 0 <= k < i
          ensures Outcome(desk, filed[k], Q.Pair(ruleId, batch[k]), rule, world, k in dying)
        {
          OutcomeStays(before, desk, filed[k], Q.Pair(ruleId, batch[k]), rule, world, k in dying);
        }
      }
      return Some(filed);
    }

    method PromoteOne(rule: Rule, pair: Q.Pair, dies: bool) returns (id: nat)
      requires IdsBelowNext(desk)
      modifies this`desk
      ensures Reaches(old(desk), desk)
      ensures id == old(desk.nextId) && desk.nextId == id + 1
      ensures Outcome(desk, id, pair, rule, world, dies)
      ensures forall k :: k in old(desk.requests) ==> k in desk.requests && desk.requests[k] == old(desk.requests)[k]
    {
      ghost var d0 := desk;
      id := desk.nextId;
      desk := D.Apply(desk, D.DoCreate(pair));
      ReachesSelf(desk);
      if !rule.requireManualApproval {
        var _, _ := SettleFresh(world, id, Some(rule), dies);
      }
      ReachesStep(d0, D.DoCreate(pair), desk);
    }

    /**
     Copies and settles a pending request nobody else has locked, by the rule as it is found then;
     `dies` is whether the settlement cannot be written.
     */
    method SettleFresh(w: World, id: nat, rule: Option<Rule>, dies: bool)
      returns (failure: Option<string>, written: bool)
      requires id in desk.requests && desk.requests[id].status.Pending? && id !in desk.locks
      modifies this`desk
      ensures Reaches(old(desk), desk) && written == !dies
      ensures var r := old(desk.requests)[id];
              var settled := if failure.None? then r.(status := D.Completed, error := "")
                             else r.(status := D.Failed, error := failure.value);
              && (failure.None? <==> rule.Some? && CopySucceeds(w, rule.value, r.pair.componentId, r.automatic))
              && desk.requests == (if dies then old(desk.requests) else old(desk.requests)[id := settled])
              && desk.copies == old(desk.copies) + (if rule.Some? then multiset{id} else multiset{})
              && desk.lost == old(desk.lost) + (if rule.Some? && dies then multiset{id} else multiset{})
              && desk.nextId == old(desk.nextId) && desk.locks == old(desk.locks)
              && (dies ==> desk.autoIndex == old(desk.autoIndex))
    {
      hide Reaches, CopySucceeds;
      ghost var d1 := desk;
      desk := D.Apply(desk, D.DoLock(id));
      if rule.None? {
        failure := Some("promotion rule not found");
        written := End(id, D.Failed, "promotion rule not found", dies);
      } else {
        failure, written := CopyLocked(w, id, rule.value, dies);
      }
      ReachesStep(d1, D.DoLock(id), desk);
      assert d1.locks[id := false] - {id} == d1.locks;
    }

    /** The copy and its settlement, under the row lock. */
    method CopyLocked(w: World, id: nat, rule: Rule, dies: bool) returns (failure: Option<string>, written: bool)
      requires id in desk.locks && !desk.locks[id] && id in desk.requests && desk.requests[id].status.Pending?
      modifies this`desk
      ensures Reaches(old(desk), desk) && written == !dies
      ensures var r := old(desk.requests)[id];
              var settled := if failure.None? then r.(status := D.Completed, error := "")
                             else r.(status := D.Failed, error := failure.value);
              && (failure.None? <==> CopySucceeds(w, rule, r.pair.componentId, r.automatic))
              && desk.requests == (if dies then old(desk.requests) else old(desk.requests)[id := settled])
              && desk.copies == old(desk.copies) + multiset{id}
              && desk.lost == old(desk.lost) + (if dies then multiset{id} else multiset{})
              && desk.nextId == old(desk.nextId) && desk.locks == old(desk.locks) - {id}
              && (dies ==> desk.autoIndex == old(desk.autoIndex))
    {
      hide Reaches, CopySucceeds;
      ghost var locked := desk;
      failure := ExecuteCopy(w, id, rule);
      written := End(id, if failure.Some? then D.Failed else D.Completed,
                         if failure.Some? then failure.value else "", dies);
      ReachesStep(locked, D.DoCopy(id), desk);
      assert locked.locks[id := true] - {id} == locked.locks - {id};
    }

    // -------------------------------------------------------------- the automatic worker

    method FinishRow(e: Q.Entry)
      modifies this`queue
      ensures queue == Finished(old(queue), e, world.down)
    {
      if QueueWrite !in world.down {
        queue := Q.Finish(queue, e);
      }
    }

    /**
     Ends a publish that was refused. Its failing calls are only logged, so that the row goes away
     whether or not the refusal is on record: it is exactly when the one call that has to record it works.
     */
    method Block(e: Q.Entry, reason: string) returns (verdict: Verdict)
      requires D.Inv(desk) && D.Unlocked(desk, e.pair)
      modifies this`queue, this`desk
      ensures verdict == Blocked(reason)
      ensures desk == Refused(old(desk), e, reason, world.down)
      ensures queue == Finished(old(queue), e, world.down)
      ensures RefusalRecorded(old(desk), desk, e) <==> Recorder(old(desk), e) !in world.down
      ensures Accounted(world, old(desk), old(queue), desk, queue, e, options, verdict)
    {
      RefusalRecordedExactly(desk, e, reason, world.down);
      RefusedReaches(desk, e, reason, world.down);
      hide Reaches, RefusalRecorded, D.Inv, D.Unlocked;
      var superseded := false;
      if PendingFail !in world.down {
        superseded := e.pair in desk.autoIndex;
        desk := D.FailPendingAuto(desk, e.pair, reason);
      }
      if !superseded && RefusalInsert !in world.down {
        desk := D.CreateAuto(desk, e.pair, D.Failed, e.lastPublishedAt, reason).0;
      }
      FinishRow(e);
      return Blocked(reason);
    }

    method Retry(e: Q.Entry, how: Q.Reschedule) returns (verdict: Verdict)
      modifies this`queue
      ensures verdict == Rescheduled(how)
      ensures queue == Retried(old(queue), e, how, world.down)
    {
      if QueueWrite !in world.down {
        queue := Q.RetryRow(queue, e, how);
      }
      return Rescheduled(how);
    }

    /** Backs off a failure that may clear up by itself, and gives up after the last attempt. */
    method RetryTransient(e: Q.Entry, started: bool, reason: string) returns (verdict: Verdict)
      requires D.Inv(desk) && D.Unlocked(desk, e.pair) && Transient(world.down)
      modifies this`queue, this`desk
      ensures Accounted(world, old(desk), old(queue), desk, queue, e, options, verdict)
      ensures verdict.Rescheduled? <==> e.attempts + 1 < options.maxAttempts
      ensures verdict.Rescheduled? ==> desk == old(desk) && verdict.how.countAttempt && !verdict.how.waitingForScan
                                       && AUTO_RETRY_BASE <= verdict.how.dueIn <= AUTO_RETRY_MAX
      ensures !verdict.Rescheduled? ==> verdict.Blocked?
    {
      hide RefusalRecorded, Reaches, D.Inv, D.Unlocked, Refused, Recorder;
      if e.attempts + 1 >= options.maxAttempts {
        verdict := Block(e, reason);
      } else {
        ReachesSelf(desk);
        var due := AutoBackoff(e.attempts);
        DoubledGrows(0, e.attempts);
        verdict := Retry(e, Q.Reschedule(due, false, started, true, reason));
      }
    }

    /**
     Whether a row must keep waiting for a scan of its latest publish; if so it has been
     rescheduled, or blocked because no such scan can or will pass.
     */
    method AwaitScan(e: Q.Entry, comp: Component, now: int) returns (waiting: Option<Verdict>)
      requires D.Inv(desk) && D.Unlocked(desk, e.pair)
      modifies this`queue, this`desk
      ensures waiting.None? <==> ScanOf(world, comp.id, e.lastPublishedAt) && !world.scans[comp.id].failed
      ensures waiting.None? ==> queue == old(queue) && desk == old(desk)
      ensures waiting.Some? ==> Accounted(world, old(desk), old(queue), desk, queue, e, options, waiting.value)
                                && (waiting.value.Rescheduled? || waiting.value.Blocked?)
      ensures waiting.Some? && waiting.value.Rescheduled? <==>
                !ScanOf(world, comp.id, e.lastPublishedAt) && world.scannable(comp.format)
                && now - e.lastPublishedAt < options.scanWait
      ensures waiting.Some? && waiting.value.Rescheduled? ==>
                desk == old(desk) && waiting.value.how.waitingForScan && !waiting.value.how.countAttempt
    {
      hide RefusalRecorded, Reaches, D.Inv, D.Unlocked, Refused, Recorder;
      ReachesSelf(desk);
      var verdict;
      if comp.id in world.scans && !(world.scans[comp.id].scannedAt < e.lastPublishedAt) {
        if world.scans[comp.id].failed {
          verdict := Block(e, "the scan of this publish failed");
          return Some(verdict);
        }
        return None;
      }
      if !world.scannable(comp.format) {
        verdict := Block(e, "the rule requires a scan, which can never pass here");
        return Some(verdict);
      }
      var elapsed := now - e.lastPublishedAt;
      if elapsed >= options.scanWait {
        verdict := Block(e, "no scan of this publish arrived in time");
        return Some(verdict);
      }
      verdict := Retry(e, Q.Reschedule(ScanRecheck(elapsed), true, true, false, "waiting for a scan"));
      return Some(verdict);
    }

    /**
     One evaluation of one claimed row. It files or copies exactly when every gate holds for the
     latest publish, and drops the row exactly when there is nothing to do; it makes exactly one
     queue call, Retry or Finish; and a refusal leaves nothing of the pair approvable exactly when
     the call that records it works.

     Others do not wait: `others` is what they do to the queue until that call, publishes of this
     very pair among it, and `later` is the world the copy finds, which judges the rule anew but
     not whether the scan is of the latest publish.
     */
    method ProcessAutoEntry(e: Q.Entry, now: int, later: World, others: seq<Q.Step>) returns (verdict: Verdict)
      requires Wellkeyed(world) && D.Inv(desk) && D.Unlocked(desk, e.pair) && Q.ValidRun(queue, others)
      modifies this`queue, this`desk
      ensures Accounted(world, old(desk), Q.Exec(old(queue), others), desk, queue, e, options, verdict)
      // a promotion happens exactly when it may
      ensures verdict.Filed? || verdict.Copied? || verdict.Unsettled? <==>
                Promotable(world, e, now, options) && !FilingFails(old(desk), e, world.down)
      ensures verdict.Filed? || verdict.Copied? || verdict.Unsettled? ==>
                Promoted(later, old(desk), desk, e, FindRule(world.rules, e.pair.ruleId).value, verdict)
      // the other ways out
      ensures verdict.Dropped? <==> Pointless(world, e, now, options)
      ensures verdict.Rescheduled? && verdict.how.waitingForScan <==> AwaitsScan(world, e, now, options)
      ensures verdict.Rescheduled? && !verdict.how.countAttempt && !verdict.how.waitingForScan ==>
                !Settled(e, now, options) && now + verdict.how.dueIn == e.lastPublishedAt + options.settleWindow
    {
      hide Accounted, Promoted, D.Inv, D.Unlocked, Promotable, Pointless, AwaitsScan, Settled, FilingFails;
      queue := Q.Exec(queue, others);
      verdict := Evaluate(e, now, later);
    }

    method Evaluate(e: Q.Entry, now: int, later: World) returns (verdict: Verdict)
      requires Wellkeyed(world) && D.Inv(desk) && D.Unlocked(desk, e.pair)
      modifies this`queue, this`desk
      ensures Accounted(world, old(desk), old(queue), desk, queue, e, options, verdict)
      // a promotion happens exactly when it may
      ensures verdict.Filed? || verdict.Copied? || verdict.Unsettled? <==>
                Promotable(world, e, now, options) && !FilingFails(old(desk), e, world.down)
      ensures verdict.Filed? || verdict.Copied? || verdict.Unsettled? ==>
                Promoted(later, old(desk), desk, e, FindRule(world.rules, e.pair.ruleId).value, verdict)
      // the other ways out
      ensures verdict.Dropped? <==> Pointless(world, e, now, options)
      ensures verdict.Rescheduled? && verdict.how.waitingForScan <==> AwaitsScan(world, e, now, options)
      ensures verdict.Rescheduled? && !verdict.how.countAttempt && !verdict.how.waitingForScan ==>
                !Settled(e, now, options) && now + verdict.how.dueIn == e.lastPublishedAt + options.settleWindow
    {
      hide Accounted, Promoted, D.Inv, D.Unlocked, Reaches, Covers, ScanPasses, Settled, ScanOf, EvalPathFilter;
      if RuleLookup in world.down {
        verdict := RetryTransient(e, e.started, "load rule");
        return;
      }
      var found := FindRule(world.rules, e.pair.ruleId);
      if found.None? || !found.value.autoPromote {
        verdict := Drop(e);
        return;
      }
      var rule := found.value;
      if ComponentLookup in world.down {
        verdict := RetryTransient(e, e.started, "load component");
        return;
      }
      if e.pair.componentId !in world.components || world.components[e.pair.componentId].repository != rule.fromRepo {
        verdict := Drop(e);
        return;
      }
      var comp := world.components[e.pair.componentId];
      var early := Screen(e, rule, comp, now);
      if early.Some? {
        return early.value;
      }
      verdict := FileAndCopy(e, rule, comp, later);
    }

    method Drop(e: Q.Entry) returns (verdict: Verdict)
      modifies this`queue
      ensures verdict == Dropped && Accounted(world, desk, old(queue), desk, queue, e, options, verdict)
    {
      ReachesSelf(desk);
      FinishRow(e);
      return Dropped;
    }

    /** The gates of the rule, for the row's latest publish: None when all of them hold. */
    method Screen(e: Q.Entry, rule: Rule, comp: Component, now: int) returns (early: Option<Verdict>)
      requires D.Inv(desk) && D.Unlocked(desk, e.pair) && comp.repository == rule.fromRepo
      modifies this`queue, this`desk
      ensures early.None? <==>
                Covers(world, rule, comp) && Settled(e, now, options)
                && (rule.requireScanPass ==> ScanOf(world, comp.id, e.lastPublishedAt) && !world.scans[comp.id].failed
                                             && ScanPasses(world, rule, comp.id))
      ensures early.None? ==> queue == old(queue) && desk == old(desk) && ScanPasses(world, rule, comp.id)
      ensures early.Some? ==> Accounted(world, old(desk), old(queue), desk, queue, e, options, early.value)
                              && (early.value.Dropped? || early.value.Rescheduled? || early.value.Blocked?)
      ensures early.Some? && early.value.Dropped? <==> EvalPathFilter(world, rule, comp) == Ok(false)
      ensures early.Some? && early.value.Rescheduled? ==> !early.value.how.countAttempt
      ensures early.Some? && early.value.Rescheduled? && early.value.how.waitingForScan <==>
                Covers(world, rule, comp) && Settled(e, now, options) && rule.requireScanPass
                && !ScanOf(world, comp.id, e.lastPublishedAt) && world.scannable(comp.format)
                && now - e.lastPublishedAt < options.scanWait
      ensures early.Some? && early.value.Rescheduled? && !early.value.how.waitingForScan ==>
                !Settled(e, now, options) && now + early.value.how.dueIn == e.lastPublishedAt + options.settleWindow
    {
      hide RefusalRecorded, Reaches, D.Inv, D.Unlocked, Refused, Recorder, SoleRule, ScanOf, D.CreateAuto;
      ReachesSelf(desk);
      var verdict;
      match EvalPathFilter(world, rule, comp) {
        case Err(why) =>
          verdict := Block(e, why);
          return Some(verdict);
        case Ok(matched) =>
          if !matched {
            FinishRow(e);
            return Some(Dropped);
          }
      }
      var ambiguous := NoSiblingRuleApplies(world, rule, comp);
      if ambiguous.Some? {
        verdict := Block(e, ambiguous.value);
        return Some(verdict);
      }
      var settled := e.lastPublishedAt + options.settleWindow;
      if now < settled {
        verdict := Retry(e, Q.Reschedule(settled - now, false, true, false, "settling"));
        return Some(verdict);
      }
      if rule.requireScanPass {
        early := AwaitScan(e, comp, now);
        if early.Some? {
          return;
        }
        var dirty := ScanGate(world, rule, comp.id);
        if dirty.Some? {
          verdict := Block(e, dirty.value);
          return Some(verdict);
        }
      }
      return None;
    }

    /** The tail of an evaluation: the target, the plan, the request and, where no approval is required, the copy. */
    method FileAndCopy(e: Q.Entry, rule: Rule, comp: Component, later: World) returns (verdict: Verdict)
      requires D.Inv(desk) && D.Unlocked(desk, e.pair)
      requires ComponentLookup !in world.down && e.pair.componentId in world.components
      requires world.components[e.pair.componentId] == comp && comp.id == e.pair.componentId
      requires Covers(world, rule, comp) && ScanPasses(world, rule, comp.id)
      modifies this`queue, this`desk
      ensures Accounted(world, old(desk), old(queue), desk, queue, e, options, verdict)
      ensures var plannable := RepositoryLookup !in world.down && rule.toRepo in world.repositories
                               && world.plan(comp, rule.toRepo, true).Ok?;
              && (verdict.Filed? || verdict.Copied? || verdict.Unsettled? <==>
                    plannable && world.plan(comp, rule.toRepo, true) != Ok(0) && !FilingFails(old(desk), e, world.down))
              && (verdict.Dropped? <==> plannable && world.plan(comp, rule.toRepo, true) == Ok(0))
      ensures verdict.Filed? || verdict.Copied? || verdict.Unsettled? ==>
                Promoted(later, old(desk), desk, e, rule, verdict)
      ensures verdict.Rescheduled? ==> verdict.how.countAttempt && !verdict.how.waitingForScan
    {
      hide Promoted, RefusalRecorded, Reaches, D.Inv, D.Unlocked, Refused, Recorder, Covers, ScanPasses, D.CreateAuto;
      if RepositoryLookup in world.down {
        verdict := RetryTransient(e, true, "load target repository");
        return;
      }
      if rule.toRepo !in world.repositories {
        verdict := Block(e, "target repository not found");
        return;
      }
      match world.plan(comp, rule.toRepo, true) {
        case Err(why) =>
          verdict := Block(e, why);
          return;
        case Ok(missing) =>
          if missing == 0 {
            verdict := Drop(e);
            return;
          }
      }
      if RequestInsert in world.down {
        verdict := RetryTransient(e, true, "file request");
        return;
      }
      ghost var before := desk;
      var again := e.pair in desk.autoIndex;
      FilingKeeps(desk, e);
      var id := D.CreateAuto(desk, e.pair, D.Pending, e.lastPublishedAt, "").1;
      desk := Refiled(desk, e);
      if again && RequestReadback in world.down {
        verdict := RetryTransient(e, true, "file request");
        RefiledAccounts(world, before, old(queue), desk, queue, e, options, verdict);
        return;
      }
      verdict := SettleFiled(e, rule, id, later, before);
    }

    /** The pending request is filed: it stays to be approved, or is copied at once. */
    method SettleFiled(e: Q.Entry, rule: Rule, id: nat, later: World, ghost before: D.Desk) returns (verdict: Verdict)
      requires Reaches(before, desk) && D.PendingAuto(desk, id, e.pair) && id !in desk.locks
              && desk.copies == before.copies
      requires desk.locks == before.locks
      requires desk.requests[id].publishedAt.Some? && desk.requests[id].publishedAt.value >= e.lastPublishedAt
      modifies this`queue, this`desk
      ensures verdict.Filed? || verdict.Copied? || verdict.Unsettled?
      ensures Accounted(world, before, old(queue), desk, queue, e, options, verdict)
      ensures Promoted(later, before, desk, e, rule, verdict)
    {
      hide RefusalRecorded, Reaches, Recorder, CopySucceeds;
      if rule.requireManualApproval {
        FinishRow(e);
        return Filed(id);
      }
      ghost var filed := desk;
      var failure, written := SettleFresh(later, id, RuleNow(later, e.pair.ruleId), Settlement in later.down);
      ReachesTransitive(before, filed, desk);
      FinishRow(e);
      return if written then Copied(id, failure) else Unsettled(id);
    }
  }

  /** The rule as a settlement finds it. */
  function RuleNow(w: World, ruleId: Id): Option<Rule> {
    if RuleLookup in w.down then None else FindRule(w.rules, ruleId)
  }

  /**
   What a promotion by the worker leaves on the desk: a request pending for approval; or one settled
   as its copy goes in the world it finds, where there is still a rule to copy by; or, where that
   settlement could not be written, one pending all the same.
   */
  predicate Promoted(later: World, d: D.Desk, d': D.Desk, e: Q.Entry, rule: Rule, v: Verdict)
    requires v.Filed? || v.Copied? || v.Unsettled?
  {
    var found := RuleNow(later, e.pair.ruleId);
    && v.request in d'.requests && d'.requests[v.request].pair == e.pair
    && (v.Filed? <==> rule.requireManualApproval)
    && (v.Unsettled? <==> !rule.requireManualApproval && Settlement in later.down)
    && d'.copies == d.copies + (if v.Filed? || found.None? then multiset{} else multiset{v.request})
    && (v.Filed? || v.Unsettled? ==> D.PendingAuto(d', v.request, e.pair) && d'.requests[v.request].publishedAt.Some?
                                     && d'.requests[v.request].publishedAt.value >= e.lastPublishedAt)
    && (v.Copied? ==>
          && d'.requests[v.request].status == (if v.failure.None? then D.Completed else D.Failed)
          && (v.failure.None? <==> found.Some? && CopySucceeds(later, found.value, e.pair.componentId, true)))
  }

  /** In a world that has not changed since the gates were judged, the copy fails only if the bytes do. */
  lemma UnchangedWorldCopies(w: World, e: Q.Entry, now: int, o: Options)
    requires Promotable(w, e, now, o) && Wellkeyed(w)
    ensures var rule := FindRule(w.rules, e.pair.ruleId).value;
            RuleNow(w, e.pair.ruleId) == Some(rule)
            && (CopySucceeds(w, rule, e.pair.componentId, true)
                <==> w.copy(w.components[e.pair.componentId], rule.toRepo).None?)
  {
    hide SoleRule;
  }

  /**
   A publish that lands while its pair is being evaluated is not lost, whatever was copied: the row
   outlives the evaluation's Finish, and is evaluated again.
   */
  lemma PublishMeanwhileIsEvaluatedAgain(steps: seq<Q.Step>, e: Q.Entry, i: int, j: int)
    requires Q.ValidRun(Q.EMPTY_QUEUE, steps)
    requires var q := Q.Exec(Q.EMPTY_QUEUE, steps);
             Q.ClaimOf(q.log, j, e.pair) && q.log[j].entry == e && Q.PublishOf(q.log, i, e.pair) && j < i
             && Q.Queued(q, e.pair)
    ensures Q.Queued(Q.Finish(Q.Exec(Q.EMPTY_QUEUE, steps), e), e.pair)
  {
    var q := Q.Exec(Q.EMPTY_QUEUE, steps);
    assert Q.Enabled(q, Q.DoFinish(e));
    if !Q.Queued(Q.Finish(q, e), e.pair) {
      Q.OnlyTheHolderRemoves(steps, Q.DoFinish(e), e.pair);
      Q.ClaimsAreDistinct(steps, j, e.pair);
    }
  }

  predicate IdsBelowNext(d: D.Desk) {
    (forall k :: k in d.requests ==> k < d.nextId) && (forall k :: k in d.locks ==> k < d.nextId)
  }

  lemma InvIds(d: D.Desk)
    requires D.Inv(d)
    ensures IdsBelowNext(d)
  {
  }

  lemma ReachesInv(d: D.Desk, d': D.Desk)
    requires D.Inv(d) && Reaches(d, d')
    ensures D.Inv(d')
  {
    var steps :| D.ValidRun(d, steps) && D.Exec(d, steps) == d';
    D.InvRun(d, steps);
  }

  lemma OutcomeStays(d: D.Desk, d': D.Desk, id: nat, pair: Q.Pair, rule: Rule, w: World, dies: bool)
    requires Outcome(d, id, pair, rule, w, dies)
    requires forall k :: k in d.requests ==> k in d'.requests && d'.requests[k] == d.requests[k]
    ensures Outcome(d', id, pair, rule, w, dies)
  {
  }

  /** Filing for the worker: the pair's one pending request is there, unlocked, and knows the publish. */
  lemma FilingKeeps(d: D.Desk, e: Q.Entry)
    requires D.Inv(d) && D.Unlocked(d, e.pair)
    ensures var d' := Refiled(d, e);
            var id := D.CreateAuto(d, e.pair, D.Pending, e.lastPublishedAt, "").1;
            && Reaches(d, d') && D.Inv(d') && D.Unlocked(d', e.pair)
            && D.PendingAuto(d', id, e.pair) && id !in d'.locks && d'.locks == d.locks && d'.copies == d.copies
            && d'.requests[id].publishedAt.Some? && d'.requests[id].publishedAt.value >= e.lastPublishedAt
  {
    var filing := D.DoCreateAuto(e.pair, D.Pending, e.lastPublishedAt, "");
    D.InvStep(d, filing);
    ReachesSelf(D.Apply(d, filing));
    ReachesStep(d, filing, D.Apply(d, filing));
    hide D.Counted;
  }

  /** A retry after the request was filed again accounts for the evaluation as a whole. */
  lemma RefiledAccounts(w: World, d: D.Desk, q: Q.Queue, d': D.Desk, q': Q.Queue, e: Q.Entry, o: Options, v: Verdict)
    requires D.Inv(d) && D.Unlocked(d, e.pair) && e.pair in d.autoIndex && RequestReadback in w.down
    requires Reaches(d, Refiled(d, e)) && Accounted(w, Refiled(d, e), q, d', q', e, o, v)
    requires v.Blocked? || (v.Rescheduled? && d' == Refiled(d, e))
    ensures Accounted(w, d, q, d', q', e, o, v)
  {
    ReachesTransitive(d, Refiled(d, e), d');
    hide Reaches, D.Counted;
    assert D.PendingAuto(d, d.autoIndex[e.pair], e.pair);
  }

  // ---------------------------------------------------------------- where failing calls show

  const SAMPLE_RULE := Rule("r", "staging", "production", "", true, true, true, [])

  /** One component in staging, its clean scan started at 10, and a copy that goes through. */
  function SampleWorld(rule: Rule, down: set<Call>): World {
    World([rule], map["a" := Component("a", "staging", "raw", "/a"), "b" := Component("b", "staging", "raw", "/b")],
          map["a" := Scan(10, false, map[])], {"staging", "production"}, down, true, _ => true, (_, _) => Ok(true),
          (_, _, _) => Ok(1), (_, _) => None)
  }

  /** A batch of two whose second request cannot be filed: the call fails, and the first component has been promoted. */
  method HalfABatchStaysPromoted() returns (results: Option<seq<nat>>, first: D.Status)
    ensures results.None? && first == D.Completed
  {
    var rule := SAMPLE_RULE.(requireScanPass := false, requireManualApproval := false);
    var w := SampleWorld(rule, {});
    var s := new PromotionService(w, Options(0, 100, 3, false));
    assert FindRule(w.rules, "r") == Some(rule);
    assert Covers(w, rule, w.components["a"]) && Covers(w, rule, w.components["b"]);
    results := s.Promote("r", ["a", "b"], {1}, {});
    assert Passes(w, "r", ["a", "b"]) && FiledOf(2, {1}) == 1;
    assert Outcome(s.desk, 0, Q.Pair("r", "a"), rule, w, false);
    assert CopySucceeds(w, rule, "a", false);
    first := s.desk.requests[0].status;
  }

  const SAMPLE_PAIR := Q.Pair("r", "a")
  const SAMPLE_ENTRY := Q.EntryOf(Q.EnqueuePublish(Q.EMPTY_QUEUE, {SAMPLE_PAIR}, 20, 0), SAMPLE_PAIR)
  const SAMPLE_QUEUE := Q.ClaimRow(Q.EnqueuePublish(Q.EMPTY_QUEUE, {SAMPLE_PAIR}, 20, 0), SAMPLE_PAIR, 60)
  const SAMPLE_DESK := D.CreateAuto(D.EMPTY_DESK, SAMPLE_PAIR, D.Pending, 5, "").0

  lemma SampleIsRefused(o: Options)
    requires o == Options(0, 100, 3, false)
    ensures var w := SampleWorld(SAMPLE_RULE, {PendingFail});
            !Pointless(w, SAMPLE_ENTRY, 120, o) && !Promotable(w, SAMPLE_ENTRY, 120, o)
                 && !AwaitsScan(w, SAMPLE_ENTRY, 120, o)
            && Settled(SAMPLE_ENTRY, 120, o) && !Transient(w.down) && Wellkeyed(w)
    ensures !ScanOf(SampleWorld(SAMPLE_RULE, {}), "a", 20)
  {
    var w := SampleWorld(SAMPLE_RULE, {PendingFail});
    assert FindRule(w.rules, "r") == Some(SAMPLE_RULE);
  }

  lemma SampleIsApprovable(q: Q.Queue, r: D.Request)
    requires r.pair == SAMPLE_PAIR && r.automatic && r.publishedAt == Some(5) && SAMPLE_PAIR !in q.rows
    ensures var w := SampleWorld(SAMPLE_RULE, {});
            FindRule(w.rules, "r") == Some(SAMPLE_RULE) && ApprovalOpen(w, q, r, SAMPLE_RULE)
            && CopySucceeds(w, SAMPLE_RULE, "a", true)
  {
    var w := SampleWorld(SAMPLE_RULE, {});
    assert FindRule(w.rules, "r") == Some(SAMPLE_RULE);
    assert SoleRule(w, SAMPLE_RULE, w.components["a"]);
  }

  lemma SampleStart()
    ensures D.Inv(SAMPLE_DESK) && SAMPLE_DESK.locks == map[] && SAMPLE_DESK.copies == multiset{}
    ensures SAMPLE_DESK.autoIndex == map[SAMPLE_PAIR := 0]
    ensures SAMPLE_DESK.requests == map[0 := D.Request(SAMPLE_PAIR, D.Pending, true, Some(5), "")]
    ensures SAMPLE_ENTRY.pair == SAMPLE_PAIR && SAMPLE_PAIR !in Q.Finish(SAMPLE_QUEUE, SAMPLE_ENTRY).rows
  {
    D.InvStep(D.EMPTY_DESK, D.DoCreateAuto(SAMPLE_PAIR, D.Pending, 5, ""));
  }

  /**
   Content published at 20 is never scanned, and refused for it; the request pending from the
   publish at 5 cannot be failed just then. It is approved afterwards, and what it copies is the
   content that was refused: its gate only asks for a scan after 5.
   */
  method RefusedContentIsPromoted() returns (verdict: Verdict, err: Option<string>, copies: multiset<nat>)
    ensures verdict.Blocked? && err.None? && copies == multiset{0}
    ensures !ScanOf(SampleWorld(SAMPLE_RULE, {}), "a", SAMPLE_ENTRY.lastPublishedAt)
  {
    var s := new PromotionService(SampleWorld(SAMPLE_RULE, {PendingFail}), Options(0, 100, 3, false));
    s.queue, s.desk := SAMPLE_QUEUE, SAMPLE_DESK;
    SampleStart();
    SampleIsRefused(s.options);
    hide Pointless, Promotable, AwaitsScan, Settled, Wellkeyed, D.Inv, ScanOf, Reaches, RefusalRecorded;
    verdict := s.ProcessAutoEntry(SAMPLE_ENTRY, 120, s.world, []);
    s.world := SampleWorld(SAMPLE_RULE, {});
    SampleIsApprovable(s.queue, s.desk.requests[0]);
    hide ApprovalOpen, CopySucceeds, FindRule;
    err := s.Approve(0);
    copies := s.desk.copies;
  }

  const LATE_RULE := SAMPLE_RULE.(requireManualApproval := false)
  const LATE_WORLD := SampleWorld(LATE_RULE, {}).(scans := map["a" := Scan(30, false, map[])])
  const LATE_PUBLISH := [Q.DoPublish({SAMPLE_PAIR}, 40, 0)]

  lemma LateIsPromotable(o: Options)
    requires o == Options(0, 100, 3, false)
    ensures Promotable(LATE_WORLD, SAMPLE_ENTRY, 120, o) && Wellkeyed(LATE_WORLD)
    ensures RuleNow(LATE_WORLD, "r") == Some(LATE_RULE) && FindRule(LATE_WORLD.rules, "r") == Some(LATE_RULE)
    ensures CopySucceeds(LATE_WORLD, LATE_RULE, "a", true) && !ScanOf(LATE_WORLD, "a", 40)
  {
    assert FindRule(LATE_WORLD.rules, "r") == Some(LATE_RULE);
    assert SoleRule(LATE_WORLD, LATE_RULE, LATE_WORLD.components["a"]);
  }

  lemma LateStart()
    ensures D.Inv(D.EMPTY_DESK) && SAMPLE_ENTRY.pair == SAMPLE_PAIR && Q.ValidRun(SAMPLE_QUEUE, LATE_PUBLISH)
    ensures SAMPLE_PAIR in Q.Finish(Q.Exec(SAMPLE_QUEUE, LATE_PUBLISH), SAMPLE_ENTRY).rows
  {
    var q := Q.EnqueuePublish(SAMPLE_QUEUE, {SAMPLE_PAIR}, 40, 0);
    assert LATE_PUBLISH[1..] == [] && Q.Exec(q, []) == q;
    assert Q.Exec(SAMPLE_QUEUE, LATE_PUBLISH) == q;
    assert q.rows[SAMPLE_PAIR].generation == 2 && SAMPLE_ENTRY.generation == 1;
  }

  /**
   A publish at 40 lands between the gates and the copy, which then copies it: the scan that let the
   publish at 20 pass started at 30. The pair stays queued, so the new content is judged, but after the fact.
   */
  method UnscannedPublishIsCopied() returns (verdict: Verdict, queued: bool)
    ensures verdict.Copied? && verdict.failure.None? && queued
    ensures LATE_RULE.requireScanPass && !ScanOf(LATE_WORLD, "a", 40)
  {
    var s := new PromotionService(LATE_WORLD, Options(0, 100, 3, false));
    s.queue := SAMPLE_QUEUE;
    LateStart();
    LateIsPromotable(s.options);
    hide Pointless, Promotable, AwaitsScan, Settled, Wellkeyed, D.Inv, ScanOf, Reaches, RefusalRecorded, CopySucceeds,
      RuleNow, FindRule;
    verdict := s.ProcessAutoEntry(SAMPLE_ENTRY, 120, LATE_WORLD, LATE_PUBLISH);
    queued := Q.Queued(s.queue, SAMPLE_PAIR);
  }
}
