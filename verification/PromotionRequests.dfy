/**
 Promotion requests and the row lock that settles them.

 A settlement is a transaction: it locks the pending row (LockRow), may run the copy once
 (RunCopy), and then either commits an outcome (Commit) or dies and leaves the row as it was
 (Abort). Every other actor's steps interleave with those four. Deleting a rule or a component
 deletes its requests by cascade, and waits for the row lock like anyone else. `copies` records each
 run of the copy, `lost` each copy whose transaction aborted.
 */
module PromotionRequests {
  import opened Prelude
  import opened AutoQueue

  datatype Status = Pending | Approved | Rejected | Completed | Failed

  datatype Request = Request(pair: Pair, status: Status, automatic: bool, publishedAt: Option<int>, error: string)

  /**
   `autoIndex` is the partial unique index on pending automatic requests; `locks` maps each locked
   request to whether its transaction has run the copy.
   */
  datatype Desk = Desk(
    requests: map<nat, Request>,
    nextId: nat,
    autoIndex: map<Pair, nat>,
    locks: map<nat, bool>,
    copies: multiset<nat>,
    lost: multiset<nat>)

  const EMPTY_DESK := Desk(map[], 0, map[], map[], multiset{}, multiset{})

  predicate PendingAuto(d: Desk, id: nat, p: Pair) {
    id in d.requests && d.requests[id].pair == p && d.requests[id].automatic && d.requests[id].status.Pending?
  }

  /** The index and the pending automatic requests name each other. */
  ghost predicate IndexExact(d: Desk) {
    && (forall p :: p in d.autoIndex ==> PendingAuto(d, d.autoIndex[p], p))
    && (forall id, p {:trigger PendingAuto(d, id, p)} :: PendingAuto(d, id, p) ==>
            p in d.autoIndex && d.autoIndex[p] == id)
  }

  predicate Unlocked(d: Desk, p: Pair) {
    p in d.autoIndex ==> d.autoIndex[p] !in d.locks
  }

  function Insert(d: Desk, r: Request): Desk {
    d.(requests := d.requests[d.nextId := r], nextId := d.nextId + 1,
       autoIndex := if r.automatic && r.status.Pending? then d.autoIndex[r.pair := d.nextId] else d.autoIndex)
  }

  function Latest(a: Option<int>, b: int): int {
    if a.Some? then Max(a.value, b) else b
  }

  /** Files an automatic request; a second pending one only moves the first's publish time forward. */
  function CreateAuto(d: Desk, p: Pair, status: Status, publishedAt: int, error: string): (r: (Desk, nat, bool)) {
    if status.Pending? && p in d.autoIndex && d.autoIndex[p] in d.requests then
      var id := d.autoIndex[p];
      var r := d.requests[id];
      (d.(requests := d.requests[id := r.(publishedAt := Some(Latest(r.publishedAt, publishedAt)))]), id, false)
    else
      (Insert(d, Request(p, status, true, Some(publishedAt), error)), d.nextId, true)
  }

  /** Writes a settled status, and with it takes an automatic request out of the index. */
  function Settle(d: Desk, id: nat, status: Status, error: string): Desk
    requires id in d.requests && !status.Pending?
  {
    var r := d.requests[id];
    d.(requests := d.requests[id := r.(status := status, error := error)],
       autoIndex := if r.automatic then d.autoIndex - {r.pair} else d.autoIndex)
  }

  function FailPendingAuto(d: Desk, p: Pair, reason: string): Desk {
    if p in d.autoIndex && d.autoIndex[p] in d.requests then Settle(d, d.autoIndex[p], Failed, reason) else d
  }

  function DropRequests(d: Desk, gone: Gone): Desk {
    d.(requests := map id | id in d.requests && !Concerns(gone, d.requests[id].pair) :: d.requests[id],
       autoIndex := map p | p in d.autoIndex && !Concerns(gone, p) :: d.autoIndex[p])
  }

  // ---------------------------------------------------------------- runs

  datatype Step =
    | DoCreate(pair: Pair)
    | DoCreateAuto(pair: Pair, status: Status, publishedAt: int, error: string)
    | DoFailPending(pair: Pair, error: string)
    | DoLock(id: nat)
    | DoCopy(id: nat)
    | DoCommit(id: nat, status: Status, error: string)
    | DoAbort(id: nat)
    | DoDrop(gone: Gone)

  /** What a settlement may decide: only a copied request completes; a rejection or a held approval copied nothing. */
  predicate Outcome(copied: bool, status: Status) {
    match status
    case Completed => copied
    case Failed => true
    case Rejected => !copied
    case Pending => !copied
    case Approved => false
  }

  predicate Enabled(d: Desk, s: Step) {
    match s
    case DoCreate(_) => true
    case DoCreateAuto(p, status, _, _) => (status.Pending? || status.Failed?) && (status.Pending? ==> Unlocked(d, p))
    case DoFailPending(p, _) => Unlocked(d, p)
    case DoLock(id) => id in d.requests && d.requests[id].status.Pending? && id !in d.locks
    case DoCopy(id) => id in d.locks && !d.locks[id]
    case DoCommit(id, status, _) => id in d.locks && id in d.requests && Outcome(d.locks[id], status)
    case DoAbort(id) => id in d.locks
    case DoDrop(gone) => forall id :: id in d.locks && id in d.requests ==> !Concerns(gone, d.requests[id].pair)
  }

  function Apply(d: Desk, s: Step): Desk
    requires Enabled(d, s)
  {
    match s
    case DoCreate(p) => Insert(d, Request(p, Pending, false, None, ""))
    case DoCreateAuto(p, status, at, error) => CreateAuto(d, p, status, at, error).0
    case DoFailPending(p, reason) => FailPendingAuto(d, p, reason)
    case DoLock(id) => d.(locks := d.locks[id := false])
    case DoCopy(id) => d.(locks := d.locks[id := true], copies := d.copies + multiset{id})
    case DoCommit(id, status, error) =>
      (if status.Pending? then d else Settle(d, id, status, error)).(locks := d.locks - {id})
    case DoAbort(id) =>
      d.(locks := d.locks - {id}, lost := if d.locks[id] then d.lost + multiset{id} else d.lost)
    case DoDrop(gone) => DropRequests(d, gone)
  }

  predicate ValidRun(d: Desk, steps: seq<Step>)
    decreases |steps|
  {
    steps == [] || (Enabled(d, steps[0]) && ValidRun(Apply(d, steps[0]), steps[1..]))
  }

  function Exec(d: Desk, steps: seq<Step>): Desk
    requires ValidRun(d, steps)
    decreases |steps|
  {
    if steps == [] then d else Exec(Apply(d, steps[0]), steps[1..])
  }

  // ---------------------------------------------------------------- the invariant

  /** The copies of a request its committed outcome, its open transaction and its aborted ones account for. */
  function CopiesDue(d: Desk, id: nat): nat {
    d.lost[id]
    + (if id in d.locks && d.locks[id] then 1 else 0)
    + (if id in d.requests && d.requests[id].status.Completed? then 1 else 0)
  }

  /** What `copies` and `lost` say of one request; of one since deleted, they say that it was copied at most once. */
  ghost predicate Counted(d: Desk, id: nat) {
    if id in d.requests then
      CopiesDue(d, id) <= d.copies[id] <= CopiesDue(d, id) + (if d.requests[id].status.Failed? then 1 else 0)
    else d.lost[id] <= d.copies[id] <= d.lost[id] + (if id < d.nextId then 1
    else 0) && (d.nextId <= id ==> d.lost[id] == 0)
  }

  ghost predicate Inv(d: Desk) {
    && (forall id :: id in d.requests ==> id < d.nextId)
    && (forall id :: id in d.locks ==> id in d.requests && d.requests[id].status.Pending?)
    && IndexExact(d)
    && (forall id: nat :: Counted(d, id))
  }

  lemma InsertKeepsIndex(d: Desk, r: Request)
    requires IndexExact(d) && forall id :: id in d.requests ==> id < d.nextId
    requires r.automatic && r.status.Pending? ==> r.pair !in d.autoIndex
    ensures IndexExact(Insert(d, r))
  {
    var d' := Insert(d, r);
    assert forall id, p :: PendingAuto(d', id, p) ==> PendingAuto(d, id, p) || id == d.nextId;
    assert forall id, p :: PendingAuto(d, id, p) ==> PendingAuto(d', id, p);
  }

  lemma SettleKeepsIndex(d: Desk, id: nat, status: Status, error: string)
    requires IndexExact(d) && id in d.requests && d.requests[id].status.Pending? && !status.Pending?
    ensures IndexExact(Settle(d, id, status, error))
  {
    var d' := Settle(d, id, status, error);
    assert d.requests[id].automatic ==> PendingAuto(d, id, d.requests[id].pair);
    assert forall other, p :: PendingAuto(d', other, p) <==> other != id && PendingAuto(d, other, p);
  }

  lemma IndexStep(d: Desk, s: Step)
    requires Inv(d) && Enabled(d, s)
    ensures IndexExact(Apply(d, s))
  {
    match s {
      case DoCreate(p) => InsertKeepsIndex(d, Request(p, Pending, false, None, ""));
      case DoCreateAuto(p, status, at, error) =>
        if status.Pending? && p in d.autoIndex {
          assert PendingAuto(d, d.autoIndex[p], p);
          assert forall id, r :: PendingAuto(Apply(d, s), id, r) <==> PendingAuto(d, id, r);
        } else {
          InsertKeepsIndex(d, Request(p, status, true, Some(at), error));
        }
      case DoFailPending(p, reason) =>
        if p in d.autoIndex {
          assert PendingAuto(d, d.autoIndex[p], p);
          SettleKeepsIndex(d, d.autoIndex[p], Failed, reason);
        }
      case DoCommit(id, status, error) =>
        if !status.Pending? {
          SettleKeepsIndex(d, id, status, error);
          var settled := Settle(d, id, status, error);
          assert forall other, r :: PendingAuto(Apply(d, s), other, r) <==> PendingAuto(settled, other, r);
        } else {
          assert forall other, r :: PendingAuto(Apply(d, s), other, r) <==> PendingAuto(d, other, r);
        }
      case DoDrop(gone) =>
        assert forall id, r :: PendingAuto(Apply(d, s), id, r) <==> PendingAuto(d, id, r) && !Concerns(gone, r);
      case _ =>
        assert forall id, r :: PendingAuto(Apply(d, s), id, r) <==> PendingAuto(d, id, r);
    }
  }

  lemma CountsStep(d: Desk, s: Step, id: nat)
    requires Inv(d) && Enabled(d, s)
    ensures Counted(Apply(d, s), id)
  {
    assert Counted(d, id);
    hide IndexExact, Outcome;
  }

  lemma InvStep(d: Desk, s: Step)
    requires Inv(d) && Enabled(d, s)
    ensures Inv(Apply(d, s))
  {
    var d' := Apply(d, s);
    forall id: nat ensures Counted(d', id) {
      CountsStep(d, s, id);
    }
    IndexStep(d, s);
    hide IndexExact, Counted;
  }

  lemma {:induction false} InvRun(d: Desk, steps: seq<Step>)
    requires Inv(d) && ValidRun(d, steps)
    ensures Inv(Exec(d, steps))
    decreases |steps|
  {
    if steps != [] {
      InvStep(d, steps[0]);
      InvRun(Apply(d, steps[0]), steps[1..]);
    }
  }

  /** Some step of the run deletes the rule or the component of the pair. */
  predicate DroppedIn(steps: seq<Step>, p: Pair) {
    exists k :: 0 <= k < |steps| && steps[k].DoDrop? && Concerns(steps[k].gone, p)
  }

  lemma SettledStep(d: Desk, s: Step, id: nat)
    requires Inv(d) && Enabled(d, s)
    requires id in d.requests && !d.requests[id].status.Pending?
    ensures if s.DoDrop? && Concerns(s.gone, d.requests[id].pair) then id !in Apply(d, s).requests
            else id in Apply(d, s).requests && Apply(d, s).requests[id] == d.requests[id]
    ensures id < d.nextId
  {
  }

  lemma GoneStep(d: Desk, s: Step, id: nat)
    requires Inv(d) && Enabled(d, s) && id !in d.requests && id < d.nextId
    ensures id !in Apply(d, s).requests && id < Apply(d, s).nextId
  {
    hide Counted;
  }

  lemma {:induction false} GoneStays(d: Desk, steps: seq<Step>, id: nat)
    requires Inv(d) && ValidRun(d, steps) && id !in d.requests && id < d.nextId
    ensures id !in Exec(d, steps).requests
    decreases |steps|
  {
    if steps != [] {
      InvStep(d, steps[0]);
      GoneStep(d, steps[0], id);
      GoneStays(Apply(d, steps[0]), steps[1..], id);
    }
  }

  lemma {:induction false} SettledStays(d: Desk, steps: seq<Step>, id: nat)
    requires Inv(d) && ValidRun(d, steps)
    requires id in d.requests && !d.requests[id].status.Pending?
    ensures if DroppedIn(steps, d.requests[id].pair) then id !in Exec(d, steps).requests
            else id in Exec(d, steps).requests && Exec(d, steps).requests[id] == d.requests[id]
    decreases |steps|
  {
    if steps != [] {
      var p := d.requests[id].pair;
      InvStep(d, steps[0]);
      SettledStep(d, steps[0], id);
      DroppedFirstOrLater(steps, p);
      hide Inv, Enabled, Apply, DroppedIn;
      if steps[0].DoDrop? && Concerns(steps[0].gone, p) {
        DropKeepsNextId(d, steps[0]);
        GoneStays(Apply(d, steps[0]), steps[1..], id);
      } else {
        SettledStays(Apply(d, steps[0]), steps[1..], id);
      }
    }
  }

  lemma DroppedFirstOrLater(steps: seq<Step>, p: Pair)
    requires steps != []
    ensures DroppedIn(steps, p) <==> (steps[0].DoDrop? && Concerns(steps[0].gone, p)) || DroppedIn(steps[1..], p)
  {
    if DroppedIn(steps[1..], p) {
      var k :| 0 <= k < |steps[1..]| && steps[1..][k].DoDrop? && Concerns(steps[1..][k].gone, p);
      assert steps[k + 1].DoDrop? && Concerns(steps[k + 1].gone, p);
    }
  }

  lemma DropKeepsNextId(d: Desk, s: Step)
    requires Enabled(d, s) && s.DoDrop?
    ensures Apply(d, s).nextId == d.nextId
  {
  }

  lemma {:induction false} RunSplits(d: Desk, before: seq<Step>, after: seq<Step>)
    requires ValidRun(d, before + after)
    ensures ValidRun(d, before) && ValidRun(Exec(d, before), after)
    ensures Exec(d, before + after) == Exec(Exec(d, before), after)
    decreases |before|
  {
    if before == [] {
      assert before + after == after;
    } else {
      assert (before + after)[1..] == before[1..] + after;
      RunSplits(Apply(d, before[0]), before[1..], after);
    }
  }

  // ---------------------------------------------------------------- the theorems

  /**
   Over every interleaving of promotions, approvals, rejections, the automatic worker and blocked
   publishes: a request is copied at most once more than its transactions failed to commit, hence
   at most once when every commit succeeds; exactly so often when it completed; and never, bar
   those, when it is pending with no transaction open or was rejected.
   */
  lemma CopiedAtMostOnce(steps: seq<Step>, id: nat)
    requires ValidRun(EMPTY_DESK, steps)
    ensures var d := Exec(EMPTY_DESK, steps);
            && d.lost[id] <= d.copies[id] <= d.lost[id] + 1
            && (id in d.requests && d.requests[id].status.Completed? ==> d.copies[id] == d.lost[id] + 1)
            && (id in d.requests && d.requests[id].status.Rejected? ==> d.copies[id] == d.lost[id])
            && (id in d.requests && d.requests[id].status.Pending? && id !in d.locks ==> d.copies[id] == d.lost[id])
  {
    InvRun(EMPTY_DESK, steps);
    assert Counted(Exec(EMPTY_DESK, steps), id);
  }

  /**
   Whatever happens later, a settled request keeps its status, its error and everything else, and
   is there exactly until its rule or component is deleted.
   */
  lemma TerminalForever(before: seq<Step>, after: seq<Step>, id: nat)
    requires ValidRun(EMPTY_DESK, before + after)
    requires ValidRun(EMPTY_DESK, before)
    requires id in Exec(EMPTY_DESK, before).requests && !Exec(EMPTY_DESK, before).requests[id].status.Pending?
    ensures var r := Exec(EMPTY_DESK, before).requests[id];
            var d := Exec(EMPTY_DESK, before + after);
            (id in d.requests <==> !DroppedIn(after, r.pair)) && (id in d.requests ==> d.requests[id] == r)
  {
    RunSplits(EMPTY_DESK, before, after);
    InvRun(EMPTY_DESK, before);
    SettledStays(Exec(EMPTY_DESK, before), after, id);
  }

  /** At most one automatic request per (rule, component) is pending, and a pair just blocked has none. */
  lemma AutoPendingUnique(steps: seq<Step>, p: Pair, a: nat, b: nat, reason: string)
    requires ValidRun(EMPTY_DESK, steps)
    ensures var d := Exec(EMPTY_DESK, steps);
            && (PendingAuto(d, a, p) && PendingAuto(d, b, p) ==> a == b)
            && !PendingAuto(FailPendingAuto(d, p, reason), a, p)
  {
    InvRun(EMPTY_DESK, steps);
  }

  /**
   Filing an automatic request while one is pending neither adds a request nor takes the pending
   one's publish time back.
   */
  lemma RefilingMovesPublishForward(steps: seq<Step>, p: Pair, at: int, id: nat)
    requires ValidRun(EMPTY_DESK, steps)
    requires PendingAuto(Exec(EMPTY_DESK, steps), id, p)
    ensures var d := Exec(EMPTY_DESK, steps);
            var (d', id', created) := CreateAuto(d, p, Pending, at, "");
            !created && id' == id && d'.requests.Keys == d.requests.Keys
            && d'.requests[id].publishedAt.Some? && d'.requests[id].publishedAt.value >= at
            && (d.requests[id].publishedAt.Some? ==>
                    d'.requests[id].publishedAt.value >= d.requests[id].publishedAt.value)
            && (forall other :: other in d.requests && other != id ==> d'.requests[other] == d.requests[other])
  {
    InvRun(EMPTY_DESK, steps);
  }
}
