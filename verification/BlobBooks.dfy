/** When used_bytes is what a store really holds: exactly which steps keep it so, and which uploads do not. */
module BlobBooks {
  import opened Prelude
  import opened Blobs
  import opened BlobWorld

  /** The bytes a store holds, backups not counted. */
  ghost function Total(objects: map<string, Object>): int {
    Sum(objects, Weight)
  }

  function GrowthAt(store: Id): (nat, Job) -> int {
    (t, j: Job) => if j.store == store then j.grown else 0
  }

  /** By how much the writes in flight have made a store fuller. */
  ghost function Growth(w: World, store: Id): int {
    Sum(w.inflight, GrowthAt(store))
  }

  /** By how much a store's counter is off, the writes in flight allowed for: they are charged when they finish. */
  ghost function Drift(w: World, store: Id): int
    requires HasStore(w, store)
  {
    w.used[store] + Growth(w, store) - Total(w.objects[store])
  }

  ghost predicate Balanced(w: World) {
    && (forall s :: s in w.objects ==> s in w.used && Drift(w, s) == 0)
    && (forall t :: t in w.inflight && w.inflight[t].Copy? && w.inflight[t].ready ==> w.inflight[t].grown == 0)
  }

  // ---------------------------------------------------------------- what single writes do to the books

  /** The books move at one store only. */
  ghost predicate Moves(w: World, w': World, store: Id, off: int) {
    && w'.objects.Keys == w.objects.Keys && w'.used.Keys == w.used.Keys
    && forall s :: HasStore(w, s) ==> Drift(w', s) == Drift(w, s) + (if s == store then off else 0)
  }

  lemma ChargeMoves(w: World, store: Id, delta: int)
    requires store in w.used
    ensures Moves(w, Charge(w, store, delta), store, delta)
  {
  }

  lemma DropMoves(w: World, store: Id, key: string)
    requires store in w.objects
    ensures Moves(w, Drop(w, store, key), store, WeightAt(w, store, key))
  {
    if key in w.objects[store] {
      SumWithout(w.objects[store], Weight, key);
    } else {
      assert w.objects[store] - {key} == w.objects[store];
    }
  }

  lemma PutMoves(w: World, store: Id, key: string, bytes: string)
    requires store in w.objects && !IsBackup(key)
    ensures Moves(w, Put(w, store, key, bytes), store, WeightAt(w, store, key) - |bytes|)
  {
    SumWith(w.objects[store], Weight, key, Object(bytes, w.now));
  }

  lemma LeaveMoves(w: World, t: nat)
    requires t in w.inflight
    ensures Moves(w, Without(w, t), w.inflight[t].store, -w.inflight[t].grown)
  {
    forall s | HasStore(w, s)
      ensures Growth(Without(w, t), s) == Growth(w, s) - (if s == w.inflight[t].store then w.inflight[t].grown else 0)
    {
      SumWithout(w.inflight, GrowthAt(s), t);
    }
  }

  lemma EnterMoves(w: World, t: nat, j: Job)
    requires t !in w.inflight
    ensures Moves(w, w.(inflight := w.inflight[t := j]), j.store, j.grown)
  {
    forall s | HasStore(w, s)
      ensures Growth(w.(inflight := w.inflight[t := j]), s) == Growth(w, s) + (if s == j.store then j.grown else 0)
    {
      SumWith(w.inflight, GrowthAt(s), t, j);
    }
  }

  /** Rows, candidates and the clock are not in the books. */
  lemma SameBooks(w: World, w': World)
    requires w'.objects == w.objects && w'.used == w.used && w'.inflight == w.inflight
    ensures forall store :: Moves(w, w', store, 0)
  {
  }

  lemma MovesBoth(w: World, middle: World, w': World, store: Id, a: int, b: int)
    requires Moves(w, middle, store, a) && Moves(middle, w', store, b)
    ensures Moves(w, w', store, a + b)
  {
    forall s | HasStore(w, s) ensures Drift(w', s) == Drift(w, s) + (if s == store then a + b else 0) {
      assert HasStore(middle, s);
    }
  }

  /** What a step does to the books of one store; it leaves all others alone. */
  lemma MovedIsBalanced(w: World, w': World, store: Id, off: int)
    requires Balanced(w) && Moves(w, w', store, off) && (off != 0 ==> HasStore(w, store))
    requires forall t :: t in w'.inflight && w'.inflight[t].Copy? && w'.inflight[t].ready ==> w'.inflight[t].grown == 0
    ensures Balanced(w') <==> off == 0
  {
    if off != 0 {
      assert HasStore(w', store);
    }
    forall s | s in w'.objects ensures s in w'.used && Drift(w', s) == if s == store then off else 0 {
      assert HasStore(w, s);
    }
  }

  // ---------------------------------------------------------------- step by step

  /** The store whose counter a step may put wrong, if any. */
  function Touched(w: World, s: Step): Id
    requires Enabled(w, s)
  {
    match s
    case DoPut(_, _, _, _, store, _, _) => store
    case DoRegister(t) => w.inflight[t].store
    case DoRefuse(t) => w.inflight[t].store
    case DoWithdraw(t) => w.inflight[t].store
    case DoForget(t) => w.inflight[t].store
    case DoMount(_, _, from) => w.rows[from].store
    case DoDelete(r, _) => w.rows[r].store
    case DoStage(_, _, _, _, target, _, _) => target
    case DoCheck(t, _) => w.inflight[t].store
    case DoFlip(t, _) => w.inflight[t].source
    case DoCollect(f, _) => f.candidate.store
    case _ => ""
  }

  /** By how much a step puts it wrong: what it charges, less what it changes. */
  function Slip(w: World, s: Step): int
    requires Enabled(w, s)
  {
    match s
    case DoRegister(t) => UsageDelta(w, w.inflight[t].row, NewRow(w.inflight[t])) - w.inflight[t].grown
    case DoRefuse(t) => WeightAt(w, w.inflight[t].store, w.inflight[t].key) - w.inflight[t].grown
    case DoWithdraw(t) =>
      (if Referenced(w, w.inflight[t].key) then 0 else WeightAt(w, w.inflight[t].store, w.inflight[t].key))
      - w.inflight[t].grown
    case DoForget(t) => -w.inflight[t].grown
    case DoMount(r, repo, from) => UsageDelta(w, r, w.rows[from].(repo := repo))
    case DoDelete(r, stays) =>
      if stays || ReferencedBesides(w, w.rows[r].key, r) then 0
      else WeightAt(w, w.rows[r].store, w.rows[r].key) - w.rows[r].size
    case DoCheck(t, measured) =>
      var j := w.inflight[t];
      (if measured && SourceUnchanged(w, j) then j.expected else WeightAt(w, j.store, j.key)) - j.grown
    case DoFlip(t, stays) =>
      var j := w.inflight[t];
      if !SourceUnchanged(w, j) || stays || ReferencedIn(Repointed(Without(w, t), j), j.key, j.source) then 0
      else WeightAt(w, j.source, j.key) - Returned(w, j)
    case DoCollect(f, _) => WeightAt(w, f.candidate.store, f.candidate.key) - f.size
    case _ => 0
  }

  lemma RegisterMoves(w: World, r: nat, row: Row)
    requires row.store in w.used
    ensures Moves(w, Register(w, r, row), row.store, UsageDelta(w, r, row))
  {
    var charged := Charge(w, row.store, UsageDelta(w, r, row));
    ChargeMoves(w, row.store, UsageDelta(w, r, row));
    SameBooks(charged, Register(w, r, row));
    MovesBoth(w, charged, Register(w, r, row), row.store, UsageDelta(w, r, row), 0);
  }

  lemma DropCharged(w: World, store: Id, key: string, delta: int)
    requires HasStore(w, store)
    ensures Moves(w, Charge(Drop(w, store, key), store, delta), store, WeightAt(w, store, key) + delta)
  {
    DropMoves(w, store, key);
    ChargeMoves(Drop(w, store, key), store, delta);
    MovesBoth(w, Drop(w, store, key), Charge(Drop(w, store, key), store, delta), store, WeightAt(w, store, key), delta);
  }

  lemma PutEntered(w: World, store: Id, key: string, bytes: string, t: nat, j: Job)
    requires store in w.objects && !IsBackup(key) && t !in w.inflight && j.store == store
    requires j.grown == |bytes| - WeightAt(w, store, key)
    ensures var put := Put(w, store, key, bytes); Moves(w, put.(inflight := put.inflight[t := j]), store, 0)
  {
    var put := Put(w, store, key, bytes);
    PutMoves(w, store, key, bytes);
    EnterMoves(put, t, j);
    MovesBoth(w, put, put.(inflight := put.inflight[t := j]), store, WeightAt(w, store, key) - |bytes|, j.grown);
  }

  lemma EndMoves(w: World, t: nat, s: Step)
    requires Enabled(w, s) && (s == DoRegister(t) || s == DoRefuse(t) || s == DoWithdraw(t))
    ensures Moves(w, Apply(w, s), Touched(w, s), Slip(w, s))
  {
    var j, rest := w.inflight[t], Without(w, t);
    LeaveMoves(w, t);
    if s.DoRegister? {
      RegisterMoves(rest, j.row, NewRow(j));
      MovesBoth(w, rest, Apply(w, s), j.store, -j.grown, UsageDelta(rest, j.row, NewRow(j)));
    } else if s.DoRefuse? || !Referenced(w, j.key) {
      DropMoves(rest, j.store, j.key);
      MovesBoth(w, rest, Apply(w, s), j.store, -j.grown, WeightAt(rest, j.store, j.key));
    }
  }

  lemma DeleteMoves(w: World, r: nat, stays: bool)
    requires Enabled(w, DoDelete(r, stays))
    ensures Moves(w, DeleteRow(w, r, stays), w.rows[r].store, Slip(w, DoDelete(r, stays)))
  {
    var rest := w.(rows := w.rows - {r});
    SameBooks(w, rest);
    if q :| q in w.rows && q != r && w.rows[q].key == w.rows[r].key {
      assert q in rest.rows && rest.rows[q].key == w.rows[r].key;
    }
    if !stays && !Referenced(rest, w.rows[r].key) {
      DropCharged(rest, w.rows[r].store, w.rows[r].key, -(w.rows[r].size as int));
      MovesBoth(w, rest, DeleteRow(w, r, stays), w.rows[r].store, 0, Slip(w, DoDelete(r, stays)));
    }
  }

  lemma CheckMoves(w: World, t: nat, measured: bool)
    requires Enabled(w, DoCheck(t, measured))
    ensures Moves(w, CheckKey(w, t, measured), w.inflight[t].store, Slip(w, DoCheck(t, measured)))
  {
    var j, rest := w.inflight[t], Without(w, t);
    LeaveMoves(w, t);
    if measured && SourceUnchanged(w, j) {
      var paid := j.(grown := 0, ready := true);
      var entered := rest.(inflight := rest.inflight[t := paid]);
      EnterMoves(rest, t, paid);
      MovesBoth(w, rest, entered, j.store, -j.grown, 0);
      ChargeMoves(entered, j.store, j.expected);
      MovesBoth(w, entered, Charge(entered, j.store, j.expected), j.store, -j.grown, j.expected);
      assert w.inflight[t := paid] == entered.inflight;
      assert CheckKey(w, t, measured) == Charge(entered, j.store, j.expected);
    } else {
      DropMoves(rest, j.store, j.key);
      MovesBoth(w, rest, CheckKey(w, t, measured), j.store, -j.grown, WeightAt(w, j.store, j.key));
    }
  }

  lemma FlipMoves(w: World, t: nat, stays: bool)
    requires Enabled(w, DoFlip(t, stays)) && w.inflight[t].grown == 0
    ensures Moves(w, FlipKey(w, t, stays), w.inflight[t].source, Slip(w, DoFlip(t, stays)))
  {
    var j, rest := w.inflight[t], Without(w, t);
    LeaveMoves(w, t);
    assert Moves(w, rest, j.source, 0);
    if SourceUnchanged(w, j) {
      var moved := Repointed(rest, j);
      SameBooks(rest, moved);
      MovesBoth(w, rest, moved, j.source, 0, 0);
      if !stays && !ReferencedIn(moved, j.key, j.source) {
        DropCharged(moved, j.source, j.key, -Returned(w, j));
        MovesBoth(w, moved, FlipKey(w, t, stays), j.source, 0, Slip(w, DoFlip(t, stays)));
      }
    }
  }

  lemma StepMoves(w: World, s: Step)
    requires Balanced(w) && Enabled(w, s)
    ensures Moves(w, Apply(w, s), Touched(w, s), Slip(w, s))
  {
    hide Moves, Balanced, Returned, UsageDelta;
    match s {
      case DoPut(t, row, repo, key, store, bytes, guarded) =>
        PutEntered(w, store, key, bytes, t, Apply(w, s).inflight[t]);
      case DoRegister(t) => EndMoves(w, t, s);
      case DoRefuse(t) => EndMoves(w, t, s);
      case DoWithdraw(t) => EndMoves(w, t, s);
      case DoForget(t) => LeaveMoves(w, t);
      case DoMount(r, repo, from) => RegisterMoves(w, r, w.rows[from].(repo := repo));
      case DoDelete(r, stays) => DeleteMoves(w, r, stays);
      case DoStage(t, _, key, source, target, _, resumed) =>
        if resumed {
          EnterMoves(w, t, Apply(w, s).inflight[t]);
        } else {
          PutEntered(w, target, key, w.objects[source][key].bytes, t, Apply(w, s).inflight[t]);
        }
      case DoCheck(t, measured) => CheckMoves(w, t, measured);
      case DoFlip(t, stays) =>
        ReadyIsPaid(w, t);
        FlipMoves(w, t, stays);
      case DoJudge(_, _) => SameBooks(w, Apply(w, s));
      case DoFind(_) => SameBooks(w, Apply(w, s));
      case DoCollect(f, _) =>
        DropCharged(w, f.candidate.store, f.candidate.key, -(f.size as int));
        var swept := Charge(Drop(w, f.candidate.store, f.candidate.key), f.candidate.store, -(f.size as int));
        SameBooks(swept, Apply(w, s));
        MovesBoth(w, swept, Apply(w, s), f.candidate.store, Slip(w, s), 0);
      case DoTick(_) => SameBooks(w, Apply(w, s));
    }
  }

  lemma ReadyIsPaid(w: World, t: nat)
    requires Balanced(w) && t in w.inflight && w.inflight[t].Copy? && w.inflight[t].ready
    ensures w.inflight[t].grown == 0
  {
  }

  /** A step keeps every counter right exactly when it charges what it changes. */
  lemma ExactStep(w: World, s: Step)
    requires Balanced(w) && Enabled(w, s)
    ensures Balanced(Apply(w, s)) <==> Slip(w, s) == 0
  {
    StepMoves(w, s);
    ReadyStaysPaid(w, s);
    assert Slip(w, s) != 0 ==> HasStore(w, Touched(w, s));
    hide Touched, Slip;
    MovedIsBalanced(w, Apply(w, s), Touched(w, s), Slip(w, s));
  }

  lemma ReadyStaysPaid(w: World, s: Step)
    requires Balanced(w) && Enabled(w, s)
    ensures var w' := Apply(w, s);
            forall t :: t in w'.inflight && w'.inflight[t].Copy? && w'.inflight[t].ready ==> w'.inflight[t].grown == 0
  {
    hide Drift;
  }

  ghost predicate AlwaysBalanced(w: World, steps: seq<Step>)
    requires ValidRun(w, steps)
    decreases |steps|
  {
    Balanced(w) && (steps == [] || AlwaysBalanced(Apply(w, steps[0]), steps[1..]))
  }

  predicate NoSlip(w: World, steps: seq<Step>)
    requires ValidRun(w, steps)
    decreases |steps|
  {
    steps == [] || (Slip(w, steps[0]) == 0 && NoSlip(Apply(w, steps[0]), steps[1..]))
  }

  /** Over every interleaving: the counters are right throughout exactly when no step slips where it happens. */
  lemma {:induction false} BalancedExactlyWithoutSlip(w: World, steps: seq<Step>)
    requires Balanced(w) && ValidRun(w, steps)
    ensures AlwaysBalanced(w, steps) <==> NoSlip(w, steps)
    decreases |steps|
  {
    if steps != [] {
      ExactStep(w, steps[0]);
      if Slip(w, steps[0]) == 0 {
        BalancedExactlyWithoutSlip(Apply(w, steps[0]), steps[1..]);
      }
    }
  }

  // ---------------------------------------------------------------- whole writes, judged before they begin

  /** How an upload ends once its object is written. */
  datatype Ending = Registered | Refused | Withdrawn | Forgotten

  function EndStep(t: nat, e: Ending): Step {
    match e
    case Registered => DoRegister(t)
    case Refused => DoRefuse(t)
    case Withdrawn => DoWithdraw(t)
    case Forgotten => DoForget(t)
  }

  /**
   What must be so before an upload begins for the counters to be right when it has ended. To
   register, its row's own object must measure what the row says; where another row has the key,
   the store must already hold as many bytes under it; and where none has, nothing at all. A
   refused upload must have found nothing, one that ends without its object deleted its own length.
   */
  predicate Chargeable(w: World, row: nat, key: string, store: Id, size: nat, e: Ending) {
    var before := WeightAt(w, store, key);
    match e
    case Registered =>
      if row in w.rows && w.rows[row].key == key && w.rows[row].store == store then before == w.rows[row].size
      else if ReferencedBesides(w, key, row) then before == size
      else before == 0
    case Refused => before == 0
    case Withdrawn => if Referenced(w, key) then before == size else before == 0
    case Forgotten => before == size
  }

  /** An upload nothing interleaves with leaves the counters right exactly when it was chargeable. */
  lemma UploadChargesExactly(w: World, t: nat, row: nat, repo: Id, key: string, store: Id, bytes: string, e: Ending)
    requires Balanced(w) && Enabled(w, DoPut(t, row, repo, key, store, bytes, false))
    ensures var put := Apply(w, DoPut(t, row, repo, key, store, bytes, false));
            Enabled(put, EndStep(t, e))
            && (Balanced(Apply(put, EndStep(t, e))) <==> Chargeable(w, row, key, store, |bytes|, e))
  {
    var put := Apply(w, DoPut(t, row, repo, key, store, bytes, false));
    ExactStep(w, DoPut(t, row, repo, key, store, bytes, false));
    PutThenSlip(w, t, row, repo, key, store, bytes, e);
    ExactStep(put, EndStep(t, e));
    assert Slip(w, DoPut(t, row, repo, key, store, bytes, false)) == 0;
    hide Balanced, Apply, Slip, Chargeable, Enabled;
  }

  lemma PutThenSlip(w: World, t: nat, row: nat, repo: Id, key: string, store: Id, bytes: string, e: Ending)
    requires Enabled(w, DoPut(t, row, repo, key, store, bytes, false))
    ensures var put := Apply(w, DoPut(t, row, repo, key, store, bytes, false));
            Enabled(put, EndStep(t, e))
            && (Slip(put, EndStep(t, e)) == 0 <==> Chargeable(w, row, key, store, |bytes|, e))
  {
    var put := Apply(w, DoPut(t, row, repo, key, store, bytes, false));
    assert WeightAt(put, store, key) == |bytes|;
    assert put.inflight[t].grown == |bytes| - WeightAt(w, store, key);
  }

  /**
   A key that was mounted elsewhere and is uploaded again into another store is not charged at all:
   the store holds the bytes and its counter does not know.
   */
  lemma MountedKeyGoesUncounted(w: World, t: nat, r: nat, mount: nat, store: Id, bytes: string)
    requires Balanced(w) && r in w.rows && mount in w.rows && mount != r && w.rows[mount].key == w.rows[r].key
    requires w.rows[r].store != store && !Stored(w, store, w.rows[r].key) && bytes != ""
    requires Enabled(w, DoPut(t, r, w.rows[r].repo, w.rows[r].key, store, bytes, false))
    ensures var put := Apply(w, DoPut(t, r, w.rows[r].repo, w.rows[r].key, store, bytes, false));
            Enabled(put, DoRegister(t)) && Drift(Apply(put, DoRegister(t)), store) == -|bytes|
  {
    var step := DoPut(t, r, w.rows[r].repo, w.rows[r].key, store, bytes, false);
    var put := Apply(w, step);
    StepMoves(w, step);
    ExactStep(w, step);
    StepMoves(put, DoRegister(t));
  }

  /**
   A migration's copy nothing interleaves with, staged and checked: right exactly when the target
   had nothing of the key, or the copy was not made because it had. (A check that fails deletes what
   was staged, and with it whatever lay there.)
   */
  lemma CopyChargesExactly(w: World, t: nat, repo: Id, key: string, source: Id, target: Id, listed: nat, measured: bool)
    requires Balanced(w) && Enabled(w, DoStage(t, repo, key, source, target, listed, false))
    ensures var staged := Apply(w, DoStage(t, repo, key, source, target, listed, false));
            Enabled(staged, DoCheck(t, measured))
            && (Balanced(Apply(staged, DoCheck(t, measured))) <==> WeightAt(w, target, key) == 0)
  {
    var staged := Apply(w, DoStage(t, repo, key, source, target, listed, false));
    ExactStep(w, DoStage(t, repo, key, source, target, listed, false));
    ExactStep(staged, DoCheck(t, measured));
    assert WeightAt(staged, target, key) == |w.objects[source][key].bytes|;
    hide Balanced, Apply;
  }

  // ---------------------------------------------------------------- rows of true size

  /** Rows have their bytes, and as many as they say. */
  ghost predicate TrueSizes(w: World) {
    forall r :: r in w.rows ==> Stored(w, w.rows[r].store, w.rows[r].key)
                                && w.rows[r].size == WeightAt(w, w.rows[r].store, w.rows[r].key)
  }

  /** Deleting a row of true size gives back exactly its bytes. */
  lemma DeleteKeepsTrueSizes(w: World, r: nat, stays: bool)
    requires TrueSizes(w) && Balanced(w) && Enabled(w, DoDelete(r, stays))
    ensures TrueSizes(DeleteRow(w, r, stays)) && Balanced(DeleteRow(w, r, stays))
  {
    ExactStep(w, DoDelete(r, stays));
    var rest := w.(rows := w.rows - {r});
    var w' := DeleteRow(w, r, stays);
    forall q | q in w'.rows
      ensures Stored(w', w'.rows[q].store, w'.rows[q].key)
              && w'.rows[q].size == WeightAt(w', w'.rows[q].store, w'.rows[q].key)
    {
      assert rest.rows[q].key == w.rows[r].key ==> Referenced(rest, w.rows[r].key);
    }
  }
}
