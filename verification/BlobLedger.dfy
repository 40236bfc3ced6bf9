/**
 That used_bytes stays right over whole runs, from what actors do alone: rows of true size, one
 length per key, uploads of new keys, migrations that copy to an empty place or resume a copy of the
 listed length, and collections of what they listed.
 */
module BlobLedger {
  import opened Prelude
  import opened Blobs
  import opened BlobWorld
  import opened BlobBooks

  predicate KeyInFlight(w: World, key: string) {
    exists t :: t in w.inflight && w.inflight[t].key == key
  }

  predicate Measures(w: World, store: Id, key: string, size: nat) {
    Stored(w, store, key) && |w.objects[store][key].bytes| == size
  }

  /** Every row of the key has this size. */
  predicate RowsMeasure(w: World, key: string, size: nat) {
    forall r :: r in w.rows && w.rows[r].key == key ==> w.rows[r].size == size
  }

  /**
   What actors do. An upload is of a key no row names and nothing is stored or in flight under, and
   it registers, is refused or is withdrawn; a migration takes a key with the size of its rows, from
   an object of that length to a place that is empty, or resumes with one of that length, and
   nothing else of the key is in flight; it is given up only once its copy is charged; a collection
   deletes an object of the size it listed that no row names and nobody is writing. Mounts, deletes,
   registrations, checks and flips come as they come.
   */
  predicate Regular(w: World, s: Step)
    requires Enabled(w, s)
  {
    match s
    case DoPut(_, _, _, key, store, _, _) => !Referenced(w, key) && !Stored(w, store, key) && !KeyInFlight(w, key)
    case DoForget(t) => w.inflight[t].Copy? && w.inflight[t].ready
    case DoStage(_, _, key, source, target, listed, resumed) =>
      && !KeyInFlight(w, key) && RowsMeasure(w, key, listed)
      && (if resumed then Measures(w, target, key, listed)
          else !Stored(w, target, key) && Measures(w, source, key, listed))
    case DoCollect(f, _) =>
      var c := f.candidate;
      !ReferencedIn(w, c.key, c.store) && !Occupied(w, c.store, c.key) && f.size == WeightAt(w, c.store, c.key)
    case _ => true
  }

  predicate AllRegular(w: World, steps: seq<Step>)
    requires ValidRun(w, steps)
    decreases |steps|
  {
    steps == [] || (Regular(w, steps[0]) && AllRegular(Apply(w, steps[0]), steps[1..]))
  }

  /** Rows that share a key agree on its length. */
  ghost predicate OneLength(w: World) {
    forall r, q :: r in w.rows && q in w.rows && w.rows[r].key == w.rows[q].key ==> w.rows[r].size == w.rows[q].size
  }

  predicate UploadOk(w: World, j: Job)
    requires j.Upload?
  {
    && Stored(w, j.store, j.key) && j.grown == j.size == WeightAt(w, j.store, j.key)
    && !Referenced(w, j.key)
  }

  /**
   A copy has the length its rows have; one not yet charged is there and unnamed, one charged is
   there while it is needed.
   */
  predicate CopyOk(w: World, j: Job)
    requires j.Copy?
  {
    && j.source != j.store && j.listed == j.expected && !IsBackup(j.key)
    && RowsMeasure(w, j.key, j.expected)
    && (!j.ready || Referenced(w, j.key) ==> Stored(w, j.store, j.key) && WeightAt(w, j.store, j.key) == j.expected)
    && (!j.ready ==> j.grown == j.expected && !ReferencedIn(w, j.key, j.store))
  }

  ghost predicate JobsOk(w: World) {
    && (forall t :: t in w.inflight ==>
            if w.inflight[t].Upload? then UploadOk(w, w.inflight[t]) else CopyOk(w, w.inflight[t]))
    && (forall t, u :: t in w.inflight && u in w.inflight && t != u ==> w.inflight[t].key != w.inflight[u].key)
  }

  /** The counters are right, rows have their bytes and as many as they say, and the writes in flight are in order. */
  ghost predicate InOrder(w: World) {
    Balanced(w) && TrueSizes(w) && OneLength(w) && JobsOk(w)
  }

  lemma UploadDoesNotSlip(w: World, t: nat, s: Step)
    requires Uploading(w, t) && UploadOk(w, w.inflight[t])
    requires s == DoRegister(t) || s == DoRefuse(t) || s == DoWithdraw(t)
    ensures Slip(w, s) == 0
  {
  }

  lemma MountDoesNotSlip(w: World, r: nat, repo: Id, from: nat)
    requires TrueSizes(w) && Enabled(w, DoMount(r, repo, from))
    ensures Slip(w, DoMount(r, repo, from)) == 0
  {
    assert from != r ==> ReferencedBesides(w, w.rows[from].key, r);
  }

  lemma CopyDoesNotSlip(w: World, t: nat, s: Step)
    requires Copying(w, t) && CopyOk(w, w.inflight[t]) && (w.inflight[t].ready ==> w.inflight[t].grown == 0)
    requires (s.DoCheck? || s.DoFlip? || s == DoForget(t)) && s.job == t && Enabled(w, s) && Regular(w, s)
    ensures Slip(w, s) == 0
  {
    hide Referenced, ReferencedIn, Locked;
  }

  /** A regular step charges what it changes. */
  lemma RegularDoesNotSlip(w: World, s: Step)
    requires InOrder(w) && Enabled(w, s) && Regular(w, s)
    ensures Slip(w, s) == 0
  {
    match s {
      case DoRegister(t) => UploadDoesNotSlip(w, t, s);
      case DoRefuse(t) => UploadDoesNotSlip(w, t, s);
      case DoWithdraw(t) => UploadDoesNotSlip(w, t, s);
      case DoForget(t) => ReadyIsPaid(w, t);
      case DoMount(r, repo, from) => MountDoesNotSlip(w, r, repo, from);
      case DoCheck(t, _) => CopyDoesNotSlip(w, t, s);
      case DoFlip(t, _) =>
        ReadyIsPaid(w, t);
        CopyDoesNotSlip(w, t, s);
      case _ =>
    }
    hide Balanced, UploadOk, CopyOk, UsageDelta, Returned, Referenced, ReferencedIn;
  }

  /** A row after a step has the key and the size of one before, unless the step registers it. */
  lemma SizeHasForerunner(w: World, s: Step, r: nat) returns (q: nat)
    requires Enabled(w, s) && r in Apply(w, s).rows
            && (s.DoRegister? ==> w.inflight[s.job].key != Apply(w, s).rows[r].key)
    ensures q in w.rows && w.rows[q].key == Apply(w, s).rows[r].key && w.rows[q].size == Apply(w, s).rows[r].size
  {
    q := if s.DoMount? && s.row == r then s.from else r;
  }

  lemma RegularKeepsOneLength(w: World, s: Step)
    requires InOrder(w) && Enabled(w, s) && Regular(w, s)
    ensures OneLength(Apply(w, s))
  {
    var w' := Apply(w, s);
    forall r, q | r in w'.rows && q in w'.rows && w'.rows[r].key == w'.rows[q].key
      ensures w'.rows[r].size == w'.rows[q].size
    {
      if s.DoRegister? && w.inflight[s.job].key == w'.rows[r].key {
        assert UploadOk(w, w.inflight[s.job]);
        OnlyRow(w, s.job, r);
        OnlyRow(w, s.job, q);
      } else {
        var r0 := SizeHasForerunner(w, s, r);
        var q0 := SizeHasForerunner(w, s, q);
      }
      hide Apply, Enabled, Regular, Balanced, TrueSizes, JobsOk;
    }
  }

  lemma OnlyRow(w: World, t: nat, r: nat)
    requires Uploading(w, t) && UploadOk(w, w.inflight[t])
    requires r in Apply(w, DoRegister(t)).rows && Apply(w, DoRegister(t)).rows[r].key == w.inflight[t].key
    ensures r == w.inflight[t].row
  {
  }

  lemma SizesWithout(w: World, store: Id, key: string)
    requires TrueSizes(w) && store in w.objects && !ReferencedIn(w, key, store)
    ensures TrueSizes(Drop(w, store, key))
  {
  }

  lemma SizesWith(w: World, store: Id, key: string, bytes: string)
    requires TrueSizes(w) && store in w.objects && !ReferencedIn(w, key, store)
    ensures TrueSizes(Put(w, store, key, bytes))
  {
  }

  lemma SizesAlike(w: World, w': World)
    requires TrueSizes(w) && w'.rows == w.rows && w'.objects == w.objects
    ensures TrueSizes(w')
  {
  }

  lemma SizesOfRow(w: World, r: nat, row: Row)
    requires TrueSizes(w) && row.store in w.used && Stored(w, row.store, row.key)
    requires row.size == WeightAt(w, row.store, row.key)
    ensures TrueSizes(Register(w, r, row))
  {
  }

  lemma FlipKeepsTrueSizes(w: World, t: nat, stays: bool)
    requires TrueSizes(w) && Copying(w, t) && CopyOk(w, w.inflight[t])
    ensures TrueSizes(FlipKey(w, t, stays))
  {
    var j := w.inflight[t];
    if SourceUnchanged(w, j) {
      var moved := Repointed(Without(w, t), j);
      assert TrueSizes(moved);
      if !stays && !ReferencedIn(moved, j.key, j.source) {
        SizesWithout(moved, j.source, j.key);
      }
    }
  }

  lemma EndKeepsTrueSizes(w: World, t: nat, s: Step)
    requires TrueSizes(w) && Uploading(w, t) && UploadOk(w, w.inflight[t])
    requires s == DoRegister(t) || s == DoRefuse(t) || s == DoWithdraw(t)
    ensures TrueSizes(Apply(w, s))
  {
    var j, rest := w.inflight[t], Without(w, t);
    SizesAlike(w, rest);
    if s.DoRegister? {
      SizesOfRow(rest, j.row, NewRow(j));
    } else {
      SizesWithout(rest, j.store, j.key);
    }
  }

  lemma CheckKeepsTrueSizes(w: World, t: nat, measured: bool)
    requires TrueSizes(w) && Enabled(w, DoCheck(t, measured)) && CopyOk(w, w.inflight[t])
    ensures TrueSizes(CheckKey(w, t, measured))
  {
    var j, rest := w.inflight[t], Without(w, t);
    if measured && SourceUnchanged(w, j) {
      SizesAlike(w, CheckKey(w, t, measured));
    } else {
      SizesAlike(w, rest);
      SizesWithout(rest, j.store, j.key);
    }
  }

  lemma WriteKeepsTrueSizes(w: World, s: Step)
    requires TrueSizes(w) && Enabled(w, s) && Regular(w, s) && (s.DoPut? || s.DoStage?)
    ensures TrueSizes(Apply(w, s))
  {
    if s.DoStage? && s.resumed {
      SizesAlike(w, Apply(w, s));
    } else {
      var store := if s.DoPut? then s.store else s.target;
      var bytes := if s.DoPut? then s.bytes else w.objects[s.source][s.key].bytes;
      assert TrueSizes(w) && !Stored(w, store, s.key) ==> !ReferencedIn(w, s.key, store);
      SizesWith(w, store, s.key, bytes);
      SizesAlike(Put(w, store, s.key, bytes), Apply(w, s));
    }
  }

  lemma RegularKeepsTrueSizes(w: World, s: Step)
    requires InOrder(w) && Enabled(w, s) && Regular(w, s)
    ensures TrueSizes(Apply(w, s))
  {
    match s {
      case DoPut(_, _, _, _, _, _, _) => WriteKeepsTrueSizes(w, s);
      case DoRegister(t) => EndKeepsTrueSizes(w, t, s);
      case DoRefuse(t) => EndKeepsTrueSizes(w, t, s);
      case DoWithdraw(t) => EndKeepsTrueSizes(w, t, s);
      case DoMount(r, repo, from) => SizesOfRow(w, r, w.rows[from].(repo := repo));
      case DoDelete(r, stays) => DeleteKeepsTrueSizes(w, r, stays);
      case DoStage(_, _, _, _, _, _, _) => WriteKeepsTrueSizes(w, s);
      case DoCheck(t, measured) => CheckKeepsTrueSizes(w, t, measured);
      case DoFlip(t, stays) => FlipKeepsTrueSizes(w, t, stays);
      case DoCollect(f, _) =>
        SizesWithout(w, f.candidate.store, f.candidate.key);
        SizesAlike(Drop(w, f.candidate.store, f.candidate.key), Apply(w, s));
      case _ => SizesAlike(w, Apply(w, s));
    }
    hide TrueSizes, Balanced, OneLength, UploadOk, CopyOk, UsageDelta, Returned, Referenced, ReferencedIn;
  }

  // ---------------------------------------------------------------- the writes in flight stay in order

  /** A job in flight before and after a step, and whether the step was its check. */
  lemma JobStays(w: World, s: Step, t: nat)
    requires JobsOk(w) && Enabled(w, s) && t in w.inflight && t in Apply(w, s).inflight
    ensures var j, j' := w.inflight[t], Apply(w, s).inflight[t];
            j' == j || (s.DoCheck? && s.job == t && j.Copy? && !j.ready && j' == j.(grown := 0, ready := true))
  {
  }

  /** No registration, and no flip, of the key. */
  predicate BringsNone(w: World, s: Step, key: string)
    requires Enabled(w, s)
  {
    match s
    case DoRegister(t) => w.inflight[t].key != key
    case DoFlip(t, _) => w.inflight[t].key != key
    case _ => true
  }

  /** Rows of a key that nothing brings are rows of places where there were some, of sizes there were. */
  lemma RowHasForerunner(w: World, s: Step, r: nat) returns (q: nat)
    requires Enabled(w, s) && r in Apply(w, s).rows && BringsNone(w, s, Apply(w, s).rows[r].key)
    ensures q in w.rows && w.rows[q].key == Apply(w, s).rows[r].key && w.rows[q].store == Apply(w, s).rows[r].store
            && w.rows[q].size == Apply(w, s).rows[r].size
  {
    q := if s.DoMount? && s.row == r then s.from else r;
  }

  lemma RowsStay(w: World, s: Step, store: Id, key: string, n: nat)
    requires Enabled(w, s) && BringsNone(w, s, key)
    ensures !Referenced(w, key) ==> !Referenced(Apply(w, s), key)
    ensures !ReferencedIn(w, key, store) ==> !ReferencedIn(Apply(w, s), key, store)
    ensures (forall r :: r in w.rows && w.rows[r].key == key ==> w.rows[r].size == n) ==>
              forall r :: r in Apply(w, s).rows && Apply(w, s).rows[r].key == key ==> Apply(w, s).rows[r].size == n
  {
    var w' := Apply(w, s);
    forall r | r in w'.rows && w'.rows[r].key == key
      ensures Referenced(w, key) && (w'.rows[r].store == store ==> ReferencedIn(w, key, store))
              && ((forall p :: p in w.rows && w.rows[p].key == key ==> w.rows[p].size == n) ==> w'.rows[r].size == n)
    {
      var q := RowHasForerunner(w, s, r);
      hide Apply, Enabled;
    }
  }

  /** The one place where a step may change what is stored. */
  function Site(w: World, s: Step): Option<(Id, string)>
    requires Enabled(w, s)
  {
    match s
    case DoPut(_, _, _, key, store, _, _) => Some((store, key))
    case DoRefuse(t) => Some((w.inflight[t].store, w.inflight[t].key))
    case DoWithdraw(t) => Some((w.inflight[t].store, w.inflight[t].key))
    case DoDelete(r, stays) =>
      if stays || ReferencedBesides(w, w.rows[r].key, r) then None else Some((w.rows[r].store, w.rows[r].key))
    case DoStage(_, _, key, _, target, _, _) => Some((target, key))
    case DoCheck(t, _) => Some((w.inflight[t].store, w.inflight[t].key))
    case DoFlip(t, _) => Some((w.inflight[t].source, w.inflight[t].key))
    case DoCollect(f, _) => Some((f.candidate.store, f.candidate.key))
    case _ => None
  }

  lemma ElsewhereStays(w: World, s: Step, store: Id, key: string)
    requires Enabled(w, s) && Site(w, s) != Some((store, key))
    ensures Stored(Apply(w, s), store, key) <==> Stored(w, store, key)
    ensures Stored(w, store, key) ==> Apply(w, s).objects[store][key] == w.objects[store][key]
  {
    if s.DoDelete? && !s.stays && ReferencedBesides(w, w.rows[s.row].key, s.row) {
      var q :| q in w.rows && q != s.row && w.rows[q].key == w.rows[s.row].key;
      assert q in (w.rows - {s.row}) && (w.rows - {s.row})[q].key == w.rows[s.row].key;
    }
    hide Register;
  }

  /** Where a write is in flight, only its own end and the last delete of its key change what is stored. */
  lemma PlaceStays(w: World, s: Step, t: nat)
    requires JobsOk(w) && Enabled(w, s) && Regular(w, s) && t in w.inflight && t in Apply(w, s).inflight
    requires s.DoDelete? && w.rows[s.row].key == w.inflight[t].key && w.rows[s.row].store == w.inflight[t].store ==>
               Referenced(Apply(w, s), w.inflight[t].key)
    ensures var w', j := Apply(w, s), w.inflight[t];
            (Stored(w', j.store, j.key) <==> Stored(w, j.store, j.key))
            && WeightAt(w', j.store, j.key) == WeightAt(w, j.store, j.key)
  {
    var j := w.inflight[t];
    if s.DoCheck? && s.job == t {
      CheckedStays(w, t, s.measured);
    } else if s.DoFlip? && s.job == t {
      assert false;
    } else {
      if s.DoDelete? && Referenced(Apply(w, s), j.key) && w.rows[s.row].key == j.key {
        LeftBehind(w, s.row, s.stays);
      }
      assert Site(w, s) != Some((j.store, j.key));
      ElsewhereStays(w, s, j.store, j.key);
    }
  }

  lemma CheckedStays(w: World, t: nat, measured: bool)
    requires Enabled(w, DoCheck(t, measured)) && t in CheckKey(w, t, measured).inflight
    ensures CheckKey(w, t, measured).objects == w.objects
  {
  }

  lemma LeftBehind(w: World, r: nat, stays: bool)
    requires Enabled(w, DoDelete(r, stays)) && Referenced(DeleteRow(w, r, stays), w.rows[r].key)
    ensures ReferencedBesides(w, w.rows[r].key, r)
  {
    var q :| q in DeleteRow(w, r, stays).rows && DeleteRow(w, r, stays).rows[q].key == w.rows[r].key;
    assert q in w.rows && q != r;
  }

  lemma UploadStays(w: World, s: Step, t: nat)
    requires JobsOk(w) && Enabled(w, s) && Regular(w, s) && t in w.inflight && t in Apply(w, s).inflight
    requires w.inflight[t].Upload?
    ensures UploadOk(Apply(w, s), w.inflight[t])
  {
    var j := w.inflight[t];
    assert BringsNone(w, s, j.key);
    RowsStay(w, s, j.store, j.key, 0);
    PlaceStays(w, s, t);
    hide Apply, Enabled, Regular;
  }

  lemma CopyStays(w: World, s: Step, t: nat)
    requires JobsOk(w) && Enabled(w, s) && Regular(w, s) && t in w.inflight && t in Apply(w, s).inflight
    requires w.inflight[t].Copy?
    ensures CopyOk(Apply(w, s), Apply(w, s).inflight[t])
  {
    var j := w.inflight[t];
    assert BringsNone(w, s, j.key);
    RowsStay(w, s, j.store, j.key, j.expected);
    JobStays(w, s, t);
    if Referenced(Apply(w, s), j.key) || !j.ready {
      PlaceStays(w, s, t);
    }
    hide Apply, Enabled, Regular;
  }

  lemma NewUploadOk(w: World, s: Step)
    requires s.DoPut? && Enabled(w, s) && Regular(w, s)
    ensures var w' := Apply(w, s);
            s.job in w'.inflight && w'.inflight[s.job].Upload? && w'.inflight[s.job].key == s.key
            && w'.inflight == w.inflight[s.job := w'.inflight[s.job]] && UploadOk(w', w'.inflight[s.job])
  {
  }

  lemma NewCopyOk(w: World, s: Step)
    requires TrueSizes(w) && s.DoStage? && Enabled(w, s) && Regular(w, s)
    ensures var w' := Apply(w, s);
            s.job in w'.inflight && w'.inflight[s.job].Copy? && w'.inflight[s.job].key == s.key
            && w'.inflight == w.inflight[s.job := w'.inflight[s.job]] && CopyOk(w', w'.inflight[s.job])
  {
  }

  lemma NewJobOk(w: World, s: Step, t: nat)
    requires InOrder(w) && Enabled(w, s) && Regular(w, s) && t !in w.inflight && t in Apply(w, s).inflight
    ensures var w', j := Apply(w, s), Apply(w, s).inflight[t];
            (if j.Upload? then UploadOk(w', j) else CopyOk(w', j)) && !KeyInFlight(w, j.key)
            && w'.inflight == w.inflight[t := j]
  {
    NewComesBy(w, s, t);
    if s.DoPut? {
      NewUploadOk(w, s);
    } else {
      NewCopyOk(w, s);
    }
    hide Balanced, TrueSizes, OneLength, JobsOk, UploadOk, CopyOk, Apply, Enabled;
  }

  lemma NewComesBy(w: World, s: Step, t: nat)
    requires Enabled(w, s) && t !in w.inflight && t in Apply(w, s).inflight
    ensures (s.DoPut? || s.DoStage?) && t == s.job
  {
  }

  lemma RegularKeepsJobs(w: World, s: Step)
    requires InOrder(w) && Enabled(w, s) && Regular(w, s)
    ensures JobsOk(Apply(w, s))
  {
    var w' := Apply(w, s);
    forall t | t in w'.inflight
      ensures if w'.inflight[t].Upload? then UploadOk(w', w'.inflight[t]) else CopyOk(w', w'.inflight[t])
    {
      if t !in w.inflight {
        NewJobOk(w, s, t);
      } else {
        JobStays(w, s, t);
        if w.inflight[t].Upload? {
          UploadStays(w, s, t);
        } else {
          CopyStays(w, s, t);
        }
      }
      hide Apply, Enabled, Regular, UploadOk, CopyOk;
    }
    forall t, u | t in w'.inflight && u in w'.inflight && t != u ensures w'.inflight[t].key != w'.inflight[u].key {
      KeysStayApart(w, s, t, u);
      hide Apply, Enabled, Regular, UploadOk, CopyOk;
    }
  }

  lemma KeysStayApart(w: World, s: Step, t: nat, u: nat)
    requires InOrder(w) && Enabled(w, s) && Regular(w, s) && t in Apply(w, s).inflight && u in Apply(w, s).inflight
            && t != u
    ensures Apply(w, s).inflight[t].key != Apply(w, s).inflight[u].key
  {
    hide UploadOk, CopyOk;
    if t !in w.inflight {
      NewJobOk(w, s, t);
      hide Apply, Enabled, Regular;
    } else if u !in w.inflight {
      NewJobOk(w, s, u);
      hide Apply, Enabled, Regular;
    } else {
      JobStays(w, s, t);
      JobStays(w, s, u);
      hide Apply, Enabled, Regular;
    }
  }

  lemma RegularStep(w: World, s: Step)
    requires InOrder(w) && Enabled(w, s) && Regular(w, s)
    ensures InOrder(Apply(w, s))
  {
    RegularDoesNotSlip(w, s);
    ExactStep(w, s);
    RegularKeepsOneLength(w, s);
    RegularKeepsTrueSizes(w, s);
    RegularKeepsJobs(w, s);
    hide Balanced, TrueSizes, OneLength, JobsOk, Enabled, Regular, Apply, Slip;
  }

  /**
   Over every interleaving of such uploads, mounts, deletes, migrations and collections, each store's
   used_bytes is the total of its non-backup objects, writes in flight allowed for, in every state;
   and every row has as many bytes as it says.
   */
  lemma {:induction false} UsedBytesConserved(w: World, steps: seq<Step>)
    requires InOrder(w) && ValidRun(w, steps) && AllRegular(w, steps)
    ensures AlwaysBalanced(w, steps) && InOrder(Exec(w, steps))
    decreases |steps|
  {
    if steps != [] {
      RegularStep(w, steps[0]);
      hide Balanced, TrueSizes, OneLength, JobsOk, Enabled, Regular, Apply;
      UsedBytesConserved(Apply(w, steps[0]), steps[1..]);
    }
  }

  /** Where nothing is in flight the counters are plainly the totals. */
  lemma CountersAtRest(w: World, store: Id)
    requires InOrder(w) && w.inflight == map[] && store in w.objects
    ensures store in w.used && w.used[store] == Total(w.objects[store])
  {
    assert Drift(w, store) == 0;
  }

  /**
   A row in its store's place, listed with its size, is what a migration may take where rows have
   their true sizes: the rows of its key measure what it does, and so does the object.
   */
  lemma ListedMeasures(w: World, r: nat)
    requires TrueSizes(w) && OneLength(w) && r in w.rows && !IsBackup(w.rows[r].key)
    ensures RowsMeasure(w, w.rows[r].key, w.rows[r].size)
    ensures Measures(w, w.rows[r].store, w.rows[r].key, w.rows[r].size)
  {
  }
}
