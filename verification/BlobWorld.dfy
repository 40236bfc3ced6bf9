/**
 Asset rows and the stored objects they name, shared by uploads, mounts, deletes, cleanup, blob-store
 migration and garbage collection. Stores here are physically distinct: what one holds, no other does.

 A step is as much as one actor does in one go, and a run is any interleaving. An upload writes its
 object and registers its row in two steps, with a lock on its key only where the repository's
 policy forbids overwriting (`guarded`). A migration writes, re-checks and flips in three, of which
 only the flip locks. A collection judges, lists and deletes in three, and locks nothing. Deletes,
 mounts and flips happen under the key's lock, as one step each.
 */
module BlobWorld {
  import opened Prelude
  import opened Blobs

  datatype Row = Row(repo: Id, key: string, store: Id, size: nat)

  datatype Object = Object(bytes: string, written: int)

  /**
   A write whose object is in the store and whose row or charge is not done yet; `grown` is by how
   much the object made the store fuller, nobody having been charged for it.
   */
  datatype Job =
    | Upload(key: string, store: Id, grown: int, row: nat, repo: Id, size: nat, guarded: bool)
    | Copy(key: string, store: Id, grown: int, repo: Id, source: Id, expected: nat, listed: nat, ready: bool)

  /** A key no row named in the store when a collection read the rows. */
  datatype Candidate = Candidate(store: Id, key: string, at: int)

  /** A candidate's object as the collection listed it. */
  datatype Found = Found(candidate: Candidate, written: int, size: nat)

  /** `objects` is what each store holds, by key; `used` each store's used_bytes counter. */
  datatype World = World(
    rows: map<nat, Row>,
    objects: map<Id, map<string, Object>>,
    used: map<Id, int>,
    inflight: map<nat, Job>,
    judged: set<Candidate>,
    found: set<Found>,
    now: int)

  predicate HasStore(w: World, store: Id) {
    store in w.objects && store in w.used
  }

  predicate Stored(w: World, store: Id, key: string) {
    store in w.objects && key in w.objects[store]
  }

  predicate Referenced(w: World, key: string) {
    exists r :: r in w.rows && w.rows[r].key == key
  }

  predicate ReferencedIn(w: World, key: string, store: Id) {
    exists r :: r in w.rows && w.rows[r].key == key && w.rows[r].store == store
  }

  predicate ReferencedBesides(w: World, key: string, row: nat) {
    exists r :: r in w.rows && r != row && w.rows[r].key == key
  }

  /** A guarded upload holds its key's lock from before its write until its registration. */
  predicate Locked(w: World, key: string) {
    exists t :: t in w.inflight && w.inflight[t].Upload? && w.inflight[t].guarded && w.inflight[t].key == key
  }

  /** A write is in flight to the place. */
  predicate Occupied(w: World, store: Id, key: string) {
    exists t :: t in w.inflight && w.inflight[t].store == store && w.inflight[t].key == key
  }

  function Weight(key: string, o: Object): int {
    if IsBackup(key) then 0 else |o.bytes|
  }

  /** How many bytes of the store lie under the key. */
  function WeightAt(w: World, store: Id, key: string): int {
    if Stored(w, store, key) then Weight(key, w.objects[store][key]) else 0
  }

  // ---------------------------------------------------------------- single writes

  function Put(w: World, store: Id, key: string, bytes: string): World
    requires store in w.objects
  {
    w.(objects := w.objects[store := w.objects[store][key := Object(bytes, w.now)]])
  }

  function Drop(w: World, store: Id, key: string): World
    requires store in w.objects
  {
    w.(objects := w.objects[store := w.objects[store] - {key}])
  }

  function Charge(w: World, store: Id, delta: int): World
    requires store in w.used
  {
    w.(used := w.used[store := w.used[store] + delta])
  }

  function Without(w: World, t: nat): World {
    w.(inflight := w.inflight - {t})
  }

  // ---------------------------------------------------------------- steps

  datatype Step =
    | DoPut(job: nat, row: nat, repo: Id, key: string, store: Id, bytes: string, guarded: bool)
    | DoRegister(job: nat)
    | DoRefuse(job: nat)
    | DoWithdraw(job: nat)
    | DoForget(job: nat)
    | DoMount(row: nat, repo: Id, from: nat)
    | DoDelete(row: nat, stays: bool)
    | DoStage(job: nat, repo: Id, key: string, source: Id, target: Id, listed: nat, resumed: bool)
    | DoCheck(job: nat, measured: bool)
    | DoFlip(job: nat, stays: bool)
    | DoJudge(store: Id, key: string)
    | DoFind(candidate: Candidate)
    | DoCollect(found: Found, grace: int)
    | DoTick(elapsed: nat)

  predicate Uploading(w: World, t: nat) {
    t in w.inflight && w.inflight[t].Upload? && HasStore(w, w.inflight[t].store)
  }

  predicate Copying(w: World, t: nat) {
    t in w.inflight && w.inflight[t].Copy? && HasStore(w, w.inflight[t].store) && HasStore(w, w.inflight[t].source)
    && w.inflight[t].source != w.inflight[t].store
  }

  predicate Enabled(w: World, s: Step) {
    match s
    case DoPut(t, row, _, key, store, _, guarded) =>
      t !in w.inflight && HasStore(w, store) && !IsBackup(key)
      && (guarded ==> !Locked(w, key) && row !in w.rows)
    case DoRegister(t) => Uploading(w, t)
    case DoRefuse(t) => Uploading(w, t)
    case DoWithdraw(t) => Uploading(w, t)
    case DoForget(t) => t in w.inflight && HasStore(w, w.inflight[t].store)
    case DoMount(_, _, from) => from in w.rows && !Locked(w, w.rows[from].key) && HasStore(w, w.rows[from].store)
    case DoDelete(r, _) => r in w.rows && !Locked(w, w.rows[r].key) && HasStore(w, w.rows[r].store)
    case DoStage(t, _, key, source, target, _, resumed) =>
      t !in w.inflight && HasStore(w, source) && HasStore(w, target) && source != target && !IsBackup(key)
      && if resumed then Stored(w, target, key) else Stored(w, source, key)
    case DoCheck(t, _) => Copying(w, t) && !w.inflight[t].ready
    case DoFlip(t, _) => Copying(w, t) && w.inflight[t].ready && !Locked(w, w.inflight[t].key)
    case DoJudge(store, key) => !ReferencedIn(w, key, store)
    case DoFind(c) => c in w.judged && Stored(w, c.store, c.key)
    case DoCollect(f, grace) =>
      f in w.found && HasStore(w, f.candidate.store) && !IsBackup(f.candidate.key) && grace <= w.now - f.written
    case DoTick(_) => true
  }

  /** What a registration adds to used_bytes: nothing for a key some other row carries already, in whatever store. */
  function UsageDelta(w: World, r: nat, row: Row): int {
    if r in w.rows && w.rows[r].key == row.key && w.rows[r].store == row.store then row.size - w.rows[r].size
    else if ReferencedBesides(w, row.key, r) then 0
    else row.size
  }

  /** Upserts a row and charges its store. */
  function Register(w: World, r: nat, row: Row): World
    requires row.store in w.used
  {
    Charge(w, row.store, UsageDelta(w, r, row)).(rows := w.rows[r := row])
  }

  function NewRow(j: Job): Row
    requires j.Upload?
  {
    Row(j.repo, j.key, j.store, j.size)
  }

  /** The row goes, and its bytes with it when no other row anywhere names the key. */
  function DeleteRow(w: World, r: nat, stays: bool): World
    requires r in w.rows && HasStore(w, w.rows[r].store)
  {
    var row := w.rows[r];
    var rest := w.(rows := w.rows - {r});
    if stays || Referenced(rest, row.key) then rest
    else Charge(Drop(rest, row.store, row.key), row.store, -(row.size as int))
  }

  /** Trusts an object found in the target; otherwise writes the source's bytes there. */
  function StageKey(w: World, t: nat, repo: Id, key: string, source: Id, target: Id, listed: nat, resumed: bool): World
    requires Enabled(w, DoStage(t, repo, key, source, target, listed, resumed))
  {
    if resumed then w.(inflight := w.inflight[t := Copy(key, target, 0, repo, source, listed, listed, true)])
    else
      var bytes := w.objects[source][key].bytes;
      Put(w, target, key, bytes)
      .(inflight := w.inflight[t := Copy(key, target, |bytes| - WeightAt(w, target, key),
                                      repo, source, |bytes|, listed, false)])
  }

  predicate SourceUnchanged(w: World, j: Job)
    requires j.Copy?
  {
    Stored(w, j.source, j.key) && |w.objects[j.source][j.key].bytes| == j.expected
  }

  /** Charges the staged copy if the source still measures the same, and deletes it if not. */
  function CheckKey(w: World, t: nat, measured: bool): World
    requires Enabled(w, DoCheck(t, measured))
  {
    var j := w.inflight[t];
    if measured && SourceUnchanged(w, j) then
      Charge(w, j.store, j.expected).(inflight := w.inflight[t := j.(grown := 0, ready := true)])
    else Drop(Without(w, t), j.store, j.key)
  }

  function Repointed(w: World, j: Job): World
    requires j.Copy?
  {
    w.(rows := map r | r in w.rows ::
         if w.rows[r].repo == j.repo && w.rows[r].key == j.key then w.rows[r].(store := j.store) else w.rows[r])
  }

  /** What dropping the source's object gives back: its size, or the listed one where it measures nothing. */
  function Returned(w: World, j: Job): int
    requires j.Copy? && Stored(w, j.source, j.key)
  {
    var size := |w.objects[j.source][j.key].bytes|;
    if size > 0 then size else j.listed
  }

  /** Re-measures, repoints every row of the key in the repository, and drops a source copy nothing names. */
  function FlipKey(w: World, t: nat, stays: bool): World
    requires Copying(w, t)
  {
    var j := w.inflight[t];
    if !SourceUnchanged(w, j) then Without(w, t)
    else
      var moved := Repointed(Without(w, t), j);
      if stays || ReferencedIn(moved, j.key, j.source) then moved
      else Charge(Drop(moved, j.source, j.key), j.source, -Returned(w, j))
  }

  function Apply(w: World, s: Step): World
    requires Enabled(w, s)
  {
    match s
    case DoPut(t, row, repo, key, store, bytes, guarded) =>
      Put(w, store, key, bytes)
      .(inflight := w.inflight[t := Upload(key, store, |bytes| - WeightAt(w, store, key), row, repo, |bytes|, guarded)])
    case DoRegister(t) => Register(Without(w, t), w.inflight[t].row, NewRow(w.inflight[t]))
    case DoRefuse(t) => Drop(Without(w, t), w.inflight[t].store, w.inflight[t].key)
    case DoWithdraw(t) =>
      if Referenced(w, w.inflight[t].key) then Without(w, t)
      else Drop(Without(w, t), w.inflight[t].store, w.inflight[t].key)
    case DoForget(t) => Without(w, t)
    case DoMount(r, repo, from) => Register(w, r, w.rows[from].(repo := repo))
    case DoDelete(r, stays) => DeleteRow(w, r, stays)
    case DoStage(t, repo, key, source, target, listed, resumed) =>
      StageKey(w, t, repo, key, source, target, listed, resumed)
    case DoCheck(t, measured) => CheckKey(w, t, measured)
    case DoFlip(t, stays) => FlipKey(w, t, stays)
    case DoJudge(store, key) => w.(judged := w.judged + {Candidate(store, key, w.now)})
    case DoFind(c) =>
      var o := w.objects[c.store][c.key];
      w.(found := w.found + {Found(c, o.written, |o.bytes|)})
    case DoCollect(f, _) =>
      Charge(Drop(w, f.candidate.store, f.candidate.key), f.candidate.store, -(f.size as int)).(found := w.found - {f})
    case DoTick(d) => w.(now := w.now + d)
  }

  predicate ValidRun(w: World, steps: seq<Step>)
    decreases |steps|
  {
    steps == [] || (Enabled(w, steps[0]) && ValidRun(Apply(w, steps[0]), steps[1..]))
  }

  function Exec(w: World, steps: seq<Step>): World
    requires ValidRun(w, steps)
    decreases |steps|
  {
    if steps == [] then w else Exec(Apply(w, steps[0]), steps[1..])
  }

  function BytesOf(w: World, r: nat): Option<string> {
    if r in w.rows && Stored(w, w.rows[r].store, w.rows[r].key)
      then Some(w.objects[w.rows[r].store][w.rows[r].key].bytes)
    else None
  }

  ghost predicate NoDangling(w: World) {
    forall r :: r in w.rows ==> Stored(w, w.rows[r].store, w.rows[r].key)
  }
}
