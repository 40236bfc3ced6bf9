/**
 When an asset row can lose its bytes: exactly which steps of which runs, and what the lock and the
 grace period rule out.
 */
module BlobSafety {
  import opened Prelude
  import opened Blobs
  import opened BlobWorld

  // ---------------------------------------------------------------- step by step

  /**
   What a step must find so that it leaves no row without bytes. A registration needs its object
   still there, and a flip its target's, unless it has no row to repoint; the three unchecked
   deletes (a refused upload's, a failed copy's, a collection's) need nobody to name the place.
   */
  predicate Safe(w: World, s: Step)
    requires Enabled(w, s)
  {
    match s
    case DoRegister(t) => Stored(w, w.inflight[t].store, w.inflight[t].key)
    case DoRefuse(t) => !ReferencedIn(w, w.inflight[t].key, w.inflight[t].store)
    case DoCheck(t, measured) =>
      (measured && SourceUnchanged(w, w.inflight[t])) || !ReferencedIn(w, w.inflight[t].key, w.inflight[t].store)
    case DoFlip(t, _) =>
      var j := w.inflight[t];
      !SourceUnchanged(w, j) || Stored(w, j.store, j.key) || !RepoNames(w, j.repo, j.key)
    case DoCollect(f, _) => !ReferencedIn(w, f.candidate.key, f.candidate.store)
    case _ => true
  }

  predicate RepoNames(w: World, repo: Id, key: string) {
    exists r :: r in w.rows && w.rows[r].repo == repo && w.rows[r].key == key
  }

  lemma SafeFlip(w: World, t: nat, stays: bool)
    requires NoDangling(w) && Enabled(w, DoFlip(t, stays))
    ensures NoDangling(FlipKey(w, t, stays)) <==> Safe(w, DoFlip(t, stays))
  {
    var j := w.inflight[t];
    if SourceUnchanged(w, j) {
      var w' := FlipKey(w, t, stays);
      var moved := Repointed(Without(w, t), j);
      assert w'.rows == moved.rows;
      if Safe(w, DoFlip(t, stays)) {
        forall r | r in w'.rows ensures Stored(w', w'.rows[r].store, w'.rows[r].key) {
          assert Stored(w, w.rows[r].store, w.rows[r].key);
          assert moved.rows[r].key == j.key && moved.rows[r].store == j.source ==> ReferencedIn(moved, j.key, j.source);
        }
      } else {
        var r :| r in w.rows && w.rows[r].repo == j.repo && w.rows[r].key == j.key;
        assert !Stored(w', w'.rows[r].store, w'.rows[r].key);
      }
    }
  }

  lemma SafeDrop(w: World, store: Id, key: string)
    requires NoDangling(w) && store in w.objects
    ensures NoDangling(Drop(w, store, key)) <==> !ReferencedIn(w, key, store)
  {
    var w' := Drop(w, store, key);
    if r :| r in w.rows && w.rows[r].key == key && w.rows[r].store == store {
      assert !Stored(w', w'.rows[r].store, w'.rows[r].key);
    } else {
      forall r | r in w'.rows ensures Stored(w', w'.rows[r].store, w'.rows[r].key) {
        assert Stored(w, w.rows[r].store, w.rows[r].key);
      }
    }
  }

  lemma SafeDelete(w: World, r: nat, stays: bool)
    requires NoDangling(w) && Enabled(w, DoDelete(r, stays))
    ensures NoDangling(DeleteRow(w, r, stays))
  {
    var rest := w.(rows := w.rows - {r});
    if !stays && !Referenced(rest, w.rows[r].key) {
      SafeDrop(rest, w.rows[r].store, w.rows[r].key);
    }
  }

  lemma SafeRegister(w: World, r: nat, row: Row)
    requires NoDangling(w) && row.store in w.used
    ensures NoDangling(Register(w, r, row)) <==> Stored(w, row.store, row.key)
  {
    var w' := Register(w, r, row);
    assert r in w'.rows && w'.rows[r] == row;
  }

  /** From a world where every row has its bytes, a step keeps it so exactly when it is safe. */
  lemma SafeStep(w: World, s: Step)
    requires NoDangling(w) && Enabled(w, s)
    ensures NoDangling(Apply(w, s)) <==> Safe(w, s)
  {
    match s {
      case DoPut(_, _, _, _, _, _, _) =>
      case DoRegister(t) => SafeRegister(Without(w, t), w.inflight[t].row, NewRow(w.inflight[t]));
      case DoRefuse(t) => SafeDrop(Without(w, t), w.inflight[t].store, w.inflight[t].key);
      case DoWithdraw(t) => SafeDrop(Without(w, t), w.inflight[t].store, w.inflight[t].key);
      case DoForget(_) =>
      case DoMount(r, repo, from) =>
        assert Stored(w, w.rows[from].store, w.rows[from].key);
        SafeRegister(w, r, w.rows[from].(repo := repo));
      case DoDelete(r, stays) => SafeDelete(w, r, stays);
      case DoStage(_, _, _, _, _, _, _) =>
      case DoCheck(t, measured) =>
        if !(measured && SourceUnchanged(w, w.inflight[t])) {
          SafeDrop(Without(w, t), w.inflight[t].store, w.inflight[t].key);
        }
      case DoFlip(t, stays) => SafeFlip(w, t, stays);
      case DoJudge(_, _) =>
      case DoFind(_) =>
      case DoCollect(f, _) => SafeDrop(w, f.candidate.store, f.candidate.key);
      case DoTick(_) =>
    }
  }

  ghost predicate NeverDangles(w: World, steps: seq<Step>)
    requires ValidRun(w, steps)
    decreases |steps|
  {
    NoDangling(w) && (steps == [] || NeverDangles(Apply(w, steps[0]), steps[1..]))
  }

  predicate AllSafe(w: World, steps: seq<Step>)
    requires ValidRun(w, steps)
    decreases |steps|
  {
    steps == [] || (Safe(w, steps[0]) && AllSafe(Apply(w, steps[0]), steps[1..]))
  }

  /** Over every interleaving: no row is ever without its bytes exactly when every step is safe where it happens. */
  lemma {:induction false} DanglesExactlyAtUnsafeSteps(w: World, steps: seq<Step>)
    requires NoDangling(w) && ValidRun(w, steps)
    ensures NeverDangles(w, steps) <==> AllSafe(w, steps)
    decreases |steps|
  {
    if steps != [] {
      SafeStep(w, steps[0]);
      if Safe(w, steps[0]) {
        DanglesExactlyAtUnsafeSteps(Apply(w, steps[0]), steps[1..]);
      }
    }
  }

  // ---------------------------------------------------------------- what the lock rules out

  /** A step that neither asks whether a row names the place it deletes from nor locks its key. */
  predicate Blind(w: World, s: Step, store: Id, key: string)
    requires Enabled(w, s)
  {
    match s
    case DoRefuse(t) => w.inflight[t].store == store && w.inflight[t].key == key
    case DoWithdraw(t) => w.inflight[t].store == store && w.inflight[t].key == key
    case DoCheck(t, _) => w.inflight[t].store == store && w.inflight[t].key == key
    case DoCollect(f, _) => f.candidate.store == store && f.candidate.key == key
    case _ => false
  }

  predicate NoneBlind(w: World, steps: seq<Step>, store: Id, key: string)
    requires ValidRun(w, steps)
    decreases |steps|
  {
    steps == [] || (!Blind(w, steps[0], store, key) && NoneBlind(Apply(w, steps[0]), steps[1..], store, key))
  }

  /** The steps under the key's lock that may take an object away. */
  predicate UnderLock(w: World, s: Step, key: string)
    requires Enabled(w, s)
  {
    match s
    case DoDelete(r, _) => w.rows[r].key == key
    case DoFlip(t, _) => w.inflight[t].key == key
    case _ => false
  }

  /** An object goes away only by a step under its key's lock or by a blind one. */
  lemma OnlyTheseTakeBytes(w: World, s: Step, store: Id, key: string)
    requires Enabled(w, s) && Stored(w, store, key) && !Stored(Apply(w, s), store, key)
    ensures UnderLock(w, s, key) || Blind(w, s, store, key)
  {
  }

  lemma LockHolds(w: World, t: nat, s: Step)
    requires t in w.inflight && w.inflight[t].Upload? && w.inflight[t].guarded && Enabled(w, s)
    ensures !UnderLock(w, s, w.inflight[t].key)
  {
  }

  predicate Untouched(t: nat, s: Step) {
    match s
    case DoRegister(u) => u != t
    case DoRefuse(u) => u != t
    case DoWithdraw(u) => u != t
    case DoForget(u) => u != t
    case _ => true
  }

  lemma StaysInFlight(w: World, t: nat, s: Step)
    requires t in w.inflight && w.inflight[t].Upload? && Enabled(w, s) && Untouched(t, s)
    ensures t in Apply(w, s).inflight && Apply(w, s).inflight[t] == w.inflight[t]
  {
  }

  /**
   A guarded upload's bytes are safe from everyone who locks: however deletes, cleanups, mounts and
   migrations interleave with it, when it comes to register its object is there, unless a refusal
   of another upload, a failed copy's clean-up or a collection deleted it blindly.
   */
  lemma {:induction false} GuardedUploadIsShielded(w: World, t: nat, steps: seq<Step>)
    requires Uploading(w, t) && w.inflight[t].guarded && Stored(w, w.inflight[t].store, w.inflight[t].key)
    requires ValidRun(w, steps) && NoneBlind(w, steps, w.inflight[t].store, w.inflight[t].key)
    requires forall i :: 0 <= i < |steps| ==> Untouched(t, steps[i])
    ensures var w' := Exec(w, steps);
            t in w'.inflight && w'.inflight[t] == w.inflight[t]
            && Stored(w', w.inflight[t].store, w.inflight[t].key)
    decreases |steps|
  {
    if steps != [] {
      var s := steps[0];
      StaysInFlight(w, t, s);
      LockHolds(w, t, s);
      var next := Apply(w, s);
      if !Stored(next, w.inflight[t].store, w.inflight[t].key) {
        OnlyTheseTakeBytes(w, s, w.inflight[t].store, w.inflight[t].key);
      }
      StoresStay(w, s);
      GuardedUploadIsShielded(next, t, steps[1..]);
    }
  }

  lemma StoresStay(w: World, s: Step)
    requires Enabled(w, s)
    ensures Apply(w, s).objects.Keys == w.objects.Keys && Apply(w, s).used.Keys == w.used.Keys
  {
  }

  // ---------------------------------------------------------------- what goes wrong without it

  /**
   Without the lock: whenever a row is the only one to name its key, a new upload of its path may
   write, lose the object to a delete of the row as it was, and register a row without bytes.
   */
  lemma UploadRacesDelete(w: World, r: nat, t: nat, bytes: string)
    requires r in w.rows && t !in w.inflight && HasStore(w, w.rows[r].store)
    requires !ReferencedBesides(w, w.rows[r].key, r) && !Locked(w, w.rows[r].key) && !IsBackup(w.rows[r].key)
    ensures var row := w.rows[r];
            var steps := [DoPut(t, r, row.repo, row.key, row.store, bytes, false), DoDelete(r, false), DoRegister(t)];
            ValidRun(w, steps) && r in Exec(w, steps).rows && BytesOf(Exec(w, steps), r) == None
  {
    var row := w.rows[r];
    var s1, s2, s3 := DoPut(t, r, row.repo, row.key, row.store, bytes, false), DoDelete(r, false), DoRegister(t);
    var w1 := Apply(w, s1);
    assert !Locked(w1, row.key);
    var w2 := Apply(w1, s2);
    assert !Stored(w2, row.store, row.key);
    ThreeSteps(w, s1, s2, s3);
  }

  lemma OneStep(w: World, s: Step)
    requires Enabled(w, s)
    ensures ValidRun(w, [s]) && Exec(w, [s]) == Apply(w, s)
  {
    assert [s][1..] == [] && Exec(Apply(w, s), []) == Apply(w, s);
  }

  lemma ThreeSteps(w: World, s1: Step, s2: Step, s3: Step)
    requires Enabled(w, s1) && Enabled(Apply(w, s1), s2) && Enabled(Apply(Apply(w, s1), s2), s3)
    ensures ValidRun(w, [s1, s2, s3]) && Exec(w, [s1, s2, s3]) == Apply(Apply(Apply(w, s1), s2), s3)
  {
    assert [s1, s2, s3][1..] == [s2, s3] && [s2, s3][1..] == [s3];
    OneStep(Apply(Apply(w, s1), s2), s3);
    assert ValidRun(Apply(w, s1), [s2, s3]);
  }

  /**
   Likewise a migration's flip: between the upload's write and its registration it re-measures the
   source, finds the length it expects, moves the row to the target and drops the source's object.
   */
  lemma UploadRacesFlip(w: World, r: nat, t: nat, m: nat, bytes: string)
    requires r in w.rows && t !in w.inflight && Copying(w, m) && w.inflight[m].ready && t != m
    requires w.inflight[m].repo == w.rows[r].repo && w.inflight[m].key == w.rows[r].key
            && w.inflight[m].source == w.rows[r].store
    requires |bytes| == w.inflight[m].expected && !Locked(w, w.rows[r].key) && !IsBackup(w.rows[r].key)
    requires forall q :: q in w.rows && w.rows[q].key == w.rows[r].key ==> w.rows[q].repo == w.rows[r].repo
    ensures var row := w.rows[r];
            var steps := [DoPut(t, r, row.repo, row.key, row.store, bytes, false), DoFlip(m, false), DoRegister(t)];
            ValidRun(w, steps) && r in Exec(w, steps).rows && BytesOf(Exec(w, steps), r) == None
  {
    var row := w.rows[r];
    var s1, s2, s3 := DoPut(t, r, row.repo, row.key, row.store, bytes, false), DoFlip(m, false), DoRegister(t);
    var w1 := Apply(w, s1);
    assert !Locked(w1, row.key);
    var j := w1.inflight[m];
    assert SourceUnchanged(w1, j) && !ReferencedIn(Repointed(Without(w1, m), j), j.key, j.source);
    assert !Stored(Apply(w1, s2), row.store, row.key);
    ThreeSteps(w, s1, s2, s3);
  }

  /**
   And a collection: an object left over from a deleted row is judged and listed; its path is then
   uploaded again, in full, and the collection deletes the new bytes by their key.
   */
  lemma CollectionTakesNewBytes(w: World, f: Found, t: nat, r: nat, repo: Id, bytes: string, grace: int)
    requires f in w.found && HasStore(w, f.candidate.store) && !IsBackup(f.candidate.key) && grace <= w.now - f.written
    requires t !in w.inflight
    ensures var c := f.candidate;
            var steps := [DoPut(t, r, repo, c.key, c.store, bytes, false), DoRegister(t), DoCollect(f, grace)];
            ValidRun(w, steps) && r in Exec(w, steps).rows && BytesOf(Exec(w, steps), r) == None
  {
    var c := f.candidate;
    var s1, s2, s3 := DoPut(t, r, repo, c.key, c.store, bytes, false), DoRegister(t), DoCollect(f, grace);
    var w2 := Apply(Apply(w, s1), s2);
    assert w2.rows[r].key == c.key && w2.rows[r].store == c.store;
    assert f in w2.found && w2.now == w.now;
    assert r in Apply(w2, s3).rows && !Stored(Apply(w2, s3), c.store, c.key);
    ThreeSteps(w, s1, s2, s3);
  }

  /**
   One key, two contents: a blob is mounted into another repository, its own repository moves to
   another store, and its path is uploaded again. The mount still reads what it mounted.
   */
  lemma MountThenReuploadSplitsTheKey(w: World, r: nat, m: nat, repo: Id, t: nat, store: Id, bytes: string)
    requires r in w.rows && m !in w.rows && Stored(w, w.rows[r].store, w.rows[r].key) && HasStore(w, w.rows[r].store)
    requires HasStore(w, store) && store != w.rows[r].store && t !in w.inflight
    requires !Locked(w, w.rows[r].key) && !IsBackup(w.rows[r].key)
    ensures var row := w.rows[r];
            var steps := [DoMount(m, repo, r), DoPut(t, r, row.repo, row.key, store, bytes, false), DoRegister(t)];
            ValidRun(w, steps)
            && var w' := Exec(w, steps);
               r in w'.rows && m in w'.rows && w'.rows[r].key == w'.rows[m].key == row.key
               && BytesOf(w', m) == BytesOf(w, r) && BytesOf(w', r) == Some(bytes)
  {
    var row := w.rows[r];
    var s1, s2, s3 := DoMount(m, repo, r), DoPut(t, r, row.repo, row.key, store, bytes, false), DoRegister(t);
    var w1 := Apply(w, s1);
    assert !Locked(w1, row.key);
    ThreeSteps(w, s1, s2, s3);
  }

  // ---------------------------------------------------------------- what the grace period rules out

  /**
   How a run keeps to its times: rows come to objects at most `delay` old, and a pass deletes within
   `span` of judging.
   */
  predicate Timely(w: World, s: Step, delay: int, span: int, grace: int)
    requires Enabled(w, s)
  {
    match s
    case DoRegister(t) => Fresh(w, w.inflight[t].store, w.inflight[t].key, delay)
    case DoFlip(t, _) => Fresh(w, w.inflight[t].store, w.inflight[t].key, delay)
    case DoCollect(f, g) => w.now - f.candidate.at <= span && g == grace && Unrewritten(w, f)
    case _ => true
  }

  predicate Fresh(w: World, store: Id, key: string, delay: int) {
    Stored(w, store, key) ==> w.now - w.objects[store][key].written <= delay
  }

  /** The object is the one the collection listed. */
  predicate Unrewritten(w: World, f: Found) {
    Stored(w, f.candidate.store, f.candidate.key) ==>
      w.objects[f.candidate.store][f.candidate.key].written == f.written
  }

  predicate AllTimely(w: World, steps: seq<Step>, delay: int, span: int, grace: int)
    requires ValidRun(w, steps)
    decreases |steps|
  {
    steps == []
         || (Timely(w, steps[0], delay, span, grace) && AllTimely(Apply(w, steps[0]), steps[1..], delay, span, grace))
  }

  ghost predicate ClockOk(w: World) {
    && (forall c :: c in w.judged ==> c.at <= w.now)
    && (forall f :: f in w.found ==> f.candidate in w.judged)
    && (forall s, k :: s in w.objects && k in w.objects[s] ==> w.objects[s][k].written <= w.now)
  }

  /** A row at a place that was judged unnamed came later, to an object that was young then. */
  ghost predicate NamedLate(w: World, delay: int) {
    forall c, r :: c in w.judged && r in w.rows && w.rows[r].store == c.store && w.rows[r].key == c.key
                   && Stored(w, c.store, c.key) ==>
      c.at - delay <= w.objects[c.store][c.key].written
  }

  lemma ClockStep(w: World, s: Step)
    requires ClockOk(w) && Enabled(w, s)
    ensures ClockOk(Apply(w, s))
  {
  }

  lemma NamedLateStep(w: World, s: Step, delay: int, span: int, grace: int)
    requires ClockOk(w) && NamedLate(w, delay) && NoDangling(w) && Enabled(w, s) && 0 <= delay
    requires Timely(w, s, delay, span, grace)
    ensures NamedLate(Apply(w, s), delay)
  {
    var w' := Apply(w, s);
    forall c, r | c in w'.judged && r in w'.rows && w'.rows[r].store == c.store && w'.rows[r].key == c.key
                  && Stored(w', c.store, c.key)
      ensures c.at - delay <= w'.objects[c.store][c.key].written
    {
      WrittenGrows(w, s, c.store, c.key);
      NamedBefore(w, s, r, c.store, c.key);
      JudgedBefore(w, s, c);
      hide Apply, Enabled;
    }
  }

  lemma WrittenGrows(w: World, s: Step, store: Id, key: string)
    requires ClockOk(w) && Enabled(w, s) && Stored(Apply(w, s), store, key)
    ensures var written := Apply(w, s).objects[store][key].written;
            (Stored(w, store, key) && w.objects[store][key].written <= written) || written == w.now
  {
  }

  /** A row at a place has a predecessor there, or its object was young when the row came to it. */
  lemma NamedBefore(w: World, s: Step, r: nat, store: Id, key: string)
    requires Enabled(w, s) && r in Apply(w, s).rows && Apply(w, s).rows[r].store == store
            && Apply(w, s).rows[r].key == key
    ensures ReferencedIn(w, key, store)
            || (s.DoRegister? && w.inflight[s.job].store == store && w.inflight[s.job].key == key)
            || (s.DoFlip? && w.inflight[s.job].store == store && w.inflight[s.job].key == key)
  {
  }

  lemma JudgedBefore(w: World, s: Step, c: Candidate)
    requires Enabled(w, s) && c in Apply(w, s).judged
    ensures c in w.judged || (s.DoJudge? && c.at == w.now && !ReferencedIn(w, c.key, c.store))
  {
  }

  lemma NamedMeansYoung(w: World, f: Found, delay: int)
    requires ClockOk(w) && NamedLate(w, delay) && NoDangling(w) && f in w.found && Unrewritten(w, f)
    ensures ReferencedIn(w, f.candidate.key, f.candidate.store) ==> f.candidate.at - delay <= f.written
  {
    var c := f.candidate;
    if r :| r in w.rows && w.rows[r].key == c.key && w.rows[r].store == c.store {
      assert Stored(w, c.store, c.key);
    }
  }

  lemma GraceStep(w: World, f: Found, delay: int, span: int, grace: int)
    requires ClockOk(w) && NamedLate(w, delay) && NoDangling(w) && Enabled(w, DoCollect(f, grace))
    requires Timely(w, DoCollect(f, grace), delay, span, grace) && delay + span < grace
    ensures Safe(w, DoCollect(f, grace))
  {
    NamedMeansYoung(w, f, delay);
    hide NamedLate, ReferencedIn, NoDangling;
  }

  /** All the steps but collections are safe where they happen. */
  predicate OthersSafe(w: World, steps: seq<Step>)
    requires ValidRun(w, steps)
    decreases |steps|
  {
    steps == [] || ((steps[0].DoCollect? || Safe(w, steps[0])) && OthersSafe(Apply(w, steps[0]), steps[1..]))
  }

  /**
   What the grace period is for. If every registration and flip follows its object's last write
   within `delay`, every collection deletes within `span` of reading the rows and only the objects it
   listed, and the grace period is longer than both together, then no collection takes a row's bytes.
   */
  lemma {:induction false} GraceProtects(w: World, steps: seq<Step>, delay: int, span: int, grace: int)
    requires ClockOk(w) && NamedLate(w, delay) && NoDangling(w) && 0 <= delay && delay + span < grace
    requires ValidRun(w, steps) && OthersSafe(w, steps) && AllTimely(w, steps, delay, span, grace)
    ensures NeverDangles(w, steps)
    decreases |steps|
  {
    if steps != [] {
      var s := steps[0];
      if s.DoCollect? {
        GraceStep(w, s.found, delay, span, grace);
      }
      SafeStep(w, s);
      ClockStep(w, s);
      NamedLateStep(w, s, delay, span, grace);
      GraceProtects(Apply(w, s), steps[1..], delay, span, grace);
    }
  }

  /** A resumed migration's flip is not timely: it repoints rows to an object as old as the run that left it. */
  lemma ResumedFlipFeedsTheCollector(w: World, f: Found, t: nat, repo: Id, source: Id, r: nat, grace: int)
    requires var c := f.candidate;
             f in w.found && HasStore(w, c.store) && HasStore(w, source) && source != c.store && !IsBackup(c.key)
             && Stored(w, c.store, c.key) && w.objects[c.store][c.key].written == f.written
                   && grace <= w.now - f.written
             && t !in w.inflight && !Locked(w, c.key)
             && r in w.rows && w.rows[r].repo == repo && w.rows[r].key == c.key && w.rows[r].store == source
             && Stored(w, source, c.key) && |w.objects[source][c.key].bytes| == w.rows[r].size
    ensures var c := f.candidate;
            var steps := [DoStage(t, repo, c.key, source, c.store, w.rows[r].size, true), DoFlip(t, false),
                         DoCollect(f, grace)];
            ValidRun(w, steps) && r in Exec(w, steps).rows && BytesOf(Exec(w, steps), r) == None
  {
    var c := f.candidate;
    var s1, s2, s3 := DoStage(t, repo, c.key, source, c.store, w.rows[r].size, true),
                      DoFlip(t, false), DoCollect(f, grace);
    var w1 := Apply(w, s1);
    assert !Locked(w1, c.key);
    assert SourceUnchanged(w1, w1.inflight[t]);
    var w2 := Apply(w1, s2);
    assert r in w2.rows && w2.rows[r].store == c.store && f in w2.found && w2.now == w.now;
    ThreeSteps(w, s1, s2, s3);
  }
}
