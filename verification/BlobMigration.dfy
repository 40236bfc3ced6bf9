/** Moving a repository's blobs to another store: copy, check, then repoint and drop, one key at a time. */
module BlobMigration {
  import opened Prelude
  import opened Blobs
  import opened BlobWorld
  import opened BlobSafety
  import opened BlobBooks
  import opened BlobLedger

  /**
   A flip that finds its source unchanged leaves a row without bytes exactly when the target no
   longer holds the key and the repository still has a row of it.
   */
  lemma FlipDanglesExactlyWithoutTheCopy(w: World, t: nat, stays: bool)
    requires NoDangling(w) && Enabled(w, DoFlip(t, stays)) && SourceUnchanged(w, w.inflight[t])
    ensures var j := w.inflight[t];
            NoDangling(FlipKey(w, t, stays)) <==> Stored(w, j.store, j.key) || !RepoNames(w, j.repo, j.key)
  {
    SafeFlip(w, t, stays);
  }

  // ---------------------------------------------------------------- whose bytes a migrated row reads

  /** One key migrated with nothing in between: staged unless the target has it, checked, flipped. */
  function Migrated(w: World, repo: Id, key: string, source: Id, target: Id, listed: nat): World
    requires w.inflight == map[] && Enabled(w, DoStage(0, repo, key, source, target, listed, Stored(w, target, key)))
  {
    var resumed := Stored(w, target, key);
    var staged := StageKey(w, 0, repo, key, source, target, listed, resumed);
    var checked := if resumed then staged else CheckKey(staged, 0, true);
    FlipKey(checked, 0, false)
  }

  /**
   Every row of the key that lay in the source reads the same bytes afterwards exactly when the
   target held no object under the key before, or the very same bytes, or the flip gave up on the
   listed size. (With the right length but other bytes, the rows are silently given those.)
   */
  lemma MigratedRowsKeepTheirBytes(w: World, repo: Id, key: string, source: Id, target: Id, listed: nat, r: nat)
    requires w.inflight == map[] && Enabled(w, DoStage(0, repo, key, source, target, listed, Stored(w, target, key)))
    requires r in w.rows && w.rows[r] == Row(repo, key, source, w.rows[r].size) && Stored(w, source, key)
    ensures BytesOf(Migrated(w, repo, key, source, target, listed), r) == BytesOf(w, r)
            <==> || !Stored(w, target, key)
                 || w.objects[target][key].bytes == w.objects[source][key].bytes
                 || listed != |w.objects[source][key].bytes|
  {
    var resumed := Stored(w, target, key);
    var staged := StageKey(w, 0, repo, key, source, target, listed, resumed);
    var checked := if resumed then staged else CheckKey(staged, 0, true);
    assert 0 in checked.inflight && checked.inflight[0].key == key && checked.inflight[0].store == target;
    FlippedRow(checked, 0, r);
  }

  lemma FlippedRow(w: World, t: nat, r: nat)
    requires Copying(w, t) && r in w.rows && w.rows[r].key == w.inflight[t].key && w.rows[r].repo == w.inflight[t].repo
    requires Stored(w, w.inflight[t].store, w.inflight[t].key)
    ensures var j := w.inflight[t];
            BytesOf(FlipKey(w, t, false), r)
            == if SourceUnchanged(w, j) then Some(w.objects[j.store][j.key].bytes) else BytesOf(w, r)
  {
  }

  /**
   The stale copy is reachable: a migration copies and charges a key, the client overwrites the
   key with bytes of another length, and the flip sees that and gives up, leaving the copy behind.
   */
  lemma FailedFlipLeavesTheCopy(w: World, repo: Id, key: string, source: Id, target: Id, r: nat, bytes: string)
    requires w.inflight == map[] && Enabled(w, DoStage(0, repo, key, source, target, 0, false))
            && !Stored(w, target, key)
    requires r in w.rows && w.rows[r] == Row(repo, key, source, w.rows[r].size)
    requires |bytes| != |w.objects[source][key].bytes|
    ensures var steps := [DoStage(0, repo, key, source, target, 0, false), DoCheck(0, true)]
                        + Overwriting(repo, key, source, r, bytes);
            ValidRun(w, steps) && Overtaken(w, Exec(w, steps), repo, key, source, target, r, bytes)
  {
    var staging := [DoStage(0, repo, key, source, target, 0, false), DoCheck(0, true)];
    var staged := Apply(w, staging[0]);
    var checked := Apply(staged, staging[1]);
    assert checked.inflight == map[0 := Copy(key, target, 0, repo, source, |w.objects[source][key].bytes|, 0, true)];
    OneStep(staged, staging[1]);
    assert staging[1..] == [staging[1]];
    hide CheckKey, StageKey;
    OvertakenFlip(checked, repo, key, source, target, r, bytes);
    RunsJoin(w, staging, Overwriting(repo, key, source, r, bytes));
  }

  /** An overwrite of the key, and then the flip. */
  function Overwriting(repo: Id, key: string, source: Id, r: nat, bytes: string): seq<Step> {
    [DoPut(1, r, repo, key, source, bytes, false), DoRegister(1), DoFlip(0, false)]
  }

  /** The row reads the client's bytes in the source, and the target still has those the migration copied. */
  predicate Overtaken(w: World, w': World, repo: Id, key: string, source: Id, target: Id, r: nat, bytes: string)
    requires Stored(w, source, key)
  {
    && w'.inflight == map[] && r in w'.rows && w'.rows[r] == Row(repo, key, source, |bytes|)
    && BytesOf(w', r) == Some(bytes)
    && Stored(w', target, key) && w'.objects[target][key].bytes == w.objects[source][key].bytes
    && HasStore(w', source) && HasStore(w', target)
  }

  lemma OvertakenFlip(w: World, repo: Id, key: string, source: Id, target: Id, r: nat, bytes: string)
    requires HasStore(w, source) && HasStore(w, target) && source != target && !IsBackup(key) && Stored(w, source, key)
    requires Stored(w, target, key) && w.objects[target][key].bytes == w.objects[source][key].bytes
    requires exists n :: w.inflight ==
                                map[0 := Copy(key, target, 0, repo, source, |w.objects[source][key].bytes|, n, true)]
    requires r in w.rows && |bytes| != |w.objects[source][key].bytes|
    ensures var steps := Overwriting(repo, key, source, r, bytes);
            ValidRun(w, steps) && Overtaken(w, Exec(w, steps), repo, key, source, target, r, bytes)
  {
    var put := Apply(w, DoPut(1, r, repo, key, source, bytes, false));
    var registered := Apply(put, DoRegister(1));
    assert registered.inflight == w.inflight;
    assert !SourceUnchanged(registered, registered.inflight[0]);
    ThreeSteps(w, DoPut(1, r, repo, key, source, bytes, false), DoRegister(1), DoFlip(0, false));
  }

  /** The next run finds that copy, trusts it, and its flip hands the row the overwritten bytes back. */
  lemma SecondRunServesStaleBytes(w0: World, w: World, repo: Id, key: string, source: Id, target: Id, r: nat,
                                  bytes: string)
    requires Stored(w0, source, key) && Overtaken(w0, w, repo, key, source, target, r, bytes)
    requires source != target && !IsBackup(key)
    ensures BytesOf(w, r) == Some(bytes)
            && BytesOf(Migrated(w, repo, key, source, target, |bytes|), r) == Some(w0.objects[source][key].bytes)
  {
    var staged := StageKey(w, 0, repo, key, source, target, |bytes|, true);
    FlippedRow(staged, 0, r);
  }

  // ---------------------------------------------------------------- when others write in between

  /** The write `t` goes on, and but for its own check nothing is written or deleted at its place. */
  predicate LeftAlone(w: World, steps: seq<Step>, t: nat)
    requires ValidRun(w, steps)
    decreases |steps|
  {
    && t in w.inflight
    && (steps == []
        || (&& (Site(w, steps[0]) == Some((w.inflight[t].store, w.inflight[t].key)) ==>
                  steps[0].DoCheck? && steps[0].job == t)
            && LeftAlone(Apply(w, steps[0]), steps[1..], t)))
  }

  /** What a copy wrote stays as it wrote it until it flips, if it is let alone. */
  lemma {:induction false} CopyStaysAsWritten(w: World, steps: seq<Step>, t: nat)
    requires ValidRun(w, steps) && LeftAlone(w, steps, t) && w.inflight[t].Copy?
    requires Stored(w, w.inflight[t].store, w.inflight[t].key)
    ensures var w', j := Exec(w, steps), w.inflight[t];
            && t in w'.inflight && w'.inflight[t] in {j, j.(grown := 0, ready := true)}
            && Stored(w', j.store, j.key) && w'.objects[j.store][j.key] == w.objects[j.store][j.key]
    decreases |steps|
  {
    if steps != [] {
      CopyStep(w, steps[0], t);
      CopyStaysAsWritten(Apply(w, steps[0]), steps[1..], t);
    }
  }

  lemma CopyStep(w: World, s: Step, t: nat)
    requires Enabled(w, s) && t in w.inflight && t in Apply(w, s).inflight && w.inflight[t].Copy?
    requires Stored(w, w.inflight[t].store, w.inflight[t].key)
    requires Site(w, s) == Some((w.inflight[t].store, w.inflight[t].key)) ==> s.DoCheck? && s.job == t
    ensures var w', j := Apply(w, s), w.inflight[t];
            && w'.inflight[t] in {j, j.(grown := 0, ready := true)}
            && Stored(w', j.store, j.key) && w'.objects[j.store][j.key] == w.objects[j.store][j.key]
  {
    var j := w.inflight[t];
    if s.DoCheck? && s.job == t {
      CheckedStays(w, t, s.measured);
    } else {
      ElsewhereStays(w, s, j.store, j.key);
    }
  }

  /**
   Whatever others do to the source and its rows between a migration's copy and its flip, so long as
   they let the copy alone: a row the flip moves reads on what its source held then exactly when
   that is what was copied, or the length gave the change away and the flip gave up.
   */
  lemma FlippedRowReadsItsBytesExactly(w0: World, stage: Step, steps: seq<Step>, r: nat, stays: bool)
    requires stage.DoStage? && !stage.resumed && Enabled(w0, stage)
    requires ValidRun(Apply(w0, stage), steps) && LeftAlone(Apply(w0, stage), steps, stage.job)
    requires var w := Exec(Apply(w0, stage), steps);
             Enabled(w, DoFlip(stage.job, stays)) && Stored(w, stage.source, stage.key)
             && r in w.rows && w.rows[r] == Row(stage.repo, stage.key, stage.source, w.rows[r].size)
    ensures var w := Exec(Apply(w0, stage), steps);
            var now, copied := w.objects[stage.source][stage.key].bytes, w0.objects[stage.source][stage.key].bytes;
            BytesOf(FlipKey(w, stage.job, stays), r) == BytesOf(w, r) <==> now == copied || |now| != |copied|
  {
    CopyStaysAsWritten(Apply(w0, stage), steps, stage.job);
    FlippedReads(Exec(Apply(w0, stage), steps), stage.job, r, stays);
    hide FlipKey, LeftAlone;
  }

  lemma FlippedReads(w: World, t: nat, r: nat, stays: bool)
    requires Copying(w, t) && r in w.rows && w.rows[r].key == w.inflight[t].key && w.rows[r].repo == w.inflight[t].repo
    requires w.rows[r].store == w.inflight[t].source && Stored(w, w.inflight[t].source, w.inflight[t].key)
    requires Stored(w, w.inflight[t].store, w.inflight[t].key)
    ensures var j := w.inflight[t];
            BytesOf(FlipKey(w, t, stays), r)
            == if SourceUnchanged(w, j) then Some(w.objects[j.store][j.key].bytes) else BytesOf(w, r)
  {
  }

  /**
   Which does happen: an overwrite of the same length, written and registered between copy and flip,
   is lost. The row reads what was there before it.
   */
  lemma SameLengthOverwriteIsLost(w: World, repo: Id, key: string, source: Id, target: Id, r: nat, bytes: string)
    requires w.inflight == map[] && Enabled(w, DoStage(0, repo, key, source, target, 0, false))
    requires r in w.rows && w.rows[r] == Row(repo, key, source, w.rows[r].size)
    requires |bytes| == |w.objects[source][key].bytes|
    ensures var steps := [DoStage(0, repo, key, source, target, 0, false), DoCheck(0, true)]
                         + Overwriting(repo, key, source, r, bytes);
            ValidRun(w, steps) && BytesOf(Exec(w, steps), r) == Some(w.objects[source][key].bytes)
  {
    var staging := [DoStage(0, repo, key, source, target, 0, false), DoCheck(0, true)];
    var staged := Apply(w, staging[0]);
    var checked := Apply(staged, staging[1]);
    assert checked.inflight == map[0 := Copy(key, target, 0, repo, source, |w.objects[source][key].bytes|, 0, true)];
    OneStep(staged, staging[1]);
    assert staging[1..] == [staging[1]];
    hide CheckKey, StageKey;
    SameLengthFlip(checked, repo, key, source, target, r, bytes);
    RunsJoin(w, staging, Overwriting(repo, key, source, r, bytes));
  }

  lemma SameLengthFlip(w: World, repo: Id, key: string, source: Id, target: Id, r: nat, bytes: string)
    requires HasStore(w, source) && HasStore(w, target) && source != target && !IsBackup(key) && Stored(w, target, key)
    requires w.inflight == map[0 := Copy(key, target, 0, repo, source, |bytes|, 0, true)] && r in w.rows
    ensures var steps := Overwriting(repo, key, source, r, bytes);
            ValidRun(w, steps) && BytesOf(Exec(w, steps), r) == Some(w.objects[target][key].bytes)
  {
    var put := Apply(w, DoPut(1, r, repo, key, source, bytes, false));
    var registered := Apply(put, DoRegister(1));
    assert registered.inflight == w.inflight;
    FlippedReads(registered, 0, r, false);
    ThreeSteps(w, DoPut(1, r, repo, key, source, bytes, false), DoRegister(1), DoFlip(0, false));
    hide FlipKey;
  }

  // ---------------------------------------------------------------- a run

  /** One (key, source store, size) a migration has to move. */
  datatype Item = Item(key: string, source: Id, size: nat)

  datatype Status = Running | Done | Failed | Cancelled

  /** The listing: each key of the repository lying in another store, with that store. */
  predicate Listed(w: World, repo: Id, target: Id, items: seq<Item>) {
    && (forall r :: r in w.rows && w.rows[r].repo == repo && w.rows[r].store != target ==>
          Item(w.rows[r].key, w.rows[r].store, w.rows[r].size) in items)
    && (forall i :: i in items ==> i.source != target && !IsBackup(i.key) && OfRow(w, repo, i))
  }

  predicate OfRow(w: World, repo: Id, i: Item) {
    exists r :: r in w.rows && w.rows[r] == Row(repo, i.key, i.source, i.size)
  }

  /** The target holds nothing under the listed keys, or an object of the listed length. */
  predicate TargetFits(w: World, target: Id, items: seq<Item>) {
    forall i :: i in items && Stored(w, target, i.key) ==> Measures(w, target, i.key, i.size)
  }

  /** Every listed key has one length: that of its rows, and of its object in its source and in the target. */
  ghost predicate Fits(w: World, target: Id, items: seq<Item>) {
    && (forall i, k :: i in items && k in items && i.key == k.key ==> i.size == k.size)
    && (forall i :: i in items ==>
          && RowsMeasure(w, i.key, i.size)
          && (Stored(w, i.source, i.key) ==> Measures(w, i.source, i.key, i.size)))
    && TargetFits(w, target, items)
  }

  lemma ListedFits(w: World, repo: Id, target: Id, items: seq<Item>)
    requires Listed(w, repo, target, items) && TrueSizes(w) && OneLength(w) && TargetFits(w, target, items)
    ensures Fits(w, target, items)
  {
    forall i | i in items
      ensures RowsMeasure(w, i.key, i.size) && Measures(w, i.source, i.key, i.size)
              && exists r :: r in w.rows && w.rows[r].key == i.key && w.rows[r].size == i.size
    {
      assert OfRow(w, repo, i);
      var r :| r in w.rows && w.rows[r] == Row(repo, i.key, i.source, i.size);
      ListedMeasures(w, r);
    }
  }

  /** If counters and sizes were right and the listed keys had one length, all this is so still. */
  ghost predicate BooksKept(w: World, w': World, target: Id, items: seq<Item>) {
    InOrder(w) && Fits(w, target, items) ==> InOrder(w') && Fits(w', target, items)
  }

  lemma BooksSelf(w: World, target: Id, items: seq<Item>)
    ensures BooksKept(w, w, target, items)
  {
  }

  /** Every store's used_bytes is the total of its non-backup objects. */
  ghost predicate CountersRight(w: World) {
    forall s :: s in w.objects ==> s in w.used && w.used[s] == Total(w.objects[s])
  }

  lemma RunStarts(w: World, repo: Id, target: Id, items: seq<Item>, content: map<string, string>)
    requires Listed(w, repo, target, items)
    ensures BooksKept(w, w, target, items) && ContentKept(w, w, repo, target, items, content) && Reaches(w, w)
    ensures OnlyMoved(w.rows, w.rows, repo, target) && forall i :: i in items ==> i.source != target && !IsBackup(i.key)
  {
    hide InOrder, Fits, OneContent;
    ReachesSelf(w);
  }

  lemma RunEnds(w0: World, w: World, repo: Id, target: Id, items: seq<Item>, content: map<string, string>)
    requires Listed(w0, repo, target, items) && w.inflight == map[]
    requires BooksKept(w0, w, target, items) && ContentKept(w0, w, repo, target, items, content)
    ensures InOrder(w0) && TargetFits(w0, target, items) ==> TrueSizes(w) && CountersRight(w)
    ensures OneContent(w0, repo, target, items, content) ==> SameBytes(w0, w)
  {
    if InOrder(w0) && TargetFits(w0, target, items) {
      ListedFits(w0, repo, target, items);
      hide Fits;
      forall s | s in w.objects ensures s in w.used && w.used[s] == Total(w.objects[s]) {
        CountersAtRest(w, s);
      }
    }
  }

  lemma BooksThen(w: World, middle: World, w': World, target: Id, items: seq<Item>)
    requires BooksKept(w, middle, target, items) && BooksKept(middle, w', target, items)
    ensures BooksKept(w, w', target, items)
  {
    hide InOrder, Fits;
  }

  /** Each of a migration's steps keeps them, staged from an item and with nothing else in flight. */
  lemma MigrationStepKeepsBooks(w: World, s: Step, target: Id, items: seq<Item>)
    requires Enabled(w, s)
    requires (s.DoStage? && w.inflight == map[] && s.target == target && Item(s.key, s.source, s.listed) in items
              && s.resumed == Stored(w, target, s.key))
             || ((s.DoCheck? || s.DoFlip? || s.DoForget?) && w.inflight.Keys == {s.job} && w.inflight[s.job].Copy?
                 && w.inflight[s.job].store == target && (s.DoForget? ==> w.inflight[s.job].ready)
                 && (exists n :: Item(w.inflight[s.job].key, w.inflight[s.job].source, n) in items))
    ensures BooksKept(w, Apply(w, s), target, items)
  {
    if InOrder(w) && Fits(w, target, items) {
      assert Regular(w, s);
      RegularStep(w, s);
      StepFits(w, s, target, items);
    }
  }

  lemma StepFits(w: World, s: Step, target: Id, items: seq<Item>)
    requires Enabled(w, s) && Fits(w, target, items)
    requires (s.DoStage? && s.target == target && Item(s.key, s.source, s.listed) in items)
             || ((s.DoCheck? || s.DoFlip? || s.DoForget?) && w.inflight[s.job].Copy?)
    ensures Fits(Apply(w, s), target, items)
  {
  }

  ghost predicate Reaches(w: World, w': World) {
    exists steps :: ValidRun(w, steps) && Exec(w, steps) == w'
  }

  lemma ReachesSelf(w: World)
    ensures Reaches(w, w)
  {
    assert ValidRun(w, []) && Exec(w, []) == w;
  }

  lemma {:induction false} RunsJoin(w: World, a: seq<Step>, b: seq<Step>)
    requires ValidRun(w, a) && ValidRun(Exec(w, a), b)
    ensures ValidRun(w, a + b) && Exec(w, a + b) == Exec(Exec(w, a), b)
    decreases |a|
  {
    if a == [] {
      assert a + b == b;
    } else {
      RunsJoin(Apply(w, a[0]), a[1..], b);
      assert (a + b)[1..] == a[1..] + b;
    }
  }

  lemma ReachesOn(w: World, middle: World, w': World)
    requires Reaches(w, middle) && Reaches(middle, w')
    ensures Reaches(w, w')
  {
    var a :| ValidRun(w, a) && Exec(w, a) == middle;
    var b :| ValidRun(middle, b) && Exec(middle, b) == w';
    RunsJoin(w, a, b);
  }

  lemma ReachesThen(w: World, middle: World, s: Step)
    requires Reaches(w, middle) && Enabled(middle, s)
    ensures Reaches(w, Apply(middle, s))
  {
    OneStep(middle, s);
    ReachesOn(w, middle, Apply(middle, s));
  }

  /** Rows only ever move to the target, and only the repository's. */
  predicate OnlyMoved(before: map<nat, Row>, after: map<nat, Row>, repo: Id, target: Id) {
    && after.Keys == before.Keys
    && forall r :: r in before ==>
         after[r] == before[r] || (before[r].repo == repo && after[r] == before[r].(store := target))
  }

  predicate KeyMoved(w: World, repo: Id, target: Id, key: string) {
    forall r :: r in w.rows && w.rows[r].repo == repo && w.rows[r].key == key ==> w.rows[r].store == target
  }

  /** Whatever holds bytes of a listed key, source, target or the repository's rows, agrees on them. */
  ghost predicate OneContent(w: World, repo: Id, target: Id, items: seq<Item>, content: map<string, string>) {
    forall i :: i in items ==>
      && i.key in content
      && (Stored(w, i.source, i.key) ==> w.objects[i.source][i.key].bytes == content[i.key])
      && (Stored(w, target, i.key) ==> w.objects[target][i.key].bytes == content[i.key])
      && (forall r :: r in w.rows && w.rows[r].repo == repo && w.rows[r].key == i.key ==>
              BytesOf(w, r) == Some(content[i.key]))
  }

  ghost predicate SameBytes(w: World, w': World) {
    w'.rows.Keys == w.rows.Keys && forall r :: r in w.rows ==> BytesOf(w', r) == BytesOf(w, r)
  }

  /** If the listed keys had one content, they still have it, and every row reads what it read. */
  ghost predicate ContentKept(w: World, w': World, repo: Id, target: Id, items: seq<Item>,
                              content: map<string, string>) {
    OneContent(w, repo, target, items, content) ==> SameBytes(w, w') && OneContent(w', repo, target, items, content)
  }

  lemma ContentSelf(w: World, repo: Id, target: Id, items: seq<Item>, content: map<string, string>)
    ensures ContentKept(w, w, repo, target, items, content)
  {
  }

  lemma ContentThen(w: World, middle: World, w': World, repo: Id, target: Id, items: seq<Item>,
                    content: map<string, string>)
    requires ContentKept(w, middle, repo, target, items, content)
            && ContentKept(middle, w', repo, target, items, content)
    ensures ContentKept(w, w', repo, target, items, content)
  {
    hide OneContent;
  }

  lemma FlipKeepsContent(w: World, t: nat, stays: bool, items: seq<Item>, content: map<string, string>)
    requires NoDangling(w) && Enabled(w, DoFlip(t, stays)) && Stored(w, w.inflight[t].store, w.inflight[t].key)
    requires exists n :: Item(w.inflight[t].key, w.inflight[t].source, n) in items
    ensures NoDangling(FlipKey(w, t, stays))
            && ContentKept(w, FlipKey(w, t, stays), w.inflight[t].repo, w.inflight[t].store, items, content)
  {
    var w', j := FlipKey(w, t, stays), w.inflight[t];
    SafeFlip(w, t, stays);
    var n :| Item(j.key, j.source, n) in items;
    if OneContent(w, j.repo, j.store, items, content) {
      forall r | r in w.rows ensures BytesOf(w', r) == BytesOf(w, r) {
        assert Stored(w, w.rows[r].store, w.rows[r].key) && Stored(w', w'.rows[r].store, w'.rows[r].key);
      }
    }
  }

  lemma StageKeepsContent(w: World, s: Step, items: seq<Item>, content: map<string, string>)
    requires NoDangling(w) && s.DoStage? && Enabled(w, s) && (!s.resumed ==> !Stored(w, s.target, s.key))
    requires exists n :: Item(s.key, s.source, n) in items
    ensures NoDangling(Apply(w, s)) && ContentKept(w, Apply(w, s), s.repo, s.target, items, content)
  {
    var w' := Apply(w, s);
    var n :| Item(s.key, s.source, n) in items;
    if OneContent(w, s.repo, s.target, items, content) {
      forall r | r in w.rows ensures BytesOf(w', r) == BytesOf(w, r) {
        assert Stored(w, w.rows[r].store, w.rows[r].key);
      }
    }
  }

  lemma CheckKeepsContent(w: World, t: nat, measured: bool, repo: Id, items: seq<Item>, content: map<string, string>)
    requires NoDangling(w) && Enabled(w, DoCheck(t, measured))
            && !ReferencedIn(w, w.inflight[t].key, w.inflight[t].store)
    ensures NoDangling(CheckKey(w, t, measured))
            && ContentKept(w, CheckKey(w, t, measured), repo, w.inflight[t].store, items, content)
  {
    var w', j := CheckKey(w, t, measured), w.inflight[t];
    SafeStep(w, DoCheck(t, measured));
    if OneContent(w, repo, j.store, items, content) {
      forall r | r in w.rows ensures BytesOf(w', r) == BytesOf(w, r) {
        assert Stored(w, w.rows[r].store, w.rows[r].key) && Stored(w', w'.rows[r].store, w'.rows[r].key);
      }
    }
  }

  lemma ForgetKeepsContent(w: World, t: nat, repo: Id, target: Id, items: seq<Item>, content: map<string, string>)
    requires NoDangling(w)
    ensures NoDangling(Without(w, t)) && ContentKept(w, Without(w, t), repo, target, items, content)
  {
    assert forall r :: BytesOf(Without(w, t), r) == BytesOf(w, r);
  }

  class BlobStoreMigration {
    var world: World
    var doneAssets: nat
    var doneBytes: nat
    var status: Status

    constructor (world: World)
      ensures this.world == world && doneAssets == 0 && doneBytes == 0 && status == Running
    {
      this.world := world;
      doneAssets, doneBytes, status := 0, 0, Running;
    }

    method Finish(s: Status)
      modifies this`status
      ensures status == s
    {
      status := s;
    }

    /**
     Gets the key to the target, unless it is there: written, and the source measured again. Any
     lookup, read or write may fail, and a copy whose source changed is deleted again.
     */
    method CopyKey(repo: Id, target: Id, item: Item, ghost items: seq<Item>, ghost content: map<string, string>)
      returns (ok: bool)
      requires NoDangling(world) && world.inflight == map[] && item in items && item.source != target
              && !IsBackup(item.key)
      requires HasStore(world, target) && HasStore(world, item.source)
      modifies this`world
      ensures Reaches(old(world), world) && NoDangling(world) && world.rows == old(world.rows)
      ensures world.used.Keys == old(world).used.Keys && world.objects.Keys == old(world).objects.Keys
      ensures !ok ==> world.inflight == map[]
      ensures ok ==> world.inflight.Keys == {0} && Enabled(world, DoFlip(0, false)) && Stored(world, target, item.key)
                     && world.inflight[0].key == item.key && world.inflight[0].store == target
                     && world.inflight[0].source == item.source && world.inflight[0].repo == repo
      ensures ContentKept(old(world), world, repo, target, items, content)
      ensures BooksKept(old(world), world, target, items)
      ensures ok ==> exists n :: Item(world.inflight[0].key, world.inflight[0].source, n) in items
    {
      hide OneContent, SameBytes, Reaches, BooksKept;
      ghost var w0 := world;
      BooksSelf(w0, target, items);
      ReachesSelf(w0);
      ContentSelf(w0, repo, target, items, content);
      var fails: bool := *;
      var resumed := Stored(world, target, item.key);
      if fails || (!resumed && !Stored(world, item.source, item.key)) {
        return false;
      }
      assert Item(item.key, item.source, item.size) in items;
      ghost var stage := DoStage(0, repo, item.key, item.source, target, item.size, resumed);
      StageKeepsContent(w0, stage, items, content);
      ReachesThen(w0, w0, stage);
      MigrationStepKeepsBooks(w0, stage, target, items);
      world := StageKey(world, 0, repo, item.key, item.source, target, item.size, resumed);
      if resumed {
        return true;
      }
      ghost var w1 := world;
      var measured: bool := *;
      assert !ReferencedIn(w1, item.key, target);
      CheckKeepsContent(w1, 0, measured, repo, items, content);
      ReachesThen(w0, w1, DoCheck(0, measured));
      MigrationStepKeepsBooks(w1, DoCheck(0, measured), target, items);
      ok := measured && SourceUnchanged(world, world.inflight[0]);
      world := CheckKey(world, 0, measured);
      ContentThen(w0, w1, world, repo, target, items, content);
      BooksThen(w0, w1, world, target, items);
    }

    /**
     One key: copied unless the target has it, then repointed and dropped under the key's lock.
     Any step may fail; the key has moved exactly when `ok`.
     */
    method MigrateKey(repo: Id, target: Id, item: Item, ghost items: seq<Item>, ghost content: map<string, string>)
      returns (ok: bool)
      requires NoDangling(world) && world.inflight == map[] && item in items && item.source != target
              && !IsBackup(item.key)
      requires HasStore(world, target) && HasStore(world, item.source)
      modifies this`world
      ensures Reaches(old(world), world) && NoDangling(world) && world.inflight == map[]
      ensures world.used.Keys == old(world).used.Keys && world.objects.Keys == old(world).objects.Keys
      ensures OnlyMoved(old(world.rows), world.rows, repo, target)
      ensures ok ==> KeyMoved(world, repo, target, item.key)
      ensures !ok ==> world.rows == old(world.rows)
      ensures ContentKept(old(world), world, repo, target, items, content)
      ensures BooksKept(old(world), world, target, items)
    {
      hide OneContent, SameBytes, Reaches, ContentKept, BooksKept;
      ghost var w0 := world;
      ok := CopyKey(repo, target, item, items, content);
      if !ok { return; }
      ghost var w1 := world;
      var lockFails: bool := *;
      if lockFails {
        ForgetKeepsContent(w1, 0, repo, target, items, content);
        ReachesThen(w0, w1, DoForget(0));
        MigrationStepKeepsBooks(w1, DoForget(0), target, items);
        world := Without(world, 0);
        ContentThen(w0, w1, world, repo, target, items, content);
        BooksThen(w0, w1, world, target, items);
        return false;
      }
      var stays: bool := *;
      ok := SourceUnchanged(world, world.inflight[0]);
      assert Item(w1.inflight[0].key, w1.inflight[0].source, item.size) in items;
      FlipKeepsContent(w1, 0, stays, items, content);
      FlipMovesRows(w1, 0, stays);
      ReachesThen(w0, w1, DoFlip(0, stays));
      MigrationStepKeepsBooks(w1, DoFlip(0, stays), target, items);
      world := FlipKey(world, 0, stays);
      ContentThen(w0, w1, world, repo, target, items, content);
      BooksThen(w0, w1, world, target, items);
    }

    /**
     Moves every listed key, stopping where a key fails, the lock's deadline passes or an operator
     cancels. However it ends, no row of any repository is left without bytes; done means every
     row of the repository lies in the target; rows keep the bytes they read if the listed keys had
     one content to begin with; and where counters and sizes were right, and the target held nothing
     of another length under a listed key, every store's counter is what it holds.
     */
    method RunMigration(repo: Id, target: Id, items: seq<Item>, ghost content: map<string, string>)
      requires NoDangling(world) && world.inflight == map[] && Listed(world, repo, target, items)
      requires HasStore(world, target) && forall i :: i in items ==> HasStore(world, i.source)
      requires doneAssets == 0 && doneBytes == 0
      modifies this
      ensures Reaches(old(world), world) && NoDangling(world)
      ensures status == Done || status == Failed || status == Cancelled
      ensures OnlyMoved(old(world.rows), world.rows, repo, target)
      ensures status == Done ==>
                doneAssets == |items| && forall r :: r in world.rows && world.rows[r].repo == repo ==>
                       world.rows[r].store == target
      ensures doneAssets <= |items| && forall k :: 0 <= k < doneAssets ==> KeyMoved(world, repo, target, items[k].key)
      ensures OneContent(old(world), repo, target, items, content) ==> SameBytes(old(world), world)
      ensures InOrder(old(world)) && TargetFits(old(world), target, items) ==>
                TrueSizes(world) && CountersRight(world)
    {
      hide OneContent, SameBytes, Reaches, NoDangling, KeyMoved, OnlyMoved, BooksKept, InOrder, TargetFits, Listed,
        TrueSizes, CountersRight, ContentKept;
      ghost var w0 := world;
      RunStarts(w0, repo, target, items, content);
      for i := 0 to |items|
        invariant Reaches(w0, world) && NoDangling(world) && world.inflight == map[]
        invariant world.used.Keys == w0.used.Keys && world.objects.Keys == w0.objects.Keys
        invariant OnlyMoved(w0.rows, world.rows, repo, target)
        invariant doneAssets == i && forall k :: 0 <= k < i ==> KeyMoved(world, repo, target, items[k].key)
        invariant ContentKept(w0, world, repo, target, items, content)
        invariant BooksKept(w0, world, target, items)
      {
        var pastDeadline: bool := *;
        var cancelled: bool := *;
        if pastDeadline || cancelled {
          RunEnds(w0, world, repo, target, items, content);
          Finish(Cancelled);
          return;
        }
        ghost var before := world;
        var ok := MigrateKey(repo, target, items[i], items, content);
        MovedThen(w0, before, world, repo, target, items, i);
        ReachesOn(w0, before, world);
        ContentThen(w0, before, world, repo, target, items, content);
        BooksThen(w0, before, world, target, items);
        if !ok {
          RunEnds(w0, world, repo, target, items, content);
          Finish(Failed);
          return;
        }
        doneAssets := doneAssets + 1;
        doneBytes := doneBytes + items[i].size;
      }
      AllMoved(w0, world, repo, target, items);
      RunEnds(w0, world, repo, target, items, content);
      Finish(Done);
    }
  }

  lemma MovedThen(w0: World, before: World, w: World, repo: Id, target: Id, items: seq<Item>, n: nat)
    requires n <= |items| && OnlyMoved(w0.rows, before.rows, repo, target)
            && OnlyMoved(before.rows, w.rows, repo, target)
    requires forall k :: 0 <= k < n ==> KeyMoved(before, repo, target, items[k].key)
    ensures OnlyMoved(w0.rows, w.rows, repo, target)
    ensures forall k :: 0 <= k < n ==> KeyMoved(w, repo, target, items[k].key)
  {
  }

  /** A row of the repository is in the target already, or its key was listed and has moved. */
  lemma AllMoved(w0: World, w: World, repo: Id, target: Id, items: seq<Item>)
    requires Listed(w0, repo, target, items) && OnlyMoved(w0.rows, w.rows, repo, target)
    requires forall k :: 0 <= k < |items| ==> KeyMoved(w, repo, target, items[k].key)
    ensures forall r :: r in w.rows && w.rows[r].repo == repo ==> w.rows[r].store == target
  {
    forall r | r in w.rows && w.rows[r].repo == repo ensures w.rows[r].store == target {
      if w0.rows[r].store != target {
        var k :| 0 <= k < |items| && items[k] == Item(w0.rows[r].key, w0.rows[r].store, w0.rows[r].size);
        assert KeyMoved(w, repo, target, items[k].key);
      }
    }
  }

  lemma FlipMovesRows(w: World, t: nat, stays: bool)
    requires Copying(w, t)
    ensures var w', j := FlipKey(w, t, stays), w.inflight[t];
            && OnlyMoved(w.rows, w'.rows, j.repo, j.store)
            && (if SourceUnchanged(w, j) then KeyMoved(w', j.repo, j.store, j.key) else w'.rows == w.rows)
            && w'.used.Keys == w.used.Keys && w'.objects.Keys == w.objects.Keys && w'.inflight == w.inflight - {t}
  {
  }
}
