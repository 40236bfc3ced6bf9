/**
 That no row loses its bytes, from what actors do alone: how they take turns on a key, and how long
 they take. Nothing here asks of a step whether it does harm.
 */
module BlobSchedule {
  import opened Prelude
  import opened Blobs
  import opened BlobWorld
  import opened BlobSafety

  // ---------------------------------------------------------------- taking turns

  predicate UploadOf(w: World, key: string) {
    exists t :: t in w.inflight && w.inflight[t].Upload? && w.inflight[t].key == key
  }

  /** An upload without the lock. */
  predicate LooseUploadOf(w: World, key: string) {
    exists t :: t in w.inflight && w.inflight[t].Upload? && !w.inflight[t].guarded && w.inflight[t].key == key
  }

  predicate CopyOf(w: World, key: string) {
    exists t :: t in w.inflight && w.inflight[t].Copy? && w.inflight[t].key == key
  }

  /**
   How the actors take turns. An upload under the lock is of a place no row names; one without the
   lock has its key to itself until it is done, deletes and flips included, and is refused only
   where no row names its place. Nobody writes where a migration is copying to, and a migration
   copies to a place no row names, one copy of a key at a time.
   */
  predicate InTurn(w: World, s: Step)
    requires Enabled(w, s)
  {
    match s
    case DoPut(_, _, _, key, store, _, guarded) =>
      !Occupied(w, store, key)
      && if guarded then !ReferencedIn(w, key, store) && !LooseUploadOf(w, key) else !UploadOf(w, key)
    case DoRefuse(t) => w.inflight[t].guarded || !ReferencedIn(w, w.inflight[t].key, w.inflight[t].store)
    case DoDelete(r, _) => !LooseUploadOf(w, w.rows[r].key)
    case DoFlip(t, _) => !LooseUploadOf(w, w.inflight[t].key)
    case DoStage(_, _, key, _, target, _, _) =>
      !ReferencedIn(w, key, target) && !Occupied(w, target, key) && !CopyOf(w, key)
    case _ => true
  }

  predicate AllInTurn(w: World, steps: seq<Step>)
    requires ValidRun(w, steps)
    decreases |steps|
  {
    steps == [] || (InTurn(w, steps[0]) && AllInTurn(Apply(w, steps[0]), steps[1..]))
  }

  /** Whoever is at work finds its object. */
  ghost predicate Backed(w: World) {
    forall t :: t in w.inflight ==> Stored(w, w.inflight[t].store, w.inflight[t].key)
  }

  /** Only a loose upload's place may be named. */
  ghost predicate Unnamed(w: World) {
    forall t :: t in w.inflight && (w.inflight[t].Copy? || w.inflight[t].guarded) ==>
      !ReferencedIn(w, w.inflight[t].key, w.inflight[t].store)
  }

  /** One upload and one copy of a key at most, and not in one place. */
  ghost predicate Apart(w: World) {
    forall t, u :: t in w.inflight && u in w.inflight && t != u && w.inflight[t].key == w.inflight[u].key ==>
      w.inflight[t].store != w.inflight[u].store && (w.inflight[t].Copy? <==> w.inflight[u].Upload?)
  }

  ghost predicate Held(w: World) {
    Backed(w) && Unnamed(w) && Apart(w)
  }

  lemma ApartStep(w: World, s: Step)
    requires Apart(w) && Enabled(w, s) && InTurn(w, s)
    ensures Apart(Apply(w, s))
  {
    var w' := Apply(w, s);
    forall t, u | t in w'.inflight && u in w'.inflight && t != u && w'.inflight[t].key == w'.inflight[u].key
      ensures w'.inflight[t].store != w'.inflight[u].store && (w'.inflight[t].Copy? <==> w'.inflight[u].Upload?)
    {
      if t !in w.inflight {
        NewIsApart(w, s, t, u);
      } else if u !in w.inflight {
        NewIsApart(w, s, u, t);
      } else {
        SamePlace(w, s, t);
        SamePlace(w, s, u);
      }
      hide Apply, Enabled, InTurn;
    }
  }

  lemma NewIsApart(w: World, s: Step, t: nat, u: nat)
    requires Enabled(w, s) && InTurn(w, s) && t != u
    requires t !in w.inflight && t in Apply(w, s).inflight && u in Apply(w, s).inflight
    ensures var j, k := Apply(w, s).inflight[t], Apply(w, s).inflight[u];
            j.key == k.key ==> j.store != k.store && (j.Copy? <==> k.Upload?)
  {
  }

  lemma BackedStep(w: World, s: Step)
    requires Held(w) && Enabled(w, s) && InTurn(w, s) && !s.DoCollect?
    ensures Backed(Apply(w, s))
  {
    forall t | t in Apply(w, s).inflight
      ensures Stored(Apply(w, s), Apply(w, s).inflight[t].store, Apply(w, s).inflight[t].key)
    {
      if t in w.inflight {
        SamePlace(w, s, t);
        StaysBacked(w, s, t);
        hide Apply, Enabled;
      }
    }
  }

  lemma SamePlace(w: World, s: Step, t: nat)
    requires Enabled(w, s) && t in w.inflight && t in Apply(w, s).inflight
    ensures var j, j' := w.inflight[t], Apply(w, s).inflight[t];
            j'.store == j.store && j'.key == j.key && j'.Copy? == j.Copy? && (j.Upload? ==> j' == j)
  {
  }

  lemma StaysBacked(w: World, s: Step, t: nat)
    requires Held(w) && Enabled(w, s) && InTurn(w, s) && !s.DoCollect? && t in w.inflight && t in Apply(w, s).inflight
    ensures Stored(Apply(w, s), w.inflight[t].store, w.inflight[t].key)
  {
    var j := w.inflight[t];
    if !Stored(Apply(w, s), j.store, j.key) {
      OnlyTheseTakeBytes(w, s, j.store, j.key);
    }
  }

  lemma UnnamedStep(w: World, s: Step)
    requires Held(w) && Enabled(w, s) && InTurn(w, s)
    ensures Unnamed(Apply(w, s))
  {
    var w' := Apply(w, s);
    forall t | t in w'.inflight && (w'.inflight[t].Copy? || w'.inflight[t].guarded)
      ensures !ReferencedIn(w', w'.inflight[t].key, w'.inflight[t].store)
    {
      if t in w.inflight {
        SamePlace(w, s, t);
        StaysUnnamed(w, s, t);
        hide Apply, Enabled, InTurn;
      }
    }
  }

  /** Only a registration or a flip brings a row to a place, and each job has its own. */
  lemma StaysUnnamed(w: World, s: Step, t: nat)
    requires Held(w) && Enabled(w, s) && t in w.inflight && t in Apply(w, s).inflight
    requires w.inflight[t].Copy? || w.inflight[t].guarded
    ensures !ReferencedIn(Apply(w, s), w.inflight[t].key, w.inflight[t].store)
  {
    var w', j := Apply(w, s), w.inflight[t];
    if r :| r in w'.rows && w'.rows[r].key == j.key && w'.rows[r].store == j.store {
      NamedBefore(w, s, r, j.store, j.key);
    }
  }

  /** A job's place changes hands in no step but its own. */
  lemma HeldStep(w: World, s: Step)
    requires Held(w) && Enabled(w, s) && InTurn(w, s) && !s.DoCollect?
    ensures Held(Apply(w, s))
  {
    ApartStep(w, s);
    BackedStep(w, s);
    UnnamedStep(w, s);
  }

  lemma InTurnIsSafe(w: World, s: Step)
    requires Held(w) && Enabled(w, s) && InTurn(w, s) && !s.DoCollect?
    ensures Safe(w, s)
  {
  }

  /**
   Over every interleaving of uploads, mounts, deletes and migrations that take turns in this way, and
   with no collection, no row is ever without its bytes.
   */
  lemma {:induction false} NoRowLosesItsBytes(w: World, steps: seq<Step>)
    requires NoDangling(w) && Held(w)
    requires ValidRun(w, steps) && AllInTurn(w, steps) && forall i :: 0 <= i < |steps| ==> !steps[i].DoCollect?
    ensures NeverDangles(w, steps) && Held(Exec(w, steps))
    decreases |steps|
  {
    if steps != [] {
      InTurnIsSafe(w, steps[0]);
      SafeStep(w, steps[0]);
      HeldStep(w, steps[0]);
      NoRowLosesItsBytes(Apply(w, steps[0]), steps[1..]);
    }
  }

  // ---------------------------------------------------------------- and taking no longer than one may

  /**
   How they keep to their times: no write is in flight for longer than `delay`, a migration resumes
   no copy older than that, and a collection deletes within `span` of reading the rows, past the
   grace period and only what it listed.
   */
  predicate Prompt(w: World, s: Step, delay: int, span: int, grace: int)
    requires Enabled(w, s)
  {
    match s
    case DoTick(d) => Young(w.(now := w.now + d), delay)
    case DoStage(_, _, key, _, target, _, resumed) => resumed ==> Fresh(w, target, key, delay)
    case DoCollect(f, g) => w.now - f.candidate.at <= span && g == grace && Unrewritten(w, f)
    case _ => true
  }

  /** Every write in flight is young. */
  predicate Young(w: World, delay: int) {
    forall t :: t in w.inflight ==> Fresh(w, w.inflight[t].store, w.inflight[t].key, delay)
  }

  predicate AllPrompt(w: World, steps: seq<Step>, delay: int, span: int, grace: int)
    requires ValidRun(w, steps)
    decreases |steps|
  {
    steps == []
    || (Prompt(w, steps[0], delay, span, grace) && AllPrompt(Apply(w, steps[0]), steps[1..], delay, span, grace))
  }

  lemma YoungStep(w: World, s: Step, delay: int, span: int, grace: int)
    requires ClockOk(w) && Young(w, delay) && Held(w) && Enabled(w, s) && Prompt(w, s, delay, span, grace) && 0 <= delay
    ensures Young(Apply(w, s), delay)
  {
    var w' := Apply(w, s);
    forall t | t in w'.inflight ensures Fresh(w', w'.inflight[t].store, w'.inflight[t].key, delay) {
      if t in w.inflight {
        SamePlace(w, s, t);
        StaysYoung(w, s, t, delay, span, grace);
      } else {
        NewIsYoung(w, s, t, delay, span, grace);
      }
      hide Apply, Enabled, Prompt, Fresh;
    }
  }

  lemma StaysYoung(w: World, s: Step, t: nat, delay: int, span: int, grace: int)
    requires ClockOk(w) && Young(w, delay) && Held(w) && Enabled(w, s) && Prompt(w, s, delay, span, grace) && 0 <= delay
    requires t in w.inflight
    ensures Fresh(Apply(w, s), w.inflight[t].store, w.inflight[t].key, delay)
  {
    var j, w' := w.inflight[t], Apply(w, s);
    if Stored(w', j.store, j.key) {
      WrittenGrows(w, s, j.store, j.key);
      NowAfter(w, s);
      hide Apply, Enabled;
    }
  }

  lemma NowAfter(w: World, s: Step)
    requires Enabled(w, s)
    ensures Apply(w, s).now == w.now + if s.DoTick? then s.elapsed else 0
  {
  }

  lemma NewIsYoung(w: World, s: Step, t: nat, delay: int, span: int, grace: int)
    requires Enabled(w, s) && Prompt(w, s, delay, span, grace) && 0 <= delay
    requires t !in w.inflight && t in Apply(w, s).inflight
    ensures Fresh(Apply(w, s), Apply(w, s).inflight[t].store, Apply(w, s).inflight[t].key, delay)
  {
  }

  /** Nobody is at work where a collection deletes. */
  lemma CollectedIsIdle(w: World, f: Found, delay: int, span: int, grace: int)
    requires Held(w) && Young(w, delay) && Enabled(w, DoCollect(f, grace)) && delay < grace
    requires Prompt(w, DoCollect(f, grace), delay, span, grace)
    ensures !Occupied(w, f.candidate.store, f.candidate.key)
  {
  }

  lemma HeldCollect(w: World, f: Found, grace: int)
    requires Held(w) && Enabled(w, DoCollect(f, grace)) && !Occupied(w, f.candidate.store, f.candidate.key)
    ensures Held(Apply(w, DoCollect(f, grace)))
  {
  }

  /**
   And with collections: if besides everybody keeps to these times, and the grace period is longer
   than a write and a pass together, no row is ever without its bytes either.
   */
  lemma {:induction false} RowsOutliveCollections(w: World, steps: seq<Step>, delay: int, span: int, grace: int)
    requires NoDangling(w) && Held(w) && ClockOk(w) && NamedLate(w, delay) && Young(w, delay)
    requires 0 <= delay && 0 <= span && delay + span < grace
    requires ValidRun(w, steps) && AllInTurn(w, steps) && AllPrompt(w, steps, delay, span, grace)
    ensures NeverDangles(w, steps)
    decreases |steps|
  {
    if steps != [] {
      var s := steps[0];
      assert Timely(w, s, delay, span, grace);
      if s.DoCollect? {
        CollectedIsIdle(w, s.found, delay, span, grace);
        HeldCollect(w, s.found, grace);
        GraceStep(w, s.found, delay, span, grace);
      } else {
        InTurnIsSafe(w, s);
        HeldStep(w, s);
      }
      SafeStep(w, s);
      ClockStep(w, s);
      NamedLateStep(w, s, delay, span, grace);
      YoungStep(w, s, delay, span, grace);
      hide Held, NamedLate, ClockOk, Young, Prompt, InTurn, Enabled, Apply;
      RowsOutliveCollections(Apply(w, s), steps[1..], delay, span, grace);
    }
  }
}
