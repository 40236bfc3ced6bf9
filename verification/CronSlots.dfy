/**
 One run per cron slot across nodes whose clocks disagree by any amount. A node's tick takes the
 lock, looks at what was recorded last, runs if the slot has not run, records the start it read
 off its own clock, and gives the lock back. The lock may lapse under its holder at any moment, the
 look may fail and so may the recording. Times are seconds on some node's clock.

 Two jobs work this way. Replication compares with the run that started latest, and people may
 start runs by hand; scheduled backup compares with the run recorded last.
 */
module CronSlots {
  import opened Prelude

  const SLOT_SKEW := 10
  const MINUTE := 60

  datatype Guard = LatestStarted | LastRecorded

  /** Where a node is with a slot (the minute its tick is for); `at` is its clock when the tick fired. */
  datatype Phase =
    | Idle
    | Ticked(slot: int, at: int)
    | Holding(slot: int, at: int)
    | Cleared(slot: int, at: int)
    | Running(slot: int, started: int)
    | Recorded

  /** `starts` lists the slots of the scheduled runs started so far. */
  datatype State = State(nodes: map<nat, Phase>, lock: Option<nat>, history: seq<int>, starts: seq<int>)

  datatype Step =
    | DoTick(node: nat, slot: int, at: int)
    | DoAcquire(node: nat)
    | DoGiveUp(node: nat)
    | DoAcquireUnlocked(node: nat)
    | DoExpire
    | DoCheck(node: nat)
    | DoCheckBlind(node: nat)
    | DoStart(node: nat, started: int)
    | DoRecord(node: nat)
    | DoLoseRecord(node: nat)
    | DoRelease(node: nat)
    | DoManual(started: int)

  function Truncate(at: int): int {
    at / MINUTE * MINUTE
  }

  /** The earliest start that still belongs to the slot of a tick firing at `at`. */
  function SlotStart(at: int): int {
    Truncate(at) - SLOT_SKEW
  }

  function Largest(h: seq<int>): (m: int)
    requires h != []
    ensures m in h && forall x :: x in h ==> x <= m
  {
    if |h| == 1 then h[0]
    else
      assert forall x :: x in h ==> x == h[0] || x in h[1..];
      var rest := Largest(h[1..]);
      if h[0] < rest then rest else h[0]
  }

  /** The recorded start a guard looks at. */
  function Latest(g: Guard, h: seq<int>): Option<int> {
    if h == [] then None
    else match g
      case LatestStarted => Some(Largest(h))
      case LastRecorded => Some(h[|h| - 1])
  }

  /** The slot of a tick firing at `at` has run, as far as the guard can tell. */
  predicate RanSince(g: Guard, h: seq<int>, at: int) {
    Latest(g, h).Some? && SlotStart(at) <= Latest(g, h).value
  }

  function PhaseOf(s: State, n: nat): Phase {
    if n in s.nodes then s.nodes[n] else Idle
  }

  function Move(s: State, n: nat, p: Phase): State {
    s.(nodes := s.nodes[n := p])
  }

  predicate Enabled(g: Guard, s: State, step: Step) {
    match step
    case DoTick(n, _, _) => PhaseOf(s, n).Idle?
    case DoAcquire(n) => PhaseOf(s, n).Ticked? && s.lock.None?
    case DoGiveUp(n) => PhaseOf(s, n).Ticked? && s.lock.Some?
    case DoAcquireUnlocked(n) => PhaseOf(s, n).Ticked? && g == LastRecorded
    case DoExpire => s.lock.Some?
    case DoCheck(n) => PhaseOf(s, n).Holding?
    case DoCheckBlind(n) => PhaseOf(s, n).Holding?
    case DoStart(n, started) =>
      PhaseOf(s, n).Cleared? && PhaseOf(s, n).at <= started && (g == LastRecorded ==> started == PhaseOf(s, n).at)
    case DoRecord(n) => PhaseOf(s, n).Running?
    case DoLoseRecord(n) => PhaseOf(s, n).Running?
    case DoRelease(n) => PhaseOf(s, n).Recorded?
    case DoManual(_) => g == LatestStarted
  }

  function Apply(g: Guard, s: State, step: Step): State
    requires Enabled(g, s, step)
  {
    match step
    case DoTick(n, slot, at) => Move(s, n, Ticked(slot, at))
    case DoAcquire(n) => Move(s, n, Holding(PhaseOf(s, n).slot, PhaseOf(s, n).at)).(lock := Some(n))
    case DoGiveUp(n) => Move(s, n, Idle)
    case DoAcquireUnlocked(n) => Move(s, n, Holding(PhaseOf(s, n).slot, PhaseOf(s, n).at))
    case DoExpire => s.(lock := None)
    case DoCheckBlind(n) => Move(s, n, Cleared(PhaseOf(s, n).slot, PhaseOf(s, n).at))
    case DoLoseRecord(n) => Move(s, n, Recorded)
    case DoCheck(n) =>
      var p := PhaseOf(s, n);
      if RanSince(g, s.history, p.at) then Move(s, n, Recorded) else Move(s, n, Cleared(p.slot, p.at))
    case DoStart(n, started) =>
      Move(s, n, Running(PhaseOf(s, n).slot, started)).(starts := s.starts + [PhaseOf(s, n).slot])
    case DoRecord(n) => Move(s, n, Recorded).(history := s.history + [PhaseOf(s, n).started])
    case DoRelease(n) => Move(s, n, Idle).(lock := if s.lock == Some(n) then None else s.lock)
    case DoManual(started) => s.(history := s.history + [started])
  }

  predicate ValidRun(g: Guard, s: State, steps: seq<Step>)
    decreases |steps|
  {
    steps == [] || (Enabled(g, s, steps[0]) && ValidRun(g, Apply(g, s, steps[0]), steps[1..]))
  }

  function Exec(g: Guard, s: State, steps: seq<Step>): State
    requires ValidRun(g, s, steps)
    decreases |steps|
  {
    if steps == [] then s else Exec(g, Apply(g, s, steps[0]), steps[1..])
  }

  const QUIET := State(map[], None, [], [])

  /** A tick fires within its minute by its own clock. */
  predicate OnTime(step: Step) {
    match step
    case DoTick(_, slot, at) => slot * MINUTE <= at < (slot + 1) * MINUTE
    case _ => true
  }

  predicate AllOnTime(steps: seq<Step>) {
    forall i :: 0 <= i < |steps| ==> OnTime(steps[i])
  }

  /** Past its check, and not recorded. */
  predicate UnderWay(p: Phase) {
    p.Cleared? || p.Running?
  }

  /** A node is between its check and its record without the lock. */
  predicate Exposed(s: State) {
    exists n :: n in s.nodes && UnderWay(s.nodes[n]) && s.lock != Some(n)
  }

  /** A look that could not be taken, or a start that could not be recorded. */
  predicate Blind(step: Step) {
    step.DoCheckBlind? || step.DoLoseRecord?
  }

  /** Somewhere in the run a node is exposed, a look fails, or a recording does. */
  predicate Mishap(g: Guard, s: State, steps: seq<Step>)
    requires ValidRun(g, s, steps)
    decreases |steps|
  {
    steps != [] && (Blind(steps[0]) || Exposed(Apply(g, s, steps[0])) || Mishap(g, Apply(g, s, steps[0]), steps[1..]))
  }

  /** A started slot is remembered: by a recorded start no earlier than it, or by the run still under way. */
  predicate Remembered(g: Guard, s: State, slot: int) {
    || (Latest(g, s.history).Some? && slot * MINUTE <= Latest(g, s.history).value)
    || (s.lock.Some? && PhaseOf(s, s.lock.value).Running? && slot * MINUTE <= PhaseOf(s, s.lock.value).started)
  }

  /** A node carries the slot its tick was for. */
  ghost predicate InvNodes(s: State) {
    forall n :: n in s.nodes ==>
      var p := s.nodes[n];
      && (p.Ticked? || p.Holding? || p.Cleared? ==> p.slot * MINUTE <= p.at < (p.slot + 1) * MINUTE)
      && (p.Running? ==> p.slot * MINUTE <= p.started)
  }

  /** Where only the last record counts, a run is cleared and under way only past it. */
  ghost predicate InvAhead(g: Guard, s: State) {
    g == LastRecorded ==>
      forall n :: n in s.nodes ==>
        && (s.nodes[n].Cleared? ==> !RanSince(g, s.history, s.nodes[n].at))
        && (s.nodes[n].Running? && s.history != [] ==> Latest(g, s.history).value < s.nodes[n].started)
  }

  ghost predicate InvStarts(g: Guard, s: State) {
    && (forall slot :: slot in s.starts ==> Remembered(g, s, slot))
    && (forall i, j :: 0 <= i < j < |s.starts| ==> s.starts[i] != s.starts[j])
    && (forall n :: n in s.nodes && s.nodes[n].Cleared? ==> s.nodes[n].slot !in s.starts)
  }

  ghost predicate Inv(g: Guard, s: State) {
    InvNodes(s) && InvAhead(g, s) && InvStarts(g, s) && !Exposed(s)
  }

  lemma LatestGrows(g: Guard, h: seq<int>, x: int)
    ensures Latest(g, h + [x]).Some? && x <= Latest(g, h + [x]).value
    ensures g == LatestStarted && h != [] ==> Latest(g, h).Some? && Latest(g, h).value <= Latest(g, h + [x]).value
    ensures g == LastRecorded ==> Latest(g, h + [x]) == Some(x)
    ensures Latest(g, h).Some? <==> h != []
  {
    assert (h + [x])[|h|] == x && x in h + [x];
    assert forall y :: y in h ==> y in h + [x];
  }

  lemma NodesStep(g: Guard, s: State, step: Step)
    requires InvNodes(s) && Enabled(g, s, step) && OnTime(step)
    ensures InvNodes(Apply(g, s, step))
  {
    hide RanSince;
  }

  lemma AheadStep(g: Guard, s: State, step: Step)
    requires InvNodes(s) && InvAhead(g, s) && Enabled(g, s, step) && OnTime(step) && !Blind(step)
    requires !Exposed(s) && !Exposed(Apply(g, s, step))
    ensures InvAhead(g, Apply(g, s, step))
  {
    if g == LastRecorded {
      match step {
        case DoStart(n, _) => assert SlotStart(s.nodes[n].at) <= s.nodes[n].at;
        case DoRecord(n) => assert UnderWay(s.nodes[n]); hide SlotStart;
        case _ => hide Latest, SlotStart, Exposed;
      }
    }
  }

  /**
   A node whose look found nothing has a slot nobody started: a started one is recorded, or running
   under the lock.
   */
  lemma ClearedIsNew(g: Guard, s: State, n: nat)
    requires Inv(g, s) && n in s.nodes && s.nodes[n].Holding? && s.lock == Some(n)
            && !RanSince(g, s.history, s.nodes[n].at)
    ensures s.nodes[n].slot !in s.starts
  {
    var slot := s.nodes[n].slot;
    assert SlotStart(s.nodes[n].at) == slot * MINUTE - SLOT_SKEW;
    assert slot in s.starts ==> Remembered(g, s, slot);
  }

  lemma RememberedStep(g: Guard, s: State, step: Step, slot: int)
    requires Inv(g, s) && Enabled(g, s, step) && !Blind(step) && !Exposed(Apply(g, s, step)) && Remembered(g, s, slot)
    ensures Remembered(g, Apply(g, s, step), slot)
  {
    match step {
      case DoRecord(n) =>
        assert UnderWay(s.nodes[n]);
        LatestGrows(g, s.history, s.nodes[n].started);
        hide Latest;
      case DoManual(started) => LatestGrows(g, s.history, started); hide Latest;
      case DoExpire =>
        var s' := Apply(g, s, step);
        assert forall n :: n in s'.nodes ==> !UnderWay(s'.nodes[n]);
      case DoStart(n, _) => assert UnderWay(s.nodes[n]); hide Latest;
      case _ => hide Latest, RanSince, Exposed;
    }
  }

  lemma StartsStep(g: Guard, s: State, step: Step)
    requires Inv(g, s) && Enabled(g, s, step) && OnTime(step) && !Blind(step) && !Exposed(Apply(g, s, step))
    ensures InvStarts(g, Apply(g, s, step))
  {
    var s' := Apply(g, s, step);
    forall slot | slot in s.starts ensures Remembered(g, s', slot) {
      RememberedStep(g, s, step, slot);
    }
    match step {
      case DoStart(n, _) =>
        assert UnderWay(s.nodes[n]);
        assert Remembered(g, s', s.nodes[n].slot);
        assert forall m :: m in s.nodes && UnderWay(s.nodes[m]) ==> m == n;
        hide Remembered;
      case DoCheck(n) =>
        if s'.nodes[n].Cleared? {
          assert UnderWay(s'.nodes[n]);
          ClearedIsNew(g, s, n);
        }
        hide Remembered, RanSince;
      case _ => hide Remembered, RanSince;
    }
  }

  lemma InvStep(g: Guard, s: State, step: Step)
    requires Inv(g, s) && Enabled(g, s, step) && OnTime(step) && !Blind(step) && !Exposed(Apply(g, s, step))
    ensures Inv(g, Apply(g, s, step))
  {
    NodesStep(g, s, step);
    AheadStep(g, s, step);
    StartsStep(g, s, step);
    hide InvNodes, InvAhead, InvStarts, Exposed;
  }

  lemma {:induction false} InvRun(g: Guard, s: State, steps: seq<Step>)
    requires Inv(g, s) && ValidRun(g, s, steps) && AllOnTime(steps) && !Mishap(g, s, steps)
    ensures Inv(g, Exec(g, s, steps))
    decreases |steps|
  {
    hide Inv;
    if steps != [] {
      InvStep(g, s, steps[0]);
      InvRun(g, Apply(g, s, steps[0]), steps[1..]);
    }
  }

  /**
   Whatever the clocks say and however the nodes interleave, a slot starts at most one scheduled
   run, for replication (with any runs by hand in between) and for scheduled backup alike. If it
   starts two, then somewhere on the way a node was between its check and its record without the
   lock (it lapsed, or was never held), or a look or a recording failed.
   */
  lemma OneRunPerSlot(g: Guard, steps: seq<Step>, i: int, j: int)
    requires ValidRun(g, QUIET, steps) && AllOnTime(steps)
    requires 0 <= i < j < |Exec(g, QUIET, steps).starts|
    ensures Exec(g, QUIET, steps).starts[i] == Exec(g, QUIET, steps).starts[j] ==> Mishap(g, QUIET, steps)
  {
    if !Mishap(g, QUIET, steps) {
      InvRun(g, QUIET, steps);
    }
  }

  // ---------------------------------------------------------------- runs that show what can go wrong

  /** `states` are the states `steps` goes through, one after each step and one before the first. */
  predicate Trace(g: Guard, steps: seq<Step>, states: seq<State>) {
    && |states| == |steps| + 1
    && forall i :: 0 <= i < |steps| ==>
            Enabled(g, states[i], steps[i]) && Apply(g, states[i], steps[i]) == states[i + 1]
  }

  lemma {:induction false} TraceRuns(g: Guard, steps: seq<Step>, states: seq<State>)
    requires Trace(g, steps, states)
    ensures ValidRun(g, states[0], steps) && Exec(g, states[0], steps) == states[|steps|]
    decreases |steps|
  {
    if steps != [] {
      forall i | 0 <= i < |steps[1..]|
        ensures Enabled(g, states[1..][i], steps[1..][i])
                && Apply(g, states[1..][i], steps[1..][i]) == states[1..][i + 1]
      {
        assert Enabled(g, states[i + 1], steps[i + 1]) && Apply(g, states[i + 1], steps[i + 1]) == states[i + 2];
      }
      hide Enabled, Apply;
      TraceRuns(g, steps[1..], states[1..]);
    }
  }

  /** A run by hand a moment before the minute takes the slot's place, though it belongs to no slot. */
  lemma ManualRunTakesTheSlot()
    ensures var steps := [DoManual(55), DoTick(0, 1, 60), DoAcquire(0), DoCheck(0)];
            ValidRun(LatestStarted, QUIET, steps) && AllOnTime(steps)
            && PhaseOf(Exec(LatestStarted, QUIET, steps), 0).Recorded? && Exec(LatestStarted, QUIET, steps).starts == []
  {
    var g := LatestStarted;
    var states := [QUIET, State(map[], None, [55], []), State(map[0 := Ticked(1, 60)], None, [55], []),
                   State(map[0 := Holding(1, 60)], Some(0), [55], []), State(map[0 := Recorded], Some(0), [55], [])];
    assert Latest(g, [55]) == Some(55);
    assert Apply(g, states[0], DoManual(55)) == states[1];
    assert Apply(g, states[1], DoTick(0, 1, 60)) == states[2];
    assert Apply(g, states[2], DoAcquire(0)) == states[3];
    assert Apply(g, states[3], DoCheck(0)) == states[4];
    hide Apply, Latest, RanSince;
    TraceRuns(g, [DoManual(55), DoTick(0, 1, 60), DoAcquire(0), DoCheck(0)], states);
  }

  /** What a node does that goes through: `acquire` and `check` say how it gets past the lock and the look. */
  function Starting(n: nat, at: int, acquire: Step, check: Step): seq<Step> {
    [DoTick(n, 1, at), acquire, check, DoStart(n, at)]
  }

  predicate GoesThrough(g: Guard, s: State, n: nat, at: int, acquire: Step, check: Step) {
    && PhaseOf(s, n).Idle?
    && ((acquire == DoAcquire(n) && s.lock.None?) || (acquire == DoAcquireUnlocked(n) && g == LastRecorded))
    && (check == DoCheckBlind(n) || (check == DoCheck(n) && !RanSince(g, s.history, at)))
  }

  function Started(s: State, n: nat, at: int, acquire: Step): State {
    Move(s, n, Running(1, at)).(lock := if acquire.DoAcquire? then Some(n) else s.lock, starts := s.starts + [1])
  }

  lemma NodeStarts(g: Guard, s: State, n: nat, at: int, acquire: Step, check: Step)
    requires GoesThrough(g, s, n, at, acquire, check)
    ensures ValidRun(g, s, Starting(n, at, acquire, check))
            && Exec(g, s, Starting(n, at, acquire, check)) == Started(s, n, at, acquire)
  {
    var held := Move(s, n, Holding(1, at)).(lock := if acquire.DoAcquire? then Some(n) else s.lock);
    Acquires(g, s, n, at, acquire);
    ChecksAndStarts(g, held, n, at, check);
    assert Starting(n, at, acquire, check) == [DoTick(n, 1, at), acquire] + [check, DoStart(n, at)];
    assert Started(s, n, at, acquire) == Started(held, n, at, DoAcquireUnlocked(n));
    RunsJoin(g, s, [DoTick(n, 1, at), acquire], [check, DoStart(n, at)]);
    hide Exec, ValidRun;
  }

  lemma TwoSteps(g: Guard, s: State, a: Step, b: Step)
    requires Enabled(g, s, a) && Enabled(g, Apply(g, s, a), b)
    ensures ValidRun(g, s, [a, b]) && Exec(g, s, [a, b]) == Apply(g, Apply(g, s, a), b)
  {
    TraceRuns(g, [a, b], [s, Apply(g, s, a), Apply(g, Apply(g, s, a), b)]);
  }

  lemma Acquires(g: Guard, s: State, n: nat, at: int, acquire: Step)
    requires PhaseOf(s, n).Idle?
    requires (acquire == DoAcquire(n) && s.lock.None?) || (acquire == DoAcquireUnlocked(n) && g == LastRecorded)
    ensures var steps := [DoTick(n, 1, at), acquire];
            ValidRun(g, s, steps)
            && Exec(g, s, steps) == Move(s, n, Holding(1, at)).(lock := if acquire.DoAcquire? then Some(n) else s.lock)
  {
    var ticked := Apply(g, s, DoTick(n, 1, at));
    assert ticked.nodes[n] == Ticked(1, at);
    assert Apply(g, ticked, acquire).nodes == s.nodes[n := Holding(1, at)];
    TwoSteps(g, s, DoTick(n, 1, at), acquire);
  }

  lemma ChecksAndStarts(g: Guard, s: State, n: nat, at: int, check: Step)
    requires PhaseOf(s, n) == Holding(1, at)
    requires check == DoCheckBlind(n) || (check == DoCheck(n) && !RanSince(g, s.history, at))
    ensures var steps := [check, DoStart(n, at)];
            ValidRun(g, s, steps) && Exec(g, s, steps) == Started(s, n, at, DoAcquireUnlocked(n))
  {
    var cleared := Apply(g, s, check);
    assert cleared.nodes[n] == Cleared(1, at);
    assert Apply(g, cleared, DoStart(n, at)).nodes == s.nodes[n := Running(1, at)];
    TwoSteps(g, s, check, DoStart(n, at));
  }

  lemma {:induction false} RunsJoin(g: Guard, s: State, a: seq<Step>, b: seq<Step>)
    requires ValidRun(g, s, a) && ValidRun(g, Exec(g, s, a), b)
    ensures ValidRun(g, s, a + b) && Exec(g, s, a + b) == Exec(g, Exec(g, s, a), b)
    decreases |a|
  {
    hide Enabled, Apply;
    if a == [] {
      assert a + b == b;
    } else {
      assert (a + b)[0] == a[0] && (a + b)[1..] == a[1..] + b;
      RunsJoin(g, Apply(g, s, a[0]), a[1..], b);
    }
  }

  lemma OneMore(g: Guard, s: State, a: seq<Step>, step: Step)
    requires ValidRun(g, s, a) && Enabled(g, Exec(g, s, a), step)
    ensures ValidRun(g, s, a + [step]) && Exec(g, s, a + [step]) == Apply(g, Exec(g, s, a), step)
  {
    hide Enabled, Apply;
    assert [step][1..] == [] && Exec(g, Apply(g, Exec(g, s, a), step), []) == Apply(g, Exec(g, s, a), step);
    RunsJoin(g, s, a, [step]);
  }

  /** The first node's run of the slot, as it should be. */
  const FIRST := Starting(0, 60, DoAcquire(0), DoCheck(0))

  /** Whatever follows the first run, a second node that then goes through starts the slot again. */
  lemma SecondStarts(g: Guard, a: seq<Step>, at: int, acquire: Step, check: Step)
    requires ValidRun(g, QUIET, a) && Exec(g, QUIET, a).starts == [1]
    requires GoesThrough(g, Exec(g, QUIET, a), 1, at, acquire, check)
    ensures var steps := a + Starting(1, at, acquire, check);
            ValidRun(g, QUIET, steps) && Exec(g, QUIET, steps).starts == [1, 1]
  {
    NodeStarts(g, Exec(g, QUIET, a), 1, at, acquire, check);
    RunsJoin(g, QUIET, a, Starting(1, at, acquire, check));
    hide ValidRun, Exec, GoesThrough;
  }

  lemma FirstRuns(g: Guard)
    ensures ValidRun(g, QUIET, FIRST) && Exec(g, QUIET, FIRST) == State(map[0 := Running(1, 60)], Some(0), [], [1])
  {
    NodeStarts(g, QUIET, 0, 60, DoAcquire(0), DoCheck(0));
    hide ValidRun, Exec;
  }

  /** A lock that lapses under a run lets a second node run the slot. */
  lemma LapsedLockRunsTwice(g: Guard)
    ensures var steps := FIRST + [DoExpire] + Starting(1, 60, DoAcquire(1), DoCheck(1));
            ValidRun(g, QUIET, steps) && AllOnTime(steps) && Exec(g, QUIET, steps).starts == [1, 1]
  {
    FirstRuns(g);
    OneMore(g, QUIET, FIRST, DoExpire);
    SecondStarts(g, FIRST + [DoExpire], 60, DoAcquire(1), DoCheck(1));
    hide ValidRun, Exec;
  }

  lemma RecordLost(g: Guard)
    ensures var steps := FIRST + [DoLoseRecord(0)] + [DoRelease(0)];
            ValidRun(g, QUIET, steps) && Exec(g, QUIET, steps) == State(map[0 := Idle], None, [], [1])
  {
    FirstRuns(g);
    OneMore(g, QUIET, FIRST, DoLoseRecord(0));
    OneMore(g, QUIET, FIRST + [DoLoseRecord(0)], DoRelease(0));
    hide ValidRun, Exec;
  }

  /** So does a run whose record is lost. */
  lemma LostRecordRunsTwice(g: Guard)
    ensures var steps := FIRST + [DoLoseRecord(0)] + [DoRelease(0)] + Starting(1, 60, DoAcquire(1), DoCheck(1));
            ValidRun(g, QUIET, steps) && AllOnTime(steps) && Exec(g, QUIET, steps).starts == [1, 1]
  {
    RecordLost(g);
    SecondStarts(g, FIRST + [DoLoseRecord(0)] + [DoRelease(0)], 60, DoAcquire(1), DoCheck(1));
    hide ValidRun, Exec;
  }

  /** A run that is recorded and over. */
  const ONE_RUN := FIRST + [DoRecord(0)] + [DoRelease(0)]

  lemma OneRecorded(g: Guard)
    ensures ValidRun(g, QUIET, ONE_RUN)
    ensures Exec(g, QUIET, ONE_RUN) == State(map[0 := Idle], None, [60], [1])
  {
    FirstRuns(g);
    OneMore(g, QUIET, FIRST, DoRecord(0));
    OneMore(g, QUIET, FIRST + [DoRecord(0)], DoRelease(0));
    hide ValidRun, Exec;
  }

  /** And a look that fails: neither service takes that for a reason to skip. */
  lemma FailedLookRunsTwice(g: Guard)
    ensures var steps := ONE_RUN + Starting(1, 61, DoAcquire(1), DoCheckBlind(1));
            ValidRun(g, QUIET, steps) && AllOnTime(steps) && Exec(g, QUIET, steps).starts == [1, 1]
  {
    OneRecorded(g);
    SecondStarts(g, ONE_RUN, 61, DoAcquire(1), DoCheckBlind(1));
    hide ValidRun, Exec;
  }

  /** A tick for the same slot that reaches the guard a whole minute late is taken for the next slot and runs again. */
  lemma LateTickRunsAgain(g: Guard)
    ensures var steps := ONE_RUN + Starting(1, 131, DoAcquire(1), DoCheck(1));
            ValidRun(g, QUIET, steps) && Exec(g, QUIET, steps).starts == [1, 1]
  {
    OneRecorded(g);
    assert Latest(g, [60]) == Some(60);
    SecondStarts(g, ONE_RUN, 131, DoAcquire(1), DoCheck(1));
    hide ValidRun, Exec;
  }

  lemma StartingOnTime(n: nat, at: int, acquire: Step, check: Step)
    requires MINUTE <= at < 2 * MINUTE && !acquire.DoTick? && !check.DoTick?
    ensures AllOnTime(Starting(n, at, acquire, check))
  {
  }

  /**
   Scheduled backup runs without the lock when the lock backend cannot be reached, and two nodes
   then run one slot.
   */
  lemma UnreachableLockRunsTwice()
    ensures var steps := Starting(0, 60, DoAcquireUnlocked(0), DoCheck(0))
                        + Starting(1, 60, DoAcquireUnlocked(1), DoCheck(1));
            ValidRun(LastRecorded, QUIET, steps) && AllOnTime(steps)
                 && Exec(LastRecorded, QUIET, steps).starts == [1, 1]
  {
    var first := Starting(0, 60, DoAcquireUnlocked(0), DoCheck(0));
    NodeStarts(LastRecorded, QUIET, 0, 60, DoAcquireUnlocked(0), DoCheck(0));
    SecondStarts(LastRecorded, first, 60, DoAcquireUnlocked(1), DoCheck(1));
    hide ValidRun, Exec, Starting, OnTime;
    StartingOnTime(0, 60, DoAcquireUnlocked(0), DoCheck(0));
    StartingOnTime(1, 60, DoAcquireUnlocked(1), DoCheck(1));
  }
}
