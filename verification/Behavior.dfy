/** The per-track behavioural classifier: candidate selection by precedence, then hysteresis. */
module Behavior {
  import opened TrackIds
  import opened Rounding

  datatype BehavioralState = NORMAL | APPROACHING | DEPARTING | LOITERING | RAPID_CHANGE | COORDINATED | ANOMALOUS

  datatype ClassifierConfig = ClassifierConfig(
    approachingVelocity: real, departingVelocity: real, loiterMinRadius: real, loiterMaxConsistency: real,
    rapidTurnRate: real, rapidAcceleration: real, anomalousScore: real, coordinatedMinSize: int,
    enterTicks: int, exitTicks: int)

  datatype ClassifierInput = ClassifierInput(
    trackId: Id, timestamp: real, acceleration: real, turnRate: real, directionalConsistency: Option<real>,
    loiterRadius: Option<real>, anomalyScore: Option<real>, closingVelocity: Option<real>,
    groupId: Option<Id>, groupMemberCount: Option<int>)

  datatype ClassifierState = ClassifierState(
    currentState: BehavioralState, stateStart: Option<real>, candidateState: Option<BehavioralState>,
    candidateTicks: int, exitCandidate: Option<BehavioralState>, exitTicksCount: int,
    previousState: Option<BehavioralState>, lastTransition: Option<real>)

  const FRESH := ClassifierState(NORMAL, None, None, 0, None, 0, None, None)

  datatype BehaviorClassification = BehaviorClassification(
    trackId: Id, state: BehavioralState, duration: real, evaluatedAt: real)

  /** The first state, in precedence order, whose indicators fire. */
  function Candidate(inp: ClassifierInput, cfg: ClassifierConfig): BehavioralState {
    if Abs(inp.turnRate) > cfg.rapidTurnRate || Abs(inp.acceleration) > cfg.rapidAcceleration then RAPID_CHANGE
    else if inp.anomalyScore.Some? && inp.anomalyScore.value >= cfg.anomalousScore then ANOMALOUS
    else if inp.groupId.Some? && inp.groupMemberCount.Some? && inp.groupMemberCount.value >= cfg.coordinatedMinSize
    then COORDINATED
    else if inp.closingVelocity.Some? && inp.closingVelocity.value > cfg.approachingVelocity then APPROACHING
    else if inp.closingVelocity.Some? && inp.closingVelocity.value < cfg.departingVelocity then DEPARTING
    else if inp.loiterRadius.Some? && inp.directionalConsistency.Some?
            && inp.loiterRadius.value > cfg.loiterMinRadius
            && inp.directionalConsistency.value < cfg.loiterMaxConsistency then LOITERING
    else NORMAL
  }

  /** One evaluation of the hysteresis machine for a given candidate. */
  function Step(s: ClassifierState, candidate: BehavioralState, enterTicks: int, now: real): ClassifierState {
    if candidate == s.currentState then
      s.(stateStart := Some(if s.stateStart.Some? then s.stateStart.value else now),
         candidateState := None, candidateTicks := 0, exitCandidate := None, exitTicksCount := 0)
    else
      var accumulated := if s.candidateState == Some(candidate) then s.candidateTicks + 1 else 1;
      if accumulated >= enterTicks then
        ClassifierState(candidate, Some(now), None, 0, None, 0, Some(s.currentState), Some(now))
      else
        var leaving := s.exitCandidate == Some(s.currentState);
        s.(stateStart := Some(if s.stateStart.Some? then s.stateStart.value else now),
           candidateState := Some(candidate), candidateTicks := accumulated,
           exitCandidate := Some(s.currentState),
           exitTicksCount := if leaving then s.exitTicksCount + 1 else 1)
  }

  function Classify(inp: ClassifierInput, state: Option<ClassifierState>, cfg: ClassifierConfig)
    : (BehaviorClassification, ClassifierState)
  {
    var s := if state.Some? then state.value else FRESH;
    var t := Step(s, Candidate(inp, cfg), cfg.enterTicks, inp.timestamp);
    var duration := if t.stateStart.Some? then Max(0.0, inp.timestamp - t.stateStart.value) else 0.0;
    (BehaviorClassification(inp.trackId, t.currentState, RoundTo(duration, 100.0), inp.timestamp), t)
  }

  // ----- The machine as a function of the candidate history -----

  /** An evaluation: its candidate and its timestamp. */
  type Tick = (BehavioralState, real)

  function Run(ticks: seq<Tick>, enterTicks: int): ClassifierState {
    if ticks == [] then FRESH
    else
      var last := ticks[|ticks| - 1];
      Step(Run(ticks[..|ticks| - 1], enterTicks), last.0, enterTicks, last.1)
  }

  /** The last n candidates up to position `end` are all `kind`. */
  ghost predicate Streak(ticks: seq<Tick>, end: int, n: int, kind: BehavioralState) {
    0 <= end - n && end <= |ticks| && forall i | end - n <= i < end :: ticks[i].0 == kind
  }

  ghost predicate AnyStreak(ticks: seq<Tick>, end: int, n: int) {
    exists kind :: Streak(ticks, end, n, kind)
  }

  /** `kind` is the label of the latest full streak, or NORMAL when there has been none. */
  ghost predicate LatestLabel(ticks: seq<Tick>, n: int, kind: BehavioralState) {
    || (exists end :: Streak(ticks, end, n, kind) && forall e | end < e <= |ticks| :: !AnyStreak(ticks, e, n))
    || (kind == NORMAL && forall e | 0 <= e <= |ticks| :: !AnyStreak(ticks, e, n))
  }

  lemma PrefixStreaks(ticks: seq<Tick>, n: int)
    requires ticks != []
    ensures forall e, kind | e < |ticks| :: Streak(ticks, e, n, kind) == Streak(ticks[..|ticks| - 1], e, n, kind)
    ensures forall e | e < |ticks| :: AnyStreak(ticks, e, n) == AnyStreak(ticks[..|ticks| - 1], e, n)
  {
    var prefix := ticks[..|ticks| - 1];
    forall e, kind | e < |ticks| ensures Streak(ticks, e, n, kind) == Streak(prefix, e, n, kind) {
    }
    forall e | e < |ticks| ensures AnyStreak(ticks, e, n) == AnyStreak(prefix, e, n) {
      if l :| Streak(ticks, e, n, l) { assert Streak(prefix, e, n, l); }
      if l :| Streak(prefix, e, n, l) { assert Streak(ticks, e, n, l); }
    }
  }

  /** The pending counter is the current streak of a label other than the current state; with nothing
      pending the last candidate is the current state. */
  lemma {:induction false} PendingMeans(ticks: seq<Tick>, n: int)
    requires n >= 1
    ensures var s := Run(ticks, n);
            match s.candidateState
            case None => ticks == [] || ticks[|ticks| - 1].0 == s.currentState
            case Some(x) =>
              && x != s.currentState && 1 <= s.candidateTicks < n && s.candidateTicks <= |ticks|
              && Streak(ticks, |ticks|, s.candidateTicks, x)
              && (s.candidateTicks < |ticks| ==> ticks[|ticks| - 1 - s.candidateTicks].0 != x)
    decreases |ticks|
  {
    if ticks != [] {
      PendingMeans(ticks[..|ticks| - 1], n);
    }
  }

  /** A full streak ending now is a streak of the current state. */
  lemma StreakNow(ticks: seq<Tick>, n: int, kind: BehavioralState)
    requires n >= 1 && Streak(ticks, |ticks|, n, kind)
    ensures Run(ticks, n).currentState == kind
  {
    PendingMeans(ticks, n);
    assert ticks[|ticks| - 1].0 == kind;
  }

  /** The state changes only when a full streak of the new label is completed. */
  lemma ChangeIsStreak(ticks: seq<Tick>, n: int)
    requires n >= 1 && ticks != [] && Run(ticks, n).currentState != Run(ticks[..|ticks| - 1], n).currentState
    ensures Streak(ticks, |ticks|, n, Run(ticks, n).currentState)
  {
    PendingMeans(ticks[..|ticks| - 1], n);
  }

  /** After any history the current state is the label of the latest streak of `enterTicks` identical
      candidates (NORMAL if there was none). Exit counters and `exitTicks` play no part. */
  lemma {:induction false} StateIsLatestStreak(ticks: seq<Tick>, n: int)
    requires n >= 1
    ensures LatestLabel(ticks, n, Run(ticks, n).currentState)
    decreases |ticks|
  {
    if ticks == [] {
      assert forall kind :: !Streak(ticks, 0, n, kind);
    } else {
      var m, prefix := |ticks|, ticks[..|ticks| - 1];
      var kind := Run(ticks, n).currentState;
      StateIsLatestStreak(prefix, n);
      PrefixStreaks(ticks, n);
      if AnyStreak(ticks, m, n) {
        var l :| Streak(ticks, m, n, l);
        StreakNow(ticks, n, l);
        assert Streak(ticks, m, n, kind);
      } else {
        if kind != Run(prefix, n).currentState {
          ChangeIsStreak(ticks, n);
        }
        if end :| Streak(prefix, end, n, kind) && forall e | end < e <= |prefix| :: !AnyStreak(prefix, e, n) {
          forall e | end < e <= m ensures !AnyStreak(ticks, e, n) {
            if e < m { assert !AnyStreak(prefix, e, n); }
          }
          assert Streak(ticks, end, n, kind);
        } else {
          forall e | 0 <= e <= m ensures !AnyStreak(ticks, e, n) {
            if e < m { assert !AnyStreak(prefix, e, n); }
          }
        }
      }
    }
  }

  /** The description is unambiguous: there is only one such label. */
  lemma LatestLabelUnique(ticks: seq<Tick>, n: int, a: BehavioralState, b: BehavioralState)
    requires n >= 1 && LatestLabel(ticks, n, a) && LatestLabel(ticks, n, b)
    ensures a == b
  {
    if end :| Streak(ticks, end, n, a) && forall e | end < e <= |ticks| :: !AnyStreak(ticks, e, n) {
      assert AnyStreak(ticks, end, n);
      var other :| Streak(ticks, other, n, b) && forall e | other < e <= |ticks| :: !AnyStreak(ticks, e, n);
      assert AnyStreak(ticks, other, n);
      assert other == end;
      assert ticks[end - 1].0 == a && ticks[end - 1].0 == b;
    } else if other :| Streak(ticks, other, n, b) && forall e | other < e <= |ticks| :: !AnyStreak(ticks, e, n) {
      assert AnyStreak(ticks, other, n);
    }
  }

  /** The start of the current state never lies in the future of an ordered history, so durations are
      true elapsed times. */
  lemma {:induction false} StartNotLater(ticks: seq<Tick>, n: int)
    requires ticks != [] && forall i, j | 0 <= i < j < |ticks| :: ticks[i].1 <= ticks[j].1
    ensures Run(ticks, n).stateStart.Some?
    ensures ticks[0].1 <= Run(ticks, n).stateStart.value <= ticks[|ticks| - 1].1
    decreases |ticks|
  {
    if |ticks| > 1 {
      StartNotLater(ticks[..|ticks| - 1], n);
    }
  }

  // ----- What the candidate and the record mean -----

  /** The evidence for each state but NORMAL. */
  ghost predicate Indicated(inp: ClassifierInput, cfg: ClassifierConfig, kind: BehavioralState) {
    match kind
    case RAPID_CHANGE => inp.turnRate > cfg.rapidTurnRate || -inp.turnRate > cfg.rapidTurnRate
                         || inp.acceleration > cfg.rapidAcceleration || -inp.acceleration > cfg.rapidAcceleration
    case ANOMALOUS => exists a :: inp.anomalyScore == Some(a) && a >= cfg.anomalousScore
    case COORDINATED =>
      inp.groupId != None && exists n :: inp.groupMemberCount == Some(n) && n >= cfg.coordinatedMinSize
    case APPROACHING => exists v :: inp.closingVelocity == Some(v) && v > cfg.approachingVelocity
    case DEPARTING => exists v :: inp.closingVelocity == Some(v) && v < cfg.departingVelocity
    case LOITERING => exists r, d :: inp.loiterRadius == Some(r) && inp.directionalConsistency == Some(d)
                                     && r > cfg.loiterMinRadius && d < cfg.loiterMaxConsistency
    case NORMAL => true
  }

  /** Most urgent first. */
  const PRECEDENCE: seq<BehavioralState> :=
    [RAPID_CHANGE, ANOMALOUS, COORDINATED, APPROACHING, DEPARTING, LOITERING, NORMAL]

  /** The candidate is the most urgent state for which there is evidence. */
  lemma CandidateIsMostUrgent(inp: ClassifierInput, cfg: ClassifierConfig, i: nat)
    requires i < |PRECEDENCE|
    ensures Candidate(inp, cfg) == PRECEDENCE[i]
            <==> Indicated(inp, cfg, PRECEDENCE[i]) && forall j | 0 <= j < i :: !Indicated(inp, cfg, PRECEDENCE[j])
  {
    IndicatedRapid(inp, cfg);
    IndicatedOthers(inp, cfg);
    hide Indicated, Abs;
    var p := PRECEDENCE;
    assert p[0] == RAPID_CHANGE && p[1] == ANOMALOUS && p[2] == COORDINATED && p[3] == APPROACHING;
    assert p[4] == DEPARTING && p[5] == LOITERING && p[6] == NORMAL;
  }

  lemma IndicatedRapid(inp: ClassifierInput, cfg: ClassifierConfig)
    ensures Indicated(inp, cfg, RAPID_CHANGE)
            <==> Abs(inp.turnRate) > cfg.rapidTurnRate || Abs(inp.acceleration) > cfg.rapidAcceleration
  {
  }

  lemma IndicatedOthers(inp: ClassifierInput, cfg: ClassifierConfig)
    ensures Indicated(inp, cfg, ANOMALOUS) <==> inp.anomalyScore.Some? && inp.anomalyScore.value >= cfg.anomalousScore
    ensures Indicated(inp, cfg, COORDINATED)
            <==> inp.groupId.Some? && inp.groupMemberCount.Some? && inp.groupMemberCount.value >= cfg.coordinatedMinSize
    ensures Indicated(inp, cfg, APPROACHING)
            <==> inp.closingVelocity.Some? && inp.closingVelocity.value > cfg.approachingVelocity
    ensures Indicated(inp, cfg, DEPARTING)
            <==> inp.closingVelocity.Some? && inp.closingVelocity.value < cfg.departingVelocity
    ensures Indicated(inp, cfg, LOITERING)
            <==> inp.loiterRadius.Some? && inp.directionalConsistency.Some?
                 && inp.loiterRadius.value > cfg.loiterMinRadius
                 && inp.directionalConsistency.value < cfg.loiterMaxConsistency
    ensures Indicated(inp, cfg, NORMAL)
  {
  }

  /** The tick at which the current state was entered; the first one, if it was never left. */
  function EnteredAt(ticks: seq<Tick>, n: int): (i: nat)
    requires ticks != []
    ensures i < |ticks|
    decreases |ticks|
  {
    var prefix := ticks[..|ticks| - 1];
    if prefix == [] || Run(ticks, n).currentState != Run(prefix, n).currentState then |ticks| - 1
    else EnteredAt(prefix, n)
  }

  /** The state's start is the time of that tick. */
  lemma {:induction false} StartIsEntry(ticks: seq<Tick>, n: int)
    requires ticks != []
    ensures Run(ticks, n).stateStart == Some(ticks[EnteredAt(ticks, n)].1)
    decreases |ticks|
  {
    var prefix := ticks[..|ticks| - 1];
    if prefix == [] {
      assert Run(prefix, n) == FRESH;
    } else {
      StartIsEntry(prefix, n);
    }
  }

  /** Each change records when it happened and which state it left; between changes neither moves. */
  lemma ChangeRecorded(ticks: seq<Tick>, n: int)
    requires ticks != []
    ensures var s, before, now := Run(ticks, n), Run(ticks[..|ticks| - 1], n), ticks[|ticks| - 1].1;
            if s.currentState != before.currentState
            then s.lastTransition == Some(now) && s.previousState == Some(before.currentState)
            else s.lastTransition == before.lastTransition && s.previousState == before.previousState
  {
  }

  /** The exit counter, which decides nothing, is how long the candidates have differed from the state. */
  lemma {:induction false} ExitCounterMeans(ticks: seq<Tick>, n: int)
    requires n >= 1
    ensures var s := Run(ticks, n);
            && 0 <= s.exitTicksCount <= |ticks|
            && (forall i | |ticks| - s.exitTicksCount <= i < |ticks| :: ticks[i].0 != s.currentState)
            && (s.exitTicksCount < |ticks| ==> ticks[|ticks| - 1 - s.exitTicksCount].0 == s.currentState)
            && (s.exitCandidate == if s.exitTicksCount > 0 then Some(s.currentState) else None)
    decreases |ticks|
  {
    if ticks != [] {
      ExitCounterMeans(ticks[..|ticks| - 1], n);
    }
  }

  /** The reported classification is the state after the step, with the time since it was entered. */
  lemma ClassificationIs(inp: ClassifierInput, state: Option<ClassifierState>, cfg: ClassifierConfig)
    ensures var (b, t) := Classify(inp, state, cfg);
            && b.trackId == inp.trackId && b.evaluatedAt == inp.timestamp && b.state == t.currentState
            && t.stateStart.Some?
            && (t.stateStart.value <= inp.timestamp ==>
                  -0.005 <= b.duration - (inp.timestamp - t.stateStart.value) <= 0.005)
            && (t.stateStart.value > inp.timestamp ==> b.duration == 0.0)
  {
    var t := Classify(inp, state, cfg).1;
    assert t.stateStart.Some?;
    RoundError(Max(0.0, inp.timestamp - t.stateStart.value), 100.0);
    if t.stateStart.value > inp.timestamp { RoundExact(0, 100.0); }
    hide RoundTo;
  }
}
