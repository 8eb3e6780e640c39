/** The persistent anomaly accumulator: a rounded leaky integrator feeding an entry/exit hysteresis. */
module Anomaly {
  import opened TrackIds
  import opened Rounding

  /** `decay(dt)` is 0.5 ** (dt / half_life); the model uses of it only the laws in `DecayLaws`. */
  datatype AnomalyConfig = AnomalyConfig(
    decay: real -> real, enterThreshold: real, enterTicks: int, exitThreshold: real, exitTicks: int,
    scoreMin: real, scoreMax: real)

  ghost predicate DecayLaws(cfg: AnomalyConfig) {
    && cfg.decay(0.0) == 1.0
    && (forall t {:trigger cfg.decay(t)} | t >= 0.0 :: 0.0 < cfg.decay(t) <= 1.0)
    && (forall s, t | s >= 0.0 && t >= 0.0 :: cfg.decay(s + t) == cfg.decay(s) * cfg.decay(t))
  }

  datatype TrackAnomalyState = TrackAnomalyState(
    persistentScore: real, lastTimestamp: Option<real>, qualifyingTicks: int, recoveryTicks: int, isAnomalous: bool)

  const FRESH := TrackAnomalyState(0.0, None, 0, 0, false)

  datatype PersistentAnomalyResult = PersistentAnomalyResult(
    trackId: Id, instantaneousScore: Option<real>, persistentScore: real, isAnomalous: bool,
    qualifyingTicks: int, recoveryTicks: int, dtSeconds: real, evaluatedAt: real)

  /** Time since the last observation; out of order counts as none. */
  function Elapsed(s: TrackAnomalyState, now: real): (dt: real)
    ensures dt >= 0.0
  {
    if s.lastTimestamp.None? then 0.0 else Max(0.0, now - s.lastTimestamp.value)
  }

  /** Decay, then blend in the new score with weight 1 - d. */
  function Blend(cfg: AnomalyConfig, score: real, input: Option<real>, d: real): real {
    match input
    case None => score * d
    case Some(x) => score * d + Clamp(cfg.scoreMin, cfg.scoreMax, x) * (1.0 - d)
  }

  function Stored(cfg: AnomalyConfig, score: real, input: Option<real>, d: real): real {
    RoundTo(Clamp(cfg.scoreMin, cfg.scoreMax, Blend(cfg, score, input, d)), 1000.0)
  }

  /** One hysteresis tick on the freshly stored score. */
  function Tick(cfg: AnomalyConfig, s: TrackAnomalyState, score: real): TrackAnomalyState {
    var qualifying := if score >= cfg.enterThreshold then s.qualifyingTicks + 1 else 0;
    var recovery0 := if score >= cfg.enterThreshold then 0 else if s.isAnomalous then s.recoveryTicks + 1 else 0;
    if !s.isAnomalous then
      s.(persistentScore := score, qualifyingTicks := qualifying, recoveryTicks := recovery0,
         isAnomalous := qualifying >= cfg.enterTicks)
    else
      var recovery := if score >= cfg.exitThreshold then 0 else recovery0;
      s.(persistentScore := score, qualifyingTicks := qualifying, recoveryTicks := recovery,
         isAnomalous := !(score < cfg.exitThreshold && recovery >= cfg.exitTicks))
  }

  function UpdateState(cfg: AnomalyConfig, s: TrackAnomalyState, input: Option<real>, now: real): TrackAnomalyState {
    var score := Stored(cfg, s.persistentScore, input, cfg.decay(Elapsed(s, now)));
    Tick(cfg, s, score).(lastTimestamp := Some(now))
  }

  class PersistentAnomalyAccumulator {
    const cfg: AnomalyConfig
    var states: map<Id, TrackAnomalyState>

    constructor (cfg: AnomalyConfig)
      ensures this.cfg == cfg && states == map[]
    {
      this.cfg := cfg;
      states := map[];
    }

    /** The new stored score: decay over the elapsed time, blend, clamp, round to three decimals. */
    method Integrate(state: TrackAnomalyState, input: Option<real>, now: real) returns (score: real, dt: real)
      ensures dt == Elapsed(state, now)
      ensures score == Stored(cfg, state.persistentScore, input, cfg.decay(dt))
    {
      hide RoundTo;
      dt := 0.0;
      if state.lastTimestamp.Some? {
        dt := now - state.lastTimestamp.value;
        if dt < 0.0 {
          dt := 0.0;
        }
      }
      var decayFactor := cfg.decay(dt);
      var decayed := state.persistentScore * decayFactor;
      var newPersistent := decayed;
      if input.Some? {
        var ai1 := Max(cfg.scoreMin, Min(cfg.scoreMax, input.value));
        var alpha := 1.0 - decayFactor;
        newPersistent := decayed + ai1 * alpha;
      }
      assert newPersistent == Blend(cfg, state.persistentScore, input, decayFactor);
      score := RoundTo(Max(cfg.scoreMin, Min(cfg.scoreMax, newPersistent)), 1000.0);
    }

    /** One evaluation of one track; every other track is left alone. */
    method Update(trackId: Id, input: Option<real>, now: real) returns (result: PersistentAnomalyResult)
      modifies this
      ensures states == old(states)[trackId :=
                UpdateState(cfg, if trackId in old(states) then old(states)[trackId] else FRESH, input, now)]
      ensures result.trackId == trackId && result.instantaneousScore == input && result.evaluatedAt == now
      ensures var s := states[trackId];
              && result.persistentScore == s.persistentScore && result.isAnomalous == s.isAnomalous
              && result.qualifyingTicks == s.qualifyingTicks && result.recoveryTicks == s.recoveryTicks
    {
      hide Stored, Elapsed;
      if trackId !in states {
        states := states[trackId := FRESH];
      }
      var state := states[trackId];
      var newPersistent, dt := Integrate(state, input, now);
      var qualifying, recovery := 0, 0;
      if newPersistent >= cfg.enterThreshold {
        qualifying := state.qualifyingTicks + 1;
      } else if state.isAnomalous {
        recovery := state.recoveryTicks + 1;
      }
      var newIsAnomalous;
      if !state.isAnomalous {
        newIsAnomalous := qualifying >= cfg.enterTicks;
      } else {
        if newPersistent >= cfg.exitThreshold {
          recovery := 0;
        }
        var exitReached := newPersistent < cfg.exitThreshold && recovery >= cfg.exitTicks;
        newIsAnomalous := !exitReached;
      }
      states := states[trackId := TrackAnomalyState(newPersistent, Some(now), qualifying, recovery, newIsAnomalous)];
      result := PersistentAnomalyResult(trackId, input, newPersistent, newIsAnomalous, qualifying, recovery, dt, now);
    }

    method ResetTrack(trackId: Id)
      modifies this
      ensures states == old(states) - {trackId}
    {
      states := states - {trackId};
    }

    method ResetAll()
      modifies this
      ensures states == map[]
    {
      states := map[];
    }
  }

  // ----- The hysteresis as a latch over the history of stored scores -----

  /** The state after a history of stored scores. */
  function Run(cfg: AnomalyConfig, scores: seq<real>): TrackAnomalyState {
    if scores == [] then FRESH
    else Tick(cfg, Run(cfg, scores[..|scores| - 1]), scores[|scores| - 1])
  }

  /** The last `n` scores up to position `end` are all at or above the entry threshold. */
  ghost predicate HighStreak(cfg: AnomalyConfig, scores: seq<real>, end: int, n: int) {
    0 <= end - n && end <= |scores| && forall i | end - n <= i < end :: scores[i] >= cfg.enterThreshold
  }

  /** ... all below the exit threshold. */
  ghost predicate LowStreak(cfg: AnomalyConfig, scores: seq<real>, end: int, n: int) {
    0 <= end - n && end <= |scores| && forall i | end - n <= i < end :: scores[i] < cfg.exitThreshold
  }

  /** A full entry streak ends at `end` and no full exit streak ends after it. */
  ghost predicate LatchedAt(cfg: AnomalyConfig, scores: seq<real>, end: int) {
    && HighStreak(cfg, scores, end, cfg.enterTicks)
    && forall e | end < e <= |scores| :: !LowStreak(cfg, scores, e, cfg.exitTicks)
  }

  ghost predicate Latched(cfg: AnomalyConfig, scores: seq<real>) {
    exists end :: LatchedAt(cfg, scores, end)
  }

  ghost predicate Sane(cfg: AnomalyConfig) {
    cfg.exitThreshold <= cfg.enterThreshold && cfg.enterTicks >= 1 && cfg.exitTicks >= 1
  }

  /** The counters count: the entry counter is the current entry streak; while anomalous the recovery
      counter is the current exit streak, which is still too short to leave. */
  lemma {:induction false} CountersMean(cfg: AnomalyConfig, scores: seq<real>)
    requires Sane(cfg)
    ensures var s := Run(cfg, scores);
            && 0 <= s.qualifyingTicks <= |scores| && 0 <= s.recoveryTicks
            && HighStreak(cfg, scores, |scores|, s.qualifyingTicks)
            && (s.qualifyingTicks < |scores| ==> scores[|scores| - 1 - s.qualifyingTicks] < cfg.enterThreshold)
            && (s.isAnomalous ==>
                  && s.recoveryTicks < cfg.exitTicks && s.recoveryTicks < |scores|
                  && LowStreak(cfg, scores, |scores|, s.recoveryTicks)
                  && scores[|scores| - 1 - s.recoveryTicks] >= cfg.exitThreshold)
            && (!s.isAnomalous ==> s.qualifyingTicks < cfg.enterTicks)
    decreases |scores|
  {
    if scores != [] {
      CountersMean(cfg, scores[..|scores| - 1]);
    }
  }

  /** While the flag is up no full exit streak ends now. */
  lemma NoExitWhileUp(cfg: AnomalyConfig, scores: seq<real>)
    requires Sane(cfg) && Run(cfg, scores).isAnomalous
    ensures !LowStreak(cfg, scores, |scores|, cfg.exitTicks)
  {
    CountersMean(cfg, scores);
    hide Run;
  }

  /** The flag falls only when a full exit streak ends. */
  lemma ExitAtFall(cfg: AnomalyConfig, scores: seq<real>)
    requires Sane(cfg) && scores != [] && Run(cfg, scores[..|scores| - 1]).isAnomalous && !Run(cfg, scores).isAnomalous
    ensures LowStreak(cfg, scores, |scores|, cfg.exitTicks)
  {
    hide Run, Tick;
    var prefix, last := scores[..|scores| - 1], scores[|scores| - 1];
    var s := Run(cfg, prefix);
    RunStep(cfg, scores);
    CountersMean(cfg, prefix);
    FallCounts(cfg, s, last);
    hide HighStreak;
    assert LowStreak(cfg, scores, |scores|, s.recoveryTicks + 1);
  }

  lemma RunStep(cfg: AnomalyConfig, scores: seq<real>)
    requires scores != []
    ensures Run(cfg, scores) == Tick(cfg, Run(cfg, scores[..|scores| - 1]), scores[|scores| - 1])
  {
  }

  lemma FallCounts(cfg: AnomalyConfig, s: TrackAnomalyState, score: real)
    requires Sane(cfg) && s.isAnomalous && !Tick(cfg, s, score).isAnomalous
    ensures score < cfg.exitThreshold && s.recoveryTicks + 1 >= cfg.exitTicks
  {
  }

  /** It rises only when a full entry streak ends. */
  lemma EntryAtRise(cfg: AnomalyConfig, scores: seq<real>)
    requires Sane(cfg) && scores != [] && !Run(cfg, scores[..|scores| - 1]).isAnomalous && Run(cfg, scores).isAnomalous
    ensures HighStreak(cfg, scores, |scores|, cfg.enterTicks)
  {
    CountersMean(cfg, scores);
  }

  /** After any history the flag is up exactly when some full entry streak ends later than every
      full exit streak. */
  lemma {:induction false} AnomalyIsLatch(cfg: AnomalyConfig, scores: seq<real>)
    requires Sane(cfg)
    ensures Run(cfg, scores).isAnomalous <==> Latched(cfg, scores)
    decreases |scores|
  {
    if scores == [] {
      return;
    }
    var n, prefix := |scores|, scores[..|scores| - 1];
    AnomalyIsLatch(cfg, prefix);
    if HighStreak(cfg, scores, n, cfg.enterTicks) {
      EntryAt(cfg, scores);
      assert LatchedAt(cfg, scores, n);
      return;
    }
    PrefixStreaks(cfg, scores);
    if Run(cfg, scores).isAnomalous {
      NoExitWhileUp(cfg, scores);
      if !Run(cfg, prefix).isAnomalous { EntryAtRise(cfg, scores); }
      hide Run, HighStreak, LowStreak;
      var e :| LatchedAt(cfg, prefix, e);
      assert LatchedAt(cfg, scores, e) by { StreakEnds(cfg, prefix, e); }
    } else if e :| LatchedAt(cfg, scores, e) {
      LatchedBefore(cfg, scores, e);
      if Run(cfg, prefix).isAnomalous { ExitAtFall(cfg, scores); }
    }
  }

  lemma LatchedBefore(cfg: AnomalyConfig, scores: seq<real>, e: int)
    requires scores != [] && LatchedAt(cfg, scores, e) && !HighStreak(cfg, scores, |scores|, cfg.enterTicks)
    ensures e < |scores| && LatchedAt(cfg, scores[..|scores| - 1], e)
  {
    PrefixStreaks(cfg, scores);
    StreakEnds(cfg, scores, e);
    hide HighStreak, LowStreak;
    var prefix := scores[..|scores| - 1];
    forall f | e < f <= |prefix| ensures !LowStreak(cfg, prefix, f, cfg.exitTicks) {
      assert !LowStreak(cfg, scores, f, cfg.exitTicks);
    }
  }

  lemma StreakEnds(cfg: AnomalyConfig, scores: seq<real>, e: int)
    requires HighStreak(cfg, scores, e, cfg.enterTicks)
    ensures e <= |scores|
  {
  }

  lemma PrefixStreaks(cfg: AnomalyConfig, scores: seq<real>)
    requires scores != []
    ensures forall e, k | e < |scores| ::
              HighStreak(cfg, scores, e, k) == HighStreak(cfg, scores[..|scores| - 1], e, k)
    ensures forall e, k | e < |scores| ::
              LowStreak(cfg, scores, e, k) == LowStreak(cfg, scores[..|scores| - 1], e, k)
  {
  }

  /** A full entry streak ending now means the flag is up now. */
  lemma EntryAt(cfg: AnomalyConfig, scores: seq<real>)
    requires Sane(cfg) && HighStreak(cfg, scores, |scores|, cfg.enterTicks)
    ensures Run(cfg, scores).isAnomalous
  {
    CountersMean(cfg, scores);
    hide Run;
  }

  predicate FlipsAtEnd(cfg: AnomalyConfig, scores: seq<real>) {
    scores != [] && Run(cfg, scores).isAnomalous != Run(cfg, scores[..|scores| - 1]).isAnomalous
  }

  /** The number of updates that changed the flag. */
  function Flips(cfg: AnomalyConfig, scores: seq<real>): nat {
    if scores == [] then 0
    else Flips(cfg, scores[..|scores| - 1]) + if FlipsAtEnd(cfg, scores) then 1 else 0
  }

  /** How many updates had been made at the latest change; 0 if there was none. */
  function LastFlip(cfg: AnomalyConfig, scores: seq<real>): (n: nat)
    ensures n <= |scores|
  {
    if scores == [] then 0
    else if FlipsAtEnd(cfg, scores) then |scores|
    else LastFlip(cfg, scores[..|scores| - 1])
  }

  lemma {:induction false} LastFlipScore(cfg: AnomalyConfig, scores: seq<real>)
    requires Sane(cfg)
    ensures var l, up := LastFlip(cfg, scores), Run(cfg, scores).isAnomalous;
            && (l == 0 ==> !up)
            && (l > 0 && up ==> scores[l - 1] >= cfg.enterThreshold)
            && (l > 0 && !up ==> scores[l - 1] < cfg.exitThreshold)
    decreases |scores|
  {
    if scores != [] {
      var prefix := scores[..|scores| - 1];
      LastFlipScore(cfg, prefix);
      CountersMean(cfg, prefix);
    }
  }

  /** Two consecutive changes are a whole entry (or exit) streak apart. */
  lemma FlipSpacing(cfg: AnomalyConfig, scores: seq<real>)
    requires Sane(cfg) && FlipsAtEnd(cfg, scores)
    ensures var gap := |scores| - LastFlip(cfg, scores[..|scores| - 1]);
            gap >= if Run(cfg, scores).isAnomalous then cfg.enterTicks else cfg.exitTicks
  {
    var n, l := |scores|, LastFlip(cfg, scores[..|scores| - 1]);
    LastFlipScore(cfg, scores[..|scores| - 1]);
    CountersMean(cfg, scores[..|scores| - 1]);
    CountersMean(cfg, scores);
    hide LastFlip;
    if l > 0 {
      assert scores[..|scores| - 1][l - 1] == scores[l - 1];
      hide Run;
    }
  }

  /** What `f` changes cost at least: the entry and exit streaks take turns. */
  function FlipCost(cfg: AnomalyConfig, f: nat): int {
    if f == 0 then 0 else FlipCost(cfg, f - 1) + if f % 2 == 1 then cfg.enterTicks else cfg.exitTicks
  }

  lemma {:induction false} FlipCostIs(cfg: AnomalyConfig, f: nat)
    ensures FlipCost(cfg, f) == (f / 2) * (cfg.enterTicks + cfg.exitTicks) + (f % 2) * cfg.enterTicks
  {
    if f >= 2 {
      FlipCostIs(cfg, f - 2);
      assert FlipCost(cfg, f) == FlipCost(cfg, f - 2) + (cfg.enterTicks + cfg.exitTicks);
      assert f / 2 == (f - 2) / 2 + 1;
    }
  }

  lemma {:induction false} FlipsCost(cfg: AnomalyConfig, scores: seq<real>)
    requires Sane(cfg)
    ensures FlipCost(cfg, Flips(cfg, scores)) <= LastFlip(cfg, scores)
    ensures Flips(cfg, scores) % 2 == 1 <==> Run(cfg, scores).isAnomalous
    decreases |scores|
  {
    if scores != [] {
      FlipsCost(cfg, scores[..|scores| - 1]);
      if FlipsAtEnd(cfg, scores) {
        FlipSpacing(cfg, scores);
      }
      hide Run;
    }
  }

  /** Every two changes use up a full entry and a full exit streak of updates. */
  lemma FlipBound(cfg: AnomalyConfig, scores: seq<real>)
    requires Sane(cfg)
    ensures var f := Flips(cfg, scores);
            && (f / 2) * (cfg.enterTicks + cfg.exitTicks) + (f % 2) * cfg.enterTicks <= LastFlip(cfg, scores)
                <= |scores|
            && (f % 2 == 1 <==> Run(cfg, scores).isAnomalous)
  {
    FlipsCost(cfg, scores);
    FlipCostIs(cfg, Flips(cfg, scores));
  }

  // ----- Rounding drift -----

  /** One observation of the integrator: the decay over the elapsed time, and the score if any. */
  datatype Sample = Sample(decay: real, input: Option<real>)

  ghost predicate GoodSamples(samples: seq<Sample>) {
    forall s | s in samples :: 0.0 < s.decay <= 1.0
  }

  /** The score the accumulator stores, rounded at every update. */
  function StoredRun(cfg: AnomalyConfig, samples: seq<Sample>): real {
    if samples == [] then 0.0
    else
      var last := samples[|samples| - 1];
      Stored(cfg, StoredRun(cfg, samples[..|samples| - 1]), last.input, last.decay)
  }

  /** The exact leaky integrator: no rounding and no clamp of the result. */
  function ExactRun(cfg: AnomalyConfig, samples: seq<Sample>): real {
    if samples == [] then 0.0
    else
      var last := samples[|samples| - 1];
      Blend(cfg, ExactRun(cfg, samples[..|samples| - 1]), last.input, last.decay)
  }

  lemma BlendInRange(cfg: AnomalyConfig, score: real, input: Option<real>, d: real)
    requires cfg.scoreMin <= 0.0 <= cfg.scoreMax && 0.0 < d <= 1.0 && cfg.scoreMin <= score <= cfg.scoreMax
    ensures cfg.scoreMin <= Blend(cfg, score, input, d) <= cfg.scoreMax
  {
    var x := if input.Some? then Clamp(cfg.scoreMin, cfg.scoreMax, input.value) else 0.0;
    Convex(cfg.scoreMin, cfg.scoreMax, score, x, d);
  }

  /** The blend contracts differences by the decay factor. */
  lemma BlendContracts(cfg: AnomalyConfig, s: real, e: real, input: Option<real>, d: real)
    requires 0.0 < d <= 1.0
    ensures Abs(Blend(cfg, s, input, d) - Blend(cfg, e, input, d)) == Abs(s - e) * d
  {
    ScaledGap(s, e, d);
  }

  /** One update adds at most half a thousandth to the contracted error. */
  lemma DriftStep(cfg: AnomalyConfig, s: real, e: real, input: Option<real>, d: real)
    requires cfg.scoreMin <= 0.0 <= cfg.scoreMax && 0.0 < d <= 1.0 && cfg.scoreMin <= e <= cfg.scoreMax
    ensures Abs(Stored(cfg, s, input, d) - Blend(cfg, e, input, d)) <= Abs(s - e) * d + 0.0005
  {
    var b, x := Blend(cfg, s, input, d), Blend(cfg, e, input, d);
    BlendInRange(cfg, e, input, d);
    BlendContracts(cfg, s, e, input, d);
    ClampLipschitz(cfg.scoreMin, cfg.scoreMax, b, x);
    assert Clamp(cfg.scoreMin, cfg.scoreMax, x) == x;
    RoundError(Clamp(cfg.scoreMin, cfg.scoreMax, b), 1000.0);
  }

  function Drift(cfg: AnomalyConfig, samples: seq<Sample>): real {
    Abs(StoredRun(cfg, samples) - ExactRun(cfg, samples))
  }

  lemma {:induction false} ExactInRange(cfg: AnomalyConfig, samples: seq<Sample>)
    requires cfg.scoreMin <= 0.0 <= cfg.scoreMax && GoodSamples(samples)
    ensures cfg.scoreMin <= ExactRun(cfg, samples) <= cfg.scoreMax
    decreases |samples|
  {
    if samples != [] {
      var prefix, last := samples[..|samples| - 1], samples[|samples| - 1];
      ExactInRange(cfg, prefix);
      BlendInRange(cfg, ExactRun(cfg, prefix), last.input, last.decay);
    }
  }

  lemma DriftRecurrence(cfg: AnomalyConfig, samples: seq<Sample>)
    requires cfg.scoreMin <= 0.0 <= cfg.scoreMax && GoodSamples(samples) && samples != []
    ensures var prefix, last := samples[..|samples| - 1], samples[|samples| - 1];
            Drift(cfg, samples) <= Drift(cfg, prefix) * last.decay + 0.0005
  {
    hide Stored, Blend;
    var prefix, last := samples[..|samples| - 1], samples[|samples| - 1];
    ExactInRange(cfg, prefix);
    DriftStep(cfg, StoredRun(cfg, prefix), ExactRun(cfg, prefix), last.input, last.decay);
  }

  lemma Shrinks(a: real, d: real, r: real)
    requires a >= 0.0 && d <= r
    ensures a * d <= a * r
  {
  }

  lemma DriftNonNegative(cfg: AnomalyConfig, samples: seq<Sample>)
    ensures Drift(cfg, samples) >= 0.0
  {
  }

  lemma DriftGrows(cfg: AnomalyConfig, samples: seq<Sample>)
    requires cfg.scoreMin <= 0.0 <= cfg.scoreMax && GoodSamples(samples) && samples != []
    ensures Drift(cfg, samples) <= Drift(cfg, samples[..|samples| - 1]) + 0.0005
  {
    hide Drift;
    var prefix, last := samples[..|samples| - 1], samples[|samples| - 1];
    assert last in samples;
    DriftRecurrence(cfg, samples);
    DriftNonNegative(cfg, prefix);
    var d := Drift(cfg, prefix);
    Shrinks(d, last.decay, 1.0);
    assert d * 1.0 == d;
  }

  /** After n updates the stored score is within n half-thousandths of the exact integrator. */
  lemma {:induction false} DriftBound(cfg: AnomalyConfig, samples: seq<Sample>)
    requires cfg.scoreMin <= 0.0 <= cfg.scoreMax && GoodSamples(samples)
    ensures Drift(cfg, samples) <= 0.0005 * |samples| as real
    decreases |samples|
  {
    if samples != [] {
      DriftBound(cfg, samples[..|samples| - 1]);
      DriftGrows(cfg, samples);
      hide Drift;
    }
  }

  /** With time passing between updates (every decay at most some r < 1) the drift never exceeds
      0.0005 / (1 - r), however long the run. */
  lemma {:induction false} DriftUniform(cfg: AnomalyConfig, samples: seq<Sample>, r: real)
    requires cfg.scoreMin <= 0.0 <= cfg.scoreMax && GoodSamples(samples) && 0.0 < r < 1.0
    requires forall s | s in samples :: s.decay <= r
    ensures Bounded(Drift(cfg, samples), r)
    decreases |samples|
  {
    hide Drift, Bounded;
    if samples != [] {
      var prefix, last := samples[..|samples| - 1], samples[|samples| - 1];
      assert last in samples && forall s | s in prefix :: s in samples;
      DriftUniform(cfg, prefix, r);
      DriftRecurrence(cfg, samples);
      DriftNonNegative(cfg, prefix);
      GeometricStep(Drift(cfg, prefix), Drift(cfg, samples), last.decay, r);
    } else {
      NoDriftYet(cfg, r);
    }
  }

  lemma NoDriftYet(cfg: AnomalyConfig, r: real)
    ensures Bounded(Drift(cfg, []), r)
  {
    assert Drift(cfg, []) == 0.0;
  }

  /** x <= 0.0005 / (1 - r), written without the division. */
  predicate Bounded(x: real, r: real) { x * (1.0 - r) <= 0.0005 }

  lemma GeometricStep(a: real, b: real, d: real, r: real)
    requires 0.0 < r < 1.0 && a >= 0.0 && d <= r && b <= a * d + 0.0005 && Bounded(a, r)
    ensures Bounded(b, r)
  {
    Shrinks(a, d, r);
    Geometric(a, b, r);
  }

  lemma Geometric(a: real, b: real, r: real)
    requires 0.0 < r < 1.0 && a * (1.0 - r) <= 0.0005 && b <= a * r + 0.0005
    ensures b * (1.0 - r) <= 0.0005
  {
    var q := 1.0 - r;
    calc {
      b * q;
    <= { MulMonotone(b, a * r + 0.0005, q); }
      (a * r + 0.0005) * q;
    == { GeometricExpand(a, r, q); }
      (a * q) * r + 0.0005 * q;
    <= { MulMonotone(a * q, 0.0005, r); }
      0.0005 * r + 0.0005 * q;
    ==
      0.0005;
    }
  }

  lemma GeometricExpand(a: real, r: real, q: real)
    ensures (a * r + 0.0005) * q == (a * q) * r + 0.0005 * q
  {
  }

  /** With the default bounds the stored score stays in [0, 100]. */
  lemma StoredInRange(cfg: AnomalyConfig, score: real, input: Option<real>, d: real)
    requires cfg.scoreMin == 0.0 && cfg.scoreMax == 100.0
    ensures 0.0 <= Stored(cfg, score, input, d) <= 100.0
  {
    var c := Clamp(0.0, 100.0, Blend(cfg, score, input, d));
    RoundMonotone(0.0, c, 1000.0);
    RoundMonotone(c, 100.0, 1000.0);
    RoundExact(0, 1000.0);
    RoundExact(100000, 1000.0);
  }

  /** Splitting a time step does not matter: with one score, two exact steps over dt1 and dt2 are one
      exact step over dt1 + dt2. */
  lemma StepsCompose(cfg: AnomalyConfig, score: real, input: Option<real>, dt1: real, dt2: real)
    requires DecayLaws(cfg) && dt1 >= 0.0 && dt2 >= 0.0
    ensures Blend(cfg, Blend(cfg, score, input, cfg.decay(dt1)), input, cfg.decay(dt2))
            == Blend(cfg, score, input, cfg.decay(dt1 + dt2))
  {
    var p, q := cfg.decay(dt1), cfg.decay(dt2);
    assert cfg.decay(dt1 + dt2) == p * q;
    hide DecayLaws;
    match input
    case None => Associate(score, p, q);
    case Some(v) => BlendTwice(score, Clamp(cfg.scoreMin, cfg.scoreMax, v), p, q);
  }

  lemma BlendTwice(s: real, x: real, p: real, q: real)
    ensures (s * p + x * (1.0 - p)) * q + x * (1.0 - q) == s * (p * q) + x * (1.0 - p * q)
  {
  }

  /** A run of the class on one track is a run of the two machines above: the stored score follows
      StoredRun over the decays actually applied, the counters and the flag follow Run. */
  function Observe(cfg: AnomalyConfig, inputs: seq<(Option<real>, real)>): TrackAnomalyState {
    if inputs == [] then FRESH
    else
      var last := inputs[|inputs| - 1];
      UpdateState(cfg, Observe(cfg, inputs[..|inputs| - 1]), last.0, last.1)
  }

  function Samples(cfg: AnomalyConfig, inputs: seq<(Option<real>, real)>): (r: seq<Sample>)
    ensures |r| == |inputs|
  {
    if inputs == [] then []
    else
      var prefix, last := inputs[..|inputs| - 1], inputs[|inputs| - 1];
      Samples(cfg, prefix) + [Sample(cfg.decay(Elapsed(Observe(cfg, prefix), last.1)), last.0)]
  }

  function Scores(cfg: AnomalyConfig, inputs: seq<(Option<real>, real)>): (r: seq<real>)
    ensures |r| == |inputs|
  {
    if inputs == [] then []
    else Scores(cfg, inputs[..|inputs| - 1]) + [Observe(cfg, inputs).persistentScore]
  }

  lemma {:induction false} ObserveDecomposes(cfg: AnomalyConfig, inputs: seq<(Option<real>, real)>)
    ensures var s, h := Observe(cfg, inputs), Run(cfg, Scores(cfg, inputs));
            && s.persistentScore == StoredRun(cfg, Samples(cfg, inputs))
            && s.qualifyingTicks == h.qualifyingTicks && s.recoveryTicks == h.recoveryTicks
            && s.isAnomalous == h.isAnomalous
    decreases |inputs|
  {
    if inputs != [] {
      var prefix := inputs[..|inputs| - 1];
      ObserveDecomposes(cfg, prefix);
      assert Samples(cfg, inputs)[..|inputs| - 1] == Samples(cfg, prefix);
      assert Scores(cfg, inputs)[..|inputs| - 1] == Scores(cfg, prefix);
    }
  }

  lemma {:induction false} SamplesGood(cfg: AnomalyConfig, inputs: seq<(Option<real>, real)>)
    requires DecayLaws(cfg)
    ensures GoodSamples(Samples(cfg, inputs))
    decreases |inputs|
  {
    hide Observe;
    if inputs != [] {
      SamplesGood(cfg, inputs[..|inputs| - 1]);
    }
  }

  /** What any sequence of updates of one track amounts to, whatever its timestamps: the flag is the latch
      over the stored scores, and the stored score is within half a thousandth per update of the exact
      integrator. */
  lemma ObserveMeans(cfg: AnomalyConfig, inputs: seq<(Option<real>, real)>)
    requires Sane(cfg) && DecayLaws(cfg) && cfg.scoreMin <= 0.0 <= cfg.scoreMax
    ensures var s := Observe(cfg, inputs);
            && (s.isAnomalous <==> Latched(cfg, Scores(cfg, inputs)))
            && Abs(s.persistentScore - ExactRun(cfg, Samples(cfg, inputs))) <= 0.0005 * |inputs| as real
  {
    hide Latched, Observe, ExactRun, StoredRun, Scores, Run, Sane, DecayLaws, Samples;
    ObserveDecomposes(cfg, inputs);
    AnomalyIsLatch(cfg, Scores(cfg, inputs));
    SamplesGood(cfg, inputs);
    DriftBound(cfg, Samples(cfg, inputs));
  }

  // ----- The score follows its input -----

  /** The time since the last observation as the difference of two timestamps; nothing for a first or an
      out-of-order one. */
  function Since(s: TrackAnomalyState, now: real): real {
    match s.lastTimestamp
    case None => 0.0
    case Some(t) => if now >= t then now - t else 0.0
  }

  ghost predicate InRange(cfg: AnomalyConfig, score: real) { cfg.scoreMin <= score <= cfg.scoreMax }

  lemma RoundNear(b: real)
    ensures Abs(RoundTo(b, 1000.0) - b) <= 0.0005
  {
    RoundError(b, 1000.0);
  }

  /** An observation leaves the decayed part of the distance between the score and its (clamped) input, up
      to half a thousandth. */
  lemma StepTowardInput(cfg: AnomalyConfig, s: TrackAnomalyState, x: real, now: real)
    requires DecayLaws(cfg) && InRange(cfg, s.persistentScore)
    ensures var d, c := cfg.decay(Since(s, now)), Max(cfg.scoreMin, Min(cfg.scoreMax, x));
            var t := UpdateState(cfg, s, Some(x), now);
            && Abs((t.persistentScore - c) - Times(d, s.persistentScore - c)) <= 0.0005
            && t.lastTimestamp == Some(now) && InRange(cfg, c)
  {
    hide Stored, Times;
    assert Since(s, now) == Elapsed(s, now);
    StoredTowardInput(cfg, s.persistentScore, x, cfg.decay(Since(s, now)));
  }

  lemma StoredTowardInput(cfg: AnomalyConfig, score: real, x: real, d: real)
    requires InRange(cfg, score) && 0.0 < d <= 1.0
    ensures var c := Clamp(cfg.scoreMin, cfg.scoreMax, x);
            Abs((Stored(cfg, score, Some(x), d) - c) - Times(d, score - c)) <= 0.0005 && InRange(cfg, c)
  {
    hide RoundTo, Times;
    var c := Clamp(cfg.scoreMin, cfg.scoreMax, x);
    AroundInput(score, c, d);
    Convex(cfg.scoreMin, cfg.scoreMax, score, c, d);
    RoundNear(score * d + c * (1.0 - d));
  }

  lemma AroundInput(s: real, c: real, d: real)
    ensures s * d + c * (1.0 - d) - c == Times(d, s - c)
  {
  }

  /** Without an input the score just decays, up to half a thousandth. */
  lemma StepWithoutInput(cfg: AnomalyConfig, s: TrackAnomalyState, now: real)
    requires DecayLaws(cfg) && cfg.scoreMin <= 0.0 <= cfg.scoreMax && InRange(cfg, s.persistentScore)
    ensures var t := UpdateState(cfg, s, None, now);
            && Abs(t.persistentScore - Times(cfg.decay(Since(s, now)), s.persistentScore)) <= 0.0005
            && t.lastTimestamp == Some(now)
  {
    hide RoundTo;
    var d := cfg.decay(Since(s, now));
    assert Since(s, now) == Elapsed(s, now) && 0.0 < d <= 1.0;
    Convex(cfg.scoreMin, cfg.scoreMax, s.persistentScore, 0.0, d);
    assert s.persistentScore * d == Times(d, s.persistentScore);
    hide Times;
    RoundNear(s.persistentScore * d);
  }

  /** A larger input or a larger score before never gives a smaller score after. */
  lemma UpdateMonotone(cfg: AnomalyConfig, s: TrackAnomalyState, r: TrackAnomalyState, x: real, y: real, now: real)
    requires DecayLaws(cfg) && s.lastTimestamp == r.lastTimestamp && s.persistentScore <= r.persistentScore && x <= y
    ensures UpdateState(cfg, s, Some(x), now).persistentScore <= UpdateState(cfg, r, Some(y), now).persistentScore
  {
    assert Elapsed(s, now) == Elapsed(r, now);
    StoredMonotone(cfg, s.persistentScore, r.persistentScore, x, y, cfg.decay(Elapsed(s, now)));
    hide Stored, DecayLaws;
  }

  lemma StoredMonotone(cfg: AnomalyConfig, s: real, r: real, x: real, y: real, d: real)
    requires s <= r && x <= y && 0.0 < d <= 1.0
    ensures Stored(cfg, s, Some(x), d) <= Stored(cfg, r, Some(y), d)
  {
    hide RoundTo;
    BlendMonotone(cfg, s, r, x, y, d);
    hide Blend;
    var a, b := Blend(cfg, s, Some(x), d), Blend(cfg, r, Some(y), d);
    RoundMonotone(Clamp(cfg.scoreMin, cfg.scoreMax, a), Clamp(cfg.scoreMin, cfg.scoreMax, b), 1000.0);
  }

  lemma BlendMonotone(cfg: AnomalyConfig, s: real, r: real, x: real, y: real, d: real)
    requires s <= r && x <= y && 0.0 < d <= 1.0
    ensures Blend(cfg, s, Some(x), d) <= Blend(cfg, r, Some(y), d)
  {
    assert Clamp(cfg.scoreMin, cfg.scoreMax, x) <= Clamp(cfg.scoreMin, cfg.scoreMax, y);
    hide Clamp;
    WeightedMonotone(s, Clamp(cfg.scoreMin, cfg.scoreMax, x), r, Clamp(cfg.scoreMin, cfg.scoreMax, y), d, 1.0 - d);
  }

  /** The stored score never leaves the range. */
  lemma UpdateInRange(cfg: AnomalyConfig, s: TrackAnomalyState, input: Option<real>, now: real)
    requires cfg.scoreMin == 0.0 && cfg.scoreMax == 100.0
    ensures InRange(cfg, UpdateState(cfg, s, input, now).persistentScore)
  {
    StoredInRange(cfg, s.persistentScore, input, cfg.decay(Elapsed(s, now)));
    hide Stored;
  }

  // ----- A sustained input -----

  type Input = (Option<real>, real)

  /** The same input at each of the times. */
  function Constant(x: real, times: seq<real>): (r: seq<Input>)
    ensures |r| == |times| && forall i | 0 <= i < |times| :: r[i] == (Some(x), times[i])
  {
    seq(|times|, i requires 0 <= i < |times| => (Some(x), times[i]))
  }

  ghost predicate OrderedTimes(times: seq<real>) { forall i, j | 0 <= i < j < |times| :: times[i] <= times[j] }

  lemma {:induction false} ObservedInRange(cfg: AnomalyConfig, inputs: seq<Input>)
    requires cfg.scoreMin == 0.0 && cfg.scoreMax == 100.0
    ensures InRange(cfg, Observe(cfg, inputs).persistentScore)
    ensures inputs != [] ==> Observe(cfg, inputs).lastTimestamp == Some(inputs[|inputs| - 1].1)
    decreases |inputs|
  {
    hide Stored, Elapsed;
    if inputs != [] {
      var last := inputs[|inputs| - 1];
      UpdateInRange(cfg, Observe(cfg, inputs[..|inputs| - 1]), last.0, last.1);
    }
  }

  lemma ConstantPrefix(x: real, times: seq<real>)
    requires times != []
    ensures Constant(x, times)[..|times| - 1] == Constant(x, times[..|times| - 1])
  {
  }

  lemma TowardGoal(x: real, score: real, after: real, d: real, part: real, e: real)
    requires 0.0 < d <= 1.0 && Abs(score - Times(x, 1.0 - part)) <= e
    requires Abs((after - x) - Times(d, score - x)) <= 0.0005
    ensures Abs(after - Times(x, 1.0 - part * d)) <= e + 0.0005
  {
    var goal := Times(x, 1.0 - part);
    GoalMoves(x, part, d, score);
    ShrunkBy(score - goal, d, e);
    hide Times;
  }

  lemma GoalMoves(x: real, part: real, d: real, score: real)
    ensures Times(x, 1.0 - part * d) == x + Times(d, Times(x, 1.0 - part) - x)
    ensures Times(d, score - x) == Times(d, score - Times(x, 1.0 - part)) + Times(d, Times(x, 1.0 - part) - x)
  {
  }

  lemma ShrunkBy(a: real, d: real, e: real)
    requires 0.0 < d <= 1.0 && Abs(a) <= e
    ensures Abs(Times(d, a)) <= e
  {
    if a >= 0.0 {
      FactorBelow(a, d);
    } else {
      FactorBelow(-a, d);
      assert Times(d, a) == -Times(d, -a);
    }
    hide Times;
  }

  lemma FactorBelow(a: real, d: real)
    requires a >= 0.0 && 0.0 < d <= 1.0
    ensures 0.0 <= Times(d, a) <= a
  {
  }

  /** From a fresh state a constant input x leads, after the total elapsed time T, to x * (1 - decay(T)), up
      to half a thousandth for each update. */
  lemma {:induction false} SustainedScore(cfg: AnomalyConfig, x: real, times: seq<real>)
    requires DecayLaws(cfg) && cfg.scoreMin == 0.0 && cfg.scoreMax == 100.0 && 0.0 <= x <= 100.0
    requires times != [] && OrderedTimes(times)
    ensures Abs(Observe(cfg, Constant(x, times)).persistentScore
                - Times(x, 1.0 - cfg.decay(times[|times| - 1] - times[0]))) <= 0.0005 * |times| as real
    decreases |times|
  {
    hide UpdateState, Times, DecayLaws;
    var n := |times| - 1;
    var prefix, now := times[..n], times[n];
    var s := Observe(cfg, Constant(x, prefix));
    ConstantPrefix(x, times);
    ObservedInRange(cfg, Constant(x, prefix));
    StepTowardInput(cfg, s, x, now);
    if n == 0 {
      TowardNothing(x);
      NoDecayYet(cfg);
    } else {
      SustainedScore(cfg, x, prefix);
      assert times[n - 1] <= now && times[0] <= times[n - 1] by {
        if n > 1 { assert times[0] <= times[n - 1]; }
      }
      SinceLast(cfg, s, times[n - 1], now);
      DecayOver(cfg, times[n - 1] - times[0], now - times[n - 1], now - times[0]);
      assert prefix[n - 1] == times[n - 1] && prefix[0] == times[0];
      assert 0.0005 * n as real + 0.0005 == 0.0005 * |times| as real;
      var part, d := cfg.decay(times[n - 1] - times[0]), cfg.decay(now - times[n - 1]);
      var whole := cfg.decay(now - times[0]);
      var after := Observe(cfg, Constant(x, times)).persistentScore;
      TowardGoal(x, s.persistentScore, after, d, part, 0.0005 * n as real);
      assert whole == part * d;
      assert Abs(after - Times(x, 1.0 - whole)) <= 0.0005 * |times| as real;
    }
  }

  lemma SinceLast(cfg: AnomalyConfig, s: TrackAnomalyState, last: real, now: real)
    requires DecayLaws(cfg) && s.lastTimestamp == Some(last) && last <= now
    ensures Since(s, now) == now - last && 0.0 < cfg.decay(now - last) <= 1.0
  {
  }

  lemma DecayOver(cfg: AnomalyConfig, a: real, b: real, c: real)
    requires DecayLaws(cfg) && a >= 0.0 && b >= 0.0 && a + b == c
    ensures cfg.decay(c) == cfg.decay(a) * cfg.decay(b)
  {
  }

  lemma NoDecayYet(cfg: AnomalyConfig)
    requires DecayLaws(cfg)
    ensures cfg.decay(0.0) == 1.0
  {
  }

  lemma TowardNothing(x: real)
    ensures Times(1.0, 0.0 - x) == 0.0 - x && Times(x, 1.0 - 1.0) == 0.0
  {
  }

  lemma {:induction false} ScoreAt(cfg: AnomalyConfig, inputs: seq<Input>, i: nat)
    requires i < |inputs|
    ensures Scores(cfg, inputs)[i] == Observe(cfg, inputs[..i + 1]).persistentScore
    decreases |inputs|
  {
    hide Observe;
    if i == |inputs| - 1 {
      assert inputs[..i + 1] == inputs;
    } else {
      ScoreAt(cfg, inputs[..|inputs| - 1], i);
      assert inputs[..|inputs| - 1][..i + 1] == inputs[..i + 1];
    }
  }

  /** The score after the first n observations. */
  function ScoreAfter(cfg: AnomalyConfig, inputs: seq<Input>, n: nat): real
    requires n <= |inputs|
  {
    Observe(cfg, inputs[..n]).persistentScore
  }

  /** When the last `enterTicks` scores are at or above the entry threshold the flag is up. */
  lemma HighScoresRaise(cfg: AnomalyConfig, inputs: seq<Input>)
    requires Sane(cfg) && |inputs| >= cfg.enterTicks
    requires forall n | |inputs| - cfg.enterTicks < n <= |inputs| :: ScoreAfter(cfg, inputs, n) >= cfg.enterThreshold
    ensures Observe(cfg, inputs).isAnomalous
  {
    hide Observe, Run;
    ObserveDecomposes(cfg, inputs);
    forall i | |inputs| - cfg.enterTicks <= i < |inputs| ensures Scores(cfg, inputs)[i] >= cfg.enterThreshold {
      ScoreAt(cfg, inputs, i);
      assert ScoreAfter(cfg, inputs, i + 1) >= cfg.enterThreshold;
    }
    EntryAt(cfg, Scores(cfg, inputs));
  }

  /** So a sustained input raises the flag, once its share of the elapsed time lifts `enterTicks` scores over
      the threshold. */
  lemma SustainedRaises(cfg: AnomalyConfig, x: real, times: seq<real>)
    requires Sane(cfg) && DecayLaws(cfg) && cfg.scoreMin == 0.0 && cfg.scoreMax == 100.0 && 0.0 <= x <= 100.0
    requires OrderedTimes(times) && |times| >= cfg.enterTicks
    requires forall i | |times| - cfg.enterTicks <= i < |times| ::
               Times(x, 1.0 - cfg.decay(times[i] - times[0])) >= cfg.enterThreshold + 0.0005 * (i + 1) as real
    ensures Observe(cfg, Constant(x, times)).isAnomalous
  {
    hide Observe, Times, DecayLaws, Constant, ScoreAfter;
    forall n | |times| - cfg.enterTicks < n <= |times|
      ensures ScoreAfter(cfg, Constant(x, times), n) >= cfg.enterThreshold
    {
      assert Times(x, 1.0 - cfg.decay(times[n - 1] - times[0])) >= cfg.enterThreshold + 0.0005 * n as real;
      SustainedScoreAt(cfg, x, times, n);
    }
    HighScoresRaise(cfg, Constant(x, times));
  }

  lemma SustainedScoreAt(cfg: AnomalyConfig, x: real, times: seq<real>, n: nat)
    requires DecayLaws(cfg) && cfg.scoreMin == 0.0 && cfg.scoreMax == 100.0 && 0.0 <= x <= 100.0
    requires OrderedTimes(times) && 1 <= n <= |times|
    ensures ScoreAfter(cfg, Constant(x, times), n)
            >= Times(x, 1.0 - cfg.decay(times[n - 1] - times[0])) - 0.0005 * n as real
  {
    hide Observe, Times, DecayLaws;
    assert Constant(x, times)[..n] == Constant(x, times[..n]);
    assert times[..n][n - 1] == times[n - 1] && times[..n][0] == times[0];
    SustainedScore(cfg, x, times[..n]);
  }

  // ----- In the long run -----

  /** One half to the power n. */
  function Half(n: nat): real { if n == 0 then 1.0 else Half(n - 1) / 2.0 }

  /** The times first, first + h, first + 2h and so on. */
  function Every(first: real, h: real, n: nat): (r: seq<real>)
    ensures |r| == n
  {
    if n == 0 then [] else Every(first, h, n - 1) + [if n == 1 then first else Every(first, h, n - 1)[n - 2] + h]
  }

  lemma HalvedGap(gap: real, d: real, bound: real)
    requires 0.0 < d <= 0.5 && gap <= bound && bound >= 0.0
    ensures Times(d, gap) <= bound / 2.0
  {
    if gap >= 0.0 {
      assert d * gap <= 0.5 * gap;
    } else {
      assert d * gap <= 0.0;
    }
  }

  lemma {:induction false} HalfPositive(n: nat)
    ensures 0.0 < Half(n) <= 1.0
  {
    if n > 0 { HalfPositive(n - 1); }
  }

  /** With observations at least a half-life apart, what is missing to a constant input halves each time, down
      to a thousandth. */
  lemma {:induction false} RegularScore(cfg: AnomalyConfig, x: real, first: real, h: real, n: nat)
    requires DecayLaws(cfg) && cfg.scoreMin == 0.0 && cfg.scoreMax == 100.0 && 0.0 <= x <= 100.0
    requires h >= 0.0 && cfg.decay(h) <= 0.5 && n >= 1
    ensures Observe(cfg, Constant(x, Every(first, h, n))).persistentScore >= x - Times(x, Half(n - 1)) - 0.001
  {
    hide UpdateState, Times, Half, InRange;
    var times := Every(first, h, n);
    var prefix := Every(first, h, n - 1);
    var s := Observe(cfg, Constant(x, prefix));
    assert times[..n - 1] == prefix;
    ConstantPrefix(x, times);
    ObservedInRange(cfg, Constant(x, prefix));
    StepTowardInput(cfg, s, x, times[n - 1]);
    if n == 1 {
      TowardNothing(x);
      WholeShare(x);
    } else {
      RegularScore(cfg, x, first, h, n - 1);
      HalfPositive(n - 2);
      ShareHalves(x, n - 1);
      assert Since(s, times[n - 1]) == h;
      HalvedStep(x, s.persistentScore, cfg.decay(h), Times(x, Half(n - 2)) + 0.001);
    }
  }

  lemma WholeShare(x: real)
    ensures Times(x, Half(0)) == x
  {
  }

  lemma ShareHalves(x: real, n: nat)
    requires n >= 1 && x >= 0.0
    ensures Times(x, Half(n)) == Times(x, Half(n - 1)) / 2.0 && Times(x, Half(n - 1)) >= 0.0
  {
    HalfPositive(n - 1);
  }

  lemma HalvedStep(x: real, s: real, d: real, bound: real)
    requires 0.0 < d <= 0.5 && x - s <= bound && bound >= 0.0
    ensures Times(d, s - x) >= -(bound / 2.0)
  {
    HalvedGap(x - s, d, bound);
    assert Times(d, s - x) == -Times(d, x - s);
  }

  /** An input more than a thousandth above the entry threshold, repeated at least a half-life apart, raises
      the flag after finitely many observations and keeps it up. */
  lemma EventuallyRaised(cfg: AnomalyConfig, x: real, first: real, h: real, n: nat, m: nat)
    requires Sane(cfg) && DecayLaws(cfg) && cfg.scoreMin == 0.0 && cfg.scoreMax == 100.0 && 0.0 <= x <= 100.0
    requires h >= 0.0 && cfg.decay(h) <= 0.5
    requires Times(x, Half(n)) <= x - cfg.enterThreshold - 0.001 && m >= n + cfg.enterTicks
    ensures Observe(cfg, Constant(x, Every(first, h, m))).isAnomalous
  {
    hide Observe, Times;
    var inputs := Constant(x, Every(first, h, m));
    forall j | m - cfg.enterTicks < j <= m ensures ScoreAfter(cfg, inputs, j) >= cfg.enterThreshold {
      EveryPrefix(first, h, m, j);
      assert inputs[..j] == Constant(x, Every(first, h, j));
      RegularScore(cfg, x, first, h, j);
      ShareShrinks(x, n, j - 1);
    }
    HighScoresRaise(cfg, inputs);
  }

  lemma {:induction false} EveryPrefix(first: real, h: real, n: nat, i: nat)
    requires i <= n
    ensures Every(first, h, n)[..i] == Every(first, h, i)
    decreases n
  {
    if i < n {
      EveryPrefix(first, h, n - 1, i);
      assert Every(first, h, n)[..i] == Every(first, h, n - 1)[..i];
    }
  }

  lemma {:induction false} ShareShrinks(x: real, n: nat, i: nat)
    requires n <= i && x >= 0.0
    ensures Times(x, Half(i)) <= Times(x, Half(n))
    decreases i
  {
    hide Times;
    if n < i {
      ShareHalves(x, i);
      ShareShrinks(x, n, i - 1);
    }
  }

  /** Updates without an input at the given times. */
  function Quiet(times: seq<real>): (r: seq<Input>)
    ensures |r| == |times| && forall i | 0 <= i < |times| :: r[i] == (None, times[i])
  {
    seq(|times|, i requires 0 <= i < |times| => (None, times[i]))
  }

  /** A history followed by n updates without an input, each h after the one before. */
  function Silenced(inputs: seq<Input>, h: real, n: nat): seq<Input>
    requires inputs != []
  {
    inputs + Quiet(Every(inputs[|inputs| - 1].1 + h, h, n))
  }

  lemma SilencedStep(inputs: seq<Input>, h: real, n: nat)
    requires inputs != [] && n >= 1
    ensures var r := Silenced(inputs, h, n);
            && |r| >= 2 && r[..|r| - 1] == Silenced(inputs, h, n - 1)
            && r[|r| - 1] == (None, Silenced(inputs, h, n - 1)[|r| - 2].1 + h)
  {
    var first := inputs[|inputs| - 1].1 + h;
    assert Every(first, h, n)[..n - 1] == Every(first, h, n - 1);
    assert Silenced(inputs, h, n)[..|inputs| + n - 1] == inputs + Quiet(Every(first, h, n))[..n - 1];
  }

  /** Without input for at least a half-life at a time the score halves each time, down to a thousandth. */
  lemma {:induction false} SilentScore(cfg: AnomalyConfig, inputs: seq<Input>, h: real, n: nat)
    requires DecayLaws(cfg) && cfg.scoreMin == 0.0 && cfg.scoreMax == 100.0
    requires inputs != [] && h >= 0.0 && cfg.decay(h) <= 0.5
    ensures Observe(cfg, Silenced(inputs, h, n)).persistentScore <= Times(100.0, Half(n)) + 0.001
  {
    hide UpdateState, Times, Silenced;
    if n == 0 {
      assert Silenced(inputs, h, 0) == inputs by { NotSilenced(inputs, h); }
      ObservedInRange(cfg, inputs);
      WholeShare(100.0);
    } else {
      var before := Silenced(inputs, h, n - 1);
      var s := Observe(cfg, before);
      SilencedStep(inputs, h, n);
      SilentScore(cfg, inputs, h, n - 1);
      ObservedInRange(cfg, before);
      var now := before[|before| - 1].1 + h;
      assert Silenced(inputs, h, n)[|before|] == (None, now) && Silenced(inputs, h, n)[..|before|] == before;
      assert Observe(cfg, Silenced(inputs, h, n)) == UpdateState(cfg, s, None, now);
      StepWithoutInput(cfg, s, now);
      assert Since(s, now) == h && 0.0 < cfg.decay(h) <= 1.0;
      ShareHalves(100.0, n);
      HalvedGap(s.persistentScore, cfg.decay(h), Times(100.0, Half(n - 1)) + 0.001);
    }
  }

  lemma NotSilenced(inputs: seq<Input>, h: real)
    requires inputs != []
    ensures Silenced(inputs, h, 0) == inputs
  {
  }

  /** When the last `exitTicks` scores are below the exit threshold the flag is down. */
  lemma LowScoresClear(cfg: AnomalyConfig, inputs: seq<Input>)
    requires Sane(cfg) && |inputs| >= cfg.exitTicks
    requires forall n | |inputs| - cfg.exitTicks < n <= |inputs| :: ScoreAfter(cfg, inputs, n) < cfg.exitThreshold
    ensures !Observe(cfg, inputs).isAnomalous
  {
    hide Observe, Run;
    ObserveDecomposes(cfg, inputs);
    forall i | |inputs| - cfg.exitTicks <= i < |inputs| ensures Scores(cfg, inputs)[i] < cfg.exitThreshold {
      ScoreAt(cfg, inputs, i);
      assert ScoreAfter(cfg, inputs, i + 1) < cfg.exitThreshold;
    }
    if Run(cfg, Scores(cfg, inputs)).isAnomalous {
      NoExitWhileUp(cfg, Scores(cfg, inputs));
    }
  }

  lemma {:induction false} SilencedPrefix(inputs: seq<Input>, h: real, m: nat, j: nat)
    requires inputs != [] && j <= m
    ensures |Silenced(inputs, h, m)| == |inputs| + m
    ensures Silenced(inputs, h, m)[..|inputs| + j] == Silenced(inputs, h, j)
    decreases m
  {
    if j < m {
      SilencedPrefix(inputs, h, m - 1, j);
      SilencedStep(inputs, h, m);
      assert Silenced(inputs, h, m)[..|inputs| + j] == Silenced(inputs, h, m - 1)[..|inputs| + j];
    }
  }

  /** Whatever came before, silence clears the flag after finitely many such updates. */
  lemma EventuallyCleared(cfg: AnomalyConfig, inputs: seq<Input>, h: real, n: nat, m: nat)
    requires Sane(cfg) && DecayLaws(cfg) && cfg.scoreMin == 0.0 && cfg.scoreMax == 100.0
    requires inputs != [] && h >= 0.0 && cfg.decay(h) <= 0.5
    requires Times(100.0, Half(n)) + 0.001 < cfg.exitThreshold && m >= n + cfg.exitTicks
    ensures !Observe(cfg, Silenced(inputs, h, m)).isAnomalous
  {
    hide Observe, Times, Silenced;
    var all := Silenced(inputs, h, m);
    SilencedPrefix(inputs, h, m, m);
    forall l | |all| - cfg.exitTicks < l <= |all| ensures ScoreAfter(cfg, all, l) < cfg.exitThreshold {
      var j := l - |inputs|;
      SilencedPrefix(inputs, h, m, j);
      SilentScore(cfg, inputs, h, j);
      ShareShrinks(100.0, n, j);
    }
    LowScoresClear(cfg, all);
  }

  /** How many halvings bring a share below any positive bound. */
  lemma {:induction false} EnoughHalvings(x: real, bound: real, n: nat)
    requires 0.0 <= x && bound > 0.0 && x <= Times(n as real, bound)
    ensures Times(x, Half(n)) <= bound
  {
    HalfTimes(n);
    HalfPositive(n);
    var q := Half(n);
    assert Times(n as real, bound) * q == (q * n as real) * bound;
    assert x * q <= Times(n as real, bound) * q;
    assert (q * n as real) * bound <= bound by { AtMostOne(q * n as real, bound); }
  }

  lemma AtMostOne(t: real, b: real)
    requires t <= 1.0 && b > 0.0
    ensures t * b <= b
  {
  }

  lemma {:induction false} HalfTimes(n: nat)
    ensures Half(n) * n as real <= 1.0
    ensures Half(n) * (n + 1) as real <= 1.0
  {
    if n > 0 {
      HalfTimes(n - 1);
      HalfPositive(n - 1);
      var q := Half(n - 1);
      assert q * n as real <= 1.0;
      assert q <= 1.0 && Half(n) == q / 2.0;
      assert Half(n) * (n + 1) as real == (q * n as real + q) / 2.0;
      assert Half(n) * n as real == (q * n as real) / 2.0;
    }
  }
}
