/** The explainable priority score: five normalized components, weighted, scaled by sensor confidence
    and rounded, with the displayed contributions beside it. */
module Priority {
  import opened TrackIds
  import opened Rounding
  import opened Behavior

  datatype PriorityConfig = PriorityConfig(
    geofence: real, behavior: real, anomaly: real, coordination: real, kinematic: real,
    confidenceBase: real, confidenceScale: real,
    critical: real, high: real, medium: real, scoreMin: real, scoreMax: real)

  datatype IngressStatus = INSIDE | APPROACHES | DIVERGING | NO_INTERSECTION
  datatype Ingress = Ingress(status: IngressStatus, timeToBreach: Option<real>)
  datatype CoordinationEvidence = Formation(sync: real) | Index(value: real)
  datatype KinematicEvidence = Features(speed: real, acceleration: real, turnRate: real) | Score(value: real)
  datatype PriorityLevel = LOW | MEDIUM | HIGH | CRITICAL

  function Round1(x: real): real { RoundTo(x, 10.0) }

  function Round2(x: real): real { RoundTo(x, 100.0) }

  function Score100(x: real): real { Round1(Clamp(0.0, 100.0, x)) }

  predicate AnyStatus(es: seq<Ingress>, s: IngressStatus) { exists i | 0 <= i < |es| :: es[i].status == s }

  /** The times to breach of the approaching estimates that have one. */
  function Breaches(es: seq<Ingress>): seq<real> {
    if es == [] then []
    else
      var e := es[|es| - 1];
      Breaches(es[..|es| - 1])
      + (if e.status == APPROACHES && e.timeToBreach.Some? then [e.timeToBreach.value] else [])
  }

  function MinOf(ts: seq<real>): (m: real)
    requires ts != []
    ensures m in ts && forall t | t in ts :: m <= t
  {
    if |ts| == 1 then ts[0]
    else
      assert ts == ts[..|ts| - 1] + [ts[|ts| - 1]];
      Min(MinOf(ts[..|ts| - 1]), ts[|ts| - 1])
  }

  function BreachScore(t: real): real {
    if t <= 0.0 then 100.0
    else if t <= 60.0 then Round1(Max(30.0, Min(100.0, 100.0 - (t / 60.0) * 70.0)))
    else 30.0
  }

  function GeofenceComponent(es: seq<Ingress>, raw: Option<real>): real {
    if raw.Some? then Score100(raw.value)
    else if AnyStatus(es, INSIDE) then 100.0
    else if AnyStatus(es, APPROACHES) then
      var ts := Breaches(es);
      if ts == [] then 80.0 else BreachScore(MinOf(ts))
    else if AnyStatus(es, DIVERGING) then 15.0
    else 0.0
  }

  function StateScore(s: BehavioralState): real {
    match s
    case NORMAL => 10.0
    case DEPARTING => 20.0
    case LOITERING => 50.0
    case APPROACHING => 70.0
    case COORDINATED => 80.0
    case RAPID_CHANGE => 85.0
    case ANOMALOUS => 90.0
  }

  function BehaviorComponent(state: Option<BehavioralState>, raw: Option<real>): real {
    if raw.Some? then Score100(raw.value)
    else if state.Some? then StateScore(state.value) else 10.0
  }

  function AnomalyComponent(score: Option<real>, raw: Option<real>): real {
    if raw.Some? then Score100(raw.value)
    else if score.Some? then Score100(score.value) else 0.0
  }

  function CoordinationComponent(c: Option<CoordinationEvidence>, raw: Option<real>): real {
    if raw.Some? then Score100(raw.value)
    else match c
      case None => 0.0
      case Some(Formation(sync)) => Score100(sync * 100.0)
      case Some(Index(v)) => if 0.0 <= v <= 1.0 then Round1(v * 100.0) else Score100(v)
  }

  function KinematicComponent(k: Option<KinematicEvidence>, raw: Option<real>): real {
    if raw.Some? then Score100(raw.value)
    else match k
      case None => 0.0
      case Some(Features(speed, accel, turn)) =>
        Score100(Min(1.0, speed / 50.0) * 40.0 + Min(1.0, Abs(accel) / 10.0) * 30.0 + Min(1.0, Abs(turn) / 60.0) * 30.0)
      case Some(Score(v)) => Score100(v)
  }

  datatype Components = Components(
    geofence: real, behavior: real, anomaly: real, coordination: real, kinematic: real)

  datatype Assessment = Assessment(
    trackId: Id, groupId: Option<Id>, score: real, level: PriorityLevel, confidence: real,
    contributions: Components, evaluatedAt: real)

  function Base(cfg: PriorityConfig, p: Components): real {
    Times(cfg.geofence, p.geofence) + Times(cfg.behavior, p.behavior) + Times(cfg.anomaly, p.anomaly)
    + Times(cfg.coordination, p.coordination) + Times(cfg.kinematic, p.kinematic)
  }

  function ConfidenceScale(cfg: PriorityConfig, sensor: Option<real>): real {
    cfg.confidenceBase + Times(cfg.confidenceScale, Clamp(0.0, 1.0, if sensor.Some? then sensor.value else 1.0))
  }

  function FinalScore(cfg: PriorityConfig, p: Components, sensor: Option<real>): real {
    var clamped := Clamp(cfg.scoreMin, cfg.scoreMax, Base(cfg, p));
    Round1(Clamp(cfg.scoreMin, cfg.scoreMax, Times(clamped, ConfidenceScale(cfg, sensor))))
  }

  function ClassifyLevel(cfg: PriorityConfig, score: real): PriorityLevel {
    if score >= cfg.critical then CRITICAL
    else if score >= cfg.high then HIGH
    else if score >= cfg.medium then MEDIUM
    else LOW
  }

  function Contributions(cfg: PriorityConfig, p: Components): Components {
    Components(Round2(Times(cfg.geofence, p.geofence)), Round2(Times(cfg.behavior, p.behavior)),
               Round2(Times(cfg.anomaly, p.anomaly)), Round2(Times(cfg.coordination, p.coordination)),
               Round2(Times(cfg.kinematic, p.kinematic)))
  }

  function Evaluate(cfg: PriorityConfig, trackId: Id, groupId: Option<Id>, p: Components,
                    sensor: Option<real>, now: real): Assessment {
    var score := FinalScore(cfg, p, sensor);
    Assessment(trackId, groupId, score, ClassifyLevel(cfg, score),
               RoundTo(Clamp(0.0, 1.0, if sensor.Some? then sensor.value else 1.0), 1000.0),
               Contributions(cfg, p), now)
  }

  // ----- Bounds -----

  lemma Score100InRange(x: real)
    ensures 0.0 <= Score100(x) <= 100.0
  {
    RoundMonotone(0.0, Clamp(0.0, 100.0, x), 10.0);
    RoundMonotone(Clamp(0.0, 100.0, x), 100.0, 10.0);
    RoundExact(0, 10.0);
    RoundExact(1000, 10.0);
  }

  lemma BreachScoreInRange(t: real)
    ensures 30.0 <= BreachScore(t) <= 100.0
  {
    var x := Max(30.0, Min(100.0, 100.0 - (t / 60.0) * 70.0));
    RoundMonotone(30.0, x, 10.0);
    RoundMonotone(x, 100.0, 10.0);
    RoundExact(300, 10.0);
    RoundExact(1000, 10.0);
  }

  ghost predicate InRange(p: Components) {
    && 0.0 <= p.geofence <= 100.0 && 0.0 <= p.behavior <= 100.0 && 0.0 <= p.anomaly <= 100.0
    && 0.0 <= p.coordination <= 100.0 && 0.0 <= p.kinematic <= 100.0
  }

  /** Every component is normalized to [0, 100], whatever the evidence or override. */
  lemma ComponentsInRange(es: seq<Ingress>, state: Option<BehavioralState>, score: Option<real>,
                          c: Option<CoordinationEvidence>, k: Option<KinematicEvidence>, raw: Option<real>)
    ensures InRange(Components(GeofenceComponent(es, raw), BehaviorComponent(state, raw), AnomalyComponent(score, raw),
                               CoordinationComponent(c, raw), KinematicComponent(k, raw)))
  {
    hide Score100, BreachScore, Round1;
    forall x ensures 0.0 <= Score100(x) <= 100.0 { Score100InRange(x); }
    forall t ensures 0.0 <= BreachScore(t) <= 100.0 { BreachScoreInRange(t); }
    if c.Some? && c.value.Index? && 0.0 <= c.value.value <= 1.0 {
      UnitScore(c.value.value);
    }
  }

  lemma UnitScore(v: real)
    requires 0.0 <= v <= 1.0
    ensures Round1(v * 100.0) == Score100(v * 100.0)
    ensures 0.0 <= Round1(v * 100.0) <= 100.0
  {
    Score100InRange(v * 100.0);
  }

  /** The contributions shown to the operator add up to the base score within 0.025. */
  lemma ContributionsReconcile(cfg: PriorityConfig, p: Components)
    ensures var c := Contributions(cfg, p);
            Abs(c.geofence + c.behavior + c.anomaly + c.coordination + c.kinematic - Base(cfg, p)) <= 0.025
  {
    hide Round2, Times;
    Round2Error(Times(cfg.geofence, p.geofence));
    Round2Error(Times(cfg.behavior, p.behavior));
    Round2Error(Times(cfg.anomaly, p.anomaly));
    Round2Error(Times(cfg.coordination, p.coordination));
    Round2Error(Times(cfg.kinematic, p.kinematic));
  }

  lemma Round2Error(x: real)
    ensures -0.005 <= Round2(x) - x <= 0.005
  {
    RoundError(x, 100.0);
    hide RoundTo;
  }

  /** With the default bounds the final score lies in [0, 100] and within 0.05 of the unrounded one. */
  lemma FinalInRange(cfg: PriorityConfig, p: Components, sensor: Option<real>)
    requires cfg.scoreMin == 0.0 && cfg.scoreMax == 100.0
    ensures 0.0 <= FinalScore(cfg, p, sensor) <= 100.0
    ensures var exact := Clamp(0.0, 100.0, Times(Clamp(0.0, 100.0, Base(cfg, p)), ConfidenceScale(cfg, sensor)));
            Abs(FinalScore(cfg, p, sensor) - exact) <= 0.05
  {
    hide Base, ConfidenceScale, Score100, Times, Round1;
    var x := Times(Clamp(0.0, 100.0, Base(cfg, p)), ConfidenceScale(cfg, sensor));
    assert FinalScore(cfg, p, sensor) == Score100(x) by { Score100Is(x); }
    Score100Near(x);
  }

  lemma Score100Is(x: real)
    ensures Score100(x) == Round1(Clamp(0.0, 100.0, x))
  {
  }

  lemma Score100Near(x: real)
    ensures 0.0 <= Score100(x) <= 100.0 && Abs(Score100(x) - Clamp(0.0, 100.0, x)) <= 0.05
  {
    Score100InRange(x);
    RoundError(Clamp(0.0, 100.0, x), 10.0);
    hide RoundTo;
  }

  // ----- Monotonicity -----

  ghost predicate NonNegative(cfg: PriorityConfig) {
    && cfg.geofence >= 0.0 && cfg.behavior >= 0.0 && cfg.anomaly >= 0.0
    && cfg.coordination >= 0.0 && cfg.kinematic >= 0.0
    && cfg.confidenceBase >= 0.0 && cfg.confidenceScale >= 0.0 && 0.0 <= cfg.scoreMin <= cfg.scoreMax
  }

  ghost predicate AtMost(p: Components, q: Components) {
    && p.geofence <= q.geofence && p.behavior <= q.behavior && p.anomaly <= q.anomaly
    && p.coordination <= q.coordination && p.kinematic <= q.kinematic
  }

  function Rank(l: PriorityLevel): int {
    match l case LOW => 0 case MEDIUM => 1 case HIGH => 2 case CRITICAL => 3
  }

  lemma TimesMonotone(a: real, b: real, s: real, t: real)
    requires 0.0 <= a <= b && 0.0 <= s <= t
    ensures 0.0 <= Times(a, s) <= Times(b, t)
  {
    MulMonotone(a, b, s);
    WeightMonotone(b, s, t);
  }

  lemma WeightMonotone(w: real, x: real, y: real)
    requires w >= 0.0 && x <= y
    ensures Times(w, x) <= Times(w, y)
  {
  }

  lemma BaseMonotone(cfg: PriorityConfig, p: Components, q: Components)
    requires NonNegative(cfg) && AtMost(p, q)
    ensures Base(cfg, p) <= Base(cfg, q)
  {
    hide Times;
    WeightMonotone(cfg.geofence, p.geofence, q.geofence);
    WeightMonotone(cfg.behavior, p.behavior, q.behavior);
    WeightMonotone(cfg.anomaly, p.anomaly, q.anomaly);
    WeightMonotone(cfg.coordination, p.coordination, q.coordination);
    WeightMonotone(cfg.kinematic, p.kinematic, q.kinematic);
  }

  lemma ConfidenceMonotone(cfg: PriorityConfig, s: real, t: real)
    requires NonNegative(cfg) && s <= t
    ensures 0.0 <= ConfidenceScale(cfg, Some(s)) <= ConfidenceScale(cfg, Some(t))
  {
    var x, y := Clamp(0.0, 1.0, s), Clamp(0.0, 1.0, t);
    TimesMonotone(cfg.confidenceScale, cfg.confidenceScale, x, y);
    hide Times;
  }

  /** More evidence in any component, or more sensor confidence, never lowers the final score or the
      level, through every clamp and rounding. */
  lemma ScoreMonotone(cfg: PriorityConfig, p: Components, q: Components, s: real, t: real)
    requires NonNegative(cfg) && AtMost(p, q) && s <= t
    ensures FinalScore(cfg, p, Some(s)) <= FinalScore(cfg, q, Some(t))
    ensures Rank(ClassifyLevel(cfg, FinalScore(cfg, p, Some(s))))
            <= Rank(ClassifyLevel(cfg, FinalScore(cfg, q, Some(t))))
  {
    hide Base, RoundTo, Times;
    BaseMonotone(cfg, p, q);
    var a, b := Clamp(cfg.scoreMin, cfg.scoreMax, Base(cfg, p)), Clamp(cfg.scoreMin, cfg.scoreMax, Base(cfg, q));
    var u, v := ConfidenceScale(cfg, Some(s)), ConfidenceScale(cfg, Some(t));
    ConfidenceMonotone(cfg, s, t);
    TimesMonotone(a, b, u, v);
    hide ConfidenceScale;
    RoundMonotone(Clamp(cfg.scoreMin, cfg.scoreMax, Times(a, u)), Clamp(cfg.scoreMin, cfg.scoreMax, Times(b, v)), 10.0);
  }

  lemma BreachScoreAntitone(t: real, u: real)
    requires t <= u
    ensures BreachScore(u) <= BreachScore(t)
  {
    BreachScoreInRange(t);
    BreachScoreInRange(u);
    if 0.0 < t && u <= 60.0 {
      RoundMonotone(Max(30.0, Min(100.0, 100.0 - (u / 60.0) * 70.0)),
                    Max(30.0, Min(100.0, 100.0 - (t / 60.0) * 70.0)), 10.0);
    }
  }

  lemma {:induction false} BreachesAppend(es: seq<Ingress>, fs: seq<Ingress>)
    ensures Breaches(es + fs) == Breaches(es) + Breaches(fs)
    decreases |fs|
  {
    if fs == [] {
      assert es + fs == es;
    } else {
      var n := |es + fs| - 1;
      assert (es + fs)[..n] == es + fs[..|fs| - 1];
      BreachesAppend(es, fs[..|fs| - 1]);
    }
  }

  /** A further forecast with a breach time can only raise the geofence component, as long as some
      breach time is known already. */
  lemma MoreForecastsRaise(es: seq<Ingress>, e: Ingress)
    requires AnyStatus(es, APPROACHES) && Breaches(es) != []
    ensures GeofenceComponent(es, None) <= GeofenceComponent(es + [e], None)
  {
    var fs := es + [e];
    var i :| 0 <= i < |es| && es[i].status == APPROACHES;
    assert fs[i].status == APPROACHES;
    BreachesAppend(es, [e]);
    assert Breaches([e][..0]) == [];
    if AnyStatus(es, INSIDE) {
      var j :| 0 <= j < |es| && es[j].status == INSIDE;
      assert fs[j].status == INSIDE;
    } else if AnyStatus(fs, INSIDE) {
      BreachScoreInRange(MinOf(Breaches(es)));
    } else {
      assert forall t | t in Breaches(es) :: t in Breaches(fs);
      BreachScoreAntitone(MinOf(Breaches(fs)), MinOf(Breaches(es)));
    }
  }

  lemma AnyStatusAppend(es: seq<Ingress>, e: Ingress, s: IngressStatus)
    ensures AnyStatus(es + [e], s) <==> AnyStatus(es, s) || e.status == s
  {
    var fs := es + [e];
    if AnyStatus(es, s) {
      var i :| 0 <= i < |es| && es[i].status == s;
      assert fs[i].status == s;
    }
    if e.status == s {
      assert fs[|es|].status == s;
    }
  }

  /** The new forecast is the first to give a breach time for a track that was known to approach. */
  predicate FirstBreachTime(es: seq<Ingress>, e: Ingress) {
    && !AnyStatus(es + [e], INSIDE) && AnyStatus(es, APPROACHES) && Breaches(es) == []
    && e.status == APPROACHES && e.timeToBreach.Some?
  }

  /** A further forecast lowers the geofence component if and only if it brings the first breach time of
      an approaching track and that time is more than 1203/70 (about 17.2) seconds off. */
  lemma ForecastLowersIff(es: seq<Ingress>, e: Ingress)
    ensures GeofenceComponent(es + [e], None) < GeofenceComponent(es, None)
            <==> FirstBreachTime(es, e) && 70.0 * e.timeToBreach.value > 1203.0
  {
    hide BreachScore;
    AnyStatusAppend(es, e, INSIDE);
    AnyStatusAppend(es, e, APPROACHES);
    AnyStatusAppend(es, e, DIVERGING);
    BreachesAppend(es, [e]);
    assert [e][..0] == [] && Breaches([e][..0]) == [];
    var ts, us := Breaches(es), Breaches(es + [e]);
    if AnyStatus(es, APPROACHES) && ts != [] {
      MoreForecastsRaise(es, e);
    } else {
      if ts != [] {
        HasBreach(es);
      }
      if us != [] {
        BreachScoreInRange(MinOf(us));
        LateBreach(MinOf(us));
      }
    }
  }

  lemma {:induction false} HasBreach(es: seq<Ingress>)
    requires Breaches(es) != []
    ensures AnyStatus(es, APPROACHES)
    decreases |es|
  {
    var prefix, e := es[..|es| - 1], es[|es| - 1];
    assert es == prefix + [e];
    AnyStatusAppend(prefix, e, APPROACHES);
    if Breaches(prefix) != [] {
      HasBreach(prefix);
    }
  }

  /** A breach scores below the 80 of an unknown time when it is more than 1203/70 seconds off. */
  lemma LateBreach(t: real)
    ensures BreachScore(t) < 80.0 <==> 70.0 * t > 1203.0
  {
    if 0.0 < t <= 60.0 {
      var x := Max(30.0, Min(100.0, 100.0 - (t / 60.0) * 70.0));
      assert BreachScore(t) == RoundTo(x, 10.0);
      assert (t / 60.0) * 70.0 > 20.05 <==> 70.0 * t > 1203.0;
      RoundBelow80(x);
    }
  }

  lemma RoundBelow80(x: real)
    ensures RoundTo(x, 10.0) < 80.0 <==> x < 79.95
  {
    var n := RoundHalfEven(x * 10.0);
    assert RoundTo(x, 10.0) == n as real / 10.0;
    assert n < 800 <==> x * 10.0 < 799.5;
  }

  /** With no breach time known yet that fails: learning that the breach is far off lowers the
      component from 80 to 30. */
  lemma FirstForecastMayLower()
    ensures GeofenceComponent([Ingress(APPROACHES, None)], None) == 80.0
    ensures GeofenceComponent([Ingress(APPROACHES, None), Ingress(APPROACHES, Some(90.0))], None) == 30.0
  {
    var a, b := [Ingress(APPROACHES, None)], [Ingress(APPROACHES, None), Ingress(APPROACHES, Some(90.0))];
    assert a[0].status == APPROACHES && b[0].status == APPROACHES;
    assert a[..0] == [] && b[..1] == a;
    assert Breaches(a) == [];
    assert Breaches(b) == [90.0];
  }

  // ----- The documented formula -----

  /** The default weights, scaling and thresholds. */
  const DEFAULT := PriorityConfig(0.30, 0.25, 0.20, 0.15, 0.10, 0.30, 0.70, 80.0, 60.0, 30.0, 0.0, 100.0)

  lemma ProductBound(b: real, f: real)
    requires 0.0 <= b <= 100.0 && 0.0 <= f <= 1.0
    ensures 0.0 <= Times(b, f) <= 100.0
  {
    assert 0.0 <= b * f <= b;
  }

  /** By default the score is the weighted sum of the components times the confidence share, rounded to one
      decimal: full with full (or unknown) confidence, three tenths with none. */
  lemma DefaultScoreIs(p: Components, sensor: Option<real>)
    requires InRange(p)
    ensures Abs(FinalScore(DEFAULT, p, sensor) - Times(WeightedSum(p), 0.30 + 0.70 * Share(sensor))) <= 0.05
  {
    hide FinalScore, Base, ConfidenceScale, Times, WeightedSum, Share;
    DefaultParts(p, sensor);
    FinalInRange(DEFAULT, p, sensor);
    ProductBound(WeightedSum(p), 0.30 + 0.70 * Share(sensor));
  }

  function WeightedSum(p: Components): real {
    0.30 * p.geofence + 0.25 * p.behavior + 0.20 * p.anomaly + 0.15 * p.coordination + 0.10 * p.kinematic
  }

  function Share(sensor: Option<real>): real {
    match sensor
    case None => 1.0
    case Some(c) => if c > 1.0 then 1.0 else if c < 0.0 then 0.0 else c
  }

  lemma DefaultParts(p: Components, sensor: Option<real>)
    requires InRange(p)
    ensures Base(DEFAULT, p) == WeightedSum(p) && 0.0 <= WeightedSum(p) <= 100.0
    ensures ConfidenceScale(DEFAULT, sensor) == 0.30 + 0.70 * Share(sensor) && 0.0 <= Share(sensor) <= 1.0
  {
  }

  /** The level by the default thresholds. */
  lemma DefaultLevelIs(score: real)
    ensures ClassifyLevel(DEFAULT, score) == CRITICAL <==> 80.0 <= score
    ensures ClassifyLevel(DEFAULT, score) == HIGH <==> 60.0 <= score < 80.0
    ensures ClassifyLevel(DEFAULT, score) == MEDIUM <==> 30.0 <= score < 60.0
    ensures ClassifyLevel(DEFAULT, score) == LOW <==> score < 30.0
  {
  }

  /** Each contribution is its own component's share, to the cent. */
  lemma ContributionsAre(cfg: PriorityConfig, p: Components)
    ensures var c := Contributions(cfg, p);
            && Abs(c.geofence - Times(cfg.geofence, p.geofence)) <= 0.005
            && Abs(c.behavior - Times(cfg.behavior, p.behavior)) <= 0.005
            && Abs(c.anomaly - Times(cfg.anomaly, p.anomaly)) <= 0.005
            && Abs(c.coordination - Times(cfg.coordination, p.coordination)) <= 0.005
            && Abs(c.kinematic - Times(cfg.kinematic, p.kinematic)) <= 0.005
  {
    hide Round2, Times;
    Round2Error(Times(cfg.geofence, p.geofence));
    Round2Error(Times(cfg.behavior, p.behavior));
    Round2Error(Times(cfg.anomaly, p.anomaly));
    Round2Error(Times(cfg.coordination, p.coordination));
    Round2Error(Times(cfg.kinematic, p.kinematic));
  }

  /** What the assessment reports: its track and group, the score with its level, the confidence to three
      decimals. */
  lemma AssessmentIs(cfg: PriorityConfig, trackId: Id, groupId: Option<Id>, p: Components, sensor: Option<real>,
                     now: real)
    ensures var a := Evaluate(cfg, trackId, groupId, p, sensor, now);
            && a.trackId == trackId && a.groupId == groupId && a.evaluatedAt == now
            && a.score == FinalScore(cfg, p, sensor) && a.level == ClassifyLevel(cfg, a.score)
            && a.contributions == Contributions(cfg, p)
            && (sensor.Some? && 0.0 <= sensor.value <= 1.0 ==> Abs(a.confidence - sensor.value) <= 0.0005)
            && (sensor.None? ==> a.confidence == 1.0)
  {
    RoundError(Clamp(0.0, 1.0, if sensor.Some? then sensor.value else 1.0), 1000.0);
    RoundExact(1000, 1000.0);
    hide FinalScore, Contributions, RoundTo;
  }

  // ----- The components -----

  /** The score is the value, clamped and to one decimal. */
  predicate Shown(score: real, value: real) { Abs(score - Clamp(0.0, 100.0, value)) <= 0.05 }

  /** An override is taken as it is; missing evidence is neutral. */
  lemma OverrideOrNeutral(es: seq<Ingress>, state: Option<BehavioralState>, score: Option<real>,
                          c: Option<CoordinationEvidence>, k: Option<KinematicEvidence>, raw: real)
    ensures Shown(GeofenceComponent(es, Some(raw)), raw) && Shown(BehaviorComponent(state, Some(raw)), raw)
    ensures Shown(AnomalyComponent(score, Some(raw)), raw) && Shown(CoordinationComponent(c, Some(raw)), raw)
    ensures Shown(KinematicComponent(k, Some(raw)), raw)
    ensures GeofenceComponent([], None) == 0.0 && BehaviorComponent(None, None) == 10.0
    ensures AnomalyComponent(None, None) == CoordinationComponent(None, None) == KinematicComponent(None, None) == 0.0
  {
    Score100Near(raw);
    hide Score100;
  }

  /** Behaviours from the least to the most alarming. */
  lemma BehaviorsRanked()
    ensures 10.0 == BehaviorComponent(Some(NORMAL), None) < BehaviorComponent(Some(DEPARTING), None) == 20.0
    ensures 20.0 < BehaviorComponent(Some(LOITERING), None) == 50.0 < BehaviorComponent(Some(APPROACHING), None) == 70.0
    ensures 70.0 < BehaviorComponent(Some(COORDINATED), None) == 80.0
    ensures 80.0 < BehaviorComponent(Some(RAPID_CHANGE), None) == 85.0
    ensures 85.0 < BehaviorComponent(Some(ANOMALOUS), None) == 90.0
  {
  }

  /** Measured scores come through clamped, to one decimal; a synchronization index counts in percent. */
  lemma MeasuresAre(score: real, sync: real)
    ensures Shown(AnomalyComponent(Some(score), None), score)
    ensures Shown(KinematicComponent(Some(KinematicEvidence.Score(score)), None), score)
    ensures Shown(CoordinationComponent(Some(CoordinationEvidence.Formation(sync)), None), 100.0 * sync)
    ensures 0.0 <= sync <= 1.0 ==>
              CoordinationComponent(Some(Index(sync)), None)
              == CoordinationComponent(Some(CoordinationEvidence.Formation(sync)), None)
    ensures score > 1.0 || score < 0.0 ==> Shown(CoordinationComponent(Some(Index(score)), None), score)
  {
    Score100Near(score);
    Score100Near(sync * 100.0);
    if 0.0 <= sync <= 1.0 { UnitScore(sync); }
    hide Score100, Round1;
  }

  /** Speed up to 50 counts 40, acceleration up to 10 and turn rate up to 60 either way count 30 each. */
  lemma KinematicsAre(speed: real, accel: real, turn: real)
    requires speed >= 0.0
    ensures var v := if speed >= 50.0 then 40.0 else 0.8 * speed;
            var a := if accel >= 10.0 || accel <= -10.0 then 30.0 else 3.0 * Abs(accel);
            var t := if turn >= 60.0 || turn <= -60.0 then 30.0 else 0.5 * Abs(turn);
            Abs(KinematicComponent(Some(Features(speed, accel, turn)), None) - (v + a + t)) <= 0.05
  {
    Score100Near(Min(1.0, speed / 50.0) * 40.0 + Min(1.0, Abs(accel) / 10.0) * 30.0
                 + Min(1.0, Abs(turn) / 60.0) * 30.0);
    hide Score100;
  }

  /** Inside counts 100; approaching counts from 100 now down to 30 in a minute or more by the earliest breach
      time, 80 without one; only diverging 15; else nothing. */
  lemma GeofenceIs(es: seq<Ingress>)
    ensures var g := GeofenceComponent(es, None);
            && ((exists e :: e in es && e.status == INSIDE) ==> g == 100.0)
            && ((forall e | e in es :: e.status != INSIDE) && (exists e :: e in es && e.status == APPROACHES) ==>
                  || (g == 80.0 && forall e | e in es && e.status == APPROACHES :: e.timeToBreach == None)
                  || exists e :: e in es && e.status == APPROACHES && e.timeToBreach.Some?
                                 && (forall o | o in es && o.status == APPROACHES && o.timeToBreach.Some? ::
                                       e.timeToBreach.value <= o.timeToBreach.value)
                                 && BreachShare(e.timeToBreach.value, g))
            && ((forall e | e in es :: e.status == DIVERGING || e.status == NO_INTERSECTION)
                ==> (g == 15.0 <==> exists e :: e in es && e.status == DIVERGING))
            && ((forall e | e in es :: e.status == NO_INTERSECTION) ==> g == 0.0)
  {
    hide BreachScore;
    StatusIs(es, INSIDE);
    StatusIs(es, APPROACHES);
    StatusIs(es, DIVERGING);
    BreachesAre(es);
    if Breaches(es) != [] {
      var t := MinOf(Breaches(es));
      BreachShareIs(t);
      var e :| e in es && e.status == APPROACHES && e.timeToBreach == Some(t);
    }
  }

  lemma StatusIs(es: seq<Ingress>, s: IngressStatus)
    ensures AnyStatus(es, s) <==> exists e :: e in es && e.status == s
  {
    if AnyStatus(es, s) {
      var i :| 0 <= i < |es| && es[i].status == s;
      assert es[i] in es;
    }
  }

  lemma {:induction false} BreachesAre(es: seq<Ingress>)
    ensures forall t ::
              t in Breaches(es) <==> exists e :: e in es && e.status == APPROACHES && e.timeToBreach == Some(t)
    decreases |es|
  {
    if es != [] {
      BreachesAre(es[..|es| - 1]);
      assert es == es[..|es| - 1] + [es[|es| - 1]];
    }
  }

  /** 100 when due, 30 in a minute or later, in between on the straight line, to one decimal. */
  predicate BreachShare(t: real, g: real) {
    if t <= 0.0 then g == 100.0
    else if t > 60.0 then g == 30.0
    else Abs(g - (100.0 - 7.0 * t / 6.0)) <= 0.05
  }

  lemma BreachShareIs(t: real)
    ensures BreachShare(t, BreachScore(t))
  {
    if 0.0 < t <= 60.0 {
      var x := 100.0 - (t / 60.0) * 70.0;
      assert x == 100.0 - 7.0 * t / 6.0 && 30.0 <= x <= 100.0;
      RoundError(x, 10.0);
      hide RoundTo;
    }
  }
}
