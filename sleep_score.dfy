/** The derived sleep score: 70 points for duration (full at 7.5 h), 30 points less
    an awake penalty that is full at 1 h awake, clamped to 0..100. */
module SleepScore {
  import opened Common
  import opened Extract

  /** `Series.clip(lo, hi)` on one value. */
  function Clip(x: real, lo: real, hi: real): (r: real)
    requires lo <= hi
    ensures lo <= r <= hi
    ensures lo <= x <= hi ==> r == x
    ensures x < lo ==> r == lo
    ensures x > hi ==> r == hi
  {
    if x < lo then lo else if x > hi then hi else x
  }

  const DurationTarget: real := 7.5
  const DurationCap: real := 9.0
  const AwakeCap: real := 3.0
  const AwakeFullPenalty: real := 1.0

  function DurationScore(total: real): real
  {
    Clip(Clip(total, 0.0, DurationCap) / DurationTarget, 0.0, 1.0) * 70.0
  }

  function AwakePenalty(awake: real): real
  {
    Clip(Clip(awake, 0.0, AwakeCap) / AwakeFullPenalty, 0.0, 1.0) * 30.0
  }

  /** `sleep_score_derived` for one day. */
  function Score(total: real, awake: real): (s: real)
    ensures 0.0 <= s <= 100.0
  {
    Clip(DurationScore(total) + (30.0 - AwakePenalty(awake)), 0.0, 100.0)
  }

  /** The score in closed form: duration counts linearly up to the 7.5 h target and
      not beyond, awake time costs 30 points per hour up to 1 h, and the final clamp
      never changes the value. */
  lemma {:induction false} ScoreClosedForm(total: real, awake: real)
    ensures var d := if total <= 0.0 then 0.0 else if total >= DurationTarget then DurationTarget else total;
            var a := if awake <= 0.0 then 0.0 else if awake >= AwakeFullPenalty then AwakeFullPenalty else awake;
            Score(total, awake) == d * 70.0 / DurationTarget + 30.0 - a * 30.0
  {
    var d := if total <= 0.0 then 0.0 else if total >= DurationTarget then DurationTarget else total;
    assert Clip(Clip(total, 0.0, DurationCap) / DurationTarget, 0.0, 1.0) == d / DurationTarget;
    assert DurationScore(total) == d * 70.0 / DurationTarget;
  }

  /** More sleep never lowers the score. */
  lemma {:induction false} ScoreMonotoneInTotal(t1: real, t2: real, awake: real)
    requires t1 <= t2
    ensures Score(t1, awake) <= Score(t2, awake)
  {
    ScoreClosedForm(t1, awake);
    ScoreClosedForm(t2, awake);
  }

  /** More time awake never raises the score. */
  lemma {:induction false} ScoreAntitoneInAwake(total: real, a1: real, a2: real)
    requires a1 <= a2
    ensures Score(total, a1) >= Score(total, a2)
  {
    ScoreClosedForm(total, a1);
    ScoreClosedForm(total, a2);
  }

  /** The documented fixed points: no sleep and no waking gives 30, the 7.5 h target
      with no waking gives 100, and one hour awake costs the full 30 points. */
  lemma {:induction false} ScoreFixedPoints()
    ensures Score(0.0, 0.0) == 30.0
    ensures Score(7.5, 0.0) == 100.0
    ensures Score(7.5, 1.0) == 70.0
  {
  }

  /** `derive_sleep_score`: one score per sleep day. */
  function DeriveSleepScore(days: map<Day, SleepDay>): (scores: map<Day, real>)
    ensures scores.Keys == days.Keys
    ensures forall d :: d in scores ==> 0.0 <= scores[d] <= 100.0
  {
    map d | d in days :: Score(days[d].total, days[d].awake)
  }
}
