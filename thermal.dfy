/** The Newton-cooling simulator: the analytic solution T(t) = T_amb + (T_0 - T_amb) e^(-k t)
    sampled on 100 evenly spaced times from 0 to the time span, and the first sampled time
    at which the temperature reaches the critical threshold. */
module Thermal {
  import opened Numerics
  import opened Grid
  import opened Algebra

  /** What `simulate_cooling` returns. */
  datatype CoolingRun = CoolingRun(times: seq<real>, temps: seq<real>, timeToFail: Option<real>)

  /** The temperature once the initial gap to the ambient temperature has been scaled by
      `factor`. */
  function Relaxed(tAmb: real, tInitial: real, factor: real): real {
    tAmb + (tInitial - tAmb) * factor
  }

  /** The analytic solution of Newton's law of cooling at time `time`: the initial gap decays
      by the factor e^(-k time). */
  function Temperature(t: Transcendentals, tAmb: real, tInitial: real, k: real, time: real): real {
    Relaxed(tAmb, tInitial, t.exp(-k * time))
  }

  /** `np.where(s >= c)[0]` over the indices from `from` on: every index whose value reaches
      the threshold, in increasing order. */
  function Where(s: seq<real>, c: real, from: nat): (r: seq<nat>)
    requires from <= |s|
    ensures forall m :: 0 <= m < |r| ==> from <= r[m] < |s| && s[r[m]] >= c
    ensures forall j :: from <= j < |s| && s[j] >= c ==> j in r
    ensures forall m, n :: 0 <= m < n < |r| ==> r[m] < r[n]
    decreases |s| - from
  {
    if from == |s| then []
    else if s[from] >= c then [from] + Where(s, c, from + 1)
    else Where(s, c, from + 1)
  }

  /** `simulate_cooling`. */
  function SimulateCooling(t: Transcendentals, tAmb: real, tInitial: real, tCritical: real,
                           timeSpan: real, k: real): (r: CoolingRun)
    ensures r.times == Linspace(0.0, timeSpan, Samples)
    ensures |r.temps| == Samples
    ensures forall i :: 0 <= i < Samples ==> r.temps[i] == Temperature(t, tAmb, tInitial, k, r.times[i])
  {
    var times := Linspace(0.0, timeSpan, Samples);
    var temps := seq(Samples, i requires 0 <= i < Samples => Temperature(t, tAmb, tInitial, k, times[i]));
    var risk := Where(temps, tCritical, 0);
    CoolingRun(times, temps, if |risk| > 0 then Some(times[risk[0]]) else None)
  }

  // ---------------------------------------------------------------------------------
  // The first index at or above a threshold

  /** The first index `np.where` reports is the least index whose value reaches the
      threshold; it reports none exactly when no value does. */
  lemma WhereFirst(s: seq<real>, c: real)
    ensures |Where(s, c, 0)| == 0 <==> forall j :: 0 <= j < |s| ==> s[j] < c
    ensures |Where(s, c, 0)| > 0 ==>
              var i := Where(s, c, 0)[0];
              i < |s| && s[i] >= c && forall j :: 0 <= j < i ==> s[j] < c
  {
  }

  // ---------------------------------------------------------------------------------
  // The temperature curve

  /** The curve starts at the initial temperature. */
  lemma TemperatureAtZero(t: Transcendentals, tAmb: real, tInitial: real, k: real)
    requires t.Sound()
    ensures Temperature(t, tAmb, tInitial, k, 0.0) == tInitial
  {
    assert -k * 0.0 == 0.0;
  }

  /** At a non-negative time with a non-negative constant, the temperature lies between the
      ambient and the initial temperatures. */
  lemma TemperatureBetween(t: Transcendentals, tAmb: real, tInitial: real, k: real, time: real)
    requires t.Sound() && k >= 0.0 && time >= 0.0
    ensures tInitial <= tAmb ==> tInitial <= Temperature(t, tAmb, tInitial, k, time) <= tAmb
    ensures tAmb <= tInitial ==> tAmb <= Temperature(t, tAmb, tInitial, k, time) <= tInitial
  {
    MulNonNeg(k, time);
    ExpOfNonPositive(t, -k * time);
    RelaxedBetween(tAmb, tInitial, t.exp(-k * time));
  }

  /** A factor in (0, 1] leaves the temperature between the ambient and the initial ones. */
  lemma RelaxedBetween(tAmb: real, tInitial: real, factor: real)
    requires 0.0 < factor <= 1.0
    ensures tInitial <= tAmb ==> tInitial <= Relaxed(tAmb, tInitial, factor) <= tAmb
    ensures tAmb <= tInitial ==> tAmb <= Relaxed(tAmb, tInitial, factor) <= tInitial
  {
    ScaledGap(tAmb, tInitial, factor);
  }

  /** With a non-negative constant the curve rises towards a warmer ambient, falls towards a
      cooler one, and stays at the ambient temperature when it starts there. */
  lemma TemperatureMonotone(t: Transcendentals, tAmb: real, tInitial: real, k: real,
                            t1: real, t2: real)
    requires t.Sound() && k >= 0.0 && t1 <= t2
    ensures tInitial < tAmb ==> Temperature(t, tAmb, tInitial, k, t1) <= Temperature(t, tAmb, tInitial, k, t2)
    ensures tInitial > tAmb ==> Temperature(t, tAmb, tInitial, k, t1) >= Temperature(t, tAmb, tInitial, k, t2)
    ensures tInitial == tAmb ==> Temperature(t, tAmb, tInitial, k, t1) == tAmb
  {
    MulNonNeg(k, t2 - t1);
    assert -k * t2 <= -k * t1;
    if -k * t2 < -k * t1 {
      assert t.exp(-k * t2) < t.exp(-k * t1);
    }
    RelaxedMonotone(tAmb, tInitial, t.exp(-k * t1), t.exp(-k * t2));
  }

  /** A smaller factor brings the temperature closer to the ambient one. */
  lemma RelaxedMonotone(tAmb: real, tInitial: real, e1: real, e2: real)
    requires e2 <= e1
    ensures tInitial < tAmb ==> Relaxed(tAmb, tInitial, e1) <= Relaxed(tAmb, tInitial, e2)
    ensures tInitial > tAmb ==> Relaxed(tAmb, tInitial, e1) >= Relaxed(tAmb, tInitial, e2)
    ensures tInitial == tAmb ==> Relaxed(tAmb, tInitial, e1) == tAmb
  {
    ScaledGapMonotone(tAmb, tInitial, e1, e2);
  }

  // ---------------------------------------------------------------------------------
  // The simulated run

  /** A non-negative span gives 100 non-decreasing sample times from 0 to the span. */
  lemma CoolingTimes(t: Transcendentals, tAmb: real, tInitial: real, tCritical: real,
                     timeSpan: real, k: real)
    requires timeSpan >= 0.0
    ensures var r := SimulateCooling(t, tAmb, tInitial, tCritical, timeSpan, k);
            && |r.times| == Samples && r.times[0] == 0.0 && r.times[Samples - 1] == timeSpan
            && (forall i, j :: 0 <= i <= j < Samples ==> r.times[i] <= r.times[j])
            && (forall i :: 0 <= i < Samples ==> 0.0 <= r.times[i] <= timeSpan)
  {
    LinspaceOrdered(0.0, timeSpan, Samples);
  }

  /** The sampled curve starts at the initial temperature, stays between the initial and the
      ambient temperatures, and moves monotonically towards the ambient one. */
  lemma CoolingCurve(t: Transcendentals, tAmb: real, tInitial: real, tCritical: real,
                     timeSpan: real, k: real)
    requires t.Sound() && timeSpan >= 0.0 && k >= 0.0
    ensures var r := SimulateCooling(t, tAmb, tInitial, tCritical, timeSpan, k);
            && r.temps[0] == tInitial
            && (forall i :: 0 <= i < Samples && tInitial <= tAmb ==> tInitial <= r.temps[i] <= tAmb)
            && (forall i :: 0 <= i < Samples && tAmb <= tInitial ==> tAmb <= r.temps[i] <= tInitial)
            && (forall i, j :: 0 <= i <= j < Samples && tInitial < tAmb ==> r.temps[i] <= r.temps[j])
            && (forall i, j :: 0 <= i <= j < Samples && tInitial > tAmb ==> r.temps[i] >= r.temps[j])
            && (forall i :: 0 <= i < Samples && tInitial == tAmb ==> r.temps[i] == tAmb)
  {
    var r := SimulateCooling(t, tAmb, tInitial, tCritical, timeSpan, k);
    CoolingTimes(t, tAmb, tInitial, tCritical, timeSpan, k);
    TemperatureAtZero(t, tAmb, tInitial, k);
    forall i | 0 <= i < Samples
      ensures tInitial <= tAmb ==> tInitial <= r.temps[i] <= tAmb
      ensures tAmb <= tInitial ==> tAmb <= r.temps[i] <= tInitial
      ensures tInitial == tAmb ==> r.temps[i] == tAmb
    {
      TemperatureBetween(t, tAmb, tInitial, k, r.times[i]);
      TemperatureMonotone(t, tAmb, tInitial, k, r.times[i], r.times[i]);
    }
    forall i, j | 0 <= i <= j < Samples
      ensures tInitial < tAmb ==> r.temps[i] <= r.temps[j]
      ensures tInitial > tAmb ==> r.temps[i] >= r.temps[j]
    {
      TemperatureMonotone(t, tAmb, tInitial, k, r.times[i], r.times[j]);
    }
  }

  /** The reported failure time is absent exactly when no sample reaches the critical
      temperature; otherwise it is the time of the first sample that does. */
  lemma FailureTime(t: Transcendentals, tAmb: real, tInitial: real, tCritical: real,
                    timeSpan: real, k: real)
    ensures var r := SimulateCooling(t, tAmb, tInitial, tCritical, timeSpan, k);
            && (r.timeToFail.None? <==> forall i :: 0 <= i < Samples ==> r.temps[i] < tCritical)
            && (r.timeToFail.Some? ==>
                  exists i :: 0 <= i < Samples && r.timeToFail.value == r.times[i]
                              && r.temps[i] >= tCritical
                              && forall j :: 0 <= j < i ==> r.temps[j] < tCritical)
  {
    var r := SimulateCooling(t, tAmb, tInitial, tCritical, timeSpan, k);
    var risk := Where(r.temps, tCritical, 0);
    assert r.timeToFail == if |risk| > 0 then Some(r.times[risk[0]]) else None;
    WhereFirst(r.temps, tCritical);
    if |risk| > 0 {
      var i := risk[0];
      assert r.timeToFail.value == r.times[i];
    }
  }

  /** A start at or above the critical temperature fails at time 0. */
  lemma FailsAtOnce(t: Transcendentals, tAmb: real, tInitial: real, tCritical: real,
                    timeSpan: real, k: real)
    requires t.Sound() && tInitial >= tCritical
    ensures SimulateCooling(t, tAmb, tInitial, tCritical, timeSpan, k).timeToFail == Some(0.0)
  {
    var r := SimulateCooling(t, tAmb, tInitial, tCritical, timeSpan, k);
    TemperatureAtZero(t, tAmb, tInitial, k);
    FailureTime(t, tAmb, tInitial, tCritical, timeSpan, k);
    assert r.temps[0] >= tCritical;
    var i :| 0 <= i < Samples && r.timeToFail.value == r.times[i] && r.temps[i] >= tCritical
             && forall j :: 0 <= j < i ==> r.temps[j] < tCritical;
    assert i == 0;
  }

  /** A failure time, when there is one, lies within [0, time span]. */
  lemma FailureWithinSpan(t: Transcendentals, tAmb: real, tInitial: real, tCritical: real,
                          timeSpan: real, k: real)
    requires timeSpan >= 0.0
    ensures var r := SimulateCooling(t, tAmb, tInitial, tCritical, timeSpan, k);
            r.timeToFail.Some? ==> 0.0 <= r.timeToFail.value <= timeSpan
  {
    CoolingTimes(t, tAmb, tInitial, tCritical, timeSpan, k);
    FailureTime(t, tAmb, tInitial, tCritical, timeSpan, k);
  }
}
