/** The round-trip-time estimator (rtt.go). Durations and instants are whole nanoseconds. */
module Rtt {
  import opened Bytes

  const MICROSECOND := 1_000
  const MILLISECOND := 1_000_000
  const INITIAL_RTT := 333 * MILLISECOND
  const MAX_ACK_DELAY := 25 * MILLISECOND
  const MIN_PTO := 200 * MILLISECOND

  datatype Estimate = Estimate(minRTT: int, smoothed: int, rttvar: int, latest: int)

  const NO_ESTIMATE := Estimate(0, 0, 166 * MILLISECOND, 0)

  function Abs(x: int): nat { if x < 0 then -x else x }

  /** The sample an ACK gives: the time since sending, less the peer's delay if that leaves anything. */
  function Sample(sendTime: int, ackDelay: int, now: int): (adjusted: int)
    ensures adjusted > 0
    ensures now > sendTime && ackDelay >= 0 ==> now - sendTime - MAX_ACK_DELAY <= adjusted <= now - sendTime
    ensures now > sendTime ==> var delay := if ackDelay < 25_000_000 then ackDelay else 25_000_000;
                               adjusted == now - sendTime - if delay < now - sendTime then delay else 0
    ensures now <= sendTime && ackDelay >= 0 ==> adjusted == 1000 - if ackDelay < 1000 then ackDelay else 0
  {
    var raw := if now - sendTime <= 0 then MICROSECOND else now - sendTime;
    var adjusted := raw - Min(ackDelay, MAX_ACK_DELAY);
    if adjusted <= 0 then raw else adjusted
  }

  function Update(r: Estimate, a: int): Estimate {
    var minRTT := if r.minRTT == 0 || a < r.minRTT then a else r.minRTT;
    if r.smoothed == 0 || r.smoothed == INITIAL_RTT then Estimate(minRTT, a, a / 2, a)
    else Estimate(minRTT, (7 * r.smoothed + a) / 8, (3 * r.rttvar + Abs(r.smoothed - a)) / 4, a)
  }

  function ProbeTimeout(r: Estimate): int { Max(MIN_PTO, r.smoothed + 4 * r.rttvar) }

  /** Nine eighths, rounded up. */
  function NineEighths(x: int): int { (9 * x + 7) / 8 }

  function Threshold(r: Estimate): int {
    var threshold := NineEighths(Max(r.smoothed, r.latest)) + 4 * r.rttvar;
    if threshold < 2 * r.smoothed && r.smoothed > 0 then 2 * r.smoothed else threshold
  }

  class RTTStats {
    var minRTT: int
    var smoothedRTT: int
    var rttvar: int
    var latestRTT: int

    function State(): Estimate
      reads this
    {
      Estimate(minRTT, smoothedRTT, rttvar, latestRTT)
    }

    constructor ()
      ensures State() == NO_ESTIMATE
    {
      minRTT, smoothedRTT, rttvar, latestRTT := 0, 0, 166 * MILLISECOND, 0;
    }

    /** A packet without a send time gives no sample. */
    method UpdateRTT(sendTime: Option<int>, ackDelay: int, now: int)
      modifies this
      ensures State() == if sendTime.None? then old(State())
                         else Update(old(State()), Sample(sendTime.value, ackDelay, now))
    {
      if sendTime.None? {
        return;
      }
      var sample := now - sendTime.value;
      if sample <= 0 {
        sample := MICROSECOND;
      }
      var ackDelayTime := if ackDelay < MAX_ACK_DELAY then ackDelay else MAX_ACK_DELAY;
      var adjustedRTT := sample - ackDelayTime;
      if adjustedRTT <= 0 {
        adjustedRTT := sample;
      }
      assert adjustedRTT == Sample(sendTime.value, ackDelay, now);
      TakeSample(adjustedRTT);
    }

    method TakeSample(adjustedRTT: int)
      modifies this
      ensures State() == Update(old(State()), adjustedRTT)
    {
      latestRTT := adjustedRTT;
      if minRTT == 0 || adjustedRTT < minRTT {
        minRTT := adjustedRTT;
      }
      if smoothedRTT == 0 || smoothedRTT == INITIAL_RTT {
        smoothedRTT := adjustedRTT;
        rttvar := adjustedRTT / 2;
      } else {
        var rttvarDiff := smoothedRTT - adjustedRTT;
        if rttvarDiff < 0 {
          rttvarDiff := -rttvarDiff;
        }
        rttvar := (3 * rttvar + rttvarDiff) / 4;
        smoothedRTT := (7 * smoothedRTT + adjustedRTT) / 8;
      }
    }

    method PTO() returns (pto: int)
      ensures pto == ProbeTimeout(State())
    {
      pto := smoothedRTT + 4 * rttvar;
      if pto < MIN_PTO {
        pto := MIN_PTO;
      }
    }

    method LossDelay() returns (delay: int)
      ensures delay == Threshold(State())
      ensures smoothedRTT > 0 && rttvar >= 0 ==> delay >= 2 * smoothedRTT && 8 * delay >= 9 * latestRTT
    {
      var maxRTT := smoothedRTT;
      if latestRTT > maxRTT {
        maxRTT := latestRTT;
      }
      delay := NineEighths(maxRTT) + 4 * rttvar;
      if delay < 2 * smoothedRTT && smoothedRTT > 0 {
        return 2 * smoothedRTT;
      }
    }
  }

  // ----- one sample -----

  /** The first sample is taken as it is, and so is one after the value no sample has set. */
  lemma FirstSample(r: Estimate, a: int)
    requires r.smoothed == 0 || r.smoothed == 333_000_000
    ensures var v := Update(r, a);
            v.smoothed == a && v.latest == a && (a >= 0 ==> v.rttvar <= a - v.rttvar <= v.rttvar + 1)
  {
  }

  /** i is n over k, rounded down. */
  ghost predicate Quotient(i: int, n: int, k: nat) { k * i <= n < k * i + k }

  /**
   Every other sample moves the smoothed value an eighth of its distance towards itself, rounded
   down, and the variation a quarter of the way towards that distance; so neither ever moves away
   from what is measured, nor past it.
   */
  lemma SampleMoves(r: Estimate, a: int)
    requires r.smoothed != 0 && r.smoothed != 333_000_000
    ensures var v, gap := Update(r, a), if a < r.smoothed then r.smoothed - a else a - r.smoothed;
            && Quotient(v.smoothed - r.smoothed, a - r.smoothed, 8)
            && Quotient(v.rttvar - r.rttvar, gap - r.rttvar, 4)
            && v.latest == a && v.minRTT == (if r.minRTT == 0 || a < r.minRTT then a else r.minRTT)
            && (r.smoothed <= a ==> r.smoothed <= v.smoothed <= a)
            && (r.smoothed >= a ==> r.smoothed >= v.smoothed >= a)
  {
  }

  function Repeated(r: Estimate, a: int, n: nat): Estimate {
    if n == 0 then r else Update(Repeated(r, a, n - 1), a)
  }

  /** A round-trip time that stays the same is found: after as many samples as it was off, at most 7 ns below it. */
  lemma {:induction false} Settles(r: Estimate, a: int, n: nat)
    requires a > 0 && r.smoothed > 0
    ensures var v := Repeated(r, a, n);
            && (n >= r.smoothed - a && n >= a - r.smoothed ==> a - 7 <= v.smoothed <= a)
            && (v.smoothed > a ==> v.smoothed <= r.smoothed - n)
            && (v.smoothed < a - 7 ==> v.smoothed >= r.smoothed + n)
            && v.smoothed > 0
  {
    if n > 0 {
      Settles(r, a, n - 1);
      var s := Repeated(r, a, n - 1);
      if s.smoothed == 333_000_000 {
        FirstSample(s, a);
      } else {
        SampleMoves(s, a);
      }
    }
  }

  /** The two timeouts of an estimate, in its own terms. */
  lemma TimeoutsExact(r: Estimate)
    requires r.smoothed > 0 && r.rttvar >= 0
    ensures var pto, delay := ProbeTimeout(r), Threshold(r);
            && pto >= 200_000_000 && pto >= r.smoothed + 4 * r.rttvar
            && (pto == 200_000_000 || pto == r.smoothed + 4 * r.rttvar)
            && delay >= 2 * r.smoothed
            && 8 * (delay - 4 * r.rttvar) >= 9 * r.smoothed && 8 * (delay - 4 * r.rttvar) >= 9 * r.latest
            && (delay == 2 * r.smoothed || 8 * (delay - 4 * r.rttvar - 1) < 9 * (if r.latest > r.smoothed then r.latest
                                                                             else r.smoothed))
  {
  }

  // ----- whole runs -----

  function UpdateAll(r: Estimate, samples: seq<int>): Estimate
    decreases |samples|
  {
    if samples == [] then r else Update(UpdateAll(r, samples[..|samples| - 1]), samples[|samples| - 1])
  }

  ghost predicate Smallest(samples: seq<int>, m: int) {
    m in samples && forall i :: 0 <= i < |samples| ==> m <= samples[i]
  }

  /** The estimate lies within the samples, of which the largest is at most `most`. */
  ghost predicate Within(r: Estimate, samples: seq<int>, most: int) {
    && Smallest(samples, r.minRTT) && r.latest == samples[|samples| - 1]
    && 0 < r.minRTT <= r.smoothed <= most
    && 0 <= r.rttvar <= most
  }

  /**
   After any positive samples bounded by `most`: the minimum is exact, the smoothed value lies
   between the smallest sample and the largest, and the variation never exceeds the largest.
   */
  lemma {:induction false} EstimatesWithin(samples: seq<int>, most: int)
    requires samples != [] && forall i :: 0 <= i < |samples| ==> 0 < samples[i] <= most
    ensures Within(UpdateAll(NO_ESTIMATE, samples), samples, most)
    decreases |samples|
  {
    var before, a := samples[..|samples| - 1], samples[|samples| - 1];
    if before == [] {
      assert samples == [a];
      assert UpdateAll(NO_ESTIMATE, before) == NO_ESTIMATE;
    } else {
      EstimatesWithin(before, most);
      assert samples == before + [a];
      UpdateWithin(UpdateAll(NO_ESTIMATE, before), before, a, most);
    }
  }

  lemma UpdateWithin(r: Estimate, samples: seq<int>, a: int, most: int)
    requires samples != [] && Within(r, samples, most) && 0 < a <= most
    ensures Within(Update(r, a), samples + [a], most)
  {
    var all := samples + [a];
    assert all[|samples|] == a && forall i :: 0 <= i < |samples| ==> all[i] == samples[i];
  }

  /** Hence the two timeouts are bounded both ways in terms of the samples alone. */
  lemma TimeoutsBounded(samples: seq<int>, most: int)
    requires samples != [] && forall i :: 0 <= i < |samples| ==> 0 < samples[i] <= most
    ensures var r := UpdateAll(NO_ESTIMATE, samples);
            && MIN_PTO <= ProbeTimeout(r) <= Max(MIN_PTO, 5 * most)
            && Threshold(r) >= 2 * r.smoothed && 8 * Threshold(r) >= 9 * samples[|samples| - 1]
            && Threshold(r) <= NineEighths(most) + 4 * most
  {
    EstimatesWithin(samples, most);
  }
}
