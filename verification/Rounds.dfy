/**
 * The round-robin walk of `schedule`: it goes round the ring of processes, taking one off each
 * positive sleep counter it meets, and stops at the first process left with none.
 */
module Rounds {

  /** The process after i in a ring of n: the next in the list, or the first. */
  function After(n: nat, i: nat): nat {
    if i + 1 < n then i + 1 else 0
  }

  /** Where the walk stands after t steps from process c. */
  function Pos(n: nat, c: nat, t: nat): (i: nat)
    requires c < n
    ensures i < n
  {
    if t == 0 then c else After(n, Pos(n, c, t - 1))
  }

  function Ticked(x: int): int {
    if x > 0 then x - 1 else x
  }

  /** The sleep counters after t steps. */
  function Sleeps(s: seq<int>, c: nat, t: nat): (r: seq<int>)
    requires c < |s|
    ensures |r| == |s|
  {
    if t == 0 then s
    else
      var p := Sleeps(s, c, t - 1);
      var i := Pos(|s|, c, t);
      p[i := Ticked(p[i])]
  }

  /** The walk may stop at step t: the process it stands on does not sleep. */
  predicate Stops(s: seq<int>, c: nat, t: nat)
    requires c < |s|
  {
    t >= 1 && Sleeps(s, c, t)[Pos(|s|, c, t)] <= 0
  }

  // ---------------------------------------------------------------------------------------
  // Termination
  // ---------------------------------------------------------------------------------------

  /** The sum of all sleep times: what every round that does not stop lowers. */
  function TotalSleep(s: seq<int>): nat {
    if s == [] then 0 else (if s[0] > 0 then s[0] else 0) + TotalSleep(s[1..])
  }

  lemma {:induction false} TotalSleepTick(s: seq<int>, i: nat)
    requires i < |s| && s[i] > 0
    ensures TotalSleep(s[i := s[i] - 1]) == TotalSleep(s) - 1
  {
    var t := s[i := s[i] - 1];
    if i == 0 {
      assert t[1..] == s[1..];
    } else {
      assert t[1..] == s[1..][i - 1 := s[1..][i - 1] - 1];
      TotalSleepTick(s[1..], i - 1);
    }
  }

  /** A step that does not stop has lowered the sum. */
  lemma StepLowers(s: seq<int>, c: nat, t: nat)
    requires c < |s| && !Stops(s, c, t + 1)
    ensures TotalSleep(Sleeps(s, c, t + 1)) < TotalSleep(Sleeps(s, c, t))
  {
    TotalSleepTick(Sleeps(s, c, t), Pos(|s|, c, t + 1));
  }

  /** The first stop after step t. */
  function NextStop(s: seq<int>, c: nat, t: nat): (r: nat)
    requires c < |s|
    ensures r > t && Stops(s, c, r) && forall u: nat | t < u < r :: !Stops(s, c, u)
    decreases TotalSleep(Sleeps(s, c, t))
  {
    if Stops(s, c, t + 1) then t + 1
    else
      StepLowers(s, c, t);
      NextStop(s, c, t + 1)
  }

  // ---------------------------------------------------------------------------------------
  // Visits
  // ---------------------------------------------------------------------------------------

  /** How often the walk has met process j in its first t steps. */
  function Visits(n: nat, c: nat, j: nat, t: nat): nat
    requires c < n
  {
    if t == 0 then 0 else Visits(n, c, j, t - 1) + if Pos(n, c, t) == j then 1 else 0
  }

  function Min(a: int, b: int): int { if a < b then a else b }

  function Max(a: int, b: int): int { if a < b then b else a }

  /** Each counter has gone down by the number of visits, but not below zero. */
  lemma {:induction false} SleepsByVisits(s: seq<int>, c: nat, j: nat, t: nat)
    requires c < |s| && j < |s|
    ensures Sleeps(s, c, t)[j] == s[j] - Min(Max(s[j], 0), Visits(|s|, c, j, t))
  {
    if t > 0 { SleepsByVisits(s, c, j, t - 1); }
  }

  /** Visits a process needs before the walk stops at it. */
  function Need(x: int): nat {
    Max(x, 1)
  }

  /** The walk stops exactly at visits that use up the sleep of the process met. */
  lemma StopByVisits(s: seq<int>, c: nat, t: nat)
    requires c < |s| && t >= 1
    ensures var j := Pos(|s|, c, t); Stops(s, c, t) <==> Visits(|s|, c, j, t) >= Need(s[j])
  {
    SleepsByVisits(s, c, Pos(|s|, c, t), t);
  }

  /** Steps from c to the first visit of j, between 1 and n. */
  function Dist(n: nat, c: nat, j: nat): nat
    requires c < n && j < n
  {
    if j > c then j - c else j + n - c
  }

  lemma {:induction false} PosInRound(n: nat, c: nat, t: nat)
    requires c < n && t <= n
    ensures Pos(n, c, t) == if c + t < n then c + t else c + t - n
  {
    if t > 0 { PosInRound(n, c, t - 1); }
  }

  lemma {:induction false} PosAdds(n: nat, c: nat, t: nat, u: nat)
    requires c < n
    ensures Pos(n, Pos(n, c, t), u) == Pos(n, c, t + u)
  {
    if u > 0 { PosAdds(n, c, t, u - 1); }
  }

  lemma PosPeriod(n: nat, c: nat, t: nat)
    requires c < n
    ensures Pos(n, c, t + n) == Pos(n, c, t)
  {
    PosAdds(n, c, t, n);
    PosInRound(n, Pos(n, c, t), n);
  }

  lemma {:induction false} VisitsInRound(n: nat, c: nat, j: nat, t: nat)
    requires c < n && j < n && t <= n
    ensures Visits(n, c, j, t) == if t < Dist(n, c, j) then 0 else 1
  {
    if t > 0 {
      VisitsInRound(n, c, j, t - 1);
      PosInRound(n, c, t);
    }
  }

  /** A full round meets every process once. */
  lemma {:induction false} VisitsPeriod(n: nat, c: nat, j: nat, t: nat)
    requires c < n && j < n
    ensures Visits(n, c, j, t + n) == Visits(n, c, j, t) + 1
  {
    if t == 0 {
      VisitsInRound(n, c, j, n);
    } else {
      VisitsPeriod(n, c, j, t - 1);
      PosPeriod(n, c, t);
    }
  }

  /** The step of the m-th visit of j. */
  function VisitTime(n: nat, c: nat, j: nat, m: nat): nat
    requires c < n && j < n && m >= 1
  {
    if m == 1 then Dist(n, c, j) else VisitTime(n, c, j, m - 1) + n
  }

  lemma {:induction false} VisitTimeIsVisit(n: nat, c: nat, j: nat, m: nat)
    requires c < n && j < n && m >= 1
    ensures Visits(n, c, j, VisitTime(n, c, j, m)) == m && Pos(n, c, VisitTime(n, c, j, m)) == j
    ensures VisitTime(n, c, j, m) >= 1
  {
    if m == 1 {
      VisitsInRound(n, c, j, Dist(n, c, j));
      PosInRound(n, c, Dist(n, c, j));
    } else {
      VisitTimeIsVisit(n, c, j, m - 1);
      VisitsPeriod(n, c, j, VisitTime(n, c, j, m - 1));
      PosPeriod(n, c, VisitTime(n, c, j, m - 1));
    }
  }

  lemma {:induction false} VisitsMonotone(n: nat, c: nat, j: nat, t: nat, u: nat)
    requires c < n && t <= u
    ensures Visits(n, c, j, t) <= Visits(n, c, j, u)
  {
    if t < u { VisitsMonotone(n, c, j, t, u - 1); }
  }

  /** A step that meets j for the m-th time is the step VisitTime says. */
  lemma VisitTimeUnique(n: nat, c: nat, j: nat, t: nat)
    requires c < n && j < n && t >= 1 && Pos(n, c, t) == j
    ensures Visits(n, c, j, t) >= 1 && VisitTime(n, c, j, Visits(n, c, j, t)) == t
  {
    var m := Visits(n, c, j, t);
    var u := VisitTime(n, c, j, m);
    VisitTimeIsVisit(n, c, j, m);
    VisitsMonotone(n, c, j, u, if u < t then t - 1 else u);
    VisitsMonotone(n, c, j, t, if t < u then u - 1 else t);
  }
}
