/** lib/process_manager.c: the process list and `schedule`, and what any number of timer ticks do. */
module Scheduler {
  import opened Rounds

  // ---------------------------------------------------------------------------------------
  // Which process is chosen
  // ---------------------------------------------------------------------------------------

  lemma {:induction false} VisitTimeShift(n: nat, c: nat, i: nat, j: nat, m: nat)
    requires c < n && i < n && j < n && m >= 1
    ensures VisitTime(n, c, i, m) - Dist(n, c, i) == VisitTime(n, c, j, m) - Dist(n, c, j)
  {
    if m > 1 { VisitTimeShift(n, c, i, j, m - 1); }
  }

  lemma {:induction false} VisitTimeGrows(n: nat, c: nat, j: nat, a: nat, b: nat)
    requires c < n && j < n && 1 <= a < b
    ensures VisitTime(n, c, j, a) + n <= VisitTime(n, c, j, b)
  {
    if a + 1 < b { VisitTimeGrows(n, c, j, a, b - 1); }
  }

  /** Visits are ordered by round first, by distance within a round second. */
  predicate Sooner(n: nat, c: nat, s: seq<int>, i: nat, j: nat)
    requires c < n == |s| && i < n && j < n
  {
    Need(s[i]) < Need(s[j]) || (Need(s[i]) == Need(s[j]) && Dist(n, c, i) < Dist(n, c, j))
  }

  lemma VisitOrder(s: seq<int>, c: nat, i: nat, j: nat)
    requires c < |s| && i < |s| && j < |s|
    ensures Sooner(|s|, c, s, i, j) <==> VisitTime(|s|, c, i, Need(s[i])) < VisitTime(|s|, c, j, Need(s[j]))
  {
    var n, a, b := |s|, Need(s[i]), Need(s[j]);
    VisitTimeShift(n, c, i, j, a);
    VisitTimeShift(n, c, i, j, b);
    if a < b { VisitTimeGrows(n, c, j, a, b); }
    if b < a { VisitTimeGrows(n, c, i, b, a); }
  }

  /** A visit that uses up the sleep of its process is a stop. */
  lemma NeedStops(s: seq<int>, c: nat, j: nat)
    requires c < |s| && j < |s|
    ensures Stops(s, c, VisitTime(|s|, c, j, Need(s[j])))
  {
    var t := VisitTime(|s|, c, j, Need(s[j]));
    VisitTimeIsVisit(|s|, c, j, Need(s[j]));
    StopByVisits(s, c, t);
  }

  /**
   * The process `schedule` picks is the one that minimises the rounds its sleep still needs, then
   * the distance from the current one; the walk ends exactly at the visit that wakes it.
   */
  lemma ChoiceIsLeast(s: seq<int>, c: nat)
    requires c < |s|
    ensures var t := NextStop(s, c, 0); var i := Pos(|s|, c, t);
            && t == VisitTime(|s|, c, i, Need(s[i]))
            && forall j | 0 <= j < |s| && j != i :: Sooner(|s|, c, s, i, j)
  {
    var n, t := |s|, NextStop(s, c, 0);
    var i := Pos(n, c, t);
    StopByVisits(s, c, t);
    VisitTimeUnique(n, c, i, t);
    NeedStops(s, c, i);
    var m := Visits(n, c, i, t);
    VisitTimeIsVisit(n, c, i, Need(s[i]));
    if Need(s[i]) < m { VisitTimeGrows(n, c, i, Need(s[i]), m); }
    forall j | 0 <= j < n && j != i ensures Sooner(n, c, s, i, j) {
      NeedStops(s, c, j);
      VisitTimeIsVisit(n, c, j, Need(s[j]));
      VisitOrder(s, c, i, j);
    }
  }

  /** The chosen process no longer sleeps; every other one has slept off exactly the visits it had. */
  lemma ChoiceSleeps(s: seq<int>, c: nat)
    requires c < |s|
    ensures var t := NextStop(s, c, 0); var i := Pos(|s|, c, t);
            && Sleeps(s, c, t)[i] == Min(s[i], 0)
            && forall j | 0 <= j < |s| && j != i ::
                 Sleeps(s, c, t)[j] == s[j] - Visits(|s|, c, j, t) && Visits(|s|, c, j, t) < Need(s[j])
  {
    var n, t := |s|, NextStop(s, c, 0);
    var i := Pos(n, c, t);
    ChoiceIsLeast(s, c);
    VisitTimeIsVisit(n, c, i, Need(s[i]));
    SleepsByVisits(s, c, i, t);
    forall j | 0 <= j < n && j != i
      ensures Sleeps(s, c, t)[j] == s[j] - Visits(n, c, j, t) && Visits(n, c, j, t) < Need(s[j])
    {
      VisitOrder(s, c, i, j);
      EarlierVisits(n, c, j, t, Need(s[j]));
      SleepsByVisits(s, c, j, t);
    }
  }

  /** Before the m-th visit there have been fewer than m. */
  lemma EarlierVisits(n: nat, c: nat, j: nat, t: nat, m: nat)
    requires c < n && j < n && m >= 1 && t < VisitTime(n, c, j, m)
    ensures Visits(n, c, j, t) < m
  {
    var u := VisitTime(n, c, j, m);
    VisitTimeIsVisit(n, c, j, m);
    VisitsMonotone(n, c, j, t, u - 1);
  }

  // ---------------------------------------------------------------------------------------
  // Any number of ticks
  // ---------------------------------------------------------------------------------------

  /** One timer tick: schedule, then current := next. */
  function Tick(s: seq<int>, c: nat): (r: (seq<int>, nat))
    requires c < |s|
    ensures r.1 < |r.0| == |s|
  {
    var t := NextStop(s, c, 0);
    (Sleeps(s, c, t), Pos(|s|, c, t))
  }

  function Ticks(s: seq<int>, c: nat, k: nat): (r: (seq<int>, nat))
    requires c < |s|
    ensures r.1 < |r.0| == |s|
  {
    if k == 0 then (s, c)
    else
      var p := Ticks(s, c, k - 1);
      Tick(p.0, p.1)
  }

  /** Steps walked in the first k ticks. */
  function Walked(s: seq<int>, c: nat, k: nat): nat
    requires c < |s|
  {
    if k == 0 then 0 else NextStop(s, c, Walked(s, c, k - 1))
  }

  lemma {:induction false} SleepsAdd(s: seq<int>, c: nat, t: nat, u: nat)
    requires c < |s|
    ensures Sleeps(Sleeps(s, c, t), Pos(|s|, c, t), u) == Sleeps(s, c, t + u)
  {
    if u > 0 {
      SleepsAdd(s, c, t, u - 1);
      PosAdds(|s|, c, t, u);
    }
  }

  lemma StopsAdd(s: seq<int>, c: nat, t: nat, u: nat)
    requires c < |s| && u >= 1
    ensures Stops(Sleeps(s, c, t), Pos(|s|, c, t), u) <==> Stops(s, c, t + u)
  {
    SleepsAdd(s, c, t, u);
    PosAdds(|s|, c, t, u);
  }

  lemma NextStopAdds(s: seq<int>, c: nat, t: nat)
    requires c < |s|
    ensures t + NextStop(Sleeps(s, c, t), Pos(|s|, c, t), 0) == NextStop(s, c, t)
  {
    hide NextStop, Sleeps, Pos, Stops;
    var a, b := NextStop(Sleeps(s, c, t), Pos(|s|, c, t), 0), NextStop(s, c, t);
    StopsAdd(s, c, t, a);
    StopsAdd(s, c, t, b - t);
  }

  /** Ticks are one continuous walk of the ring: each starts where the last one ended. */
  lemma {:induction false} OneWalk(s: seq<int>, c: nat, k: nat)
    requires c < |s|
    ensures Ticks(s, c, k) == (Sleeps(s, c, Walked(s, c, k)), Pos(|s|, c, Walked(s, c, k)))
  {
    hide NextStop, Sleeps, Pos, Stops;
    if k == 0 {
      NoSteps(s, c);
    } else {
      OneWalk(s, c, k - 1);
      var w := Walked(s, c, k - 1);
      NextStopAdds(s, c, w);
      var u := NextStop(Sleeps(s, c, w), Pos(|s|, c, w), 0);
      SleepsAdd(s, c, w, u);
      PosAdds(|s|, c, w, u);
    }
  }

  lemma NoSteps(s: seq<int>, c: nat)
    requires c < |s|
    ensures Sleeps(s, c, 0) == s && Pos(|s|, c, 0) == c
  {
  }

  /** Every stop is the end of some tick, and the k-th tick ends no earlier than step k. */
  lemma {:induction false} StopIsTick(s: seq<int>, c: nat, t: nat) returns (k: nat)
    requires c < |s|
    ensures k <= t && Walked(s, c, k) <= t < Walked(s, c, k + 1)
    ensures t >= 1 && Stops(s, c, t) ==> k >= 1 && Walked(s, c, k) == t
  {
    if t == 0 {
      k := 0;
    } else {
      k := StopIsTick(s, c, t - 1);
      if Walked(s, c, k + 1) <= t { k := k + 1; }
    }
  }

  /**
   * Fairness: a process that sleeps s is dispatched at exactly its max(s, 1)-th visit, and so
   * within n * max(s, 1) ticks; no earlier tick dispatches it.
   */
  lemma Fairness(s: seq<int>, c: nat, j: nat) returns (k: nat)
    requires c < |s| && j < |s|
    ensures 1 <= k <= |s| * Need(s[j])
    ensures Ticks(s, c, k).1 == j && Visits(|s|, c, j, Walked(s, c, k)) == Need(s[j])
    ensures forall i | 1 <= i < k :: Ticks(s, c, i).1 != j
  {
    var n, m := |s|, Need(s[j]);
    var t := VisitTime(n, c, j, m);
    NeedStops(s, c, j);
    VisitTimeIsVisit(n, c, j, m);
    k := StopIsTick(s, c, t);
    OneWalk(s, c, k);
    VisitTimeBound(n, c, j, m);
    forall i | 1 <= i < k ensures Ticks(s, c, i).1 != j {
      OneWalk(s, c, i);
      WalkedGrows(s, c, i, k);
      EarlierVisits(n, c, j, Walked(s, c, i), m);
      StopByVisits(s, c, Walked(s, c, i));
    }
  }

  lemma {:induction false} WalkedGrows(s: seq<int>, c: nat, i: nat, k: nat)
    requires c < |s| && i < k
    ensures Walked(s, c, i) < Walked(s, c, k) && (i >= 1 ==> Walked(s, c, i) >= 1 && Stops(s, c, Walked(s, c, i)))
  {
    if i + 1 < k { WalkedGrows(s, c, i, k - 1); }
  }

  lemma {:induction false} VisitTimeBound(n: nat, c: nat, j: nat, m: nat)
    requires c < n && j < n && m >= 1
    ensures VisitTime(n, c, j, m) <= n * m
  {
    if m > 1 {
      VisitTimeBound(n, c, j, m - 1);
      assert n * m == n * (m - 1) + n;
    }
  }

  // ---------------------------------------------------------------------------------------
  // Processes created between ticks
  // ---------------------------------------------------------------------------------------

  /** One step of the walk, and how it decides whether the walk is over. */
  lemma WalkStep(s: seq<int>, c: nat, t: nat)
    requires c < |s| && t < NextStop(s, c, 0)
    ensures Pos(|s|, c, t + 1) == After(|s|, Pos(|s|, c, t))
    ensures var i := Pos(|s|, c, t + 1);
            && Sleeps(s, c, t + 1) == Sleeps(s, c, t)[i := Ticked(Sleeps(s, c, t)[i])]
            && (Sleeps(s, c, t + 1)[i] <= 0 <==> t + 1 == NextStop(s, c, 0))
  {
    hide NextStop;
    assert Stops(s, c, t + 1) <==> t + 1 == NextStop(s, c, 0);
  }

  /** What happens to the list: a timer interrupt, or a new process at its end. */
  datatype Event = Timer | Creation(kernelStack: nat)

  function Timers(es: seq<Event>): nat {
    if es == [] then 0 else Timers(es[1..]) + if es[0].Timer? then 1 else 0
  }

  function Creations(es: seq<Event>): nat {
    if es == [] then 0 else Creations(es[1..]) + if es[0].Timer? then 0 else 1
  }

  function AfterEvent(s: seq<int>, c: nat, e: Event): (r: (seq<int>, nat))
    requires c < |s|
    ensures r.1 < |r.0| && |s| <= |r.0|
  {
    if e.Timer? then Tick(s, c) else (s + [0], c)
  }

  /** Sleep times and current process after any mixture of ticks and creations. */
  function AfterEvents(s: seq<int>, c: nat, es: seq<Event>): (r: (seq<int>, nat))
    requires c < |s|
    ensures r.1 < |r.0|
    decreases |es|
  {
    if es == [] then (s, c)
    else
      var r := AfterEvent(s, c, es[0]);
      AfterEvents(r.0, r.1, es[1..])
  }

  /** Some tick among the events dispatches process j. */
  predicate Dispatched(s: seq<int>, c: nat, es: seq<Event>, j: nat)
    requires c < |s|
    decreases |es|
  {
    if es == [] then false
    else
      var r := AfterEvent(s, c, es[0]);
      (es[0].Timer? && r.1 == j) || Dispatched(r.0, r.1, es[1..], j)
  }

  /** Events take effect in order. */
  lemma {:induction false} EventsInOrder(s: seq<int>, c: nat, es: seq<Event>, e: Event)
    requires c < |s|
    ensures AfterEvents(s, c, []) == (s, c)
    ensures AfterEvents(s, c, es + [e])
            == (var r := AfterEvents(s, c, es); if e.Timer? then Tick(r.0, r.1) else (r.0 + [0], r.1))
    decreases |es|
  {
    hide Tick;
    if es == [] {
      assert es + [e] == [e];
    } else {
      var r := AfterEvent(s, c, es[0]);
      assert (es + [e])[1..] == es[1..] + [e];
      EventsInOrder(r.0, r.1, es[1..], e);
    }
  }

  /** Being dispatched means that some timer event leaves the process current. */
  lemma {:induction false} DispatchedByTick(s: seq<int>, c: nat, es: seq<Event>, j: nat)
    requires c < |s|
    ensures Dispatched(s, c, es, j) <==>
            exists i :: 0 <= i < |es| && es[i].Timer? && AfterEvents(s, c, es[..i + 1]).1 == j
    decreases |es|
  {
    hide Tick;
    if es != [] {
      var r := AfterEvent(s, c, es[0]);
      DispatchedByTick(r.0, r.1, es[1..], j);
      forall i | 0 <= i < |es|
        ensures AfterEvents(s, c, es[..i + 1]) == AfterEvents(r.0, r.1, es[1..][..i])
      {
        assert es[..i + 1][1..] == es[1..][..i];
      }
      if Dispatched(r.0, r.1, es[1..], j) {
        var i :| 0 <= i < |es[1..]| && es[1..][i].Timer? && AfterEvents(r.0, r.1, es[1..][..i + 1]).1 == j;
        assert es[i + 1].Timer? && AfterEvents(s, c, es[..i + 1 + 1]).1 == j;
      }
      if i :| 0 <= i < |es| && es[i].Timer? && AfterEvents(s, c, es[..i + 1]).1 == j {
        if i > 0 { assert es[1..][i - 1].Timer? && AfterEvents(r.0, r.1, es[1..][..i - 1 + 1]).1 == j; }
      }
      if es[0].Timer? && r.1 == j { assert AfterEvents(s, c, es[..0 + 1]).1 == j; }
    }
  }

  /** Steps left at most until j is dispatched from c, sleeping x, in a ring that never exceeds m. */
  function Ahead(m: nat, x: int, c: nat, j: nat): nat
    requires c < m && j < m
  {
    (Need(x) - 1) * m + if j > c then j - c else j + m - c
  }

  /** Every step of the walk that does not dispatch j brings it closer. */
  lemma StepCloser(m: nat, s: seq<int>, c: nat, j: nat)
    requires c < |s| <= m && j < |s|
    requires After(|s|, c) == j ==> s[j] > 1
    ensures var i := After(|s|, c); Ahead(m, s[i := Ticked(s[i])][j], i, j) < Ahead(m, s[j], c, j)
  {
    var x := s[j];
    if After(|s|, c) == j {
      assert (Need(x) - 1) * m == (Need(x - 1) - 1) * m + m;
    }
  }

  lemma {:induction false} WalkCloser(m: nat, s: seq<int>, c: nat, j: nat, t: nat)
    requires c < |s| <= m && j < |s| && t <= NextStop(s, c, 0) && Pos(|s|, c, NextStop(s, c, 0)) != j
    ensures Ahead(m, Sleeps(s, c, t)[j], Pos(|s|, c, t), j) + t <= Ahead(m, s[j], c, j)
  {
    hide NextStop, Ahead, Sleeps, Pos, Stops, After, Ticked;
    NoSteps(s, c);
    if t > 0 {
      WalkCloser(m, s, c, j, t - 1);
      WalkStep(s, c, t - 1);
      Woken(Sleeps(s, c, t - 1)[j]);
      StepCloser(m, Sleeps(s, c, t - 1), Pos(|s|, c, t - 1), j);
    }
  }

  lemma Woken(x: int)
    ensures Ticked(x) <= 0 <==> x <= 1
  {
  }

  lemma {:induction false} EventsReach(m: nat, s: seq<int>, c: nat, es: seq<Event>, j: nat)
    requires c < |s| && j < |s| && |s| + Creations(es) <= m && Timers(es) >= Ahead(m, s[j], c, j)
    ensures Dispatched(s, c, es, j)
    decreases |es|
  {
    hide Ahead, NextStop, Sleeps, Pos, Stops;
    AheadPositive(m, s[j], c, j);
    if es != [] {
      var r := AfterEvent(s, c, es[0]);
      if es[0].Timer? {
        if r.1 != j {
          WalkCloser(m, s, c, j, NextStop(s, c, 0));
          EventsReach(m, r.0, r.1, es[1..], j);
        }
      } else {
        EventsReach(m, r.0, r.1, es[1..], j);
      }
    }
  }

  lemma AheadPositive(m: nat, x: int, c: nat, j: nat)
    requires c < m && j < m
    ensures 1 <= Ahead(m, x, c, j) <= m * Need(x)
  {
    assert (Need(x) - 1) * m + m == m * Need(x);
    assert (Need(x) - 1) * m >= 0;
  }

  /**
   * Fairness while processes are being created: whatever the order of ticks and creations, a
   * process that sleeps s is dispatched within N * max(s, 1) ticks, N the final number of processes.
   */
  lemma FairnessWithCreation(s: seq<int>, c: nat, es: seq<Event>, j: nat)
    requires c < |s| && j < |s| && Timers(es) >= (|s| + Creations(es)) * Need(s[j])
    ensures Dispatched(s, c, es, j)
  {
    hide Ahead, Dispatched, Timers, Creations;
    var m := |s| + Creations(es);
    AheadPositive(m, s[j], c, j);
    EventsReach(m, s, c, es, j);
  }

  // ---------------------------------------------------------------------------------------
  // The process list
  // ---------------------------------------------------------------------------------------

  /** struct PCB, as far as the list and the scheduler go. */
  class Pcb {
    const pid: nat
    /** kernel_stack_top - 4096: the block kmalloc gave for the kernel stack. */
    const kernelStack: nat
    var sleepTime: int
    var next: Pcb?
    var prev: Pcb?

    constructor (pid: nat, kernelStack: nat)
      ensures this.pid == pid && this.kernelStack == kernelStack
      ensures sleepTime == 0 && next == null && prev == null
    {
      this.pid := pid;
      this.kernelStack := kernelStack;
      sleepTime := 0;
      next := null;
      prev := null;
    }
  }

  /** The i-th process of a list, or null past either end. */
  ghost function Nth(ring: seq<Pcb>, i: int): Pcb? {
    if 0 <= i < |ring| then ring[i] else null
  }

  lemma NthAppend(ring: seq<Pcb>, p: Pcb, i: int)
    ensures Nth(ring + [p], i) == if i == |ring| then p else Nth(ring, i)
  {
  }

  lemma NthIs(ring: seq<Pcb>, i: int)
    ensures 0 <= i < |ring| ==> Nth(ring, i) == ring[i]
    ensures !(0 <= i < |ring|) ==> Nth(ring, i) == null
  {
  }

  ghost function SleepsOf(ring: seq<Pcb>): (s: seq<int>)
    reads ring`sleepTime
    ensures |s| == |ring| && forall i | 0 <= i < |s| :: s[i] == ring[i].sleepTime
  {
    if ring == [] then [] else [ring[0].sleepTime] + SleepsOf(ring[1..])
  }

  /** Values of current_index. */
  const INDICES: nat := 0x1_0000

  class ProcessManager {
    var processLists: Pcb?
    var currentProcess: Pcb?
    var nextProcess: Pcb?
    /** current_index: the next process identifier, 16 bits wide. */
    var currentIndex: nat
    /** The processes in list order, and the position of the current one. */
    ghost var ring: seq<Pcb>
    ghost var at: nat

    /** A doubly linked list of distinct blocks, numbered in order. */
    ghost predicate Linked()
      reads this`ring, this`processLists, this`currentIndex, ring`next, ring`prev
    {
      && (forall i, j | 0 <= i < j < |ring| :: ring[i] != ring[j])
      && (forall i | 0 <= i < |ring| ::
            ring[i].pid == i && ring[i].next == Nth(ring, i + 1) && ring[i].prev == Nth(ring, i - 1))
      && processLists == Nth(ring, 0)
      && |ring| <= INDICES && currentIndex == |ring| % INDICES
    }

    ghost predicate Valid()
      reads this`ring, this`processLists, this`currentIndex, this`currentProcess, this`at, ring`next, ring`prev
    {
      Linked() && at < |ring| && currentProcess == ring[at]
    }

    ghost function SleepTimes(): (s: seq<int>)
      reads this`ring, ring`sleepTime
      ensures |s| == |ring| && forall i | 0 <= i < |s| :: s[i] == ring[i].sleepTime
    {
      SleepsOf(ring)
    }

    constructor ()
      ensures Linked() && ring == []
    {
      processLists, currentProcess, nextProcess := null, null, null;
      currentIndex := 0;
      ring := [];
      at := 0;
    }

    /** The end of the list: the walk over `next`. */
    method Last() returns (p: Pcb)
      requires Linked() && ring != []
      ensures p == ring[|ring| - 1]
    {
      p := processLists;
      ghost var i := 0;
      while p.next != null
        invariant 0 <= i < |ring| && p == ring[i]
        decreases |ring| - i
      {
        p := p.next;
        i := i + 1;
      }
    }

    /**
     * The list append of create_process. The index is 0 for the first process and again after
     * 65536 of them; both times the list becomes the new process alone.
     */
    method Append(p: Pcb)
      requires Linked() && p !in ring && p.pid == currentIndex && p.next == null && p.prev == null
      modifies this`currentIndex, this`ring, this`processLists, p`prev, ring`next
      ensures Linked() && ring == (if |old(ring)| < INDICES then old(ring) + [p] else [p])
    {
      hide Linked;
      IndexZero();
      if currentIndex == 0 {
        StartList(p);
        return;
      }
      var last := Last();
      AppendAfter(last, p);
    }

    /** The branch for index 0: the list becomes p alone. */
    method StartList(p: Pcb)
      requires currentIndex == 0 == p.pid && p.next == null && p.prev == null
      modifies this`currentIndex, this`ring, this`processLists
      ensures Linked() && ring == [p]
    {
      processLists := p;
      currentIndex := (currentIndex + 1) % INDICES;
      ring := [p];
    }

    /** The rest of the append, once the end of the list is known. */
    method AppendAfter(last: Pcb, p: Pcb)
      requires Linked() && ring != [] && last == ring[|ring| - 1]
      requires p !in ring && p.pid == currentIndex && p.next == null && p.prev == null && |ring| < INDICES
      modifies this`currentIndex, this`ring, p`prev, last`next
      ensures Linked() && ring == old(ring) + [p]
    {
      hide Nth;
      ghost var was := ring;
      currentIndex := (currentIndex + 1) % INDICES;
      last.next := p;
      p.prev := last;
      ring := ring + [p];
      forall i | 0 <= i < |ring|
        ensures ring[i].pid == i && ring[i].next == Nth(ring, i + 1) && ring[i].prev == Nth(ring, i - 1)
      {
        NthAppend(was, p, i + 1);
        NthAppend(was, p, i - 1);
        NthIs(was, i + 1);
        NthIs(was, i - 1);
      }
      NthAppend(was, p, 0);
    }

    /**
     * create_process: a new process that does not sleep, at the end of the list. Were the index to
     * wrap, the new process would replace the list and the current one would be off it.
     */
    method CreateProcess(kernelStack: nat)
      requires Linked()
      modifies this`currentIndex, this`ring, this`processLists, ring`next
      ensures Linked() && ring != [] && fresh(ring[|ring| - 1]) && ring[|ring| - 1].kernelStack == kernelStack
      ensures |old(ring)| < INDICES ==>
                && |ring| == |old(ring)| + 1 && ring[..|old(ring)|] == old(ring)
                && SleepTimes() == old(SleepTimes()) + [0] && (old(Valid()) ==> Valid())
      ensures |old(ring)| == INDICES ==>
                |ring| == 1 && SleepTimes() == [0] && forall p | p in old(ring) :: p !in ring
    {
      hide Linked, SleepsOf;
      IndexZero();
      var p := new Pcb(currentIndex, kernelStack);
      Append(p);
    }

    /** The index is 0 for an empty list, and for one as long as an index can count. */
    lemma IndexZero()
      requires Linked()
      ensures |ring| <= INDICES && (currentIndex == 0 <==> ring == [] || |ring| == INDICES)
    {
    }

    /** init_process_scheduler: the list becomes one new process, which is current. */
    method InitProcessScheduler(kernelStack: nat)
      modifies this
      ensures Valid() && |ring| == 1 && fresh(ring[0]) && ring[0].kernelStack == kernelStack
      ensures SleepTimes() == [0] && nextProcess == currentProcess
    {
      currentIndex := 0;
      var p := new Pcb(currentIndex, kernelStack);
      StartList(p);
      currentProcess := processLists;
      nextProcess := processLists;
      at := 0;
    }

    /** The first half of the do-while body: the next process in the list, or the first. */
    method Follow(simCurrent: Pcb, ghost i: nat) returns (met: Pcb)
      requires Linked() && i < |ring| && simCurrent == ring[i]
      modifies this`nextProcess
      ensures met == nextProcess == ring[After(|ring|, i)]
    {
      if simCurrent.next != null {
        nextProcess := simCurrent.next;
        met := nextProcess;
      } else {
        nextProcess := processLists;
        met := nextProcess;
      }
    }

    /** The second half: take one off its sleep. */
    method TakeOne(met: Pcb, ghost j: nat)
      requires Linked() && j < |ring| && met == ring[j]
      modifies ring`sleepTime
      ensures SleepTimes() == old(SleepTimes())[j := Ticked(old(SleepTimes())[j])]
    {
      if met.sleepTime > 0 {
        met.sleepTime := met.sleepTime - 1;
      }
    }

    /** schedule: the do-while loop over the ring. */
    method Schedule()
      requires Valid()
      modifies this`nextProcess, ring`sleepTime
      ensures Valid()
      ensures var t := NextStop(old(SleepTimes()), at, 0);
              && SleepTimes() == Sleeps(old(SleepTimes()), at, t)
              && nextProcess == ring[Pos(|ring|, at, t)]
    {
      hide NextStop, Sleeps, Pos, Stops, Linked, After, Ticked, SleepTimes, SleepsOf;
      ghost var s, c := SleepTimes(), at;
      ghost var t: nat := 0;
      NoSteps(s, c);
      var simCurrent := currentProcess;
      var again := true;
      while again
        invariant Valid() && simCurrent == ring[Pos(|s|, c, t)]
        invariant SleepTimes() == Sleeps(s, c, t)
        invariant if again then t < NextStop(s, c, 0) else t == NextStop(s, c, 0) && nextProcess == simCurrent
        decreases again, NextStop(s, c, 0) - t
      {
        WalkStep(s, c, t);
        simCurrent := Follow(simCurrent, Pos(|s|, c, t));
        t := t + 1;
        TakeOne(simCurrent, Pos(|s|, c, t));
        again := simCurrent.sleepTime > 0;
      }
    }

    /** The timer interrupt: schedule, then the switch in isr_wrapper_32. */
    method TimerTick()
      requires Valid()
      modifies this`nextProcess, this`currentProcess, this`at, ring`sleepTime
      ensures Valid()
      ensures (SleepTimes(), at) == Tick(old(SleepTimes()), old(at))
    {
      hide NextStop, Sleeps, Pos, Stops, Linked, After, Ticked, SleepTimes, SleepsOf;
      Schedule();
      ghost var t := NextStop(old(SleepTimes()), at, 0);
      at := Pos(|ring|, at, t);
      if currentProcess != nextProcess {
        currentProcess := nextProcess;
      }
    }

    /** Any number of timer interrupts. */
    method TimerTicks(k: nat)
      requires Valid()
      modifies this`nextProcess, this`currentProcess, this`at, ring`sleepTime
      ensures Valid()
      ensures (SleepTimes(), at) == Ticks(old(SleepTimes()), old(at), k)
    {
      hide Tick, Linked, SleepTimes, SleepsOf, NextStop, Sleeps, Pos, Stops;
      for i := 0 to k
        invariant Valid()
        invariant (SleepTimes(), at) == Ticks(old(SleepTimes()), old(at), i)
      {
        TimerTick();
      }
    }

    /** One timer interrupt, or one new process. */
    method HandleOne(e: Event)
      requires Valid() && (e.Timer? || |ring| < INDICES)
      modifies this, ring`sleepTime, ring`next
      ensures Valid() && (SleepTimes(), at) == AfterEvent(old(SleepTimes()), old(at), e)
      ensures |ring| == |old(ring)| + if e.Timer? then 0 else 1
      ensures forall q | 0 <= q < |ring| :: ring[q] in old(ring) || fresh(ring[q])
    {
      hide Linked, SleepsOf, SleepTimes, Tick;
      if e.Timer? {
        TimerTick();
      } else {
        CreateProcess(e.kernelStack);
        assert forall q | 0 <= q < |old(ring)| :: ring[q] == ring[..|old(ring)|][q];
      }
    }

    /** Any mixture of timer interrupts and new processes. */
    method Handle(es: seq<Event>)
      requires Valid() && |ring| + Creations(es) <= INDICES
      modifies this, ring`sleepTime, ring`next
      ensures Valid() && (SleepTimes(), at) == AfterEvents(old(SleepTimes()), old(at), es)
    {
      hide Linked, SleepsOf, SleepTimes, AfterEvent;
      assert es[0..] == es;
      for i := 0 to |es|
        invariant Valid() && |ring| + Creations(es[i..]) <= INDICES
        invariant forall q | 0 <= q < |ring| :: ring[q] in old(ring) || fresh(ring[q])
        invariant AfterEvents(SleepTimes(), at, es[i..]) == AfterEvents(old(SleepTimes()), old(at), es)
      {
        assert es[i..][1..] == es[i + 1..];
        HandleOne(es[i]);
      }
    }
  }
}
