/** The large allocator: live regions and free slots stay apart. */
module LargeRegions {
  import opened PageTables
  import opened Spaces
  import opened HeapModel

  /** Page ranges [a, a + n) and [b, b + m) do not meet. */
  predicate Apart(a: nat, n: nat, b: nat, m: nat) {
    a + n <= b || b + m <= a
  }

  predicate Within(b: Big, start: nat, n: nat) {
    LARGE_PAGE <= start && n >= 1 && start + n <= b.cursor
  }

  predicate InRange(b: Big) {
    && LARGE_PAGE <= b.cursor <= KERNEL_PAGE
    && (forall s | s in b.live :: Within(b, s, b.live[s]))
    && (forall j | 0 <= j < |b.slots| :: Within(b, b.slots[j].start, b.slots[j].count))
  }

  predicate Disjoint(b: Big) {
    && (forall s, t | s in b.live && t in b.live && s != t :: Apart(s, b.live[s], t, b.live[t]))
    && (forall s, j | s in b.live && 0 <= j < |b.slots| :: Apart(s, b.live[s], b.slots[j].start, b.slots[j].count))
    && (forall i, j | 0 <= i < j < |b.slots| ::
          Apart(b.slots[i].start, b.slots[i].count, b.slots[j].start, b.slots[j].count))
  }

  predicate BigOk(b: Big) {
    InRange(b) && Disjoint(b)
  }

  /** The allocation has a page count and room in the region. */
  predicate CanTake(b: Big, n: nat) {
    n >= 1 && (Reuses(b, n) || b.cursor + n <= KERNEL_PAGE)
  }

  lemma TakeFacts(b: Big, n: nat)
    requires BigOk(b) && CanTake(b, n)
    ensures BigStart(b, n) !in b.live && LARGE_PAGE <= BigStart(b, n) && BigStart(b, n) + n <= KERNEL_PAGE
    ensures BigStart(b, n) in BigTake(b, n).live && BigTake(b, n).live[BigStart(b, n)] == n
  {
    var start := BigStart(b, n);
    forall s | s in b.live ensures s != start {
      assert Within(b, s, b.live[s]);
      assert Reuses(b, n) ==> Apart(s, b.live[s], b.slots[0].start, b.slots[0].count);
    }
  }

  /** The new region keeps clear of everything that stays. */
  lemma TakeClear(b: Big, n: nat)
    requires BigOk(b) && CanTake(b, n)
    ensures var start, b' := BigStart(b, n), BigTake(b, n);
            && (forall s | s in b.live :: Apart(s, b.live[s], start, n))
            && (forall j | 0 <= j < |b'.slots| :: Apart(start, n, b'.slots[j].start, b'.slots[j].count))
  {
    var start, b' := BigStart(b, n), BigTake(b, n);
    forall s | s in b.live ensures Apart(s, b.live[s], start, n) {
      assert Within(b, s, b.live[s]);
      assert Reuses(b, n) ==> Apart(s, b.live[s], b.slots[0].start, b.slots[0].count);
    }
    forall j | 0 <= j < |b'.slots| ensures Apart(start, n, b'.slots[j].start, b'.slots[j].count) {
      if Reuses(b, n) {
        assert Apart(b.slots[0].start, b.slots[0].count, b.slots[j + 1].start, b.slots[j + 1].count);
      } else {
        assert Within(b, b.slots[j].start, b.slots[j].count);
      }
    }
  }

  lemma TakeRange(b: Big, n: nat)
    requires InRange(b) && CanTake(b, n)
    ensures InRange(BigTake(b, n))
  {
    var b' := BigTake(b, n);
    forall s | s in b'.live ensures Within(b', s, b'.live[s]) {
      if s in b.live { assert Within(b, s, b.live[s]); }
      if Reuses(b, n) { assert Within(b, b.slots[0].start, b.slots[0].count); }
    }
    forall j | 0 <= j < |b'.slots| ensures Within(b', b'.slots[j].start, b'.slots[j].count) {
      var i := if Reuses(b, n) then j + 1 else j;
      assert Within(b, b.slots[i].start, b.slots[i].count);
    }
  }

  lemma TakeDisjoint(b: Big, n: nat)
    requires BigOk(b) && CanTake(b, n)
    ensures Disjoint(BigTake(b, n))
  {
    var start, b' := BigStart(b, n), BigTake(b, n);
    TakeClear(b, n);
    TakeFacts(b, n);
    hide InRange, Within;
    forall s, t | s in b'.live && t in b'.live && s != t ensures Apart(s, b'.live[s], t, b'.live[t]) {
      if s in b.live && t in b.live { assert Apart(s, b.live[s], t, b.live[t]); }
    }
    forall s, j | s in b'.live && 0 <= j < |b'.slots|
      ensures Apart(s, b'.live[s], b'.slots[j].start, b'.slots[j].count)
    {
      var i := if Reuses(b, n) then j + 1 else j;
      if s in b.live { assert Apart(s, b.live[s], b.slots[i].start, b.slots[i].count); }
    }
    forall i, j | 0 <= i < j < |b'.slots|
      ensures Apart(b'.slots[i].start, b'.slots[i].count, b'.slots[j].start, b'.slots[j].count)
    {
      var o := if Reuses(b, n) then 1 else 0;
      assert Apart(b.slots[i + o].start, b.slots[i + o].count, b.slots[j + o].start, b.slots[j + o].count);
    }
  }

  lemma TakeKeeps(b: Big, n: nat)
    requires BigOk(b) && CanTake(b, n)
    ensures BigOk(BigTake(b, n))
  {
    TakeRange(b, n);
    TakeDisjoint(b, n);
  }

  lemma ReleaseDisjoint(b: Big, start: nat)
    requires Disjoint(b) && start in b.live
    ensures Disjoint(BigRelease(b, start))
  {
    var b' := BigRelease(b, start);
    forall s, t | s in b'.live && t in b'.live && s != t ensures Apart(s, b'.live[s], t, b'.live[t]) {
      assert Apart(s, b.live[s], t, b.live[t]);
    }
    forall s, j | s in b'.live && 0 <= j < |b'.slots|
      ensures Apart(s, b'.live[s], b'.slots[j].start, b'.slots[j].count)
    {
      if j == 0 { assert Apart(s, b.live[s], start, b.live[start]); }
      else { assert Apart(s, b.live[s], b.slots[j - 1].start, b.slots[j - 1].count); }
    }
    forall i, j | 0 <= i < j < |b'.slots|
      ensures Apart(b'.slots[i].start, b'.slots[i].count, b'.slots[j].start, b'.slots[j].count)
    {
      if i == 0 { assert Apart(start, b.live[start], b.slots[j - 1].start, b.slots[j - 1].count); }
      else { assert Apart(b.slots[i - 1].start, b.slots[i - 1].count, b.slots[j - 1].start, b.slots[j - 1].count); }
    }
  }

  lemma ReleaseKeeps(b: Big, start: nat)
    requires BigOk(b) && start in b.live
    ensures BigOk(BigRelease(b, start))
  {
    var b' := BigRelease(b, start);
    ReleaseDisjoint(b, start);
    hide Disjoint;
    assert Within(b, start, b.live[start]);
    forall s | s in b'.live ensures Within(b', s, b'.live[s]) { assert Within(b, s, b.live[s]); }
    forall j | 0 <= j < |b'.slots| ensures Within(b', b'.slots[j].start, b'.slots[j].count) {
      if j > 0 { assert Within(b, b.slots[j - 1].start, b.slots[j - 1].count); }
    }
  }

  // ---------------------------------------------------------------------------------------
  // Which pages each step adds and removes
  // ---------------------------------------------------------------------------------------

  lemma TakePages(b: Big, n: nat, p: nat)
    requires BigOk(b) && CanTake(b, n)
    ensures var start, b' := BigStart(b, n), BigTake(b, n);
            && (LivePage(b', p) <==> LivePage(b, p) || start <= p < start + n)
            && (HostagePage(b', p) <==> HostagePage(b, p) && !(Reuses(b, n) && p == start))
  {
    var start, b' := BigStart(b, n), BigTake(b, n);
    TakeFacts(b, n);
    if LivePage(b, p) {
      var s :| s in b.live && s <= p < s + b.live[s];
      assert s in b'.live && b'.live[s] == b.live[s];
    }
    if start <= p < start + n { assert start in b'.live; }
    if LivePage(b', p) {
      var s :| s in b'.live && s <= p < s + b'.live[s];
      assert s == start || (s in b.live && b.live[s] == b'.live[s]);
    }
    var o := if Reuses(b, n) then 1 else 0;
    if HostagePage(b', p) {
      var j :| 0 <= j < |b'.slots| && b'.slots[j].start == p;
      assert b.slots[j + o] == b'.slots[j];
      if o == 1 { SlotsDiffer(b, 0, j + 1); }
    }
    if HostagePage(b, p) && !(Reuses(b, n) && p == start) {
      var j :| 0 <= j < |b.slots| && b.slots[j].start == p;
      assert b'.slots[j - o] == b.slots[j];
    }
  }

  lemma SlotsDiffer(b: Big, i: nat, j: nat)
    requires BigOk(b) && i < j < |b.slots|
    ensures b.slots[i].start != b.slots[j].start
  {
    assert Apart(b.slots[i].start, b.slots[i].count, b.slots[j].start, b.slots[j].count);
    assert Within(b, b.slots[i].start, b.slots[i].count) && Within(b, b.slots[j].start, b.slots[j].count);
  }

  lemma ReleaseLive(b: Big, start: nat, p: nat)
    requires BigOk(b) && start in b.live
    ensures LivePage(BigRelease(b, start), p) <==> LivePage(b, p) && !(start <= p < start + b.live[start])
  {
    var n, b' := b.live[start], BigRelease(b, start);
    if LivePage(b', p) {
      var s :| s in b'.live && s <= p < s + b'.live[s];
      assert s in b.live && Apart(s, b.live[s], start, n);
    }
    if LivePage(b, p) && !(start <= p < start + n) {
      var s :| s in b.live && s <= p < s + b.live[s];
      assert s in b'.live;
    }
  }

  lemma ReleaseHostage(b: Big, start: nat, p: nat)
    requires start in b.live
    ensures HostagePage(BigRelease(b, start), p) <==> HostagePage(b, p) || p == start
  {
    var b' := BigRelease(b, start);
    if HostagePage(b', p) {
      var j :| 0 <= j < |b'.slots| && b'.slots[j].start == p;
      assert j == 0 || b.slots[j - 1] == b'.slots[j];
    }
    if HostagePage(b, p) {
      var j :| 0 <= j < |b.slots| && b.slots[j].start == p;
      assert b'.slots[j + 1] == b.slots[j];
    }
    assert b'.slots[0].start == start;
  }

  /** A page is never both live and kept for a link. */
  lemma LiveNotHostage(b: Big, p: nat)
    requires BigOk(b) && LivePage(b, p)
    ensures !HostagePage(b, p) && LARGE_PAGE <= p < b.cursor
  {
    var s :| s in b.live && s <= p < s + b.live[s];
    assert Within(b, s, b.live[s]);
    forall j | 0 <= j < |b.slots| ensures b.slots[j].start != p {
      assert Apart(s, b.live[s], b.slots[j].start, b.slots[j].count);
      assert Within(b, b.slots[j].start, b.slots[j].count);
    }
  }

  // ---------------------------------------------------------------------------------------
  // Page totals
  // ---------------------------------------------------------------------------------------

  /** Sum of the page counts of all live regions. */
  ghost function Total(m: map<nat, nat>): nat {
    if m == map[] then 0
    else
      var s :| s in m;
      m[s] + Total(m - {s})
  }

  lemma {:induction false} TotalRemove(m: map<nat, nat>, s: nat)
    requires s in m
    ensures Total(m) == m[s] + Total(m - {s})
    decreases |m|
  {
    var t :| t in m && Total(m) == m[t] + Total(m - {t});
    if t != s {
      assert |m - {t}| < |m| && |m - {s}| < |m| by {
        assert (m - {t}).Keys == m.Keys - {t} && (m - {s}).Keys == m.Keys - {s};
      }
      TotalRemove(m - {t}, s);
      TotalRemove(m - {s}, t);
      assert m - {t} - {s} == m - {s} - {t};
    }
  }

  lemma TotalAdd(m: map<nat, nat>, s: nat, n: nat)
    requires s !in m
    ensures Total(m[s := n]) == Total(m) + n
  {
    TotalRemove(m[s := n], s);
    assert m[s := n] - {s} == m;
  }
}
