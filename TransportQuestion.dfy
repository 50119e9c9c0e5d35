/**
  The transport-mode selection and its percentage split
  (src/components/questions/TransportQuestion.tsx): toggling a mode rebuilds an
  even integer split, editing one mode's percentage rescales the others.

  Every sequence function here recurses on the LAST element, the order in which
  the source's forEach and reduce visit the modes.
 */
module TransportQuestion {
  import opened CarbonTypes

  /** Percentage of the daily distance per mode id. */
  type Distribution = map<string, real>

  predicate NoDup(s: seq<string>)
  {
    forall i, j :: 0 <= i < j < |s| ==> s[i] != s[j]
  }

  function Elems(s: seq<string>): set<string>
  {
    set x | x in s
  }

  /** `distribution[id] || 0`: a missing entry reads as 0. */
  function Get(d: Distribution, id: string): real
  {
    if id in d then d[id] else 0.0
  }

  /** The distribution panel is shown only when more than one mode is selected. */
  predicate ShowDistribution(selectedModes: seq<string>)
  {
    |selectedModes| > 1
  }

  // ---------------------------------------------------------------------------
  // Mode selection
  // ---------------------------------------------------------------------------

  /** `modes.filter(id => id !== m)`: every occurrence of m removed, order kept. */
  function Without(s: seq<string>, m: string): (r: seq<string>)
    ensures forall x :: x in r <==> x in s && x != m
    ensures NoDup(s) ==> NoDup(r)
    ensures NoDup(s) && m in s ==> |r| == |s| - 1
    ensures m !in s ==> r == s
  {
    if s == [] then []
    else
      var init, last := s[..|s| - 1], s[|s| - 1];
      assert s == init + [last];
      var w := Without(init, m);
      NoDupSnoc(init, last);
      NoDupSnoc(w, last);
      if last == m then w else w + [last]
  }

  /** A list with one more element at the end is duplicate-free exactly when
      the list is and does not hold that element already. */
  lemma NoDupSnoc(w: seq<string>, x: string)
    ensures NoDup(w + [x]) <==> NoDup(w) && x !in w
  {
    var s := w + [x];
    if NoDup(s) {
      forall i, j | 0 <= i < j < |w| ensures w[i] != w[j] {
        assert s[i] == w[i] && s[j] == w[j];
      }
      forall i | 0 <= i < |w| ensures w[i] != x {
        assert s[i] == w[i] && s[|w|] == x;
      }
    }
  }

  /** A selected mode is removed, an unselected one appended at the end. */
  function ToggleSelection(s: seq<string>, m: string): (r: seq<string>)
    ensures m !in s ==> r == s + [m]
    ensures m in r <==> m !in s
    ensures forall x :: x != m ==> (x in r <==> x in s)
    ensures NoDup(s) ==> NoDup(r)
  {
    if m in s then Without(s, m) else s + [m]
  }

  /** In a duplicate-free list, the filter removes the mode from where it
      stands and keeps every other mode in its place and order. */
  lemma {:induction false} WithoutKeepsOrder(s: seq<string>, m: string, k: nat)
    requires NoDup(s) && k < |s| && s[k] == m
    ensures Without(s, m) == s[..k] + s[k + 1..]
  {
    var init, last := s[..|s| - 1], s[|s| - 1];
    assert s == init + [last];
    NoDupSnoc(init, last);
    if k == |s| - 1 {
      assert m !in init;
    } else {
      WithoutKeepsOrder(init, m, k);
      assert s[..k] == init[..k];
      assert s[k + 1..] == init[k + 1..] + [last];
    }
  }

  /** Deselecting the mode at position k of a duplicate-free selection keeps
      the others in order. */
  lemma ToggleRemovesInPlace(s: seq<string>, m: string, k: nat)
    requires NoDup(s) && k < |s| && s[k] == m
    ensures ToggleSelection(s, m) == s[..k] + s[k + 1..]
  {
    WithoutKeepsOrder(s, m, k);
  }

  /** Selecting a mode and deselecting it again restores the selection list. */
  lemma ToggleTwiceRestores(s: seq<string>, m: string)
    requires m !in s
    ensures ToggleSelection(ToggleSelection(s, m), m) == s
  {
    assert (s + [m])[..|s|] == s;
  }

  // ---------------------------------------------------------------------------
  // Even split after a toggle
  // ---------------------------------------------------------------------------

  /** Share of the i-th of n modes in a fresh split: floor(100 / n), except the
      last mode, which takes what the others leave of 100. */
  function Share(n: nat, i: nat): int
    requires i < n
  {
    if i == n - 1 then 100 - (n - 1) * (100 / n) else 100 / n
  }

  /** Every share is non-negative and none exceeds the last one. */
  lemma ShareBounds(n: nat, i: nat)
    requires i < n
    ensures 0 <= Share(n, i) <= Share(n, n - 1)
  {
    var q := 100 / n;
    assert n * q <= 100;
    assert (n - 1) * q == n * q - q;
  }

  /** The forEach at the heart of handleModeToggle: each mode but the last gets
      the even split, the last gets what remains. */
  method EvenSplit(modes: seq<string>) returns (dist: Distribution)
    ensures dist.Keys == Elems(modes)
    ensures NoDup(modes) ==>
      forall i :: 0 <= i < |modes| ==> dist[modes[i]] == Share(|modes|, i) as real
  {
    dist := map[];
    if |modes| > 0 {
      var n := |modes|;
      var evenSplit := 100 / n;
      var remaining := 100;
      var index := 0;
      while index < n
        invariant 0 <= index <= n
        invariant dist.Keys == Elems(modes[..index])
        invariant index < n ==> remaining == 100 - index * evenSplit
        invariant NoDup(modes) ==>
          forall j :: 0 <= j < index ==> dist[modes[j]] == Share(n, j) as real
      {
        var mode := modes[index];
        assert modes[..index + 1] == modes[..index] + [mode];
        if index == n - 1 {
          dist := dist[mode := remaining as real];
        } else {
          dist := dist[mode := evenSplit as real];
          remaining := remaining - evenSplit;
          assert (index + 1) * evenSplit == index * evenSplit + evenSplit;
        }
        index := index + 1;
      }
      assert modes[..n] == modes;
    }
  }

  // ---------------------------------------------------------------------------
  // Sums
  // ---------------------------------------------------------------------------

  /** `ids.reduce((sum, id) => sum + (d[id] || 0), 0)`. */
  function SumOver(d: Distribution, ids: seq<string>): real
  {
    if ids == [] then 0.0 else SumOver(d, ids[..|ids| - 1]) + Get(d, ids[|ids| - 1])
  }

  /** Sum of all the values of a map, in no particular order. */
  ghost function MapSum(d: Distribution): real
    decreases |d|
  {
    if d == map[] then 0.0
    else
      var k :| k in d;
      assert |d - {k}| < |d| by { MapRemoveSize(d, k); }
      d[k] + MapSum(d - {k})
  }

  lemma MapRemoveSize(d: Distribution, k: string)
    requires k in d
    ensures |d - {k}| == |d| - 1
  {
    assert (d - {k}).Keys == d.Keys - {k};
    assert |d.Keys - {k}| == |d.Keys| - 1;
  }

  /** MapSum does not depend on which key is taken first. */
  lemma {:induction false} MapSumRemove(d: Distribution, k: string)
    requires k in d
    ensures MapSum(d) == d[k] + MapSum(d - {k})
    decreases |d|
  {
    var j :| j in d && MapSum(d) == d[j] + MapSum(d - {j});
    if j != k {
      MapRemoveSize(d, j);
      MapRemoveSize(d, k);
      MapSumRemove(d - {j}, k);
      MapSumRemove(d - {k}, j);
      assert d - {j} - {k} == d - {k} - {j};
    }
  }

  /** When the keys are exactly a duplicate-free list, summing the map and
      summing over the list agree. */
  lemma {:induction false} MapSumOfKeys(d: Distribution, s: seq<string>)
    requires NoDup(s) && d.Keys == Elems(s)
    ensures MapSum(d) == SumOver(d, s)
  {
    if s == [] {
      assert d == map[];
    } else {
      var init, last := s[..|s| - 1], s[|s| - 1];
      var rest := d - {last};
      DropLastKey(d, s);
      MapSumOfKeys(rest, init);
      SumOverAgree(rest, d, init);
      MapSumRemove(d, last);
    }
  }

  /** Removing the last listed key leaves a map keyed exactly by the rest of
      the list, agreeing with the original on it. */
  lemma DropLastKey(d: Distribution, s: seq<string>)
    requires s != [] && NoDup(s) && d.Keys == Elems(s)
    ensures var init, last := s[..|s| - 1], s[|s| - 1];
      && last in d
      && NoDup(init) && (d - {last}).Keys == Elems(init)
      && forall x :: x in init ==> Get(d - {last}, x) == Get(d, x)
  {
    var init, last := s[..|s| - 1], s[|s| - 1];
    assert s == init + [last];
  }

  /** Sums over the same list agree when the two maps agree on it. */
  lemma {:induction false} SumOverAgree(d1: Distribution, d2: Distribution, ids: seq<string>)
    requires forall x :: x in ids ==> Get(d1, x) == Get(d2, x)
    ensures SumOver(d1, ids) == SumOver(d2, ids)
  {
    if ids != [] {
      var init := ids[..|ids| - 1];
      assert ids == init + [ids[|ids| - 1]];
      SumOverAgree(d1, d2, init);
    }
  }

  /** x scaled by c: a sum or an entry of the other modes scaled by the
      factor of the proportional pass, or an entry c counted x times. Kept as
      one term so that sums can be compared with scaled sums mode by mode. */
  function Scale(c: real, x: real): real
  {
    c * x
  }

  /** Scaling every entry of the list scales the sum. */
  lemma {:induction false} SumOverScaled(d: Distribution, e: Distribution, ids: seq<string>, c: real)
    requires forall x :: x in ids ==> Get(e, x) == c * Get(d, x)
    ensures SumOver(e, ids) == Scale(c, SumOver(d, ids))
  {
    if ids != [] {
      var init, last := ids[..|ids| - 1], ids[|ids| - 1];
      assert ids == init + [last];
      SumOverScaled(d, e, init, c);
      ScaledStep(c, SumOver(d, ids), SumOver(d, init), Get(d, last), SumOver(e, ids), SumOver(e, init), Get(e, last));
    }
  }

  /** One step of SumOverScaled: appending a mode whose entry is scaled by c
      to a list whose sum is scaled by c keeps the sum scaled by c. */
  lemma ScaledStep(c: real, whole: real, part: real, entry: real, scaledWhole: real, scaledPart: real, scaledEntry: real)
    requires whole == part + entry && scaledWhole == scaledPart + scaledEntry
    requires scaledPart == Scale(c, part) && scaledEntry == c * entry
    ensures scaledWhole == Scale(c, whole)
  {
  }

  /** A list whose entries all read c sums to its length times c. */
  lemma {:induction false} SumOverConst(e: Distribution, ids: seq<string>, c: real)
    requires forall x :: x in ids ==> Get(e, x) == c
    ensures SumOver(e, ids) == Scale(|ids| as real, c)
  {
    if ids != [] {
      var init, last := ids[..|ids| - 1], ids[|ids| - 1];
      assert ids == init + [last];
      SumOverConst(e, init, c);
      OneMoreTimes(c, SumOver(e, ids), SumOver(e, init), |init| as real, |ids| as real);
    }
  }

  /** One step of SumOverConst: one more mode reading c adds c to the sum of
      n modes reading c. */
  lemma OneMoreTimes(c: real, whole: real, part: real, n: real, m: real)
    requires whole == part + c && part == Scale(n, c) && m == n + 1.0
    ensures whole == Scale(m, c)
  {
  }

  /** Non-negative entries have a non-negative sum, which is 0 only when every entry is. */
  lemma {:induction false} SumOverNonNegative(d: Distribution, ids: seq<string>)
    requires forall x :: x in ids ==> Get(d, x) >= 0.0
    ensures SumOver(d, ids) >= 0.0
    ensures SumOver(d, ids) == 0.0 ==> forall x :: x in ids ==> Get(d, x) == 0.0
  {
    if ids != [] {
      var init := ids[..|ids| - 1];
      assert ids == init + [ids[|ids| - 1]];
      SumOverNonNegative(d, init);
    }
  }

  /** In a duplicate-free list, the sum is one member's entry plus the sum over the rest. */
  lemma {:induction false} SumOverSplit(d: Distribution, s: seq<string>, m: string)
    requires NoDup(s) && m in s
    ensures SumOver(d, s) == Get(d, m) + SumOver(d, Without(s, m))
  {
    var init, last := s[..|s| - 1], s[|s| - 1];
    assert s == init + [last];
    if last == m {
      assert m !in init;
    } else {
      SumOverSplit(d, init, m);
      var w := Without(init, m);
      assert (w + [last])[..|w|] == w;
    }
  }

  /** The first k shares of an even split add up to k * floor(100 / n). */
  lemma {:induction false} EvenPrefixSum(d: Distribution, modes: seq<string>, k: nat)
    requires 0 < |modes| && k < |modes|
    requires forall i :: 0 <= i < |modes| ==> Get(d, modes[i]) == Share(|modes|, i) as real
    ensures SumOver(d, modes[..k]) == (k * (100 / |modes|)) as real
  {
    if k > 0 {
      var share := 100 / |modes|;
      var prefix := modes[..k];
      assert prefix[..k - 1] == modes[..k - 1] && prefix[k - 1] == modes[k - 1];
      EvenPrefixSum(d, modes, k - 1);
      assert Get(d, modes[k - 1]) == share as real;
      OneMoreShare(k, share);
    }
  }

  /** One step of EvenPrefixSum: one more even share c after k - 1 of them
      makes k shares. */
  lemma OneMoreShare(k: nat, c: int)
    requires k > 0
    ensures ((k - 1) * c) as real + c as real == (k * c) as real
  {
  }

  // ---------------------------------------------------------------------------
  // The distribution invariant
  // ---------------------------------------------------------------------------

  /** Keys exactly the selected modes, no negative share, and a total of exactly
      100 whenever any mode is selected. */
  ghost predicate ValidDistribution(selectedModes: seq<string>, d: Distribution)
  {
    && NoDup(selectedModes)
    && d.Keys == Elems(selectedModes)
    && (forall m :: m in d ==> d[m] >= 0.0)
    && (|selectedModes| > 0 ==> SumOver(d, selectedModes) == 100.0)
  }

  /** An even split is a valid distribution whose last share is the largest. */
  lemma EvenSplitIsValid(modes: seq<string>, d: Distribution)
    requires NoDup(modes) && d.Keys == Elems(modes)
    requires forall i :: 0 <= i < |modes| ==> d[modes[i]] == Share(|modes|, i) as real
    ensures ValidDistribution(modes, d)
    ensures forall i :: 0 <= i < |modes| ==> d[modes[i]] <= d[modes[|modes| - 1]]
  {
    EvenSplitShares(modes, d);
    if |modes| > 0 {
      assert forall i :: 0 <= i < |modes| ==> Get(d, modes[i]) == Share(|modes|, i) as real;
      EvenSplitSum(modes, d);
    }
  }

  lemma EvenSplitShares(modes: seq<string>, d: Distribution)
    requires d.Keys == Elems(modes)
    requires forall i :: 0 <= i < |modes| ==> d[modes[i]] == Share(|modes|, i) as real
    ensures forall m :: m in d ==> d[m] >= 0.0
    ensures forall i :: 0 <= i < |modes| ==> d[modes[i]] <= d[modes[|modes| - 1]]
  {
    var n := |modes|;
    forall m | m in d
      ensures d[m] >= 0.0
    {
      var i :| 0 <= i < n && modes[i] == m;
      ShareBounds(n, i);
    }
    forall i | 0 <= i < n
      ensures d[modes[i]] <= d[modes[n - 1]]
    {
      ShareBounds(n, i);
    }
  }

  lemma EvenSplitSum(modes: seq<string>, d: Distribution)
    requires |modes| > 0
    requires forall i :: 0 <= i < |modes| ==> Get(d, modes[i]) == Share(|modes|, i) as real
    ensures SumOver(d, modes) == 100.0
  {
    var n := |modes|;
    EvenPrefixSum(d, modes, n - 1);
    assert modes == modes[..n - 1] + [modes[n - 1]];
  }

  /** handleModeToggle: new selection, a fresh even split over it, the distance kept. */
  method HandleModeToggle(data: TransportData, modeId: string) returns (r: TransportData)
    ensures r.selectedModes == ToggleSelection(data.selectedModes, modeId)
    ensures r.dailyKm == data.dailyKm
    ensures r.modeDistribution.Keys == Elems(r.selectedModes)
    ensures NoDup(r.selectedModes) ==>
      forall i :: 0 <= i < |r.selectedModes| ==>
        r.modeDistribution[r.selectedModes[i]] == Share(|r.selectedModes|, i) as real
    ensures NoDup(data.selectedModes) ==> ValidDistribution(r.selectedModes, r.modeDistribution)
    ensures NoDup(data.selectedModes) && |r.selectedModes| > 0 ==>
      forall i :: 0 <= i < |r.selectedModes| ==>
        r.modeDistribution[r.selectedModes[i]] <= r.modeDistribution[r.selectedModes[|r.selectedModes| - 1]]
  {
    var newSelectedModes := if modeId in data.selectedModes
      then Without(data.selectedModes, modeId)
      else data.selectedModes + [modeId];
    var newDistribution := EvenSplit(newSelectedModes);
    if NoDup(data.selectedModes) {
      EvenSplitIsValid(newSelectedModes, newDistribution);
    }
    r := data.(selectedModes := newSelectedModes, modeDistribution := newDistribution);
  }

  /** The split after a toggle depends on the new selection alone: two toggles
      reaching the same selection give the same distribution, whatever the
      percentages were before. */
  lemma ToggleForgetsPercentages(s: seq<string>, d1: Distribution, d2: Distribution)
    requires NoDup(s)
    requires d1.Keys == Elems(s) && d2.Keys == Elems(s)
    requires forall i :: 0 <= i < |s| ==> d1[s[i]] == Share(|s|, i) as real
    requires forall i :: 0 <= i < |s| ==> d2[s[i]] == Share(|s|, i) as real
    ensures d1 == d2
  {
    forall m | m in d1
      ensures d1[m] == d2[m]
    {
      var i :| 0 <= i < |s| && s[i] == m;
    }
  }

  // ---------------------------------------------------------------------------
  // Editing one mode's percentage
  // ---------------------------------------------------------------------------

  /** How each other mode is rewritten by one of the two forEach passes: in
      proportion to its share (line 90) or by an even correction (line 99). */
  datatype Pass = Proportional(difference: real, totalOthers: real) | Correction(adjustment: real)

  /** The proportional pass only runs when the other modes hold a positive total. */
  predicate Runnable(p: Pass)
  {
    p.Proportional? ==> p.totalOthers > 0.0
  }

  /** Math.max(0, x). */
  function Max0(x: real): real
  {
    if x > 0.0 then x else 0.0
  }

  function Rewrite(p: Pass, current: real): (r: real)
    requires Runnable(p)
    ensures r >= 0.0
  {
    match p
    case Proportional(difference, totalOthers) =>
      var proportion := current / totalOthers;
      Max0(current - difference * proportion)
    case Correction(adjustment) =>
      Max0(current + adjustment)
  }

  /** One forEach pass over ids, each reading the entry as it stands. */
  function ApplyPass(d: Distribution, ids: seq<string>, p: Pass): Distribution
    requires Runnable(p)
  {
    if ids == [] then d
    else
      var prev := ApplyPass(d, ids[..|ids| - 1], p);
      var last := ids[|ids| - 1];
      prev[last := Rewrite(p, Get(prev, last))]
  }

  /** A pass adds exactly the listed ids as keys, leaves every listed entry
      non-negative and every other entry as it was. */
  lemma {:induction false} ApplyPassFrame(d: Distribution, ids: seq<string>, p: Pass)
    requires Runnable(p)
    ensures var r := ApplyPass(d, ids, p);
      && r.Keys == d.Keys + Elems(ids)
      && (forall x :: x in ids ==> r[x] >= 0.0)
      && (forall x :: x in r && x !in ids ==> r[x] == d[x])
  {
    if ids != [] {
      var init, last := ids[..|ids| - 1], ids[|ids| - 1];
      assert ids == init + [last];
      ApplyPassFrame(d, init, p);
    }
  }

  /** Over a duplicate-free list each listed entry is rewritten exactly once,
      from its value before the pass. */
  lemma {:induction false} ApplyPassAt(d: Distribution, ids: seq<string>, p: Pass, x: string)
    requires Runnable(p) && NoDup(ids) && x in ids
    ensures Get(ApplyPass(d, ids, p), x) == Rewrite(p, Get(d, x))
  {
    var init, last := ids[..|ids| - 1], ids[|ids| - 1];
    assert ids == init + [last];
    if x == last {
      assert x !in init;
      ApplyPassFrame(d, init, p);
      assert Get(ApplyPass(d, init, p), x) == Get(d, x);
    } else {
      ApplyPassAt(d, init, p, x);
    }
  }

  /** The edited entry set to the requested value, then the proportional pass
      over the other modes when they hold a positive total (lines 76-92). */
  function Proportioned(d: Distribution, selectedModes: seq<string>, modeId: string, value: real): Distribution
  {
    ProportionedFrom(d[modeId := value], Without(selectedModes, modeId), value, Get(d, modeId))
  }

  /** The proportional pass once the edited entry, which held oldValue, holds value. */
  function ProportionedFrom(edited: Distribution, others: seq<string>, value: real, oldValue: real): Distribution
  {
    var difference := value - oldValue;
    var totalOthers := SumOver(edited, others);
    if totalOthers > 0.0 then ApplyPass(edited, others, Proportional(difference, totalOthers)) else edited
  }

  /** The correction pass (lines 95-101): when the whole map does not add up
      to 100, the error is spread evenly over the other modes. */
  ghost function Corrected(d: Distribution, others: seq<string>): Distribution
  {
    var total := MapSum(d);
    if total != 100.0 && |others| > 0
    then ApplyPass(d, others, Correction(EvenShare(total, |others|)))
    else d
  }

  /** Line 97: the part of 100 - total each of n other modes receives. */
  function EvenShare(total: real, n: nat): real
    requires n > 0
  {
    (100.0 - total) / n as real
  }

  /** Specification of handleDistributionChange's result. */
  ghost function Adjusted(d: Distribution, selectedModes: seq<string>, modeId: string, value: real): Distribution
  {
    Corrected(Proportioned(d, selectedModes, modeId, value), Without(selectedModes, modeId))
  }

  /** `reduce` over a list of modes. */
  method SumModes(d: Distribution, ids: seq<string>) returns (total: real)
    ensures total == SumOver(d, ids)
  {
    total := 0.0;
    var i := 0;
    while i < |ids|
      invariant 0 <= i <= |ids|
      invariant total == SumOver(d, ids[..i])
    {
      assert ids[..i + 1][..i] == ids[..i];
      total := total + Get(d, ids[i]);
      i := i + 1;
    }
    assert ids[..|ids|] == ids;
  }

  /** `Object.values(d).reduce(...)`: the sum of every entry of the map. */
  method SumValues(d: Distribution) returns (total: real)
    ensures total == MapSum(d)
  {
    total := 0.0;
    var rest := d;
    while rest != map[]
      invariant total + MapSum(rest) == MapSum(d)
      decreases |rest|
    {
      var k :| k in rest;
      MapSumRemove(rest, k);
      MapRemoveSize(rest, k);
      total := total + rest[k];
      rest := rest - {k};
    }
  }

  /** `ids.forEach(id => d[id] = ...)`. */
  method RunPass(d: Distribution, ids: seq<string>, p: Pass) returns (r: Distribution)
    requires Runnable(p)
    ensures r == ApplyPass(d, ids, p)
  {
    r := d;
    var i := 0;
    while i < |ids|
      invariant 0 <= i <= |ids|
      invariant r == ApplyPass(d, ids[..i], p)
    {
      assert ids[..i + 1][..i] == ids[..i];
      r := r[ids[i] := Rewrite(p, Get(r, ids[i]))];
      i := i + 1;
    }
    assert ids[..|ids|] == ids;
  }

  /** Lines 83-92: when the other modes hold a positive total, each absorbs
      the change in proportion to its share, clamped at 0. */
  method RescaleOthers(d: Distribution, otherModes: seq<string>, value: real, oldValue: real) returns (r: Distribution)
    ensures r == ProportionedFrom(d, otherModes, value, oldValue)
  {
    var difference := value - oldValue;
    r := d;
    var totalOthers := SumModes(r, otherModes);
    if totalOthers > 0.0 {
      r := RunPass(r, otherModes, Proportional(difference, totalOthers));
    }
  }

  /** Lines 95-101: if the whole map does not add up to 100, spread the error
      evenly over the other modes. */
  method CorrectTotal(d: Distribution, otherModes: seq<string>) returns (r: Distribution)
    ensures r == Corrected(d, otherModes)
  {
    r := d;
    var total := SumValues(r);
    if total != 100.0 {
      // With no other modes the source divides by zero, but its forEach then
      // visits nothing: the distribution is left as it is.
      if |otherModes| > 0 {
        var adjustment := (100.0 - total) / |otherModes| as real;
        r := RunPass(r, otherModes, Correction(adjustment));
      }
    }
  }

  /** handleDistributionChange: only the distribution changes. */
  method HandleDistributionChange(data: TransportData, modeId: string, value: real) returns (r: TransportData)
    ensures r.selectedModes == data.selectedModes && r.dailyKm == data.dailyKm
    ensures r.modeDistribution == Adjusted(data.modeDistribution, data.selectedModes, modeId, value)
  {
    var newDistribution := data.modeDistribution;
    var oldValue := Get(newDistribution, modeId);
    newDistribution := newDistribution[modeId := value];
    var otherModes := Without(data.selectedModes, modeId);
    newDistribution := RescaleOthers(newDistribution, otherModes, value, oldValue);
    newDistribution := CorrectTotal(newDistribution, otherModes);
    r := data.(modeDistribution := newDistribution);
  }

  /** On any input: the edited mode holds exactly the requested value, keys are
      only added for the edited or selected modes, and an entry of another mode
      is negative afterwards only if it was negative before. */
  lemma AdjustedBasics(d: Distribution, selectedModes: seq<string>, modeId: string, value: real)
    ensures var r := Adjusted(d, selectedModes, modeId, value);
      && modeId in r && r[modeId] == value
      && d.Keys + {modeId} <= r.Keys <= d.Keys + {modeId} + Elems(selectedModes)
      && ((forall m :: m in d && m != modeId ==> d[m] >= 0.0) ==>
          forall m :: m in r && m != modeId ==> r[m] >= 0.0)
  {
    var others := Without(selectedModes, modeId);
    var d1 := d[modeId := value];
    var total := SumOver(d1, others);
    if total > 0.0 {
      ApplyPassFrame(d1, others, Proportional(value - Get(d, modeId), total));
    }
    var d2 := Proportioned(d, selectedModes, modeId, value);
    var total2 := MapSum(d2);
    if total2 != 100.0 && |others| > 0 {
      ApplyPassFrame(d2, others, Correction(EvenShare(total2, |others|)));
    }
    assert modeId !in others && Elems(others) <= Elems(selectedModes);
  }

  /** From a valid distribution, the other modes of a selected mode hold
      100 minus its share, each of them non-negative, whatever the edited
      entry is set to. */
  lemma OthersTotal(d: Distribution, selectedModes: seq<string>, modeId: string, value: real)
    requires ValidDistribution(selectedModes, d) && modeId in selectedModes
    ensures SumOver(d[modeId := value], Without(selectedModes, modeId)) == 100.0 - d[modeId]
    ensures forall x :: x in Without(selectedModes, modeId) ==>
      Get(d[modeId := value], x) == Get(d, x) && Get(d, x) >= 0.0
  {
    SumOverSplit(d, selectedModes, modeId);
    SumOverAgree(d[modeId := value], d, Without(selectedModes, modeId));
  }

  /** The proportional rewrite in closed form: with c * t == t - difference,
      every non-negative entry is scaled by c, and Math.max never clamps. */
  lemma ProportionalRewrite(p: Pass, c: real)
    requires p.Proportional? && p.totalOthers > 0.0
    requires c >= 0.0 && c * p.totalOthers == p.totalOthers - p.difference
    ensures forall current :: current >= 0.0 ==> Rewrite(p, current) == c * current
  {
    var difference, t := p.difference, p.totalOthers;
    forall current | current >= 0.0
      ensures Rewrite(p, current) == c * current
    {
      var q := current / t;
      assert q * t == current;
      calc {
        current - difference * q;
        q * t - difference * q;
        q * (t - difference);
        q * (c * t);
        c * (q * t);
        c * current;
      }
      assert c * current >= 0.0;
    }
  }

  /** A pass whose rewrite scales every non-negative entry by c scales each
      listed entry by c. */
  lemma ScalingPass(e: Distribution, others: seq<string>, p: Pass, c: real)
    requires NoDup(others) && Runnable(p)
    requires forall current :: current >= 0.0 ==> Rewrite(p, current) == c * current
    requires forall x :: x in others ==> Get(e, x) >= 0.0
    ensures forall x :: x in others ==> Get(ApplyPass(e, others, p), x) == c * Get(e, x)
  {
    forall x | x in others
      ensures Get(ApplyPass(e, others, p), x) == c * Get(e, x)
    {
      ScalingPassAt(e, others, p, c, x);
    }
  }

  lemma ScalingPassAt(e: Distribution, others: seq<string>, p: Pass, c: real, x: string)
    requires NoDup(others) && Runnable(p)
    requires forall current :: current >= 0.0 ==> Rewrite(p, current) == c * current
    requires x in others && Get(e, x) >= 0.0
    ensures Get(ApplyPass(e, others, p), x) == c * Get(e, x)
  {
    ApplyPassAt(e, others, p, x);
  }

  /** Entries scaled by c have c times the total t. */
  lemma ScaledTotal(e: Distribution, r: Distribution, ids: seq<string>, c: real, t: real)
    requires forall x :: x in ids ==> Get(r, x) == c * Get(e, x)
    requires SumOver(e, ids) == t
    ensures SumOver(r, ids) == c * t
  {
    SumOverScaled(e, r, ids, c);
    assert Scale(c, t) == c * t;
  }

  /** Entries scaled from e are scaled from d where e and d agree. */
  lemma ScaledEntries(r: Distribution, e: Distribution, d: Distribution, ids: seq<string>, c: real, value: real, oldValue: real)
    requires forall x :: x in ids ==> x in r && r[x] == c * Get(e, x)
    requires forall x :: x in ids ==> x in d && Get(e, x) == d[x]
    requires oldValue < 100.0 && c == RescaleFactor(value, oldValue)
    ensures forall x :: x in ids ==> r[x] == Rescaled(value, oldValue, d[x])
  {
    forall x | x in ids
      ensures r[x] == Rescaled(value, oldValue, d[x])
    {
      ScaleEqual(c, RescaleFactor(value, oldValue), Get(e, x), d[x]);
    }
  }

  /** One entry of ScaledEntries: the same entry scaled by the same factor,
      read through two distributions that agree on it. */
  lemma ScaleEqual(c1: real, c2: real, x: real, y: real)
    requires c1 == c2 && x == y
    ensures c1 * x == c2 * y
  {
  }

  /** The correction pass over entries that all read 0 gives each an even
      share of 100 - value, and together they hold 100 - value. */
  lemma CorrectionPassEven(e: Distribution, others: seq<string>, value: real)
    requires NoDup(others) && |others| > 0 && value <= 100.0
    requires forall x :: x in others ==> Get(e, x) == 0.0
    ensures var r := ApplyPass(e, others, Correction(EvenShare(value, |others|)));
      && (forall x :: x in others ==> Get(r, x) == EvenShare(value, |others|))
      && SumOver(r, others) == 100.0 - value
  {
    var a := EvenShare(value, |others|);
    var n := |others| as real;
    var r := ApplyPass(e, others, Correction(a));
    forall x | x in others
      ensures Get(r, x) == a
    {
      ApplyPassAt(e, others, Correction(a), x);
    }
    SumOverConst(r, others, a);
    QuotientTimesDivisor(100.0 - value, n);
  }

  /** A map whose keys are exactly the selected modes and whose entries add up
      to 100 is left alone by the correction pass. */
  lemma CorrectionSkipped(d: Distribution, selectedModes: seq<string>, others: seq<string>)
    requires NoDup(selectedModes) && d.Keys == Elems(selectedModes)
    requires SumOver(d, selectedModes) == 100.0
    ensures Corrected(d, others) == d
  {
    MapSumOfKeys(d, selectedModes);
  }

  /** The proportional pass (lines 83-92) over non-negative entries with a
      positive total t: when c * t == t - difference, each entry is scaled by c
      and nothing is clamped, so the new total is t - difference. */
  lemma ProportionedFromScales(e: Distribution, others: seq<string>, value: real, oldValue: real, t: real, c: real)
    requires NoDup(others) && forall x :: x in others ==> Get(e, x) >= 0.0
    requires SumOver(e, others) == t && t > 0.0
    requires c >= 0.0 && c * t == t - (value - oldValue)
    ensures var r := ProportionedFrom(e, others, value, oldValue);
      && r.Keys == e.Keys + Elems(others)
      && (forall x :: x in r && x !in others ==> r[x] == e[x])
      && (forall x :: x in others ==> r[x] == c * Get(e, x) && r[x] >= 0.0)
      && SumOver(r, others) == t - (value - oldValue)
  {
    var p := Proportional(value - oldValue, t);
    assert ProportionedFrom(e, others, value, oldValue) == ApplyPass(e, others, p);
    assert forall current :: current >= 0.0 ==> Rewrite(p, current) == c * current by {
      ProportionalRewrite(p, c);
    }
    ApplyPassFrame(e, others, p);
    ScalingPass(e, others, p, c);
    ScaledTotal(e, ApplyPass(e, others, p), others, c, t);
  }

  /** The factor the other modes are scaled by when one mode moves from
      oldValue to value below 100: what is left for them, over what they held. */
  function RescaleFactor(value: real, oldValue: real): real
    requires oldValue < 100.0
  {
    (100.0 - value) / (100.0 - oldValue)
  }

  /** An entry x of another mode scaled by the rescale factor. */
  function Rescaled(value: real, oldValue: real, x: real): real
    requires oldValue < 100.0
  {
    RescaleFactor(value, oldValue) * x
  }

  /** The rescale factor is non-negative and turns the others' total,
      t == 100 - oldValue, into 100 - value. */
  lemma ScaleFactor(value: real, oldValue: real, t: real) returns (c: real)
    requires 0.0 <= value <= 100.0 && oldValue < 100.0
    requires t == 100.0 - oldValue
    ensures c == RescaleFactor(value, oldValue)
    ensures c >= 0.0 && c * t == t - (value - oldValue)
  {
    c := RescaleFactor(value, oldValue);
    QuotientTimesDivisor(100.0 - value, 100.0 - oldValue);
  }

  /** (a / t) * t == a, and the quotient of a non-negative by a positive is non-negative. */
  lemma QuotientTimesDivisor(a: real, t: real)
    requires a >= 0.0 && t > 0.0
    ensures a / t >= 0.0 && (a / t) * t == a
  {
  }

  /** The proportional pass once the edited entry is set: the other modes,
      non-negative and holding 100 - oldValue between them, are each scaled by
      the rescale factor and end up holding 100 - value. */
  lemma RescaledOthers(d: Distribution, d1: Distribution, others: seq<string>, oldValue: real, value: real)
    requires NoDup(others) && 0.0 <= value <= 100.0 && oldValue < 100.0
    requires forall x :: x in others ==> x in d && Get(d1, x) == d[x] && d[x] >= 0.0
    requires SumOver(d1, others) == 100.0 - oldValue
    ensures var r := ProportionedFrom(d1, others, value, oldValue);
      && r.Keys == d1.Keys + Elems(others)
      && (forall x :: x in r && x !in others ==> r[x] == d1[x])
      && (forall x :: x in others ==> r[x] == Rescaled(value, oldValue, d[x]) && r[x] >= 0.0)
      && SumOver(r, others) == 100.0 - value
  {
    var t := 100.0 - oldValue;
    var c := ScaleFactor(value, oldValue, t);
    ProportionedFromScales(d1, others, value, oldValue, t, c);
    ScaledEntries(ProportionedFrom(d1, others, value, oldValue), d1, d, others, c, value, oldValue);
  }

  /** The proportional pass as the edit runs it: when the other modes are
      distinct, present in d, non-negative and hold 100 - d[modeId] between
      them, with the edited mode below 100 and a requested value in [0, 100],
      every other mode is scaled by (100 - value) / (100 - old value) and they
      end up holding 100 - value. */
  lemma ProportionedScales(d: Distribution, selectedModes: seq<string>, modeId: string, value: real)
    requires modeId in d && modeId !in Without(selectedModes, modeId)
    requires NoDup(Without(selectedModes, modeId))
    requires forall x :: x in Without(selectedModes, modeId) ==>
      x in d && Get(d[modeId := value], x) == d[x] && d[x] >= 0.0
    requires SumOver(d[modeId := value], Without(selectedModes, modeId)) == 100.0 - d[modeId]
    requires 0.0 <= value <= 100.0 && d[modeId] < 100.0
    ensures var r := Proportioned(d, selectedModes, modeId, value);
      && r.Keys == d.Keys && r[modeId] == value
      && (forall m :: m in Without(selectedModes, modeId) ==>
            r[m] == Rescaled(value, d[modeId], d[m]) && r[m] >= 0.0)
      && SumOver(r, Without(selectedModes, modeId)) == 100.0 - value
  {
    var others := Without(selectedModes, modeId);
    var d1 := d[modeId := value];
    var oldValue := Get(d, modeId);
    assert oldValue == d[modeId];
    RescaledOthers(d, d1, others, oldValue, value);
  }

  /** Editing a mode below 100 scales the others and ends with a total of 100,
      so the correction pass does not run. */
  lemma AdjustProportional(d: Distribution, selectedModes: seq<string>, modeId: string, value: real)
    requires ValidDistribution(selectedModes, d) && modeId in selectedModes
    requires 0.0 <= value <= 100.0 && d[modeId] < 100.0
    ensures var r := Adjusted(d, selectedModes, modeId, value);
      && r.Keys == d.Keys && r[modeId] == value
      && (forall m :: m in selectedModes && m != modeId ==>
            r[m] == Rescaled(value, d[modeId], d[m]))
      && ValidDistribution(selectedModes, r)
  {
    var d2 := Proportioned(d, selectedModes, modeId, value);
    var others := Without(selectedModes, modeId);
    OthersTotal(d, selectedModes, modeId, value);
    ProportionedScales(d, selectedModes, modeId, value);
    assert SumOver(d2, selectedModes) == 100.0 by {
      SumOverSplit(d2, selectedModes, modeId);
    }
    CorrectionSkipped(d2, selectedModes, others);
    assert d2.Keys == Elems(selectedModes);
    assert forall m :: m in d2 ==> d2[m] >= 0.0;
  }

  /** The correction pass after a skipped proportional pass: when every other
      mode reads 0 and the map adds up to value, each of them receives an even
      share of 100 - value, and together they hold 100 - value. */
  lemma CorrectedFromZero(d1: Distribution, others: seq<string>, value: real)
    requires NoDup(others) && |others| > 0
    requires forall x :: x in others ==> x in d1 && d1[x] == 0.0
    requires MapSum(d1) == value && 0.0 <= value <= 100.0
    ensures var r := Corrected(d1, others);
      && r.Keys == d1.Keys
      && (forall x :: x in r && x !in others ==> r[x] == d1[x])
      && (forall x :: x in others ==> r[x] == EvenShare(value, |others|) && r[x] >= 0.0)
      && SumOver(r, others) == 100.0 - value
  {
    var a := EvenShare(value, |others|);
    assert a >= 0.0 by {
      QuotientTimesDivisor(100.0 - value, |others| as real);
    }
    if value != 100.0 {
      ApplyPassFrame(d1, others, Correction(a));
      CorrectionPassEven(d1, others, value);
    } else {
      SumOverConst(d1, others, 0.0);
    }
  }

  /** When the edited mode held all 100% (every other mode at 0), the
      proportional pass is skipped and the correction pass gives each of the
      other modes an even share of 100 - value, restoring the total. */
  lemma AdjustFromZeroOthers(d: Distribution, selectedModes: seq<string>, modeId: string, value: real)
    requires ValidDistribution(selectedModes, d) && modeId in selectedModes
    requires ShowDistribution(selectedModes)
    requires 0.0 <= value <= 100.0 && d[modeId] == 100.0
    ensures var r := Adjusted(d, selectedModes, modeId, value);
      && r.Keys == d.Keys && r[modeId] == value
      && (forall m :: m in selectedModes && m != modeId ==>
            r[m] == EvenShare(value, |selectedModes| - 1))
      && ValidDistribution(selectedModes, r)
  {
    var d1 := d[modeId := value];
    var others := Without(selectedModes, modeId);
    assert SumOver(d1, others) == 0.0 && forall x :: x in others ==> x in d1 && d1[x] == 0.0 by {
      OthersTotal(d, selectedModes, modeId, value);
      SumOverNonNegative(d1, others);
    }
    assert Proportioned(d, selectedModes, modeId, value) == d1;
    assert MapSum(d1) == value by {
      SumOverSplit(d1, selectedModes, modeId);
      SumOverAgree(d1, map m | m in d1 :: 0.0, others);
      MapSumOfKeys(d1, selectedModes);
    }
    CorrectedFromZero(d1, others, value);
    var r := Corrected(d1, others);
    assert SumOver(r, selectedModes) == 100.0 by {
      SumOverSplit(r, selectedModes, modeId);
    }
  }

  /** Editing a percentage keeps the distribution invariant whenever the panel
      is shown (two or more modes), the edited mode is selected and the slider
      value lies in [0, 100]: keys unchanged, nothing negative, total 100. */
  lemma AdjustPreservesDistribution(d: Distribution, selectedModes: seq<string>, modeId: string, value: real)
    requires ValidDistribution(selectedModes, d) && modeId in selectedModes
    requires ShowDistribution(selectedModes)
    requires 0.0 <= value <= 100.0
    ensures ValidDistribution(selectedModes, Adjusted(d, selectedModes, modeId, value))
    ensures Adjusted(d, selectedModes, modeId, value)[modeId] == value
  {
    var others := Without(selectedModes, modeId);
    SumOverSplit(d, selectedModes, modeId);
    SumOverNonNegative(d, others);
    if d[modeId] < 100.0 {
      AdjustProportional(d, selectedModes, modeId, value);
    } else {
      assert d[modeId] == 100.0;
      AdjustFromZeroOthers(d, selectedModes, modeId, value);
    }
  }

  /** With a single selected mode nothing but its own entry changes: it holds
      the requested value, so the total is that value rather than 100. The
      panel is hidden in that case. */
  lemma AdjustSingleMode(d: Distribution, selectedModes: seq<string>, modeId: string, value: real)
    requires selectedModes == [modeId]
    ensures Adjusted(d, selectedModes, modeId, value) == d[modeId := value]
    ensures SumOver(Adjusted(d, selectedModes, modeId, value), selectedModes) == value
    ensures !ShowDistribution(selectedModes)
  {
    assert Without(selectedModes, modeId) == [];
  }
}
