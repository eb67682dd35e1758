// When the slot searches find the slot of a block.
module SlotSearchTheorems {
  import opened Wrappers
  import opened SlotSearch

  /** Block numbers rise by one from each slot that was not missed to the next such slot; there is none before slot 0. */
  ghost predicate Dense(chain: Chain) {
    && (forall s :: s < 0 ==> chain(s).None?)
    && (forall s, t | s < t && chain(s).Some? && chain(t).Some? && Missed(chain, s + 1, t) ::
          chain(t).value == chain(s).value + 1)
  }

  /** The next slot that was not missed. */
  lemma {:induction false} NextBlock(chain: Chain, s: int, t: int) returns (next: int)
    requires Dense(chain) && s < t && chain(s).Some? && chain(t).Some?
    ensures s < next <= t && chain(next).Some? && chain(next).value == chain(s).value + 1
  {
    var r := Forward(chain, s + 1, t - s);
    assert r.Some?;
    hide Forward;
    next := r.value;
  }

  /** Every slot between holds a block, and every block number between has a slot. */
  lemma {:induction false} DenseBetween(chain: Chain, s: int, t: int)
    requires Dense(chain) && s < t && chain(s).Some? && chain(t).Some?
    ensures chain(s).value < chain(t).value
    ensures forall n | chain(s).value <= n <= chain(t).value :: exists k :: s <= k <= t && chain(k) == Some(n)
    decreases t - s
  {
    hide Dense;
    var next := NextBlock(chain, s, t);
    if next < t {
      DenseBetween(chain, next, t);
    }
    forall n | chain(s).value <= n <= chain(t).value ensures exists k :: s <= k <= t && chain(k) == Some(n) {
      if n == chain(s).value {
        assert chain(s) == Some(n);
      } else if n == chain(next).value {
        assert chain(next) == Some(n);
      } else {
        var k :| next <= k <= t && chain(k) == Some(n);
      }
    }
  }

  lemma {:induction false} DenseOrder(chain: Chain, s: int, t: int)
    requires Dense(chain) && chain(s).Some? && chain(t).Some?
    ensures s < t <==> chain(s).value < chain(t).value
    ensures s == t <==> chain(s).value == chain(t).value
  {
    if s < t {
      DenseBetween(chain, s, t);
    } else if t < s {
      DenseBetween(chain, t, s);
    }
  }

  ghost predicate MissedRun(chain: Chain, s: int, n: nat) {
    Missed(chain, s, s + n)
  }

  /** No `n` slots in a row from `lo` to `hi` were missed. */
  ghost predicate NoRun(chain: Chain, lo: int, hi: int, n: nat) {
    forall s :: lo <= s && s + n - 1 <= hi ==> !MissedRun(chain, s, n)
  }

  /** A probe finds the next slot in the window: an unlimited one always, a limited one without so long a run. */
  ghost predicate Reaches(chain: Chain, depth: Option<nat>, lo: int, hi: int) {
    depth.Some? ==> NoRun(chain, lo, hi, depth.value)
  }

  lemma {:induction false} ProbeMissesAll(chain: Chain, depth: Option<nat>, lo: int, hi: int, mid: int)
    requires Reaches(chain, depth, lo, hi) && lo <= mid <= hi && Forward(chain, mid, Reach(depth, mid, hi)).None?
    ensures Missed(chain, mid, hi + 1)
  {
    assert depth.Some? && depth.value < hi - mid + 1 ==> !MissedRun(chain, mid, depth.value);
  }

  lemma {:induction false} NarrowReaches(chain: Chain, depth: Option<nat>, lo: int, hi: int, a: int, b: int)
    requires Reaches(chain, depth, lo, hi) && lo <= a && b <= hi
    ensures Reaches(chain, depth, a, b)
  {
  }

  /** The search finds the target's slot whenever the slot is in the window and its probes reach far enough. */
  lemma {:induction false} SearchFinds(chain: Chain, depth: Option<nat>, lo: int, hi: int, target: nat, t: int)
    requires Dense(chain) && Reaches(chain, depth, lo, hi) && lo <= t <= hi && chain(t) == Some(target)
    ensures Search(chain, depth, lo, hi, target) == Some(t)
    decreases hi - lo + 1
  {
    hide Search, Dense, Forward, Missed, Reaches;
    SearchStep(chain, depth, lo, hi, target);
    var mid := (lo + hi) / 2;
    var probe := Forward(chain, mid, Reach(depth, mid, hi));
    if probe.None? {
      ProbeMissesAll(chain, depth, lo, hi, mid);
      BelowTheRun(chain, mid, hi, t);
      NarrowReaches(chain, depth, lo, hi, lo, mid - 1);
      SearchFinds(chain, depth, lo, mid - 1, target, t);
    } else {
      DenseOrder(chain, probe.value, t);
      if chain(probe.value).value < target {
        NarrowReaches(chain, depth, lo, hi, probe.value + 1, hi);
        SearchFinds(chain, depth, probe.value + 1, hi, target, t);
      } else if chain(probe.value).value > target {
        BelowTheRun(chain, mid, probe.value - 1, t);
        NarrowReaches(chain, depth, lo, hi, lo, mid - 1);
        SearchFinds(chain, depth, lo, mid - 1, target, t);
      }
    }
  }

  lemma {:induction false} BelowTheRun(chain: Chain, a: int, b: int, t: int)
    requires Missed(chain, a, b + 1) && chain(t).Some? && t <= b
    ensures t < a
  {
  }

  // ----- brackets -----

  ghost predicate Holds(chain: Chain, b: Option<(int, int)>, target: nat) {
    b.Some? ==> chain(b.value.0).Some? && chain(b.value.1).Some?
                && chain(b.value.0).value <= target <= chain(b.value.1).value
  }

  lemma {:induction false} FirstPythonHolds(chain: Chain, approx: int, windows: seq<nat>, target: nat)
    ensures Holds(chain, FirstPython(chain, approx, windows, target), target)
  {
    if windows != [] {
      FirstPythonHolds(chain, approx, windows[1..], target);
    }
  }

  lemma {:induction false} FirstRustHolds(chain: Chain, approx: nat, windows: seq<nat>, target: nat)
    ensures Holds(chain, FirstRust(chain, approx, windows, target), target)
  {
    if windows != [] {
      FirstRustHolds(chain, approx, windows[1..], target);
    }
  }

  /** A straddling bracket holds the target's slot. */
  lemma {:induction false} BracketHasTarget(chain: Chain, b: (int, int), target: nat) returns (t: int)
    requires Dense(chain) && Holds(chain, Some(b), target)
    ensures b.0 <= t <= b.1 && chain(t) == Some(target)
  {
    hide Dense;
    DenseOrder(chain, b.0, b.1);
    if b.0 < b.1 {
      DenseBetween(chain, b.0, b.1);
      t :| b.0 <= t <= b.1 && chain(t) == Some(target);
    } else {
      t := b.0;
    }
  }

  /** On a dense chain the Python search returns the slot of the block, unless no window brackets it. */
  lemma {:induction false} PythonIsComplete(chain: Chain, approx: int, target: nat)
    requires Dense(chain)
    ensures PythonFind(chain, approx, target).Ok? <==> FirstPython(chain, approx, Windows(), target).Some?
    ensures PythonFind(chain, approx, target) != Err(NotFound)
    ensures PythonFind(chain, approx, target).Ok? ==> chain(PythonFind(chain, approx, target).value) == Some(target)
  {
    hide Dense, Search, FirstPython;
    var b := FirstPython(chain, approx, Windows(), target);
    FirstPythonHolds(chain, approx, Windows(), target);
    if b.Some? {
      var t := BracketHasTarget(chain, b.value, target);
      SearchFinds(chain, None, b.value.0, b.value.1, target, t);
    }
  }

  /** A Python window brackets a block exactly when its slot is inside and both ends are near a slot not missed. */
  lemma {:induction false} PythonBracketIff(chain: Chain, approx: int, radius: nat, target: nat, t: int)
    requires Dense(chain) && chain(t) == Some(target)
    ensures PythonBracket(chain, approx, radius, target).Some? <==>
              && approx - radius <= t <= approx + radius
              && Forward(chain, approx - radius, PROBE_BLOCK_DEPTH).Some?
              && Backward(chain, approx + radius, PROBE_BLOCK_DEPTH, 0).Some?
  {
    var low, high := Forward(chain, approx - radius, PROBE_BLOCK_DEPTH), Backward(chain, approx + radius, PROBE_BLOCK_DEPTH, 0);
    if low.Some? && high.Some? {
      DenseOrder(chain, low.value, t);
      DenseOrder(chain, t, high.value);
      hide Dense, Forward, Backward;
      if approx - radius <= t {
        assert !(t < low.value);
      }
      if t <= approx + radius {
        assert !(high.value < t);
      }
    }
  }

  /** The Rust search is as good when no 64 slots in a row of its bracket were missed. */
  lemma {:induction false} RustIsComplete(chain: Chain, approx: nat, target: nat)
    requires Dense(chain)
    requires var b := FirstRust(chain, approx, Windows(), target);
             b.Some? ==> NoRun(chain, b.value.0, b.value.1, PROBE_BLOCK_DEPTH)
    ensures RustFind(chain, approx, target).Ok? <==> FirstRust(chain, approx, Windows(), target).Some?
    ensures RustFind(chain, approx, target) != Err(NotFound)
    ensures RustFind(chain, approx, target).Ok? ==> chain(RustFind(chain, approx, target).value) == Some(target)
  {
    hide Dense, Search, FirstRust, NoRun;
    var b := FirstRust(chain, approx, Windows(), target);
    FirstRustHolds(chain, approx, Windows(), target);
    if b.Some? {
      var t := BracketHasTarget(chain, b.value, target);
      SearchFinds(chain, Some(PROBE_BLOCK_DEPTH), b.value.0, b.value.1, target, t);
    }
  }

  // ----- which estimates are good enough -----

  ghost predicate FilledIn(chain: Chain, a: int, b: int) {
    exists s :: a <= s < b && chain(s).Some?
  }

  /** The Python window of this radius holds slot `t`, and both its ends are within 64 of a slot that was not missed. */
  ghost predicate PythonCovers(chain: Chain, approx: int, radius: nat, t: int) {
    && approx - radius <= t <= approx + radius
    && FilledIn(chain, approx - radius, approx - radius + 64) && FilledIn(chain, approx + radius - 63, approx + radius + 1)
  }

  function RustLow(approx: nat, radius: nat): nat {
    if approx < radius then 0 else approx - radius
  }

  /** So does the Rust window, which starts at slot 0 at the earliest. */
  ghost predicate RustCovers(chain: Chain, approx: nat, radius: nat, t: int) {
    && RustLow(approx, radius) <= t <= approx + radius
    && FilledIn(chain, RustLow(approx, radius), RustLow(approx, radius) + 64)
    && FilledIn(chain, approx + radius - 63, approx + radius + 1)
  }

  lemma {:induction false} PythonCoversIff(chain: Chain, approx: int, radius: nat, target: nat, t: int)
    requires Dense(chain) && chain(t) == Some(target)
    ensures PythonBracket(chain, approx, radius, target).Some? <==> PythonCovers(chain, approx, radius, t)
  {
    PythonBracketIff(chain, approx, radius, target, t);
    hide PythonBracket;
  }

  lemma {:induction false} ProbeFinds(chain: Chain, s: int, n: nat, t: int)
    requires chain(t).Some? && s <= t
    ensures var r := Forward(chain, s, n);
            (r.Some? ==> r.value <= t) && (r.Some? <==> FilledIn(chain, s, s + n))
  {
  }

  lemma {:induction false} ProbeFindsBack(chain: Chain, s: int, n: nat, floor: int, t: int)
    requires chain(t).Some? && floor <= t <= s
    ensures var r := Backward(chain, s, n, floor);
            (r.Some? ==> t <= r.value) && (r.Some? <==> FilledIn(chain, s - n + 1, s + 1))
  {
    var r := Backward(chain, s, n, floor);
    if r.None? {
      assert t <= s - n;
      assert Missed(chain, s - n + 1, s + 1);
    }
  }

  /** A Rust window brackets a block exactly when its slot is inside and both ends are near a slot not missed. */
  lemma {:induction false} RustBracketIff(chain: Chain, approx: nat, radius: nat, target: nat, t: int)
    requires Dense(chain) && chain(t) == Some(target)
    ensures RustBracket(chain, approx, radius, target).Some? <==> RustCovers(chain, approx, radius, t)
  {
    hide Dense, Forward, Backward, Missed, FilledIn;
    var lo, hi := RustLow(approx, radius), approx + radius;
    var low, high := Forward(chain, lo, RustReach(lo, hi)), Backward(chain, hi, PROBE_BLOCK_DEPTH, lo);
    if lo <= t <= hi {
      ProbeFinds(chain, lo, RustReach(lo, hi), t);
      ProbeFindsBack(chain, hi, PROBE_BLOCK_DEPTH, lo, t);
      ReachIsEnough(chain, lo, hi, t);
    }
    if low.Some? && high.Some? {
      DenseOrder(chain, low.value, t);
      DenseOrder(chain, t, high.value);
    }
  }

  /** Slots beyond the window's end do not help the first probe: the block's own slot is nearer. */
  lemma {:induction false} ReachIsEnough(chain: Chain, lo: nat, hi: nat, t: int)
    requires lo <= t <= hi && chain(t).Some?
    ensures FilledIn(chain, lo, lo + RustReach(lo, hi)) <==> FilledIn(chain, lo, lo + 64)
  {
  }

  /** The first window to cover slot `t` is the `i`-th. */
  ghost predicate FirstRustCover(chain: Chain, approx: nat, windows: seq<nat>, t: int, i: nat) {
    && i < |windows| && RustCovers(chain, approx, windows[i], t)
    && forall j :: 0 <= j < i ==> !RustCovers(chain, approx, windows[j], t)
  }

  lemma {:induction false} FirstPythonIff(chain: Chain, approx: int, windows: seq<nat>, target: nat, t: int)
    requires Dense(chain) && chain(t) == Some(target)
    ensures FirstPython(chain, approx, windows, target).Some? <==> exists r :: r in windows && PythonCovers(chain, approx, r, t)
  {
    hide Dense, PythonBracket, PythonCovers;
    if windows != [] {
      PythonCoversIff(chain, approx, windows[0], target, t);
      FirstPythonIff(chain, approx, windows[1..], target, t);
      assert forall r :: r in windows <==> r == windows[0] || r in windows[1..];
    }
  }

  lemma {:induction false} FirstRustNone(chain: Chain, approx: nat, windows: seq<nat>, target: nat, t: int)
    requires Dense(chain) && chain(t) == Some(target) && FirstRust(chain, approx, windows, target).None?
    ensures forall r :: r in windows ==> !RustCovers(chain, approx, r, t)
  {
    hide Dense, RustBracket, RustCovers;
    if windows != [] {
      RustBracketIff(chain, approx, windows[0], target, t);
      FirstRustNone(chain, approx, windows[1..], target, t);
      assert forall r :: r in windows <==> r == windows[0] || r in windows[1..];
    }
  }

  lemma {:induction false} FirstRustSome(chain: Chain, approx: nat, windows: seq<nat>, target: nat, t: int) returns (i: nat)
    requires Dense(chain) && chain(t) == Some(target) && FirstRust(chain, approx, windows, target).Some?
    ensures FirstRustCover(chain, approx, windows, t, i)
    ensures FirstRust(chain, approx, windows, target) == RustBracket(chain, approx, windows[i], target)
  {
    hide Dense, RustBracket, RustCovers;
    RustBracketIff(chain, approx, windows[0], target, t);
    if RustBracket(chain, approx, windows[0], target).Some? {
      i := 0;
    } else {
      i := FirstRustSome(chain, approx, windows[1..], target, t);
      i := i + 1;
      assert forall j :: 0 < j < i ==> windows[j] == windows[1..][j - 1];
    }
  }

  /** On a dense chain the Python search returns the slot of the block exactly when a window covers it, and otherwise
      says that it could not bracket the block. */
  lemma {:induction false} PythonFindsIff(chain: Chain, approx: int, target: nat, t: int)
    requires Dense(chain) && chain(t) == Some(target)
    ensures PythonFind(chain, approx, target)
            == if exists r :: r in [200, 1000, 5000, 20000, 100000] && PythonCovers(chain, approx, r, t) then Ok(t)
               else Err(NotBracketed)
  {
    FirstPythonIff(chain, approx, Windows(), target, t);
    assert Windows() == [200, 1000, 5000, 20000, 100000];
    PythonIsComplete(chain, approx, target);
    hide Dense, Search, FirstPython, PythonCovers, Windows;
    if PythonFind(chain, approx, target).Ok? {
      DenseOrder(chain, PythonFind(chain, approx, target).value, t);
    }
  }

  /** So does the Rust search, when no 64 slots in a row of the first window to cover it were missed. */
  lemma {:induction false} RustFindsIff(chain: Chain, approx: nat, target: nat, t: int)
    requires Dense(chain) && chain(t) == Some(target)
    requires forall i: nat | FirstRustCover(chain, approx, Windows(), t, i) ::
               NoRun(chain, RustLow(approx, Windows()[i]), approx + Windows()[i], PROBE_BLOCK_DEPTH)
    ensures RustFind(chain, approx, target)
            == if exists r :: r in [200, 1000, 5000, 20000, 100000] && RustCovers(chain, approx, r, t) then Ok(t)
               else Err(NotBracketed)
  {
    var b := FirstRust(chain, approx, Windows(), target);
    assert Windows() == [200, 1000, 5000, 20000, 100000];
    if b.Some? {
      var i := FirstRustSome(chain, approx, Windows(), target, t);
      assert Windows()[i] in Windows();
      InsideWindow(chain, approx, Windows()[i], target);
      hide Dense, Search, FirstRust, RustCovers, Windows;
      RustIsComplete(chain, approx, target);
      DenseOrder(chain, RustFind(chain, approx, target).value, t);
    } else {
      FirstRustNone(chain, approx, Windows(), target, t);
    }
  }

  lemma {:induction false} InsideWindow(chain: Chain, approx: nat, radius: nat, target: nat)
    requires NoRun(chain, RustLow(approx, radius), approx + radius, PROBE_BLOCK_DEPTH)
    ensures var b := RustBracket(chain, approx, radius, target);
            b.Some? ==> NoRun(chain, b.value.0, b.value.1, PROBE_BLOCK_DEPTH)
  {
    hide MissedRun;
  }

  /** A block without a slot is never bracketed. */
  lemma {:induction false} AbsentBlockIsNotBracketed(chain: Chain, approx: nat, target: nat)
    requires Dense(chain) && forall t :: chain(t) != Some(target)
    ensures PythonFind(chain, approx, target) == RustFind(chain, approx, target) == Err(NotBracketed)
  {
    FirstPythonHolds(chain, approx, Windows(), target);
    FirstRustHolds(chain, approx, Windows(), target);
    var p, r := FirstPython(chain, approx, Windows(), target), FirstRust(chain, approx, Windows(), target);
    hide Dense, FirstPython, FirstRust, Search;
    if p.Some? {
      var t := BracketHasTarget(chain, p.value, target);
    }
    if r.Some? {
      var t := BracketHasTarget(chain, r.value, target);
    }
  }

  // ----- 64 is the limit -----

  /** Slots 1000 to 1063 missed, all others from 0 on not. */
  function Gap(s: int): Option<nat> {
    if s < 0 then None else if s < 1000 then Some(s) else if s < 1064 then None else Some(s - 64)
  }

  lemma {:induction false} GapIsDense()
    ensures Dense(Gap) && forall n :: n > 64 ==> NoRun(Gap, 800, 1200, n)
  {
    forall s, t | s < t && Gap(s).Some? && Gap(t).Some? && Missed(Gap, s + 1, t) ensures Gap(t).value == Gap(s).value + 1 {
      if t != s + 1 {
        assert Gap(s + 1).None?;
        assert s == 999;
        assert t > 1064 ==> Gap(1064).None?;
      }
    }
    forall n: nat | n > 64 ensures NoRun(Gap, 800, 1200, n) {
      forall s | 800 <= s && s + n - 1 <= 1200 ensures !MissedRun(Gap, s, n) {
        var k := if s < 1000 then s else if s < 1064 then 1064 else s;
        assert s <= k < s + n && Gap(k).Some?;
      }
    }
  }

  /** The first window around slot 1000 brackets block 1000 between slots 800 and 1200, in both programs. */
  lemma {:induction false} GapBracket()
    ensures FirstRust(Gap, 1000, Windows(), 1000) == Some((800, 1200))
    ensures FirstPython(Gap, 1000, Windows(), 1000) == Some((800, 1200))
  {
    assert Windows()[0] == 200;
    assert Forward(Gap, 800, RustReach(800, 1200)) == Some(800);
    assert Forward(Gap, 800, PROBE_BLOCK_DEPTH) == Some(800);
    assert Backward(Gap, 1200, PROBE_BLOCK_DEPTH, 800) == Some(1200);
    assert Backward(Gap, 1200, PROBE_BLOCK_DEPTH, 0) == Some(1200);
    assert RustBracket(Gap, 1000, 200, 1000) == Some((800, 1200));
    assert PythonBracket(Gap, 1000, 200, 1000) == Some((800, 1200));
  }

  /** After 64 missed slots in a row the Rust search does not find a block that the Python search finds. */
  lemma {:induction false} RustLosesBlock()
    ensures RustFind(Gap, 1000, 1000) == Err(NotFound) && PythonFind(Gap, 1000, 1000) == Ok(1064)
  {
    GapIsDense();
    GapBracket();
    hide Dense, FirstRust, FirstPython, Forward;
    SearchStep(Gap, Some(PROBE_BLOCK_DEPTH), 800, 1200, 1000);
    var probe := Forward(Gap, 1000, Reach(Some(PROBE_BLOCK_DEPTH), 1000, 1200));
    assert Reach(Some(PROBE_BLOCK_DEPTH), 1000, 1200) == 64;
    assert probe.None?;
    var below := Search(Gap, Some(PROBE_BLOCK_DEPTH), 800, 999, 1000);
    assert below.None?;
    PythonIsComplete(Gap, 1000, 1000);
    var t := PythonFind(Gap, 1000, 1000).value;
    assert t == 1064;
  }

  /** With no run of `n` missed slots in its bracket, the Rust search finds the block. */
  ghost predicate RustFindsWithoutRuns(chain: Chain, approx: nat, target: nat, n: nat) {
    var b := FirstRust(chain, approx, Windows(), target);
    Dense(chain) && b.Some? && NoRun(chain, b.value.0, b.value.1, n) ==> RustFind(chain, approx, target).Ok?
  }

  lemma {:induction false} ShorterRun(chain: Chain, lo: int, hi: int, n: nat)
    requires n <= PROBE_BLOCK_DEPTH && NoRun(chain, lo, hi, n)
    ensures NoRun(chain, lo, hi, PROBE_BLOCK_DEPTH)
  {
    forall s | lo <= s && s + PROBE_BLOCK_DEPTH - 1 <= hi ensures !MissedRun(chain, s, PROBE_BLOCK_DEPTH) {
      assert !MissedRun(chain, s, n);
    }
  }

  lemma {:induction false} ShortRunsAreHarmless(chain: Chain, approx: nat, target: nat, n: nat)
    requires n <= PROBE_BLOCK_DEPTH
    ensures RustFindsWithoutRuns(chain, approx, target, n)
  {
    var b := FirstRust(chain, approx, Windows(), target);
    if Dense(chain) && b.Some? && NoRun(chain, b.value.0, b.value.1, n) {
      ShorterRun(chain, b.value.0, b.value.1, n);
      hide Dense, NoRun, FirstRust, RustFind;
      RustIsComplete(chain, approx, target);
    }
  }

  lemma {:induction false} LongRunsAreNot(n: nat) returns (chain: Chain, approx: nat, target: nat)
    requires n > PROBE_BLOCK_DEPTH
    ensures !RustFindsWithoutRuns(chain, approx, target, n)
  {
    GapIsDense();
    GapBracket();
    RustLosesBlock();
    hide Dense, NoRun, FirstRust, RustFind, FirstPython, PythonFind;
    chain, approx, target := Gap, 1000, 1000;
  }

  /** The probe depth decides it: brackets without runs of `n` missed slots are safe on all chains exactly for `n <= 64`. */
  lemma {:induction false} RustDepthIsSharp(n: nat)
    ensures (forall chain: Chain, approx: nat, target: nat :: RustFindsWithoutRuns(chain, approx, target, n)) <==> n <= 64
  {
    if n <= 64 {
      forall chain: Chain, approx: nat, target: nat ensures RustFindsWithoutRuns(chain, approx, target, n) {
        ShortRunsAreHarmless(chain, approx, target, n);
      }
    } else {
      var chain, approx, target := LongRunsAreNot(n);
    }
    hide RustFindsWithoutRuns;
  }
}
