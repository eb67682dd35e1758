// The beacon slot search, written twice: find_slot_for_exec_block of apps/bam-coprocessor/script/fetch-blobs.py and of
// apps/bam-coprocessor/script/src/blob_fetch.rs.
module SlotSearch {
  import opened Wrappers

  /** The execution block at a slot, absent when the slot was missed. */
  type Chain = int -> Option<nat>

  const PROBE_BLOCK_DEPTH: nat := 64

  /** BRACKET_WINDOWS. */
  function Windows(): seq<nat> {
    [200, 1000, 5000, 20000, 100000]
  }

  // ----- probes -----

  ghost predicate Missed(chain: Chain, a: int, b: int) {
    forall s :: a <= s < b ==> chain(s).None?
  }

  /** The first slot that was not missed among the `n` from `s` on. */
  function Forward(chain: Chain, s: int, n: nat): (r: Option<int>)
    ensures r.Some? ==> s <= r.value < s + n && chain(r.value).Some? && Missed(chain, s, r.value)
    ensures r.None? ==> Missed(chain, s, s + n)
    decreases n
  {
    if n == 0 then None else if chain(s).Some? then Some(s) else Forward(chain, s + 1, n - 1)
  }

  /** The last slot that was not missed among the `n` up to `s`, none below `floor`. */
  function Backward(chain: Chain, s: int, n: nat, floor: int): (r: Option<int>)
    ensures r.Some? ==> s - n < r.value <= s && floor <= r.value && chain(r.value).Some? && Missed(chain, r.value + 1, s + 1)
    ensures r.None? ==> forall k :: s - n < k <= s && floor <= k ==> chain(k).None?
    decreases n
  {
    if n == 0 || s < floor then None
    else if chain(s).Some? then Some(s) else Backward(chain, s - 1, n - 1, floor)
  }

  method BlockAtOrAfter(chain: Chain, slot: int, maxSteps: nat) returns (r: Option<(nat, int)>)
    ensures r == match Forward(chain, slot, maxSteps) case Some(s) => Some((chain(s).value, s)) case None => None
  {
    for offset := 0 to maxSteps
      invariant Forward(chain, slot, maxSteps) == Forward(chain, slot + offset, maxSteps - offset)
    {
      var cursor := slot + offset;
      var bn := chain(cursor);
      if bn.Some? {
        return Some((bn.value, cursor));
      }
    }
    return None;
  }

  method BlockAtOrBefore(chain: Chain, slot: int, maxSteps: nat) returns (r: Option<(nat, int)>)
    ensures r == match Backward(chain, slot, maxSteps, 0) case Some(s) => Some((chain(s).value, s)) case None => None
  {
    for offset := 0 to maxSteps
      invariant Backward(chain, slot, maxSteps, 0) == Backward(chain, slot - offset, maxSteps - offset, 0)
    {
      var cursor := slot - offset;
      if cursor < 0 {
        return None;
      }
      var bn := chain(cursor);
      if bn.Some? {
        return Some((bn.value, cursor));
      }
    }
    return None;
  }

  function Min(a: int, b: int): int {
    if a < b then a else b
  }

  function RustReach(start: int, upper: int): nat {
    if upper + 1 < start then 0 else Min(PROBE_BLOCK_DEPTH, upper + 1 - start)
  }

  method ProbeForward(chain: Chain, start: nat, upperInclusive: nat) returns (r: Option<(nat, nat)>)
    ensures match Forward(chain, start, RustReach(start, upperInclusive))
            case Some(s) => r == Some((s, chain(s).value))
            case None => r == None
  {
    var end := Min(start + PROBE_BLOCK_DEPTH, upperInclusive + 1);
    var s: int := start;
    while s < end
      invariant start <= s <= start + RustReach(start, upperInclusive)
      invariant Forward(chain, start, RustReach(start, upperInclusive))
                == Forward(chain, s, start + RustReach(start, upperInclusive) - s)
    {
      var bn := chain(s);
      if bn.Some? {
        return Some((s, bn.value));
      }
      s := s + 1;
    }
    return None;
  }

  method ProbeBackward(chain: Chain, start: nat, lowerInclusive: nat) returns (r: Option<(nat, nat)>)
    ensures match Backward(chain, start, PROBE_BLOCK_DEPTH, lowerInclusive)
            case Some(s) => r == Some((s, chain(s).value))
            case None => r == None
  {
    var s: nat := start;
    var left: nat := PROBE_BLOCK_DEPTH;
    while left > 0 && s >= lowerInclusive
      invariant Backward(chain, start, PROBE_BLOCK_DEPTH, lowerInclusive) == Backward(chain, s, left, lowerInclusive)
      decreases left
    {
      var bn := chain(s);
      if bn.Some? {
        return Some((s, bn.value));
      }
      if s == 0 {
        break;
      }
      s := s - 1;
      left := left - 1;
    }
    return None;
  }

  // ----- the binary search -----

  /** How many slots a probe from `mid` looks at: all that remain, or `depth` of them at most. */
  function Reach(depth: Option<nat>, mid: int, hi: int): (n: nat)
    requires mid <= hi
    ensures n <= hi - mid + 1
  {
    if depth.Some? && depth.value < hi - mid + 1 then depth.value else hi - mid + 1
  }

  /** The search with probes limited to `depth`, or unlimited. */
  function Search(chain: Chain, depth: Option<nat>, lo: int, hi: int, target: nat): (r: Option<int>)
    ensures r.Some? ==> lo <= r.value <= hi && chain(r.value) == Some(target)
    decreases hi - lo + 1
  {
    if lo > hi then None
    else
      var mid := (lo + hi) / 2;
      var probe := Forward(chain, mid, Reach(depth, mid, hi));
      if probe.None? then Search(chain, depth, lo, mid - 1, target)
      else
        var bn := chain(probe.value).value;
        if bn == target then probe
        else if bn < target then Search(chain, depth, probe.value + 1, hi, target)
        else Search(chain, depth, lo, mid - 1, target)
  }

  lemma {:induction false} SearchStep(chain: Chain, depth: Option<nat>, lo: int, hi: int, target: nat)
    ensures lo > hi ==> Search(chain, depth, lo, hi, target) == None
    ensures lo <= hi ==>
              var mid := (lo + hi) / 2;
              var probe := Forward(chain, mid, Reach(depth, mid, hi));
              Search(chain, depth, lo, hi, target)
              == if probe.Some? && chain(probe.value) == Some(target) then probe
                 else if probe.Some? && chain(probe.value).value < target then Search(chain, depth, probe.value + 1, hi, target)
                 else Search(chain, depth, lo, mid - 1, target)
  {
  }

  /** floor(log2(n)), and -1 for 0. */
  function Log2(n: nat): (r: int)
    ensures r >= -1
    decreases n
  {
    if n == 0 then -1 else Log2(n / 2) + 1
  }

  lemma {:induction false} Log2Monotone(a: nat, b: nat)
    requires a <= b
    ensures Log2(a) <= Log2(b)
  {
    if a > 0 {
      Log2Monotone(a / 2, b / 2);
    }
  }

  function Width(lo: int, hi: int): nat {
    if lo > hi then 0 else hi - lo + 1
  }

  /** A round at least halves the window. */
  lemma {:induction false} RoundHalves(lo: int, hi: int, slot: int)
    requires lo <= hi && (lo + hi) / 2 <= slot
    ensures Log2(Width(lo, (lo + hi) / 2 - 1)) < Log2(Width(lo, hi))
    ensures Log2(Width(slot + 1, hi)) < Log2(Width(lo, hi))
  {
    var w := Width(lo, hi);
    Log2Monotone(Width(lo, (lo + hi) / 2 - 1), w / 2);
    Log2Monotone(Width(slot + 1, hi), w / 2);
  }

  datatype SearchError = NotBracketed | NotFound

  /** The Python search inside a bracket, with the rounds it takes. */
  method SearchPython(chain: Chain, low: int, high: int, execBlock: nat) returns (r: Option<int>, rounds: nat)
    ensures r == Search(chain, None, low, high, execBlock)
    ensures rounds <= Log2(Width(low, high)) + 1
  {
    hide Search, Log2, Width, Forward;
    var lo, hi := low, high;
    rounds := 0;
    while lo <= hi
      invariant Search(chain, None, lo, hi, execBlock) == Search(chain, None, low, high, execBlock)
      invariant rounds + Log2(Width(lo, hi)) <= Log2(Width(low, high))
      decreases hi - lo + 1
    {
      SearchStep(chain, None, lo, hi, execBlock);
      rounds := rounds + 1;
      var mid := (lo + hi) / 2;
      var remaining := hi - mid + 1;
      var pair := BlockAtOrAfter(chain, mid, remaining);
      RoundHalves(lo, hi, if pair.Some? then pair.value.1 else mid);
      if pair.None? {
        hi := mid - 1;
        continue;
      }
      var (bn, midSlot) := pair.value;
      if bn == execBlock {
        return Some(midSlot), rounds;
      }
      if bn < execBlock {
        lo := midSlot + 1;
      } else {
        hi := mid - 1;
      }
    }
    SearchStep(chain, None, lo, hi, execBlock);
    return None, rounds;
  }

  /** The Rust search inside a bracket, with the rounds it takes. */
  method SearchRust(chain: Chain, low: nat, high: nat, execBlock: nat) returns (r: Option<int>, rounds: nat)
    ensures r == Search(chain, Some(PROBE_BLOCK_DEPTH), low, high, execBlock)
    ensures rounds <= Log2(Width(low, high)) + 1
  {
    hide Search, Log2, Width, Forward;
    var lo: int, hi: int := low, high;
    rounds := 0;
    while lo <= hi
      invariant lo >= 0
      invariant Search(chain, Some(PROBE_BLOCK_DEPTH), lo, hi, execBlock)
                == Search(chain, Some(PROBE_BLOCK_DEPTH), low, high, execBlock)
      invariant rounds + Log2(Width(lo, hi)) <= Log2(Width(low, high))
      decreases hi - lo + 1
    {
      SearchStep(chain, Some(PROBE_BLOCK_DEPTH), lo, hi, execBlock);
      rounds := rounds + 1;
      var mid := (lo + hi) / 2;
      var probe := ProbeForward(chain, mid, hi);
      assert RustReach(mid, hi) == Reach(Some(PROBE_BLOCK_DEPTH), mid, hi);
      RoundHalves(lo, hi, if probe.Some? then probe.value.0 else mid);
      if probe.None? {
        hi := mid - 1;
        continue;
      }
      var (slot, bn) := probe.value;
      if bn == execBlock {
        return Some(slot), rounds;
      } else if bn < execBlock {
        lo := slot + 1;
      } else {
        hi := mid - 1;
      }
    }
    SearchStep(chain, Some(PROBE_BLOCK_DEPTH), lo, hi, execBlock);
    return None, rounds;
  }

  // ----- brackets -----

  /** The two probed ends when they straddle the target. */
  function Straddle(chain: Chain, low: Option<int>, high: Option<int>, target: nat): Option<(int, int)>
    requires low.Some? ==> chain(low.value).Some?
    requires high.Some? ==> chain(high.value).Some?
  {
    if low.Some? && high.Some? && chain(low.value).value <= target <= chain(high.value).value
    then Some((low.value, high.value)) else None
  }

  function PythonBracket(chain: Chain, approx: int, radius: nat, target: nat): Option<(int, int)> {
    Straddle(chain, Forward(chain, approx - radius, PROBE_BLOCK_DEPTH), Backward(chain, approx + radius, PROBE_BLOCK_DEPTH, 0),
             target)
  }

  function RustBracket(chain: Chain, approx: nat, radius: nat, target: nat): Option<(int, int)> {
    var winLo := if approx < radius then 0 else approx - radius;
    Straddle(chain, Forward(chain, winLo, RustReach(winLo, approx + radius)),
             Backward(chain, approx + radius, PROBE_BLOCK_DEPTH, winLo), target)
  }

  function FirstPython(chain: Chain, approx: int, windows: seq<nat>, target: nat): Option<(int, int)> {
    if windows == [] then None
    else
      var b := PythonBracket(chain, approx, windows[0], target);
      if b.Some? then b else FirstPython(chain, approx, windows[1..], target)
  }

  function FirstRust(chain: Chain, approx: nat, windows: seq<nat>, target: nat): Option<(int, int)> {
    if windows == [] then None
    else
      var b := RustBracket(chain, approx, windows[0], target);
      if b.Some? then b else FirstRust(chain, approx, windows[1..], target)
  }

  /** What find_slot_for_exec_block returns, from its bracket and its search. */
  function Outcome(bracket: Option<(int, int)>, found: Option<int>): Result<int, SearchError> {
    if bracket.None? then Err(NotBracketed)
    else if found.Some? then Ok(found.value) else Err(NotFound)
  }

  function PythonFind(chain: Chain, approx: int, target: nat): Result<int, SearchError> {
    var b := FirstPython(chain, approx, Windows(), target);
    Outcome(b, if b.Some? then Search(chain, None, b.value.0, b.value.1, target) else None)
  }

  function RustFind(chain: Chain, approx: nat, target: nat): Result<int, SearchError> {
    var b := FirstRust(chain, approx, Windows(), target);
    Outcome(b, if b.Some? then Search(chain, Some(PROBE_BLOCK_DEPTH), b.value.0, b.value.1, target) else None)
  }

  lemma {:induction false} FirstPythonStep(chain: Chain, approx: int, windows: seq<nat>, i: nat, target: nat)
    requires i < |windows|
    ensures var b := PythonBracket(chain, approx, windows[i], target);
      FirstPython(chain, approx, windows[i..], target)
      == if b.Some? then b else FirstPython(chain, approx, windows[i + 1..], target)
  {
    hide PythonBracket;
    assert windows[i..][1..] == windows[i + 1..];
  }

  lemma {:induction false} NoWindows(chain: Chain, approx: int, target: nat)
    ensures FirstPython(chain, approx, [], target) == None
  {
  }

  method FindSlotPython(chain: Chain, approx: int, execBlock: nat) returns (r: Result<int, SearchError>)
    ensures r == PythonFind(chain, approx, execBlock)
  {
    hide Forward, Backward, Search, Windows, FirstPython;
    var bracket: Option<(int, int)> := None;
    var windows := Windows();
    assert windows[0..] == windows;
    var i := 0;
    while i < |windows| && bracket.None?
      invariant 0 <= i <= |windows|
      invariant FirstPython(chain, approx, windows, execBlock)
                == if bracket.Some? then bracket else FirstPython(chain, approx, windows[i..], execBlock)
    {
      var radius := windows[i];
      FirstPythonStep(chain, approx, windows, i, execBlock);
      var loPair := BlockAtOrAfter(chain, approx - radius, PROBE_BLOCK_DEPTH);
      var hiPair := BlockAtOrBefore(chain, approx + radius, PROBE_BLOCK_DEPTH);
      if loPair.Some? && hiPair.Some? && loPair.value.0 <= execBlock <= hiPair.value.0 {
        bracket := Some((loPair.value.1, hiPair.value.1));
      }
      i := i + 1;
    }
    assert bracket.None? ==> windows[i..] == [];
    NoWindows(chain, approx, execBlock);
    if bracket.None? {
      return Err(NotBracketed);
    }
    var found, rounds := SearchPython(chain, bracket.value.0, bracket.value.1, execBlock);
    return if found.Some? then Ok(found.value) else Err(NotFound);
  }

  method FindSlotRust(chain: Chain, approx: nat, execBlock: nat) returns (r: Result<int, SearchError>)
    ensures r == RustFind(chain, approx, execBlock)
  {
    hide Forward, Backward, Search, Windows;
    var bracket: Option<(nat, nat)> := None;
    var windows := Windows();
    var i := 0;
    while i < |windows| && bracket.None?
      invariant 0 <= i <= |windows|
      invariant FirstRust(chain, approx, windows, execBlock)
                == if bracket.Some? then Some((bracket.value.0, bracket.value.1))
                   else FirstRust(chain, approx, windows[i..], execBlock)
    {
      var window := windows[i];
      assert windows[i..][1..] == windows[i + 1..];
      var winLo := if approx < window then 0 else approx - window;
      var winHi := approx + window;
      var low := ProbeForward(chain, winLo, winHi);
      if low.Some? {
        var high := ProbeBackward(chain, winHi, winLo);
        if high.Some? && low.value.1 <= execBlock <= high.value.1 {
          bracket := Some((low.value.0, high.value.0));
        }
      }
      i := i + 1;
    }
    if bracket.None? {
      return Err(NotBracketed);
    }
    var found, rounds := SearchRust(chain, bracket.value.0, bracket.value.1, execBlock);
    return if found.Some? then Ok(found.value) else Err(NotFound);
  }
}
