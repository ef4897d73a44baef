/** The search for a prompt of an exact length: `build_exact_prompt` of
    `benchmark/scripts/exact_prompt.py`. The tokenizer is a parameter: `count(n)` is the
    templated token count of `n` repetitions of the unit. */
module ExactPrompt {
  datatype Prompt = Exact(repetitions: nat) | NotPositive | NotReachable

  function Power(k: nat): (n: nat)
    ensures n > 0
  {
    if k == 0 then 1 else 2 * Power(k - 1)
  }

  /** The doubling ends after exactly `k` rounds. */
  ghost predicate DoublingEnds(count: nat -> int, target: int, k: nat) {
    count(Power(k)) >= target && forall j: nat :: j < k ==> count(Power(j)) < target
  }

  /** Some power of two has enough tokens: the condition under which the doubling ends. */
  ghost predicate DoublingReaches(count: nat -> int, target: int) {
    exists k: nat :: count(Power(k)) >= target
  }

  /** The binary search between two repetition counts, both included. */
  function Search(count: nat -> int, target: int, low: nat, high: int): Prompt
    decreases high - low
  {
    if low > high then NotReachable else
      var mid := (low + high) / 2;
      if count(mid) == target then Exact(mid)
      else if count(mid) < target then Search(count, target, mid + 1, high)
      else Search(count, target, low, mid - 1)
  }

  /** The lower end of the range after `k` rounds of doubling; the upper end is `Power(k)`. */
  function Low(k: nat): (n: nat)
    ensures n < Power(k)
  {
    if k == 0 then 0 else Power(k - 1)
  }

  /** The result of searching the range that the doubling leaves. */
  ghost predicate Built(count: nat -> int, target: int, r: Prompt) {
    exists k: nat :: DoublingEnds(count, target, k) && r == Search(count, target, Low(k), Power(k))
  }

  /** The first loop: double until the upper end has enough tokens. */
  method FindRange(count: nat -> int, target: int) returns (low: nat, high: nat)
    requires DoublingReaches(count, target)
    ensures exists k: nat :: DoublingEnds(count, target, k) && low == Low(k) && high == Power(k)
    ensures count(high) >= target
    ensures (low == 0 && high == 1) || (high == 2 * low && count(low) < target)
  {
    low, high := 0, 1;
    ghost var k := 0;
    ghost var enough: nat :| count(Power(enough)) >= target;
    while count(high) < target
      invariant high == Power(k) && low == Low(k) && k <= enough
      invariant (low == 0 && high == 1) || (high == 2 * low && count(low) < target)
      invariant forall j: nat :: j < k ==> count(Power(j)) < target
      decreases enough - k
    {
      low, high := high, high * 2;
      k := k + 1;
    }
    assert DoublingEnds(count, target, k);
  }

  /** The second loop. */
  method SearchRange(count: nat -> int, target: int, first: nat, last: nat) returns (r: Prompt)
    ensures r == Search(count, target, first, last)
  {
    var low: int, high: int := first, last;
    while low <= high
      invariant 0 <= low
      invariant Search(count, target, low, high) == Search(count, target, first, last)
      decreases high - low
    {
      var mid := (low + high) / 2;
      var measured := count(mid);
      if measured == target {
        return Exact(mid);
      }
      if measured < target {
        low := mid + 1;
      } else {
        high := mid - 1;
      }
    }
    return NotReachable;
  }

  method BuildExactPrompt(count: nat -> int, target: int) returns (r: Prompt)
    requires target > 0 ==> DoublingReaches(count, target)
    ensures r == NotPositive <==> target <= 0
    ensures target > 0 ==> Built(count, target, r)
  {
    if target <= 0 {
      return NotPositive;
    }
    var low, high := FindRange(count, target);
    r := SearchRange(count, target, low, high);
    SearchOnlyExact(count, target, low, high);
  }

  lemma {:induction false} SearchOnlyExact(count: nat -> int, target: int, low: nat, high: int)
    ensures Search(count, target, low, high) != NotPositive
    ensures var r := Search(count, target, low, high);
      r.Exact? ==> low <= r.repetitions <= high && count(r.repetitions) == target
    decreases high - low
  {
    if low <= high {
      var mid := (low + high) / 2;
      if count(mid) < target {
        SearchOnlyExact(count, target, mid + 1, high);
      } else if count(mid) > target {
        SearchOnlyExact(count, target, low, mid - 1);
      }
    }
  }

  /** Every probe of the binary search on the way to `n` compares the right way: below the
      target before `n`, above it behind. */
  predicate ProbesAgree(count: nat -> int, target: int, low: nat, high: int, n: nat)
    decreases high - low
  {
    low <= n <= high &&
    var mid := (low + high) / 2;
    if n == mid then true
    else if n > mid then count(mid) < target && ProbesAgree(count, target, mid + 1, high, n)
    else count(mid) > target && ProbesAgree(count, target, low, mid - 1, n)
  }

  /** The search finds `n` exactly if `n` is exact and the probes on the way to it agree. */
  lemma {:induction false} SearchFindsExactly(count: nat -> int, target: int, low: nat, high: int, n: nat)
    ensures Search(count, target, low, high) == Exact(n) <==> count(n) == target && ProbesAgree(count, target, low, high, n)
    decreases high - low
  {
    if low <= high {
      var mid := (low + high) / 2;
      if count(mid) < target {
        SearchFindsExactly(count, target, mid + 1, high, n);
      } else if count(mid) > target {
        SearchFindsExactly(count, target, low, mid - 1, n);
      }
      SearchOnlyExact(count, target, mid + 1, high);
      SearchOnlyExact(count, target, low, mid - 1);
    }
  }

  /** `n` lies in the range that the doubling leaves, and the probes on the way to it agree. */
  ghost predicate Probed(count: nat -> int, target: int, n: nat) {
    exists k: nat :: DoublingEnds(count, target, k) && ProbesAgree(count, target, Low(k), Power(k), n)
  }

  /** For any tokenizer whatever: a repetition count is the answer exactly if it is exact and
      probed, and a reachable target is reported unreachable exactly if no exact count is probed. */
  lemma FoundExactlyWhenProbed(count: nat -> int, target: int, r: Prompt)
    requires target > 0 && Built(count, target, r)
    ensures forall n: nat :: r == Exact(n) <==> count(n) == target && Probed(count, target, n)
    ensures r == NotReachable <==> forall n: nat :: count(n) == target ==> !Probed(count, target, n)
  {
    hide Search, Power, ProbesAgree;
    var k: nat :| DoublingEnds(count, target, k) && r == Search(count, target, Low(k), Power(k));
    DoublingEndsExactly(count, target);
    SearchOnlyExact(count, target, Low(k), Power(k));
    forall n: nat ensures r == Exact(n) <==> count(n) == target && Probed(count, target, n) {
      SearchFindsExactly(count, target, Low(k), Power(k), n);
    }
  }

  /** Once above the target always above, once at it never below again. */
  ghost predicate CrossesOnce(count: nat -> int, target: int) {
    && (forall m: nat, n: nat :: m <= n && count(m) >= target ==> count(n) >= target)
    && (forall m: nat, n: nat :: m <= n && count(m) > target ==> count(n) > target)
  }

  ghost predicate Monotone(count: nat -> int) {
    forall m: nat, n: nat :: m <= n ==> count(m) <= count(n)
  }

  lemma MonotoneCrossesOnce(count: nat -> int, target: int)
    requires Monotone(count)
    ensures CrossesOnce(count, target)
  {
  }

  /** The search misses nothing in its range. */
  lemma {:induction false} SearchComplete(count: nat -> int, target: int, low: nat, high: int, n: nat)
    requires CrossesOnce(count, target) && low <= n <= high && count(n) == target
    ensures Search(count, target, low, high).Exact?
    decreases high - low
  {
    var mid := (low + high) / 2;
    if count(mid) < target {
      SearchComplete(count, target, mid + 1, high, n);
    } else if count(mid) > target {
      SearchComplete(count, target, low, mid - 1, n);
    }
  }

  /** For any tokenizer an answer is exact. For one whose count crosses the target once, in
      particular a monotone one, there is an answer exactly if some repetition count is exact:
      the prompts outside the range of the search cannot be. */
  lemma ExactWhenReachable(count: nat -> int, target: int, r: Prompt)
    requires target > 0 && Built(count, target, r)
    ensures r.Exact? ==> count(r.repetitions) == target
    ensures CrossesOnce(count, target) ==> (r.Exact? <==> exists n: nat :: count(n) == target)
    ensures r == NotReachable || r.Exact?
  {
    hide CrossesOnce, DoublingEnds, Search, Power;
    var k: nat :| DoublingEnds(count, target, k) && r == Search(count, target, Low(k), Power(k));
    SearchOnlyExact(count, target, Low(k), Power(k));
    if CrossesOnce(count, target) && exists n: nat :: count(n) == target {
      var n: nat :| count(n) == target;
      InRange(count, target, k, n);
      // the range holds an exact count: `n` itself, or its upper end if `n` lies beyond it
      SearchComplete(count, target, Low(k), Power(k), if n > Power(k) then Power(k) else n);
    }
  }

  lemma InRange(count: nat -> int, target: int, k: nat, n: nat)
    requires DoublingEnds(count, target, k) && CrossesOnce(count, target) && count(n) == target
    ensures Low(k) <= n && (n > Power(k) ==> count(Power(k)) == target)
  {
    LowIsShort(count, target, k);
    StaysAbove(count, target, n, Low(k));
    StaysAbove(count, target, Power(k), n);
  }

  lemma LowIsShort(count: nat -> int, target: int, k: nat)
    requires DoublingEnds(count, target, k)
    ensures k > 0 ==> count(Low(k)) < target
  {
  }

  lemma StaysAbove(count: nat -> int, target: int, m: nat, n: nat)
    requires CrossesOnce(count, target)
    ensures m <= n && count(m) >= target ==> count(n) >= target
    ensures m <= n && count(m) > target ==> count(n) > target
  {
  }

  /** A tokenizer that merges a third repetition into fewer tokens. */
  function Merging(): nat -> int {
    (n: nat) => if n == 0 then 0 else if n == 1 then 1 else if n == 2 then 5 else if n == 3 then 3 else n + 10
  }

  /** Without a single crossing the search can report an unreachable target that is reachable. */
  lemma MissesWithoutSingleCrossing()
    ensures Built(Merging(), 3, NotReachable) && Merging()(3) == 3 && !CrossesOnce(Merging(), 3)
  {
    assert Power(0) == 1 && Power(1) == 2;
    assert Search(Merging(), 3, 2, 1) == NotReachable;
    assert Search(Merging(), 3, 2, 2) == NotReachable;
    assert Search(Merging(), 3, 1, 2) == NotReachable;
    assert DoublingEnds(Merging(), 3, 1);
    assert Merging()(2) > 3 && Merging()(3) <= 3;
  }

  /** And a single crossing is not needed: the probes can agree without it. */
  lemma FindsWithoutSingleCrossing()
    ensures var count := (n: nat) => if n == 1 then 1 else 0;
      !CrossesOnce(count, 1) && Built(count, 1, Exact(1))
  {
    var count := (n: nat) => if n == 1 then 1 else 0;
    assert Power(0) == 1;
    assert count(1) >= 1 && count(2) < 1;
    assert Search(count, 1, 1, 1) == Exact(1);
    assert Search(count, 1, 0, 1) == Exact(1);
    assert DoublingEnds(count, 1, 0);
  }

  /** The state of the doubling after `k` rounds, if it gets that far. */
  lemma {:induction false} DoublingNeverEnds(count: nat -> int, target: int, k: nat)
    requires !DoublingReaches(count, target)
    ensures !exists j: nat :: j <= k && DoublingEnds(count, target, j)
    ensures count(Power(k)) < target && Power(k) >= k + 1
  {
    if k > 0 {
      DoublingNeverEnds(count, target, k - 1);
    }
  }

  /** The doubling ends exactly if a power of two has enough tokens, and in one way. */
  lemma DoublingEndsExactly(count: nat -> int, target: int)
    ensures DoublingReaches(count, target) <==> exists k :: DoublingEnds(count, target, k)
    ensures forall j, k :: DoublingEnds(count, target, j) && DoublingEnds(count, target, k) ==> j == k
  {
    if DoublingReaches(count, target) {
      var k: nat :| count(Power(k)) >= target;
      var j := FirstEnough(count, target, k);
    }
  }

  /** A tokenizer that drops the repetitions never lets the doubling end. */
  lemma DoublingCanDiverge()
    ensures !DoublingReaches((n: nat) => 1, 2)
  {
  }

  lemma {:induction false} FirstEnough(count: nat -> int, target: int, k: nat) returns (j: nat)
    requires count(Power(k)) >= target
    ensures DoublingEnds(count, target, j)
  {
    j := k;
    if i: nat :| i < k && count(Power(i)) >= target {
      j := FirstEnough(count, target, i);
    }
  }
}
