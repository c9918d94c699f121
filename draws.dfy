/** Python 2.7's `random` module with every draw made an explicit argument.
    The generator itself (Mersenne Twister, `random.seed`) is not modelled:
    a caller passes the values the generator would have produced, and each
    `requires` states the range of values that generator can produce. */
module Draws {
  import opened Outcomes
  import opened Text

  /** `random.randint(lo, hi)` can draw `k`: both ends included. */
  predicate InRandint(k: int, lo: int, hi: int) {
    lo <= k <= hi
  }

  /** `random.randrange(lo, hi)` can draw `k`: the upper end excluded. */
  predicate InRandrange(k: int, lo: int, hi: int) {
    lo <= k < hi
  }

  /** `picks` are `count` distinct positions in a population of `n` items,
      as `random.sample` chooses them. */
  predicate IsSample(picks: seq<nat>, count: nat, n: nat) {
    && |picks| == count
    && (forall i :: 0 <= i < |picks| ==> picks[i] < n)
    && NoDups(picks)
  }

  /** The draws suit `random.sample(population, count)` on `n` items: whenever
      the call does not raise, `picks` are `count` distinct positions. */
  predicate SampleFits(picks: seq<nat>, count: int, n: nat) {
    0 <= count <= n ==> IsSample(picks, count, n)
  }

  /** The items at the given positions, in pick order. */
  function Select<T>(population: seq<T>, picks: seq<nat>): (r: seq<T>)
    requires forall i :: 0 <= i < |picks| ==> picks[i] < |population|
  {
    seq(|picks|, i requires 0 <= i < |picks| => population[picks[i]])
  }

  /** `random.sample(population, count)`: raises when `count` is negative or
      exceeds the population, and otherwise returns the items at `count`
      distinct positions. */
  function Sample<T>(population: seq<T>, count: int, picks: seq<nat>): (r: Result<seq<T>>)
    requires SampleFits(picks, count, |population|)
    ensures r.Err? <==> !(0 <= count <= |population|)
    ensures r.Err? ==> r.error == SampleLargerThanPopulation
    ensures r.Ok? ==> |r.value| == count
    ensures r.Ok? ==> forall i :: 0 <= i < count ==> r.value[i] == population[picks[i]]
  {
    if 0 <= count <= |population| then Ok(Select(population, picks))
    else Err(SampleLargerThanPopulation)
  }

  /** A sample takes no item more often than the population holds it. */
  lemma {:induction false} SelectSubMultiset<T>(population: seq<T>, picks: seq<nat>)
    requires IsSample(picks, |picks|, |population|)
    ensures multiset(Select(population, picks)) <= multiset(population)
    decreases |picks|
  {
    if picks != [] {
      var j := picks[0];
      var rest := population[..j] + population[j + 1..];
      var shifted := seq(|picks| - 1, i requires 0 <= i < |picks| - 1 =>
                           if picks[i + 1] < j then picks[i + 1] else picks[i + 1] - 1);
      forall i | 0 <= i < |shifted| ensures shifted[i] < |rest| {
        assert picks[i + 1] != picks[0];
      }
      forall i, k | 0 <= i < k < |shifted| ensures shifted[i] != shifted[k] {
        assert picks[i + 1] != picks[k + 1];
        assert picks[i + 1] != j && picks[k + 1] != j;
      }
      SelectSubMultiset(rest, shifted);
      assert Select(rest, shifted) == Select(population, picks[1..]) by {
        forall i | 0 <= i < |shifted| ensures rest[shifted[i]] == population[picks[i + 1]] {
          assert picks[i + 1] != j;
        }
      }
      assert Select(population, picks) == [population[j]] + Select(population, picks[1..]);
      assert population == population[..j] + [population[j]] + population[j + 1..];
      assert multiset(population) == multiset(rest) + multiset{population[j]};
    }
  }

  /** Positions that are distinct and hold distinct items give distinct items. */
  lemma SelectNoDups<T>(population: seq<T>, picks: seq<nat>)
    requires IsSample(picks, |picks|, |population|) && NoDups(population)
    ensures NoDups(Select(population, picks))
  {
  }

  /** `random.choice(s)`: raises on an empty list, and otherwise returns the
      item at the drawn position `j`. */
  function Choice<T>(s: seq<T>, j: nat): (r: Result<T>)
    requires s != [] ==> j < |s|
    ensures r.Err? <==> s == []
    ensures r.Err? ==> r.error == EmptySequence
    ensures r.Ok? ==> r.value == s[j] && r.value in s
  {
    if s == [] then Err(EmptySequence) else Ok(s[j])
  }

  /** `random.random()` returns k / 2^53 for an integer 0 <= k < 2^53. */
  const RandomDenominator: nat := 0x20_0000_0000_0000

  predicate IsRandom(k: int) {
    0 <= k < RandomDenominator
  }

  /** `random.choice(s)` as CPython 2.7 computes it, `s[int(random() * len(s))]`,
      for the draw `random() == k / 2^53`: raises on an empty list. */
  function ChoiceByRandom<T>(s: seq<T>, k: nat): (r: Result<T>)
    requires IsRandom(k)
    ensures r.Err? <==> s == []
    ensures r.Err? ==> r.error == EmptySequence
    ensures r.Ok? ==> r.value in s
  {
    if s == [] then Err(EmptySequence)
    else
      ScaledIndex(k, |s|);
      Choice(s, k * |s| / RandomDenominator)
  }

  /** Scaling a draw below 1 by n gives an index below n. */
  lemma ScaledIndex(k: nat, n: nat)
    requires IsRandom(k) && n > 0
    ensures k * n / RandomDenominator < n
  {
    assert k * n < RandomDenominator * n;
  }

  /** The draws CPython 2.7's `random.shuffle` makes on a list of length `n`:
      for i = n-1 down to 1 (step t = n-1-i) it swaps x[i] with x[js[t]],
      where 0 <= js[t] <= i. */
  predicate IsShuffleDraw(js: seq<nat>, n: nat) {
    && |js| == (if n == 0 then 0 else n - 1)
    && forall t :: 0 <= t < |js| ==> js[t] <= n - 1 - t
  }

  /** The first steps of a shuffle: no more steps than the list allows. */
  predicate IsShufflePrefix(js: seq<nat>, n: nat) {
    && |js| < n + (if n == 0 then 1 else 0)
    && forall t :: 0 <= t < |js| ==> js[t] <= n - 1 - t
  }

  lemma ShuffleDrawIsPrefix(js: seq<nat>, n: nat)
    requires IsShuffleDraw(js, n)
    ensures IsShufflePrefix(js, n)
  {
  }

  /** Python's `x[i], x[j] = x[j], x[i]`. */
  function Swap<T>(s: seq<T>, i: nat, j: nat): (r: seq<T>)
    requires i < |s| && j < |s|
  {
    s[i := s[j]][j := s[i]]
  }

  lemma SwapPermutes<T>(s: seq<T>, i: nat, j: nat)
    requires i < |s| && j < |s|
    ensures |Swap(s, i, j)| == |s|
    ensures multiset(Swap(s, i, j)) == multiset(s)
  {
    if i != j {
      var u := s[i := s[j]];
      assert multiset(u) == multiset(s) - multiset{s[i]} + multiset{s[j]};
      assert multiset(u[j := s[i]]) == multiset(u) - multiset{u[j]} + multiset{s[i]};
    }
  }

  /** The list after the swap steps `js`; a whole shuffle when `IsShuffleDraw(js, |s|)`. */
  function Shuffled<T>(s: seq<T>, js: seq<nat>): (r: seq<T>)
    requires IsShufflePrefix(js, |s|)
    ensures |r| == |s|
  {
    if js == [] then s
    else
      var prev := Shuffled(s, js[..|js| - 1]);
      Swap(prev, |s| - |js|, js[|js| - 1])
  }

  /** Shuffling only moves items: the result is a permutation of the input. */
  lemma {:induction false} ShuffledPermutes<T>(s: seq<T>, js: seq<nat>)
    requires IsShufflePrefix(js, |s|)
    ensures multiset(Shuffled(s, js)) == multiset(s)
  {
    if js != [] {
      ShuffledPermutes(s, js[..|js| - 1]);
      SwapPermutes(Shuffled(s, js[..|js| - 1]), |s| - |js|, js[|js| - 1]);
    }
  }

  /** `random.shuffle(a)`, in place. */
  method Shuffle<T>(a: array<T>, js: seq<nat>)
    requires IsShuffleDraw(js, a.Length)
    modifies a
    ensures a[..] == Shuffled(old(a[..]), js)
    ensures multiset(a[..]) == multiset(old(a[..]))
  {
    ghost var original := a[..];
    // Step t visits i = a.Length - 1 - t, for i in reversed(xrange(1, len(a))).
    var t := 0;
    while t < |js|
      invariant 0 <= t <= |js|
      invariant IsShufflePrefix(js[..t], a.Length)
      invariant a[..] == Shuffled(original, js[..t])
    {
      var i := a.Length - 1 - t;
      var j := js[t];
      ghost var before := a[..];
      var tmp := a[i];
      a[i] := a[j];
      a[j] := tmp;
      assert a[..] == Swap(before, i, j);
      ghost var next := js[..t + 1];
      assert next[..|next| - 1] == js[..t];
      assert IsShufflePrefix(next, a.Length);
      assert Shuffled(original, next) == Swap(Shuffled(original, js[..t]), i, j);
      t := t + 1;
    }
    assert js[..|js|] == js;
    ShuffledPermutes(original, js);
  }
}
