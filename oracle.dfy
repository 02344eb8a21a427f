/**
 * The injected source of randomness. Both implementations draw
 * `Math.floor(rngFn() * n)` (or `rng.choice`, `rng.randrange`, `random.shuffle`);
 * here every draw is an integer below `n` read off a tape of pre-drawn values,
 * so any sequence of choices can be forced.
 */
module Oracle {
  import opened Wrappers
  import opened Seqs

  datatype Rng = Rng(draws: seq<nat>)

  /** One draw: an index below `n`, and the tape that is left. */
  function Next(r: Rng, n: nat): (res: (nat, Rng))
    requires n > 0
    ensures res.0 < n
    ensures |res.1.draws| == if |r.draws| == 0 then 0 else |r.draws| - 1
  {
    if |r.draws| == 0 then (0, r) else (r.draws[0] % n, Rng(r.draws[1..]))
  }

  /** `rngChoice(array, rngFn)` / `randomChoice(array)`: one element, uniformly by index. */
  function Choice<T>(xs: seq<T>, r: Rng): (res: (T, Rng))
    requires |xs| > 0
    ensures res.0 in xs
  {
    var (k, r') := Next(r, |xs|);
    (xs[k], r')
  }

  /** Every index below `n` is a possible draw. */
  lemma NextReaches(k: nat, n: nat, rest: seq<nat>)
    requires k < n
    ensures Next(Rng([k] + rest), n) == (k, Rng(rest))
  {
  }

  /**
   * `shuffleWithRng(array, rngFn)` / `shuffle(array)`: Fisher-Yates in place,
   * swapping `a[i]` with `a[j]`, `j <= i`, from the last index down to 1.
   */
  method Shuffle<T>(a: array<T>, r: Rng) returns (r': Rng)
    modifies a
    ensures multiset(a[..]) == multiset(old(a[..]))
    ensures Distinct(old(a[..])) ==> Distinct(a[..])
  {
    r' := r;
    var i := a.Length - 1;
    while i > 0
      invariant -1 <= i < a.Length || (a.Length == 0 && i == -1)
      invariant multiset(a[..]) == multiset(old(a[..]))
      invariant Distinct(old(a[..])) ==> Distinct(a[..])
      decreases i
    {
      var j;
      j, r' := Next(r', i + 1).0, Next(r', i + 1).1;
      ghost var before := a[..];
      a[i], a[j] := a[j], a[i];
      assert a[..] == before[i := before[j]][j := before[i]];
      SwapKeepsDistinct(before, i, j);
      i := i - 1;
    }
  }

  lemma SwapKeepsDistinct<T>(s: seq<T>, i: nat, j: nat)
    requires i < |s| && j < |s|
    ensures multiset(s[i := s[j]][j := s[i]]) == multiset(s)
    ensures Distinct(s) ==> Distinct(s[i := s[j]][j := s[i]])
  {
    var t := s[i := s[j]][j := s[i]];
    if Distinct(s) {
      forall p, q | 0 <= p < q < |t| ensures t[p] != t[q] {
        var p' := if p == i then j else if p == j then i else p;
        var q' := if q == i then j else if q == j then i else q;
        assert t[p] == s[p'] && t[q] == s[q'];
        assert p' != q';
      }
    }
  }

  /** A shuffled copy: `shuffle([...xs])`, the copy shuffled in place and returned. */
  method Shuffled<T>(xs: seq<T>, r: Rng) returns (ys: seq<T>, r': Rng)
    ensures |ys| == |xs|
    ensures multiset(ys) == multiset(xs)
    ensures Distinct(xs) ==> Distinct(ys)
  {
    var a := new T[|xs|](i requires 0 <= i < |xs| => xs[i]);
    assert a[..] == xs;
    r' := Shuffle(a, r);
    ys := a[..];
  }

  /**
   * `sampleWithoutReplacement(array, count, rngFn)`: shuffle a copy and keep the
   * first `count`; None where the source throws (more requested than there are).
   */
  method Sample<T>(xs: seq<T>, count: nat, r: Rng) returns (res: Option<seq<T>>, r': Rng)
    ensures res.None? <==> count > |xs|
    ensures res.Some? ==> |res.value| == count
    ensures res.Some? ==> forall x :: x in res.value ==> x in xs
    ensures res.Some? && Distinct(xs) ==> Distinct(res.value)
  {
    r' := r;
    if count > |xs| {
      return None, r';
    }
    var pool;
    pool, r' := Shuffled(xs, r');
    var picked := pool[..count];
    assert forall x :: x in picked ==> x in multiset(pool);
    if Distinct(xs) {
      DistinctSlice(pool, 0, count);
    }
    res := Some(picked);
  }
}
