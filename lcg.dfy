/** The linear congruential generator shared by every stage of one simulation
    run: state <- (A * state + C) mod M, and each call returns state / M. */
module Random {

  const A: int := 1103515245
  const C: int := 12345
  /** 2^31 */
  const M: int := 0x8000_0000
  const DefaultSeed: int := 12345

  /** One step of the recurrence. The modulus is positive, so the remainder is
      never negative whatever the sign of the state (as in Python). */
  function Step(s: int): (r: int)
    ensures 0 <= r < M
  {
    (A * s + C) % M
  }

  /** The value `next` returns once the state is `s`: an exact dyadic fraction. */
  function Uniform(s: int): (u: real)
    requires 0 <= s < M
    ensures 0.0 <= u < 1.0
  {
    s as real / M as real
  }

  /** The state after `k` calls of `next` on a generator seeded with `s`:
      one step from the seed, then `k - 1` more from there. */
  function StateAfter(s: int, k: nat): (r: int)
    ensures 0 < k ==> 0 <= r < M
    decreases k
  {
    if k == 0 then s else StateAfter(Step(s), k - 1)
  }

  /** Closed form of the (i+1)-th value a generator seeded with `s` returns. */
  function DrawAt(s: int, i: nat): (u: real)
    ensures 0.0 <= u < 1.0
  {
    Uniform(StateAfter(s, i + 1))
  }

  /** The first `k` values a generator seeded with `s` returns, generated the
      way the generator does it: one value, then the rest from the new state. */
  function Stream(s: int, k: nat): (r: seq<real>)
    ensures |r| == k
    decreases k
  {
    if k == 0 then [] else [Uniform(Step(s))] + Stream(Step(s), k - 1)
  }

  /** One more call steps the state reached so far. */
  lemma {:induction false} StateAfterStep(s: int, k: nat)
    ensures StateAfter(s, k + 1) == Step(StateAfter(s, k))
    decreases k
  {
    if k > 0 {
      StateAfterStep(Step(s), k - 1);
    }
  }

  /** The stream agrees with the closed form at every position. */
  lemma {:induction false} StreamAt(s: int, k: nat, i: nat)
    requires i < k
    ensures Stream(s, k)[i] == DrawAt(s, i)
    decreases k
  {
    assert Stream(s, k) == [Uniform(Step(s))] + Stream(Step(s), k - 1);
    if i == 0 {
      assert StateAfter(s, 1) == Step(s);
    } else {
      StreamAt(Step(s), k - 1, i - 1);
      assert StateAfter(s, i + 1) == StateAfter(Step(s), i);
    }
  }

  /** Running j calls and then k more is the same as running j + k calls. */
  lemma {:induction false} StateAfterAdd(s: int, j: nat, k: nat)
    ensures StateAfter(s, j + k) == StateAfter(StateAfter(s, j), k)
    decreases j
  {
    if j > 0 {
      StateAfterAdd(Step(s), j - 1, k);
    }
  }

  /** Replaying a seed reproduces the same values: a shorter replay is a
      prefix of a longer one. */
  lemma ReplayIsPrefix(s: int, j: nat, k: nat)
    requires j <= k
    ensures Stream(s, j) == Stream(s, k)[..j]
  {
    forall i | 0 <= i < j ensures Stream(s, j)[i] == Stream(s, k)[i] {
      StreamAt(s, j, i);
      StreamAt(s, k, i);
    }
  }

  /** One more call appends the next closed-form value to the stream. */
  lemma StreamSnoc(s: int, k: nat)
    ensures Stream(s, k + 1) == Stream(s, k) + [DrawAt(s, k)]
  {
    ReplayIsPrefix(s, k, k + 1);
    StreamAt(s, k + 1, k);
  }

  /** One generator object. `seed`, `calls` and `outputs` are the ghost view:
      the seed it was built with, how many times `Next` ran and what it returned. */
  class Lcg {
    var state: int
    ghost const seed: int
    ghost var calls: nat
    ghost var outputs: seq<real>

    ghost predicate Valid()
      reads this
    {
      state == StateAfter(seed, calls) && outputs == Stream(seed, calls)
    }

    constructor (seed: int := DefaultSeed)
      ensures Valid()
      ensures this.seed == seed && state == seed && calls == 0 && outputs == []
    {
      this.seed := seed;
      state := seed;
      calls := 0;
      outputs := [];
    }

    method Next() returns (u: real)
      requires Valid()
      modifies this
      ensures Valid()
      ensures state == Step(old(state)) && 0 <= state < M
      ensures calls == old(calls) + 1
      ensures u == state as real / M as real && 0.0 <= u < 1.0
      ensures u == DrawAt(seed, old(calls))
      ensures outputs == old(outputs) + [u]
    {
      state := (A * state + C) % M;
      u := state as real / M as real;
      calls := calls + 1;
      outputs := outputs + [u];
      StateAfterStep(seed, old(calls));
      StreamSnoc(seed, old(calls));
    }
  }

  /** Two generators with the same seed that have been called equally often
      are in the same state and have returned the same values. */
  lemma SameSeedSameStream(g: Lcg, h: Lcg)
    requires g.Valid() && h.Valid()
    requires g.seed == h.seed && g.calls == h.calls
    ensures g.state == h.state && g.outputs == h.outputs
  {
  }
}
