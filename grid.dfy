/** `run_grid_search`: every combination of candidate values, merged over a
    base configuration and scored by repeated runs; the lowest mean number of
    successful attacks wins. */
module GridSearch {
  import opened Stats
  import opened Model
  import opened Analysis

  // ---------------------------------------------------------------------
  // Enumerating the grid

  /** A parameter grid: names with their candidate values, in insertion order. */
  type Grid = seq<(string, seq<real>)>

  function Names(grid: Grid): (r: seq<string>)
    ensures |r| == |grid| && forall i :: 0 <= i < |grid| ==> r[i] == grid[i].0
  {
    seq(|grid|, i requires 0 <= i < |grid| => grid[i].0)
  }

  function Lists(grid: Grid): (r: seq<seq<real>>)
    ensures |r| == |grid| && forall i :: 0 <= i < |grid| ==> r[i] == grid[i].1
  {
    seq(|grid|, i requires 0 <= i < |grid| => grid[i].1)
  }

  /** `a` copies of `b` added up. Products in this module go through it, so
      that every fact about them is one unfolding away. */
  function Mul(a: nat, b: nat): nat
  {
    if a == 0 then 0 else b + Mul(a - 1, b)
  }

  lemma {:induction false} MulIsProduct(a: nat, b: nat)
    ensures Mul(a, b) == a * b
  {
    if a > 0 {
      MulIsProduct(a - 1, b);
      assert a * b == b + (a - 1) * b;
    }
  }

  /** The number of combinations: the product of the list lengths. */
  function Count(lists: seq<seq<real>>): nat
  {
    if lists == [] then 1 else Mul(|lists[0]|, Count(lists[1..]))
  }

  /** One head in front of every tail, in order. */
  function Block(head: real, tails: seq<seq<real>>): (r: seq<seq<real>>)
    ensures |r| == |tails| && forall j :: 0 <= j < |tails| ==> r[j] == [head] + tails[j]
  {
    seq(|tails|, j requires 0 <= j < |tails| => [head] + tails[j])
  }

  /** Every head, in order, in front of every tail, in order. */
  function Prepend(heads: seq<real>, tails: seq<seq<real>>): (r: seq<seq<real>>)
    ensures |r| == Mul(|heads|, |tails|)
  {
    if heads == [] then [] else Block(heads[0], tails) + Prepend(heads[1..], tails)
  }

  /** Each combination `Prepend` makes is a head in front of a tail. */
  lemma {:induction false} PrependMembers(heads: seq<real>, tails: seq<seq<real>>)
    ensures forall k :: 0 <= k < |Prepend(heads, tails)| ==>
      0 < |Prepend(heads, tails)[k]| && Prepend(heads, tails)[k][0] in heads
      && Prepend(heads, tails)[k][1..] in tails
  {
    if heads != [] {
      var block := Block(heads[0], tails);
      var rest := Prepend(heads[1..], tails);
      PrependMembers(heads[1..], tails);
      assert Prepend(heads, tails) == block + rest;
      forall k | 0 <= k < |block + rest|
        ensures 0 < |(block + rest)[k]| && (block + rest)[k][0] in heads && (block + rest)[k][1..] in tails
      {
        if k < |block| {
          assert (block + rest)[k] == [heads[0]] + tails[k];
          assert ([heads[0]] + tails[k])[1..] == tails[k];
        } else {
          assert (block + rest)[k] == rest[k - |block|];
          assert rest[k - |block|][0] in heads[1..];
        }
      }
    }
  }

  /** `itertools.product`: the combinations that pick one value from each
      list, with the first list varying slowest. */
  function Product(lists: seq<seq<real>>): (r: seq<seq<real>>)
    ensures |r| == Count(lists)
    decreases |lists|
  {
    if lists == [] then [[]] else Prepend(lists[0], Product(lists[1..]))
  }

  /** Each combination picks one value from every list. */
  lemma {:induction false} ProductMembers(lists: seq<seq<real>>)
    ensures forall k :: 0 <= k < |Product(lists)| ==>
      |Product(lists)[k]| == |lists| && forall i :: 0 <= i < |lists| ==> Product(lists)[k][i] in lists[i]
    decreases |lists|
  {
    if lists != [] {
      var rest := Product(lists[1..]);
      ProductMembers(lists[1..]);
      PrependMembers(lists[0], rest);
      forall k | 0 <= k < |Product(lists)|
        ensures |Product(lists)[k]| == |lists| && forall i :: 0 <= i < |lists| ==> Product(lists)[k][i] in lists[i]
      {
        var c := Product(lists)[k];
        var j :| 0 <= j < |rest| && rest[j] == c[1..];
        forall i | 0 <= i < |lists| ensures c[i] in lists[i] {
          if i > 0 {
            assert c[i] == rest[j][i - 1] && lists[i] == lists[1..][i - 1];
          }
        }
      }
    }
  }

  /** A choice of one index into each list. */
  ghost predicate IsChoice(lists: seq<seq<real>>, d: seq<nat>)
  {
    |d| == |lists| && forall i :: 0 <= i < |lists| ==> d[i] < |lists[i]|
  }

  /** The values a choice picks. */
  function Pick(lists: seq<seq<real>>, d: seq<nat>): (c: seq<real>)
    requires IsChoice(lists, d)
    ensures |c| == |lists| && forall i :: 0 <= i < |lists| ==> c[i] == lists[i][d[i]]
  {
    seq(|lists|, i requires 0 <= i < |lists| => lists[i][d[i]])
  }

  /** The position of a choice: the indices read as a mixed-radix number whose
      first digit is the most significant, so the last list varies fastest. */
  function Rank(lists: seq<seq<real>>, d: seq<nat>): nat
    requires IsChoice(lists, d)
  {
    if lists == [] then 0 else Mul(d[0], Count(lists[1..])) + Rank(lists[1..], d[1..])
  }

  lemma {:induction false} MulStep(a: nat, b: nat, c: nat, r: nat)
    requires a < b && r < c
    ensures Mul(a, c) + r < Mul(b, c)
    decreases b
  {
    if a + 1 < b {
      MulStep(a, b - 1, c, r);
    }
  }

  lemma {:induction false} PrependAt(heads: seq<real>, tails: seq<seq<real>>, i: nat, j: nat)
    requires i < |heads| && j < |tails|
    ensures Mul(i, |tails|) + j < |Prepend(heads, tails)|
    ensures Prepend(heads, tails)[Mul(i, |tails|) + j] == [heads[i]] + tails[j]
  {
    MulStep(i, |heads|, |tails|, j);
    var block := Block(heads[0], tails);
    var rest := Prepend(heads[1..], tails);
    assert Prepend(heads, tails) == block + rest;
    if i == 0 {
      assert Mul(i, |tails|) + j == j;
      assert (block + rest)[j] == block[j] == [heads[i]] + tails[j];
    } else {
      PrependAt(heads[1..], tails, i - 1, j);
      var k := Mul(i - 1, |tails|) + j;
      assert Mul(i, |tails|) + j == |block| + k;
      ConcatRight(block, rest, k);
      assert rest[k] == [heads[1..][i - 1]] + tails[j];
      assert heads[1..][i - 1] == heads[i];
      assert (block + rest)[|block| + k] == [heads[i]] + tails[j];
    }
  }

  lemma ConcatRight<T>(a: seq<T>, b: seq<T>, k: nat)
    requires k < |b|
    ensures |a| + k < |a + b| && (a + b)[|a| + k] == b[k]
  {
  }

  lemma PickCons(lists: seq<seq<real>>, d: seq<nat>)
    requires IsChoice(lists, d) && lists != []
    ensures IsChoice(lists[1..], d[1..])
    ensures Pick(lists, d) == [lists[0][d[0]]] + Pick(lists[1..], d[1..])
  {
  }

  /** The product lists the combinations in mixed-radix order: the choice with
      rank `Rank(lists, d)` sits at that position. */
  lemma {:induction false} ProductAt(lists: seq<seq<real>>, d: seq<nat>)
    requires IsChoice(lists, d)
    ensures Rank(lists, d) < |Product(lists)|
    ensures Product(lists)[Rank(lists, d)] == Pick(lists, d)
    decreases |lists|
  {
    if lists != [] {
      var rest := Product(lists[1..]);
      assert IsChoice(lists[1..], d[1..]);
      var r := Rank(lists[1..], d[1..]);
      ProductAt(lists[1..], d[1..]);
      assert Rank(lists, d) == Mul(d[0], |rest|) + r;
      assert Product(lists) == Prepend(lists[0], rest);
      PrependAt(lists[0], rest, d[0], r);
      PickCons(lists, d);
    }
  }

  /** `dict(zip(names, combo))` on lists of one length: pairs are inserted in
      order, so a later duplicate name overrides an earlier one. */
  function Zip(names: seq<string>, combo: seq<real>): map<string, real>
    requires |names| == |combo|
  {
    if names == [] then map[]
    else
      var n := |names| - 1;
      Zip(names[..n], combo[..n])[names[n] := combo[n]]
  }

  /** The keys of the mapping are the names, and each name whose pair is the
      last with that name maps to its value. */
  lemma {:induction false} ZipMaps(names: seq<string>, combo: seq<real>)
    requires |names| == |combo|
    ensures forall k :: k in Zip(names, combo) <==> k in names
    ensures forall i :: 0 <= i < |names| ==>
      (forall j :: i < j < |names| ==> names[j] != names[i]) ==> Zip(names, combo)[names[i]] == combo[i]
  {
    if names != [] {
      var n := |names| - 1;
      var init := names[..n];
      ZipMaps(init, combo[..n]);
      assert names == init + [names[n]];
      forall i | 0 <= i < |names| && (forall j :: i < j < |names| ==> names[j] != names[i])
        ensures Zip(names, combo)[names[i]] == combo[i]
      {
        if i < n {
          assert init[i] == names[i] && combo[..n][i] == combo[i];
          assert forall j :: i < j < |init| ==> init[j] != init[i];
        }
      }
    }
  }

  /** `all_combinations`: each product, as a mapping from parameter names. */
  function Combinations(grid: Grid): (r: seq<map<string, real>>)
    ensures |r| == Count(Lists(grid))
  {
    ProductMembers(Lists(grid));
    var product := Product(Lists(grid));
    seq(|product|, k requires 0 <= k < |product| => Zip(Names(grid), product[k]))
  }

  ghost predicate DistinctNames(grid: Grid)
  {
    forall i, j :: 0 <= i < j < |grid| ==> grid[i].0 != grid[j].0
  }

  /** The combination a choice of indices selects, at the position of its rank,
      maps every parameter name to the value chosen for it. */
  lemma CombinationAt(grid: Grid, d: seq<nat>)
    requires DistinctNames(grid) && IsChoice(Lists(grid), d)
    ensures Rank(Lists(grid), d) < |Combinations(grid)|
    ensures var m := Combinations(grid)[Rank(Lists(grid), d)];
      && (forall k :: k in m <==> k in Names(grid))
      && (forall i :: 0 <= i < |grid| ==> m[grid[i].0] == grid[i].1[d[i]])
  {
    var lists := Lists(grid);
    var names := Names(grid);
    ProductAt(lists, d);
    var c := Pick(lists, d);
    var m := Combinations(grid)[Rank(lists, d)];
    assert m == Zip(names, c);
    ZipMaps(names, c);
    forall i | 0 <= i < |grid| ensures m[grid[i].0] == grid[i].1[d[i]] {
      assert names[i] == grid[i].0;
      assert forall j :: i < j < |names| ==> names[j] != names[i];
      assert m[names[i]] == c[i];
    }
  }

  /** `{**base_config, **combo}`: the grid values override the base. */
  function Merge(base: Config, combo: map<string, real>): (c: Config)
    ensures c.Keys == base.Keys + combo.Keys
    ensures forall k :: k in combo ==> c[k] == combo[k]
    ensures forall k :: k in base && k !in combo ==> c[k] == base[k]
    ensures IsComplete(base) ==> IsComplete(c)
  {
    base + combo
  }

  // ---------------------------------------------------------------------
  // Completion order

  predicate InRange(order: seq<nat>, n: nat)
  {
    forall k :: 0 <= k < |order| ==> order[k] < n
  }

  function Indices(n: nat): (r: seq<nat>)
    ensures |r| == n && forall i :: 0 <= i < n ==> r[i] == i
  {
    seq(n, i => i)
  }

  /** The order in which the submitted evaluations complete: each of the `n`
      combinations exactly once. */
  ghost predicate IsPermutation(order: seq<nat>, n: nat)
  {
    InRange(order, n) && multiset(order) == multiset(Indices(n))
  }

  /** The elements of `s` at the positions `order` lists, in that order. */
  function Permute<T>(s: seq<T>, order: seq<nat>): (r: seq<T>)
    requires InRange(order, |s|)
    ensures |r| == |order| && forall k :: 0 <= k < |order| ==> r[k] == s[order[k]]
  {
    if order == [] then [] else [s[order[0]]] + Permute(s, order[1..])
  }

  lemma {:induction false} PermuteConcat<T>(s: seq<T>, a: seq<nat>, b: seq<nat>)
    requires InRange(a, |s|) && InRange(b, |s|)
    ensures InRange(a + b, |s|)
    ensures Permute(s, a + b) == Permute(s, a) + Permute(s, b)
  {
    if a != [] {
      assert (a + b)[1..] == a[1..] + b;
      PermuteConcat(s, a[1..], b);
    }
  }

  lemma Split(ys: seq<nat>, i: nat)
    requires i < |ys|
    ensures ys == ys[..i] + ([ys[i]] + ys[i + 1..])
    ensures multiset(ys[..i] + ys[i + 1..]) == multiset(ys) - multiset{ys[i]}
  {
    assert ys == ys[..i] + [ys[i]] + ys[i + 1..];
  }

  lemma PermuteSplit<T>(s: seq<T>, ys: seq<nat>, i: nat)
    requires InRange(ys, |s|) && i < |ys|
    ensures InRange(ys[..i] + ys[i + 1..], |s|)
    ensures Permute(s, ys) == Permute(s, ys[..i]) + ([s[ys[i]]] + Permute(s, ys[i + 1..]))
    ensures Permute(s, ys[..i] + ys[i + 1..]) == Permute(s, ys[..i]) + Permute(s, ys[i + 1..])
  {
    Split(ys, i);
    PermuteConcat(s, ys[..i], ys[i + 1..]);
    PermuteConcat(s, ys[..i], [ys[i]] + ys[i + 1..]);
  }

  /** Taking one position out of the order takes its element out of the result. */
  lemma PermuteWithout<T>(s: seq<T>, ys: seq<nat>, i: nat)
    requires InRange(ys, |s|) && i < |ys|
    ensures InRange(ys[..i] + ys[i + 1..], |s|)
    ensures multiset(Permute(s, ys)) == multiset(Permute(s, ys[..i] + ys[i + 1..])) + multiset{s[ys[i]]}
  {
    PermuteSplit(s, ys, i);
    var p, q := Permute(s, ys[..i]), Permute(s, ys[i + 1..]);
    calc {
      multiset(Permute(s, ys));
      multiset(p + ([s[ys[i]]] + q));
      multiset(p + q) + multiset{s[ys[i]]};
    }
  }

  lemma {:induction false} PermuteMultiset<T>(s: seq<T>, xs: seq<nat>, ys: seq<nat>)
    requires InRange(xs, |s|) && InRange(ys, |s|)
    requires multiset(xs) == multiset(ys)
    ensures multiset(Permute(s, xs)) == multiset(Permute(s, ys))
    decreases |xs|
  {
    if xs == [] {
      assert |ys| == |multiset(ys)| == 0;
    } else {
      var x := xs[0];
      assert x in multiset(ys);
      var i :| 0 <= i < |ys| && ys[i] == x;
      Split(ys, i);
      Split(xs, 0);
      assert xs[..0] + xs[1..] == xs[1..];
      PermuteWithout(s, ys, i);
      PermuteWithout(s, xs, 0);
      PermuteMultiset(s, xs[1..], ys[..i] + ys[i + 1..]);
    }
  }

  /** Every index below `n` occurs in a permutation of them. */
  lemma Occurs(order: seq<nat>, n: nat, j: nat) returns (k: nat)
    requires IsPermutation(order, n) && j < n
    ensures k < |order| && order[k] == j
  {
    assert Indices(n)[j] == j;
    assert j in multiset(order);
    k :| 0 <= k < |order| && order[k] == j;
  }

  // ---------------------------------------------------------------------
  // History and best

  /** One evaluated combination. */
  datatype Entry = Entry(params: map<string, real>, score: Float, ci: (real, real))

  /** The evaluation of one combination merged over the base configuration. */
  function Evaluate(base: Config, combo: map<string, real>, runs: nat, env: Env): (r: Result<Entry>)
    requires IsComplete(base) && ValidEnv(env)
    ensures r.Ok? <==> ScoreSpec(Merge(base, combo), runs, env).Ok?
    ensures r.Ok? ==> r.value.params == combo
    ensures r.Ok? ==> ScoreSpec(Merge(base, combo), runs, env).value == Score(r.value.score, r.value.ci)
  {
    match ScoreSpec(Merge(base, combo), runs, env)
    case Err(e) => Err(e)
    case Ok(s) => Ok(Entry(combo, s.mean, s.ci))
  }

  /** The evaluations of the combinations in completion order. */
  function Evaluations(base: Config, combos: seq<map<string, real>>, order: seq<nat>, runs: nat, env: Env)
    : (r: seq<Result<Entry>>)
    requires IsComplete(base) && ValidEnv(env) && InRange(order, |combos|)
  {
    seq(|order|, k requires 0 <= k < |order| => Evaluate(base, combos[order[k]], runs, env))
  }

  /** The history in completion order; the first failure wins. */
  function HistorySpec(base: Config, combos: seq<map<string, real>>, order: seq<nat>, runs: nat, env: Env)
    : (r: Result<seq<Entry>>)
    requires IsComplete(base) && ValidEnv(env) && InRange(order, |combos|)
    ensures r.Ok? ==> |r.value| == |order|
  {
    Table(Evaluations(base, combos, order, runs, env))
  }

  /** The k-th entry of a history is the evaluation of the k-th completed
      combination: its parameters and the score of the merged configuration. */
  lemma HistoryAt(base: Config, combos: seq<map<string, real>>, order: seq<nat>, runs: nat, env: Env)
    requires IsComplete(base) && ValidEnv(env) && InRange(order, |combos|)
    requires HistorySpec(base, combos, order, runs, env).Ok?
    ensures var h := HistorySpec(base, combos, order, runs, env).value;
      forall k :: 0 <= k < |order| ==> Evaluate(base, combos[order[k]], runs, env) == Ok(h[k])
  {
    TableAt(Evaluations(base, combos, order, runs, env));
  }

  /** The search fails exactly when some combination's evaluation fails. */
  lemma HistoryFailsIff(base: Config, combos: seq<map<string, real>>, order: seq<nat>,
                        runs: nat, env: Env)
    requires IsComplete(base) && ValidEnv(env) && InRange(order, |combos|)
    ensures HistorySpec(base, combos, order, runs, env).Err? <==>
      exists k :: 0 <= k < |order| && ScoreSpec(Merge(base, combos[order[k]]), runs, env).Err?
  {
    var rows := Evaluations(base, combos, order, runs, env);
    TableFailsIff(rows);
    assert forall k :: 0 <= k < |order| ==>
      (rows[k].Err? <==> ScoreSpec(Merge(base, combos[order[k]]), runs, env).Err?);
  }

  datatype Best = Best(params: map<string, real>, score: Float)

  /** The update after one evaluation: strictly lower scores replace the best. */
  function Consider(best: Best, e: Entry): Best
  {
    if e.score.Less(best.score) then Best(e.params, e.score) else best
  }

  /** The best after a history, starting from no parameters and +inf. */
  function Track(h: seq<Entry>): Best
  {
    if h == [] then Best(map[], PosInf) else Consider(Track(h[..|h| - 1]), h[|h| - 1])
  }

  /** `k` holds the lowest finite score of `h`, and no earlier entry ties it. */
  ghost predicate IsFirstMinimum(h: seq<Entry>, k: int)
  {
    && 0 <= k < |h| && h[k].score.Finite?
    && (forall j :: 0 <= j < |h| && h[j].score.Finite? ==> h[k].score.value <= h[j].score.value)
    && (forall j :: 0 <= j < k && h[j].score.Finite? ==> h[k].score.value < h[j].score.value)
  }

  /** Scores are means, never +inf. The best is then the first entry with the
      lowest score; NaN scores (no runs) never win, and if every score is NaN
      the best stays at no parameters and +inf. */
  lemma {:induction false} TrackIsFirstMinimum(h: seq<Entry>)
    requires forall j :: 0 <= j < |h| ==> !h[j].score.PosInf?
    ensures (forall j :: 0 <= j < |h| ==> h[j].score.NaN?) ==> Track(h) == Best(map[], PosInf)
    ensures (exists j :: 0 <= j < |h| && h[j].score.Finite?) ==>
      exists k :: IsFirstMinimum(h, k) && Track(h) == Best(h[k].params, h[k].score)
  {
    if h != [] {
      var n := |h| - 1;
      var init := h[..n];
      var e := h[n];
      assert forall j :: 0 <= j < n ==> init[j] == h[j];
      TrackIsFirstMinimum(init);
      assert Track(h) == Consider(Track(init), e);
      if forall j :: 0 <= j < n ==> init[j].score.NaN? {
        assert Track(init) == Best(map[], PosInf);
        if e.score.Finite? {
          assert forall j :: 0 <= j < n ==> !h[j].score.Finite?;
          assert IsFirstMinimum(h, n);
        }
      } else {
        var k :| IsFirstMinimum(init, k) && Track(init) == Best(init[k].params, init[k].score);
        var m := init[k].score.value;
        assert h[k] == init[k];
        if e.score.Less(init[k].score) {
          assert e.score.value < m;
          assert IsFirstMinimum(h, n);
        } else {
          assert e.score.Finite? ==> m <= e.score.value;
          assert IsFirstMinimum(h, k);
        }
      }
    }
  }

  /** Scores are never +inf: with no runs they are NaN, otherwise finite. */
  lemma HistoryScores(base: Config, combos: seq<map<string, real>>, order: seq<nat>, runs: nat, env: Env)
    requires IsComplete(base) && ValidEnv(env) && InRange(order, |combos|)
    requires HistorySpec(base, combos, order, runs, env).Ok?
    ensures var h := HistorySpec(base, combos, order, runs, env).value;
      forall k :: 0 <= k < |h| ==> (h[k].score.Finite? <==> 0 < runs) && (h[k].score.NaN? <==> runs == 0)
  {
    var h := HistorySpec(base, combos, order, runs, env).value;
    HistoryAt(base, combos, order, runs, env);
    forall k | 0 <= k < |h| ensures (h[k].score.Finite? <==> 0 < runs) && (h[k].score.NaN? <==> runs == 0) {
      var config := Merge(base, combos[order[k]]);
      assert Evaluate(base, combos[order[k]], runs, env) == Ok(h[k]);
      assert ScoreSpec(config, runs, env) == Ok(Score(h[k].score, h[k].ci));
      assert SuccessCounts(config, runs, env).Ok?;
    }
  }

  /** The parameters of each entry, in history order. */
  function Evaluated(h: seq<Entry>): (r: seq<map<string, real>>)
    ensures |r| == |h| && forall k :: 0 <= k < |h| ==> r[k] == h[k].params
  {
    seq(|h|, k requires 0 <= k < |h| => h[k].params)
  }

  /** The history lists every combination exactly once, whatever the
      completion order. */
  lemma HistoryCoversCombinations(base: Config, combos: seq<map<string, real>>, order: seq<nat>,
                                  runs: nat, env: Env)
    requires IsComplete(base) && ValidEnv(env) && IsPermutation(order, |combos|)
    requires HistorySpec(base, combos, order, runs, env).Ok?
    ensures multiset(Evaluated(HistorySpec(base, combos, order, runs, env).value)) == multiset(combos)
  {
    var h := HistorySpec(base, combos, order, runs, env).value;
    HistoryAt(base, combos, order, runs, env);
    forall k | 0 <= k < |order| ensures Evaluated(h)[k] == Permute(combos, order)[k] {
      assert Evaluate(base, combos[order[k]], runs, env) == Ok(h[k]);
    }
    assert Evaluated(h) == Permute(combos, order);
    PermuteMultiset(combos, order, Indices(|combos|));
    assert Permute(combos, Indices(|combos|)) == combos;
  }

  /** The distinct scores a history holds. */
  ghost function Scores(h: seq<Entry>): set<Float>
  {
    set k | 0 <= k < |h| :: h[k].score
  }

  /** Two histories with the same scores, in whatever order and multiplicity,
      report the same best score. */
  lemma SameScoresSameBest(h1: seq<Entry>, h2: seq<Entry>)
    requires forall j :: 0 <= j < |h1| ==> !h1[j].score.PosInf?
    requires forall j :: 0 <= j < |h2| ==> !h2[j].score.PosInf?
    requires Scores(h1) == Scores(h2)
    ensures Track(h1).score == Track(h2).score
  {
    TrackIsFirstMinimum(h1);
    TrackIsFirstMinimum(h2);
    if j :| 0 <= j < |h1| && h1[j].score.Finite? {
      assert h1[j].score in Scores(h2);
      var k1 :| IsFirstMinimum(h1, k1) && Track(h1) == Best(h1[k1].params, h1[k1].score);
      var k2 :| IsFirstMinimum(h2, k2) && Track(h2) == Best(h2[k2].params, h2[k2].score);
      assert h1[k1].score in Scores(h2);
      assert h2[k2].score in Scores(h1);
      var c2 :| 0 <= c2 < |h2| && h2[c2].score == h1[k1].score;
      var c1 :| 0 <= c1 < |h1| && h1[c1].score == h2[k2].score;
      assert h2[k2].score.value <= h2[c2].score.value == h1[k1].score.value;
      assert h1[k1].score.value <= h1[c1].score.value == h2[k2].score.value;
    } else {
      forall j | 0 <= j < |h2| ensures h2[j].score.NaN? {
        assert h2[j].score in Scores(h1);
      }
    }
  }

  /** Whether the search fails, and the best score it reports, do not depend
      on the order in which the evaluations complete. */
  lemma BestScoreIndependentOfOrder(base: Config, combos: seq<map<string, real>>, o1: seq<nat>, o2: seq<nat>,
                                    runs: nat, env: Env)
    requires IsComplete(base) && ValidEnv(env)
    requires IsPermutation(o1, |combos|) && IsPermutation(o2, |combos|)
    ensures HistorySpec(base, combos, o1, runs, env).Err? <==> HistorySpec(base, combos, o2, runs, env).Err?
    ensures HistorySpec(base, combos, o1, runs, env).Ok? ==>
      Track(HistorySpec(base, combos, o1, runs, env).value).score
        == Track(HistorySpec(base, combos, o2, runs, env).value).score
  {
    SameFailure(base, combos, o1, o2, runs, env);
    SameFailure(base, combos, o2, o1, runs, env);
    if HistorySpec(base, combos, o1, runs, env).Ok? {
      HistoryScores(base, combos, o1, runs, env);
      HistoryScores(base, combos, o2, runs, env);
      SameHistoryScores(base, combos, o1, o2, runs, env);
      SameHistoryScores(base, combos, o2, o1, runs, env);
      SameScoresSameBest(HistorySpec(base, combos, o1, runs, env).value,
                         HistorySpec(base, combos, o2, runs, env).value);
    }
  }

  /** Histories over two orderings of the same combinations hold the same scores. */
  lemma SameHistoryScores(base: Config, combos: seq<map<string, real>>, o1: seq<nat>, o2: seq<nat>,
                          runs: nat, env: Env)
    requires IsComplete(base) && ValidEnv(env)
    requires IsPermutation(o1, |combos|) && IsPermutation(o2, |combos|)
    requires HistorySpec(base, combos, o1, runs, env).Ok? && HistorySpec(base, combos, o2, runs, env).Ok?
    ensures Scores(HistorySpec(base, combos, o1, runs, env).value) <= Scores(HistorySpec(base, combos, o2, runs, env).value)
  {
    var h1 := HistorySpec(base, combos, o1, runs, env).value;
    var h2 := HistorySpec(base, combos, o2, runs, env).value;
    HistoryAt(base, combos, o1, runs, env);
    HistoryAt(base, combos, o2, runs, env);
    forall x | x in Scores(h1) ensures x in Scores(h2) {
      var k1 :| 0 <= k1 < |h1| && h1[k1].score == x;
      var k2 := Occurs(o2, |combos|, o1[k1]);
      assert Ok(h2[k2]) == Evaluate(base, combos[o1[k1]], runs, env) == Ok(h1[k1]);
      assert h2[k2].score == x;
    }
  }

  /** A combination that fails fails the search in every completion order. */
  lemma SameFailure(base: Config, combos: seq<map<string, real>>, o1: seq<nat>, o2: seq<nat>,
                    runs: nat, env: Env)
    requires IsComplete(base) && ValidEnv(env)
    requires IsPermutation(o1, |combos|) && IsPermutation(o2, |combos|)
    ensures HistorySpec(base, combos, o1, runs, env).Err? ==> HistorySpec(base, combos, o2, runs, env).Err?
  {
    HistoryFailsIff(base, combos, o1, runs, env);
    HistoryFailsIff(base, combos, o2, runs, env);
    if HistorySpec(base, combos, o1, runs, env).Err? {
      var k :| 0 <= k < |o1| && ScoreSpec(Merge(base, combos[o1[k]]), runs, env).Err?;
      var k2 := Occurs(o2, |combos|, o1[k]);
      assert ScoreSpec(Merge(base, combos[o2[k2]]), runs, env).Err?;
    }
  }

  // ---------------------------------------------------------------------
  // The search

  /** `(best_params, best_score, history)`. */
  datatype Search = Search(bestParams: map<string, real>, bestScore: Float, history: seq<Entry>)

  function SearchSpec(base: Config, grid: Grid, order: seq<nat>, runs: nat, env: Env): Result<Search>
    requires IsComplete(base) && ValidEnv(env) && InRange(order, |Combinations(grid)|)
  {
    match HistorySpec(base, Combinations(grid), order, runs, env)
    case Err(e) => Err(e)
    case Ok(h) => Ok(Search(Track(h).params, Track(h).score, h))
  }

  /** An evaluation whose score is `score` is the entry it adds to the history. */
  lemma EvaluateFrom(base: Config, combo: map<string, real>, runs: nat, env: Env, score: Result<Score>)
    requires IsComplete(base) && ValidEnv(env)
    requires score == ScoreSpec(Merge(base, combo), runs, env)
    ensures score.Err? ==> Evaluate(base, combo, runs, env) == Err(score.error)
    ensures score.Ok? ==> Evaluate(base, combo, runs, env) == Ok(Entry(combo, score.value.mean, score.value.ci))
  {
  }

  lemma TrackStep(h: seq<Entry>, e: Entry)
    ensures Track(h + [e]) == Consider(Track(h), e)
  {
    assert (h + [e])[..|h|] == h;
  }

  /** `run_grid_search`: enumerates the combinations, scores each merged
      configuration and keeps the first strictly lowest score. The
      evaluations run concurrently; `order` is the order in which they
      complete, each combination exactly once. */
  method RunGridSearch(base: Config, grid: Grid, order: seq<nat>, env: Env, runs: nat := 3)
    returns (r: Result<Search>)
    requires IsComplete(base) && ValidEnv(env)
    requires IsPermutation(order, Count(Lists(grid)))
    ensures r == SearchSpec(base, grid, order, runs, env)
  {
    var bestScore := PosInf;
    var bestParams: map<string, real> := map[];
    var history: seq<Entry> := [];
    var combos := Combinations(grid);
    ghost var rows := Evaluations(base, combos, order, runs, env);
    var k := 0;
    while k < |order|
      invariant k <= |order|
      invariant Table(rows[..k]) == Ok(history)
      invariant Track(history) == Best(bestParams, bestScore)
    {
      var params := combos[order[k]];
      var score := RunSimulationMultipleTimes(Merge(base, params), runs, env);
      EvaluateFrom(base, params, runs, env, score);
      assert rows[k] == Evaluate(base, params, runs, env);
      TableSnoc(rows, k, history);
      if score.Err? {
        TableErrorPersists(rows, k + 1);
        return Err(score.error);
      }
      var entry := Entry(params, score.value.mean, score.value.ci);
      TrackStep(history, entry);
      history := history + [entry];
      if score.value.mean.Less(bestScore) {
        bestScore := score.value.mean;
        bestParams := params;
      }
      k := k + 1;
    }
    assert rows[..k] == rows;
    r := Ok(Search(bestParams, bestScore, history));
  }

  /** With at least one run, a search that completes and evaluated something
      reports the first entry of its history with the lowest score. */
  lemma SearchBestIsFirstMinimum(base: Config, grid: Grid, order: seq<nat>, runs: nat, env: Env)
    requires IsComplete(base) && ValidEnv(env) && 0 < runs
    requires InRange(order, |Combinations(grid)|)
    requires SearchSpec(base, grid, order, runs, env).Ok?
    requires SearchSpec(base, grid, order, runs, env).value.history != []
    ensures var s := SearchSpec(base, grid, order, runs, env).value;
      exists k :: IsFirstMinimum(s.history, k)
        && s.bestParams == s.history[k].params && s.bestScore == s.history[k].score
  {
    var h := HistorySpec(base, Combinations(grid), order, runs, env).value;
    HistoryScores(base, Combinations(grid), order, runs, env);
    assert h[0].score.Finite?;
    TrackIsFirstMinimum(h);
  }

  /** A grid with an empty candidate list has no combinations: nothing is
      evaluated and the result is no parameters with a score of +inf. */
  lemma EmptyListGivesNoSearch(base: Config, grid: Grid, order: seq<nat>, runs: nat, env: Env)
    requires IsComplete(base) && ValidEnv(env)
    requires IsPermutation(order, Count(Lists(grid)))
    requires exists i :: 0 <= i < |grid| && grid[i].1 == []
    ensures Combinations(grid) == []
    ensures SearchSpec(base, grid, order, runs, env) == Ok(Search(map[], PosInf, []))
  {
    var i :| 0 <= i < |grid| && grid[i].1 == [];
    CountZero(Lists(grid), i);
    assert |multiset(order)| == 0;
  }

  lemma {:induction false} CountZero(lists: seq<seq<real>>, i: nat)
    requires i < |lists| && lists[i] == []
    ensures Count(lists) == 0
  {
    if i > 0 {
      CountZero(lists[1..], i - 1);
      MulIsProduct(|lists[0]|, 0);
    }
  }

  /** The only ordering of a single evaluation. */
  lemma OrderOfOne(order: seq<nat>)
    requires IsPermutation(order, 1)
    ensures order == [0]
  {
    assert Indices(1) == [0];
    assert |order| == |multiset(order)| == 1;
    assert order[0] in multiset(order);
  }

  /** A grid with no parameters has one combination, the empty one. */
  lemma NoParameterCombinations()
    ensures Count(Lists([])) == 1
    ensures Combinations([]) == [map[]]
  {
    assert Lists([]) == [] && Names([]) == [];
    assert Product([]) == [[]];
    assert Zip([], []) == map[];
  }

  /** With no parameters the base configuration is evaluated once. */
  lemma NoParametersEvaluatesBase(base: Config, order: seq<nat>, runs: nat, env: Env)
    requires IsComplete(base) && ValidEnv(env)
    requires IsPermutation(order, Count(Lists([])))
    ensures order == [0]
    ensures SearchSpec(base, [], order, runs, env).Ok? <==> ScoreSpec(base, runs, env).Ok?
  {
    NoParameterCombinations();
    OrderOfOne(order);
    var combos: seq<map<string, real>> := [map[]];
    assert Merge(base, map[]) == base;
    HistoryFailsIff(base, combos, order, runs, env);
  }

  /** One parameter with one candidate value gives exactly one combination. */
  lemma OneCombination(name: string, value: real)
    ensures Count(Lists([(name, [value])])) == 1
    ensures Combinations([(name, [value])]) == [map[name := value]]
  {
    var grid: Grid := [(name, [value])];
    assert Lists(grid) == [[value]];
    CombinationAt(grid, [0]);
    var m := Combinations(grid)[0];
    assert m.Keys == {name} by {
      assert Names(grid) == [name];
    }
    assert Rank(Lists(grid), [0]) == 0;
    assert m[name] == value;
    assert m == map[name := value];
  }

  /** One parameter with one candidate value: the history has the single
      combination, and with at least one run it is the best. */
  lemma SingleCombinationIsBest(base: Config, name: string, value: real, order: seq<nat>, runs: nat, env: Env)
    requires IsComplete(base) && ValidEnv(env) && 0 < runs
    requires IsPermutation(order, Count(Lists([(name, [value])])))
    requires SearchSpec(base, [(name, [value])], order, runs, env).Ok?
    ensures var s := SearchSpec(base, [(name, [value])], order, runs, env).value;
      && |s.history| == 1
      && s.bestParams == map[name := value] == s.history[0].params
      && s.bestScore == s.history[0].score && s.bestScore.Finite?
  {
    OneCombination(name, value);
    OrderOfOne(order);
    var combos := Combinations([(name, [value])]);
    HistoryScores(base, combos, order, runs, env);
    var h := HistorySpec(base, combos, order, runs, env).value;
    assert h[..0] == [];
    assert Track(h) == Consider(Best(map[], PosInf), h[0]);
  }
}
