/** The fast solver: one continuous sweep of discovered values against the
    base values, first-writer-wins caching, and a halt as soon as a produced
    result equals the target. */
module FastSearch {
  import opened Values
  import opened Operations
  import opened Expressions

  /** The two fields `iterate_until` changes: the discovery list and the
      cache from each discovered value to the first operation that produced
      it. */
  datatype FastState = FastState(inputs: seq<Value>, cache: map<Value, Operation>)

  /** `t` extends `s`: the discovery list only grows at its end and no cache
      entry is replaced or removed. */
  ghost predicate Grows(s: FastState, t: FastState)
  {
    && |s.inputs| <= |t.inputs| && t.inputs[..|s.inputs|] == s.inputs
    && forall x {:trigger s.cache[x]} :: x in s.cache ==> x in t.cache && t.cache[x] == s.cache[x]
  }

  /** Extending is transitive. */
  lemma GrowsTransitive(s: FastState, t: FastState, u: FastState)
    requires Grows(s, t) && Grows(t, u)
    ensures Grows(s, u)
  {
    assert u.inputs[..|s.inputs|] == u.inputs[..|t.inputs|][..|s.inputs|];
  }

  /** The first-writer-wins insertion: a result not yet cached is recorded
      with the operation that produced it and appended to the discovery list;
      a cached result keeps the operation recorded first. */
  function Offer(s: FastState, r: Value, op: Operation): (t: FastState)
    ensures Grows(s, t)
    ensures t.cache.Keys == s.cache.Keys + {r}
    ensures t.cache[r] == if r in s.cache then s.cache[r] else op
    ensures t.inputs == if r in s.cache then s.inputs else s.inputs + [r]
  {
    if r in s.cache then s else FastState(s.inputs + [r], s.cache[r := op])
  }

  /** The innermost loop of `iterate_until`: the candidates in order, each
      checked success offered to the cache; `true` as soon as a success
      equals `target`, whether it was cached before or not. */
  function TryAll(s: FastState, cands: seq<(Option<Value>, Operation)>, target: Value)
    : (r: (bool, FastState))
    ensures Grows(s, r.1)
    ensures r.0 ==> target in r.1.cache
    ensures !r.0 ==> forall k :: 0 <= k < |cands| && cands[k].0.Some? ==>
      cands[k].0.value != target && cands[k].0.value in r.1.cache
    decreases |cands|
  {
    if cands == [] then (false, s)
    else if cands[0].0.Some? then
      var t := Offer(s, cands[0].0.value, cands[0].1);
      if cands[0].0.value == target then (true, t)
      else
        var p := TryAll(t, cands[1..], target);
        GrowsTransitive(s, t, p.1);
        p
    else TryAll(s, cands[1..], target)
  }

  /** One combination of a left value `a` and a base value `b`. */
  function Pair(s: FastState, a: Value, b: Value, target: Value): (r: (bool, FastState))
    ensures Grows(s, r.1)
    ensures r.0 ==> target in r.1.cache
  {
    TryAll(s, Candidates(a, b), target)
  }

  /** The middle loop: `a` against every value of `bs`, in order. */
  function Row(s: FastState, a: Value, bs: seq<Value>, target: Value): (r: (bool, FastState))
    ensures Grows(s, r.1)
    ensures r.0 ==> target in r.1.cache
    decreases |bs|
  {
    if bs == [] then (false, s)
    else
      var p := Pair(s, a, bs[0], target);
      if p.0 then p
      else
        var q := Row(p.1, a, bs[1..], target);
        GrowsTransitive(s, p.1, q.1);
        q
  }

  /** One pass of the outer loop: every value of `lefts`, in order, against
      every base value. */
  function Pass(s: FastState, lefts: seq<Value>, base: seq<Value>, target: Value)
    : (r: (bool, FastState))
    ensures Grows(s, r.1)
    ensures r.0 ==> target in r.1.cache
    decreases |lefts|
  {
    if lefts == [] then (false, s)
    else
      var p := Row(s, lefts[0], base, target);
      if p.0 then p
      else
        var q := Pass(p.1, lefts[1..], base, target);
        GrowsTransitive(s, p.1, q.1);
        q
  }

  /** `iterate_until`: passes over the values discovered when each pass
      starts, until a produced result equals `target`; at most `fuel`
      passes. */
  function Run(s: FastState, base: seq<Value>, target: Value, fuel: nat): (r: (bool, FastState))
    ensures Grows(s, r.1)
    ensures r.0 ==> target in r.1.cache
    decreases fuel
  {
    if fuel == 0 then (false, s)
    else
      var p := Pass(s, s.inputs, base, target);
      if p.0 then p
      else
        var q := Run(p.1, base, target, fuel - 1);
        GrowsTransitive(s, p.1, q.1);
        q
  }

  /** The position at which each value of `s` first occurs. */
  ghost function Rank(s: seq<Value>): (m: map<Value, nat>)
    ensures forall x :: x in m <==> x in s
    ensures forall x :: x in m ==> m[x] < |s| && s[m[x]] == x
    decreases |s|
  {
    if s == [] then map[]
    else
      var init, x := s[..|s| - 1], s[|s| - 1];
      assert s == init + [x];
      var m := Rank(init);
      if x in m then m else m[x := |s| - 1]
  }

  /** A value new to the list is ranked last. */
  lemma RankSnoc(s: seq<Value>, x: Value)
    requires x !in s
    ensures Rank(s + [x]) == Rank(s)[x := |s|]
  {
    assert (s + [x])[..|s|] == s;
  }

  /** The left operand of every recorded operation is cached and ranked
      before its result. This is what makes the reconstruction recursion
      terminate. */
  ghost predicate Ranked(cache: map<Value, Operation>, rank: map<Value, nat>)
  {
    forall r {:trigger cache[r]} :: r in cache ==>
      r in rank &&
      (cache[r].IsBinary() ==> cache[r].a in cache && cache[r].a in rank && rank[cache[r].a] < rank[r])
  }

  /** Every recorded operation evaluates, with checked arithmetic, to the
      value it is recorded under, and its right operand is a base value; an
      `Identity` is recorded only under its own base value. */
  ghost predicate Sound(base: seq<Value>, cache: map<Value, Operation>)
  {
    forall r {:trigger cache[r]} :: r in cache ==>
      (cache[r].Identity? ==> cache[r].v == r && r in base) &&
      (cache[r].IsBinary() ==> cache[r].Evaluate() == Some(r) && cache[r].b in base)
  }

  /** The fast solver's invariant: the discovered values are exactly the
      cached ones, every base value is cached as an `Identity`, and every
      entry is sound and ranked after its left operand. */
  ghost predicate FastValid(base: seq<Value>, s: FastState)
  {
    && (forall x :: x in s.cache <==> x in s.inputs)
    && (forall x :: x in base ==> x in s.cache && s.cache[x] == Identity(x))
    && Ranked(s.cache, Rank(s.inputs))
    && Sound(base, s.cache)
  }

  /** The cache a fresh solver starts from: each base value as itself. */
  function Seed(base: seq<Value>): (cache: map<Value, Operation>)
    ensures forall x :: x in cache <==> x in base
    ensures forall x :: x in cache ==> cache[x] == Identity(x)
  {
    map x | x in base :: Identity(x)
  }

  /** A fresh solver satisfies the invariant. */
  lemma SeedValid(base: seq<Value>)
    ensures FastValid(base, FastState(base, Seed(base)))
  {
  }

  lemma InsertKeepsRanked(inputs: seq<Value>, cache: map<Value, Operation>, r: Value, op: Operation)
    requires forall x :: x in cache <==> x in inputs
    requires Ranked(cache, Rank(inputs))
    requires r !in cache && op.IsBinary() && op.a in cache
    ensures Ranked(cache[r := op], Rank(inputs + [r]))
  {
    RankSnoc(inputs, r);
    var cache', rank, rank' := cache[r := op], Rank(inputs), Rank(inputs + [r]);
    forall q | q in cache'
      ensures q in rank' && (cache'[q].IsBinary() ==>
        cache'[q].a in cache' && cache'[q].a in rank' && rank'[cache'[q].a] < rank'[q])
    {
      if q != r {
        assert cache'[q] == cache[q];
      } else {
        assert rank[op.a] < |inputs|;
      }
    }
  }

  lemma InsertKeepsSound(base: seq<Value>, cache: map<Value, Operation>, r: Value, op: Operation)
    requires Sound(base, cache)
    requires op.IsBinary() && op.b in base && op.Evaluate() == Some(r)
    ensures Sound(base, cache[r := op])
  {
  }

  /** Offering a checked result of a cached value and a base value keeps the
      invariant. */
  lemma OfferKeepsValid(base: seq<Value>, s: FastState, r: Value, op: Operation)
    requires FastValid(base, s)
    requires op.IsBinary() && op.a in s.cache && op.b in base && op.Evaluate() == Some(r)
    ensures FastValid(base, Offer(s, r, op))
  {
    if r !in s.cache {
      InsertKeepsRanked(s.inputs, s.cache, r, op);
      InsertKeepsSound(base, s.cache, r, op);
    }
  }

  /** A candidate of a step from a cached value and a base value. */
  ghost predicate Offerable(base: seq<Value>, s: FastState, c: (Option<Value>, Operation))
  {
    c.1.IsBinary() && c.1.a in s.cache && c.1.b in base && c.0 == c.1.Evaluate()
  }

  lemma {:induction false} TryAllKeepsValid(base: seq<Value>, s: FastState,
                                            cands: seq<(Option<Value>, Operation)>, target: Value)
    requires FastValid(base, s)
    requires forall k :: 0 <= k < |cands| ==> Offerable(base, s, cands[k])
    ensures FastValid(base, TryAll(s, cands, target).1)
    decreases |cands|
  {
    if cands != [] {
      if cands[0].0.Some? {
        var t := Offer(s, cands[0].0.value, cands[0].1);
        OfferKeepsValid(base, s, cands[0].0.value, cands[0].1);
        if cands[0].0.value != target {
          TryAllKeepsValid(base, t, cands[1..], target);
        }
      } else {
        TryAllKeepsValid(base, s, cands[1..], target);
      }
    }
  }

  lemma {:induction false} RowKeepsValid(base: seq<Value>, s: FastState, a: Value, bs: seq<Value>,
                                         target: Value)
    requires FastValid(base, s) && a in s.cache
    requires forall j :: 0 <= j < |bs| ==> bs[j] in base
    ensures FastValid(base, Row(s, a, bs, target).1)
    decreases |bs|
  {
    if bs != [] {
      var c := Candidates(a, bs[0]);
      TryAllKeepsValid(base, s, c, target);
      var p := Pair(s, a, bs[0], target);
      if !p.0 {
        RowKeepsValid(base, p.1, a, bs[1..], target);
      }
    }
  }

  lemma {:induction false} PassKeepsValid(base: seq<Value>, s: FastState, lefts: seq<Value>,
                                          target: Value)
    requires FastValid(base, s)
    requires forall i :: 0 <= i < |lefts| ==> lefts[i] in s.cache
    ensures FastValid(base, Pass(s, lefts, base, target).1)
    decreases |lefts|
  {
    if lefts != [] {
      RowKeepsValid(base, s, lefts[0], base, target);
      var p := Row(s, lefts[0], base, target);
      if !p.0 {
        PassKeepsValid(base, p.1, lefts[1..], target);
      }
    }
  }

  /** `iterate_until` keeps the invariant, however many passes it makes. */
  lemma {:induction false} RunKeepsValid(base: seq<Value>, s: FastState, target: Value, fuel: nat)
    requires FastValid(base, s)
    ensures FastValid(base, Run(s, base, target, fuel).1)
    decreases fuel
  {
    if fuel > 0 {
      PassKeepsValid(base, s, s.inputs, target);
      var p := Pass(s, s.inputs, base, target);
      if !p.0 {
        RunKeepsValid(base, p.1, target, fuel - 1);
        assert Run(s, base, target, fuel) == Run(p.1, base, target, fuel - 1);
      } else {
        assert Run(s, base, target, fuel) == p;
      }
    }
  }

  /** One combination halts exactly when `target` is among the values it
      produces; when it does not halt, all of them are cached. */
  lemma PairOutcome(s: FastState, a: Value, b: Value, target: Value)
    ensures Pair(s, a, b, target).0 <==> target in Produced(a, b)
    ensures !Pair(s, a, b, target).0 ==> Produced(a, b) <= Pair(s, a, b, target).1.cache.Keys
  {
    var c := Candidates(a, b);
    var p := Pair(s, a, b, target);
    if p.0 {
      TryAllHit(s, c, target);
    }
  }

  /** A candidate list halts only at a success equal to `target`. */
  lemma {:induction false} TryAllHit(s: FastState, cands: seq<(Option<Value>, Operation)>, target: Value)
    requires TryAll(s, cands, target).0
    ensures exists k :: 0 <= k < |cands| && cands[k].0 == Some(target)
    decreases |cands|
  {
    if cands[0].0 != Some(target) {
      var t := if cands[0].0.Some? then Offer(s, cands[0].0.value, cands[0].1) else s;
      TryAllHit(t, cands[1..], target);
      var k :| 0 <= k < |cands[1..]| && cands[1..][k].0 == Some(target);
      assert cands[k + 1].0 == Some(target);
    }
  }

  /** A row halts exactly when one of its combinations produces `target`;
      when it does not halt, everything it produced is cached. */
  lemma {:induction false} RowOutcome(s: FastState, a: Value, bs: seq<Value>, target: Value)
    ensures Row(s, a, bs, target).0 <==> exists j :: 0 <= j < |bs| && target in Produced(a, bs[j])
    ensures !Row(s, a, bs, target).0 ==>
      forall j :: 0 <= j < |bs| ==> Produced(a, bs[j]) <= Row(s, a, bs, target).1.cache.Keys
    decreases |bs|
  {
    if bs != [] {
      PairOutcome(s, a, bs[0], target);
      var p := Pair(s, a, bs[0], target);
      if !p.0 {
        RowOutcome(p.1, a, bs[1..], target);
        var q := Row(p.1, a, bs[1..], target);
        if exists j :: 0 <= j < |bs| && target in Produced(a, bs[j]) {
          var j :| 0 <= j < |bs| && target in Produced(a, bs[j]);
          assert bs[j] == bs[1..][j - 1];
        }
        forall j | 0 <= j < |bs| && !q.0
          ensures Produced(a, bs[j]) <= q.1.cache.Keys
        {
          if j > 0 {
            assert bs[j] == bs[1..][j - 1];
          }
        }
      }
    }
  }

  /** A pass halts exactly when one of its combinations produces `target`. */
  lemma {:induction false} PassHalts(s: FastState, lefts: seq<Value>, base: seq<Value>, target: Value)
    ensures Pass(s, lefts, base, target).0 <==>
      exists i, j :: 0 <= i < |lefts| && 0 <= j < |base| && target in Produced(lefts[i], base[j])
    decreases |lefts|
  {
    if lefts != [] {
      RowOutcome(s, lefts[0], base, target);
      var p := Row(s, lefts[0], base, target);
      if !p.0 {
        PassHalts(p.1, lefts[1..], base, target);
        if exists i, j :: 0 <= i < |lefts| && 0 <= j < |base| && target in Produced(lefts[i], base[j]) {
          var i, j :| 0 <= i < |lefts| && 0 <= j < |base| && target in Produced(lefts[i], base[j]);
          assert lefts[i] == lefts[1..][i - 1];
        }
      }
    }
  }

  /** A pass that does not halt leaves every value it produced cached. */
  lemma {:induction false} PassCovers(s: FastState, lefts: seq<Value>, base: seq<Value>, target: Value)
    requires !Pass(s, lefts, base, target).0
    ensures forall i, j :: 0 <= i < |lefts| && 0 <= j < |base| ==>
      Produced(lefts[i], base[j]) <= Pass(s, lefts, base, target).1.cache.Keys
    decreases |lefts|
  {
    if lefts != [] {
      RowOutcome(s, lefts[0], base, target);
      var p := Row(s, lefts[0], base, target);
      PassCovers(p.1, lefts[1..], base, target);
      var q := Pass(p.1, lefts[1..], base, target);
      forall i, j | 0 <= i < |lefts| && 0 <= j < |base|
        ensures Produced(lefts[i], base[j]) <= q.1.cache.Keys
      {
        if i > 0 {
          assert lefts[i] == lefts[1..][i - 1];
        }
      }
    }
  }

  /** More passes never change a search that has already halted. */
  lemma {:induction false} RunSettled(s: FastState, base: seq<Value>, target: Value, fuel: nat, more: nat)
    requires fuel <= more && Run(s, base, target, fuel).0
    ensures Run(s, base, target, more) == Run(s, base, target, fuel)
    decreases fuel
  {
    var p := Pass(s, s.inputs, base, target);
    if !p.0 {
      RunSettled(p.1, base, target, fuel - 1, more - 1);
    }
  }

  /** The string `format_solution` builds for a cached value: the numeral of
      a base value, or `"(L s b)"` with `L` rebuilt from the left operand and
      the right operand printed as a numeral. */
  function FastFormat(cache: map<Value, Operation>, ghost rank: map<Value, nat>, v: Value): (s: string)
    requires Ranked(cache, rank) && v in cache
    ensures |s| >= 1
    ensures s[0] == '(' <==> cache[v].IsBinary()
    decreases rank[v]
  {
    match cache[v]
    case Identity(x) => Decimal(x)
    case Addition(a, b) => Parenthesize(FastFormat(cache, rank, a), '+', Decimal(b))
    case Multiplication(a, b) => Parenthesize(FastFormat(cache, rank, a), '*', Decimal(b))
    case Subtraction(a, b) => Parenthesize(FastFormat(cache, rank, a), '-', Decimal(b))
    case Exponentiation(a, b) => Parenthesize(FastFormat(cache, rank, a), '^', Decimal(b))
  }

  /** The reconstructed string of a cached value is the printed form of a
      left-deep chain over the base values that evaluates, without overflow,
      to that value. */
  lemma {:induction false} FastFormatDerives(base: seq<Value>, cache: map<Value, Operation>,
                                             rank: map<Value, nat>, v: Value)
    returns (e: Expr)
    requires Ranked(cache, rank) && Sound(base, cache) && v in cache
    ensures Show(e) == FastFormat(cache, rank, v)
    ensures Eval(e) == Some(v)
    ensures Chain(e, base)
    decreases rank[v]
  {
    var op := cache[v];
    if op.Identity? {
      e := Num(v);
    } else {
      var l := FastFormatDerives(base, cache, rank, op.a);
      e := Bin(op.Kind(), l, Num(op.b));
      assert Eval(Num(op.b)) == Some(op.b);
    }
  }

  class FastSolver {
    const base: seq<Value>
    var inputs: seq<Value>
    var cache: map<Value, Operation>

    function State(): FastState
      reads this
    {
      FastState(inputs, cache)
    }

    ghost predicate Valid()
      reads this
    {
      FastValid(base, State())
    }

    /** `FastSolver::new`: the discovery list starts as the base values, each
        cached as an `Identity`. */
    constructor (base: seq<Value>)
      ensures Valid()
      ensures this.base == base && inputs == base && cache == Seed(base)
    {
      this.base := base;
      inputs := base;
      cache := Seed(base);
      SeedValid(base);
    }

    /** The insertion step of `iterate_until`: records `r` with `op` and
        appends it to the discovery list unless `r` is cached already. */
    method Record(r: Value, op: Operation)
      modifies this
      ensures State() == Offer(old(State()), r, op)
    {
      if r !in cache {
        cache := cache[r := op];
        inputs := inputs + [r];
      }
    }

    /** The four checked results of `a` and `b`, in order. */
    method Step(a: Value, b: Value, target: Value) returns (hit: bool)
      modifies this
      ensures (hit, State()) == Pair(old(State()), a, b, target)
    {
      var c := Candidates(a, b);
      for k := 0 to 4
        invariant TryAll(old(State()), c, target) == TryAll(State(), c[k..], target)
      {
        assert c[k..][1..] == c[k + 1..];
        if c[k].0.Some? {
          var r := c[k].0.value;
          Record(r, c[k].1);
          if target == r {
            return true;
          }
        }
      }
      return false;
    }

    /** One pass: every value discovered before the pass, left, against every
        base value, right. */
    method Sweep(target: Value) returns (hit: bool)
      modifies this
      ensures (hit, State()) == Pass(old(State()), old(inputs), base, target)
    {
      ghost var lefts := inputs;
      var n := |inputs|;
      for i := 0 to n
        invariant Grows(old(State()), State())
        invariant Pass(old(State()), lefts, base, target) == Pass(State(), lefts[i..], base, target)
      {
        assert lefts[i..][1..] == lefts[i + 1..];
        assert inputs[i] == lefts[i];
        var a := inputs[i];
        ghost var before := State();
        for j := 0 to |base|
          invariant Grows(before, State())
          invariant Row(before, a, base, target) == Row(State(), a, base[j..], target)
        {
          assert base[j..][1..] == base[j + 1..];
          hit := Step(a, base[j], target);
          if hit {
            return;
          }
        }
        GrowsTransitive(old(State()), before, State());
      }
      return false;
    }

    /** `iterate_until`: passes until a produced result equals `target`. The
        source loops for ever when that never happens; here at most `fuel`
        passes run and `found` says whether the halt was reached. */
    method IterateUntil(target: Value, fuel: nat) returns (found: bool)
      requires Valid()
      modifies this
      ensures Valid()
      ensures (found, State()) == Run(old(State()), base, target, fuel)
    {
      ghost var s0 := State();
      var passes := 0;
      while passes < fuel
        invariant passes <= fuel
        invariant Run(old(State()), base, target, fuel) == Run(State(), base, target, fuel - passes)
      {
        found := Sweep(target);
        if found {
          RunKeepsValid(base, s0, target, fuel);
          return;
        }
        passes := passes + 1;
      }
      RunKeepsValid(base, s0, target, fuel);
      return false;
    }

    /** `solve`: search, then rebuild the target's expression. The answer is
        the printed form of a chain over the base values that evaluates to
        the target; `None` stands for a search the fuel bound cut short. */
    method Solve(target: Value, fuel: nat) returns (answer: Option<string>)
      requires Valid()
      modifies this
      ensures Valid()
      ensures State() == Run(old(State()), base, target, fuel).1
      ensures answer.Some? <==> Run(old(State()), base, target, fuel).0
      ensures answer.Some? ==> target in cache && answer.value == FastFormat(cache, Rank(inputs), target)
      ensures answer.Some? ==> exists e :: Show(e) == answer.value && Eval(e) == Some(target) && Chain(e, base)
    {
      var found := IterateUntil(target, fuel);
      if found {
        var s := FastFormat(cache, Rank(inputs), target);
        ghost var e := FastFormatDerives(base, cache, Rank(inputs), target);
        answer := Some(s);
      } else {
        answer := None;
      }
    }
  }
}
