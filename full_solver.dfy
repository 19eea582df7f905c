/** The full solver: level-by-level sweeps that record, for every value,
    all operations reaching it at its lowest level, so that every
    minimal expression can be rebuilt. */
module FullSearch {
  import opened Values
  import opened Operations
  import opened Expressions

  /** `CacheData`: the operations found for a value at its level, and that
      level (its complexity). */
  datatype CacheData = CacheData(operations: seq<Operation>, complexity: nat)

  /** The two collections `iterate_until` changes: the discovery list and
      the cache. */
  datatype FullState = FullState(inputs: seq<Value>, cache: map<Value, CacheData>)

  /** The four-way compare-and-update of an existing entry with an operation
      found at `level`: an entry at `level` gains the operation at its end,
      an entry above `level` is replaced by the operation alone at `level`,
      and an entry below `level` is left alone. */
  function Merge(d: CacheData, op: Operation, level: nat): (m: CacheData)
    ensures m.complexity == if d.complexity < level then d.complexity else level
    ensures d.complexity <= level ==>
      |d.operations| <= |m.operations| && m.operations[..|d.operations|] == d.operations
    ensures d.complexity >= level ==> m.operations != [] && m.operations[|m.operations| - 1] == op
    ensures d.complexity < level ==> m == d
    ensures d.complexity == level ==> m.operations == d.operations + [op]
    ensures d.complexity > level ==> m == CacheData([op], level)
  {
    if d.complexity == level then CacheData(d.operations + [op], d.complexity)
    else if d.complexity > level then CacheData([op], level)
    else d
  }

  /** The discovery list of `t` starts with that of `s`. */
  ghost predicate Appends(s: FullState, t: FullState)
  {
    |s.inputs| <= |t.inputs| && t.inputs[..|s.inputs|] == s.inputs
  }

  lemma AppendsTransitive(s: FullState, t: FullState, u: FullState)
    requires Appends(s, t) && Appends(t, u)
    ensures Appends(s, u)
  {
    assert u.inputs[..|s.inputs|] == u.inputs[..|t.inputs|][..|s.inputs|];
  }

  /** `s` becomes `t` during a sweep at `level`: the discovery list only
      grows at its end, every value stays cached, a value newly cached gets
      complexity `level`, and an entry at most at `level` keeps its
      complexity and only gains operations at its end. */
  ghost predicate FullGrows(s: FullState, t: FullState, level: nat)
  {
    && Appends(s, t)
    && (forall x {:trigger t.cache[x]} :: x in t.cache && x !in s.cache ==> t.cache[x].complexity == level)
    && (forall x {:trigger s.cache[x]} :: x in s.cache ==>
         (x in t.cache && (s.cache[x].complexity <= level ==> Extends(s.cache[x], t.cache[x]))))
  }

  /** `e` keeps the complexity of `d` and its operations start with those
      of `d`. */
  ghost predicate Extends(d: CacheData, e: CacheData)
  {
    e.complexity == d.complexity && |d.operations| <= |e.operations| &&
    e.operations[..|d.operations|] == d.operations
  }

  lemma FullGrowsTransitive(s: FullState, t: FullState, u: FullState, level: nat)
    requires FullGrows(s, t, level) && FullGrows(t, u, level)
    ensures FullGrows(s, u, level)
  {
    AppendsTransitive(s, t, u);
    forall x | x in s.cache && s.cache[x].complexity <= level
      ensures Extends(s.cache[x], u.cache[x])
    {
      var d, e, f := s.cache[x], t.cache[x], u.cache[x];
      assert f.operations[..|d.operations|] == f.operations[..|e.operations|][..|d.operations|];
    }
  }

  /** The entry update of one checked result `r` found at `level`
      (the `entry` call): absent, it is inserted with `[op]` and appended to
      the discovery list; present, it is merged. */
  function Absorb(s: FullState, r: Value, op: Operation, level: nat): (t: FullState)
    ensures Appends(s, t)
    ensures t.cache.Keys == s.cache.Keys + {r}
  {
    if r in s.cache then FullState(s.inputs, s.cache[r := Merge(s.cache[r], op, level)])
    else FullState(s.inputs + [r], s.cache[r := CacheData([op], level)])
  }

  /** The innermost loop: every checked success among the candidates is
      absorbed, in order. */
  function Combine(s: FullState, cands: seq<(Option<Value>, Operation)>, level: nat): (t: FullState)
    ensures Appends(s, t)
    decreases |cands|
  {
    if cands == [] then s
    else
      var t := if cands[0].0.Some? then Absorb(s, cands[0].0.value, cands[0].1, level) else s;
      var u := Combine(t, cands[1..], level);
      AppendsTransitive(s, t, u);
      u
  }

  /** One combination of a left value `a` and a base value `b`. */
  function FullPair(s: FullState, a: Value, b: Value, level: nat): (t: FullState)
    ensures Appends(s, t)
  {
    Combine(s, Candidates(a, b), level)
  }

  /** The middle loop: `a` against every value of `bs`, in order. */
  function FullRow(s: FullState, a: Value, bs: seq<Value>, level: nat): (t: FullState)
    ensures Appends(s, t)
    decreases |bs|
  {
    if bs == [] then s
    else
      var t := FullPair(s, a, bs[0], level);
      var u := FullRow(t, a, bs[1..], level);
      AppendsTransitive(s, t, u);
      u
  }

  /** One sweep at `level`: every value of `lefts`, in order, against every
      base value. */
  function FullPass(s: FullState, lefts: seq<Value>, base: seq<Value>, level: nat): (t: FullState)
    ensures Appends(s, t)
    decreases |lefts|
  {
    if lefts == [] then s
    else
      var t := FullRow(s, lefts[0], base, level);
      var u := FullPass(t, lefts[1..], base, level);
      AppendsTransitive(s, t, u);
      u
  }

  /** `iterate_until`: while `target` is not cached, one sweep at the
      current level over the values discovered so far, then the next level;
      at most `fuel` sweeps. Gives the final state and level. */
  function Climb(s: FullState, level: nat, base: seq<Value>, target: Value, fuel: nat)
    : (r: (FullState, nat))
    ensures target in s.cache ==> r == (s, level)
    ensures level <= r.1 <= level + fuel
    decreases fuel
  {
    if target in s.cache || fuel == 0 then (s, level)
    else Climb(FullPass(s, s.inputs, base, level), level + 1, base, target, fuel - 1)
  }

  /** One round of the climb: a sweep at `level`, then the rest from
      `level + 1`. */
  lemma ClimbStep(s: FullState, level: nat, base: seq<Value>, target: Value, fuel: nat)
    requires target !in s.cache && fuel > 0
    ensures Climb(s, level, base, target, fuel)
         == Climb(FullPass(s, s.inputs, base, level), level + 1, base, target, fuel - 1)
  {
  }

  /** A climb that stops short of its fuel has cached the target: the
      level rises by exactly one per sweep. */
  lemma {:induction false} ClimbLevel(s: FullState, level: nat, base: seq<Value>, target: Value, fuel: nat)
    ensures target !in Climb(s, level, base, target, fuel).0.cache ==>
      Climb(s, level, base, target, fuel).1 == level + fuel
    decreases fuel
  {
    if target !in s.cache && fuel > 0 {
      ClimbLevel(FullPass(s, s.inputs, base, level), level + 1, base, target, fuel - 1);
    }
  }

  /** The cache a fresh solver starts from: each base value at complexity
      0 with the single operation `Identity`. */
  function FullSeed(base: seq<Value>): (cache: map<Value, CacheData>)
    ensures forall x :: x in cache <==> x in base
    ensures forall x :: x in cache ==> cache[x] == CacheData([Identity(x)], 0)
  {
    map x | x in base :: CacheData([Identity(x)], 0)
  }

  /** Absorbing a result at `level` only extends the state. */
  lemma AbsorbGrows(s: FullState, r: Value, op: Operation, level: nat)
    ensures FullGrows(s, Absorb(s, r, op, level), level)
  {
    var t := Absorb(s, r, op, level);
    forall x | x in s.cache && s.cache[x].complexity <= level
      ensures Extends(s.cache[x], t.cache[x])
    {
      if x != r {
        assert t.cache[x] == s.cache[x];
      }
    }
  }

  /** After absorbing `op` at `level`, its result is cached at most at
      `level`, and `op` is recorded if the result is at `level`. */
  ghost predicate Absorbed(t: FullState, level: nat, r: Value, op: Operation)
  {
    r in t.cache && t.cache[r].complexity <= level &&
    (t.cache[r].complexity == level ==> op in t.cache[r].operations)
  }

  lemma AbsorbRecords(s: FullState, r: Value, op: Operation, level: nat)
    ensures Absorbed(Absorb(s, r, op, level), level, r, op)
  {
    var t := Absorb(s, r, op, level);
    if r in s.cache && s.cache[r].complexity >= level {
      assert op == t.cache[r].operations[|t.cache[r].operations| - 1];
    } else if r !in s.cache {
      assert t.cache[r].operations == [op];
    }
  }

  /** What is absorbed stays absorbed while the state extends. */
  lemma AbsorbedStays(t: FullState, u: FullState, level: nat, r: Value, op: Operation)
    requires Absorbed(t, level, r, op) && FullGrows(t, u, level)
    ensures Absorbed(u, level, r, op)
  {
    var d, e := t.cache[r], u.cache[r];
    assert Extends(d, e);
    if d.complexity == level {
      var k :| 0 <= k < |d.operations| && d.operations[k] == op;
      assert e.operations[k] == e.operations[..|d.operations|][k];
    }
  }

  lemma {:induction false} CombineGrows(s: FullState, cands: seq<(Option<Value>, Operation)>, level: nat)
    ensures FullGrows(s, Combine(s, cands, level), level)
    decreases |cands|
  {
    if cands != [] {
      var t := if cands[0].0.Some? then Absorb(s, cands[0].0.value, cands[0].1, level) else s;
      if cands[0].0.Some? {
        AbsorbGrows(s, cands[0].0.value, cands[0].1, level);
      }
      CombineGrows(t, cands[1..], level);
      FullGrowsTransitive(s, t, Combine(t, cands[1..], level), level);
    }
  }

  lemma {:induction false} RowGrows(s: FullState, a: Value, bs: seq<Value>, level: nat)
    ensures FullGrows(s, FullRow(s, a, bs, level), level)
    decreases |bs|
  {
    if bs != [] {
      var t := FullPair(s, a, bs[0], level);
      CombineGrows(s, Candidates(a, bs[0]), level);
      RowGrows(t, a, bs[1..], level);
      FullGrowsTransitive(s, t, FullRow(t, a, bs[1..], level), level);
    }
  }

  lemma {:induction false} PassGrows(s: FullState, lefts: seq<Value>, base: seq<Value>, level: nat)
    ensures FullGrows(s, FullPass(s, lefts, base, level), level)
    decreases |lefts|
  {
    if lefts != [] {
      var t := FullRow(s, lefts[0], base, level);
      RowGrows(s, lefts[0], base, level);
      PassGrows(t, lefts[1..], base, level);
      FullGrowsTransitive(s, t, FullPass(t, lefts[1..], base, level), level);
    }
  }

  /** The cache holds exactly the discovered values. */
  ghost predicate Keyed(s: FullState)
  {
    forall x :: x in s.cache <==> x in s.inputs
  }

  /** Every base value is cached at complexity 0 as itself, and only as
      itself. */
  ghost predicate BaseEntries(base: seq<Value>, cache: map<Value, CacheData>)
  {
    forall x :: x in base ==> x in cache && cache[x] == CacheData([Identity(x)], 0)
  }

  /** Every entry has operations, a complexity of at most `level`, and
      complexity 0 only for a base value. */
  ghost predicate Levels(base: seq<Value>, cache: map<Value, CacheData>, level: nat)
  {
    forall r {:trigger cache[r]} :: r in cache ==>
      cache[r].operations != [] && cache[r].complexity <= level &&
      (cache[r].complexity == 0 ==> r in base)
  }

  /** A recorded operation of `r`: an `Identity` of `r` itself at
      complexity 0, or a checked step that evaluates to `r` from a cached
      left operand one level below `r` and a base value. */
  ghost predicate OpSound(base: seq<Value>, cache: map<Value, CacheData>, r: Value, op: Operation)
    requires r in cache
  {
    && (op.Identity? ==> op.v == r && cache[r].complexity == 0)
    && (op.IsBinary() ==>
         op.Evaluate() == Some(r) && op.b in base && op.a in cache &&
         cache[op.a].complexity + 1 == cache[r].complexity)
  }

  ghost predicate OpsSound(base: seq<Value>, cache: map<Value, CacheData>)
  {
    forall r, k {:trigger cache[r].operations[k]} ::
      r in cache && 0 <= k < |cache[r].operations| ==> OpSound(base, cache, r, cache[r].operations[k])
  }

  /** Every sweep below `level` is done: a result of a value cached at
      complexity `c` with `c + 1 < level` is cached at complexity at most
      `c + 1`. */
  ghost predicate Closed(base: seq<Value>, cache: map<Value, CacheData>, level: nat)
  {
    forall a, b, r ::
      (a in cache && b in base && r in Produced(a, b) && cache[a].complexity + 1 < level) ==>
      (r in cache && cache[r].complexity <= cache[a].complexity + 1)
  }

  /** Every step reaching a value below `level` from a left operand one
      level lower is recorded for it. */
  ghost predicate Complete(base: seq<Value>, cache: map<Value, CacheData>, level: nat)
  {
    forall r, op: Operation ::
      (r in cache && op.IsBinary() && op.a in cache && op.b in base && op.Evaluate() == Some(r) &&
       cache[r].complexity < level && cache[op.a].complexity + 1 == cache[r].complexity) ==>
      op in cache[r].operations
  }

  /** The invariant during the sweep at `level`. */
  ghost predicate Partial(base: seq<Value>, s: FullState, level: nat)
  {
    && 1 <= level
    && Keyed(s)
    && BaseEntries(base, s.cache)
    && Levels(base, s.cache, level)
    && OpsSound(base, s.cache)
    && Closed(base, s.cache, level)
    && Complete(base, s.cache, level)
  }

  /** The invariant between sweeps, with `level` the level of the next
      sweep (`iterations`): the sweeps below it are done and no entry is
      at it yet. */
  ghost predicate FullValid(base: seq<Value>, s: FullState, level: nat)
  {
    && Partial(base, s, level)
    && forall r {:trigger s.cache[r]} :: r in s.cache ==> s.cache[r].complexity < level
  }

  /** Both operands of a recorded step are cached below its result: the
      measure on which `format_solution` recurses. */
  ghost predicate Stratified(cache: map<Value, CacheData>)
  {
    forall v, o :: v in cache && o in cache[v].operations && o.IsBinary() ==>
      o.a in cache && o.b in cache &&
      cache[o.a].complexity < cache[v].complexity && cache[o.b].complexity < cache[v].complexity
  }

  lemma StratifiedFromPartial(base: seq<Value>, s: FullState, level: nat)
    requires Partial(base, s, level)
    ensures Stratified(s.cache)
  {
    forall v, o | v in s.cache && o in s.cache[v].operations && o.IsBinary()
      ensures o.a in s.cache && o.b in s.cache
      ensures s.cache[o.a].complexity < s.cache[v].complexity && s.cache[o.b].complexity < s.cache[v].complexity
    {
      var k :| 0 <= k < |s.cache[v].operations| && s.cache[v].operations[k] == o;
      assert OpSound(base, s.cache, v, o);
    }
  }

  /** A fresh solver satisfies the invariant at level 1. */
  lemma FullSeedValid(base: seq<Value>)
    ensures FullValid(base, FullState(base, FullSeed(base)), 1)
  {
    var cache := FullSeed(base);
    forall r, k | r in cache && 0 <= k < |cache[r].operations|
      ensures OpSound(base, cache, r, cache[r].operations[k])
    {
      assert cache[r].operations == [Identity(r)];
    }
  }

  /** A checked step that may be absorbed at `level`: its left operand is
      cached below `level`, its right operand is a base value, and, by the
      sweeps already done, a result of an operand more than one level
      below is cached low enough already. */
  ghost predicate Fits(base: seq<Value>, s: FullState, level: nat, r: Value, op: Operation)
  {
    && op.IsBinary() && op.Evaluate() == Some(r) && op.b in base
    && op.a in s.cache && s.cache[op.a].complexity < level
    && (s.cache[op.a].complexity + 1 < level ==> r in s.cache && s.cache[r].complexity <= s.cache[op.a].complexity + 1)
  }

  /** `t` is `s` with `op` added for `r` at `level`: as a new entry
      appended to the discovery list, or at the end of an entry already at
      `level`. */
  ghost predicate Updated(s: FullState, t: FullState, level: nat, r: Value, op: Operation)
  {
    && (r in s.cache ==> s.cache[r].complexity == level)
    && t.cache == s.cache[r := CacheData((if r in s.cache then s.cache[r].operations else []) + [op], level)]
    && t.inputs == if r in s.cache then s.inputs else s.inputs + [r]
  }

  lemma UpdateKeepsShape(base: seq<Value>, s: FullState, t: FullState, level: nat, r: Value, op: Operation)
    requires 1 <= level && Keyed(s) && BaseEntries(base, s.cache) && Levels(base, s.cache, level)
    requires Updated(s, t, level, r, op)
    ensures Keyed(t) && BaseEntries(base, t.cache) && Levels(base, t.cache, level)
  {
    assert r !in base;
    forall q | q in t.cache
      ensures t.cache[q].operations != [] && t.cache[q].complexity <= level
      ensures t.cache[q].complexity == 0 ==> q in base
    {
      if q != r {
        assert t.cache[q] == s.cache[q];
      }
    }
  }

  lemma UpdateKeepsOpsSound(base: seq<Value>, s: FullState, t: FullState, level: nat, r: Value, op: Operation)
    requires 1 <= level && OpsSound(base, s.cache)
    requires Updated(s, t, level, r, op)
    requires op.IsBinary() && op.Evaluate() == Some(r) && op.b in base
    requires op.a in s.cache && s.cache[op.a].complexity + 1 == level
    ensures OpsSound(base, t.cache)
  {
    forall q, k | q in t.cache && 0 <= k < |t.cache[q].operations|
      ensures OpSound(base, t.cache, q, t.cache[q].operations[k])
    {
      var o := t.cache[q].operations[k];
      if q != r {
        assert t.cache[q] == s.cache[q];
        assert OpSound(base, s.cache, q, o);
        if o.IsBinary() && o.a == r {
          assert t.cache[o.a].complexity == s.cache[o.a].complexity;
        } else if o.IsBinary() {
          assert t.cache[o.a] == s.cache[o.a];
        }
      } else if k < |t.cache[q].operations| - 1 {
        assert o == s.cache[r].operations[k];
        assert OpSound(base, s.cache, q, o);
        if o.IsBinary() {
          assert t.cache[o.a] == s.cache[o.a];
        }
      } else {
        assert o == op;
        assert t.cache[op.a] == s.cache[op.a];
      }
    }
  }

  lemma UpdateKeepsClosed(base: seq<Value>, s: FullState, t: FullState, level: nat, r: Value, op: Operation)
    requires Closed(base, s.cache, level)
    requires Updated(s, t, level, r, op)
    ensures Closed(base, t.cache, level)
  {
    forall a, b, x | a in t.cache && b in base && x in Produced(a, b) && t.cache[a].complexity + 1 < level
      ensures x in t.cache && t.cache[x].complexity <= t.cache[a].complexity + 1
    {
      assert a != r && t.cache[a] == s.cache[a];
      if x != r {
        assert t.cache[x] == s.cache[x];
      }
    }
  }

  lemma UpdateKeepsComplete(base: seq<Value>, s: FullState, t: FullState, level: nat, r: Value, op: Operation)
    requires Complete(base, s.cache, level)
    requires Updated(s, t, level, r, op)
    ensures Complete(base, t.cache, level)
  {
    forall q, o: Operation | q in t.cache && o.IsBinary() && o.a in t.cache && o.b in base &&
      o.Evaluate() == Some(q) && t.cache[q].complexity < level &&
      t.cache[o.a].complexity + 1 == t.cache[q].complexity
      ensures o in t.cache[q].operations
    {
      assert q != r && t.cache[q] == s.cache[q];
      assert o.a != r && t.cache[o.a] == s.cache[o.a];
    }
  }

  /** A result already cached below `level` leaves the state alone. */
  lemma AbsorbBelow(s: FullState, r: Value, op: Operation, level: nat)
    requires r in s.cache && s.cache[r].complexity < level
    ensures Absorb(s, r, op, level) == s
  {
    assert Absorb(s, r, op, level).cache == s.cache;
  }

  /** Any other fitting result is added at `level`. */
  lemma AbsorbUpdates(base: seq<Value>, s: FullState, r: Value, op: Operation, level: nat)
    requires Levels(base, s.cache, level) && Fits(base, s, level, r, op)
    requires !(r in s.cache && s.cache[r].complexity < level)
    ensures Updated(s, Absorb(s, r, op, level), level, r, op)
    ensures s.cache[op.a].complexity + 1 == level
  {
    if r in s.cache {
      assert Merge(s.cache[r], op, level) == CacheData(s.cache[r].operations + [op], level);
    } else {
      assert [] + [op] == [op];
    }
  }

  /** Absorbing a step that fits keeps the invariant of the sweep. */
  lemma AbsorbKeepsPartial(base: seq<Value>, s: FullState, level: nat, r: Value, op: Operation)
    requires Partial(base, s, level) && Fits(base, s, level, r, op)
    ensures Partial(base, Absorb(s, r, op, level), level)
  {
    var t := Absorb(s, r, op, level);
    if r in s.cache && s.cache[r].complexity < level {
      AbsorbBelow(s, r, op, level);
    } else {
      AbsorbUpdates(base, s, r, op, level);
      UpdateKeepsShape(base, s, t, level, r, op);
      UpdateKeepsOpsSound(base, s, t, level, r, op);
      UpdateKeepsClosed(base, s, t, level, r, op);
      UpdateKeepsComplete(base, s, t, level, r, op);
    }
  }

  /** A step of the sweep at `level`: a binary operation whose left
      operand is cached below `level` and whose right operand is a base
      value. */
  ghost predicate Eligible(base: seq<Value>, s: FullState, level: nat, o: Operation)
  {
    o.IsBinary() && o.a in s.cache && s.cache[o.a].complexity < level && o.b in base
  }

  /** By the sweeps already done, every checked eligible step fits. */
  lemma FitsFromClosed(base: seq<Value>, s: FullState, level: nat, o: Operation)
    requires Partial(base, s, level) && Eligible(base, s, level, o) && o.Evaluate().Some?
    ensures Fits(base, s, level, o.Evaluate().value, o)
  {
    ProducedByOperators(o.a, o.b);
    assert o.Evaluate().value in Produced(o.a, o.b);
  }

  /** Every checked step with a left operand in `lefts` and a right operand
      in `rights` has been absorbed into `t` at `level`. */
  ghost predicate Covered(t: FullState, level: nat, lefts: seq<Value>, rights: seq<Value>)
  {
    forall o: Operation {:trigger o.Evaluate()} ::
      (o.IsBinary() && o.a in lefts && o.b in rights && o.Evaluate().Some?) ==>
      Absorbed(t, level, o.Evaluate().value, o)
  }

  lemma CoveredStays(t: FullState, u: FullState, level: nat, lefts: seq<Value>, rights: seq<Value>)
    requires Covered(t, level, lefts, rights) && FullGrows(t, u, level)
    ensures Covered(u, level, lefts, rights)
  {
    forall o: Operation | o.IsBinary() && o.a in lefts && o.b in rights && o.Evaluate().Some?
      ensures Absorbed(u, level, o.Evaluate().value, o)
    {
      AbsorbedStays(t, u, level, o.Evaluate().value, o);
    }
  }

  /** An eligible step stays eligible while the state extends. */
  lemma EligibleStays(base: seq<Value>, s: FullState, t: FullState, level: nat, o: Operation)
    requires Eligible(base, s, level, o) && FullGrows(s, t, level)
    ensures Eligible(base, t, level, o)
  {
    assert Extends(s.cache[o.a], t.cache[o.a]);
  }

  /** Absorbing one eligible checked step keeps the sweep invariant and
      the eligibility of the left operand. */
  lemma AbsorbStepKeeps(base: seq<Value>, s: FullState, level: nat, o: Operation)
    requires Partial(base, s, level) && Eligible(base, s, level, o) && o.Evaluate().Some?
    ensures Partial(base, Absorb(s, o.Evaluate().value, o, level), level)
    ensures Eligible(base, Absorb(s, o.Evaluate().value, o, level), level, o)
  {
    FitsFromClosed(base, s, level, o);
    AbsorbKeepsPartial(base, s, level, o.Evaluate().value, o);
    AbsorbGrows(s, o.Evaluate().value, o, level);
    EligibleStays(base, s, Absorb(s, o.Evaluate().value, o, level), level, o);
  }

  /** The checked steps of a left value `a` and a base value `b`, each
      paired with its checked result. */
  ghost predicate StepsOf(cands: seq<(Option<Value>, Operation)>, a: Value, b: Value)
  {
    forall k :: 0 <= k < |cands| ==>
      cands[k].1.IsBinary() && cands[k].1.a == a && cands[k].1.b == b && cands[k].0 == cands[k].1.Evaluate()
  }

  /** The innermost loop over the candidates of a left value `a` and a
      base value `b` keeps the sweep invariant. */
  lemma {:induction false} CombineKeeps(base: seq<Value>, s: FullState, a: Value, b: Value,
                                        cands: seq<(Option<Value>, Operation)>, level: nat)
    requires Partial(base, s, level) && StepsOf(cands, a, b)
    requires a in s.cache && s.cache[a].complexity < level && b in base
    ensures Partial(base, Combine(s, cands, level), level)
    decreases |cands|, 1
  {
    if cands != [] {
      if cands[0].0.Some? {
        CombineKeepsSome(base, s, a, b, cands, level);
      } else {
        assert StepsOf(cands[1..], a, b);
        CombineKeeps(base, s, a, b, cands[1..], level);
        assert Combine(s, cands, level) == Combine(s, cands[1..], level);
      }
    }
  }

  /** The same when the first candidate is a checked success. */
  lemma {:induction false} CombineKeepsSome(base: seq<Value>, s: FullState, a: Value, b: Value,
                                            cands: seq<(Option<Value>, Operation)>, level: nat)
    requires Partial(base, s, level) && StepsOf(cands, a, b)
    requires a in s.cache && s.cache[a].complexity < level && b in base
    requires cands != [] && cands[0].0.Some?
    ensures Partial(base, Combine(s, cands, level), level)
    decreases |cands|, 0
  {
    var o := cands[0].1;
    var t := Absorb(s, cands[0].0.value, o, level);
    AbsorbStepKeeps(base, s, level, o);
    assert StepsOf(cands[1..], a, b);
    CombineKeeps(base, t, a, b, cands[1..], level);
    assert Combine(s, cands, level) == Combine(t, cands[1..], level);
  }

  /** The innermost loop absorbs each checked candidate. */
  lemma {:induction false} CombineAbsorbs(s: FullState, cands: seq<(Option<Value>, Operation)>, level: nat)
    ensures forall k :: 0 <= k < |cands| && cands[k].0.Some? ==>
      Absorbed(Combine(s, cands, level), level, cands[k].0.value, cands[k].1)
    decreases |cands|
  {
    if cands != [] {
      var o := cands[0].1;
      var t := if cands[0].0.Some? then Absorb(s, cands[0].0.value, o, level) else s;
      var rest := cands[1..];
      CombineAbsorbs(t, rest, level);
      var u := Combine(t, rest, level);
      assert Combine(s, cands, level) == u;
      if cands[0].0.Some? {
        AbsorbRecords(s, cands[0].0.value, o, level);
        CombineGrows(t, rest, level);
        AbsorbedStays(t, u, level, cands[0].0.value, o);
      }
      forall k | 1 <= k < |cands| && cands[k].0.Some?
        ensures Absorbed(u, level, cands[k].0.value, cands[k].1)
      {
        assert cands[k] == rest[k - 1];
      }
    }
  }

  /** The candidates of `a` and `b` are exactly their binary operations. */
  lemma CandidateOf(o: Operation)
    requires o.IsBinary()
    ensures exists k :: 0 <= k < 4 && Candidates(o.a, o.b)[k].1 == o
  {
    var c := Candidates(o.a, o.b);
    match o
    case Addition(_, _) => assert c[0].1 == o;
    case Multiplication(_, _) => assert c[1].1 == o;
    case Subtraction(_, _) => assert c[2].1 == o;
    case Exponentiation(_, _) => assert c[3].1 == o;
  }

  lemma PairKeeps(base: seq<Value>, s: FullState, a: Value, b: Value, level: nat)
    requires Partial(base, s, level)
    requires a in s.cache && s.cache[a].complexity < level && b in base
    ensures Partial(base, FullPair(s, a, b, level), level)
  {
    CombineKeeps(base, s, a, b, Candidates(a, b), level);
  }

  /** One combination absorbs every checked step of `a` and `b`. */
  lemma PairAbsorbs(s: FullState, a: Value, b: Value, level: nat)
    ensures Covered(FullPair(s, a, b, level), level, [a], [b])
  {
    var c := Candidates(a, b);
    CombineAbsorbs(s, c, level);
    var t := FullPair(s, a, b, level);
    forall o: Operation | o.IsBinary() && o.a in [a] && o.b in [b] && o.Evaluate().Some?
      ensures Absorbed(t, level, o.Evaluate().value, o)
    {
      CandidateOf(o);
    }
  }

  lemma {:induction false} RowKeeps(base: seq<Value>, s: FullState, a: Value, bs: seq<Value>, level: nat)
    requires Partial(base, s, level)
    requires a in s.cache && s.cache[a].complexity < level
    requires forall b :: b in bs ==> b in base
    ensures Partial(base, FullRow(s, a, bs, level), level)
    ensures Covered(FullRow(s, a, bs, level), level, [a], bs)
    decreases |bs|
  {
    if bs != [] {
      var t := FullPair(s, a, bs[0], level);
      PairKeeps(base, s, a, bs[0], level);
      PairAbsorbs(s, a, bs[0], level);
      CombineGrows(s, Candidates(a, bs[0]), level);
      assert Extends(s.cache[a], t.cache[a]);
      RowKeeps(base, t, a, bs[1..], level);
      var u := FullRow(t, a, bs[1..], level);
      RowGrows(t, a, bs[1..], level);
      CoveredStays(t, u, level, [a], [bs[0]]);
      forall o: Operation | o.IsBinary() && o.a in [a] && o.b in bs && o.Evaluate().Some?
        ensures Absorbed(u, level, o.Evaluate().value, o)
      {
        if o.b != bs[0] {
          assert o.b in bs[1..];
        }
      }
    }
  }

  lemma {:induction false} PassKeeps(base: seq<Value>, s: FullState, lefts: seq<Value>, level: nat)
    requires Partial(base, s, level)
    requires forall a :: a in lefts ==> a in s.cache && s.cache[a].complexity < level
    ensures Partial(base, FullPass(s, lefts, base, level), level)
    ensures Covered(FullPass(s, lefts, base, level), level, lefts, base)
    decreases |lefts|
  {
    if lefts != [] {
      var t := FullRow(s, lefts[0], base, level);
      RowKeeps(base, s, lefts[0], base, level);
      RowGrows(s, lefts[0], base, level);
      forall a | a in lefts[1..]
        ensures a in t.cache && t.cache[a].complexity < level
      {
        assert Extends(s.cache[a], t.cache[a]);
      }
      PassKeeps(base, t, lefts[1..], level);
      var u := FullPass(t, lefts[1..], base, level);
      PassGrows(t, lefts[1..], base, level);
      CoveredStays(t, u, level, [lefts[0]], base);
      forall o: Operation | o.IsBinary() && o.a in lefts && o.b in base && o.Evaluate().Some?
        ensures Absorbed(u, level, o.Evaluate().value, o)
      {
        if o.a != lefts[0] {
          assert o.a in lefts[1..];
        }
      }
    }
  }

  /** After a whole sweep at `level`, every value below `level + 1` is
      closed under the steps. */
  lemma LevelUpClosed(base: seq<Value>, s: FullState, t: FullState, level: nat)
    requires Keyed(s) && Partial(base, t, level) && FullGrows(s, t, level)
    requires Covered(t, level, s.inputs, base)
    ensures Closed(base, t.cache, level + 1)
  {
    forall a, b, r | a in t.cache && b in base && r in Produced(a, b) && t.cache[a].complexity + 1 < level + 1
      ensures r in t.cache && t.cache[r].complexity <= t.cache[a].complexity + 1
    {
      if t.cache[a].complexity + 1 == level {
        assert a in s.cache;
        var c := Candidates(a, b);
        var k :| 0 <= k < 4 && c[k].0.Some? && c[k].0.value == r;
        assert Absorbed(t, level, c[k].1.Evaluate().value, c[k].1);
      }
    }
  }

  /** After a whole sweep at `level`, every step reaching a value at
      `level` from one level lower is recorded. */
  lemma LevelUpComplete(base: seq<Value>, s: FullState, t: FullState, level: nat)
    requires Keyed(s) && Partial(base, t, level) && FullGrows(s, t, level)
    requires Covered(t, level, s.inputs, base)
    ensures Complete(base, t.cache, level + 1)
  {
    forall r, o: Operation |
      r in t.cache && o.IsBinary() && o.a in t.cache && o.b in base && o.Evaluate() == Some(r) &&
      t.cache[r].complexity < level + 1 && t.cache[o.a].complexity + 1 == t.cache[r].complexity
      ensures o in t.cache[r].operations
    {
      if t.cache[r].complexity == level {
        assert o.a in s.cache;
        assert Absorbed(t, level, o.Evaluate().value, o);
      }
    }
  }

  /** A whole sweep at `level` over the values discovered before it moves
      the invariant to `level + 1`. */
  lemma LevelUp(base: seq<Value>, s: FullState, level: nat)
    requires FullValid(base, s, level)
    ensures FullValid(base, FullPass(s, s.inputs, base, level), level + 1)
  {
    var t := FullPass(s, s.inputs, base, level);
    PassKeeps(base, s, s.inputs, level);
    PassGrows(s, s.inputs, base, level);
    LevelUpClosed(base, s, t, level);
    LevelUpComplete(base, s, t, level);
  }

  /** The invariant holds at the end of every climb. */
  lemma {:induction false} ClimbValid(base: seq<Value>, s: FullState, level: nat, target: Value, fuel: nat)
    requires FullValid(base, s, level)
    ensures FullValid(base, Climb(s, level, base, target, fuel).0, Climb(s, level, base, target, fuel).1)
    decreases fuel
  {
    if target !in s.cache && fuel > 0 {
      LevelUp(base, s, level);
      ClimbValid(base, FullPass(s, s.inputs, base, level), level + 1, target, fuel - 1);
    }
  }

  /** `FullSolver::format_solution`: every printed expression recorded for
      `v`, operation by operation in recording order; none for a value that
      is not cached. */
  function FullFormat(cache: map<Value, CacheData>, v: Value): (out: seq<string>)
    requires Stratified(cache)
    ensures v !in cache ==> out == []
    decreases if v in cache then cache[v].complexity else 0, 2, 0
  {
    if v in cache then FormatOps(cache, v, cache[v].operations) else []
  }

  /** The concatenated renderings of `ops`, operations of `v`. */
  function FormatOps(cache: map<Value, CacheData>, v: Value, ops: seq<Operation>): (out: seq<string>)
    requires Stratified(cache) && v in cache
    requires forall o :: o in ops ==> o in cache[v].operations
    ensures forall k, x :: 0 <= k < |ops| && x in FormatOp(cache, v, ops[k]) ==> x in out
    decreases cache[v].complexity, 1, |ops|
  {
    if ops == [] then []
    else
      var rest := FormatOps(cache, v, ops[1..]);
      assert forall k :: 1 <= k < |ops| ==> ops[k] == ops[1..][k - 1];
      FormatOp(cache, v, ops[0]) + rest
  }

  /** The renderings of one operation of `v`: the numeral of an `Identity`,
      or `"(l s r)"` for every rendering `l` of the left operand and `r` of
      the right one, in the order of the cartesian product. */
  function FormatOp(cache: map<Value, CacheData>, v: Value, o: Operation): (out: seq<string>)
    requires Stratified(cache) && v in cache && o in cache[v].operations
    ensures o.Identity? ==> |out| == 1 && IsDigits(out[0])
    ensures o.IsBinary() ==> (out == [] <==> FullFormat(cache, o.a) == [] || FullFormat(cache, o.b) == [])
    decreases cache[v].complexity, 0, 0
  {
    if o.Identity? then [Decimal(o.v)]
    else Product(FullFormat(cache, o.a), o.Symbol(), FullFormat(cache, o.b))
  }

  /** A string is rendered for `v` exactly when one of its operations
      renders it. */
  lemma {:induction false} FormatOpsMembers(cache: map<Value, CacheData>, v: Value, ops: seq<Operation>, x: string)
    requires Stratified(cache) && v in cache
    requires forall o :: o in ops ==> o in cache[v].operations
    ensures x in FormatOps(cache, v, ops) <==> exists k :: 0 <= k < |ops| && x in FormatOp(cache, v, ops[k])
    decreases |ops|
  {
    if ops != [] {
      FormatOpsMembers(cache, v, ops[1..], x);
      if exists k :: 0 <= k < |ops| && x in FormatOp(cache, v, ops[k]) {
        var k :| 0 <= k < |ops| && x in FormatOp(cache, v, ops[k]);
        if k > 0 {
          assert ops[k] == ops[1..][k - 1];
        }
      }
      if x in FormatOps(cache, v, ops[1..]) {
        var k :| 0 <= k < |ops[1..]| && x in FormatOp(cache, v, ops[1..][k]);
        assert ops[1..][k] == ops[k + 1];
      }
    }
  }

  /** The output length is the sum, over the operations, of one for an
      `Identity` and the product of the operands' output lengths for a
      step. */
  lemma {:induction false} FormatOpsLength(cache: map<Value, CacheData>, v: Value, ops: seq<Operation>)
    requires Stratified(cache) && v in cache
    requires forall o :: o in ops ==> o in cache[v].operations
    ensures |FormatOps(cache, v, ops)| == Count(cache, ops)
    decreases |ops|
  {
    if ops != [] {
      FormatOpsLength(cache, v, ops[1..]);
      if ops[0].IsBinary() {
        ProductLength(FullFormat(cache, ops[0].a), ops[0].Symbol(), FullFormat(cache, ops[0].b));
      }
    }
  }

  /** The number of renderings `ops` contribute. */
  function Count(cache: map<Value, CacheData>, ops: seq<Operation>): nat
    requires Stratified(cache)
    decreases |ops|
  {
    if ops == [] then 0
    else
      (if ops[0].Identity? then 1
       else |FullFormat(cache, ops[0].a)| * |FullFormat(cache, ops[0].b)|) + Count(cache, ops[1..])
  }

  /** Discovery: a chain over the base values whose value is found with
      fewer steps than `level` has its value cached, at most at its size. */
  lemma {:induction false} ChainReached(base: seq<Value>, s: FullState, level: nat, e: Expr)
    requires BaseEntries(base, s.cache) && Closed(base, s.cache, level)
    requires Chain(e, base) && Eval(e).Some? && Size(e) < level
    ensures Eval(e).value in s.cache && s.cache[Eval(e).value].complexity <= Size(e)
    decreases e
  {
    if e.Bin? {
      var x, b, v := Eval(e.left).value, e.right.n, Eval(e).value;
      ChainReached(base, s, level, e.left);
      assert Eval(e) == Apply(e.op, x, b);
      InProduced(e.op, x, b);
      assert s.cache[v].complexity <= s.cache[x].complexity + 1;
    }
  }

  /** Minimality: between sweeps, the complexity of a cached value is at
      most the size of every chain reaching it. */
  lemma Minimal(base: seq<Value>, s: FullState, level: nat, e: Expr)
    requires FullValid(base, s, level) && Chain(e, base) && Eval(e).Some? && Eval(e).value in s.cache
    ensures s.cache[Eval(e).value].complexity <= Size(e)
  {
    if Size(e) < level {
      ChainReached(base, s, level, e);
    }
  }

  /** Soundness of the levels: a cached value is reached by a chain whose
      size is its complexity. */
  lemma {:induction false} Witness(base: seq<Value>, s: FullState, level: nat, v: Value) returns (e: Expr)
    requires Levels(base, s.cache, level) && OpsSound(base, s.cache) && v in s.cache
    ensures Chain(e, base) && Eval(e) == Some(v) && Size(e) == s.cache[v].complexity
    decreases s.cache[v].complexity
  {
    var o := s.cache[v].operations[0];
    assert OpSound(base, s.cache, v, o);
    if o.Identity? {
      e := Num(v);
    } else {
      var l := Witness(base, s, level, o.a);
      e := Bin(o.Kind(), l, Num(o.b));
    }
  }

  lemma OpSoundAt(base: seq<Value>, cache: map<Value, CacheData>, v: Value, k: nat)
    requires OpsSound(base, cache) && v in cache && k < |cache[v].operations|
    ensures OpSound(base, cache, v, cache[v].operations[k])
  {
  }

  /** A base value is rendered as its numeral alone. */
  lemma BaseFormat(base: seq<Value>, cache: map<Value, CacheData>, b: Value)
    requires BaseEntries(base, cache) && Stratified(cache) && b in base
    ensures FullFormat(cache, b) == [Decimal(b)]
  {
    assert cache[b].operations == [Identity(b)];
    assert FormatOps(cache, b, [Identity(b)]) == FormatOp(cache, b, Identity(b)) + FormatOps(cache, b, []);
  }

  /** Every rendering of `v` prints a chain over the base values that
      evaluates to `v` with exactly as many steps as `v`'s complexity. */
  lemma {:induction false} FormatDerives(base: seq<Value>, s: FullState, level: nat, v: Value, x: string)
    returns (e: Expr)
    requires BaseEntries(base, s.cache) && Levels(base, s.cache, level) && OpsSound(base, s.cache)
    requires Stratified(s.cache) && v in s.cache && x in FullFormat(s.cache, v)
    ensures Show(e) == x && Chain(e, base) && Eval(e) == Some(v) && Size(e) == s.cache[v].complexity
    decreases s.cache[v].complexity, 1
  {
    var ops := s.cache[v].operations;
    FormatOpsMembers(s.cache, v, ops, x);
    var k :| 0 <= k < |ops| && x in FormatOp(s.cache, v, ops[k]);
    e := OpDerives(base, s, level, v, k, x);
  }

  /** The same for the renderings of the `k`-th operation of `v`. */
  lemma {:induction false} OpDerives(base: seq<Value>, s: FullState, level: nat, v: Value, k: nat, x: string)
    returns (e: Expr)
    requires BaseEntries(base, s.cache) && Levels(base, s.cache, level) && OpsSound(base, s.cache)
    requires Stratified(s.cache) && v in s.cache && k < |s.cache[v].operations|
    requires x in FormatOp(s.cache, v, s.cache[v].operations[k])
    ensures Show(e) == x && Chain(e, base) && Eval(e) == Some(v) && Size(e) == s.cache[v].complexity
    decreases s.cache[v].complexity, 0
  {
    var o := s.cache[v].operations[k];
    OpSoundAt(base, s.cache, v, k);
    if o.Identity? {
      e := Num(v);
      assert v in base;
    } else {
      BaseFormat(base, s.cache, o.b);
      var ls := FullFormat(s.cache, o.a);
      ProductMembers(ls, o.Symbol(), [Decimal(o.b)], x);
      var i, j :| 0 <= i < |ls| && 0 <= j < 1 && x == Parenthesize(ls[i], o.Symbol(), [Decimal(o.b)][j]);
      var l := FormatDerives(base, s, level, o.a, ls[i]);
      e := Bin(o.Kind(), l, Num(o.b));
      assert Chain(e, base) by {
        assert Chain(l, base) && o.b in base;
      }
    }
  }

  /** A recorded step of `v` renders every rendering `l` of its left
      operand, joined with the numeral of its base value. */
  lemma StepRendered(base: seq<Value>, cache: map<Value, CacheData>, v: Value, o: Operation, l: string)
    requires BaseEntries(base, cache) && Stratified(cache)
    requires v in cache && o in cache[v].operations && o.IsBinary() && o.b in base
    requires l in FullFormat(cache, o.a)
    ensures Parenthesize(l, o.Symbol(), Decimal(o.b)) in FullFormat(cache, v)
  {
    var ops := cache[v].operations;
    var x := Parenthesize(l, o.Symbol(), Decimal(o.b));
    BaseFormat(base, cache, o.b);
    var ls := FullFormat(cache, o.a);
    var i :| 0 <= i < |ls| && ls[i] == l;
    ProductMembers(ls, o.Symbol(), [Decimal(o.b)], x);
    assert x == Parenthesize(ls[i], o.Symbol(), [Decimal(o.b)][0]);
    var n :| 0 <= n < |ops| && ops[n] == o;
    FormatOpsMembers(cache, v, ops, x);
  }

  /** A value at complexity 0 is a base value rendered as its numeral. */
  lemma NumRendered(base: seq<Value>, s: FullState, level: nat, v: Value)
    requires BaseEntries(base, s.cache) && Levels(base, s.cache, level) && Stratified(s.cache)
    requires v in s.cache && s.cache[v].complexity == 0
    ensures Decimal(v) in FullFormat(s.cache, v)
  {
    BaseFormat(base, s.cache, v);
  }

  /** The left part of a chain of minimal size is itself of minimal size
      and its step is recorded. */
  lemma MinimalStep(base: seq<Value>, s: FullState, level: nat, e: Expr)
    requires BaseEntries(base, s.cache) && Closed(base, s.cache, level) && Complete(base, s.cache, level)
    requires forall r {:trigger s.cache[r]} :: r in s.cache ==> s.cache[r].complexity < level
    requires e.Bin? && Chain(e, base) && Eval(e).Some? && Eval(e).value in s.cache
    requires Size(e) == s.cache[Eval(e).value].complexity
    ensures Eval(e.left).Some? && Eval(e.left).value in s.cache
    ensures Size(e.left) == s.cache[Eval(e.left).value].complexity
    ensures Make(e.op, Eval(e.left).value, e.right.n) in s.cache[Eval(e).value].operations
  {
    var x, b, v := Eval(e.left).value, e.right.n, Eval(e).value;
    ChainReached(base, s, level, e.left);
    assert Eval(e) == Apply(e.op, x, b);
    InProduced(e.op, x, b);
    assert s.cache[x].complexity == Size(e.left);
    var o := Make(e.op, x, b);
    assert o.Evaluate() == Some(v);
  }

  /** Every chain of minimal size reaching a cached value is rendered for
      it. */
  lemma {:induction false} FormatComplete(base: seq<Value>, s: FullState, level: nat, e: Expr)
    requires BaseEntries(base, s.cache) && Levels(base, s.cache, level) && Stratified(s.cache)
    requires Closed(base, s.cache, level) && Complete(base, s.cache, level)
    requires forall r {:trigger s.cache[r]} :: r in s.cache ==> s.cache[r].complexity < level
    requires Chain(e, base) && Eval(e).Some? && Eval(e).value in s.cache
    requires Size(e) == s.cache[Eval(e).value].complexity
    ensures Show(e) in FullFormat(s.cache, Eval(e).value)
    decreases e
  {
    var v := Eval(e).value;
    if e.Num? {
      NumRendered(base, s, level, v);
    } else {
      MinimalStep(base, s, level, e);
      FormatComplete(base, s, level, e.left);
      var o := Make(e.op, Eval(e.left).value, e.right.n);
      StepRendered(base, s.cache, v, o, Show(e.left));
    }
  }

  /** `x` prints a chain over `base` that reaches `v` and has the least
      size among all such chains. */
  ghost predicate MinimalPrint(base: seq<Value>, v: Value, x: string)
  {
    exists e :: Chain(e, base) && Eval(e) == Some(v) && Show(e) == x &&
      forall e' :: Chain(e', base) && Eval(e') == Some(v) ==> Size(e) <= Size(e')
  }

  /** Between sweeps, the renderings of a cached value are exactly the
      printed forms of its minimal chains. */
  lemma FullFormatExact(base: seq<Value>, s: FullState, level: nat, v: Value, x: string)
    requires FullValid(base, s, level) && Stratified(s.cache) && v in s.cache
    ensures x in FullFormat(s.cache, v) <==> MinimalPrint(base, v, x)
  {
    if x in FullFormat(s.cache, v) {
      var e := FormatDerives(base, s, level, v, x);
      forall e' | Chain(e', base) && Eval(e') == Some(v)
        ensures Size(e) <= Size(e')
      {
        Minimal(base, s, level, e');
      }
    }
    if MinimalPrint(base, v, x) {
      var e :| Chain(e, base) && Eval(e) == Some(v) && Show(e) == x &&
        forall e' :: Chain(e', base) && Eval(e') == Some(v) ==> Size(e) <= Size(e');
      var w := Witness(base, s, level, v);
      Minimal(base, s, level, e);
      FormatComplete(base, s, level, e);
    }
  }

  /** Between sweeps, a cached value has at least one rendering. */
  lemma FullFormatNonEmpty(base: seq<Value>, s: FullState, level: nat, v: Value)
    requires FullValid(base, s, level) && Stratified(s.cache) && v in s.cache
    ensures FullFormat(s.cache, v) != []
  {
    var w := Witness(base, s, level, v);
    FormatComplete(base, s, level, w);
  }

  class FullSolver {
    const base: seq<Value>
    var inputs: seq<Value>
    var cache: map<Value, CacheData>
    var iterations: nat

    function State(): FullState
      reads this
    {
      FullState(inputs, cache)
    }

    ghost predicate Valid()
      reads this
    {
      FullValid(base, State(), iterations) && Stratified(cache)
    }

    /** `FullSolver::new`: the discovery list starts as the base values, each
        cached at complexity 0 as an `Identity`, and the first sweep is at
        level 1. */
    constructor (base: seq<Value>)
      ensures Valid()
      ensures this.base == base && inputs == base && cache == FullSeed(base) && iterations == 1
    {
      this.base := base;
      inputs := base;
      cache := FullSeed(base);
      iterations := 1;
      FullSeedValid(base);
      StratifiedFromPartial(base, FullState(base, FullSeed(base)), 1);
    }

    /** The `entry` update of `iterate_until`: `Merge` for a cached result,
        otherwise a new entry at the current level and a push onto the list. */
    method Record(r: Value, op: Operation)
      modifies this
      ensures State() == Absorb(old(State()), r, op, iterations) && iterations == old(iterations)
    {
      if r in cache {
        var data := cache[r];
        if data.complexity == iterations {
          cache := cache[r := CacheData(data.operations + [op], data.complexity)];
        } else if data.complexity > iterations {
          cache := cache[r := CacheData([op], iterations)];
        }
      } else {
        inputs := inputs + [r];
        cache := cache[r := CacheData([op], iterations)];
      }
    }

    /** The four checked results of `a` and `b`, in order. */
    method Step(a: Value, b: Value)
      modifies this
      ensures State() == FullPair(old(State()), a, b, iterations) && iterations == old(iterations)
    {
      var c := Candidates(a, b);
      for k := 0 to 4
        invariant iterations == old(iterations)
        invariant Combine(old(State()), c, iterations) == Combine(State(), c[k..], iterations)
      {
        assert c[k..][1..] == c[k + 1..];
        if c[k].0.Some? {
          Record(c[k].0.value, c[k].1);
        }
      }
    }

    /** One sweep at the current level: every value discovered before the
        sweep, left, against every base value, right. */
    method Sweep()
      modifies this
      ensures State() == FullPass(old(State()), old(inputs), base, iterations)
      ensures iterations == old(iterations)
    {
      ghost var lefts := inputs;
      var n := |inputs|;
      for i := 0 to n
        invariant iterations == old(iterations)
        invariant Appends(old(State()), State())
        invariant FullPass(old(State()), lefts, base, iterations) == FullPass(State(), lefts[i..], base, iterations)
      {
        assert lefts[i..][1..] == lefts[i + 1..];
        assert inputs[i] == lefts[i];
        var a := inputs[i];
        ghost var before := State();
        for j := 0 to |base|
          invariant iterations == old(iterations)
          invariant Appends(before, State())
          invariant FullRow(before, a, base, iterations) == FullRow(State(), a, base[j..], iterations)
        {
          assert base[j..][1..] == base[j + 1..];
          Step(a, base[j]);
        }
        AppendsTransitive(old(State()), before, State());
      }
    }

    /** One round of the outer loop: a sweep at the current level, then the
        increment of `iterations` to the next level. */
    method Level()
      modifies this
      ensures State() == FullPass(old(State()), old(inputs), base, old(iterations))
      ensures iterations == old(iterations) + 1
    {
      Sweep();
      iterations := iterations + 1;
    }

    /** `iterate_until`: sweeps, one level each, while `target` is not
        cached. The source loops for ever when it never is; here at most
        `fuel` sweeps run. */
    method IterateUntil(target: Value, fuel: nat) returns (reached: bool)
      requires Valid()
      modifies this
      ensures Valid()
      ensures (State(), iterations) == Climb(old(State()), old(iterations), base, target, fuel)
      ensures reached <==> target in cache
    {
      ClimbValid(base, State(), iterations, target, fuel);
      var sweeps := 0;
      while target !in cache && sweeps < fuel
        invariant sweeps <= fuel
        invariant Climb(old(State()), old(iterations), base, target, fuel)
          == Climb(State(), iterations, base, target, fuel - sweeps)
      {
        ClimbStep(State(), iterations, base, target, fuel - sweeps);
        Level();
        sweeps := sweeps + 1;
      }
      reached := target in cache;
      StratifiedFromPartial(base, State(), iterations);
    }

    /** `FullSolver::solve`: climbs until `target` is cached, then renders
        it. Once cached, the answer lists exactly the printed forms of the
        chains of least size reaching `target`. */
    method Solve(target: Value, fuel: nat) returns (answer: seq<string>)
      requires Valid()
      modifies this
      ensures Valid()
      ensures (State(), iterations) == Climb(old(State()), old(iterations), base, target, fuel)
      ensures answer == FullFormat(cache, target)
      ensures target !in cache ==> answer == []
      ensures target in cache ==> answer != [] && forall x :: x in answer <==> MinimalPrint(base, target, x)
    {
      var reached := IterateUntil(target, fuel);
      answer := FullFormat(cache, target);
      if reached {
        FullFormatNonEmpty(base, State(), iterations, target);
        forall x
          ensures x in answer <==> MinimalPrint(base, target, x)
        {
          FullFormatExact(base, State(), iterations, target, x);
        }
      }
    }
  }
}
