/** Arithmetic expressions over base values: the independent meaning of the
    strings both solvers print. An expression is evaluated with the same
    checked operators the search uses and rendered in the printed syntax
    `"(left s right)"` with decimal numerals. */
module Expressions {
  import opened Values
  import opened Operations

  datatype Expr = Num(n: Value) | Bin(op: Operator, left: Expr, right: Expr)

  /** The value of an expression; `None` if some step overflows or
      underflows. */
  function Eval(e: Expr): Option<Value>
  {
    match e
    case Num(n) => Some(n)
    case Bin(o, l, r) =>
      match (Eval(l), Eval(r))
      case (Some(x), Some(y)) => Apply(o, x, y)
      case _ => None
  }

  /** The number of operator applications in an expression. */
  function Size(e: Expr): nat
  {
    match e
    case Num(_) => 0
    case Bin(_, l, r) => Size(l) + Size(r) + 1
  }

  /** A left-deep chain over `base`: the innermost left operand and every
      right operand are numerals of base values. These are exactly the
      expressions the solvers' transition rule can build. */
  predicate Chain(e: Expr, base: seq<Value>)
  {
    match e
    case Num(n) => n in base
    case Bin(_, l, r) => r.Num? && r.n in base && Chain(l, base)
  }

  /** The decimal digit for `d`. */
  function Digit(d: nat): (c: char)
    requires d < 10
    ensures '0' <= c <= '9'
  {
    (('0' as int) + d) as char
  }

  predicate IsDigits(s: string)
  {
    forall i :: 0 <= i < |s| ==> '0' <= s[i] <= '9'
  }

  /** The decimal numeral of `n`, as `u32::to_string` and `{}` print it. */
  function Decimal(n: nat): (s: string)
    ensures |s| >= 1 && IsDigits(s)
    ensures s[0] == '0' ==> s == "0"
  {
    if n < 10 then [Digit(n)] else Decimal(n / 10) + [Digit(n % 10)]
  }

  /** The number a string of decimal digits denotes. */
  function DecimalValue(s: string): nat
    requires IsDigits(s)
  {
    if s == [] then 0
    else DecimalValue(s[..|s| - 1]) * 10 + ((s[|s| - 1] as int) - ('0' as int))
  }

  /** Reading a printed numeral back gives the value printed. */
  lemma {:induction false} DecimalRoundTrip(n: nat)
    ensures DecimalValue(Decimal(n)) == n
  {
    var s := Decimal(n);
    if n >= 10 {
      assert s[..|s| - 1] == Decimal(n / 10);
      DecimalRoundTrip(n / 10);
    }
  }

  /** The printed form `"(left s right)"` of one binary step. */
  function Parenthesize(left: string, sym: char, right: string): (s: string)
    ensures |s| == |left| + |right| + 5
    ensures s[0] == '(' && s[|s| - 1] == ')'
  {
    "(" + left + " " + [sym] + " " + right + ")"
  }

  /** `"(l s r)"` for each `r` of `rs`, in order. */
  function Pairs(l: string, sym: char, rs: seq<string>): (out: seq<string>)
    ensures |out| == |rs|
    decreases |rs|
  {
    if rs == [] then [] else [Parenthesize(l, sym, rs[0])] + Pairs(l, sym, rs[1..])
  }

  /** The printed forms of the cartesian product of `ls` and `rs`: the pairs
      of the first left string come first, and within them the right strings
      in their order. */
  function Product(ls: seq<string>, sym: char, rs: seq<string>): (out: seq<string>)
    ensures out == [] <==> ls == [] || rs == []
    decreases |ls|
  {
    if ls == [] then [] else Pairs(ls[0], sym, rs) + Product(ls[1..], sym, rs)
  }

  lemma {:induction false} PairsAt(l: string, sym: char, rs: seq<string>)
    ensures forall j :: 0 <= j < |rs| ==> Pairs(l, sym, rs)[j] == Parenthesize(l, sym, rs[j])
    decreases |rs|
  {
    if rs != [] {
      PairsAt(l, sym, rs[1..]);
      forall j | 1 <= j < |rs|
        ensures Pairs(l, sym, rs)[j] == Parenthesize(l, sym, rs[j])
      {
        assert Pairs(l, sym, rs)[j] == Pairs(l, sym, rs[1..])[j - 1];
      }
    }
  }

  /** The product has `|ls| * |rs|` strings. */
  lemma {:induction false} ProductLength(ls: seq<string>, sym: char, rs: seq<string>)
    ensures |Product(ls, sym, rs)| == |ls| * |rs|
    decreases |ls|
  {
    if ls != [] {
      ProductLength(ls[1..], sym, rs);
      assert |ls| * |rs| == |rs| + (|ls| - 1) * |rs|;
    }
  }

  /** Where row `i` of an `n`-column table starts. */
  ghost function RowStart(i: nat, n: nat): (k: nat)
    ensures k == i * n
  {
    if i == 0 then 0 else RowStart(i - 1, n) + n
  }

  /** The string at `RowStart(i, |rs|) + j` of the product joins the `i`-th
      left string with the `j`-th right string. */
  lemma {:induction false} ProductRow(ls: seq<string>, sym: char, rs: seq<string>, i: nat, j: nat)
    requires i < |ls| && j < |rs|
    ensures RowStart(i, |rs|) + j < |Product(ls, sym, rs)|
    ensures Product(ls, sym, rs)[RowStart(i, |rs|) + j] == Parenthesize(ls[i], sym, rs[j])
    decreases i
  {
    var p := Product(ls, sym, rs);
    var head, tail := Pairs(ls[0], sym, rs), Product(ls[1..], sym, rs);
    assert p == head + tail;
    if i == 0 {
      PairsAt(ls[0], sym, rs);
      assert p[j] == head[j];
    } else {
      var k := RowStart(i - 1, |rs|) + j;
      ProductRow(ls[1..], sym, rs, i - 1, j);
      assert p[|rs| + k] == tail[k];
    }
  }

  /** The string at `i * |rs| + j` of the product joins the `i`-th left
      string with the `j`-th right string: the cartesian product in order. */
  lemma ProductAt(ls: seq<string>, sym: char, rs: seq<string>, i: nat, j: nat)
    requires i < |ls| && j < |rs|
    ensures i * |rs| + j < |Product(ls, sym, rs)|
    ensures Product(ls, sym, rs)[i * |rs| + j] == Parenthesize(ls[i], sym, rs[j])
  {
    ProductRow(ls, sym, rs, i, j);
  }

  /** A string is in one row of the product exactly when it joins the
      row's left string with some right string. */
  lemma PairsMembers(l: string, sym: char, rs: seq<string>, x: string)
    ensures x in Pairs(l, sym, rs) <==> exists j :: 0 <= j < |rs| && x == Parenthesize(l, sym, rs[j])
  {
    PairsAt(l, sym, rs);
    if x in Pairs(l, sym, rs) {
      var j :| 0 <= j < |rs| && Pairs(l, sym, rs)[j] == x;
      assert x == Parenthesize(l, sym, rs[j]);
    }
  }

  /** A string is in the product exactly when it joins some left string
      with some right string. */
  lemma {:induction false} ProductMembers(ls: seq<string>, sym: char, rs: seq<string>, x: string)
    ensures x in Product(ls, sym, rs) <==>
      exists i, j :: 0 <= i < |ls| && 0 <= j < |rs| && x == Parenthesize(ls[i], sym, rs[j])
    decreases |ls|
  {
    if ls != [] {
      PairsMembers(ls[0], sym, rs, x);
      ProductMembers(ls[1..], sym, rs, x);
      assert x in Product(ls, sym, rs) <==>
        x in Pairs(ls[0], sym, rs) || x in Product(ls[1..], sym, rs);
      if exists i, j :: 0 <= i < |ls| && 0 <= j < |rs| && x == Parenthesize(ls[i], sym, rs[j]) {
        var i, j :| 0 <= i < |ls| && 0 <= j < |rs| && x == Parenthesize(ls[i], sym, rs[j]);
        if i > 0 {
          assert x == Parenthesize(ls[1..][i - 1], sym, rs[j]);
        }
      }
      if x in Product(ls[1..], sym, rs) {
        var i, j :| 0 <= i < |ls[1..]| && 0 <= j < |rs| && x == Parenthesize(ls[1..][i], sym, rs[j]);
        assert x == Parenthesize(ls[i + 1], sym, rs[j]);
      }
    }
  }

  /** The printed form of an expression. */
  function Show(e: Expr): string
  {
    match e
    case Num(n) => Decimal(n)
    case Bin(o, l, r) => Parenthesize(Show(l), Char(o), Show(r))
  }
}
