/** The derivation records of the solver (`Operation`) and the transition rule
    both solvers share: a left value and a right base value are combined under
    every operator, and each checked success is a candidate result. */
module Operations {
  import opened Values

  /** The kind of a binary step, independent of its operands. */
  datatype Operator = Plus | Times | Minus | Power

  /** The printed symbol of an operator. */
  function Char(o: Operator): char
  {
    match o
    case Plus => '+'
    case Times => '*'
    case Minus => '-'
    case Power => '^'
  }

  /** Applies an operator with `u32` overflow and underflow checks. */
  function Apply(o: Operator, a: Value, b: Value): (r: Option<Value>)
    ensures o == Plus ==> (r.Some? <==> a + b <= MAX)
    ensures o == Times ==> (r.Some? <==> a * b <= MAX)
    ensures o == Minus ==> (r.Some? <==> b <= a)
    ensures o == Power ==> (r.Some? <==> Pow(a, b) <= MAX)
  {
    match o
    case Plus => CheckedAdd(a, b)
    case Times => CheckedMul(a, b)
    case Minus => CheckedSub(a, b)
    case Power => CheckedPow(a, b)
  }

  /** How a cached value was obtained: a base value taken as is, or one
      checked operation whose left operand `a` is a value found earlier and
      whose right operand `b` is a base value. */
  datatype Operation =
    | Identity(v: Value)
    | Addition(a: Value, b: Value)
    | Multiplication(a: Value, b: Value)
    | Subtraction(a: Value, b: Value)
    | Exponentiation(a: Value, b: Value)
  {
    /** The symbol printed between the operands; a blank for `Identity`. */
    function Symbol(): (c: char)
      ensures c == ' ' <==> Identity?
    {
      match this
      case Identity(_) => ' '
      case Addition(_, _) => '+'
      case Multiplication(_, _) => '*'
      case Subtraction(_, _) => '-'
      case Exponentiation(_, _) => '^'
    }

    predicate IsBinary()
    {
      !Identity?
    }

    /** The operator a binary operation applies; its symbol is the one
        `Symbol` prints. */
    function Kind(): (o: Operator)
      requires IsBinary()
      ensures Char(o) == Symbol()
    {
      match this
      case Addition(_, _) => Plus
      case Multiplication(_, _) => Times
      case Subtraction(_, _) => Minus
      case Exponentiation(_, _) => Power
    }

    /** The value the operation stands for, if its arithmetic is in range. */
    function Evaluate(): (r: Option<Value>)
      ensures Identity? ==> r == Some(v)
      ensures IsBinary() ==> r == Apply(Kind(), a, b)
    {
      match this
      case Identity(x) => Some(x)
      case Addition(x, y) => CheckedAdd(x, y)
      case Multiplication(x, y) => CheckedMul(x, y)
      case Subtraction(x, y) => CheckedSub(x, y)
      case Exponentiation(x, y) => CheckedPow(x, y)
    }
  }

  /** The binary operation applying `o` to `a` and `b`. */
  function Make(o: Operator, a: Value, b: Value): (op: Operation)
    ensures op.IsBinary() && op.Kind() == o && op.a == a && op.b == b
  {
    match o
    case Plus => Addition(a, b)
    case Times => Multiplication(a, b)
    case Minus => Subtraction(a, b)
    case Power => Exponentiation(a, b)
  }

  /** The four (checked result, operation) pairs one step of either solver
      tries, in the order addition, multiplication, subtraction,
      exponentiation. */
  function Candidates(a: Value, b: Value): (r: seq<(Option<Value>, Operation)>)
    ensures |r| == 4
    ensures forall k :: 0 <= k < 4 ==>
      r[k].1.IsBinary() && r[k].1.a == a && r[k].1.b == b && r[k].0 == r[k].1.Evaluate()
    ensures r[0].1.Kind() == Plus && r[1].1.Kind() == Times
    ensures r[2].1.Kind() == Minus && r[3].1.Kind() == Power
  {
    [ (CheckedAdd(a, b), Addition(a, b)),
      (CheckedMul(a, b), Multiplication(a, b)),
      (CheckedSub(a, b), Subtraction(a, b)),
      (CheckedPow(a, b), Exponentiation(a, b)) ]
  }

  /** Every value one step can produce from `a` and `b`. */
  function Produced(a: Value, b: Value): set<Value>
  {
    var c := Candidates(a, b);
    set k | 0 <= k < 4 && c[k].0.Some? :: c[k].0.value
  }

  /** A checked success of any operator is among the produced values. */
  lemma InProduced(o: Operator, a: Value, b: Value)
    requires Apply(o, a, b).Some?
    ensures Apply(o, a, b).value in Produced(a, b)
  {
    ProducedByOperators(a, b);
  }

  /** The values one step produces are exactly the in-range results of the
      four operators. */
  lemma ProducedByOperators(a: Value, b: Value)
    ensures forall o :: Apply(o, a, b).Some? ==> Apply(o, a, b).value in Produced(a, b)
    ensures forall x :: x in Produced(a, b) ==> exists o :: Apply(o, a, b) == Some(x)
  {
    var c := Candidates(a, b);
    forall o | Apply(o, a, b).Some?
      ensures Apply(o, a, b).value in Produced(a, b)
    {
      var k := match o case Plus => 0 case Times => 1 case Minus => 2 case Power => 3;
      assert c[k].0 == Apply(o, a, b);
    }
    forall x | x in Produced(a, b)
      ensures exists o :: Apply(o, a, b) == Some(x)
    {
      var k :| 0 <= k < 4 && c[k].0 == Some(x);
      assert Apply(c[k].1.Kind(), a, b) == Some(x);
    }
  }
}
