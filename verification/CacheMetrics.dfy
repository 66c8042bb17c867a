/** The generated cache metrics: they compute the formulas of the specification file, and
    the break-even ratio is the point at which the longer cache lifetime pays off. */
module CacheMetrics {
  import opened Wrappers
  import opened Formula

  // ----- the specification file -----

  const COST_5M := Op('+', Op('*', Name("write"), Name("write_5m")), Op('*', Name("read"), Name("read_price")))

  const COST_1H := Op('+',
    Op('*', Op('-', Name("write"), Name("rescued")), Name("write_1h")),
    Op('*', Op('+', Name("read"), Name("rescued")), Name("read_price")))

  const BREAK_EVEN := Op('/',
    Op('-', Name("write_1h"), Name("write_5m")), Op('-', Name("write_1h"), Name("read_price")))

  // ----- the generated module -----

  const COST_5M_TEXT := "((write * write_5m)" + " + (read * read_price))"

  const COST_1H_TEXT := "(((write - rescued) * write_1h)" + " + ((read + rescued) * read_price))"

  const BREAK_EVEN_TEXT := "((write_1h - write_5m)" + " / (write_1h - read_price))"

  datatype Prices = Prices(write5m: real, write1h: real, read: real)

  datatype Costs = Costs(cost5m: real, cost1h: real, breakEvenRatio: real)

  predicate ValidInputs(read: real, write: real, rescued: real, prices: Prices) {
    && read >= 0.0 && write >= 0.0 && rescued >= 0.0
    && prices.write5m >= 0.0 && prices.write1h >= 0.0 && prices.read >= 0.0
    && !(rescued > write) && !(prices.write1h <= prices.write5m) && !(prices.write5m <= prices.read)
  }

  /** `ttl_cost_comparison`, or None where it raises. */
  function TtlCostComparison(read: real, write: real, rescued: real, prices: Prices): Option<Costs> {
    if !ValidInputs(read, write, rescued, prices) then None
    else Some(Costs(
      Times(write, prices.write5m) + Times(read, prices.read),
      Times(write - rescued, prices.write1h) + Times(read + rescued, prices.read),
      Over(prices.write1h - prices.write5m, prices.write1h - prices.read)))
  }

  function Inputs(read: real, write: real, rescued: real, prices: Prices): Environment {
    map["read" := read, "write" := write, "rescued" := rescued,
        "write_5m" := prices.write5m, "write_1h" := prices.write1h, "read_price" := prices.read]
  }

  /** The names of the specification are identifiers, so each prints as itself. */
  lemma {:induction false} Identifiers()
    ensures Expression(Name("read")) == Some("read") && Expression(Name("write")) == Some("write")
    ensures Expression(Name("rescued")) == Some("rescued") && Expression(Name("read_price")) == Some("read_price")
    ensures Expression(Name("write_5m")) == Some("write_5m") && Expression(Name("write_1h")) == Some("write_1h")
  {
  }

  /** An operator between two printed operands, its text cut before the operator. */
  lemma {:induction false} Printed(op: char, left: Tree, right: Tree, l: string, r: string, head: string, tail: string)
    requires IsOperator(op) && Expression(left) == Some(l) && Expression(right) == Some(r)
    requires head == "(" + l && tail == " " + [op] + " " + r + ")"
    ensures Expression(Op(op, left, right)) == Some(head + tail)
  {
    assert "(" + l + " " + [op] + " " + r + ")" == head + tail;
  }

  lemma {:induction false} FiveMinutesPieces()
    ensures "((write * write_5m)" == "(" + ("(write" + " * write_5m)")
    ensures " + (read * read_price))" == " " + ['+'] + " " + ("(read" + " * read_price)") + ")"
  {
  }

  lemma {:induction false} CostFiveMinutesText()
    ensures Expression(COST_5M) == Some(COST_5M_TEXT)
  {
    Identifiers();
    FiveMinutesPieces();
    Printed('*', Name("write"), Name("write_5m"), "write", "write_5m", "(write", " * write_5m)");
    Printed('*', Name("read"), Name("read_price"), "read", "read_price", "(read", " * read_price)");
    Printed('+', COST_5M.left, COST_5M.right, "(write" + " * write_5m)", "(read" + " * read_price)",
            "((write * write_5m)", " + (read * read_price))");
  }

  lemma {:induction false} CostOneHourWrites()
    ensures Expression(COST_1H.left) == Some("((write - rescued)" + " * write_1h)")
  {
    Identifiers();
    Printed('-', Name("write"), Name("rescued"), "write", "rescued", "(write", " - rescued)");
    Printed('*', COST_1H.left.left, Name("write_1h"), "(write" + " - rescued)", "write_1h",
            "((write - rescued)", " * write_1h)");
  }

  lemma {:induction false} CostOneHourReads()
    ensures Expression(COST_1H.right) == Some("((read + rescued)" + " * read_price)")
  {
    Identifiers();
    Printed('+', Name("read"), Name("rescued"), "read", "rescued", "(read", " + rescued)");
    Printed('*', COST_1H.right.left, Name("read_price"), "(read" + " + rescued)", "read_price",
            "((read + rescued)", " * read_price)");
  }

  lemma {:induction false} OneHourWritePiece()
    ensures "(((write - rescued) * write_1h)" == "(" + ("((write - rescued)" + " * write_1h)")
  {
  }

  lemma {:induction false} OneHourReadPiece()
    ensures " + ((read + rescued) * read_price))" == " " + ['+'] + " " + ("((read + rescued)" + " * read_price)") + ")"
  {
  }

  lemma {:induction false} CostOneHourText()
    ensures Expression(COST_1H) == Some(COST_1H_TEXT)
  {
    OneHourWritePiece();
    OneHourReadPiece();
    CostOneHourWrites();
    CostOneHourReads();
    Printed('+', COST_1H.left, COST_1H.right, "((write - rescued)" + " * write_1h)", "((read + rescued)" + " * read_price)",
            "(((write - rescued) * write_1h)", " + ((read + rescued) * read_price))");
  }

  lemma {:induction false} BreakEvenDividend()
    ensures "((write_1h - write_5m)" == "(" + ("(write_1h" + " - write_5m)")
  {
  }

  lemma {:induction false} BreakEvenDivisor()
    ensures " / (write_1h - read_price))" == " " + ['/'] + " " + ("(write_1h" + " - read_price)") + ")"
  {
  }

  lemma {:induction false} BreakEvenText()
    ensures Expression(BREAK_EVEN) == Some(BREAK_EVEN_TEXT)
  {
    BreakEvenDividend();
    BreakEvenDivisor();
    Identifiers();
    Printed('-', Name("write_1h"), Name("write_5m"), "write_1h", "write_5m", "(write_1h", " - write_5m)");
    Printed('-', Name("write_1h"), Name("read_price"), "write_1h", "read_price", "(write_1h", " - read_price)");
    Printed('/', BREAK_EVEN.left, BREAK_EVEN.right, "(write_1h" + " - write_5m)", "(write_1h" + " - read_price)",
            "((write_1h - write_5m)", " / (write_1h - read_price))");
  }

  /** The generator prints the specification's formulas as the committed module has them. */
  lemma {:induction false} GeneratedTexts()
    ensures Expression(COST_5M) == Some(COST_5M_TEXT)
    ensures Expression(COST_1H) == Some(COST_1H_TEXT)
    ensures Expression(BREAK_EVEN) == Some(BREAK_EVEN_TEXT)
  {
    CostFiveMinutesText();
    CostOneHourText();
    BreakEvenText();
  }

  lemma {:induction false} InputsBound(read: real, write: real, rescued: real, prices: Prices)
    ensures var env := Inputs(read, write, rescued, prices);
      && "read" in env && env["read"] == read && "write" in env && env["write"] == write
      && "rescued" in env && env["rescued"] == rescued && "read_price" in env && env["read_price"] == prices.read
      && "write_5m" in env && env["write_5m"] == prices.write5m
      && "write_1h" in env && env["write_1h"] == prices.write1h
  {
    assert "read" < "read_price" && |"write"| == 5 && |"rescued"| == 7 && |"write_5m"| == 8 && |"write_1h"| == 8;
    assert "write_5m"[6] != "write_1h"[6];
  }

  lemma {:induction false} Operands(op: char, left: Tree, right: Tree, env: Environment, x: real, y: real)
    requires Evaluate(left, env) == Some(x) && Evaluate(right, env) == Some(y)
    ensures op == '+' ==> Evaluate(Op(op, left, right), env) == Some(x + y)
    ensures op == '-' ==> Evaluate(Op(op, left, right), env) == Some(x - y)
    ensures op == '*' ==> Evaluate(Op(op, left, right), env) == Some(Times(x, y))
    ensures op == '/' && y != 0.0 ==> Evaluate(Op(op, left, right), env) == Some(Over(x, y))
  {
  }

  lemma {:induction false} FiveMinutesMeaning(read: real, write: real, rescued: real, prices: Prices)
    ensures Evaluate(COST_5M, Inputs(read, write, rescued, prices)) == Some(Times(write, prices.write5m) + Times(read, prices.read))
  {
    var env := Inputs(read, write, rescued, prices);
    InputsBound(read, write, rescued, prices);
    Operands('*', Name("write"), Name("write_5m"), env, write, prices.write5m);
    Operands('*', Name("read"), Name("read_price"), env, read, prices.read);
    Operands('+', COST_5M.left, COST_5M.right, env, Times(write, prices.write5m), Times(read, prices.read));
  }

  lemma {:induction false} OneHourMeaning(read: real, write: real, rescued: real, prices: Prices)
    ensures Evaluate(COST_1H, Inputs(read, write, rescued, prices))
         == Some(Times(write - rescued, prices.write1h) + Times(read + rescued, prices.read))
  {
    var env := Inputs(read, write, rescued, prices);
    InputsBound(read, write, rescued, prices);
    Operands('-', Name("write"), Name("rescued"), env, write, rescued);
    Operands('*', COST_1H.left.left, Name("write_1h"), env, write - rescued, prices.write1h);
    Operands('+', Name("read"), Name("rescued"), env, read, rescued);
    Operands('*', COST_1H.right.left, Name("read_price"), env, read + rescued, prices.read);
    Operands('+', COST_1H.left, COST_1H.right, env, Times(write - rescued, prices.write1h),
             Times(read + rescued, prices.read));
  }

  lemma {:induction false} BreakEvenMeaning(read: real, write: real, rescued: real, prices: Prices)
    requires prices.write1h != prices.read
    ensures Evaluate(BREAK_EVEN, Inputs(read, write, rescued, prices))
         == Some(Over(prices.write1h - prices.write5m, prices.write1h - prices.read))
  {
    var env := Inputs(read, write, rescued, prices);
    InputsBound(read, write, rescued, prices);
    Operands('-', Name("write_1h"), Name("write_5m"), env, prices.write1h, prices.write5m);
    Operands('-', Name("write_1h"), Name("read_price"), env, prices.write1h, prices.read);
    Operands('/', BREAK_EVEN.left, BREAK_EVEN.right, env,
             prices.write1h - prices.write5m, prices.write1h - prices.read);
  }

  lemma {:induction false} FiveMinutesEvaluated(read: real, write: real, rescued: real, prices: Prices)
    ensures EvaluateText(COST_5M_TEXT, Inputs(read, write, rescued, prices))
         == Some(Times(write, prices.write5m) + Times(read, prices.read))
  {
    GeneratedTexts();
    FiveMinutesMeaning(read, write, rescued, prices);
    TextMeansFormula(COST_5M, Inputs(read, write, rescued, prices));
  }

  lemma {:induction false} OneHourEvaluated(read: real, write: real, rescued: real, prices: Prices)
    ensures EvaluateText(COST_1H_TEXT, Inputs(read, write, rescued, prices))
         == Some(Times(write - rescued, prices.write1h) + Times(read + rescued, prices.read))
  {
    GeneratedTexts();
    OneHourMeaning(read, write, rescued, prices);
    TextMeansFormula(COST_1H, Inputs(read, write, rescued, prices));
  }

  lemma {:induction false} BreakEvenEvaluated(read: real, write: real, rescued: real, prices: Prices)
    requires prices.write1h != prices.read
    ensures EvaluateText(BREAK_EVEN_TEXT, Inputs(read, write, rescued, prices))
         == Some(Over(prices.write1h - prices.write5m, prices.write1h - prices.read))
  {
    GeneratedTexts();
    BreakEvenMeaning(read, write, rescued, prices);
    TextMeansFormula(BREAK_EVEN, Inputs(read, write, rescued, prices));
  }

  /** What the texts of the committed module evaluate to is what the specification asks for. */
  lemma {:induction false} GeneratedMeaning(read: real, write: real, rescued: real, prices: Prices)
    requires ValidInputs(read, write, rescued, prices)
    ensures var env := Inputs(read, write, rescued, prices);
      var costs := TtlCostComparison(read, write, rescued, prices).value;
      && EvaluateText(COST_5M_TEXT, env) == Some(costs.cost5m)
      && EvaluateText(COST_1H_TEXT, env) == Some(costs.cost1h)
      && EvaluateText(BREAK_EVEN_TEXT, env) == Some(costs.breakEvenRatio)
  {
    FiveMinutesEvaluated(read, write, rescued, prices);
    OneHourEvaluated(read, write, rescued, prices);
    BreakEvenEvaluated(read, write, rescued, prices);
  }

  /** The longer lifetime costs no more exactly when the rescued share of the writes reaches
      the break-even ratio, and that ratio lies strictly between 0 and 1. */
  lemma {:induction false} BreakEven(read: real, write: real, rescued: real, prices: Prices)
    requires ValidInputs(read, write, rescued, prices) && write > 0.0
    ensures var costs := TtlCostComparison(read, write, rescued, prices).value;
      && 0.0 < costs.breakEvenRatio < 1.0
      && (costs.cost1h <= costs.cost5m <==> rescued / write >= costs.breakEvenRatio)
  {
    var costs := TtlCostComparison(read, write, rescued, prices).value;
    var extra, saved := prices.write1h - prices.write5m, prices.write1h - prices.read;
    assert costs.cost1h - costs.cost5m == write * extra - rescued * saved;
    Ratio(extra, saved, rescued, write);
  }

  /** The inputs that are refused: a negative one, more rescued than written, or prices out of order. */
  lemma {:induction false} RefusedInputs(read: real, write: real, rescued: real, prices: Prices)
    ensures TtlCostComparison(read, write, rescued, prices).None? <==>
      || read < 0.0 || write < 0.0 || rescued < 0.0
      || prices.read < 0.0 || prices.write5m < 0.0 || prices.write1h < 0.0
      || rescued > write || prices.write1h <= prices.write5m || prices.write5m <= prices.read
  {
  }

  /** Costs of accepted inputs are never negative. */
  lemma {:induction false} CostsNonNegative(read: real, write: real, rescued: real, prices: Prices)
    requires ValidInputs(read, write, rescued, prices)
    ensures var costs := TtlCostComparison(read, write, rescued, prices).value;
      costs.cost5m >= 0.0 && costs.cost1h >= 0.0
  {
    NonNegativeProduct(write, prices.write5m);
    NonNegativeProduct(read, prices.read);
    NonNegativeProduct(write - rescued, prices.write1h);
    NonNegativeProduct(read + rescued, prices.read);
  }

  lemma {:induction false} NonNegativeProduct(x: real, y: real)
    requires x >= 0.0 && y >= 0.0
    ensures Times(x, y) >= 0.0
  {
  }

  lemma {:induction false} Ratio(a: real, b: real, c: real, d: real)
    requires 0.0 < a < b && d > 0.0
    ensures 0.0 < a / b < 1.0
    ensures d * a <= c * b <==> c / d >= a / b
  {
    var p, q := a / b, c / d;
    assert p * b == a && q * d == c;
    assert d * a == d * (p * b) == p * (d * b);
    assert c * b == (q * d) * b == q * (d * b);
    Scale(p, q, d * b);
    Scale(0.0, p, b);
    Scale(p, 1.0, b);
    Scale(1.0, p, b);
    Scale(p, 0.0, b);
  }

  lemma {:induction false} Scale(x: real, y: real, k: real)
    requires k > 0.0
    ensures x <= y <==> x * k <= y * k
  {
    if x <= y {
      assert (y - x) * k >= 0.0;
    } else {
      assert (x - y) * k > 0.0;
    }
  }

  // ----- cache efficiency -----

  datatype Efficiency = Efficiency(readShare: Option<real>, writeShare: Option<real>, reuse: Option<real>)

  function Share(part: nat, whole: nat): Option<real> {
    if whole == 0 then None else Some(100.0 * part as real / whole as real)
  }

  /** `cache_efficiency`: one denominator at a time. */
  method CacheEfficiency(read: nat, write: nat, uncached: nat) returns (result: Efficiency)
    ensures result == Efficiency(Share(read, read + write + uncached), Share(write, read + write + uncached),
                                 Share(read, read + write))
  {
    var denominator := read + write + uncached;
    var readShare := if denominator != 0 then Some(100.0 * read as real / denominator as real) else None;
    denominator := read + write + uncached;
    var writeShare := if denominator != 0 then Some(100.0 * write as real / denominator as real) else None;
    denominator := read + write;
    var reuse := if denominator != 0 then Some(100.0 * read as real / denominator as real) else None;
    result := Efficiency(readShare, writeShare, reuse);
  }

  /** The shares are percentages of one whole: with the uncached part they make 100, and the
      reuse of the cached part is at least the share of all. */
  lemma {:induction false} SharesAddUp(read: nat, write: nat, uncached: nat)
    ensures var whole := read + write + uncached;
      if whole == 0 then Share(read, whole).None? && Share(read, read + write).None?
      else
        && Share(read, whole).value + Share(write, whole).value + Share(uncached, whole).value == 100.0
        && (Share(read, read + write).None? <==> read + write == 0)
        && (read + write > 0 ==> Share(read, whole).value <= Share(read, read + write).value <= 100.0)
  {
    var whole := read + write + uncached;
    if whole > 0 {
      Recover(read, whole);
      Recover(write, whole);
      Recover(uncached, whole);
      assert whole as real == read as real + write as real + uncached as real;
      Whole(Share(read, whole).value, Share(write, whole).value, Share(uncached, whole).value,
            read as real, write as real, uncached as real, whole as real);
      if read + write > 0 {
        SmallerWhole(read, read + write, whole);
      }
    }
  }

  lemma {:induction false} Recover(part: nat, whole: nat)
    requires whole > 0
    ensures Share(part, whole).value * whole as real == 100.0 * part as real
  {
    Quotient(100.0 * part as real, whole as real);
  }

  lemma {:induction false} Quotient(a: real, b: real)
    requires b > 0.0
    ensures a / b * b == a
  {
  }

  lemma {:induction false} Whole(x: real, y: real, z: real, a: real, b: real, c: real, w: real)
    requires w > 0.0 && w == a + b + c
    requires x * w == 100.0 * a && y * w == 100.0 * b && z * w == 100.0 * c
    ensures x + y + z == 100.0
  {
    assert (x + y + z) * w == x * w + y * w + z * w;
    Scale(x + y + z, 100.0, w);
    Scale(100.0, x + y + z, w);
  }

  lemma {:induction false} Widen(y: real, c: real, w: real)
    requires y >= 0.0 && c <= w
    ensures y * c <= y * w
  {
    assert y * (w - c) >= 0.0;
  }

  lemma {:induction false} UpperShare(y: real, a: real, c: real)
    requires c > 0.0 && a <= c && y * c == 100.0 * a
    ensures y <= 100.0
  {
    Scale(y, 100.0, c);
  }

  lemma {:induction false} NonnegativeShare(y: real, a: real, c: real)
    requires c > 0.0 && a >= 0.0 && y * c == 100.0 * a
    ensures y >= 0.0
  {
    Scale(0.0, y, c);
  }

  lemma {:induction false} LowerShare(x: real, y: real, a: real, c: real, w: real)
    requires y >= 0.0 && 0.0 < c <= w && x * w == 100.0 * a && y * c == 100.0 * a
    ensures x <= y
  {
    Widen(y, c, w);
    Scale(x, y, w);
  }

  lemma {:induction false} SmallerWhole(part: nat, cached: nat, whole: nat)
    requires 0 < cached <= whole && part <= cached
    ensures Share(part, whole).value <= Share(part, cached).value <= 100.0
  {
    var x, y := Share(part, whole).value, Share(part, cached).value;
    var a, c, w := part as real, cached as real, whole as real;
    Recover(part, cached);
    Recover(part, whole);
    NonnegativeShare(y, a, c);
    UpperShare(y, a, c);
    LowerShare(x, y, a, c, w);
  }
}
