/** The formula printer of the metrics generator (`expression`), against a reader of infix
    text with the precedence rules of the languages it is printed into. */
module Formula {
  import opened Wrappers

  /** A formula of the specification file: a name, or an operator with two operands. */
  datatype Tree = Name(id: string) | Op(op: char, left: Tree, right: Tree)

  predicate IsNameStart(c: char) { 'a' <= c <= 'z' || 'A' <= c <= 'Z' || c == '_' }

  predicate IsNameChar(c: char) { IsNameStart(c) || '0' <= c <= '9' }

  /** `str.isidentifier`, for ASCII text. */
  predicate IsIdentifier(s: string) {
    s != "" && IsNameStart(s[0]) && forall i :: 0 <= i < |s| ==> IsNameChar(s[i])
  }

  predicate IsOperator(c: char) { c == '+' || c == '-' || c == '*' || c == '/' }

  /** `expression`: fully parenthesised infix text, or None where an assertion fails. */
  function Expression(node: Tree): Option<string> {
    match node
    case Name(id) => if IsIdentifier(id) then Some(id) else None
    case Op(op, left, right) =>
      if !IsOperator(op) then None else
        var l :- Expression(left);
        var r :- Expression(right);
        Some("(" + l + " " + [op] + " " + r + ")")
  }

  predicate WellFormed(node: Tree) {
    match node
    case Name(id) => IsIdentifier(id)
    case Op(op, left, right) => IsOperator(op) && WellFormed(left) && WellFormed(right)
  }

  // ----- reading infix text -----

  datatype Token = Open | Close | Operator(op: char) | Word(text: string)

  function WordEnd(s: string): (n: nat)
    ensures n <= |s| && (s != "" && IsNameChar(s[0]) ==> n > 0)
  {
    if s == "" || !IsNameChar(s[0]) then 0 else 1 + WordEnd(s[1..])
  }

  function Lex(s: string): Option<seq<Token>>
    decreases |s|
  {
    if s == "" then Some([])
    else if s[0] == ' ' then Lex(s[1..])
    else if s[0] == '(' then var rest :- Lex(s[1..]); Some([Open] + rest)
    else if s[0] == ')' then var rest :- Lex(s[1..]); Some([Close] + rest)
    else if IsOperator(s[0]) then var rest :- Lex(s[1..]); Some([Operator(s[0])] + rest)
    else if IsNameChar(s[0]) then
      var n := WordEnd(s);
      var rest :- Lex(s[n..]);
      Some([Word(s[..n])] + rest)
    else None
  }

  type Parsed = Option<(Tree, seq<Token>)>

  predicate IsAdditive(ts: seq<Token>) {
    ts != [] && ts[0].Operator? && (ts[0].op == '+' || ts[0].op == '-')
  }

  predicate IsMultiplicative(ts: seq<Token>) {
    ts != [] && ts[0].Operator? && (ts[0].op == '*' || ts[0].op == '/')
  }

  function ParseSum(ts: seq<Token>): (r: Parsed)
    ensures r.Some? ==> |r.value.1| < |ts|
    decreases |ts|, 2
  {
    var (left, rest) :- ParseProduct(ts);
    SumTail(left, rest)
  }

  function SumTail(left: Tree, ts: seq<Token>): (r: Parsed)
    ensures r.Some? ==> |r.value.1| <= |ts|
    decreases |ts|
  {
    if !IsAdditive(ts) then Some((left, ts)) else
      var (right, rest) :- ParseProduct(ts[1..]);
      SumTail(Op(ts[0].op, left, right), rest)
  }

  function ParseProduct(ts: seq<Token>): (r: Parsed)
    ensures r.Some? ==> |r.value.1| < |ts|
    decreases |ts|, 1
  {
    var (left, rest) :- ParseFactor(ts);
    ProductTail(left, rest)
  }

  function ProductTail(left: Tree, ts: seq<Token>): (r: Parsed)
    ensures r.Some? ==> |r.value.1| <= |ts|
    decreases |ts|
  {
    if !IsMultiplicative(ts) then Some((left, ts)) else
      var (right, rest) :- ParseFactor(ts[1..]);
      ProductTail(Op(ts[0].op, left, right), rest)
  }

  function ParseFactor(ts: seq<Token>): (r: Parsed)
    ensures r.Some? ==> |r.value.1| < |ts|
    decreases |ts|, 0
  {
    if ts == [] then None
    else if ts[0].Word? then Some((Name(ts[0].text), ts[1..]))
    else if ts[0].Open? then
      var (inner, rest) :- ParseSum(ts[1..]);
      if rest != [] && rest[0].Close? then Some((inner, rest[1..])) else None
    else None
  }

  /** A whole text read as one expression: products bind tighter, chains group to the left. */
  function Parse(s: string): Option<Tree> {
    var ts :- Lex(s);
    var (tree, rest) :- ParseSum(ts);
    if rest == [] then Some(tree) else None
  }

  // ----- the round trip -----

  function Tokens(node: Tree): seq<Token> {
    match node
    case Name(id) => [Word(id)]
    case Op(op, left, right) => [Open] + Tokens(left) + [Operator(op)] + Tokens(right) + [Close]
  }

  /** Text that cannot extend a word before it. */
  predicate Separate(rest: string) { rest == "" || !IsNameChar(rest[0]) }

  function Then(first: seq<Token>, rest: Option<seq<Token>>): Option<seq<Token>> {
    if rest.None? then None else Some(first + rest.value)
  }

  lemma {:induction false} WordEndOf(word: string, rest: string)
    requires (forall i :: 0 <= i < |word| ==> IsNameChar(word[i])) && Separate(rest)
    ensures WordEnd(word + rest) == |word|
  {
    if word != "" {
      WordEndOf(word[1..], rest);
      assert (word + rest)[1..] == word[1..] + rest;
    } else {
      assert word + rest == rest;
    }
  }

  lemma {:induction false} LexWord(word: string, rest: string)
    requires IsIdentifier(word) && Separate(rest)
    ensures Lex(word + rest) == Then([Word(word)], Lex(rest))
  {
    WordEndOf(word, rest);
    assert (word + rest)[..|word|] == word && (word + rest)[|word|..] == rest;
  }

  lemma {:induction false} LexOne(c: char, token: Token, rest: string)
    requires (c == '(' && token == Open) || (c == ')' && token == Close) || (IsOperator(c) && token == Operator(c))
    ensures Lex([c] + rest) == Then([token], Lex(rest))
  {
    assert ([c] + rest)[1..] == rest;
  }

  lemma {:induction false} LexSpace(rest: string)
    ensures Lex(" " + rest) == Lex(rest)
  {
    assert (" " + rest)[1..] == rest;
  }

  lemma {:induction false} ExpressionDefined(node: Tree)
    ensures Expression(node).Some? <==> WellFormed(node)
  {
    match node
    case Name(id) =>
    case Op(op, left, right) =>
      ExpressionDefined(left);
      ExpressionDefined(right);
  }

  lemma {:induction false} TextRegrouped(l: string, op: char, r: string, rest: string)
    ensures ("(" + l + " " + [op] + " " + r + ")") + rest
         == ['('] + (l + (" " + ([op] + (" " + (r + ([')'] + rest))))))
  {
  }

  lemma {:induction false} TokensRegrouped(l: seq<Token>, op: char, r: seq<Token>, rest: seq<Token>)
    ensures ([Open] + l + [Operator(op)] + r + [Close]) + rest
         == [Open] + (l + ([Operator(op)] + (r + ([Close] + rest))))
  {
  }

  /** A space, an operator and a space, then text. */
  lemma {:induction false} LexOperator(op: char, rest: string)
    requires IsOperator(op)
    ensures Lex(" " + ([op] + (" " + rest))) == Then([Operator(op)], Lex(rest))
  {
    LexSpace([op] + (" " + rest));
    LexOne(op, Operator(op), " " + rest);
    LexSpace(rest);
  }

  lemma {:induction false} ThenThen(a: seq<Token>, b: seq<Token>, rest: Option<seq<Token>>)
    ensures Then(a, Then(b, rest)) == Then(a + b, rest)
  {
    if rest.Some? {
      assert a + (b + rest.value) == a + b + rest.value;
    }
  }

  /** The printed text lexes to the tokens of the tree, whatever follows it. */
  lemma {:induction false} LexExpression(node: Tree, rest: string)
    requires WellFormed(node) && Expression(node).Some? && Separate(rest)
    ensures Lex(Expression(node).value + rest) == Then(Tokens(node), Lex(rest))
    decreases node, 1
  {
    match node {
      case Name(id) => LexWord(id, rest);
      case Op(op, left, right) =>
        ExpressionDefined(left);
        ExpressionDefined(right);
        LexOperands(op, left, right, rest);
    }
  }

  lemma {:induction false} LexOperands(op: char, left: Tree, right: Tree, rest: string)
    requires IsOperator(op) && WellFormed(left) && WellFormed(right)
    requires Expression(left).Some? && Expression(right).Some? && Separate(rest)
    ensures Lex(("(" + Expression(left).value + " " + [op] + " " + Expression(right).value + ")") + rest)
         == Then(Tokens(Op(op, left, right)), Lex(rest))
    decreases Op(op, left, right), 0
  {
    var l, r := Expression(left).value, Expression(right).value;
    var afterRight := [')'] + rest;
    var afterLeft := " " + ([op] + (" " + (r + afterRight)));
    var end := Lex(rest);
    TextRegrouped(l, op, r, rest);
    LexOne('(', Open, l + afterLeft);
    LexExpression(left, afterLeft);
    LexOperator(op, r + afterRight);
    LexExpression(right, afterRight);
    LexOne(')', Close, rest);
    ThenThen(Tokens(right), [Close], end);
    ThenThen([Operator(op)], Tokens(right) + [Close], end);
    ThenThen(Tokens(left), [Operator(op)] + (Tokens(right) + [Close]), end);
    ThenThen([Open], Tokens(left) + ([Operator(op)] + (Tokens(right) + [Close])), end);
    TokensNested(Tokens(left), op, Tokens(right));
  }

  lemma {:induction false} TokensNested(l: seq<Token>, op: char, r: seq<Token>)
    ensures [Open] + l + [Operator(op)] + r + [Close] == [Open] + (l + ([Operator(op)] + (r + [Close])))
  {
  }

  lemma {:induction false} Parenthesised(inner: seq<Token>, tree: Tree, rest: seq<Token>)
    requires ParseSum(inner) == Some((tree, [Close] + rest))
    ensures ParseFactor([Open] + inner) == Some((tree, rest))
  {
    assert ([Open] + inner)[1..] == inner && ([Close] + rest)[1..] == rest;
  }

  /** The tokens of a tree read back as that tree, whatever follows them. */
  lemma {:induction false} FactorRoundTrip(node: Tree, rest: seq<Token>)
    requires WellFormed(node)
    ensures ParseFactor(Tokens(node) + rest) == Some((node, rest))
  {
    match node {
      case Name(id) => assert ([Word(id)] + rest)[1..] == rest;
      case Op(op, left, right) =>
        var z := [Close] + rest;
        var y := Tokens(right) + z;
        var x := [Operator(op)] + y;
        FactorRoundTrip(left, x);
        FactorRoundTrip(right, z);
        OperandsRead(op, left, right, x, y, z);
        Parenthesised(Tokens(left) + x, node, rest);
        TokensRegrouped(Tokens(left), op, Tokens(right), rest);
    }
  }

  lemma {:induction false} OperandsRead(op: char, left: Tree, right: Tree, x: seq<Token>, y: seq<Token>, z: seq<Token>)
    requires IsOperator(op) && x == [Operator(op)] + y && z != [] && z[0] == Close
    requires ParseFactor(Tokens(left) + x) == Some((left, x)) && ParseFactor(y) == Some((right, z))
    ensures ParseSum(Tokens(left) + x) == Some((Op(op, left, right), z))
  {
    assert x[1..] == y;
    if op == '*' || op == '/' {
      assert ProductTail(left, x) == ProductTail(Op(op, left, right), z);
      assert ParseProduct(Tokens(left) + x) == Some((Op(op, left, right), z));
    } else {
      assert ParseProduct(Tokens(left) + x) == Some((left, x));
      assert ParseProduct(y) == Some((right, z));
      assert SumTail(left, x) == SumTail(Op(op, left, right), z);
    }
  }

  /** Reading the printed text of any formula gives the formula back. */
  lemma {:induction false} RoundTrip(node: Tree)
    requires Expression(node).Some?
    ensures Parse(Expression(node).value) == Some(node)
  {
    ExpressionDefined(node);
    LexExpression(node, "");
    assert Expression(node).value + "" == Expression(node).value;
    FactorRoundTrip(node, []);
    assert ParseProduct(Tokens(node) + []) == Some((node, []));
    assert ParseSum(Tokens(node) + []) == Some((node, []));
  }

  /** No two formulas print alike. */
  lemma {:induction false} ExpressionInjective(a: Tree, b: Tree)
    requires Expression(a).Some? && Expression(a) == Expression(b)
    ensures a == b
  {
    RoundTrip(a);
    RoundTrip(b);
  }

  // ----- meaning -----

  type Environment = map<string, real>

  function Times(x: real, y: real): real { x * y }

  function Over(x: real, y: real): real
    requires y != 0.0
  {
    x / y
  }

  /** The value of a formula, or None for an unknown name or a division by zero. */
  function Evaluate(node: Tree, env: Environment): Option<real> {
    match node
    case Name(id) => if id in env then Some(env[id]) else None
    case Op(op, left, right) =>
      var l :- Evaluate(left, env);
      var r :- Evaluate(right, env);
      if op == '+' then Some(l + r)
      else if op == '-' then Some(l - r)
      else if op == '*' then Some(Times(l, r))
      else if op == '/' && r != 0.0 then Some(Over(l, r))
      else None
  }

  function EvaluateText(s: string, env: Environment): Option<real> {
    var node :- Parse(s);
    Evaluate(node, env)
  }

  /** Evaluating the generated text is evaluating the formula. */
  lemma {:induction false} TextMeansFormula(node: Tree, env: Environment)
    requires Expression(node).Some?
    ensures EvaluateText(Expression(node).value, env) == Evaluate(node, env)
  {
    RoundTrip(node);
  }

  // ----- the denominators, printed without parentheses -----

  /** `' + '.join(names)`. */
  function JoinPlus(names: seq<string>): string
    requires names != []
  {
    if |names| == 1 then names[0] else JoinPlus(names[..|names| - 1]) + " + " + names[|names| - 1]
  }

  /** The sum that groups to the left. */
  function SumOf(names: seq<string>): Tree
    requires names != []
  {
    if |names| == 1 then Name(names[0]) else Op('+', SumOf(names[..|names| - 1]), Name(names[|names| - 1]))
  }

  function SumTokens(names: seq<string>): seq<Token>
    requires names != []
  {
    if |names| == 1 then [Word(names[0])]
    else SumTokens(names[..|names| - 1]) + [Operator('+'), Word(names[|names| - 1])]
  }

  lemma {:induction false} LexJoin(names: seq<string>, rest: string)
    requires names != [] && Separate(rest) && forall i :: 0 <= i < |names| ==> IsIdentifier(names[i])
    ensures Lex(JoinPlus(names) + rest) == Then(SumTokens(names), Lex(rest))
  {
    var n := |names| - 1;
    if n == 0 {
      LexWord(names[0], rest);
    } else {
      LexJoin(names[..n], " " + (['+'] + (" " + (names[n] + rest))));
      LexOperator('+', names[n] + rest);
      LexWord(names[n], rest);
      JoinRegrouped(JoinPlus(names[..n]), names[n], rest);
      ThenThen([Operator('+')], [Word(names[n])], Lex(rest));
      ThenThen(SumTokens(names[..n]), [Operator('+')] + [Word(names[n])], Lex(rest));
      assert [Operator('+')] + [Word(names[n])] == [Operator('+'), Word(names[n])];
    }
  }

  lemma {:induction false} JoinRegrouped(init: string, last: string, rest: string)
    ensures init + " + " + last + rest == init + (" " + (['+'] + (" " + (last + rest))))
  {
  }

  lemma {:induction false} ParseJoined(names: seq<string>, rest: seq<Token>)
    requires names != [] && !IsMultiplicative(rest)
    ensures ParseSum(SumTokens(names) + rest) == SumTail(SumOf(names), rest)
  {
    var n := |names| - 1;
    if n == 0 {
      assert ([Word(names[0])] + rest)[1..] == rest;
      assert ParseProduct([Word(names[0])] + rest) == Some((Name(names[0]), rest));
    } else {
      var word := [Word(names[n])] + rest;
      var more := [Operator('+')] + word;
      assert SumTokens(names) + rest == SumTokens(names[..n]) + more;
      ParseJoined(names[..n], more);
      assert more[1..] == word && word[1..] == rest;
      assert ParseProduct(word) == Some((Name(names[n]), rest));
    }
  }

  /** A joined denominator reads as the sum of its names, grouped to the left. */
  lemma {:induction false} JoinRoundTrip(names: seq<string>)
    requires names != [] && forall i :: 0 <= i < |names| ==> IsIdentifier(names[i])
    ensures Parse(JoinPlus(names)) == Some(SumOf(names))
  {
    LexJoin(names, "");
    assert JoinPlus(names) + "" == JoinPlus(names);
    assert SumTokens(names) + [] == SumTokens(names);
    ParseJoined(names, []);
  }
}
