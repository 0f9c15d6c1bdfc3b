/** `evaluateBasicMath` of src/utils/derived.ts: white space is removed,
    then a recursive-descent parser with a shared cursor reads sums of
    products of factors, where a factor is a parenthesised sum or a run of
    digits and dots. Division by zero gives 0, a missing or unreadable
    number gives 0, and whatever follows the parsed prefix is ignored.

    The functions ReadNumber .. ReadSum state what each parsing step
    returns and where it leaves the cursor; the class MathParser is the
    source's imperative parser, proved to agree with them; Expr is an
    independent reference: every expression tree, printed with the fewest
    parentheses precedence and left associativity allow, evaluates to its
    value. */
module BasicMath {
  import opened Options
  import JsText

  /** The characters `parseNumber` collects: `[0-9.]`. */
  predicate IsNumberChar(c: char) {
    JsText.IsDigit(c) || c == '.'
  }

  /** Characters left after the cursor; a cursor past the end has none.
      (The cursor can pass the end: a `(` is closed by skipping one character
      whatever it is.) */
  function Remaining(s: string, i: nat): nat {
    if i <= |s| then |s| - i else 0
  }

  predicate CharAt(s: string, i: nat, c: char) {
    i < |s| && s[i] == c
  }

  /** The end of the run of number characters starting at `i`. */
  function NumberRun(s: string, i: nat): (j: nat)
    ensures i <= j
    ensures i <= |s| ==> j <= |s|
    ensures i >= |s| ==> j == i
    ensures forall k :: i <= k < j ==> IsNumberChar(s[k])
    ensures j < |s| ==> !IsNumberChar(s[j])
    decreases Remaining(s, i)
  {
    if i < |s| && IsNumberChar(s[i]) then NumberRun(s, i + 1) else i
  }

  /** The text `parseNumber` collects from `i`. */
  function NumberToken(s: string, i: nat): string {
    if i <= |s| then s[i..NumberRun(s, i)] else ""
  }

  /** `parseFloat(token) || 0` for a token of `[0-9.]`, which has neither
      leading white space nor a sign: the longest unsigned decimal numeral
      at its start, or 0 if there is none. */
  function TokenValue(tok: string): real {
    match JsText.ScanUnsigned(tok)
    case Some(p) => p.1
    case None => 0.0
  }

  /** TokenValue is `parseFloat(token) || 0` for every such token. */
  lemma TokenValueIsParseFloat(tok: string)
    requires forall k :: 0 <= k < |tok| ==> IsNumberChar(tok[k])
    ensures JsText.ParseFloat(tok).GetOr(0.0) == TokenValue(tok)
  {
    if tok != [] {
      assert !JsText.IsSpace(tok[0]) && tok[0] != '-' && tok[0] != '+';
    }
    assert JsText.TrimStart(tok) == tok;
  }

  /** `parseNumber`: the value of the collected text, and the cursor after it. */
  function ReadNumber(s: string, i: nat): (r: (real, nat))
    ensures r.1 == NumberRun(s, i)
  {
    (TokenValue(NumberToken(s, i)), NumberRun(s, i))
  }

  /** `parseFactor`: a `(`, a sum, and one skipped character; or a number. */
  function ReadFactor(s: string, i: nat): (r: (real, nat))
    ensures r.1 >= i
    decreases Remaining(s, i), 1
  {
    if CharAt(s, i, '(') then
      var inner := ReadSum(s, i + 1);
      (inner.0, inner.1 + 1)
    else ReadNumber(s, i)
  }

  /** `parseTerm`: a factor, then the `*`/`/` loop. */
  function ReadTerm(s: string, i: nat): (r: (real, nat))
    ensures r.1 >= i
    decreases Remaining(s, i), 3
  {
    var first := ReadFactor(s, i);
    TermLoop(s, first.1, first.0)
  }

  function Times(x: real, y: real): real {
    x * y
  }

  /** Division as the parser performs it: dividing by 0 gives 0. */
  function Quotient(x: real, y: real): real {
    if y != 0.0 then x / y else 0.0
  }

  /** `result * operand`, or for `/` the quotient. */
  function Product(op: char, acc: real, w: real): real {
    if op == '*' then Times(acc, w) else Quotient(acc, w)
  }

  /** `result + operand`, or for `-` the difference. */
  function Sum(op: char, acc: real, w: real): real {
    if op == '+' then acc + w else acc - w
  }

  /** The loop of `parseTerm` from cursor `j` with running result `acc`. */
  function TermLoop(s: string, j: nat, acc: real): (r: (real, nat))
    ensures r.1 >= j
    decreases Remaining(s, j), 2
  {
    if CharAt(s, j, '*') || CharAt(s, j, '/') then
      var operand := ReadFactor(s, j + 1);
      TermLoop(s, operand.1, Product(s[j], acc, operand.0))
    else (acc, j)
  }

  /** `parseExpression`: a term, then the `+`/`-` loop. */
  function ReadSum(s: string, i: nat): (r: (real, nat))
    ensures r.1 >= i
    decreases Remaining(s, i), 5
  {
    var first := ReadTerm(s, i);
    SumLoop(s, first.1, first.0)
  }

  /** The loop of `parseExpression` from cursor `j` with running result `acc`. */
  function SumLoop(s: string, j: nat, acc: real): (r: (real, nat))
    ensures r.1 >= j
    decreases Remaining(s, j), 4
  {
    if CharAt(s, j, '+') || CharAt(s, j, '-') then
      var operand := ReadTerm(s, j + 1);
      SumLoop(s, operand.1, Sum(s[j], acc, operand.0))
    else (acc, j)
  }

  lemma SumLoopStep(s: string, j: nat, acc: real)
    requires CharAt(s, j, '+') || CharAt(s, j, '-')
    ensures SumLoop(s, j, acc) == SumLoop(s, ReadTerm(s, j + 1).1, Sum(s[j], acc, ReadTerm(s, j + 1).0))
  {
  }

  lemma TermLoopStep(s: string, j: nat, acc: real)
    requires CharAt(s, j, '*') || CharAt(s, j, '/')
    ensures TermLoop(s, j, acc) == TermLoop(s, ReadFactor(s, j + 1).1, Product(s[j], acc, ReadFactor(s, j + 1).0))
  {
  }

  /** `expression.replace(/\s/g, '')`. */
  function RemoveSpaces(s: string): (r: string)
    ensures NoSpace(r)
    ensures |r| <= |s|
  {
    if s == [] then []
    else (if JsText.IsSpace(s[0]) then [] else [s[0]]) + RemoveSpaces(s[1..])
  }

  /** The value `evaluateBasicMath` returns. */
  function BasicMathValue(expression: string): real {
    ReadSum(RemoveSpaces(expression), 0).0
  }

  lemma {:induction false} RemoveSpacesKeeps(s: string)
    requires NoSpace(s)
    ensures RemoveSpaces(s) == s
  {
    if s != [] {
      RemoveSpacesKeeps(s[1..]);
    }
  }

  // ---------------------------------------------------------------------
  // The imperative parser of the source

  /** The closure state of `evaluateBasicMath`: the space-free expression
      and the cursor `index` that every parsing step advances. */
  class MathParser {
    const expression: string
    var index: nat

    constructor (e: string)
      ensures expression == e && index == 0
    {
      expression := e;
      index := 0;
    }

    method ParseNumber() returns (r: real)
      modifies this
      ensures (r, index) == ReadNumber(expression, old(index))
    {
      ghost var start := index;
      var num := "";
      while index < |expression| && IsNumberChar(expression[index])
        invariant start <= index
        invariant start <= |expression| ==> index <= |expression| && num == expression[start..index]
        invariant start > |expression| ==> index == start && num == ""
        invariant NumberRun(expression, index) == NumberRun(expression, start)
        decreases Remaining(expression, index)
      {
        num := num + [expression[index]];
        index := index + 1;
      }
      assert index == NumberRun(expression, start);
      assert num == NumberToken(expression, start);
      TokenValueIsParseFloat(num);
      r := JsText.ParseFloat(num).GetOr(0.0);
    }

    method ParseFactor() returns (r: real)
      modifies this
      ensures (r, index) == ReadFactor(expression, old(index))
      decreases Remaining(expression, index), 1
    {
      if index < |expression| && expression[index] == '(' {
        index := index + 1;
        r := ParseExpression();
        index := index + 1;
      } else {
        r := ParseNumber();
      }
    }

    method ParseTerm() returns (r: real)
      modifies this
      ensures (r, index) == ReadTerm(expression, old(index))
      decreases Remaining(expression, index), 3
    {
      r := ParseFactor();
      while index < |expression| && (expression[index] == '*' || expression[index] == '/')
        invariant old(index) <= index
        invariant TermLoop(expression, index, r) == ReadTerm(expression, old(index))
        decreases Remaining(expression, index)
      {
        r := MultiplyOperand(r);
      }
      assert TermLoop(expression, index, r) == (r, index);
    }

    /** One round of the `*`,`/` loop of `parseTerm`: the operator is
        consumed, a factor read, and the running result combined with it. */
    method MultiplyOperand(acc: real) returns (r: real)
      requires CharAt(expression, index, '*') || CharAt(expression, index, '/')
      modifies this
      ensures old(index) < index
      ensures TermLoop(expression, index, r) == TermLoop(expression, old(index), acc)
      decreases Remaining(expression, index), 2
    {
      var op := expression[index];
      ghost var j := index;
      index := index + 1;
      var operand := ParseFactor();
      if op == '*' {
        r := Times(acc, operand);
      } else {
        r := Quotient(acc, operand);
      }
      assert r == Product(op, acc, operand);
      TermLoopStep(expression, j, acc);
    }

    method ParseExpression() returns (r: real)
      modifies this
      ensures (r, index) == ReadSum(expression, old(index))
      decreases Remaining(expression, index), 5
    {
      r := ParseTerm();
      while index < |expression| && (expression[index] == '+' || expression[index] == '-')
        invariant old(index) <= index
        invariant SumLoop(expression, index, r) == ReadSum(expression, old(index))
        decreases Remaining(expression, index)
      {
        r := AddOperand(r);
      }
      assert SumLoop(expression, index, r) == (r, index);
    }

    /** One round of the `+`,`-` loop of `parseExpression`. */
    method AddOperand(acc: real) returns (r: real)
      requires CharAt(expression, index, '+') || CharAt(expression, index, '-')
      modifies this
      ensures old(index) < index
      ensures SumLoop(expression, index, r) == SumLoop(expression, old(index), acc)
      decreases Remaining(expression, index), 4
    {
      var op := expression[index];
      ghost var j := index;
      index := index + 1;
      var operand := ParseTerm();
      if op == '+' {
        r := acc + operand;
      } else {
        r := acc - operand;
      }
      assert r == Sum(op, acc, operand);
      SumLoopStep(expression, j, acc);
    }
  }

  /** `evaluateBasicMath(expression)`. */
  method EvaluateBasicMath(expression: string) returns (r: real)
    ensures r == BasicMathValue(expression)
  {
    var parser := new MathParser(RemoveSpaces(expression));
    r := parser.ParseExpression();
  }

  // ---------------------------------------------------------------------
  // Reference semantics: expression trees

  /** An arithmetic expression over natural-number literals. */
  datatype Expr = Lit(n: nat) | Add(l: Expr, r: Expr) | Sub(l: Expr, r: Expr)
                | Mul(l: Expr, r: Expr) | Div(l: Expr, r: Expr)

  /** The intended value: the four operations on reals, with `x / 0 = 0`. */
  function Eval(e: Expr): real {
    match e
    case Lit(n) => n as real
    case Add(a, b) => Eval(a) + Eval(b)
    case Sub(a, b) => Eval(a) - Eval(b)
    case Mul(a, b) => Times(Eval(a), Eval(b))
    case Div(a, b) => Quotient(Eval(a), Eval(b))
  }

  predicate IsSum(e: Expr) { e.Add? || e.Sub? }
  predicate IsProduct(e: Expr) { e.Mul? || e.Div? }

  // Ranks that order the three printers (and the three lemmas about them)
  // on one and the same tree.
  function SumRank(e: Expr): nat { if IsSum(e) then 1 else if IsProduct(e) then 2 else 3 }
  function TermRank(e: Expr): nat { if IsSum(e) then 3 else if IsProduct(e) then 1 else 2 }
  function FactorRank(e: Expr): nat { if IsSum(e) then 2 else if IsProduct(e) then 3 else 1 }

  /** The tree printed as a sum: operands of `+`/`-` on the right that are
      sums themselves get parentheses, those on the left do not. */
  function PrintSum(e: Expr): string
    decreases e, SumRank(e)
  {
    match e
    case Add(a, b) => PrintSum(a) + "+" + PrintTerm(b)
    case Sub(a, b) => PrintSum(a) + "-" + PrintTerm(b)
    case _ => PrintTerm(e)
  }

  /** The tree printed as a product. */
  function PrintTerm(e: Expr): string
    decreases e, TermRank(e)
  {
    match e
    case Mul(a, b) => PrintTerm(a) + "*" + PrintFactor(b)
    case Div(a, b) => PrintTerm(a) + "/" + PrintFactor(b)
    case _ => PrintFactor(e)
  }

  /** The tree printed as a factor: a numeral, or a parenthesised sum. */
  function PrintFactor(e: Expr): string
    decreases e, FactorRank(e)
  {
    match e
    case Lit(n) => JsText.NatToString(n)
    case _ => "(" + PrintSum(e) + ")"
  }

  /** `p` occurs in `s` at position `i`. */
  predicate IsAt(s: string, i: nat, p: string) {
    i + |p| <= |s| && s[i..i + |p|] == p
  }

  lemma IsAtSplit(s: string, i: nat, p: string, q: string)
    requires IsAt(s, i, p + q)
    ensures IsAt(s, i, p) && IsAt(s, i + |p|, q)
  {
    assert s[i..i + |p|] == (p + q)[..|p|];
    assert s[i + |p|..i + |p| + |q|] == (p + q)[|p|..];
  }

  lemma IsAtChar(s: string, i: nat, c: char)
    requires IsAt(s, i, [c])
    ensures CharAt(s, i, c)
  {
    assert s[i..i + 1][0] == s[i];
  }

  /** Where `a`, an operator and `b` are printed side by side. */
  lemma OperatorSplit(s: string, i: nat, pa: string, op: char, pb: string)
    requires IsAt(s, i, pa + [op] + pb)
    ensures IsAt(s, i, pa) && CharAt(s, i + |pa|, op) && IsAt(s, i + |pa| + 1, pb)
  {
    assert pa + [op] + pb == pa + ([op] + pb);
    IsAtSplit(s, i, pa, [op] + pb);
    IsAtSplit(s, i + |pa|, [op], pb);
    IsAtChar(s, i + |pa|, op);
  }

  /** Where a parenthesised `q` is printed. */
  lemma ParenSplit(s: string, i: nat, q: string)
    requires IsAt(s, i, "(" + q + ")")
    ensures CharAt(s, i, '(') && IsAt(s, i + 1, q) && CharAt(s, i + 1 + |q|, ')')
  {
    assert "(" + q + ")" == "(" + (q + ")");
    IsAtSplit(s, i, "(", q + ")");
    IsAtSplit(s, i + 1, q, ")");
    IsAtChar(s, i, '(');
    IsAtChar(s, i + 1 + |q|, ')');
  }

  // What may follow a number, a product and a sum without extending it.
  predicate EndsNumber(s: string, j: nat) { j >= |s| || !IsNumberChar(s[j]) }
  predicate EndsTerm(s: string, j: nat) { EndsNumber(s, j) && !CharAt(s, j, '*') && !CharAt(s, j, '/') }
  predicate EndsSum(s: string, j: nat) { EndsTerm(s, j) && !CharAt(s, j, '+') && !CharAt(s, j, '-') }

  lemma {:induction false} NumberRunOver(s: string, i: nat, j: nat)
    requires i <= j <= |s|
    requires forall k :: i <= k < j ==> IsNumberChar(s[k])
    requires EndsNumber(s, j)
    ensures NumberRun(s, i) == j
    decreases j - i
  {
    if i < j {
      NumberRunOver(s, i + 1, j);
    }
  }

  /** A numeral printed by NatToString reads back as its value. */
  lemma NumeralReadsBack(n: nat)
    ensures TokenValue(JsText.NatToString(n)) == n as real
  {
    JsText.ScanUnsignedDigits(JsText.NatToString(n));
    JsText.NatToStringValue(n);
  }

  /** A printed numeral followed by a non-number character is read whole, as
      its value. */
  lemma NumeralAt(s: string, i: nat, n: nat)
    requires IsAt(s, i, JsText.NatToString(n))
    requires EndsNumber(s, i + |JsText.NatToString(n)|)
    ensures ReadNumber(s, i) == (n as real, i + |JsText.NatToString(n)|)
    ensures !CharAt(s, i, '(')
  {
    var p := JsText.NatToString(n);
    var j := i + |p|;
    assert s[i] == s[i..j][0];
    forall k | i <= k < j ensures IsNumberChar(s[k]) {
      assert s[k] == s[i..j][k - i];
      assert JsText.IsDigit(p[k - i]);
    }
    NumberRunOver(s, i, j);
    assert NumberToken(s, i) == p;
    NumeralReadsBack(n);
  }

  /** The operator a product or a sum is printed with. */
  function OpOf(e: Expr): char {
    match e
    case Add(_, _) => '+'
    case Sub(_, _) => '-'
    case Mul(_, _) => '*'
    case Div(_, _) => '/'
    case Lit(_) => '0'
  }

  lemma ProductEval(e: Expr)
    requires IsProduct(e)
    ensures Product(OpOf(e), Eval(e.l), Eval(e.r)) == Eval(e)
  {
  }

  lemma SumEval(e: Expr)
    requires IsSum(e)
    ensures Sum(OpOf(e), Eval(e.l), Eval(e.r)) == Eval(e)
  {
  }

  // How the parsing functions compose, stated over cursor positions alone.
  // Each relation names what a parsing step reads from `i`: the value `v`,
  // and the cursor `k` where it stops (for a term or a sum: where its loop
  // takes over).

  predicate ReadsFactor(s: string, i: nat, v: real, k: nat) {
    ReadFactor(s, i) == (v, k)
  }

  predicate ReadsTerm(s: string, i: nat, v: real, k: nat) {
    ReadTerm(s, i) == TermLoop(s, k, v)
  }

  predicate ReadsSum(s: string, i: nat, v: real, k: nat) {
    ReadSum(s, i) == SumLoop(s, k, v)
  }

  lemma NumberIsFactor(s: string, i: nat, v: real, k: nat)
    requires !CharAt(s, i, '(')
    requires ReadNumber(s, i) == (v, k)
    ensures ReadsFactor(s, i, v, k)
  {
  }

  lemma FactorIsTerm(s: string, i: nat, v: real, k: nat)
    requires ReadsFactor(s, i, v, k)
    ensures ReadsTerm(s, i, v, k)
  {
  }

  lemma TermIsSum(s: string, i: nat, v: real, k: nat)
    requires ReadsTerm(s, i, v, k)
    requires EndsTerm(s, k)
    ensures ReadsSum(s, i, v, k)
  {
    assert TermLoop(s, k, v) == (v, k);
  }

  lemma ParenRound(s: string, i: nat, v: real, k: nat)
    requires CharAt(s, i, '(')
    requires ReadsSum(s, i + 1, v, k)
    requires CharAt(s, k, ')')
    ensures ReadsFactor(s, i, v, k + 1)
  {
    assert SumLoop(s, k, v) == (v, k);
  }

  /** One round of the `*`,`/` loop: after the operator at `j`, a factor. */
  lemma TermRound(s: string, i: nat, j: nat, k: nat, x: real, y: real, v: real)
    requires ReadsTerm(s, i, x, j)
    requires CharAt(s, j, '*') || CharAt(s, j, '/')
    requires ReadsFactor(s, j + 1, y, k)
    requires Product(s[j], x, y) == v
    ensures ReadsTerm(s, i, v, k)
  {
    TermLoopStep(s, j, x);
  }

  /** One round of the `+`,`-` loop: after the operator at `j`, a whole term. */
  lemma SumRound(s: string, i: nat, j: nat, k: nat, x: real, y: real, v: real)
    requires ReadsSum(s, i, x, j)
    requires CharAt(s, j, '+') || CharAt(s, j, '-')
    requires ReadsTerm(s, j + 1, y, k)
    requires EndsTerm(s, k)
    requires Sum(s[j], x, y) == v
    ensures ReadsSum(s, i, v, k)
  {
    assert TermLoop(s, k, y) == (y, k);
    SumLoopStep(s, j, x);
  }

  // The layout of a printed tree: how long each printed form is, and which
  // characters sit where. The read-back proofs below use only these, so they
  // never reason about the printed strings themselves.

  function SumLen(e: Expr): nat
    decreases e, SumRank(e)
  {
    if IsSum(e) then SumLen(e.l) + 1 + TermLen(e.r) else TermLen(e)
  }

  function TermLen(e: Expr): nat
    decreases e, TermRank(e)
  {
    if IsProduct(e) then TermLen(e.l) + 1 + FactorLen(e.r) else FactorLen(e)
  }

  function FactorLen(e: Expr): nat
    decreases e, FactorRank(e)
  {
    if e.Lit? then |JsText.NatToString(e.n)| else SumLen(e) + 2
  }

  /** `e`, printed as a sum, starts at position `i` of `s`. */
  predicate SumAt(e: Expr, s: string, i: nat)
    decreases e, SumRank(e)
  {
    if IsSum(e) then
      SumAt(e.l, s, i) && CharAt(s, i + SumLen(e.l), OpOf(e)) && TermAt(e.r, s, i + SumLen(e.l) + 1)
    else TermAt(e, s, i)
  }

  predicate TermAt(e: Expr, s: string, i: nat)
    decreases e, TermRank(e)
  {
    if IsProduct(e) then
      TermAt(e.l, s, i) && CharAt(s, i + TermLen(e.l), OpOf(e)) && FactorAt(e.r, s, i + TermLen(e.l) + 1)
    else FactorAt(e, s, i)
  }

  predicate FactorAt(e: Expr, s: string, i: nat)
    decreases e, FactorRank(e)
  {
    if e.Lit? then IsAt(s, i, JsText.NatToString(e.n))
    else CharAt(s, i, '(') && SumAt(e, s, i + 1) && CharAt(s, i + 1 + SumLen(e), ')')
  }

  lemma {:induction false} PrintedLengths(e: Expr)
    ensures |PrintSum(e)| == SumLen(e) && |PrintTerm(e)| == TermLen(e) && |PrintFactor(e)| == FactorLen(e)
  {
    match e
    case Lit(_) =>
      assert PrintSum(e) == PrintTerm(e) == PrintFactor(e);
      assert SumLen(e) == TermLen(e) == FactorLen(e);
    case Add(a, b) => PrintedLengths(a); PrintedLengths(b);
    case Sub(a, b) => PrintedLengths(a); PrintedLengths(b);
    case Mul(a, b) => PrintedLengths(a); PrintedLengths(b);
    case Div(a, b) => PrintedLengths(a); PrintedLengths(b);
  }

  lemma {:induction false} SumLayout(e: Expr, s: string, i: nat)
    requires IsAt(s, i, PrintSum(e))
    ensures SumAt(e, s, i)
    decreases e, SumRank(e)
  {
    if IsSum(e) {
      PrintedLengths(e.l);
      assert PrintSum(e) == PrintSum(e.l) + [OpOf(e)] + PrintTerm(e.r);
      OperatorSplit(s, i, PrintSum(e.l), OpOf(e), PrintTerm(e.r));
      SumLayout(e.l, s, i);
      TermLayout(e.r, s, i + SumLen(e.l) + 1);
    } else {
      assert PrintSum(e) == PrintTerm(e);
      TermLayout(e, s, i);
    }
  }

  lemma {:induction false} TermLayout(e: Expr, s: string, i: nat)
    requires IsAt(s, i, PrintTerm(e))
    ensures TermAt(e, s, i)
    decreases e, TermRank(e)
  {
    if IsProduct(e) {
      PrintedLengths(e.l);
      assert PrintTerm(e) == PrintTerm(e.l) + [OpOf(e)] + PrintFactor(e.r);
      OperatorSplit(s, i, PrintTerm(e.l), OpOf(e), PrintFactor(e.r));
      TermLayout(e.l, s, i);
      FactorLayout(e.r, s, i + TermLen(e.l) + 1);
    } else {
      assert PrintTerm(e) == PrintFactor(e);
      FactorLayout(e, s, i);
    }
  }

  lemma {:induction false} FactorLayout(e: Expr, s: string, i: nat)
    requires IsAt(s, i, PrintFactor(e))
    ensures FactorAt(e, s, i)
    decreases e, FactorRank(e)
  {
    if !e.Lit? {
      PrintedLengths(e);
      assert PrintFactor(e) == "(" + PrintSum(e) + ")";
      ParenSplit(s, i, PrintSum(e));
      SumLayout(e, s, i + 1);
    }
  }

  // The laid-out tree read back, by induction on the tree. Each lemma only
  // dispatches on the shape of the tree; the `...Step` lemmas take one
  // step of the grammar each.

  lemma {:induction false} FactorReads(e: Expr, s: string, i: nat)
    requires FactorAt(e, s, i)
    requires EndsNumber(s, i + FactorLen(e))
    ensures ReadsFactor(s, i, Eval(e), i + FactorLen(e))
    decreases e, FactorRank(e), 1
  {
    hide ReadsFactor, ReadsTerm, ReadsSum;
    if e.Lit? {
      NumeralAt(s, i, e.n);
      NumberIsFactor(s, i, e.n as real, i + FactorLen(e));
    } else {
      ParenStep(e, s, i);
    }
  }

  /** A parenthesised sum. */
  lemma {:induction false} ParenStep(e: Expr, s: string, i: nat)
    requires !e.Lit?
    requires FactorAt(e, s, i)
    ensures ReadsFactor(s, i, Eval(e), i + FactorLen(e))
    decreases e, FactorRank(e), 0
  {
    hide ReadsFactor, ReadsTerm, ReadsSum;
    SumReads(e, s, i + 1);
    ParenRound(s, i, Eval(e), i + 1 + SumLen(e));
  }

  lemma {:induction false} TermReads(e: Expr, s: string, i: nat)
    requires TermAt(e, s, i)
    requires EndsNumber(s, i + TermLen(e))
    ensures ReadsTerm(s, i, Eval(e), i + TermLen(e))
    decreases e, TermRank(e), 1
  {
    hide ReadsFactor, ReadsTerm, ReadsSum;
    if IsProduct(e) {
      TermStep(e, s, i);
    } else {
      FactorStep(e, s, i);
    }
  }

  /** A term that is a single factor. */
  lemma {:induction false} FactorStep(e: Expr, s: string, i: nat)
    requires !IsProduct(e)
    requires TermAt(e, s, i)
    requires EndsNumber(s, i + TermLen(e))
    ensures ReadsTerm(s, i, Eval(e), i + TermLen(e))
    decreases e, TermRank(e), 0
  {
    hide ReadsFactor, ReadsTerm, ReadsSum;
    FactorReads(e, s, i);
    FactorIsTerm(s, i, Eval(e), i + FactorLen(e));
  }

  /** A product `a*b` or `a/b`: the left operand is read as a term, then one
      round of the loop reads the right operand as a factor. */
  lemma {:induction false} TermStep(e: Expr, s: string, i: nat)
    requires IsProduct(e)
    requires TermAt(e, s, i)
    requires EndsNumber(s, i + TermLen(e))
    ensures ReadsTerm(s, i, Eval(e), i + TermLen(e))
    decreases e, 0, 0
  {
    hide ReadsFactor, ReadsTerm, ReadsSum;
    var j := i + TermLen(e.l);
    TermReads(e.l, s, i);
    FactorReads(e.r, s, j + 1);
    ProductEval(e);
    TermRound(s, i, j, i + TermLen(e), Eval(e.l), Eval(e.r), Eval(e));
  }

  lemma {:induction false} SumReads(e: Expr, s: string, i: nat)
    requires SumAt(e, s, i)
    requires EndsTerm(s, i + SumLen(e))
    ensures ReadsSum(s, i, Eval(e), i + SumLen(e))
    decreases e, SumRank(e), 1
  {
    hide ReadsFactor, ReadsTerm, ReadsSum;
    if IsSum(e) {
      SumStep(e, s, i);
    } else {
      TermAsSum(e, s, i);
    }
  }

  /** A sum that is a single term. */
  lemma {:induction false} TermAsSum(e: Expr, s: string, i: nat)
    requires !IsSum(e)
    requires SumAt(e, s, i)
    requires EndsTerm(s, i + SumLen(e))
    ensures ReadsSum(s, i, Eval(e), i + SumLen(e))
    decreases e, SumRank(e), 0
  {
    hide ReadsFactor, ReadsTerm, ReadsSum;
    assert SumLen(e) == TermLen(e) && TermAt(e, s, i);
    TermReads(e, s, i);
    TermIsSum(s, i, Eval(e), i + TermLen(e));
  }

  /** A sum `a+b` or `a-b`: the left operand is read as a sum, then one round
      of the loop reads the right operand as a term. */
  lemma {:induction false} SumStep(e: Expr, s: string, i: nat)
    requires IsSum(e)
    requires SumAt(e, s, i)
    requires EndsTerm(s, i + SumLen(e))
    ensures ReadsSum(s, i, Eval(e), i + SumLen(e))
    decreases e, 0, 0
  {
    hide ReadsFactor, ReadsTerm, ReadsSum;
    var j := i + SumLen(e.l);
    SumReads(e.l, s, i);
    TermReads(e.r, s, j + 1);
    SumEval(e);
    SumRound(s, i, j, i + SumLen(e), Eval(e.l), Eval(e.r), Eval(e));
  }

  predicate NoSpace(s: string) {
    forall k :: 0 <= k < |s| ==> !JsText.IsSpace(s[k])
  }

  lemma NoSpaceConcat(a: string, b: string)
    requires NoSpace(a) && NoSpace(b)
    ensures NoSpace(a + b)
  {
    forall k | 0 <= k < |a + b| ensures !JsText.IsSpace((a + b)[k]) {
      if k < |a| { assert (a + b)[k] == a[k]; } else { assert (a + b)[k] == b[k - |a|]; }
    }
  }

  // No printed form contains white space.

  lemma {:induction false} SumNoSpace(e: Expr)
    ensures NoSpace(PrintSum(e))
    decreases e, SumRank(e)
  {
    if IsSum(e) {
      SumNoSpace(e.l);
      TermNoSpace(e.r);
      assert PrintSum(e) == PrintSum(e.l) + [OpOf(e)] + PrintTerm(e.r);
      NoSpaceConcat(PrintSum(e.l), [OpOf(e)]);
      NoSpaceConcat(PrintSum(e.l) + [OpOf(e)], PrintTerm(e.r));
    } else {
      assert PrintSum(e) == PrintTerm(e);
      TermNoSpace(e);
    }
  }

  lemma {:induction false} TermNoSpace(e: Expr)
    ensures NoSpace(PrintTerm(e))
    decreases e, TermRank(e)
  {
    if IsProduct(e) {
      TermNoSpace(e.l);
      FactorNoSpace(e.r);
      assert PrintTerm(e) == PrintTerm(e.l) + [OpOf(e)] + PrintFactor(e.r);
      NoSpaceConcat(PrintTerm(e.l), [OpOf(e)]);
      NoSpaceConcat(PrintTerm(e.l) + [OpOf(e)], PrintFactor(e.r));
    } else {
      assert PrintTerm(e) == PrintFactor(e);
      FactorNoSpace(e);
    }
  }

  lemma {:induction false} FactorNoSpace(e: Expr)
    ensures NoSpace(PrintFactor(e))
    decreases e, FactorRank(e)
  {
    if e.Lit? {
      var p := JsText.NatToString(e.n);
      assert forall k :: 0 <= k < |p| ==> JsText.IsDigit(p[k]);
    } else {
      SumNoSpace(e);
      assert PrintFactor(e) == "(" + PrintSum(e) + ")";
      NoSpaceConcat("(", PrintSum(e));
      NoSpaceConcat("(" + PrintSum(e), ")");
    }
  }

  /** The parser agrees with the reference semantics: a tree printed with
      minimal parentheses evaluates to the tree's value. The printer puts
      `*`,`/` operands without parentheses under `+`,`-` and chains each level
      to the left, so this is precedence and left associativity. */
  lemma EvaluatesPrinted(e: Expr)
    ensures BasicMathValue(PrintSum(e)) == Eval(e)
  {
    var s := PrintSum(e);
    SumNoSpace(e);
    RemoveSpacesKeeps(s);
    assert s[0..0 + |s|] == s;
    PrintedLengths(e);
    SumLayout(e, s, 0);
    SumReads(e, s, 0);
    assert SumLoop(s, |s|, Eval(e)) == (Eval(e), |s|);
  }

  /** `2+3*(4-1)` is 11: multiplication binds tighter than addition and
      parentheses group. */
  lemma WorkedExample()
    ensures BasicMathValue("2+3*(4-1)") == 11.0
  {
    var e := Add(Lit(2), Mul(Lit(3), Sub(Lit(4), Lit(1))));
    assert PrintFactor(Sub(Lit(4), Lit(1))) == "(4-1)";
    assert PrintSum(e) == "2+3*(4-1)";
    EvaluatesPrinted(e);
    assert Eval(e) == 11.0;
  }

  /** White space anywhere in an expression is ignored, so `2 + 3 * (4 - 1)`
      is 11 as well. */
  lemma SpaceIsIgnored(a: string, c: char, b: string)
    requires JsText.IsSpace(c)
    ensures BasicMathValue(a + [c] + b) == BasicMathValue(a + b)
  {
    RemoveSpacesConcat(a + [c], b);
    RemoveSpacesConcat(a, [c]);
    RemoveSpacesConcat(a, b);
    assert [c][1..] == [];
    assert RemoveSpaces([c]) == [];
    assert RemoveSpaces(a + [c]) + RemoveSpaces(b) == RemoveSpaces(a) + RemoveSpaces(b);
  }

  lemma {:induction false} RemoveSpacesConcat(a: string, b: string)
    ensures RemoveSpaces(a + b) == RemoveSpaces(a) + RemoveSpaces(b)
  {
    if a != [] {
      RemoveSpacesConcat(a[1..], b);
      assert (a + b)[0] == a[0] && (a + b)[1..] == a[1..] + b;
    } else {
      assert a + b == b;
    }
  }

  /** Removing white space a second time changes nothing. */
  lemma RemoveSpacesIdempotent(s: string)
    ensures RemoveSpaces(RemoveSpaces(s)) == RemoveSpaces(s)
  {
    RemoveSpacesKeeps(RemoveSpaces(s));
  }

  /** Subtraction chains to the left: `8-3-2` is 3, not 7. */
  lemma SubtractionIsLeftAssociative()
    ensures BasicMathValue("8-3-2") == 3.0
  {
    var e := Sub(Sub(Lit(8), Lit(3)), Lit(2));
    assert PrintSum(e) == "8-3-2";
    EvaluatesPrinted(e);
  }

  /** Dividing by anything that evaluates to zero gives zero. */
  lemma DivisionByZeroIsZero(a: Expr, b: Expr)
    requires Eval(b) == 0.0
    ensures BasicMathValue(PrintSum(Div(a, b))) == 0.0
  {
    EvaluatesPrinted(Div(a, b));
  }

  /** An empty expression, and an empty pair of parentheses, read as 0. */
  lemma EmptyNumberIsZero()
    ensures BasicMathValue("") == 0.0
    ensures BasicMathValue("()") == 0.0
  {
    assert RemoveSpaces("()") == "()";
    assert NumberToken("()", 1) == "";
  }
}
