/** The evaluator: programs, expression statements, integer and boolean
    literals and the prefix operators `!` and `-`.

    `Eval` returns `None` where the Go function returns nil: for every node
    kind it does not list (identifiers, atom and produce statements, and so
    nil atom statements too) and for an empty program. Booleans and null
    are the shared `TRUE`, `FALSE` and `NULL` values; since evaluation makes
    no other boolean or null value, comparing values, as `!` does, is
    comparing them with these. */
module Evaluator {
  import opened Wrappers
  import opened GoTypes
  import opened Ast
  import opened Object

  const NULL: Object := Null
  const TRUE: Object := Object.Boolean(true)
  const FALSE: Object := Object.Boolean(false)

  /** The values evaluation makes: integers and the three shared values. */
  predicate Produced(o: Object) {
    o.Integer? || o == TRUE || o == FALSE || o == NULL
  }

  function NativeBool(b: bool): (r: Object)
    ensures r == TRUE || r == FALSE
    ensures r.boolValue == b
  {
    if b then TRUE else FALSE
  }

  // ---------------------------------------------------------------------
  // Where evaluation is defined. Applying `-` to nil fails in the Go code
  // (it asks nil for its type), so the operand of every `-` must evaluate
  // to a value.

  predicate SafeExpression(e: Expression) {
    match e
    case PrefixExpression(op, right) =>
      SafeExpression(right) && (op == "-" ==> !right.IdentExpr?)
    case _ => true
  }

  predicate SafeStatement(s: Statement) {
    s.ExpressionStatement? ==> SafeExpression(s.expression)
  }

  predicate SafeNode(n: Node) {
    match n
    case ProgramNode(p) => forall i | 0 <= i < |p.statements| :: SafeStatement(p.statements[i])
    case StatementNode(s) => SafeStatement(s)
    case ExpressionNode(e) => SafeExpression(e)
  }

  // ---------------------------------------------------------------------
  // Evaluation

  /** `!`: TRUE and FALSE swap, NULL gives TRUE, anything else (an integer,
      zero included, or nil) gives FALSE. */
  function EvalBang(right: Option<Object>): (r: Object)
    ensures r == TRUE || r == FALSE
    ensures r == TRUE <==> right == Some(FALSE) || right == Some(NULL)
  {
    match right
    case Some(o) =>
      if o == TRUE then FALSE
      else if o == FALSE then TRUE
      else if o == NULL then TRUE
      else FALSE
    case None => FALSE
  }

  /** `-`: negation of an integer, with the int64 wrap-around; NULL for any
      other value. */
  function EvalMinus(right: Object): (r: Object)
    ensures right.Integer? ==> r == Integer(Neg(right.intValue))
    ensures !right.Integer? ==> r == NULL
  {
    if right.Type() != IntegerObj then NULL
    else
      assert right.Integer? by { TypeTellsKind(right, Integer(0)); }
      Integer(Neg(right.intValue))
  }

  /** `evalPrefixExpression`: dispatch on the operator. */
  function EvalPrefix(operator: string, right: Option<Object>): (r: Object)
    requires operator == "-" ==> right.Some?
    ensures Produced(r)
    ensures operator != "!" && operator != "-" ==> r == NULL
  {
    if operator == "!" then EvalBang(right)
    else if operator == "-" then EvalMinus(right.value)
    else NULL
  }

  function EvalExpression(e: Expression): (r: Option<Object>)
    requires SafeExpression(e)
    ensures r.Some? ==> Produced(r.value)
    ensures r.None? <==> e.IdentExpr?
  {
    match e
    case IntegerLiteral(v) => Some(Integer(v))
    case Boolean(b) => Some(NativeBool(b))
    case PrefixExpression(op, right) => Some(EvalPrefix(op, EvalExpression(right)))
    case IdentExpr(_) => None
  }

  function EvalStatement(s: Statement): (r: Option<Object>)
    requires SafeStatement(s)
    ensures r.Some? ==> Produced(r.value)
  {
    match s
    case ExpressionStatement(e) => EvalExpression(e)
    case _ => None
  }

  /** The loop of `evalStatements`: evaluate each statement in turn, keeping
      the last result; `result` is the result so far. */
  function RunStatements(stmts: seq<Statement>, result: Option<Object>): (r: Option<Object>)
    requires forall i | 0 <= i < |stmts| :: SafeStatement(stmts[i])
    ensures stmts == [] ==> r == result
    ensures stmts != [] || result.None? || Produced(result.value) ==> r.None? || Produced(r.value)
    decreases |stmts|
  {
    if stmts == [] then result
    else RunStatements(stmts[1..], EvalStatement(stmts[0]))
  }

  function Eval(node: Node): (r: Option<Object>)
    requires SafeNode(node)
    ensures r.Some? ==> Produced(r.value)
    ensures node.ExpressionNode? ==> (r.None? <==> node.expression.IdentExpr?)
    ensures node.ProgramNode? && node.program.statements == [] ==> r.None?
  {
    match node
    case ProgramNode(p) => RunStatements(p.statements, None)
    case StatementNode(s) => EvalStatement(s)
    case ExpressionNode(e) => EvalExpression(e)
  }

  /** `evalStatements` with its loop. */
  method EvalStatements(stmts: seq<Statement>) returns (result: Option<Object>)
    requires forall i | 0 <= i < |stmts| :: SafeStatement(stmts[i])
    ensures result == RunStatements(stmts, None)
    ensures stmts == [] ==> result.None?
    ensures stmts != [] ==> result == EvalStatement(stmts[|stmts| - 1])
  {
    result := None;
    for i := 0 to |stmts|
      invariant RunStatements(stmts[i..], result) == RunStatements(stmts, None)
      invariant i > 0 ==> result == EvalStatement(stmts[i - 1])
    {
      assert stmts[i..][1..] == stmts[i + 1..];
      result := EvalStatement(stmts[i]);
    }
    assert stmts[|stmts|..] == [];
  }

  // ---------------------------------------------------------------------
  // Properties

  /** A program's value is its last statement's, and nil when empty: no
      statement stops the others and no earlier result survives. */
  lemma {:induction false} RunStatementsIsLast(stmts: seq<Statement>, result: Option<Object>)
    requires forall i | 0 <= i < |stmts| :: SafeStatement(stmts[i])
    ensures stmts == [] ==> RunStatements(stmts, result) == result
    ensures stmts != [] ==> RunStatements(stmts, result) == EvalStatement(stmts[|stmts| - 1])
    decreases |stmts|
  {
    if stmts != [] {
      RunStatementsIsLast(stmts[1..], EvalStatement(stmts[0]));
      if |stmts| > 1 {
        assert stmts[1..][|stmts| - 2] == stmts[|stmts| - 1];
      }
    }
  }

  lemma EvalProgram(p: Program)
    requires SafeNode(ProgramNode(p))
    ensures p.statements == [] ==> Eval(ProgramNode(p)) == None
    ensures p.statements != [] ==>
      Eval(ProgramNode(p)) == Eval(StatementNode(p.statements[|p.statements| - 1]))
  {
    RunStatementsIsLast(p.statements, None);
  }

  /** Literals evaluate to themselves; booleans to the shared values. */
  lemma EvalLiterals(v: Int64, b: bool)
    ensures Eval(ExpressionNode(IntegerLiteral(v))) == Some(Integer(v))
    ensures Eval(ExpressionNode(Expression.Boolean(b))) == Some(if b then TRUE else FALSE)
  {
  }

  /** An expression statement has the value of its expression. */
  lemma EvalExpressionStatement(e: Expression)
    requires SafeExpression(e)
    ensures Eval(StatementNode(ExpressionStatement(e))) == Eval(ExpressionNode(e))
  {
  }

  /** Statements other than expression statements, nil atom statements
      among them, evaluate to nil. */
  lemma EvalOtherStatements(a: Option<AtomStatement>, pr: ProduceStatement)
    ensures Eval(StatementNode(AtomStmt(a))) == None
    ensures Eval(StatementNode(ProduceStmt(pr))) == None
  {
  }

  /** `!!x` is TRUE exactly for the values that are neither FALSE nor NULL
      (nil included). */
  lemma DoubleBang(x: Option<Object>)
    ensures EvalBang(Some(EvalBang(x))) == TRUE <==> x != Some(FALSE) && x != Some(NULL)
  {
  }

  /** `!` on an evaluated expression: the truth table. */
  lemma BangTable(e: Expression)
    requires SafeExpression(e)
    ensures var r := Eval(ExpressionNode(PrefixExpression("!", e)));
      && (EvalExpression(e) == Some(TRUE) ==> r == Some(FALSE))
      && (EvalExpression(e) == Some(FALSE) ==> r == Some(TRUE))
      && (EvalExpression(e) == Some(NULL) ==> r == Some(TRUE))
      && (EvalExpression(e).Some? && EvalExpression(e).value.Integer? ==> r == Some(FALSE))
      && (EvalExpression(e).None? ==> r == Some(FALSE))
  {
  }

  /** `-` twice gives the integer back, the smallest int64 included, which
      `-` leaves as it is. */
  lemma MinusTwice(v: Int64)
    ensures EvalMinus(EvalMinus(Integer(v))) == Integer(v)
    ensures EvalMinus(Integer(MinInt64)) == Integer(MinInt64)
  {
    NegInvolutive(v);
  }

  /** `-` on an evaluated expression: the negated integer, or NULL. */
  lemma MinusOnEval(e: Expression)
    requires SafeExpression(PrefixExpression("-", e))
    ensures var r := Eval(ExpressionNode(PrefixExpression("-", e)));
      var v := EvalExpression(e).value;
      && EvalExpression(e).Some?
      && (v.Integer? ==> r == Some(Integer(Neg(v.intValue))))
      && (!v.Integer? ==> r == Some(NULL))
  {
  }

  /** `-` on a boolean or null gives NULL, never an error value; evaluation
      never makes an error value at all. */
  lemma MinusNonInteger(b: bool)
    ensures EvalMinus(Object.Boolean(b)) == NULL && EvalMinus(NULL) == NULL
  {
  }

  lemma EvalNeverErrs(n: Node)
    requires SafeNode(n)
    ensures Eval(n).Some? ==> !Eval(n).value.Error? && !Eval(n).value.ProduceValue?
  {
    if n.ProgramNode? {
      RunStatementsIsLast(n.program.statements, None);
    }
  }

  /** Any operator but `!` and `-` gives NULL, whatever its operand. */
  lemma OtherPrefixIsNull(op: string, e: Expression)
    requires op != "!" && op != "-" && SafeExpression(e)
    ensures Eval(ExpressionNode(PrefixExpression(op, e))) == Some(NULL)
  {
  }
}
