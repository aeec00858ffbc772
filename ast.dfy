/** The syntax tree.

    `Program`, `AtomStatement` and `Identifier` are the nodes the tree
    module defines. `ProduceStatement` is the node the parser builds for
    `produce` (which it names `ProduceStatementStruct`); `ExpressionStatement`,
    `IntegerLiteral`, `Boolean` and `PrefixExpression` are the nodes the
    evaluator reads, with only the fields it reads. Statements and
    expressions are separate types, so no node is both. */
module Ast {
  import opened Wrappers
  import opened GoTypes
  import opened Token

  datatype Identifier = Identifier(token: Token, value: string) {
    function TokenLiteral(): string {
      token.literal
    }
  }

  datatype Expression =
    | IdentExpr(identifier: Identifier)
    | IntegerLiteral(intValue: Int64)
    | Boolean(boolValue: bool)
    | PrefixExpression(operator: string, right: Expression)

  datatype AtomStatement = AtomStatement(token: Token, name: Identifier, value: Option<Expression>) {
    function TokenLiteral(): string {
      token.literal
    }
  }

  datatype ProduceStatement = ProduceStatement(token: Token)

  /** A statement slot of a program. `AtomStmt(None)` is a nil
      `*AtomStatement` held in a non-nil statement interface: the parser
      appends one for every malformed `atom` statement. */
  datatype Statement =
    | AtomStmt(atom: Option<AtomStatement>)
    | ProduceStmt(produce: ProduceStatement)
    | ExpressionStatement(expression: Expression)
  {
    /** Only a non-nil atom statement has a token literal: on the nil one
        the Go method dereferences nil, and the other nodes define none. */
    predicate HasTokenLiteral() {
      AtomStmt? && atom.Some?
    }

    function TokenLiteral(): string
      requires HasTokenLiteral()
    {
      atom.value.TokenLiteral()
    }
  }

  datatype Program = Program(statements: seq<Statement>) {
    predicate HasTokenLiteral() {
      |statements| > 0 ==> statements[0].HasTokenLiteral()
    }

    function TokenLiteral(): string
      requires HasTokenLiteral()
    {
      if |statements| > 0 then statements[0].TokenLiteral() else ""
    }
  }

  /** Any node, as the evaluator receives it. */
  datatype Node =
    | ProgramNode(program: Program)
    | StatementNode(statement: Statement)
    | ExpressionNode(expression: Expression)

  /** The empty program's literal is empty; any other program's is its
      first statement's, whatever follows. */
  lemma ProgramTokenLiteral(first: Statement, rest: seq<Statement>)
    requires first.HasTokenLiteral()
    ensures Program([]).TokenLiteral() == ""
    ensures Program([first] + rest).TokenLiteral() == first.TokenLiteral()
    ensures Program([first] + rest).TokenLiteral() == Program([first]).TokenLiteral()
  {
  }

  /** A statement's literal is its node's token's: an identifier's, an
      atom statement's, and so a program's; a nil atom statement and a
      produce statement have none. */
  lemma TokenLiterals(t: Token, v: string, a: AtomStatement, p: ProduceStatement, rest: seq<Statement>)
    ensures Identifier(t, v).TokenLiteral() == t.literal
    ensures AtomStmt(Some(a)).HasTokenLiteral() && AtomStmt(Some(a)).TokenLiteral() == a.token.literal
    ensures Program([AtomStmt(Some(a))] + rest).TokenLiteral() == a.token.literal
    ensures !AtomStmt(None).HasTokenLiteral() && !ProduceStmt(p).HasTokenLiteral()
  {
  }

  // ---------------------------------------------------------------------
  // Rendering. The tree module defines no rendering; its test asserts one,
  // for a program of atom statements whose values are identifiers. Only
  // that much is defined here.

  predicate Renderable(s: Statement) {
    s.AtomStmt? && s.atom.Some? && (s.atom.value.value.None? || s.atom.value.value.value.IdentExpr?)
  }

  function RenderStatement(s: Statement): (r: string)
    requires Renderable(s)
    ensures |r| > 0 && r[|r| - 1] == ';'
  {
    var a := s.atom.value;
    a.TokenLiteral() + " " + a.name.value + " = "
      + (if a.value.Some? then a.value.value.identifier.value else "") + ";"
  }

  /** The statements rendered one after another. */
  function Render(p: Program): (r: string)
    requires forall i | 0 <= i < |p.statements| :: Renderable(p.statements[i])
    ensures r == [] <==> p.statements == []
    ensures p.statements != [] ==> r[|r| - 1] == ';'
    decreases |p.statements|
  {
    if p.statements == [] then ""
    else RenderStatement(p.statements[0]) + Render(Program(p.statements[1..]))
  }

  /** The program the tree module's test builds by hand. */
  function TestProgram(): Program {
    Program([AtomStmt(Some(AtomStatement(
      Token(Atom, "atom"),
      Identifier(Token(Ident, "myVar"), "myVar"),
      Some(IdentExpr(Identifier(Token(Ident, "anotherVar"), "anotherVar"))))))])
  }

  lemma TestProgramRenders()
    ensures Render(TestProgram()) == "atom myVar = anotherVar;"
  {
  }
}
