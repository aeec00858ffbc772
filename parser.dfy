/** The parser: a two-token lookahead over the scanner's token stream, with
    a list of diagnostics that only grows.

    `ParserState` and its functions say what each parser step does to the
    lookahead pair, to the tokens the scanner has still to yield and to the
    diagnostics; the class `Parser` is the Go parser itself, holding a
    `Lexer`, and each of its methods is proved to do what the matching
    function says. Expressions are not parsed: the value of an `atom`
    statement is skipped and that of a `produce` statement is skipped up to
    the next semicolon. */
module Parser {
  import opened GoTypes
  import opened Wrappers
  import opened Token
  import opened Lexer
  import opened Ast

  const EofToken: Token := Token(Eof, "")

  /** The diagnostic `expectPeek` records. */
  function ExpectedMessage(expected: TokenType, got: TokenType): string {
    "expected next token to be " + expected.Name() + ", got " + got.Name() + " instead"
  }

  /** The first position in `ts` of a token of kind `k`. */
  function FirstOf(ts: seq<Token>, k: TokenType): (r: Option<nat>)
    ensures r.Some? ==> r.value < |ts| && ts[r.value].tokenType == k
    ensures r.Some? ==> forall j | 0 <= j < r.value :: ts[j].tokenType != k
    ensures r.None? ==> forall j | 0 <= j < |ts| :: ts[j].tokenType != k
    decreases |ts|
  {
    if ts == [] then None
    else if ts[0].tokenType == k then Some(0)
    else match FirstOf(ts[1..], k)
      case None => None
      case Some(i) => Some(i + 1)
  }

  /** How a parser run ends: it halts with a result in a state, or it never
      returns (a `produce` statement with no semicolon after it). */
  datatype Run<T> = Diverges | Halts(result: T, after: ParserState)

  /** The parser's state: the lookahead pair, the tokens the scanner has not
      yet yielded, and the diagnostics so far. Once the scanner has nothing
      left it yields EOF on every call. */
  datatype ParserState = ParserState(cur: Token, peek: Token, rest: seq<Token>, errors: seq<string>)
  {
    /** What the scanner guarantees of its stream: it ends with EOF, and a
        keyword token carries its keyword's spelling. */
    predicate Consistent() {
      && (rest == [] ==> peek.tokenType == Eof)
      && (rest != [] ==> rest[|rest| - 1].tokenType == Eof)
      && Spelled(cur) && Spelled(peek)
      && forall i | 0 <= i < |rest| :: Spelled(rest[i])
    }

    /** The whole stream still to come, lookahead pair first. */
    function Ahead(): seq<Token> {
      [cur, peek] + rest
    }

    /** Decreases with every step that takes a token off a stream which is
        not yet all EOF. */
    function Measure(): nat {
      3 * |rest| + (if peek.tokenType == Eof then 0 else 1) + (if cur.tokenType == Eof then 0 else 1)
    }

    /** `nextToken`: the peeked token becomes current and one more token is
        taken from the scanner. */
    function NextToken(): (s: ParserState)
      ensures s.cur == peek && s.errors == errors
      ensures rest != [] ==> s.Ahead() == Ahead()[1..]
      ensures Consistent() ==> s.Consistent() && s.Measure() <= Measure()
      ensures Consistent() && (cur.tokenType != Eof || rest != []) ==> s.Measure() < Measure()
    {
      if rest == [] then ParserState(peek, EofToken, [], errors)
      else ParserState(peek, rest[0], rest[1..], errors)
    }

    function CurTokenIs(t: TokenType): bool {
      cur.tokenType == t
    }

    function PeekTokenIs(t: TokenType): bool {
      peek.tokenType == t
    }

    /** `peekError`: one diagnostic naming the expected and the peeked kind. */
    function PeekError(t: TokenType): (r: ParserState)
      ensures r.cur == cur && r.peek == peek && r.rest == rest
      ensures r.errors == errors + [ExpectedMessage(t, peek.tokenType)]
      ensures Consistent() ==> r.Consistent() && r.Measure() == Measure()
    {
      this.(errors := errors + [ExpectedMessage(t, peek.tokenType)])
    }

    /** `expectPeek`: advance when the peeked token has kind `t`, otherwise
        stay put and record exactly one diagnostic. */
    function ExpectPeek(t: TokenType): (r: (bool, ParserState))
      ensures r.0 <==> peek.tokenType == t
      ensures r.0 ==> r.1 == NextToken()
      ensures !r.0 ==> r.1.Ahead() == Ahead() && r.1.errors == errors + [ExpectedMessage(t, peek.tokenType)]
    {
      if PeekTokenIs(t) then (true, NextToken()) else (false, PeekError(t))
    }

    /** `parseAtomStatement`: `atom`, an identifier, `=`, and one skipped
        token. A malformed statement yields `None` (a nil pointer) and
        exactly one diagnostic. */
    function ParseAtomStatement(): (r: (Option<AtomStatement>, ParserState))
      requires Consistent()
      ensures r.1.Consistent() && errors <= r.1.errors
      ensures r.0.Some? <==> peek.tokenType == Ident && NextToken().peek.tokenType == Assign
      ensures r.0.Some? ==> r.1.errors == errors
      ensures r.0.None? ==> |r.1.errors| == |errors| + 1
      ensures r.0.Some? ==>
        && r.0.value.token == cur
        && r.0.value.name.token.tokenType == Ident
        && r.0.value.name.TokenLiteral() == r.0.value.name.value
        && r.0.value.value.None?
      ensures cur.tokenType != Eof ==>
        r.1.Measure() < Measure() || (r.1.Measure() == Measure() && r.1.cur == cur)
    {
      var (ok1, s1) := ExpectPeek(Ident);
      if !ok1 then (None, s1)
      else
        var name := Identifier(s1.cur, s1.cur.literal);
        var (ok2, s2) := s1.ExpectPeek(Assign);
        if !ok2 then (None, s2)
        else
          var s3 := if !s2.CurTokenIs(Semicolon) then s2.NextToken() else s2;
          (Some(AtomStatement(cur, name, None)), s3)
    }

    /** The loop of `praseProduceStatement`: advance until the current token
        is a semicolon. `None` where the Go loop never ends: no semicolon is
        left and every later token is EOF. */
    function SkipToSemicolon(): (r: Option<ParserState>)
      requires Consistent()
      ensures r.Some? ==> r.value.Consistent() && r.value.cur.tokenType == Semicolon
      ensures r.Some? ==> r.value.errors == errors && r.value.Measure() <= Measure()
      decreases Measure()
    {
      if CurTokenIs(Semicolon) then Some(this)
      else if rest == [] && cur.tokenType == Eof then None
      else NextToken().SkipToSemicolon()
    }

    /** `praseProduceStatement`: `produce` and every token up to the next
        semicolon. */
    function ParseProduceStatement(): (r: Option<(ProduceStatement, ParserState)>)
      requires Consistent()
      ensures r.Some? ==> r.value.0.token == cur && r.value.1.errors == errors
      ensures r.Some? ==> r.value.1.Consistent() && r.value.1.cur.tokenType == Semicolon
      ensures r.Some? && cur.tokenType != Eof ==> r.value.1.Measure() < Measure()
    {
      match NextToken().SkipToSemicolon()
      case None => None
      case Some(s) => Some((ProduceStatement(cur), s))
    }

    /** `parseStatement`: dispatch on the current token. `Some(AtomStmt(None))`
        is the nil `*AtomStatement` of a malformed statement, which is a
        non-nil statement; `None` is the untyped nil of any other start. */
    function ParseStatement(): (r: Run<Option<Statement>>)
      requires Consistent()
      ensures r.Halts? ==> r.after.Consistent() && errors <= r.after.errors
      ensures r.Halts? && cur.tokenType != Eof ==>
        r.after.Measure() < Measure() || (r.after.Measure() == Measure() && r.after.cur == cur)
      ensures !CurTokenIs(Atom) && !CurTokenIs(Produce) ==> r == Halts(None, this)
      ensures CurTokenIs(Atom) ==> r.Halts? && r.result.Some? && r.result.value.AtomStmt?
      ensures CurTokenIs(Produce) ==> (r.Diverges? <==> ParseProduceStatement().None?)
      ensures CurTokenIs(Produce) && ParseProduceStatement().Some? ==>
        r == Halts(Some(ProduceStmt(ParseProduceStatement().value.0)), ParseProduceStatement().value.1)
      ensures r.Halts? && r.result.Some? && r.result.value.HasTokenLiteral() ==>
        r.result.value.TokenLiteral() == "atom"
    {
      match cur.tokenType
      case Atom =>
        var (st, s) := ParseAtomStatement();
        Halts(Some(AtomStmt(st)), s)
      case Produce =>
        (match ParseProduceStatement()
         case None => Diverges
         case Some((st, s)) => Halts(Some(ProduceStmt(st)), s))
      case _ => Halts(None, this)
    }

    /** The loop of `ParseProgram` from this state, `acc` parsed so far. */
    function ParseLoop(acc: seq<Statement>): (r: Run<seq<Statement>>)
      requires Consistent()
      ensures r.Halts? ==> acc <= r.result && errors <= r.after.errors
      ensures r.Halts? ==> r.after.Consistent() && r.after.cur.tokenType == Eof
      decreases Measure()
    {
      if CurTokenIs(Eof) then Halts(acc, this)
      else
        match ParseStatement()
        case Diverges => Diverges
        case Halts(st, s) =>
          s.NextToken().ParseLoop(if st.Some? then acc + [st.value] else acc)
    }

    /** `ParseProgram`. */
    function ParseProgram(): (r: Run<Program>)
      requires Consistent()
      ensures r.Halts? ==> errors <= r.after.errors && r.after.cur.tokenType == Eof
    {
      match ParseLoop([])
      case Diverges => Diverges
      case Halts(sts, s) => Halts(Program(sts), s)
    }
  }

  /** The `k`-th token of a stream, EOF past its end. */
  function Nth(ts: seq<Token>, k: nat): Token {
    if k < |ts| then ts[k] else EofToken
  }

  /** The state `New` leaves: the first two tokens in the lookahead pair
      and no diagnostics. */
  function Start(ts: seq<Token>): (s: ParserState)
    requires forall i | 0 <= i < |ts| :: Spelled(ts[i])
    requires ts != [] ==> ts[|ts| - 1].tokenType == Eof
    ensures s.Consistent() && s.errors == []
    ensures |ts| >= 2 ==> s.Ahead() == ts
  {
    ParserState(Nth(ts, 0), Nth(ts, 1), if |ts| <= 2 then [] else ts[2..], [])
  }

  // ---------------------------------------------------------------------
  // Properties of the parse

  /** `FirstOf` past a first token of another kind. */
  lemma FirstOfTail(a: seq<Token>, k: TokenType)
    requires a != [] && a[0].tokenType != k
    ensures FirstOf(a, k).None? <==> FirstOf(a[1..], k).None?
    ensures FirstOf(a, k).Some? ==> FirstOf(a, k).value == FirstOf(a[1..], k).value + 1
    ensures FirstOf(a, k).Some? ==> a[1..][FirstOf(a[1..], k).value..] == a[FirstOf(a, k).value..]
  {
  }

  /** Off a semicolon, the produce loop takes one step. */
  lemma SkipPastOne(s: ParserState)
    requires s.Consistent() && s.rest != [] && !s.CurTokenIs(Semicolon)
    ensures s.NextToken().Consistent() && s.NextToken().Measure() < s.Measure()
    ensures s.SkipToSemicolon() == s.NextToken().SkipToSemicolon()
    ensures s.NextToken().Ahead() == s.Ahead()[1..]
  {
  }

  /** With only the lookahead pair left and no semicolon current, there is
      no semicolon to come and the produce loop never ends. */
  lemma SkipLastPair(s: ParserState)
    requires s.Consistent() && s.rest == [] && !s.CurTokenIs(Semicolon)
    ensures FirstOf(s.Ahead(), Semicolon).None?
    ensures s.SkipToSemicolon().None?
  {
    var a := s.Ahead();
    assert a == [s.cur, s.peek] && s.peek.tokenType == Eof;
    FirstOfTail(a, Semicolon);
    assert FirstOf(a[1..], Semicolon) == None by {
      assert a[1..][0] == s.peek;
      FirstOfTail(a[1..], Semicolon);
    }
    if s.cur.tokenType != Eof {
      var n := s.NextToken();
      assert n.cur.tokenType == Eof && n.rest == [];
      assert n.SkipToSemicolon() == None;
    }
  }

  /** The produce loop stops exactly at the first semicolon still to come,
      and runs forever exactly when none is left. */
  lemma {:induction false} SkipToSemicolonStopsAtFirst(s: ParserState)
    requires s.Consistent()
    ensures var f := FirstOf(s.Ahead(), Semicolon);
      && (s.SkipToSemicolon().None? <==> f.None?)
      && (s.SkipToSemicolon().Some? ==>
            f.value < |s.Ahead()| - 1 && s.SkipToSemicolon().value.Ahead() == s.Ahead()[f.value..])
    decreases s.Measure()
  {
    var a := s.Ahead();
    assert a[|a| - 1].tokenType == Eof;
    if s.cur.tokenType == Semicolon {
      assert a[0..] == a;
    } else if s.rest == [] {
      SkipLastPair(s);
    } else {
      SkipPastOne(s);
      SkipToSemicolonStopsAtFirst(s.NextToken());
      FirstOfTail(a, Semicolon);
    }
  }

  /** A `produce` statement ends at the first semicolon after `produce`,
      and never ends when there is none, `produce` last in the input
      included. */
  lemma ProduceStopsAtFirstSemicolon(s: ParserState)
    requires s.Consistent()
    ensures var f := FirstOf(s.Ahead()[1..], Semicolon);
      && (s.ParseProduceStatement().None? <==> f.None?)
      && (s.ParseProduceStatement().Some? ==>
            s.ParseProduceStatement().value.1.Ahead() == s.Ahead()[f.value + 1..])
  {
    if s.rest == [] {
      ProduceAtEnd(s);
    } else {
      ProduceBeforeEnd(s);
    }
  }

  /** `produce` with only EOF after it: the loop never ends. */
  lemma ProduceAtEnd(s: ParserState)
    requires s.Consistent() && s.rest == []
    ensures FirstOf(s.Ahead()[1..], Semicolon).None?
    ensures s.ParseProduceStatement().None?
  {
    SkipLastPair(s.NextToken());
    assert s.Ahead()[1..] == [s.peek];
    assert FirstOf([s.peek][1..], Semicolon) == None;
  }

  lemma ProduceBeforeEnd(s: ParserState)
    requires s.Consistent() && s.rest != []
    ensures var f := FirstOf(s.Ahead()[1..], Semicolon);
      && (s.ParseProduceStatement().None? <==> f.None?)
      && (s.ParseProduceStatement().Some? ==>
            s.ParseProduceStatement().value.1.Ahead() == s.Ahead()[f.value + 1..])
  {
    var n := s.NextToken();
    SkipToSemicolonStopsAtFirst(n);
    var f := FirstOf(n.Ahead(), Semicolon);
    if f.Some? {
      assert n.Ahead()[f.value..] == s.Ahead()[f.value + 1..];
    }
  }

  /** A `produce` statement with a semicolon after it is appended to the
      program, and the loop goes on after the first such semicolon. */
  lemma LoopProduce(s: ParserState, acc: seq<Statement>)
    requires s.Consistent() && s.CurTokenIs(Produce)
    requires FirstOf(s.Ahead()[1..], Semicolon).Some?
    ensures s.ParseProduceStatement().Some?
    ensures var after := s.ParseProduceStatement().value.1;
      && after.Ahead() == s.Ahead()[FirstOf(s.Ahead()[1..], Semicolon).value + 1..]
      && s.ParseLoop(acc) == after.NextToken().ParseLoop(acc + [ProduceStmt(ProduceStatement(s.cur))])
  {
    ProduceStopsAtFirstSemicolon(s);
    var after := s.ParseProduceStatement().value.1;
    LoopStep(s, acc, Some(ProduceStmt(ProduceStatement(s.cur))), after);
  }

  /** A `produce` statement with no semicolon after it: the loop never
      returns. */
  lemma LoopProduceDiverges(s: ParserState, acc: seq<Statement>)
    requires s.Consistent() && s.CurTokenIs(Produce)
    requires FirstOf(s.Ahead()[1..], Semicolon).None?
    ensures s.ParseStatement() == Diverges
    ensures s.ParseLoop(acc) == Diverges
  {
    ProduceStopsAtFirstSemicolon(s);
  }

  /** A `produce` with only EOF after it, as in the program `produce` or
      `atom a = b; produce`: the parse never returns. */
  lemma ProduceLastDiverges(s: ParserState, acc: seq<Statement>)
    requires s.Consistent() && s.CurTokenIs(Produce) && s.rest == []
    ensures s.ParseStatement() == Diverges
    ensures s.ParseLoop(acc) == Diverges
  {
    ProduceAtEnd(s);
  }

  /** The program that is the single word `produce`. */
  lemma ProduceAloneDiverges(ts: seq<Token>)
    requires ts == [Token(Produce, "produce"), EofToken]
    ensures Start(ts).rest == [] && Start(ts).ParseProgram() == Diverges
  {
    ProduceLastDiverges(Start(ts), []);
  }

  /** One round of the `ParseProgram` loop: a statement is parsed, kept
      when it is not nil, and the loop goes on after its last token. */
  lemma LoopStep(s: ParserState, acc: seq<Statement>, st: Option<Statement>, after: ParserState)
    requires s.Consistent() && !s.CurTokenIs(Eof)
    requires s.ParseStatement() == Halts(st, after)
    ensures after.Consistent()
    ensures s.ParseLoop(acc) == after.NextToken().ParseLoop(if st.Some? then acc + [st.value] else acc)
  {
  }

  /** A token that starts no statement is passed over: no statement, no
      diagnostic. */
  lemma LoopSkipsOtherStarts(s: ParserState, acc: seq<Statement>)
    requires s.Consistent()
    requires !s.CurTokenIs(Eof) && !s.CurTokenIs(Atom) && !s.CurTokenIs(Produce)
    ensures s.ParseLoop(acc) == s.NextToken().ParseLoop(acc)
  {
    LoopStep(s, acc, None, s);
  }

  /** A well-formed `atom` statement, named by the identifier; it ends on
      the token after `=`. */
  lemma AtomStatementParses(s: ParserState)
    requires s.Consistent() && s.CurTokenIs(Atom)
    requires s.PeekTokenIs(Ident) && s.NextToken().PeekTokenIs(Assign)
    ensures s.ParseStatement() == Halts(
      Some(AtomStmt(Some(AtomStatement(s.cur, Identifier(s.peek, s.peek.literal), None)))),
      s.NextToken().NextToken().NextToken())
  {
    AtomStatementFields(s);
  }

  lemma AtomStatementFields(s: ParserState)
    requires s.Consistent() && s.CurTokenIs(Atom)
    requires s.PeekTokenIs(Ident) && s.NextToken().PeekTokenIs(Assign)
    ensures s.ParseAtomStatement() == (
      Some(AtomStatement(s.cur, Identifier(s.peek, s.peek.literal), None)),
      s.NextToken().NextToken().NextToken())
  {
    var s1 := s.NextToken();
    var s2 := s1.NextToken();
    assert s.ExpectPeek(Ident) == (true, s1);
    assert s1.ExpectPeek(Assign) == (true, s2);
    assert !s2.CurTokenIs(Semicolon);
  }

  /** A well-formed `atom` statement adds one statement, named by the
      identifier, and takes four tokens. */
  lemma LoopAtom(s: ParserState, acc: seq<Statement>)
    requires s.Consistent() && s.CurTokenIs(Atom)
    requires s.PeekTokenIs(Ident) && s.NextToken().PeekTokenIs(Assign)
    ensures s.ParseLoop(acc) == s.NextToken().NextToken().NextToken().NextToken().ParseLoop(
      acc + [AtomStmt(Some(AtomStatement(s.cur, Identifier(s.peek, s.peek.literal), None)))])
  {
    AtomStatementParses(s);
    LoopStep(s, acc, Some(AtomStmt(Some(AtomStatement(s.cur, Identifier(s.peek, s.peek.literal), None)))),
      s.NextToken().NextToken().NextToken());
  }

  /** An `atom` not followed by an identifier: a nil statement, one
      diagnostic, and the cursor stays on `atom`. */
  lemma AtomNoIdentParses(s: ParserState)
    requires s.Consistent() && s.CurTokenIs(Atom) && !s.PeekTokenIs(Ident)
    ensures s.ParseStatement() == Halts(Some(AtomStmt(None)), s.PeekError(Ident))
  {
    var e := s.PeekError(Ident);
    assert s.ExpectPeek(Ident) == (false, e);
    assert s.ParseAtomStatement() == (None, e);
  }

  /** An `atom` not followed by an identifier adds a nil statement and one
      diagnostic, and the loop goes on from the peeked token. */
  lemma LoopAtomNoIdent(s: ParserState, acc: seq<Statement>)
    requires s.Consistent() && s.CurTokenIs(Atom) && !s.PeekTokenIs(Ident)
    ensures s.ParseLoop(acc) == s.PeekError(Ident).NextToken().ParseLoop(acc + [AtomStmt(None)])
  {
    AtomNoIdentParses(s);
    LoopStep(s, acc, Some(AtomStmt(None)), s.PeekError(Ident));
  }

  /** An `atom` and identifier not followed by `=`: a nil statement, one
      diagnostic, and the cursor on the identifier. */
  lemma AtomNoAssignParses(s: ParserState)
    requires s.Consistent() && s.CurTokenIs(Atom)
    requires s.PeekTokenIs(Ident) && !s.NextToken().PeekTokenIs(Assign)
    ensures s.ParseStatement() == Halts(Some(AtomStmt(None)), s.NextToken().PeekError(Assign))
  {
    AtomNoAssignFields(s);
  }

  lemma AtomNoAssignFields(s: ParserState)
    requires s.Consistent() && s.CurTokenIs(Atom)
    requires s.PeekTokenIs(Ident) && !s.NextToken().PeekTokenIs(Assign)
    ensures s.ParseAtomStatement() == (None, s.NextToken().PeekError(Assign))
  {
    var s1 := s.NextToken();
    assert s.ExpectPeek(Ident) == (true, s1);
    assert s1.ExpectPeek(Assign) == (false, s1.PeekError(Assign));
  }

  /** An `atom` and identifier not followed by `=` add a nil statement and
      one diagnostic, and the loop goes on after the identifier. */
  lemma LoopAtomNoAssign(s: ParserState, acc: seq<Statement>)
    requires s.Consistent() && s.CurTokenIs(Atom)
    requires s.PeekTokenIs(Ident) && !s.NextToken().PeekTokenIs(Assign)
    ensures s.ParseLoop(acc) ==
      s.NextToken().PeekError(Assign).NextToken().ParseLoop(acc + [AtomStmt(None)])
  {
    AtomNoAssignParses(s);
    LoopStep(s, acc, Some(AtomStmt(None)), s.NextToken().PeekError(Assign));
  }

  /** Two steps from any first pair leave the state `Start` describes. */
  lemma TwoStepsStart(z: Token, ts: seq<Token>)
    requires forall i | 0 <= i < |ts| :: Spelled(ts[i])
    requires ts != [] ==> ts[|ts| - 1].tokenType == Eof
    ensures ParserState(z, z, ts, []).NextToken().NextToken() == Start(ts)
  {
    if |ts| > 2 {
      assert ts[1..][1..] == ts[2..];
    }
  }

  // ---------------------------------------------------------------------
  // The parser object

  class Parser {
    const l: Lexer
    var curToken: Token
    var peekToken: Token
    var errors: seq<string>

    /** The parser as a `ParserState`: what the lexer has still to yield is
        its token stream from the cursor on. */
    ghost function State(): ParserState
      reads this, l
    {
      ParserState(curToken, peekToken, Tokens(l.input, l.position), errors)
    }

    ghost predicate Valid()
      reads this, l
    {
      l.Valid() && State().Consistent()
    }

    /** `New`: read two tokens, so that both lookahead tokens are set. */
    constructor (l: Lexer)
      requires l.Valid()
      modifies l
      ensures this.l == l && Valid()
      ensures State() == Start(Tokens(l.input, old(l.position)))
    {
      this.l := l;
      // The Go zero token; both are overwritten below.
      curToken := Token(Illegal, "");
      peekToken := Token(Illegal, "");
      errors := [];
      new;
      TwoStepsStart(Token(Illegal, ""), Tokens(l.input, l.position));
      NextToken();
      NextToken();
    }

    method Errors() returns (es: seq<string>)
      ensures es == errors
    {
      es := errors;
    }

    method PeekError(t: TokenType)
      modifies this
      ensures errors == old(errors) + [ExpectedMessage(t, peekToken.tokenType)]
      ensures curToken == old(curToken) && peekToken == old(peekToken)
    {
      errors := errors + [ExpectedMessage(t, peekToken.tokenType)];
    }

    /** `nextToken`: exactly one token is pulled from the lexer. */
    method NextToken()
      requires l.Valid()
      modifies this, l
      ensures l.Valid() && curToken == old(peekToken) && errors == old(errors)
      ensures (peekToken, l.position) == Scan(l.input, old(l.position))
      ensures State() == old(State()).NextToken()
    {
      TokensStep(l.input, l.position);
      curToken := peekToken;
      peekToken := l.NextToken();
    }

    method CurTokenIs(t: TokenType) returns (b: bool)
      ensures b <==> curToken.tokenType == t
    {
      b := curToken.tokenType == t;
    }

    method PeekTokenIs(t: TokenType) returns (b: bool)
      ensures b <==> peekToken.tokenType == t
    {
      b := peekToken.tokenType == t;
    }

    method ExpectPeek(t: TokenType) returns (ok: bool)
      requires Valid()
      modifies this, l
      ensures Valid() && (ok, State()) == old(State()).ExpectPeek(t)
    {
      ok := PeekTokenIs(t);
      if ok {
        NextToken();
      } else {
        PeekError(t);
      }
    }

    method ParseAtomStatement() returns (stmt: Option<AtomStatement>)
      requires Valid()
      modifies this, l
      ensures Valid() && (stmt, State()) == old(State()).ParseAtomStatement()
    {
      var tok := curToken;
      var ok := ExpectPeek(Ident);
      if !ok {
        return None;
      }
      var name := Identifier(curToken, curToken.literal);
      ok := ExpectPeek(Assign);
      if !ok {
        return None;
      }
      var semicolon := CurTokenIs(Semicolon);
      if !semicolon {
        NextToken();
      }
      stmt := Some(AtomStatement(tok, name, None));
    }

    /** `praseProduceStatement`; callable only where its loop ends. */
    method ParseProduceStatement() returns (stmt: ProduceStatement)
      requires Valid() && State().ParseProduceStatement().Some?
      modifies this, l
      ensures Valid() && old(State()).ParseProduceStatement() == Some((stmt, State()))
    {
      stmt := ProduceStatement(curToken);
      NextToken();
      while curToken.tokenType != Semicolon
        invariant Valid()
        invariant State().SkipToSemicolon() == old(State()).NextToken().SkipToSemicolon()
        invariant State().SkipToSemicolon().Some?
        decreases State().Measure()
      {
        NextToken();
      }
    }

    method ParseStatement() returns (stmt: Option<Statement>)
      requires Valid() && State().ParseStatement().Halts?
      modifies this, l
      ensures Valid() && old(State()).ParseStatement() == Halts(stmt, State())
    {
      match curToken.tokenType {
        case Atom => {
          var a := ParseAtomStatement();
          stmt := Some(AtomStmt(a));
        }
        case Produce => {
          var pr := ParseProduceStatement();
          stmt := Some(ProduceStmt(pr));
        }
        case _ => {
          stmt := None;
        }
      }
    }

    method ParseProgram() returns (program: Program)
      requires Valid() && State().ParseProgram().Halts?
      modifies this, l
      ensures Valid() && old(State()).ParseProgram() == Halts(program, State())
    {
      var statements: seq<Statement> := [];
      while curToken.tokenType != Eof
        invariant Valid()
        invariant State().ParseLoop(statements) == old(State()).ParseLoop([])
        decreases State().Measure()
      {
        var stmt := ParseStatement();
        if stmt.Some? {
          statements := statements + [stmt.value];
        }
        NextToken();
      }
      program := Program(statements);
    }
  }

  /** Parse a source text as the parser's tests do: a lexer over the text,
      a parser over the lexer, the program and then the diagnostics. */
  method Parse(input: seq<Byte>) returns (program: Program, errors: seq<string>)
    requires Start(Tokens(input, 0)).ParseProgram().Halts?
    ensures var r := Start(Tokens(input, 0)).ParseProgram();
      program == r.result && errors == r.after.errors
  {
    var l := new Lexer(input);
    var p := new Parser(l);
    program := p.ParseProgram();
    errors := p.Errors();
  }
}
