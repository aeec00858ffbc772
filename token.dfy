/** Token kinds, tokens and the keyword table of the scanner. */
module Token {
  import opened Wrappers

  /** The token kinds. In the Go code a kind is a string constant; `Name`
      gives that string. The keyword kind the Go constant `PROODUCE` holds
      (and that the parser refers to as `PRODUCE`) is `Produce` here. */
  datatype TokenType =
    | Illegal | Eof
    | Ident | Int
    | Assign | Plus | Minus | Bang | Asterisk | Slash | Lt | Gt | Eq | NotEq
    | Comma | Semicolon | LParen | RParen | LBrace | RBrace
    | Atom | Molecule | Reaction | True | False | If | Else | Produce
  {
    /** The string value of the Go constant for this kind. */
    function Name(): (r: string)
      ensures r != []
    {
      match this
      case Illegal => "ILLEGAL"
      case Eof => "EOF"
      case Ident => "IDENT"
      case Int => "INT"
      case Assign => "="
      case Plus => "+"
      case Minus => "-"
      case Bang => "!"
      case Asterisk => "*"
      case Slash => "/"
      case Lt => "<"
      case Gt => ">"
      case Eq => "=="
      case NotEq => "!="
      case Comma => ","
      case Semicolon => ";"
      case LParen => "("
      case RParen => ")"
      case LBrace => "{"
      case RBrace => "}"
      case Atom => "ATOM"
      case Molecule => "MOLECULE"
      case Reaction => "REACTION"
      case True => "TRUE"
      case False => "FALSE"
      case If => "IF"
      case Else => "ELSE"
      case Produce => "PRODUCE"
    }

    predicate IsKeyword() {
      Atom? || Molecule? || Reaction? || True? || False? || If? || Else? || Produce?
    }

    predicate IsOperatorOrDelimiter() {
      Assign? || Plus? || Minus? || Bang? || Asterisk? || Slash? || Lt? || Gt? || Eq? || NotEq?
      || Comma? || Semicolon? || LParen? || RParen? || LBrace? || RBrace?
    }
  }

  datatype Token = Token(tokenType: TokenType, literal: string)

  /** The reserved spellings, exact and case-sensitive. */
  const Keywords: map<string, TokenType> := map[
    "atom" := Atom,
    "molecule" := Molecule,
    "reaction" := Reaction,
    "true" := True,
    "false" := False,
    "if" := If,
    "else" := Else,
    "produce" := Produce
  ]

  /** The spelling of a keyword kind: the inverse of the keyword table. */
  function Spelling(k: TokenType): (s: string)
    requires k.IsKeyword()
    ensures s in Keywords && Keywords[s] == k
  {
    match k
    case Atom => "atom"
    case Molecule => "molecule"
    case Reaction => "reaction"
    case True => "true"
    case False => "false"
    case If => "if"
    case Else => "else"
    case Produce => "produce"
  }

  /** A keyword's kind, or `Ident` for any other spelling. */
  function LookupIdent(ident: string): (r: TokenType)
    ensures r == Ident || r.IsKeyword()
    ensures r.IsKeyword() <==> ident in Keywords
    ensures r.IsKeyword() ==> Spelling(r) == ident
  {
    if ident in Keywords then Keywords[ident] else Ident
  }

  /** A keyword token carries its keyword's spelling. Every token the
      scanner yields has this property. */
  predicate Spelled(t: Token) {
    t.tokenType.IsKeyword() ==> t.literal == Spelling(t.tokenType)
  }

  /** The inverse of `Name`: which kind a constant's string denotes. */
  function FromName(s: string): (r: Option<TokenType>)
  {
    match s
    case "ILLEGAL" => Some(Illegal)
    case "EOF" => Some(Eof)
    case "IDENT" => Some(Ident)
    case "INT" => Some(Int)
    case "=" => Some(Assign)
    case "+" => Some(Plus)
    case "-" => Some(Minus)
    case "!" => Some(Bang)
    case "*" => Some(Asterisk)
    case "/" => Some(Slash)
    case "<" => Some(Lt)
    case ">" => Some(Gt)
    case "==" => Some(Eq)
    case "!=" => Some(NotEq)
    case "," => Some(Comma)
    case ";" => Some(Semicolon)
    case "(" => Some(LParen)
    case ")" => Some(RParen)
    case "{" => Some(LBrace)
    case "}" => Some(RBrace)
    case "ATOM" => Some(Atom)
    case "MOLECULE" => Some(Molecule)
    case "REACTION" => Some(Reaction)
    case "TRUE" => Some(True)
    case "FALSE" => Some(False)
    case "IF" => Some(If)
    case "ELSE" => Some(Else)
    case "PRODUCE" => Some(Produce)
    case _ => None
  }

  /** Every kind's string reads back as that kind, so two different kinds
      never share a string: comparing kinds by their strings, as the Go code
      does, is comparing the kinds themselves. */
  lemma NameRoundTrip(k: TokenType)
    ensures FromName(k.Name()) == Some(k)
  {
    match k
    case Illegal =>
    case Eof =>
    case Ident =>
    case Int =>
    case Assign =>
    case Plus =>
    case Minus =>
    case Bang =>
    case Asterisk =>
    case Slash =>
    case Lt =>
    case Gt =>
    case Eq =>
    case NotEq =>
    case Comma =>
    case Semicolon =>
    case LParen =>
    case RParen =>
    case LBrace =>
    case RBrace =>
    case Atom =>
    case Molecule =>
    case Reaction =>
    case True =>
    case False =>
    case If =>
    case Else =>
    case Produce =>
  }

  lemma NameInjective(k1: TokenType, k2: TokenType)
    ensures k1.Name() == k2.Name() <==> k1 == k2
  {
    NameRoundTrip(k1);
    NameRoundTrip(k2);
  }

  lemma ComparisonNames()
    ensures Assign.Name() == "=" && Eq.Name() == "==" && NotEq.Name() == "!=" && Bang.Name() == "!"
  {
  }

  lemma ArithmeticNames()
    ensures Plus.Name() == "+" && Minus.Name() == "-" && Asterisk.Name() == "*" && Slash.Name() == "/"
  {
  }

  lemma OrderAndSeparatorNames()
    ensures Lt.Name() == "<" && Gt.Name() == ">" && Comma.Name() == "," && Semicolon.Name() == ";"
  {
  }

  lemma BracketNames()
    ensures LParen.Name() == "(" && RParen.Name() == ")" && LBrace.Name() == "{" && RBrace.Name() == "}"
  {
  }

  /** Operators and delimiters are named by their own spelling. */
  lemma OperatorNames()
    ensures Assign.Name() == "=" && Eq.Name() == "==" && NotEq.Name() == "!=" && Bang.Name() == "!"
    ensures Plus.Name() == "+" && Minus.Name() == "-" && Asterisk.Name() == "*" && Slash.Name() == "/"
    ensures Lt.Name() == "<" && Gt.Name() == ">" && Comma.Name() == "," && Semicolon.Name() == ";"
    ensures LParen.Name() == "(" && RParen.Name() == ")" && LBrace.Name() == "{" && RBrace.Name() == "}"
  {
    ComparisonNames();
    ArithmeticNames();
    OrderAndSeparatorNames();
    BracketNames();
  }

  /** Each reserved word maps to its own kind. */
  lemma LookupKeywords()
    ensures LookupIdent("atom") == Atom && LookupIdent("molecule") == Molecule
    ensures LookupIdent("reaction") == Reaction && LookupIdent("true") == True
    ensures LookupIdent("false") == False && LookupIdent("if") == If
    ensures LookupIdent("else") == Else && LookupIdent("produce") == Produce
  {
    LookupChemistry();
    LookupBooleans();
    LookupBranches();
    LookupProduce();
  }

  lemma LookupChemistry()
    ensures LookupIdent("atom") == Atom && LookupIdent("molecule") == Molecule
    ensures LookupIdent("reaction") == Reaction
  {
  }

  lemma LookupBooleans()
    ensures LookupIdent("true") == True && LookupIdent("false") == False
  {
  }

  lemma LookupBranches()
    ensures LookupIdent("if") == If && LookupIdent("else") == Else
  {
  }

  lemma LookupProduce()
    ensures LookupIdent("produce") == Produce
  {
  }

  /** Matching is case-sensitive: a capitalised keyword is an identifier. */
  lemma LookupCaseSensitive()
    ensures LookupIdent("Atom") == Ident && LookupIdent("ATOM") == Ident && LookupIdent("Produce") == Ident
  {
  }

  /** The lookup never yields a kind the scanner assigns by other rules. */
  lemma LookupIdentRange(ident: string)
    ensures var r := LookupIdent(ident);
      r != Illegal && r != Eof && r != Int && !r.IsOperatorOrDelimiter()
  {
  }

  /** Distinct spellings give distinct kinds. */
  lemma KeywordsInjective(s1: string, s2: string)
    requires s1 in Keywords && s2 in Keywords && s1 != s2
    ensures Keywords[s1] != Keywords[s2]
  {
  }
}
