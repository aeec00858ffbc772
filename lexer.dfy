/** The scanner: a byte cursor over the input that yields one token per call.

    The pure functions (`Scan`, `Tokens`) give what one call, and the whole
    run, produce from a cursor position; the class `Lexer` is the cursor
    itself, and each of its methods is proved to do what `Scan` and
    `RunEnd` say. */
module Lexer {
  import opened GoTypes
  import opened Token

  predicate IsLetter(c: char) {
    'a' <= c <= 'z' || 'A' <= c <= 'Z' || c == '_'
  }

  predicate IsDigit(c: char) {
    '0' <= c <= '9'
  }

  predicate IsWhitespace(c: char) {
    c == ' ' || c == '\t' || c == '\n' || c == '\r'
  }

  /** The byte the cursor sees at index `i`: NUL once past the end. */
  function CharAt(input: seq<Byte>, i: nat): Byte {
    if i < |input| then input[i] else '\0'
  }

  /** Go's `string(b)` for a byte `b`: the UTF-8 encoding of code point `b`,
      one byte below 0x80 and two bytes from 0x80 on. */
  function ByteString(c: Byte): (s: string)
    ensures c as int < 128 ==> s == [c]
    ensures c as int >= 128 ==> |s| == 2 && s[0] as int >= 128 && s[1] as int >= 128
  {
    if c as int < 128 then [c]
    else [(0xC0 + c as int / 64) as char, (0x80 + c as int % 64) as char]
  }

  /** `newToken`: a token of kind `k` whose literal is `string(c)`. */
  function NewToken(k: TokenType, c: Byte): (t: Token)
    ensures t.tokenType == k
    ensures c as int < 128 ==> t.literal == [c]
    ensures |t.literal| == (if c as int < 128 then 1 else 2)
  {
    Token(k, ByteString(c))
  }

  /** The end of the run of bytes satisfying `f` that starts at `p`. */
  function RunEnd(input: seq<Byte>, p: nat, f: char -> bool): (q: nat)
    ensures p <= q
    ensures q == p || q <= |input|
    ensures forall i | p <= i < q :: f(input[i])
    ensures q < |input| ==> !f(input[q])
    decreases |input| - p
  {
    if p < |input| && f(input[p]) then RunEnd(input, p + 1, f) else p
  }

  function Max(a: int, b: int): int {
    if a < b then b else a
  }

  /** The bytes the Go `switch` gives a case of their own (NUL aside). */
  predicate IsSingleByteToken(c: char) {
    || c == '=' || c == '+' || c == '(' || c == ')' || c == '{' || c == '}' || c == ','
    || c == ';' || c == '-' || c == '!' || c == '*' || c == '/' || c == '<' || c == '>'
  }

  /** Letters are ASCII, digits are `0` to `9`. The classes
      the `switch` tells apart do not overlap, so the order of its cases
      decides nothing. */
  lemma CharClasses(c: char)
    ensures IsLetter(c) ==> c as int < 0x80
    ensures IsDigit(c) <==> c in "0123456789"
    ensures IsLetter(c) ==> !IsDigit(c) && !IsWhitespace(c) && !IsSingleByteToken(c) && c != '\0'
    ensures IsDigit(c) ==> !IsWhitespace(c) && !IsSingleByteToken(c) && c != '\0'
    ensures IsSingleByteToken(c) ==> !IsWhitespace(c) && c != '\0'
  {
  }

  /** The kind the `switch` gives a one-byte token. */
  function OneByteKind(c: char): (k: TokenType)
    requires IsSingleByteToken(c)
    ensures k.IsOperatorOrDelimiter() && k.Name() == [c]
  {
    match c
    case '=' => Assign
    case '+' => Plus
    case '(' => LParen
    case ')' => RParen
    case '{' => LBrace
    case '}' => RBrace
    case ',' => Comma
    case ';' => Semicolon
    case '-' => Minus
    case '!' => Bang
    case '*' => Asterisk
    case '/' => Slash
    case '<' => Lt
    case '>' => Gt
  }

  /** No one-byte kind is a keyword kind. */
  lemma OneByteNotKeyword(c: char)
    requires IsSingleByteToken(c)
    ensures !OneByteKind(c).IsKeyword()
  {
  }

  /** An operator or delimiter: `==` and `!=` take two bytes, every other
      one byte. */
  function OperatorAt(input: seq<Byte>, q: nat): (r: (Token, nat))
    requires q < |input| && IsSingleByteToken(input[q])
    ensures q < r.1 <= |input| && Spelled(r.0) && r.0.tokenType != Eof
  {
    var c := input[q];
    if c == '=' && CharAt(input, q + 1) == '=' then (Token(Eq, "=="), q + 2)
    else if c == '!' && CharAt(input, q + 1) == '=' then (Token(NotEq, "!="), q + 2)
    else OneByteNotKeyword(c); (NewToken(OneByteKind(c), c), q + 1)
  }

  /** An identifier or keyword: the run of letters at `q`, and its kind
      from the keyword table. */
  function WordAt(input: seq<Byte>, q: nat): (r: (Token, nat))
    requires q < |input| && IsLetter(input[q])
    ensures q < r.1 <= |input| && Spelled(r.0) && r.0.tokenType != Eof
  {
    var e := RunEnd(input, q, IsLetter);
    (Token(LookupIdent(input[q..e]), input[q..e]), e)
  }

  /** What one call of `NextToken` yields when whitespace skipping has left
      the cursor at `q`, and the cursor position after it. */
  function ScanAt(input: seq<Byte>, q: nat): (r: (Token, nat))
    ensures q < r.1
    ensures r.0.tokenType != Eof ==> r.1 <= |input|
    ensures r.0.tokenType == Eof ==> r.1 == q + 1
    ensures Spelled(r.0)
  {
    var c := CharAt(input, q);
    if c == '\0' then
      (Token(Eof, ""), q + 1)
    else if IsSingleByteToken(c) then
      OperatorAt(input, q)
    else if IsLetter(c) then
      WordAt(input, q)
    else if IsDigit(c) then
      var e := RunEnd(input, q, IsDigit);
      (Token(Int, input[q..e]), e)
    else
      (NewToken(Illegal, c), q + 1)
  }

  /** `ScanAt` case by case, in the order of the Go `switch`. */
  lemma ScanAtCases(input: seq<Byte>, q: nat)
    ensures var c := CharAt(input, q);
      var two := CharAt(input, q + 1) == '=';
      && (c == '\0' ==> ScanAt(input, q) == (Token(Eof, ""), q + 1))
      && (c == '=' && two ==> ScanAt(input, q) == (Token(Eq, "=="), q + 2))
      && (c == '!' && two ==> ScanAt(input, q) == (Token(NotEq, "!="), q + 2))
      && (IsSingleByteToken(c) && !((c == '=' || c == '!') && two) ==>
            ScanAt(input, q) == (NewToken(OneByteKind(c), c), q + 1))
      && (!IsSingleByteToken(c) && c != '\0' && !IsLetter(c) && !IsDigit(c) ==>
            ScanAt(input, q) == (NewToken(Illegal, c), q + 1))
  {
  }

  /** What one call of `NextToken` yields from cursor position `p`, and the
      cursor position after it. */
  function Scan(input: seq<Byte>, p: nat): (r: (Token, nat))
    ensures p < r.1
    ensures r.0.tokenType != Eof ==> r.1 <= |input|
    ensures r.1 <= Max(p, |input|) + 1
    ensures Spelled(r.0)
  {
    ScanAt(input, RunEnd(input, p, IsWhitespace))
  }

  /** The tokens yielded from cursor position `p` until the cursor has passed
      the end of the input. After that every call yields EOF. */
  function Tokens(input: seq<Byte>, p: nat): (ts: seq<Token>)
    ensures p <= |input| ==> |ts| > 0 && ts[|ts| - 1].tokenType == Eof
    ensures forall i | 0 <= i < |ts| :: Spelled(ts[i])
    decreases |input| + 1 - p
  {
    if p > |input| then []
    else
      var (t, q) := Scan(input, p);
      [t] + Tokens(input, q)
  }

  /** The literals of a token sequence, concatenated. */
  function Literals(ts: seq<Token>): string {
    if ts == [] then "" else ts[0].literal + Literals(ts[1..])
  }

  /** The input with space, tab, LF and CR removed. */
  function RemoveWhitespace(s: seq<Byte>): (r: seq<Byte>)
    ensures forall i | 0 <= i < |r| :: !IsWhitespace(r[i])
  {
    if s == [] then [] else (if IsWhitespace(s[0]) then [] else [s[0]]) + RemoveWhitespace(s[1..])
  }

  predicate NulFree(s: seq<Byte>) {
    forall i | 0 <= i < |s| :: s[i] != '\0'
  }

  predicate Ascii(s: seq<Byte>) {
    forall i | 0 <= i < |s| :: s[i] as int < 128
  }

  // ---------------------------------------------------------------------
  // Properties of one call

  /** Once the cursor is at or past the end, every call yields EOF with an
      empty literal and moves the cursor one further. */
  lemma ScanPastEnd(input: seq<Byte>, p: nat)
    requires p >= |input|
    ensures Scan(input, p) == (Token(Eof, ""), p + 1)
  {
  }

  /** One more call takes the next token off the stream `Tokens`; once the
      stream is exhausted it yields EOF and the stream stays empty. */
  lemma TokensStep(input: seq<Byte>, p: nat)
    ensures var (t, q) := Scan(input, p);
      && (p > |input| ==> Tokens(input, p) == [] && t == Token(Eof, "") && Tokens(input, q) == [])
      && (p <= |input| ==> Tokens(input, p) == [t] + Tokens(input, q))
      && (Tokens(input, q) == [] ==> t.tokenType == Eof)
  {
    if p >= |input| {
      ScanPastEnd(input, p);
    }
  }

  /** `TokensStep` with the first token and the rest of the stream known. */
  lemma TokensUnfold(input: seq<Byte>, p: nat, t: Token, e: nat, rest: seq<Token>)
    requires p <= |input| && Scan(input, p) == (t, e) && Tokens(input, e) == rest
    ensures Tokens(input, p) == [t] + rest
  {
  }

  /** For input without NUL, EOF comes exactly when only whitespace is left. */
  lemma ScanEofIff(input: seq<Byte>, p: nat)
    requires NulFree(input)
    ensures Scan(input, p).0.tokenType == Eof <==> RunEnd(input, p, IsWhitespace) >= |input|
  {
  }

  /** Whitespace is skipped before the token and never part of its literal. */
  lemma ScanSkipsWhitespace(input: seq<Byte>, p: nat)
    ensures var q := RunEnd(input, p, IsWhitespace);
      (forall i | p <= i < q :: IsWhitespace(input[i])) && !IsWhitespace(CharAt(input, q))
    ensures var lit := Scan(input, p).0.literal;
      forall i | 0 <= i < |lit| :: !IsWhitespace(lit[i])
  {
    var q := RunEnd(input, p, IsWhitespace);
    var c := CharAt(input, q);
    if IsLetter(c) {
      ScanIdentifier(input, p);
      WordHasNoWhitespace(input, q, Scan(input, p).1);
    } else if IsDigit(c) {
      ScanNumber(input, p);
      WordHasNoWhitespace(input, q, Scan(input, p).1);
    } else if IsSingleByteToken(c) {
      OperatorHasNoWhitespace(input, q);
    } else if c != '\0' {
      assert Scan(input, p).0 == NewToken(Illegal, c);
    }
  }

  /** An operator or delimiter is spelled without whitespace. */
  lemma OperatorHasNoWhitespace(input: seq<Byte>, q: nat)
    requires q < |input| && IsSingleByteToken(input[q])
    ensures var lit := OperatorAt(input, q).0.literal;
      forall i | 0 <= i < |lit| :: !IsWhitespace(lit[i])
  {
  }

  /** A run of letters or digits holds no whitespace. */
  lemma WordHasNoWhitespace(input: seq<Byte>, q: nat, e: nat)
    requires q <= e <= |input|
    requires forall i | q <= i < e :: IsLetter(input[i]) || IsDigit(input[i])
    ensures forall i | 0 <= i < |input[q..e]| :: !IsWhitespace(input[q..e][i])
  {
    forall i | 0 <= i < |input[q..e]|
      ensures !IsWhitespace(input[q..e][i])
    {
      assert input[q..e][i] == input[q + i];
    }
  }

  /** An identifier is the maximal run of letters at the token start, and its
      kind is the keyword table's verdict on it. */
  lemma ScanIdentifier(input: seq<Byte>, p: nat)
    requires IsLetter(CharAt(input, RunEnd(input, p, IsWhitespace)))
    ensures var q := RunEnd(input, p, IsWhitespace);
      var (t, e) := Scan(input, p);
      && q < e <= |input|
      && t.literal == input[q..e]
      && (forall i | q <= i < e :: IsLetter(input[i]))
      && (e < |input| ==> !IsLetter(input[e]))
      && t.tokenType == LookupIdent(t.literal)
  {
  }

  /** A number is the maximal run of decimal digits at the token start. */
  lemma ScanNumber(input: seq<Byte>, p: nat)
    requires IsDigit(CharAt(input, RunEnd(input, p, IsWhitespace)))
    ensures var q := RunEnd(input, p, IsWhitespace);
      var (t, e) := Scan(input, p);
      && q < e <= |input|
      && t == Token(Int, input[q..e])
      && (forall i | q <= i < e :: IsDigit(input[i]))
      && (e < |input| ==> !IsDigit(input[e]))
  {
  }

  /** `=` and `!` look one byte ahead: followed by `=` they make a two-byte
      token, otherwise a one-byte one. */
  lemma ScanTwoByteOperators(input: seq<Byte>, p: nat)
    requires var c := CharAt(input, RunEnd(input, p, IsWhitespace)); c == '=' || c == '!'
    ensures var q := RunEnd(input, p, IsWhitespace);
      var c := CharAt(input, q);
      var eq := CharAt(input, q + 1) == '=';
      && (c == '=' && eq ==> Scan(input, p) == (Token(Eq, "=="), q + 2))
      && (c == '=' && !eq ==> Scan(input, p) == (Token(Assign, "="), q + 1))
      && (c == '!' && eq ==> Scan(input, p) == (Token(NotEq, "!="), q + 2))
      && (c == '!' && !eq ==> Scan(input, p) == (Token(Bang, "!"), q + 1))
  {
  }

  /** A byte that starts no token is ILLEGAL on its own: the cursor moves past
      exactly that byte, whose Go string is the literal. */
  lemma ScanIllegal(input: seq<Byte>, p: nat)
    requires var c := CharAt(input, RunEnd(input, p, IsWhitespace));
      c != '\0' && !IsSingleByteToken(c) && !IsLetter(c) && !IsDigit(c)
    ensures var q := RunEnd(input, p, IsWhitespace);
      var c := CharAt(input, q);
      && Scan(input, p) == (Token(Illegal, ByteString(c)), q + 1)
      && (c as int < 128 ==> Scan(input, p).0.literal == [c])
  {
  }

  /** On ASCII input without NUL, a token that is not EOF spells exactly the
      bytes it was scanned from. */
  lemma ScanSpellsSlice(input: seq<Byte>, p: nat)
    requires NulFree(input) && Ascii(input)
    requires RunEnd(input, p, IsWhitespace) < |input|
    ensures var q := RunEnd(input, p, IsWhitespace);
      var (t, e) := Scan(input, p);
      q < e <= |input| && t.literal == input[q..e] && t.tokenType != Eof
  {
    var q := RunEnd(input, p, IsWhitespace);
    var c := input[q];
    if c == '=' || c == '!' {
      if CharAt(input, q + 1) == '=' {
        assert input[q..q + 2] == [c, '='];
      } else {
        assert input[q..q + 1] == [c];
      }
    } else if !IsLetter(c) && !IsDigit(c) {
      assert input[q..q + 1] == [c];
    }
  }

  // ---------------------------------------------------------------------
  // Properties of the whole run

  lemma {:induction false} RemoveWhitespaceAppend(a: seq<Byte>, b: seq<Byte>)
    ensures RemoveWhitespace(a + b) == RemoveWhitespace(a) + RemoveWhitespace(b)
  {
    if a != [] {
      assert (a + b)[1..] == a[1..] + b;
      RemoveWhitespaceAppend(a[1..], b);
    } else {
      assert a + b == b;
    }
  }

  lemma {:induction false} RemoveWhitespaceKeeps(a: seq<Byte>)
    requires forall i | 0 <= i < |a| :: !IsWhitespace(a[i])
    ensures RemoveWhitespace(a) == a
  {
    if a != [] {
      RemoveWhitespaceKeeps(a[1..]);
    }
  }

  lemma {:induction false} RemoveWhitespaceDrops(a: seq<Byte>)
    requires forall i | 0 <= i < |a| :: IsWhitespace(a[i])
    ensures RemoveWhitespace(a) == []
  {
    if a != [] {
      RemoveWhitespaceDrops(a[1..]);
    }
  }

  lemma LiteralsCons(t: Token, ts: seq<Token>)
    ensures Literals([t] + ts) == t.literal + Literals(ts)
  {
    assert ([t] + ts)[1..] == ts;
  }

  /** Only whitespace is left: the call yields EOF, and nothing is left to
      spell. */
  lemma SpellsAtEnd(input: seq<Byte>, p: nat)
    requires p <= |input| && RunEnd(input, p, IsWhitespace) == |input|
    ensures Scan(input, p).1 > |input| && Scan(input, p).0.literal == ""
    ensures RemoveWhitespace(input[p..]) == ""
  {
    var q := RunEnd(input, p, IsWhitespace);
    ScanPastEnd(input, q);
    assert input[p..] == input[p..q] + input[q..];
    assert input[q..] == [];
    RemoveWhitespaceAppend(input[p..q], input[q..]);
    RemoveWhitespaceDrops(input[p..q]);
  }

  /** Removing whitespace forgets a run of whitespace in front. */
  lemma DropLeadingWhitespace(input: seq<Byte>, p: nat, q: nat)
    requires p <= q <= |input|
    requires forall i | p <= i < q :: IsWhitespace(input[i])
    ensures RemoveWhitespace(input[p..]) == RemoveWhitespace(input[q..])
  {
    assert input[p..] == input[p..q] + input[q..];
    RemoveWhitespaceAppend(input[p..q], input[q..]);
    RemoveWhitespaceDrops(input[p..q]);
  }

  /** Removing whitespace keeps a run without whitespace in front. */
  lemma KeepLeadingWord(input: seq<Byte>, q: nat, e: nat)
    requires q <= e <= |input|
    requires forall i | q <= i < e :: !IsWhitespace(input[i])
    ensures RemoveWhitespace(input[q..]) == input[q..e] + RemoveWhitespace(input[e..])
  {
    assert input[q..] == input[q..e] + input[e..];
    RemoveWhitespaceAppend(input[q..e], input[e..]);
    RemoveWhitespaceKeeps(input[q..e]);
  }

  /** A token is left: its literal is what the call consumes, whitespace
      aside. */
  lemma SpellsBeforeEnd(input: seq<Byte>, p: nat)
    requires NulFree(input) && Ascii(input) && p <= |input|
    requires RunEnd(input, p, IsWhitespace) < |input|
    ensures Scan(input, p).1 <= |input|
    ensures RemoveWhitespace(input[p..]) == Scan(input, p).0.literal + RemoveWhitespace(input[Scan(input, p).1..])
  {
    var q := RunEnd(input, p, IsWhitespace);
    var (t, e) := Scan(input, p);
    ScanSpellsSlice(input, p);
    ScanSkipsWhitespace(input, p);
    DropLeadingWhitespace(input, p, q);
    forall i | q <= i < e
      ensures !IsWhitespace(input[i])
    {
      assert input[i] == t.literal[i - q];
    }
    KeepLeadingWord(input, q, e);
  }

  /** One step of `TokensSpellInput`: the first token spells the input up to
      where the cursor stops, once whitespace is removed. */
  lemma FirstTokenSpells(input: seq<Byte>, p: nat)
    requires NulFree(input) && Ascii(input) && p <= |input|
    ensures var (t, e) := Scan(input, p);
      && (e > |input| ==> t.literal == RemoveWhitespace(input[p..]))
      && (e <= |input| ==> RemoveWhitespace(input[p..]) == t.literal + RemoveWhitespace(input[e..]))
  {
    if RunEnd(input, p, IsWhitespace) == |input| {
      SpellsAtEnd(input, p);
    } else {
      SpellsBeforeEnd(input, p);
    }
  }

  /** On ASCII input without NUL, the literals of all tokens, EOF included,
      put together give back the input with its whitespace removed. */
  lemma {:induction false} TokensSpellInput(input: seq<Byte>, p: nat)
    requires NulFree(input) && Ascii(input) && p <= |input|
    ensures Literals(Tokens(input, p)) == RemoveWhitespace(input[p..])
    decreases |input| - p
  {
    var (t, e) := Scan(input, p);
    assert Tokens(input, p) == [t] + Tokens(input, e);
    LiteralsCons(t, Tokens(input, e));
    FirstTokenSpells(input, p);
    if e > |input| {
      assert Tokens(input, e) == [];
    } else {
      TokensSpellInput(input, e);
    }
  }

  /** On input without NUL, EOF is the last token and no earlier one. */
  lemma {:induction false} TokensEofOnlyLast(input: seq<Byte>, p: nat, i: nat)
    requires NulFree(input) && p <= |input|
    requires i < |Tokens(input, p)| - 1
    ensures Tokens(input, p)[i].tokenType != Eof
    decreases |input| - p
  {
    var (t, e) := Scan(input, p);
    if i == 0 {
      ScanEofIff(input, p);
    } else {
      TokensEofOnlyLast(input, e, i - 1);
    }
  }

  /** A run ends where `f` first fails: `RunEnd` is determined by that. */
  lemma {:induction false} RunEndIs(input: seq<Byte>, p: nat, f: char -> bool, e: nat)
    requires p <= e <= |input|
    requires forall i | p <= i < e :: f(input[i])
    requires e == |input| || !f(input[e])
    ensures RunEnd(input, p, f) == e
    decreases e - p
  {
    if p < e {
      RunEndIs(input, p + 1, f, e);
    }
  }

  /** A word after some whitespace scans as the whole word. */
  lemma ScanWordAt(input: seq<Byte>, p: nat, q: nat, e: nat)
    requires p <= q < e <= |input|
    requires forall i | p <= i < q :: IsWhitespace(input[i])
    requires forall i | q <= i < e :: IsLetter(input[i])
    requires e == |input| || !IsLetter(input[e])
    ensures Scan(input, p) == (Token(LookupIdent(input[q..e]), input[q..e]), e)
  {
    RunEndIs(input, p, IsWhitespace, q);
    RunEndIs(input, q, IsLetter, e);
  }

  /** A number after some whitespace scans as the whole number. */
  lemma ScanNumberAt(input: seq<Byte>, p: nat, q: nat, e: nat)
    requires p <= q < e <= |input|
    requires forall i | p <= i < q :: IsWhitespace(input[i])
    requires forall i | q <= i < e :: IsDigit(input[i])
    requires e == |input| || !IsDigit(input[e])
    ensures Scan(input, p) == (Token(Int, input[q..e]), e)
  {
    RunEndIs(input, p, IsWhitespace, q);
    RunEndIs(input, q, IsDigit, e);
  }

  /** A one-byte operator or delimiter after some whitespace. */
  lemma ScanOneByteAt(input: seq<Byte>, p: nat, q: nat)
    requires p <= q < |input|
    requires forall i | p <= i < q :: IsWhitespace(input[i])
    requires IsSingleByteToken(input[q])
    requires (input[q] == '=' || input[q] == '!') ==> CharAt(input, q + 1) != '='
    ensures Scan(input, p) == (Token(OneByteKind(input[q]), [input[q]]), q + 1)
  {
    RunEndIs(input, p, IsWhitespace, q);
  }

  /** Whitespace up to the end scans as EOF. */
  lemma ScanEndAt(input: seq<Byte>, p: nat)
    requires p <= |input|
    requires forall i | p <= i < |input| :: IsWhitespace(input[i])
    ensures Scan(input, p) == (Token(Eof, ""), |input| + 1)
  {
    RunEndIs(input, p, IsWhitespace, |input|);
  }

  const ExampleInput: seq<Byte> := "atom five = 5;"

  lemma ExampleSlices(s: seq<Byte>)
    requires s == ExampleInput
    ensures s[0..4] == "atom" && s[5..9] == "five" && s[12..13] == "5"
  {
  }

  lemma ExampleLookups(atom: string, five: string)
    requires atom == "atom" && five == "five"
    ensures LookupIdent(atom) == Atom && LookupIdent(five) == Ident
  {
  }

  lemma ExampleAtomAt(s: seq<Byte>)
    requires s == ExampleInput
    ensures Scan(s, 0) == (Token(LookupIdent(s[0..4]), s[0..4]), 4)
  {
    ScanWordAt(s, 0, 0, 4);
  }

  lemma ExampleFiveAt(s: seq<Byte>)
    requires s == ExampleInput
    ensures Scan(s, 4) == (Token(LookupIdent(s[5..9]), s[5..9]), 9)
  {
    ScanWordAt(s, 4, 5, 9);
  }

  lemma ExampleWords(s: seq<Byte>)
    requires s == ExampleInput
    ensures Scan(s, 0) == (Token(Atom, "atom"), 4)
    ensures Scan(s, 4) == (Token(Ident, "five"), 9)
  {
    ExampleSlices(s);
    ExampleLookups(s[0..4], s[5..9]);
    ExampleAtomAt(s);
    ExampleFiveAt(s);
  }

  lemma ExampleRest(s: seq<Byte>)
    requires s == ExampleInput
    ensures Scan(s, 9) == (Token(Assign, "="), 11)
    ensures Scan(s, 11) == (Token(Int, "5"), 13)
    ensures Scan(s, 13) == (Token(Semicolon, ";"), 14)
    ensures Scan(s, 14) == (Token(Eof, ""), 15)
  {
    ExampleSlices(s);
    ScanOneByteAt(s, 9, 10);
    ScanNumberAt(s, 11, 12, 13);
    ScanOneByteAt(s, 13, 13);
    ScanEndAt(s, 14);
  }

  lemma ExampleTail(s: seq<Byte>)
    requires s == ExampleInput
    ensures Tokens(s, 9) == [Token(Assign, "="), Token(Int, "5"), Token(Semicolon, ";"), Token(Eof, "")]
  {
    ExampleRest(s);
    TokensStep(s, 15);
    TokensStep(s, 14);
    TokensStep(s, 13);
    TokensStep(s, 11);
    TokensStep(s, 9);
  }

  lemma ExampleHead(s: seq<Byte>, tail: seq<Token>)
    requires s == ExampleInput && Tokens(s, 9) == tail
    ensures Tokens(s, 0) == [Token(Atom, "atom")] + ([Token(Ident, "five")] + tail)
  {
    ExampleWords(s);
    TokensUnfold(s, 4, Token(Ident, "five"), 9, tail);
    TokensUnfold(s, 0, Token(Atom, "atom"), 4, [Token(Ident, "five")] + tail);
  }

  /** The tokens of a one-line binding statement. */
  lemma TokensExample(s: seq<Byte>)
    requires s == ExampleInput
    ensures Tokens(s, 0) == [
      Token(Atom, "atom"), Token(Ident, "five"), Token(Assign, "="),
      Token(Int, "5"), Token(Semicolon, ";"), Token(Eof, "")]
  {
    var tail := [Token(Assign, "="), Token(Int, "5"), Token(Semicolon, ";"), Token(Eof, "")];
    ExampleTail(s);
    ExampleHead(s, tail);
    ExampleJoin(tail);
  }

  lemma ExampleJoin(tail: seq<Token>)
    requires tail == [Token(Assign, "="), Token(Int, "5"), Token(Semicolon, ";"), Token(Eof, "")]
    ensures [Token(Atom, "atom")] + ([Token(Ident, "five")] + tail) == [
      Token(Atom, "atom"), Token(Ident, "five"), Token(Assign, "="),
      Token(Int, "5"), Token(Semicolon, ";"), Token(Eof, "")]
  {
  }

  // ---------------------------------------------------------------------
  // The cursor

  class Lexer {
    const input: seq<Byte>
    var position: nat
    var readPosition: nat
    var ch: Byte

    /** The cursor fields move together: `ch` is the byte at `position`,
        NUL once past the end, and `readPosition` is one further on. */
    ghost predicate Valid()
      reads this
    {
      readPosition == position + 1 && ch == CharAt(input, position)
    }

    constructor (input: seq<Byte>)
      ensures this.input == input && position == 0 && Valid()
    {
      this.input := input;
      position, readPosition, ch := 0, 0, '\0';
      new;
      ReadChar();
    }

    method ReadChar()
      modifies this
      ensures position == old(readPosition) && readPosition == old(readPosition) + 1
      ensures ch == CharAt(input, old(readPosition))
      ensures Valid()
    {
      if readPosition >= |input| {
        ch := '\0';
      } else {
        ch := input[readPosition];
      }
      position := readPosition;
      readPosition := readPosition + 1;
    }

    method PeekChar() returns (c: Byte)
      ensures c == CharAt(input, readPosition)
    {
      if readPosition >= |input| {
        c := '\0';
      } else {
        c := input[readPosition];
      }
    }

    method SkipWhitespace()
      requires Valid()
      modifies this
      ensures Valid() && position == RunEnd(input, old(position), IsWhitespace)
    {
      while IsWhitespace(ch)
        invariant Valid()
        invariant RunEnd(input, position, IsWhitespace) == RunEnd(input, old(position), IsWhitespace)
        decreases |input| - position
      {
        ReadChar();
      }
    }

    /** Slicing the input, as the Go code does, needs the start inside it. */
    method ReadIdentifier() returns (lit: string)
      requires Valid() && position <= |input|
      modifies this
      ensures Valid() && position == RunEnd(input, old(position), IsLetter)
      ensures lit == input[old(position)..position]
    {
      var start := position;
      while IsLetter(ch)
        invariant Valid() && start <= position <= |input|
        invariant RunEnd(input, position, IsLetter) == RunEnd(input, start, IsLetter)
        decreases |input| - position
      {
        ReadChar();
      }
      lit := input[start..position];
    }

    method ReadNumber() returns (lit: string)
      requires Valid() && position <= |input|
      modifies this
      ensures Valid() && position == RunEnd(input, old(position), IsDigit)
      ensures lit == input[old(position)..position]
    {
      var start := position;
      while IsDigit(ch)
        invariant Valid() && start <= position <= |input|
        invariant RunEnd(input, position, IsDigit) == RunEnd(input, start, IsDigit)
        decreases |input| - position
      {
        ReadChar();
      }
      lit := input[start..position];
    }

    method NextToken() returns (tok: Token)
      requires Valid()
      modifies this
      ensures Valid() && (tok, position) == Scan(input, old(position))
    {
      SkipWhitespace();
      ghost var q := position;
      assert Scan(input, old(position)) == ScanAt(input, q);
      ScanAtCases(input, q);
      match ch {
        case '=' =>
          var next := PeekChar();
          if next == '=' {
            ReadChar();
            tok := Token(Eq, "==");
          } else {
            tok := NewToken(Assign, ch);
          }
        case '+' => tok := NewToken(Plus, ch);
        case '(' => tok := NewToken(LParen, ch);
        case ')' => tok := NewToken(RParen, ch);
        case '{' => tok := NewToken(LBrace, ch);
        case '}' => tok := NewToken(RBrace, ch);
        case ',' => tok := NewToken(Comma, ch);
        case ';' => tok := NewToken(Semicolon, ch);
        case '\0' => tok := Token(Eof, "");
        case '-' => tok := NewToken(Minus, ch);
        case '!' =>
          var next := PeekChar();
          if next == '=' {
            ReadChar();
            tok := Token(NotEq, "!=");
          } else {
            tok := NewToken(Bang, ch);
          }
        case '*' => tok := NewToken(Asterisk, ch);
        case '/' => tok := NewToken(Slash, ch);
        case '<' => tok := NewToken(Lt, ch);
        case '>' => tok := NewToken(Gt, ch);
        case _ =>
          if IsLetter(ch) {
            var lit := ReadIdentifier();
            tok := Token(LookupIdent(lit), lit);
            return;
          } else if IsDigit(ch) {
            var lit := ReadNumber();
            tok := Token(Int, lit);
            return;
          } else {
            tok := NewToken(Illegal, ch);
          }
      }
      ReadChar();
    }
  }
}
