/** The parser's test, on the source text it holds and on the text it has
    commented out. Both are first lexed, then parsed. */
module ParserTest {
  import opened Wrappers
  import opened GoTypes
  import opened Token
  import opened Lexer
  import opened Ast
  import opened Parser

  /** The state in which the `k`-th token of `ts` is current. */
  function At(ts: seq<Token>, k: nat, errors: seq<string>): ParserState {
    ParserState(Nth(ts, k), Nth(ts, k + 1), if k + 2 <= |ts| then ts[k + 2..] else [], errors)
  }

  lemma AtNext(ts: seq<Token>, k: nat, errors: seq<string>)
    requires k + 2 <= |ts|
    ensures At(ts, k, errors).NextToken() == At(ts, k + 1, errors)
  {
    if k + 3 <= |ts| {
      assert ts[k + 2..][1..] == ts[k + 3..];
    }
  }

  lemma AtConsistent(ts: seq<Token>, k: nat, errors: seq<string>)
    requires forall i | 0 <= i < |ts| :: Spelled(ts[i])
    requires ts != [] && ts[|ts| - 1].tokenType == Eof
    ensures At(ts, k, errors).Consistent()
  {
  }

  /** One link of a token stream, read off one scan. */
  lemma TokensCons(input: seq<Byte>, p: nat, ts: seq<Token>, i: nat, e: nat)
    requires p <= |input| && i < |ts|
    requires Scan(input, p) == (ts[i], e)
    requires Tokens(input, e) == ts[i + 1..]
    ensures Tokens(input, p) == ts[i..]
  {
    assert ts[i..] == [ts[i]] + ts[i + 1..];
  }

  /** The last link: the scan that passes the end of the input. */
  lemma TokensLast(input: seq<Byte>, p: nat, ts: seq<Token>)
    requires p <= |input| && |ts| > 0
    requires Scan(input, p) == (ts[|ts| - 1], |input| + 1)
    ensures Tokens(input, p) == ts[|ts| - 1..]
  {
  }

  /** The keyword table on the words of the two texts. */
  lemma LookupWord(w: string, k: TokenType)
    requires (w == "atom" && k == Atom) || ((w == "a" || w == "b" || w == "foobar") && k == Ident)
    ensures LookupIdent(w) == k
  {
  }

  const CommittedInput: seq<Byte> := "\n" + "\tatom a  1;\n" + "\tatom  = 2;\n" + "\n" + "\tatom 123223" + ";\n" + "\t"

  const CommittedTokens: seq<Token> := [
    Token(Atom, "atom"),
    Token(Ident, "a"),
    Token(Int, "1"),
    Token(Semicolon, ";"),
    Token(Atom, "atom"),
    Token(Assign, "="),
    Token(Int, "2"),
    Token(Semicolon, ";"),
    Token(Atom, "atom"),
    Token(Int, "123223"),
    Token(Semicolon, ";"),
    Token(Eof, "")]

  lemma CommittedText0(s: seq<Byte>)
    requires s == CommittedInput
    ensures s[0] == '\n'
    ensures s[1] == '\t'
    ensures s[2] == 'a'
    ensures s[3] == 't'
    ensures s[4] == 'o'
    ensures s[5] == 'm'
    ensures s[6] == ' '
    ensures s[2..6] == "atom"
  {
  }

  lemma CommittedScan0(s: seq<Byte>)
    requires s == CommittedInput
    ensures Scan(s, 0) == (Token(Atom, "atom"), 6)
  {
    CommittedText0(s);
    LookupWord(s[2..6], Atom);
    ScanWordAt(s, 0, 2, 6);
  }

  lemma CommittedText1(s: seq<Byte>)
    requires s == CommittedInput
    ensures s[6] == ' '
    ensures s[7] == 'a'
    ensures s[8] == ' '
    ensures s[7..8] == "a"
  {
  }

  lemma CommittedScan1(s: seq<Byte>)
    requires s == CommittedInput
    ensures Scan(s, 6) == (Token(Ident, "a"), 8)
  {
    CommittedText1(s);
    LookupWord(s[7..8], Ident);
    ScanWordAt(s, 6, 7, 8);
  }

  lemma CommittedText2(s: seq<Byte>)
    requires s == CommittedInput
    ensures s[8] == ' '
    ensures s[9] == ' '
    ensures s[10] == '1'
    ensures s[11] == ';'
    ensures s[10..11] == "1"
  {
  }

  lemma CommittedScan2(s: seq<Byte>)
    requires s == CommittedInput
    ensures Scan(s, 8) == (Token(Int, "1"), 11)
  {
    CommittedText2(s);
    ScanNumberAt(s, 8, 10, 11);
  }

  lemma CommittedScan3(s: seq<Byte>)
    requires s == CommittedInput
    ensures Scan(s, 11) == (Token(Semicolon, ";"), 12)
  {
    assert s[11] == ';' && s[12] == '\n';
    ScanOneByteAt(s, 11, 11);
  }

  lemma CommittedText4(s: seq<Byte>)
    requires s == CommittedInput
    ensures s[12] == '\n'
    ensures s[13] == '\t'
    ensures s[14] == 'a'
    ensures s[15] == 't'
    ensures s[16] == 'o'
    ensures s[17] == 'm'
    ensures s[18] == ' '
    ensures s[14..18] == "atom"
  {
  }

  lemma CommittedScan4(s: seq<Byte>)
    requires s == CommittedInput
    ensures Scan(s, 12) == (Token(Atom, "atom"), 18)
  {
    CommittedText4(s);
    LookupWord(s[14..18], Atom);
    ScanWordAt(s, 12, 14, 18);
  }

  lemma CommittedScan5(s: seq<Byte>)
    requires s == CommittedInput
    ensures Scan(s, 18) == (Token(Assign, "="), 21)
  {
    assert s[18] == ' ' && s[19] == ' ' && s[20] == '=' && s[21] == ' ';
    ScanOneByteAt(s, 18, 20);
  }

  lemma CommittedText6(s: seq<Byte>)
    requires s == CommittedInput
    ensures s[21] == ' '
    ensures s[22] == '2'
    ensures s[23] == ';'
    ensures s[22..23] == "2"
  {
  }

  lemma CommittedScan6(s: seq<Byte>)
    requires s == CommittedInput
    ensures Scan(s, 21) == (Token(Int, "2"), 23)
  {
    CommittedText6(s);
    ScanNumberAt(s, 21, 22, 23);
  }

  lemma CommittedScan7(s: seq<Byte>)
    requires s == CommittedInput
    ensures Scan(s, 23) == (Token(Semicolon, ";"), 24)
  {
    assert s[23] == ';' && s[24] == '\n';
    ScanOneByteAt(s, 23, 23);
  }

  lemma CommittedText8(s: seq<Byte>)
    requires s == CommittedInput
    ensures s[24] == '\n'
    ensures s[25] == '\n'
    ensures s[26] == '\t'
    ensures s[27] == 'a'
    ensures s[28] == 't'
    ensures s[29] == 'o'
    ensures s[30] == 'm'
    ensures s[31] == ' '
    ensures s[27..31] == "atom"
  {
  }

  lemma CommittedScan8(s: seq<Byte>)
    requires s == CommittedInput
    ensures Scan(s, 24) == (Token(Atom, "atom"), 31)
  {
    CommittedText8(s);
    LookupWord(s[27..31], Atom);
    ScanWordAt(s, 24, 27, 31);
  }

  lemma CommittedText9(s: seq<Byte>)
    requires s == CommittedInput
    ensures s[31] == ' '
    ensures s[32] == '1'
    ensures s[33] == '2'
    ensures s[34] == '3'
    ensures s[35] == '2'
    ensures s[36] == '2'
    ensures s[37] == '3'
    ensures s[38] == ';'
    ensures s[32..38] == "123223"
  {
  }

  lemma CommittedScan9(s: seq<Byte>)
    requires s == CommittedInput
    ensures Scan(s, 31) == (Token(Int, "123223"), 38)
  {
    CommittedText9(s);
    ScanNumberAt(s, 31, 32, 38);
  }

  lemma CommittedScan10(s: seq<Byte>)
    requires s == CommittedInput
    ensures Scan(s, 38) == (Token(Semicolon, ";"), 39)
  {
    assert s[38] == ';' && s[39] == '\n';
    ScanOneByteAt(s, 38, 38);
  }

  lemma CommittedScan11(s: seq<Byte>)
    requires s == CommittedInput
    ensures Scan(s, 39) == (Token(Eof, ""), 42)
  {
    assert s[39] == '\n' && s[40] == '\t';
    ScanEndAt(s, 39);
  }

  lemma CommittedLength(ts: seq<Token>)
    requires ts == CommittedTokens
    ensures |ts| == 12
  {
  }

  lemma CommittedToken0(ts: seq<Token>)
    requires ts == CommittedTokens
    ensures ts[0] == Token(Atom, "atom")
  {
  }

  lemma CommittedToken1(ts: seq<Token>)
    requires ts == CommittedTokens
    ensures ts[1] == Token(Ident, "a")
  {
  }

  lemma CommittedToken2(ts: seq<Token>)
    requires ts == CommittedTokens
    ensures ts[2] == Token(Int, "1")
  {
  }

  lemma CommittedToken3(ts: seq<Token>)
    requires ts == CommittedTokens
    ensures ts[3] == Token(Semicolon, ";")
  {
  }

  lemma CommittedToken4(ts: seq<Token>)
    requires ts == CommittedTokens
    ensures ts[4] == Token(Atom, "atom")
  {
  }

  lemma CommittedToken5(ts: seq<Token>)
    requires ts == CommittedTokens
    ensures ts[5] == Token(Assign, "=")
  {
  }

  lemma CommittedToken6(ts: seq<Token>)
    requires ts == CommittedTokens
    ensures ts[6] == Token(Int, "2")
  {
  }

  lemma CommittedToken7(ts: seq<Token>)
    requires ts == CommittedTokens
    ensures ts[7] == Token(Semicolon, ";")
  {
  }

  lemma CommittedToken8(ts: seq<Token>)
    requires ts == CommittedTokens
    ensures ts[8] == Token(Atom, "atom")
  {
  }

  lemma CommittedToken9(ts: seq<Token>)
    requires ts == CommittedTokens
    ensures ts[9] == Token(Int, "123223")
  {
  }

  lemma CommittedToken10(ts: seq<Token>)
    requires ts == CommittedTokens
    ensures ts[10] == Token(Semicolon, ";")
  {
  }

  lemma CommittedToken11(ts: seq<Token>)
    requires ts == CommittedTokens
    ensures ts[11] == Token(Eof, "")
  {
  }

  lemma CommittedFrom11(input: seq<Byte>, ts: seq<Token>)
    requires input == CommittedInput && ts == CommittedTokens
    ensures Tokens(input, 39) == ts[11..]
  {
    CommittedToken11(ts);
    CommittedScan11(input);
    TokensLast(input, 39, ts);
  }

  lemma CommittedFrom10(input: seq<Byte>, ts: seq<Token>)
    requires input == CommittedInput && ts == CommittedTokens
    ensures Tokens(input, 38) == ts[10..]
  {
    CommittedToken10(ts);
    CommittedScan10(input);
    CommittedFrom11(input, ts);
    TokensCons(input, 38, ts, 10, 39);
  }

  lemma CommittedFrom9(input: seq<Byte>, ts: seq<Token>)
    requires input == CommittedInput && ts == CommittedTokens
    ensures Tokens(input, 31) == ts[9..]
  {
    CommittedToken9(ts);
    CommittedScan9(input);
    CommittedFrom10(input, ts);
    TokensCons(input, 31, ts, 9, 38);
  }

  lemma CommittedFrom8(input: seq<Byte>, ts: seq<Token>)
    requires input == CommittedInput && ts == CommittedTokens
    ensures Tokens(input, 24) == ts[8..]
  {
    CommittedToken8(ts);
    CommittedScan8(input);
    CommittedFrom9(input, ts);
    TokensCons(input, 24, ts, 8, 31);
  }

  lemma CommittedFrom7(input: seq<Byte>, ts: seq<Token>)
    requires input == CommittedInput && ts == CommittedTokens
    ensures Tokens(input, 23) == ts[7..]
  {
    CommittedToken7(ts);
    CommittedScan7(input);
    CommittedFrom8(input, ts);
    TokensCons(input, 23, ts, 7, 24);
  }

  lemma CommittedFrom6(input: seq<Byte>, ts: seq<Token>)
    requires input == CommittedInput && ts == CommittedTokens
    ensures Tokens(input, 21) == ts[6..]
  {
    CommittedToken6(ts);
    CommittedScan6(input);
    CommittedFrom7(input, ts);
    TokensCons(input, 21, ts, 6, 23);
  }

  lemma CommittedFrom5(input: seq<Byte>, ts: seq<Token>)
    requires input == CommittedInput && ts == CommittedTokens
    ensures Tokens(input, 18) == ts[5..]
  {
    CommittedToken5(ts);
    CommittedScan5(input);
    CommittedFrom6(input, ts);
    TokensCons(input, 18, ts, 5, 21);
  }

  lemma CommittedFrom4(input: seq<Byte>, ts: seq<Token>)
    requires input == CommittedInput && ts == CommittedTokens
    ensures Tokens(input, 12) == ts[4..]
  {
    CommittedToken4(ts);
    CommittedScan4(input);
    CommittedFrom5(input, ts);
    TokensCons(input, 12, ts, 4, 18);
  }

  lemma CommittedFrom3(input: seq<Byte>, ts: seq<Token>)
    requires input == CommittedInput && ts == CommittedTokens
    ensures Tokens(input, 11) == ts[3..]
  {
    CommittedToken3(ts);
    CommittedScan3(input);
    CommittedFrom4(input, ts);
    TokensCons(input, 11, ts, 3, 12);
  }

  lemma CommittedFrom2(input: seq<Byte>, ts: seq<Token>)
    requires input == CommittedInput && ts == CommittedTokens
    ensures Tokens(input, 8) == ts[2..]
  {
    CommittedToken2(ts);
    CommittedScan2(input);
    CommittedFrom3(input, ts);
    TokensCons(input, 8, ts, 2, 11);
  }

  lemma CommittedFrom1(input: seq<Byte>, ts: seq<Token>)
    requires input == CommittedInput && ts == CommittedTokens
    ensures Tokens(input, 6) == ts[1..]
  {
    CommittedToken1(ts);
    CommittedScan1(input);
    CommittedFrom2(input, ts);
    TokensCons(input, 6, ts, 1, 8);
  }

  lemma CommittedFrom0(input: seq<Byte>, ts: seq<Token>)
    requires input == CommittedInput && ts == CommittedTokens
    ensures Tokens(input, 0) == ts[0..]
  {
    CommittedToken0(ts);
    CommittedScan0(input);
    CommittedFrom1(input, ts);
    TokensCons(input, 0, ts, 0, 6);
  }

  lemma CommittedLexes()
    ensures Tokens(CommittedInput, 0) == CommittedTokens
  {
    CommittedFrom0(CommittedInput, CommittedTokens);
    assert CommittedTokens[0..] == CommittedTokens;
  }

  const IntendedInput: seq<Byte> := "\n" + "\tatom a = 1;" + "\n" + "\tatom b = 2;" + "\n" + "\n" + "\tatom foobar" + " = 123223;\n" + "\t"

  const IntendedTokens: seq<Token> := [
    Token(Atom, "atom"),
    Token(Ident, "a"),
    Token(Assign, "="),
    Token(Int, "1"),
    Token(Semicolon, ";"),
    Token(Atom, "atom"),
    Token(Ident, "b"),
    Token(Assign, "="),
    Token(Int, "2"),
    Token(Semicolon, ";"),
    Token(Atom, "atom"),
    Token(Ident, "foobar"),
    Token(Assign, "="),
    Token(Int, "123223"),
    Token(Semicolon, ";"),
    Token(Eof, "")]

  lemma IntendedText0(s: seq<Byte>)
    requires s == IntendedInput
    ensures s[0] == '\n'
    ensures s[1] == '\t'
    ensures s[2] == 'a'
    ensures s[3] == 't'
    ensures s[4] == 'o'
    ensures s[5] == 'm'
    ensures s[6] == ' '
    ensures s[2..6] == "atom"
  {
  }

  lemma IntendedScan0(s: seq<Byte>)
    requires s == IntendedInput
    ensures Scan(s, 0) == (Token(Atom, "atom"), 6)
  {
    IntendedText0(s);
    LookupWord(s[2..6], Atom);
    ScanWordAt(s, 0, 2, 6);
  }

  lemma IntendedText1(s: seq<Byte>)
    requires s == IntendedInput
    ensures s[6] == ' '
    ensures s[7] == 'a'
    ensures s[8] == ' '
    ensures s[7..8] == "a"
  {
  }

  lemma IntendedScan1(s: seq<Byte>)
    requires s == IntendedInput
    ensures Scan(s, 6) == (Token(Ident, "a"), 8)
  {
    IntendedText1(s);
    LookupWord(s[7..8], Ident);
    ScanWordAt(s, 6, 7, 8);
  }

  lemma IntendedScan2(s: seq<Byte>)
    requires s == IntendedInput
    ensures Scan(s, 8) == (Token(Assign, "="), 10)
  {
    assert s[8] == ' ' && s[9] == '=' && s[10] == ' ';
    ScanOneByteAt(s, 8, 9);
  }

  lemma IntendedText3(s: seq<Byte>)
    requires s == IntendedInput
    ensures s[10] == ' '
    ensures s[11] == '1'
    ensures s[12] == ';'
    ensures s[11..12] == "1"
  {
  }

  lemma IntendedScan3(s: seq<Byte>)
    requires s == IntendedInput
    ensures Scan(s, 10) == (Token(Int, "1"), 12)
  {
    IntendedText3(s);
    ScanNumberAt(s, 10, 11, 12);
  }

  lemma IntendedScan4(s: seq<Byte>)
    requires s == IntendedInput
    ensures Scan(s, 12) == (Token(Semicolon, ";"), 13)
  {
    assert s[12] == ';' && s[13] == '\n';
    ScanOneByteAt(s, 12, 12);
  }

  lemma IntendedText5(s: seq<Byte>)
    requires s == IntendedInput
    ensures s[13] == '\n'
    ensures s[14] == '\t'
    ensures s[15] == 'a'
    ensures s[16] == 't'
    ensures s[17] == 'o'
    ensures s[18] == 'm'
    ensures s[19] == ' '
    ensures s[15..19] == "atom"
  {
  }

  lemma IntendedScan5(s: seq<Byte>)
    requires s == IntendedInput
    ensures Scan(s, 13) == (Token(Atom, "atom"), 19)
  {
    IntendedText5(s);
    LookupWord(s[15..19], Atom);
    ScanWordAt(s, 13, 15, 19);
  }

  lemma IntendedText6(s: seq<Byte>)
    requires s == IntendedInput
    ensures s[19] == ' '
    ensures s[20] == 'b'
    ensures s[21] == ' '
    ensures s[20..21] == "b"
  {
  }

  lemma IntendedScan6(s: seq<Byte>)
    requires s == IntendedInput
    ensures Scan(s, 19) == (Token(Ident, "b"), 21)
  {
    IntendedText6(s);
    LookupWord(s[20..21], Ident);
    ScanWordAt(s, 19, 20, 21);
  }

  lemma IntendedScan7(s: seq<Byte>)
    requires s == IntendedInput
    ensures Scan(s, 21) == (Token(Assign, "="), 23)
  {
    assert s[21] == ' ' && s[22] == '=' && s[23] == ' ';
    ScanOneByteAt(s, 21, 22);
  }

  lemma IntendedText8(s: seq<Byte>)
    requires s == IntendedInput
    ensures s[23] == ' '
    ensures s[24] == '2'
    ensures s[25] == ';'
    ensures s[24..25] == "2"
  {
  }

  lemma IntendedScan8(s: seq<Byte>)
    requires s == IntendedInput
    ensures Scan(s, 23) == (Token(Int, "2"), 25)
  {
    IntendedText8(s);
    ScanNumberAt(s, 23, 24, 25);
  }

  lemma IntendedScan9(s: seq<Byte>)
    requires s == IntendedInput
    ensures Scan(s, 25) == (Token(Semicolon, ";"), 26)
  {
    assert s[25] == ';' && s[26] == '\n';
    ScanOneByteAt(s, 25, 25);
  }

  lemma IntendedText10(s: seq<Byte>)
    requires s == IntendedInput
    ensures s[26] == '\n'
    ensures s[27] == '\n'
    ensures s[28] == '\t'
    ensures s[29] == 'a'
    ensures s[30] == 't'
    ensures s[31] == 'o'
    ensures s[32] == 'm'
    ensures s[33] == ' '
    ensures s[29..33] == "atom"
  {
  }

  lemma IntendedScan10(s: seq<Byte>)
    requires s == IntendedInput
    ensures Scan(s, 26) == (Token(Atom, "atom"), 33)
  {
    IntendedText10(s);
    LookupWord(s[29..33], Atom);
    ScanWordAt(s, 26, 29, 33);
  }

  lemma IntendedText11(s: seq<Byte>)
    requires s == IntendedInput
    ensures s[33] == ' '
    ensures s[34] == 'f'
    ensures s[35] == 'o'
    ensures s[36] == 'o'
    ensures s[37] == 'b'
    ensures s[38] == 'a'
    ensures s[39] == 'r'
    ensures s[40] == ' '
    ensures s[34..40] == "foobar"
  {
  }

  lemma IntendedScan11(s: seq<Byte>)
    requires s == IntendedInput
    ensures Scan(s, 33) == (Token(Ident, "foobar"), 40)
  {
    IntendedText11(s);
    LookupWord(s[34..40], Ident);
    ScanWordAt(s, 33, 34, 40);
  }

  lemma IntendedScan12(s: seq<Byte>)
    requires s == IntendedInput
    ensures Scan(s, 40) == (Token(Assign, "="), 42)
  {
    assert s[40] == ' ' && s[41] == '=' && s[42] == ' ';
    ScanOneByteAt(s, 40, 41);
  }

  lemma IntendedText13(s: seq<Byte>)
    requires s == IntendedInput
    ensures s[42] == ' '
    ensures s[43] == '1'
    ensures s[44] == '2'
    ensures s[45] == '3'
    ensures s[46] == '2'
    ensures s[47] == '2'
    ensures s[48] == '3'
    ensures s[49] == ';'
    ensures s[43..49] == "123223"
  {
  }

  lemma IntendedScan13(s: seq<Byte>)
    requires s == IntendedInput
    ensures Scan(s, 42) == (Token(Int, "123223"), 49)
  {
    IntendedText13(s);
    ScanNumberAt(s, 42, 43, 49);
  }

  lemma IntendedScan14(s: seq<Byte>)
    requires s == IntendedInput
    ensures Scan(s, 49) == (Token(Semicolon, ";"), 50)
  {
    assert s[49] == ';' && s[50] == '\n';
    ScanOneByteAt(s, 49, 49);
  }

  lemma IntendedScan15(s: seq<Byte>)
    requires s == IntendedInput
    ensures Scan(s, 50) == (Token(Eof, ""), 53)
  {
    assert s[50] == '\n' && s[51] == '\t';
    ScanEndAt(s, 50);
  }

  lemma IntendedLength(ts: seq<Token>)
    requires ts == IntendedTokens
    ensures |ts| == 16
  {
  }

  lemma IntendedToken0(ts: seq<Token>)
    requires ts == IntendedTokens
    ensures ts[0] == Token(Atom, "atom")
  {
  }

  lemma IntendedToken1(ts: seq<Token>)
    requires ts == IntendedTokens
    ensures ts[1] == Token(Ident, "a")
  {
  }

  lemma IntendedToken2(ts: seq<Token>)
    requires ts == IntendedTokens
    ensures ts[2] == Token(Assign, "=")
  {
  }

  lemma IntendedToken3(ts: seq<Token>)
    requires ts == IntendedTokens
    ensures ts[3] == Token(Int, "1")
  {
  }

  lemma IntendedToken4(ts: seq<Token>)
    requires ts == IntendedTokens
    ensures ts[4] == Token(Semicolon, ";")
  {
  }

  lemma IntendedToken5(ts: seq<Token>)
    requires ts == IntendedTokens
    ensures ts[5] == Token(Atom, "atom")
  {
  }

  lemma IntendedToken6(ts: seq<Token>)
    requires ts == IntendedTokens
    ensures ts[6] == Token(Ident, "b")
  {
  }

  lemma IntendedToken7(ts: seq<Token>)
    requires ts == IntendedTokens
    ensures ts[7] == Token(Assign, "=")
  {
  }

  lemma IntendedToken8(ts: seq<Token>)
    requires ts == IntendedTokens
    ensures ts[8] == Token(Int, "2")
  {
  }

  lemma IntendedToken9(ts: seq<Token>)
    requires ts == IntendedTokens
    ensures ts[9] == Token(Semicolon, ";")
  {
  }

  lemma IntendedToken10(ts: seq<Token>)
    requires ts == IntendedTokens
    ensures ts[10] == Token(Atom, "atom")
  {
  }

  lemma IntendedToken11(ts: seq<Token>)
    requires ts == IntendedTokens
    ensures ts[11] == Token(Ident, "foobar")
  {
  }

  lemma IntendedToken12(ts: seq<Token>)
    requires ts == IntendedTokens
    ensures ts[12] == Token(Assign, "=")
  {
  }

  lemma IntendedToken13(ts: seq<Token>)
    requires ts == IntendedTokens
    ensures ts[13] == Token(Int, "123223")
  {
  }

  lemma IntendedToken14(ts: seq<Token>)
    requires ts == IntendedTokens
    ensures ts[14] == Token(Semicolon, ";")
  {
  }

  lemma IntendedToken15(ts: seq<Token>)
    requires ts == IntendedTokens
    ensures ts[15] == Token(Eof, "")
  {
  }

  lemma IntendedFrom15(input: seq<Byte>, ts: seq<Token>)
    requires input == IntendedInput && ts == IntendedTokens
    ensures Tokens(input, 50) == ts[15..]
  {
    IntendedToken15(ts);
    IntendedScan15(input);
    TokensLast(input, 50, ts);
  }

  lemma IntendedFrom14(input: seq<Byte>, ts: seq<Token>)
    requires input == IntendedInput && ts == IntendedTokens
    ensures Tokens(input, 49) == ts[14..]
  {
    IntendedToken14(ts);
    IntendedScan14(input);
    IntendedFrom15(input, ts);
    TokensCons(input, 49, ts, 14, 50);
  }

  lemma IntendedFrom13(input: seq<Byte>, ts: seq<Token>)
    requires input == IntendedInput && ts == IntendedTokens
    ensures Tokens(input, 42) == ts[13..]
  {
    IntendedToken13(ts);
    IntendedScan13(input);
    IntendedFrom14(input, ts);
    TokensCons(input, 42, ts, 13, 49);
  }

  lemma IntendedFrom12(input: seq<Byte>, ts: seq<Token>)
    requires input == IntendedInput && ts == IntendedTokens
    ensures Tokens(input, 40) == ts[12..]
  {
    IntendedToken12(ts);
    IntendedScan12(input);
    IntendedFrom13(input, ts);
    TokensCons(input, 40, ts, 12, 42);
  }

  lemma IntendedFrom11(input: seq<Byte>, ts: seq<Token>)
    requires input == IntendedInput && ts == IntendedTokens
    ensures Tokens(input, 33) == ts[11..]
  {
    IntendedToken11(ts);
    IntendedScan11(input);
    IntendedFrom12(input, ts);
    TokensCons(input, 33, ts, 11, 40);
  }

  lemma IntendedFrom10(input: seq<Byte>, ts: seq<Token>)
    requires input == IntendedInput && ts == IntendedTokens
    ensures Tokens(input, 26) == ts[10..]
  {
    IntendedToken10(ts);
    IntendedScan10(input);
    IntendedFrom11(input, ts);
    TokensCons(input, 26, ts, 10, 33);
  }

  lemma IntendedFrom9(input: seq<Byte>, ts: seq<Token>)
    requires input == IntendedInput && ts == IntendedTokens
    ensures Tokens(input, 25) == ts[9..]
  {
    IntendedToken9(ts);
    IntendedScan9(input);
    IntendedFrom10(input, ts);
    TokensCons(input, 25, ts, 9, 26);
  }

  lemma IntendedFrom8(input: seq<Byte>, ts: seq<Token>)
    requires input == IntendedInput && ts == IntendedTokens
    ensures Tokens(input, 23) == ts[8..]
  {
    IntendedToken8(ts);
    IntendedScan8(input);
    IntendedFrom9(input, ts);
    TokensCons(input, 23, ts, 8, 25);
  }

  lemma IntendedFrom7(input: seq<Byte>, ts: seq<Token>)
    requires input == IntendedInput && ts == IntendedTokens
    ensures Tokens(input, 21) == ts[7..]
  {
    IntendedToken7(ts);
    IntendedScan7(input);
    IntendedFrom8(input, ts);
    TokensCons(input, 21, ts, 7, 23);
  }

  lemma IntendedFrom6(input: seq<Byte>, ts: seq<Token>)
    requires input == IntendedInput && ts == IntendedTokens
    ensures Tokens(input, 19) == ts[6..]
  {
    IntendedToken6(ts);
    IntendedScan6(input);
    IntendedFrom7(input, ts);
    TokensCons(input, 19, ts, 6, 21);
  }

  lemma IntendedFrom5(input: seq<Byte>, ts: seq<Token>)
    requires input == IntendedInput && ts == IntendedTokens
    ensures Tokens(input, 13) == ts[5..]
  {
    IntendedToken5(ts);
    IntendedScan5(input);
    IntendedFrom6(input, ts);
    TokensCons(input, 13, ts, 5, 19);
  }

  lemma IntendedFrom4(input: seq<Byte>, ts: seq<Token>)
    requires input == IntendedInput && ts == IntendedTokens
    ensures Tokens(input, 12) == ts[4..]
  {
    IntendedToken4(ts);
    IntendedScan4(input);
    IntendedFrom5(input, ts);
    TokensCons(input, 12, ts, 4, 13);
  }

  lemma IntendedFrom3(input: seq<Byte>, ts: seq<Token>)
    requires input == IntendedInput && ts == IntendedTokens
    ensures Tokens(input, 10) == ts[3..]
  {
    IntendedToken3(ts);
    IntendedScan3(input);
    IntendedFrom4(input, ts);
    TokensCons(input, 10, ts, 3, 12);
  }

  lemma IntendedFrom2(input: seq<Byte>, ts: seq<Token>)
    requires input == IntendedInput && ts == IntendedTokens
    ensures Tokens(input, 8) == ts[2..]
  {
    IntendedToken2(ts);
    IntendedScan2(input);
    IntendedFrom3(input, ts);
    TokensCons(input, 8, ts, 2, 10);
  }

  lemma IntendedFrom1(input: seq<Byte>, ts: seq<Token>)
    requires input == IntendedInput && ts == IntendedTokens
    ensures Tokens(input, 6) == ts[1..]
  {
    IntendedToken1(ts);
    IntendedScan1(input);
    IntendedFrom2(input, ts);
    TokensCons(input, 6, ts, 1, 8);
  }

  lemma IntendedFrom0(input: seq<Byte>, ts: seq<Token>)
    requires input == IntendedInput && ts == IntendedTokens
    ensures Tokens(input, 0) == ts[0..]
  {
    IntendedToken0(ts);
    IntendedScan0(input);
    IntendedFrom1(input, ts);
    TokensCons(input, 0, ts, 0, 6);
  }

  lemma IntendedLexes()
    ensures Tokens(IntendedInput, 0) == IntendedTokens
  {
    IntendedFrom0(IntendedInput, IntendedTokens);
    assert IntendedTokens[0..] == IntendedTokens;
  }


  // ---------------------------------------------------------------------
  // Parsing the two token streams

  /** A stream the scanner can yield: keywords spelled, EOF last. */
  predicate Scannable(ts: seq<Token>) {
    && (forall i | 0 <= i < |ts| :: Spelled(ts[i]))
    && ts != [] && ts[|ts| - 1].tokenType == Eof
  }

  lemma AtAtom(ts: seq<Token>, k: nat, errors: seq<string>, acc: seq<Statement>)
    requires Scannable(ts) && k + 5 <= |ts|
    requires ts[k].tokenType == Atom && ts[k + 1].tokenType == Ident && ts[k + 2].tokenType == Assign
    ensures At(ts, k, errors).Consistent() && At(ts, k + 4, errors).Consistent()
    ensures At(ts, k, errors).ParseLoop(acc) == At(ts, k + 4, errors).ParseLoop(
      acc + [AtomStmt(Some(AtomStatement(ts[k], Identifier(ts[k + 1], ts[k + 1].literal), None)))])
  {
    AtConsistent(ts, k, errors);
    AtConsistent(ts, k + 4, errors);
    AtNext(ts, k, errors);
    AtNext(ts, k + 1, errors);
    AtNext(ts, k + 2, errors);
    AtNext(ts, k + 3, errors);
    LoopAtom(At(ts, k, errors), acc);
  }

  lemma AtSkip(ts: seq<Token>, k: nat, errors: seq<string>, acc: seq<Statement>)
    requires Scannable(ts) && k + 2 <= |ts|
    requires ts[k].tokenType != Eof && ts[k].tokenType != Atom && ts[k].tokenType != Produce
    ensures At(ts, k, errors).Consistent() && At(ts, k + 1, errors).Consistent()
    ensures At(ts, k, errors).ParseLoop(acc) == At(ts, k + 1, errors).ParseLoop(acc)
  {
    AtConsistent(ts, k, errors);
    AtConsistent(ts, k + 1, errors);
    AtNext(ts, k, errors);
    LoopSkipsOtherStarts(At(ts, k, errors), acc);
  }

  lemma AtNoIdent(ts: seq<Token>, k: nat, errors: seq<string>, acc: seq<Statement>)
    requires Scannable(ts) && k + 2 <= |ts|
    requires ts[k].tokenType == Atom && ts[k + 1].tokenType != Ident
    ensures var e := errors + [ExpectedMessage(Ident, ts[k + 1].tokenType)];
      At(ts, k, errors).Consistent() && At(ts, k + 1, e).Consistent() &&
      At(ts, k, errors).ParseLoop(acc) == At(ts, k + 1, e).ParseLoop(acc + [AtomStmt(None)])
  {
    var e := errors + [ExpectedMessage(Ident, ts[k + 1].tokenType)];
    AtConsistent(ts, k, errors);
    AtConsistent(ts, k + 1, e);
    AtNext(ts, k, e);
    assert At(ts, k, errors).PeekError(Ident) == At(ts, k, e);
    LoopAtomNoIdent(At(ts, k, errors), acc);
  }

  lemma AtNoAssign(ts: seq<Token>, k: nat, errors: seq<string>, acc: seq<Statement>)
    requires Scannable(ts) && k + 3 <= |ts|
    requires ts[k].tokenType == Atom && ts[k + 1].tokenType == Ident && ts[k + 2].tokenType != Assign
    ensures var e := errors + [ExpectedMessage(Assign, ts[k + 2].tokenType)];
      At(ts, k, errors).Consistent() && At(ts, k + 2, e).Consistent() &&
      At(ts, k, errors).ParseLoop(acc) == At(ts, k + 2, e).ParseLoop(acc + [AtomStmt(None)])
  {
    var e := errors + [ExpectedMessage(Assign, ts[k + 2].tokenType)];
    AtConsistent(ts, k, errors);
    AtConsistent(ts, k + 2, e);
    AtNext(ts, k, errors);
    AtNext(ts, k + 1, e);
    assert At(ts, k + 1, errors).PeekError(Assign) == At(ts, k + 1, e);
    LoopAtomNoAssign(At(ts, k, errors), acc);
  }

  lemma AtEnd(ts: seq<Token>, k: nat, errors: seq<string>, acc: seq<Statement>)
    requires Scannable(ts) && k < |ts| && ts[k].tokenType == Eof
    ensures At(ts, k, errors).Consistent()
    ensures At(ts, k, errors).ParseLoop(acc) == Halts(acc, At(ts, k, errors))
  {
    AtConsistent(ts, k, errors);
  }

  function AtomNamed(x: string): Statement {
    AtomStmt(Some(AtomStatement(Token(Atom, "atom"), Identifier(Token(Ident, x), x), None)))
  }

  lemma IntendedScannable()
    ensures Scannable(IntendedTokens)
  {
    var ts := IntendedTokens;
    forall i | 0 <= i < |ts| ensures Spelled(ts[i]) {
      assert ts[i].tokenType.IsKeyword() ==> ts[i] == Token(Atom, "atom");
    }
  }

  lemma CommittedScannable()
    ensures Scannable(CommittedTokens)
  {
    var ts := CommittedTokens;
    forall i | 0 <= i < |ts| ensures Spelled(ts[i]) {
      assert ts[i].tokenType.IsKeyword() ==> ts[i] == Token(Atom, "atom");
    }
  }

  /** `AtAtom` for the statement the scanner makes of `atom x =`. */
  lemma AtAtomNamed(ts: seq<Token>, k: nat, errors: seq<string>, acc: seq<Statement>, x: string)
    requires Scannable(ts) && k + 5 <= |ts|
    requires ts[k] == Token(Atom, "atom") && ts[k + 1] == Token(Ident, x) && ts[k + 2].tokenType == Assign
    ensures At(ts, k, errors).Consistent() && At(ts, k + 4, errors).Consistent()
    ensures At(ts, k, errors).ParseLoop(acc) == At(ts, k + 4, errors).ParseLoop(acc + [AtomNamed(x)])
  {
    AtAtom(ts, k, errors, acc);
  }

  /** What the parser's test checks of a statement. */
  lemma AtomNamedFields(x: string)
    ensures AtomNamed(x).HasTokenLiteral() && AtomNamed(x).TokenLiteral() == "atom"
    ensures AtomNamed(x).atom.value.name.value == x && AtomNamed(x).atom.value.name.TokenLiteral() == x
  {
  }

  /** The diagnostics the parser's test makes on the text it holds. */
  const CommittedErrors: seq<string> := [
    ExpectedMessage(Assign, Int),
    ExpectedMessage(Ident, Assign),
    ExpectedMessage(Ident, Int)]

  lemma MessageAssignInt()
    ensures ExpectedMessage(Assign, Int) == "expected next token to be =, got INT instead"
  {
    assert Assign.Name() == "=" && Int.Name() == "INT";
    var m := "expected next token to be " + "=" + ", got " + "INT" + " instead";
    assert forall i | 0 <= i < 44 :: m[i] == "expected next token to be =, got INT instead"[i];
  }

  lemma MessageIdentAssign()
    ensures ExpectedMessage(Ident, Assign) == "expected next token to be IDENT, got = instead"
  {
    assert Ident.Name() == "IDENT" && Assign.Name() == "=";
    var m := "expected next token to be " + "IDENT" + ", got " + "=" + " instead";
    assert forall i | 0 <= i < 46 :: m[i] == "expected next token to be IDENT, got = instead"[i];
  }

  lemma MessageIdentInt()
    ensures ExpectedMessage(Ident, Int) == "expected next token to be IDENT, got INT instead"
  {
    assert Ident.Name() == "IDENT" && Int.Name() == "INT";
    var m := "expected next token to be " + "IDENT" + ", got " + "INT" + " instead";
    assert forall i | 0 <= i < 48 :: m[i] == "expected next token to be IDENT, got INT instead"[i];
  }

  /** Those diagnostics spelled out. */
  lemma CommittedErrorsText()
    ensures CommittedErrors == [
      "expected next token to be =, got INT instead",
      "expected next token to be IDENT, got = instead",
      "expected next token to be IDENT, got INT instead"]
  {
    MessageAssignInt();
    MessageIdentAssign();
    MessageIdentInt();
  }

  lemma IntendedStep0(ts: seq<Token>)
    requires ts == IntendedTokens
    ensures At(ts, 0, []).Consistent() && At(ts, 4, []).Consistent()
    ensures At(ts, 0, []).ParseLoop([]) == At(ts, 4, []).ParseLoop([AtomNamed("a")])
  {
    IntendedLength(ts);
    IntendedToken0(ts);
    IntendedToken1(ts);
    IntendedToken2(ts);
    IntendedScannable();
    assert [] + [AtomNamed("a")] == [AtomNamed("a")];
    AtAtomNamed(ts, 0, [], [], "a");
  }

  lemma IntendedStep1(ts: seq<Token>)
    requires ts == IntendedTokens
    ensures At(ts, 4, []).Consistent() && At(ts, 5, []).Consistent()
    ensures At(ts, 4, []).ParseLoop([AtomNamed("a")]) == At(ts, 5, []).ParseLoop([AtomNamed("a")])
  {
    IntendedLength(ts);
    IntendedToken4(ts);
    IntendedScannable();
    AtSkip(ts, 4, [], [AtomNamed("a")]);
  }

  lemma IntendedStep2(ts: seq<Token>)
    requires ts == IntendedTokens
    ensures At(ts, 5, []).Consistent() && At(ts, 9, []).Consistent()
    ensures At(ts, 5, []).ParseLoop([AtomNamed("a")]) == At(ts, 9, []).ParseLoop([AtomNamed("a"), AtomNamed("b")])
  {
    IntendedLength(ts);
    IntendedToken5(ts);
    IntendedToken6(ts);
    IntendedToken7(ts);
    IntendedScannable();
    assert [AtomNamed("a")] + [AtomNamed("b")] == [AtomNamed("a"), AtomNamed("b")];
    AtAtomNamed(ts, 5, [], [AtomNamed("a")], "b");
  }

  lemma IntendedStep3(ts: seq<Token>)
    requires ts == IntendedTokens
    ensures At(ts, 9, []).Consistent() && At(ts, 10, []).Consistent()
    ensures At(ts, 9, []).ParseLoop([AtomNamed("a"), AtomNamed("b")]) == At(ts, 10, []).ParseLoop([AtomNamed("a"), AtomNamed("b")])
  {
    IntendedLength(ts);
    IntendedToken9(ts);
    IntendedScannable();
    AtSkip(ts, 9, [], [AtomNamed("a"), AtomNamed("b")]);
  }

  lemma IntendedStep4(ts: seq<Token>)
    requires ts == IntendedTokens
    ensures At(ts, 10, []).Consistent() && At(ts, 14, []).Consistent()
    ensures At(ts, 10, []).ParseLoop([AtomNamed("a"), AtomNamed("b")]) == At(ts, 14, []).ParseLoop([AtomNamed("a"), AtomNamed("b"), AtomNamed("foobar")])
  {
    IntendedLength(ts);
    IntendedToken10(ts);
    IntendedToken11(ts);
    IntendedToken12(ts);
    IntendedScannable();
    assert [AtomNamed("a"), AtomNamed("b")] + [AtomNamed("foobar")] == [AtomNamed("a"), AtomNamed("b"), AtomNamed("foobar")];
    AtAtomNamed(ts, 10, [], [AtomNamed("a"), AtomNamed("b")], "foobar");
  }

  lemma IntendedStep5(ts: seq<Token>)
    requires ts == IntendedTokens
    ensures At(ts, 14, []).Consistent() && At(ts, 15, []).Consistent()
    ensures At(ts, 14, []).ParseLoop([AtomNamed("a"), AtomNamed("b"), AtomNamed("foobar")]) == At(ts, 15, []).ParseLoop([AtomNamed("a"), AtomNamed("b"), AtomNamed("foobar")])
  {
    IntendedLength(ts);
    IntendedToken14(ts);
    IntendedScannable();
    AtSkip(ts, 14, [], [AtomNamed("a"), AtomNamed("b"), AtomNamed("foobar")]);
  }

  lemma IntendedStep6(ts: seq<Token>)
    requires ts == IntendedTokens
    ensures At(ts, 15, []).Consistent()
    ensures At(ts, 15, []).ParseLoop([AtomNamed("a"), AtomNamed("b"), AtomNamed("foobar")]) == Halts([AtomNamed("a"), AtomNamed("b"), AtomNamed("foobar")], At(ts, 15, []))
  {
    IntendedLength(ts);
    IntendedToken15(ts);
    IntendedScannable();
    AtEnd(ts, 15, [], [AtomNamed("a"), AtomNamed("b"), AtomNamed("foobar")]);
  }

  lemma CommittedStep0(ts: seq<Token>)
    requires ts == CommittedTokens
    ensures At(ts, 0, []).Consistent() && At(ts, 2, [ExpectedMessage(Assign, Int)]).Consistent()
    ensures At(ts, 0, []).ParseLoop([]) == At(ts, 2, [ExpectedMessage(Assign, Int)]).ParseLoop([AtomStmt(None)])
  {
    CommittedLength(ts);
    CommittedToken0(ts);
    CommittedToken1(ts);
    CommittedToken2(ts);
    CommittedScannable();
    assert [] + [AtomStmt(None)] == [AtomStmt(None)];
    assert [] + [ExpectedMessage(Assign, Int)] == [ExpectedMessage(Assign, Int)];
    AtNoAssign(ts, 0, [], []);
  }

  lemma CommittedStep1(ts: seq<Token>)
    requires ts == CommittedTokens
    ensures At(ts, 2, [ExpectedMessage(Assign, Int)]).Consistent() && At(ts, 3, [ExpectedMessage(Assign, Int)]).Consistent()
    ensures At(ts, 2, [ExpectedMessage(Assign, Int)]).ParseLoop([AtomStmt(None)]) == At(ts, 3, [ExpectedMessage(Assign, Int)]).ParseLoop([AtomStmt(None)])
  {
    CommittedLength(ts);
    CommittedToken2(ts);
    CommittedScannable();
    AtSkip(ts, 2, [ExpectedMessage(Assign, Int)], [AtomStmt(None)]);
  }

  lemma CommittedStep2(ts: seq<Token>)
    requires ts == CommittedTokens
    ensures At(ts, 3, [ExpectedMessage(Assign, Int)]).Consistent() && At(ts, 4, [ExpectedMessage(Assign, Int)]).Consistent()
    ensures At(ts, 3, [ExpectedMessage(Assign, Int)]).ParseLoop([AtomStmt(None)]) == At(ts, 4, [ExpectedMessage(Assign, Int)]).ParseLoop([AtomStmt(None)])
  {
    CommittedLength(ts);
    CommittedToken3(ts);
    CommittedScannable();
    AtSkip(ts, 3, [ExpectedMessage(Assign, Int)], [AtomStmt(None)]);
  }

  lemma CommittedStep3(ts: seq<Token>)
    requires ts == CommittedTokens
    ensures At(ts, 4, [ExpectedMessage(Assign, Int)]).Consistent() && At(ts, 5, [ExpectedMessage(Assign, Int), ExpectedMessage(Ident, Assign)]).Consistent()
    ensures At(ts, 4, [ExpectedMessage(Assign, Int)]).ParseLoop([AtomStmt(None)]) == At(ts, 5, [ExpectedMessage(Assign, Int), ExpectedMessage(Ident, Assign)]).ParseLoop([AtomStmt(None), AtomStmt(None)])
  {
    CommittedLength(ts);
    CommittedToken4(ts);
    CommittedToken5(ts);
    CommittedScannable();
    assert [AtomStmt(None)] + [AtomStmt(None)] == [AtomStmt(None), AtomStmt(None)];
    assert [ExpectedMessage(Assign, Int)] + [ExpectedMessage(Ident, Assign)] == [ExpectedMessage(Assign, Int), ExpectedMessage(Ident, Assign)];
    AtNoIdent(ts, 4, [ExpectedMessage(Assign, Int)], [AtomStmt(None)]);
  }

  lemma CommittedStep4(ts: seq<Token>)
    requires ts == CommittedTokens
    ensures At(ts, 5, [ExpectedMessage(Assign, Int), ExpectedMessage(Ident, Assign)]).Consistent() && At(ts, 6, [ExpectedMessage(Assign, Int), ExpectedMessage(Ident, Assign)]).Consistent()
    ensures At(ts, 5, [ExpectedMessage(Assign, Int), ExpectedMessage(Ident, Assign)]).ParseLoop([AtomStmt(None), AtomStmt(None)]) == At(ts, 6, [ExpectedMessage(Assign, Int), ExpectedMessage(Ident, Assign)]).ParseLoop([AtomStmt(None), AtomStmt(None)])
  {
    CommittedLength(ts);
    CommittedToken5(ts);
    CommittedScannable();
    AtSkip(ts, 5, [ExpectedMessage(Assign, Int), ExpectedMessage(Ident, Assign)], [AtomStmt(None), AtomStmt(None)]);
  }

  lemma CommittedStep5(ts: seq<Token>)
    requires ts == CommittedTokens
    ensures At(ts, 6, [ExpectedMessage(Assign, Int), ExpectedMessage(Ident, Assign)]).Consistent() && At(ts, 7, [ExpectedMessage(Assign, Int), ExpectedMessage(Ident, Assign)]).Consistent()
    ensures At(ts, 6, [ExpectedMessage(Assign, Int), ExpectedMessage(Ident, Assign)]).ParseLoop([AtomStmt(None), AtomStmt(None)]) == At(ts, 7, [ExpectedMessage(Assign, Int), ExpectedMessage(Ident, Assign)]).ParseLoop([AtomStmt(None), AtomStmt(None)])
  {
    CommittedLength(ts);
    CommittedToken6(ts);
    CommittedScannable();
    AtSkip(ts, 6, [ExpectedMessage(Assign, Int), ExpectedMessage(Ident, Assign)], [AtomStmt(None), AtomStmt(None)]);
  }

  lemma CommittedStep6(ts: seq<Token>)
    requires ts == CommittedTokens
    ensures At(ts, 7, [ExpectedMessage(Assign, Int), ExpectedMessage(Ident, Assign)]).Consistent() && At(ts, 8, [ExpectedMessage(Assign, Int), ExpectedMessage(Ident, Assign)]).Consistent()
    ensures At(ts, 7, [ExpectedMessage(Assign, Int), ExpectedMessage(Ident, Assign)]).ParseLoop([AtomStmt(None), AtomStmt(None)]) == At(ts, 8, [ExpectedMessage(Assign, Int), ExpectedMessage(Ident, Assign)]).ParseLoop([AtomStmt(None), AtomStmt(None)])
  {
    CommittedLength(ts);
    CommittedToken7(ts);
    CommittedScannable();
    AtSkip(ts, 7, [ExpectedMessage(Assign, Int), ExpectedMessage(Ident, Assign)], [AtomStmt(None), AtomStmt(None)]);
  }

  lemma CommittedStep7(ts: seq<Token>)
    requires ts == CommittedTokens
    ensures At(ts, 8, [ExpectedMessage(Assign, Int), ExpectedMessage(Ident, Assign)]).Consistent() && At(ts, 9, CommittedErrors).Consistent()
    ensures At(ts, 8, [ExpectedMessage(Assign, Int), ExpectedMessage(Ident, Assign)]).ParseLoop([AtomStmt(None), AtomStmt(None)]) == At(ts, 9, CommittedErrors).ParseLoop([AtomStmt(None), AtomStmt(None), AtomStmt(None)])
  {
    CommittedLength(ts);
    CommittedToken8(ts);
    CommittedToken9(ts);
    CommittedScannable();
    assert [AtomStmt(None), AtomStmt(None)] + [AtomStmt(None)] == [AtomStmt(None), AtomStmt(None), AtomStmt(None)];
    assert [ExpectedMessage(Assign, Int), ExpectedMessage(Ident, Assign)] + [ExpectedMessage(Ident, Int)] == CommittedErrors;
    AtNoIdent(ts, 8, [ExpectedMessage(Assign, Int), ExpectedMessage(Ident, Assign)], [AtomStmt(None), AtomStmt(None)]);
  }

  lemma CommittedStep8(ts: seq<Token>)
    requires ts == CommittedTokens
    ensures At(ts, 9, CommittedErrors).Consistent() && At(ts, 10, CommittedErrors).Consistent()
    ensures At(ts, 9, CommittedErrors).ParseLoop([AtomStmt(None), AtomStmt(None), AtomStmt(None)]) == At(ts, 10, CommittedErrors).ParseLoop([AtomStmt(None), AtomStmt(None), AtomStmt(None)])
  {
    CommittedLength(ts);
    CommittedToken9(ts);
    CommittedScannable();
    AtSkip(ts, 9, CommittedErrors, [AtomStmt(None), AtomStmt(None), AtomStmt(None)]);
  }

  lemma CommittedStep9(ts: seq<Token>)
    requires ts == CommittedTokens
    ensures At(ts, 10, CommittedErrors).Consistent() && At(ts, 11, CommittedErrors).Consistent()
    ensures At(ts, 10, CommittedErrors).ParseLoop([AtomStmt(None), AtomStmt(None), AtomStmt(None)]) == At(ts, 11, CommittedErrors).ParseLoop([AtomStmt(None), AtomStmt(None), AtomStmt(None)])
  {
    CommittedLength(ts);
    CommittedToken10(ts);
    CommittedScannable();
    AtSkip(ts, 10, CommittedErrors, [AtomStmt(None), AtomStmt(None), AtomStmt(None)]);
  }

  lemma CommittedStep10(ts: seq<Token>)
    requires ts == CommittedTokens
    ensures At(ts, 11, CommittedErrors).Consistent()
    ensures At(ts, 11, CommittedErrors).ParseLoop([AtomStmt(None), AtomStmt(None), AtomStmt(None)]) == Halts([AtomStmt(None), AtomStmt(None), AtomStmt(None)], At(ts, 11, CommittedErrors))
  {
    CommittedLength(ts);
    CommittedToken11(ts);
    CommittedScannable();
    AtEnd(ts, 11, CommittedErrors, [AtomStmt(None), AtomStmt(None), AtomStmt(None)]);
  }

  /** The commented-out text parses as three named atom statements, each
      with literal "atom", and no diagnostics. */
  lemma IntendedParses()
    ensures Start(IntendedTokens).ParseProgram()
      == Halts(Program([AtomNamed("a"), AtomNamed("b"), AtomNamed("foobar")]), At(IntendedTokens, 15, []))
  {
    IntendedScannable();
    assert Start(IntendedTokens) == At(IntendedTokens, 0, []);
    IntendedLoop(IntendedTokens);
    var r := At(IntendedTokens, 0, []).ParseLoop([]);
    assert r.result == [AtomNamed("a"), AtomNamed("b"), AtomNamed("foobar")];
  }

  lemma IntendedLoop(ts: seq<Token>)
    requires ts == IntendedTokens
    ensures At(ts, 0, []).Consistent()
    ensures At(ts, 0, []).ParseLoop([])
      == Halts([AtomNamed("a"), AtomNamed("b"), AtomNamed("foobar")], At(ts, 15, []))
  {
    IntendedStep0(ts); IntendedStep1(ts); IntendedStep2(ts); IntendedStep3(ts); IntendedStep4(ts); IntendedStep5(ts); IntendedStep6(ts);
  }

  /** The text the test holds has no `=` in its first statement and no
      name in the other two: three nil statement slots and three
      diagnostics. */
  lemma CommittedParses()
    ensures Start(CommittedTokens).ParseProgram()
      == Halts(Program([AtomStmt(None), AtomStmt(None), AtomStmt(None)]), At(CommittedTokens, 11, CommittedErrors))
  {
    CommittedScannable();
    assert Start(CommittedTokens) == At(CommittedTokens, 0, []);
    CommittedLoop(CommittedTokens);
  }

  lemma CommittedLoop(ts: seq<Token>)
    requires ts == CommittedTokens
    ensures At(ts, 0, []).Consistent()
    ensures At(ts, 0, []).ParseLoop([])
      == Halts([AtomStmt(None), AtomStmt(None), AtomStmt(None)], At(ts, 11, CommittedErrors))
  {
    CommittedStep0(ts); CommittedStep1(ts); CommittedStep2(ts); CommittedStep3(ts); CommittedStep4(ts); CommittedStep5(ts); CommittedStep6(ts); CommittedStep7(ts); CommittedStep8(ts); CommittedStep9(ts); CommittedStep10(ts);
  }

  // ---------------------------------------------------------------------
  // The test end to end: source text to program and diagnostics

  lemma CommittedTextParses()
    ensures var r := Start(Tokens(CommittedInput, 0)).ParseProgram();
      r.Halts? && r.result == Program([AtomStmt(None), AtomStmt(None), AtomStmt(None)])
      && r.after.errors == CommittedErrors
  {
    CommittedLexes();
    CommittedParses();
  }

  lemma IntendedTextParses()
    ensures var r := Start(Tokens(IntendedInput, 0)).ParseProgram();
      r.Halts? && r.result == Program([AtomNamed("a"), AtomNamed("b"), AtomNamed("foobar")])
      && r.after.errors == []
  {
    IntendedLexes();
    IntendedParses();
  }

  /** The names the test expects, in order. */
  const TestedNames: seq<string> := ["a", "b", "foobar"]

  /** The checks of `testAtomStatement` on a program of three named
      statements. */
  lemma TestedStatements(p: Program)
    requires p.statements == [AtomNamed("a"), AtomNamed("b"), AtomNamed("foobar")]
    ensures |p.statements| == 3
    ensures forall i | 0 <= i < 3 ::
      && p.statements[i].HasTokenLiteral()
      && p.statements[i].TokenLiteral() == "atom"
      && p.statements[i].atom.value.name.value == TestedNames[i]
      && p.statements[i].atom.value.name.TokenLiteral() == TestedNames[i]
  {
    forall i | 0 <= i < 3
      ensures p.statements[i] == AtomNamed(TestedNames[i])
    {
    }
    forall i | 0 <= i < 3
      ensures p.statements[i].HasTokenLiteral() && p.statements[i].TokenLiteral() == "atom"
      ensures p.statements[i].atom.value.name.value == TestedNames[i]
      ensures p.statements[i].atom.value.name.TokenLiteral() == TestedNames[i]
    {
      AtomNamedFields(TestedNames[i]);
    }
  }

  /** `TestAtomStatement` on the text it holds: three statement slots, each
      a nil atom statement, and three diagnostics, so its error check fails. */
  method TestAtomStatement() returns (program: Program, errors: seq<string>)
    ensures program == Program([AtomStmt(None), AtomStmt(None), AtomStmt(None)])
    ensures errors == CommittedErrors
  {
    CommittedTextParses();
    program, errors := Parse(CommittedInput);
  }

  /** The same test on the commented-out text: the three statements its
      loop checks, with no diagnostics. */
  method TestAtomStatementIntended() returns (program: Program, errors: seq<string>)
    ensures |program.statements| == 3 && errors == []
    ensures forall i | 0 <= i < 3 ::
      && program.statements[i].HasTokenLiteral()
      && program.statements[i].TokenLiteral() == "atom"
      && program.statements[i].atom.value.name.value == TestedNames[i]
      && program.statements[i].atom.value.name.TokenLiteral() == TestedNames[i]
  {
    IntendedTextParses();
    program, errors := Parse(IntendedInput);
    TestedStatements(program);
  }
}
