/**
 * Goldens: the example inputs of the test harness (test.c, lines 50-63),
 * lexed and parsed by the model. Each accepted input parses to a program
 * whose serialisation is the expected string; each rejected input makes the
 * whole parse fail, with the message given here.
 */
module Goldens {
  import opened Wrappers
  import opened Tokens
  import opened Lexing
  import LexingProperties
  import Ast
  import opened Grammar
  import GrammarProperties

  // Lexing: each text, character by character, and the tokens it yields.

  /** The text ``, character by character. */
  predicate IsEmptyText(s: string) {
    |s| == 0
  }

  function EmptyTokens(): seq<Token> {
    []
  }

  lemma EmptyFrom0(s: string)
    requires IsEmptyText(s)
    ensures TokensFrom(s, 0) == EmptyTokens()
  {
    LexingProperties.StreamAtEnd(s);
  }

  /** The text `print pi uit;`, character by character. */
  predicate IsPrintPiText(s: string) {
    |s| == 13
    && s[0] == 'p' && s[1] == 'r' && s[2] == 'i' && s[3] == 'n' && s[4] == 't' && s[5] == ' ' && s[6] == 'p' && s[7] == 'i' && s[8] == ' ' && s[9] == 'u' && s[10] == 'i' && s[11] == 't' && s[12] == ';'
  }

  function PrintPiTokens(): seq<Token> {
    [Create(Print), Tokens.CreateName("pi"), Create(Uit), Create(Semicolon)]
  }

  lemma PrintPiFrom12(s: string)
    requires IsPrintPiText(s)
    ensures TokensFrom(s, 12) == [Create(Semicolon)]
  {
    assert s[12] == ';';
    LexingProperties.PunctuatorInStream(s, 12, Semicolon, 13);
    LexingProperties.StreamAtEnd(s);
  }

  lemma PrintPiFrom9(s: string)
    requires IsPrintPiText(s)
    ensures TokensFrom(s, 9) == [Create(Uit), Create(Semicolon)]
  {
    assert s[9..12] == "uit";
    LexingProperties.WordInStream(s, 9, 12, 12);
    PrintPiFrom12(s);
  }

  lemma PrintPiFrom6(s: string)
    requires IsPrintPiText(s)
    ensures TokensFrom(s, 6) == [Tokens.CreateName("pi"), Create(Uit), Create(Semicolon)]
  {
    assert s[6..8] == "pi";
    assert s[8] == ' ';
    LexingProperties.WordInStream(s, 6, 8, 9);
    PrintPiFrom9(s);
  }

  lemma PrintPiFrom0(s: string)
    requires IsPrintPiText(s)
    ensures TokensFrom(s, 0) == PrintPiTokens()
  {
    assert s[0..5] == "print";
    assert s[5] == ' ';
    LexingProperties.WordInStream(s, 0, 5, 6);
    PrintPiFrom6(s);
  }

  /** The text `print pi uit; print tau uit;`, character by character. */
  predicate IsTwoPrintsText(s: string) {
    |s| == 28
    && s[0] == 'p' && s[1] == 'r' && s[2] == 'i' && s[3] == 'n' && s[4] == 't' && s[5] == ' ' && s[6] == 'p' && s[7] == 'i' && s[8] == ' ' && s[9] == 'u' && s[10] == 'i' && s[11] == 't' && s[12] == ';' && s[13] == ' ' && s[14] == 'p' && s[15] == 'r' && s[16] == 'i' && s[17] == 'n' && s[18] == 't' && s[19] == ' ' && s[20] == 't' && s[21] == 'a' && s[22] == 'u' && s[23] == ' ' && s[24] == 'u' && s[25] == 'i' && s[26] == 't' && s[27] == ';'
  }

  function TwoPrintsTokens(): seq<Token> {
    [Create(Print), Tokens.CreateName("pi"), Create(Uit), Create(Semicolon), Create(Print), Tokens.CreateName("tau"), Create(Uit), Create(Semicolon)]
  }

  lemma TwoPrintsFrom27(s: string)
    requires IsTwoPrintsText(s)
    ensures TokensFrom(s, 27) == [Create(Semicolon)]
  {
    assert s[27] == ';';
    LexingProperties.PunctuatorInStream(s, 27, Semicolon, 28);
    LexingProperties.StreamAtEnd(s);
  }

  lemma TwoPrintsFrom24(s: string)
    requires IsTwoPrintsText(s)
    ensures TokensFrom(s, 24) == [Create(Uit), Create(Semicolon)]
  {
    assert s[24..27] == "uit";
    LexingProperties.WordInStream(s, 24, 27, 27);
    TwoPrintsFrom27(s);
  }

  lemma TwoPrintsFrom20(s: string)
    requires IsTwoPrintsText(s)
    ensures TokensFrom(s, 20) == [Tokens.CreateName("tau"), Create(Uit), Create(Semicolon)]
  {
    assert s[20..23] == "tau";
    assert s[23] == ' ';
    LexingProperties.WordInStream(s, 20, 23, 24);
    TwoPrintsFrom24(s);
  }

  lemma TwoPrintsFrom14(s: string)
    requires IsTwoPrintsText(s)
    ensures TokensFrom(s, 14) == [Create(Print), Tokens.CreateName("tau"), Create(Uit), Create(Semicolon)]
  {
    assert s[14..19] == "print";
    assert s[19] == ' ';
    LexingProperties.WordInStream(s, 14, 19, 20);
    TwoPrintsFrom20(s);
  }

  lemma TwoPrintsFrom12(s: string)
    requires IsTwoPrintsText(s)
    ensures TokensFrom(s, 12) == [Create(Semicolon), Create(Print), Tokens.CreateName("tau"), Create(Uit), Create(Semicolon)]
  {
    assert s[12] == ';' && s[13] == ' ';
    LexingProperties.PunctuatorInStream(s, 12, Semicolon, 14);
    TwoPrintsFrom14(s);
  }

  lemma TwoPrintsFrom9(s: string)
    requires IsTwoPrintsText(s)
    ensures TokensFrom(s, 9) == [Create(Uit), Create(Semicolon), Create(Print), Tokens.CreateName("tau"), Create(Uit), Create(Semicolon)]
  {
    assert s[9..12] == "uit";
    LexingProperties.WordInStream(s, 9, 12, 12);
    TwoPrintsFrom12(s);
  }

  lemma TwoPrintsFrom6(s: string)
    requires IsTwoPrintsText(s)
    ensures TokensFrom(s, 6) == [Tokens.CreateName("pi"), Create(Uit), Create(Semicolon), Create(Print), Tokens.CreateName("tau"), Create(Uit), Create(Semicolon)]
  {
    assert s[6..8] == "pi";
    assert s[8] == ' ';
    LexingProperties.WordInStream(s, 6, 8, 9);
    TwoPrintsFrom9(s);
  }

  lemma TwoPrintsFrom0(s: string)
    requires IsTwoPrintsText(s)
    ensures TokensFrom(s, 0) == TwoPrintsTokens()
  {
    assert s[0..5] == "print";
    assert s[5] == ' ';
    LexingProperties.WordInStream(s, 0, 5, 6);
    TwoPrintsFrom6(s);
  }

  /** The text `print 2 + 2 uit;`, character by character. */
  predicate IsPrintSumText(s: string) {
    |s| == 16
    && s[0] == 'p' && s[1] == 'r' && s[2] == 'i' && s[3] == 'n' && s[4] == 't' && s[5] == ' ' && s[6] == '2' && s[7] == ' ' && s[8] == '+' && s[9] == ' ' && s[10] == '2' && s[11] == ' ' && s[12] == 'u' && s[13] == 'i' && s[14] == 't' && s[15] == ';'
  }

  function PrintSumTokens(): seq<Token> {
    [Create(Print), CreateNumber(2), Create(Plus), CreateNumber(2), Create(Uit), Create(Semicolon)]
  }

  lemma PrintSumFrom15(s: string)
    requires IsPrintSumText(s)
    ensures TokensFrom(s, 15) == [Create(Semicolon)]
  {
    assert s[15] == ';';
    LexingProperties.PunctuatorInStream(s, 15, Semicolon, 16);
    LexingProperties.StreamAtEnd(s);
  }

  lemma PrintSumFrom12(s: string)
    requires IsPrintSumText(s)
    ensures TokensFrom(s, 12) == [Create(Uit), Create(Semicolon)]
  {
    assert s[12..15] == "uit";
    LexingProperties.WordInStream(s, 12, 15, 15);
    PrintSumFrom15(s);
  }

  lemma PrintSumFrom10(s: string)
    requires IsPrintSumText(s)
    ensures TokensFrom(s, 10) == [CreateNumber(2), Create(Uit), Create(Semicolon)]
  {
    assert s[10..11] == "2";
    assert s[11] == ' ';
    LexingProperties.NumberInStream(s, 10, 11, 12);
    PrintSumFrom12(s);
  }

  lemma PrintSumFrom8(s: string)
    requires IsPrintSumText(s)
    ensures TokensFrom(s, 8) == [Create(Plus), CreateNumber(2), Create(Uit), Create(Semicolon)]
  {
    assert s[8] == '+' && s[9] == ' ';
    LexingProperties.PunctuatorInStream(s, 8, Plus, 10);
    PrintSumFrom10(s);
  }

  lemma PrintSumFrom6(s: string)
    requires IsPrintSumText(s)
    ensures TokensFrom(s, 6) == [CreateNumber(2), Create(Plus), CreateNumber(2), Create(Uit), Create(Semicolon)]
  {
    assert s[6..7] == "2";
    assert s[7] == ' ';
    LexingProperties.NumberInStream(s, 6, 7, 8);
    PrintSumFrom8(s);
  }

  lemma PrintSumFrom0(s: string)
    requires IsPrintSumText(s)
    ensures TokensFrom(s, 0) == PrintSumTokens()
  {
    assert s[0..5] == "print";
    assert s[5] == ' ';
    LexingProperties.WordInStream(s, 0, 5, 6);
    PrintSumFrom6(s);
  }

  /** The text `laat tau pi * pi zijn;`, character by character. */
  predicate IsAssignSquareText(s: string) {
    |s| == 22
    && s[0] == 'l' && s[1] == 'a' && s[2] == 'a' && s[3] == 't' && s[4] == ' ' && s[5] == 't' && s[6] == 'a' && s[7] == 'u' && s[8] == ' ' && s[9] == 'p' && s[10] == 'i' && s[11] == ' ' && s[12] == '*' && s[13] == ' ' && s[14] == 'p' && s[15] == 'i' && s[16] == ' ' && s[17] == 'z' && s[18] == 'i' && s[19] == 'j' && s[20] == 'n' && s[21] == ';'
  }

  function AssignSquareTokens(): seq<Token> {
    [Create(Laat), Tokens.CreateName("tau"), Tokens.CreateName("pi"), Create(Star), Tokens.CreateName("pi"), Create(Zijn), Create(Semicolon)]
  }

  lemma AssignSquareFrom21(s: string)
    requires IsAssignSquareText(s)
    ensures TokensFrom(s, 21) == [Create(Semicolon)]
  {
    assert s[21] == ';';
    LexingProperties.PunctuatorInStream(s, 21, Semicolon, 22);
    LexingProperties.StreamAtEnd(s);
  }

  lemma AssignSquareFrom17(s: string)
    requires IsAssignSquareText(s)
    ensures TokensFrom(s, 17) == [Create(Zijn), Create(Semicolon)]
  {
    assert s[17..21] == "zijn";
    LexingProperties.WordInStream(s, 17, 21, 21);
    AssignSquareFrom21(s);
  }

  lemma AssignSquareFrom14(s: string)
    requires IsAssignSquareText(s)
    ensures TokensFrom(s, 14) == [Tokens.CreateName("pi"), Create(Zijn), Create(Semicolon)]
  {
    assert s[14..16] == "pi";
    assert s[16] == ' ';
    LexingProperties.WordInStream(s, 14, 16, 17);
    AssignSquareFrom17(s);
  }

  lemma AssignSquareFrom12(s: string)
    requires IsAssignSquareText(s)
    ensures TokensFrom(s, 12) == [Create(Star), Tokens.CreateName("pi"), Create(Zijn), Create(Semicolon)]
  {
    assert s[12] == '*' && s[13] == ' ';
    LexingProperties.PunctuatorInStream(s, 12, Star, 14);
    AssignSquareFrom14(s);
  }

  lemma AssignSquareFrom9(s: string)
    requires IsAssignSquareText(s)
    ensures TokensFrom(s, 9) == [Tokens.CreateName("pi"), Create(Star), Tokens.CreateName("pi"), Create(Zijn), Create(Semicolon)]
  {
    assert s[9..11] == "pi";
    assert s[11] == ' ';
    LexingProperties.WordInStream(s, 9, 11, 12);
    AssignSquareFrom12(s);
  }

  lemma AssignSquareFrom5(s: string)
    requires IsAssignSquareText(s)
    ensures TokensFrom(s, 5) == [Tokens.CreateName("tau"), Tokens.CreateName("pi"), Create(Star), Tokens.CreateName("pi"), Create(Zijn), Create(Semicolon)]
  {
    assert s[5..8] == "tau";
    assert s[8] == ' ';
    LexingProperties.WordInStream(s, 5, 8, 9);
    AssignSquareFrom9(s);
  }

  lemma AssignSquareFrom0(s: string)
    requires IsAssignSquareText(s)
    ensures TokensFrom(s, 0) == AssignSquareTokens()
  {
    assert s[0..4] == "laat";
    assert s[4] == ' ';
    LexingProperties.WordInStream(s, 0, 4, 5);
    AssignSquareFrom5(s);
  }

  /** The text `laat x 2 + laat zijn;`, character by character. */
  predicate IsKeywordOperandText(s: string) {
    |s| == 21
    && s[0] == 'l' && s[1] == 'a' && s[2] == 'a' && s[3] == 't' && s[4] == ' ' && s[5] == 'x' && s[6] == ' ' && s[7] == '2' && s[8] == ' ' && s[9] == '+' && s[10] == ' ' && s[11] == 'l' && s[12] == 'a' && s[13] == 'a' && s[14] == 't' && s[15] == ' ' && s[16] == 'z' && s[17] == 'i' && s[18] == 'j' && s[19] == 'n' && s[20] == ';'
  }

  function KeywordOperandTokens(): seq<Token> {
    [Create(Laat), Tokens.CreateName("x"), CreateNumber(2), Create(Plus), Create(Laat), Create(Zijn), Create(Semicolon)]
  }

  lemma KeywordOperandFrom20(s: string)
    requires IsKeywordOperandText(s)
    ensures TokensFrom(s, 20) == [Create(Semicolon)]
  {
    assert s[20] == ';';
    LexingProperties.PunctuatorInStream(s, 20, Semicolon, 21);
    LexingProperties.StreamAtEnd(s);
  }

  lemma KeywordOperandFrom16(s: string)
    requires IsKeywordOperandText(s)
    ensures TokensFrom(s, 16) == [Create(Zijn), Create(Semicolon)]
  {
    assert s[16..20] == "zijn";
    LexingProperties.WordInStream(s, 16, 20, 20);
    KeywordOperandFrom20(s);
  }

  lemma KeywordOperandFrom11(s: string)
    requires IsKeywordOperandText(s)
    ensures TokensFrom(s, 11) == [Create(Laat), Create(Zijn), Create(Semicolon)]
  {
    assert s[11..15] == "laat";
    assert s[15] == ' ';
    LexingProperties.WordInStream(s, 11, 15, 16);
    KeywordOperandFrom16(s);
  }

  lemma KeywordOperandFrom9(s: string)
    requires IsKeywordOperandText(s)
    ensures TokensFrom(s, 9) == [Create(Plus), Create(Laat), Create(Zijn), Create(Semicolon)]
  {
    assert s[9] == '+' && s[10] == ' ';
    LexingProperties.PunctuatorInStream(s, 9, Plus, 11);
    KeywordOperandFrom11(s);
  }

  lemma KeywordOperandFrom7(s: string)
    requires IsKeywordOperandText(s)
    ensures TokensFrom(s, 7) == [CreateNumber(2), Create(Plus), Create(Laat), Create(Zijn), Create(Semicolon)]
  {
    assert s[7..8] == "2";
    assert s[8] == ' ';
    LexingProperties.NumberInStream(s, 7, 8, 9);
    KeywordOperandFrom9(s);
  }

  lemma KeywordOperandFrom5(s: string)
    requires IsKeywordOperandText(s)
    ensures TokensFrom(s, 5) == [Tokens.CreateName("x"), CreateNumber(2), Create(Plus), Create(Laat), Create(Zijn), Create(Semicolon)]
  {
    assert s[5..6] == "x";
    assert s[6] == ' ';
    LexingProperties.WordInStream(s, 5, 6, 7);
    KeywordOperandFrom7(s);
  }

  lemma KeywordOperandFrom0(s: string)
    requires IsKeywordOperandText(s)
    ensures TokensFrom(s, 0) == KeywordOperandTokens()
  {
    assert s[0..4] == "laat";
    assert s[4] == ' ';
    LexingProperties.WordInStream(s, 0, 4, 5);
    KeywordOperandFrom5(s);
  }

  /** The text `laat @ x zijn;`, character by character. */
  predicate IsBadTargetText(s: string) {
    |s| == 14
    && s[0] == 'l' && s[1] == 'a' && s[2] == 'a' && s[3] == 't' && s[4] == ' ' && s[5] == '@' && s[6] == ' ' && s[7] == 'x' && s[8] == ' ' && s[9] == 'z' && s[10] == 'i' && s[11] == 'j' && s[12] == 'n' && s[13] == ';'
  }

  function BadTargetTokens(): seq<Token> {
    [Create(Laat), CreateError(InvalidCharacter('@')), Tokens.CreateName("x"), Create(Zijn), Create(Semicolon)]
  }

  lemma BadTargetFrom13(s: string)
    requires IsBadTargetText(s)
    ensures TokensFrom(s, 13) == [Create(Semicolon)]
  {
    assert s[13] == ';';
    LexingProperties.PunctuatorInStream(s, 13, Semicolon, 14);
    LexingProperties.StreamAtEnd(s);
  }

  lemma BadTargetFrom9(s: string)
    requires IsBadTargetText(s)
    ensures TokensFrom(s, 9) == [Create(Zijn), Create(Semicolon)]
  {
    assert s[9..13] == "zijn";
    LexingProperties.WordInStream(s, 9, 13, 13);
    BadTargetFrom13(s);
  }

  lemma BadTargetFrom7(s: string)
    requires IsBadTargetText(s)
    ensures TokensFrom(s, 7) == [Tokens.CreateName("x"), Create(Zijn), Create(Semicolon)]
  {
    assert s[7..8] == "x";
    assert s[8] == ' ';
    LexingProperties.WordInStream(s, 7, 8, 9);
    BadTargetFrom9(s);
  }

  lemma BadTargetFrom5(s: string)
    requires IsBadTargetText(s)
    ensures TokensFrom(s, 5) == [CreateError(InvalidCharacter('@')), Tokens.CreateName("x"), Create(Zijn), Create(Semicolon)]
  {
    assert s[5] == '@' && s[6] == ' ';
    LexingProperties.InvalidInStream(s, 5, 7);
    BadTargetFrom7(s);
  }

  lemma BadTargetFrom0(s: string)
    requires IsBadTargetText(s)
    ensures TokensFrom(s, 0) == BadTargetTokens()
  {
    assert s[0..4] == "laat";
    assert s[4] == ' ';
    LexingProperties.WordInStream(s, 0, 4, 5);
    BadTargetFrom5(s);
  }

  /** The text `laat pi @ zijn;`, character by character. */
  predicate IsBadOperandText(s: string) {
    |s| == 15
    && s[0] == 'l' && s[1] == 'a' && s[2] == 'a' && s[3] == 't' && s[4] == ' ' && s[5] == 'p' && s[6] == 'i' && s[7] == ' ' && s[8] == '@' && s[9] == ' ' && s[10] == 'z' && s[11] == 'i' && s[12] == 'j' && s[13] == 'n' && s[14] == ';'
  }

  function BadOperandTokens(): seq<Token> {
    [Create(Laat), Tokens.CreateName("pi"), CreateError(InvalidCharacter('@')), Create(Zijn), Create(Semicolon)]
  }

  lemma BadOperandFrom14(s: string)
    requires IsBadOperandText(s)
    ensures TokensFrom(s, 14) == [Create(Semicolon)]
  {
    assert s[14] == ';';
    LexingProperties.PunctuatorInStream(s, 14, Semicolon, 15);
    LexingProperties.StreamAtEnd(s);
  }

  lemma BadOperandFrom10(s: string)
    requires IsBadOperandText(s)
    ensures TokensFrom(s, 10) == [Create(Zijn), Create(Semicolon)]
  {
    assert s[10..14] == "zijn";
    LexingProperties.WordInStream(s, 10, 14, 14);
    BadOperandFrom14(s);
  }

  lemma BadOperandFrom8(s: string)
    requires IsBadOperandText(s)
    ensures TokensFrom(s, 8) == [CreateError(InvalidCharacter('@')), Create(Zijn), Create(Semicolon)]
  {
    assert s[8] == '@' && s[9] == ' ';
    LexingProperties.InvalidInStream(s, 8, 10);
    BadOperandFrom10(s);
  }

  lemma BadOperandFrom5(s: string)
    requires IsBadOperandText(s)
    ensures TokensFrom(s, 5) == [Tokens.CreateName("pi"), CreateError(InvalidCharacter('@')), Create(Zijn), Create(Semicolon)]
  {
    assert s[5..7] == "pi";
    assert s[7] == ' ';
    LexingProperties.WordInStream(s, 5, 7, 8);
    BadOperandFrom8(s);
  }

  lemma BadOperandFrom0(s: string)
    requires IsBadOperandText(s)
    ensures TokensFrom(s, 0) == BadOperandTokens()
  {
    assert s[0..4] == "laat";
    assert s[4] == ' ';
    LexingProperties.WordInStream(s, 0, 4, 5);
    BadOperandFrom5(s);
  }

  /** The text `print 2 + 2 uit`, character by character. */
  predicate IsMissingSemicolonText(s: string) {
    |s| == 15
    && s[0] == 'p' && s[1] == 'r' && s[2] == 'i' && s[3] == 'n' && s[4] == 't' && s[5] == ' ' && s[6] == '2' && s[7] == ' ' && s[8] == '+' && s[9] == ' ' && s[10] == '2' && s[11] == ' ' && s[12] == 'u' && s[13] == 'i' && s[14] == 't'
  }

  function MissingSemicolonTokens(): seq<Token> {
    [Create(Print), CreateNumber(2), Create(Plus), CreateNumber(2), Create(Uit)]
  }

  lemma MissingSemicolonFrom12(s: string)
    requires IsMissingSemicolonText(s)
    ensures TokensFrom(s, 12) == [Create(Uit)]
  {
    assert s[12..15] == "uit";
    LexingProperties.WordInStream(s, 12, 15, 15);
    LexingProperties.StreamAtEnd(s);
  }

  lemma MissingSemicolonFrom10(s: string)
    requires IsMissingSemicolonText(s)
    ensures TokensFrom(s, 10) == [CreateNumber(2), Create(Uit)]
  {
    assert s[10..11] == "2";
    assert s[11] == ' ';
    LexingProperties.NumberInStream(s, 10, 11, 12);
    MissingSemicolonFrom12(s);
  }

  lemma MissingSemicolonFrom8(s: string)
    requires IsMissingSemicolonText(s)
    ensures TokensFrom(s, 8) == [Create(Plus), CreateNumber(2), Create(Uit)]
  {
    assert s[8] == '+' && s[9] == ' ';
    LexingProperties.PunctuatorInStream(s, 8, Plus, 10);
    MissingSemicolonFrom10(s);
  }

  lemma MissingSemicolonFrom6(s: string)
    requires IsMissingSemicolonText(s)
    ensures TokensFrom(s, 6) == [CreateNumber(2), Create(Plus), CreateNumber(2), Create(Uit)]
  {
    assert s[6..7] == "2";
    assert s[7] == ' ';
    LexingProperties.NumberInStream(s, 6, 7, 8);
    MissingSemicolonFrom8(s);
  }

  lemma MissingSemicolonFrom0(s: string)
    requires IsMissingSemicolonText(s)
    ensures TokensFrom(s, 0) == MissingSemicolonTokens()
  {
    assert s[0..5] == "print";
    assert s[5] == ' ';
    LexingProperties.WordInStream(s, 0, 5, 6);
    MissingSemicolonFrom6(s);
  }

  /** The text `laat tau pi * pi * zijn;`, character by character. */
  predicate IsDanglingStarText(s: string) {
    |s| == 24
    && s[0] == 'l' && s[1] == 'a' && s[2] == 'a' && s[3] == 't' && s[4] == ' ' && s[5] == 't' && s[6] == 'a' && s[7] == 'u' && s[8] == ' ' && s[9] == 'p' && s[10] == 'i' && s[11] == ' ' && s[12] == '*' && s[13] == ' ' && s[14] == 'p' && s[15] == 'i' && s[16] == ' ' && s[17] == '*' && s[18] == ' ' && s[19] == 'z' && s[20] == 'i' && s[21] == 'j' && s[22] == 'n' && s[23] == ';'
  }

  function DanglingStarTokens(): seq<Token> {
    [Create(Laat), Tokens.CreateName("tau"), Tokens.CreateName("pi"), Create(Star), Tokens.CreateName("pi"), Create(Star), Create(Zijn), Create(Semicolon)]
  }

  lemma DanglingStarFrom23(s: string)
    requires IsDanglingStarText(s)
    ensures TokensFrom(s, 23) == [Create(Semicolon)]
  {
    assert s[23] == ';';
    LexingProperties.PunctuatorInStream(s, 23, Semicolon, 24);
    LexingProperties.StreamAtEnd(s);
  }

  lemma DanglingStarFrom19(s: string)
    requires IsDanglingStarText(s)
    ensures TokensFrom(s, 19) == [Create(Zijn), Create(Semicolon)]
  {
    assert s[19..23] == "zijn";
    LexingProperties.WordInStream(s, 19, 23, 23);
    DanglingStarFrom23(s);
  }

  lemma DanglingStarFrom17(s: string)
    requires IsDanglingStarText(s)
    ensures TokensFrom(s, 17) == [Create(Star), Create(Zijn), Create(Semicolon)]
  {
    assert s[17] == '*' && s[18] == ' ';
    LexingProperties.PunctuatorInStream(s, 17, Star, 19);
    DanglingStarFrom19(s);
  }

  lemma DanglingStarFrom14(s: string)
    requires IsDanglingStarText(s)
    ensures TokensFrom(s, 14) == [Tokens.CreateName("pi"), Create(Star), Create(Zijn), Create(Semicolon)]
  {
    assert s[14..16] == "pi";
    assert s[16] == ' ';
    LexingProperties.WordInStream(s, 14, 16, 17);
    DanglingStarFrom17(s);
  }

  lemma DanglingStarFrom12(s: string)
    requires IsDanglingStarText(s)
    ensures TokensFrom(s, 12) == [Create(Star), Tokens.CreateName("pi"), Create(Star), Create(Zijn), Create(Semicolon)]
  {
    assert s[12] == '*' && s[13] == ' ';
    LexingProperties.PunctuatorInStream(s, 12, Star, 14);
    DanglingStarFrom14(s);
  }

  lemma DanglingStarFrom9(s: string)
    requires IsDanglingStarText(s)
    ensures TokensFrom(s, 9) == [Tokens.CreateName("pi"), Create(Star), Tokens.CreateName("pi"), Create(Star), Create(Zijn), Create(Semicolon)]
  {
    assert s[9..11] == "pi";
    assert s[11] == ' ';
    LexingProperties.WordInStream(s, 9, 11, 12);
    DanglingStarFrom12(s);
  }

  lemma DanglingStarFrom5(s: string)
    requires IsDanglingStarText(s)
    ensures TokensFrom(s, 5) == [Tokens.CreateName("tau"), Tokens.CreateName("pi"), Create(Star), Tokens.CreateName("pi"), Create(Star), Create(Zijn), Create(Semicolon)]
  {
    assert s[5..8] == "tau";
    assert s[8] == ' ';
    LexingProperties.WordInStream(s, 5, 8, 9);
    DanglingStarFrom9(s);
  }

  lemma DanglingStarFrom0(s: string)
    requires IsDanglingStarText(s)
    ensures TokensFrom(s, 0) == DanglingStarTokens()
  {
    assert s[0..4] == "laat";
    assert s[4] == ' ';
    LexingProperties.WordInStream(s, 0, 4, 5);
    DanglingStarFrom5(s);
  }

  // Parsing the token lists.

  function Pi(): Ast.Node { Ast.CreateName("pi") }
  function Tau(): Ast.Node { Ast.CreateName("tau") }
  function Two(): Ast.Node { Ast.CreateNumber(2) }
  function Sum(): Ast.Node { Ast.Node(Ast.Plus, 0, "", [Two(), Two()]) }
  function Square(): Ast.Node { Ast.Node(Ast.Star, 0, "", [Pi(), Pi()]) }
  function PrintOf(e: Ast.Node): Ast.Node { Ast.Node(Ast.Print, 0, "", [e]) }
  function ProgramOf(ss: seq<Ast.Node>): Ast.Node { Ast.Node(Ast.Program, 0, "", ss) }
  function AssignSquareTree(): Ast.Node {
    ProgramOf([AssignTauSquare()])
  }

  /** The leaves of the examples are their own one-token expressions. */
  lemma LeafUnparsed(e: Ast.Node)
    requires e == Pi() || e == Tau() || e == Two()
    ensures Ast.WellFormedExpr(e) && !Ast.IsOperator(e.kind)
    ensures GrammarProperties.UnparseExpr(e) == [GrammarProperties.LeafToken(e)]
  {
  }

  lemma SumUnparsed()
    ensures Ast.WellFormedExpr(Sum())
    ensures GrammarProperties.UnparseExpr(Sum()) == [CreateNumber(2), Create(Plus), CreateNumber(2)]
  {
    LeafUnparsed(Two());
    assert GrammarProperties.UnparseTerm(Two()) == [CreateNumber(2)];
  }

  lemma SquareUnparsed()
    ensures Ast.WellFormedExpr(Square())
    ensures GrammarProperties.UnparseExpr(Square())
      == [Tokens.CreateName("pi"), Create(Star), Tokens.CreateName("pi")]
  {
    LeafUnparsed(Pi());
    assert GrammarProperties.UnparseAtom(Pi()) == [Tokens.CreateName("pi")];
    assert GrammarProperties.UnparseTerm(Pi()) == [Tokens.CreateName("pi")];
  }

  /** A print statement over `e` unparses around the tokens of `e`. */
  lemma PrintUnparsed(e: Ast.Node)
    requires Ast.WellFormedExpr(e)
    ensures Ast.WellFormedStatement(PrintOf(e))
    ensures GrammarProperties.UnparseStatement(PrintOf(e))
      == [Create(Print)] + GrammarProperties.UnparseExpr(e) + [Create(Uit), Create(Semicolon)]
  {
  }

  /** A program of one statement unparses to that statement's tokens. */
  lemma OneStatementUnparsed(st: Ast.Node)
    requires Ast.WellFormedStatement(st)
    ensures Ast.WellFormedProgram(ProgramOf([st]))
    ensures GrammarProperties.UnparseProgram(ProgramOf([st])) == GrammarProperties.UnparseStatement(st)
  {
    GrammarProperties.UnparseOne(ProgramOf([st]));
  }

  /** A program of two statements unparses to their tokens one after the other. */
  lemma TwoStatementsUnparsed(s1: Ast.Node, s2: Ast.Node)
    requires Ast.WellFormedStatement(s1) && Ast.WellFormedStatement(s2)
    ensures Ast.WellFormedProgram(ProgramOf([s1, s2]))
    ensures GrammarProperties.UnparseProgram(ProgramOf([s1, s2]))
      == GrammarProperties.UnparseStatement(s1) + GrammarProperties.UnparseStatement(s2)
  {
    var ss := [s1, s2];
    assert ss[1..] == [s2];
    assert ss[1..][1..] == [];
    assert GrammarProperties.UnparseStatements(ss[1..]) == GrammarProperties.UnparseStatement(s2);
  }

  /** Printing a leaf unparses to `print`, the leaf's token, `uit` and `;`. */
  lemma PrintLeafUnparsed(e: Ast.Node)
    requires Ast.WellFormedExpr(e) && !Ast.IsOperator(e.kind)
    ensures Ast.WellFormedStatement(PrintOf(e))
    ensures GrammarProperties.UnparseStatement(PrintOf(e))
      == [Create(Print), GrammarProperties.LeafToken(e), Create(Uit), Create(Semicolon)]
  {
    assert !GrammarProperties.IsAdditive(e) && !GrammarProperties.IsMultiplicative(e);
    assert GrammarProperties.UnparseAtom(e) == [GrammarProperties.LeafToken(e)];
    assert GrammarProperties.UnparseExpr(e) == GrammarProperties.UnparseTerm(e) == GrammarProperties.UnparseAtom(e);
    PrintUnparsed(e);
  }

  lemma PrintPiUnparsed()
    ensures Ast.WellFormedProgram(ProgramOf([PrintOf(Pi())]))
    ensures GrammarProperties.UnparseProgram(ProgramOf([PrintOf(Pi())])) == PrintPiTokens()
  {
    LeafUnparsed(Pi());
    PrintLeafUnparsed(Pi());
    OneStatementUnparsed(PrintOf(Pi()));
  }

  lemma PrintPiShown()
    ensures Ast.ToString(ProgramOf([PrintOf(Pi())])) == "program (print (\"pi\"))"
  {
  }

  lemma PrintPiParsed()
    ensures Parse(PrintPiTokens()) == Parsed(Ok(ProgramOf([PrintOf(Pi())])), [])
    ensures Ast.ToString(ProgramOf([PrintOf(Pi())])) == "program (print (\"pi\"))"
  {
    PrintPiUnparsed();
    GrammarProperties.ParseRoundTrip(ProgramOf([PrintOf(Pi())]));
    PrintPiShown();
  }

  function TwoPrintsTree(): Ast.Node {
    ProgramOf([PrintOf(Pi()), PrintOf(Tau())])
  }

  lemma TwoPrintsUnparsed()
    ensures Ast.WellFormedProgram(TwoPrintsTree())
    ensures GrammarProperties.UnparseProgram(TwoPrintsTree()) == TwoPrintsTokens()
  {
    LeafUnparsed(Pi());
    LeafUnparsed(Tau());
    TwoLeafPrintsUnparsed(Pi(), Tau());
    assert GrammarProperties.LeafToken(Pi()) == Tokens.CreateName("pi");
    assert GrammarProperties.LeafToken(Tau()) == Tokens.CreateName("tau");
  }

  /** Two print statements over leaves unparse to their two token groups. */
  lemma TwoLeafPrintsUnparsed(e1: Ast.Node, e2: Ast.Node)
    requires Ast.WellFormedExpr(e1) && !Ast.IsOperator(e1.kind)
    requires Ast.WellFormedExpr(e2) && !Ast.IsOperator(e2.kind)
    ensures Ast.WellFormedProgram(ProgramOf([PrintOf(e1), PrintOf(e2)]))
    ensures GrammarProperties.UnparseProgram(ProgramOf([PrintOf(e1), PrintOf(e2)]))
      == [Create(Print), GrammarProperties.LeafToken(e1), Create(Uit), Create(Semicolon),
          Create(Print), GrammarProperties.LeafToken(e2), Create(Uit), Create(Semicolon)]
  {
    PrintLeafUnparsed(e1);
    PrintLeafUnparsed(e2);
    TwoStatementsUnparsed(PrintOf(e1), PrintOf(e2));
  }

  lemma TwoPrintsShown()
    ensures Ast.ToString(TwoPrintsTree()) == "program (print (\"pi\"), print (\"tau\"))"
  {
  }

  lemma TwoPrintsParsed()
    ensures Parse(TwoPrintsTokens()) == Parsed(Ok(TwoPrintsTree()), [])
    ensures Ast.ToString(TwoPrintsTree()) == "program (print (\"pi\"), print (\"tau\"))"
  {
    TwoPrintsUnparsed();
    GrammarProperties.ParseRoundTrip(TwoPrintsTree());
    TwoPrintsShown();
  }

  lemma PrintSumUnparsed()
    ensures Ast.WellFormedProgram(ProgramOf([PrintOf(Sum())]))
    ensures GrammarProperties.UnparseProgram(ProgramOf([PrintOf(Sum())])) == PrintSumTokens()
  {
    SumUnparsed();
    PrintUnparsed(Sum());
    OneStatementUnparsed(PrintOf(Sum()));
  }

  lemma PrintSumShown()
    ensures Ast.ToString(ProgramOf([PrintOf(Sum())])) == "program (print (+ (2.00000, 2.00000)))"
  {
  }

  lemma PrintSumParsed()
    ensures Parse(PrintSumTokens()) == Parsed(Ok(ProgramOf([PrintOf(Sum())])), [])
    ensures Ast.ToString(ProgramOf([PrintOf(Sum())])) == "program (print (+ (2.00000, 2.00000)))"
  {
    PrintSumUnparsed();
    GrammarProperties.ParseRoundTrip(ProgramOf([PrintOf(Sum())]));
    PrintSumShown();
  }

  function AssignTauSquare(): Ast.Node {
    Ast.Node(Ast.Assign, 0, "", [Tau(), Square()])
  }

  lemma AssignSquareUnparsed()
    ensures Ast.WellFormedProgram(AssignSquareTree())
    ensures GrammarProperties.UnparseProgram(AssignSquareTree()) == AssignSquareTokens()
  {
    SquareUnparsed();
    var st := AssignTauSquare();
    assert Ast.WellFormedStatement(st);
    assert GrammarProperties.UnparseStatement(st)
      == [Create(Laat), Tokens.CreateName("tau")] + GrammarProperties.UnparseExpr(Square())
         + [Create(Zijn), Create(Semicolon)];
    OneStatementUnparsed(st);
  }

  lemma AssignSquareShown()
    ensures Ast.ToString(AssignSquareTree()) == "program (= (\"tau\", * (\"pi\", \"pi\")))"
  {
  }

  lemma AssignSquareParsed()
    ensures Parse(AssignSquareTokens()) == Parsed(Ok(AssignSquareTree()), [])
    ensures Ast.ToString(AssignSquareTree()) == "program (= (\"tau\", * (\"pi\", \"pi\")))"
  {
    AssignSquareUnparsed();
    GrammarProperties.ParseRoundTrip(AssignSquareTree());
    AssignSquareShown();
  }

  /** The message of `parser_value` when `rest` starts with something that is not an operand. */
  function OperandWanted(rest: seq<Token>): string {
    "Want number, name, het, or(, got " + Tokens.ToString(Lookahead(rest)) + "."
  }

  /** A leaf, `+`, then a token that is no operand: the expression fails at that token. */
  lemma SumMissingOperand(e: Ast.Node, rest: seq<Token>)
    requires Ast.WellFormedExpr(e) && !Ast.IsOperator(e.kind)
    requires Lookahead(rest).error.None? && Lookahead(rest).kind !in {Number, Name, Het, LParen}
    ensures Expression([GrammarProperties.LeafToken(e), Create(Plus)] + rest).result == Err(OperandWanted(rest))
  {
    var after := [GrammarProperties.OperatorToken(Ast.Plus)] + rest;
    var ts := [GrammarProperties.LeafToken(e)] + after;
    assert [GrammarProperties.LeafToken(e), Create(Plus)] + rest == ts;
    GrammarProperties.ValueLeaf(e, after);
    GrammarProperties.MulStart(ts, e, after);
    GrammarProperties.MulLoopStop(e, after);
    GrammarProperties.ExprStart(ts, e, after);
    GrammarProperties.NotAnOperand(rest);
    GrammarProperties.ExprLoopFails(e, Ast.Plus, rest);
  }

  /** A leaf, `*`, a leaf, `*`, then a token that is no operand: the expression fails at that token. */
  lemma ProductMissingOperand(e1: Ast.Node, e2: Ast.Node, rest: seq<Token>)
    requires Ast.WellFormedExpr(e1) && !Ast.IsOperator(e1.kind)
    requires Ast.WellFormedExpr(e2) && !Ast.IsOperator(e2.kind)
    requires Lookahead(rest).error.None? && Lookahead(rest).kind !in {Number, Name, Het, LParen}
    ensures Expression([GrammarProperties.LeafToken(e1), Create(Star), GrammarProperties.LeafToken(e2), Create(Star)] + rest).result
      == Err(OperandWanted(rest))
  {
    var star := GrammarProperties.OperatorToken(Ast.Star);
    var last := [star] + rest;
    var second := [GrammarProperties.LeafToken(e2)] + last;
    var first := [star] + second;
    var ts := [GrammarProperties.LeafToken(e1)] + first;
    assert [GrammarProperties.LeafToken(e1), Create(Star), GrammarProperties.LeafToken(e2), Create(Star)] + rest == ts;
    GrammarProperties.ValueLeaf(e1, first);
    GrammarProperties.MulStart(ts, e1, first);
    GrammarProperties.ValueLeaf(e2, last);
    GrammarProperties.MulLoopStep(e1, Ast.Star, second, e2, last);
    GrammarProperties.NotAnOperand(rest);
    GrammarProperties.MulLoopFails(Ast.Node(Ast.Star, 0, "", [e1, e2]), Ast.Star, rest);
    GrammarProperties.FailedMulEndsExpression(ts);
  }

  /** An assignment whose right-hand side fails makes the whole parse fail the same way. */
  lemma AssignmentFailsParse(name: string, after: seq<Token>)
    requires Expression(after).result.Err?
    ensures Parse([Create(Laat), Tokens.CreateName(name)] + after).result == Expression(after).result
  {
    var ts := [Create(Laat), Tokens.CreateName(name)] + after;
    GrammarProperties.AssignmentFails(name, after);
    GrammarProperties.StatementFails(ts);
    GrammarProperties.FirstStatementFails(ts);
  }

  lemma KeywordOperandParsed()
    ensures Parse(KeywordOperandTokens()).result == Err("Want number, name, het, or(, got <laat>.")
  {
    var rest := [Create(Laat), Create(Zijn), Create(Semicolon)];
    var after := [GrammarProperties.LeafToken(Two()), Create(Plus)] + rest;
    assert KeywordOperandTokens() == [Create(Laat), Tokens.CreateName("x")] + after;
    SumMissingOperand(Two(), rest);
    assert OperandWanted(rest) == "Want number, name, het, or(, got <laat>.";
    AssignmentFailsParse("x", after);
  }

  /** The lexer's message for `@`. */
  lemma AtMessage()
    ensures InvalidCharacter('@') == "Invalid character: '@'"
  {
  }

  lemma BadTargetParsed()
    ensures Parse(BadTargetTokens()).result == Err(InvalidCharacter('@'))
  {
    var ts := BadTargetTokens();
    assert Advance(ts) == ts[1..];
    assert Assignment(ts).result == Err(InvalidCharacter('@'));
    GrammarProperties.StatementFails(ts);
    GrammarProperties.FirstStatementFails(ts);
  }

  lemma BadOperandParsed()
    ensures Parse(BadOperandTokens()).result == Err(InvalidCharacter('@'))
  {
    var after := [CreateError(InvalidCharacter('@')), Create(Zijn), Create(Semicolon)];
    assert BadOperandTokens() == [Create(Laat), Tokens.CreateName("pi")] + after;
    GrammarProperties.LexerErrorFirst(after);
    AssignmentFailsParse("pi", after);
  }

  /** `print 2 + 2 uit` parses as a print statement with nothing after it. */
  lemma MissingSemicolonPrint()
    ensures PrintStatement(MissingSemicolonTokens()) == Parsed(Ok(PrintOf(Sum())), [])
  {
    var ts := MissingSemicolonTokens();
    SumUnparsed();
    assert ts == [Create(Print)] + (GrammarProperties.UnparseExpr(Sum()) + [Create(Uit)]);
    GrammarProperties.ExprRoundTrip(Sum(), [Create(Uit)]);
    GrammarProperties.PrintStep(GrammarProperties.UnparseExpr(Sum()) + [Create(Uit)], Sum(), []);
  }

  lemma MissingSemicolonText()
    ensures Fail([], KindText(Semicolon)).result == Err("Want ;, got <end>.")
  {
    assert Tokens.ToString(Create(End)) == "<end>";
  }

  lemma MissingSemicolonParsed()
    ensures Parse(MissingSemicolonTokens()).result == Err("Want ;, got <end>.")
  {
    var ts := MissingSemicolonTokens();
    MissingSemicolonPrint();
    assert Lookahead(ts).kind == Print;
    MissingSemicolonText();
    assert Statement(ts) == Fail([], KindText(Semicolon));
    GrammarProperties.FirstStatementFails(ts);
  }

  /** `laat tau pi * pi * zijn;` fails at `zijn`, where a third operand is due. */
  lemma DanglingStarParsed()
    ensures Parse(DanglingStarTokens()).result == Err("Want number, name, het, or(, got <zijn>.")
  {
    var rest := [Create(Zijn), Create(Semicolon)];
    var after := [GrammarProperties.LeafToken(Pi()), Create(Star), GrammarProperties.LeafToken(Pi()), Create(Star)] + rest;
    assert DanglingStarTokens() == [Create(Laat), Tokens.CreateName("tau")] + after;
    ProductMissingOperand(Pi(), Pi(), rest);
    assert OperandWanted(rest) == "Want number, name, het, or(, got <zijn>.";
    AssignmentFailsParse("tau", after);
  }

  // The tests themselves: source text in, tree string or rejection out.

  lemma PrintPiLexed()
    ensures TokensFrom("print pi uit;", 0) == PrintPiTokens()
  {
    var s := "print pi uit;";
    assert IsPrintPiText(s);
    PrintPiFrom0(s);
  }

  lemma PrintSumLexed()
    ensures TokensFrom("print 2 + 2 uit;", 0) == PrintSumTokens()
  {
    var s := "print 2 + 2 uit;";
    assert IsPrintSumText(s);
    PrintSumFrom0(s);
  }

  lemma AssignSquareLexed()
    ensures TokensFrom("laat tau pi * pi zijn;", 0) == AssignSquareTokens()
  {
    var s := "laat tau pi * pi zijn;";
    assert IsAssignSquareText(s);
    AssignSquareFrom0(s);
  }

  lemma KeywordOperandLexed()
    ensures TokensFrom("laat x 2 + laat zijn;", 0) == KeywordOperandTokens()
  {
    var s := "laat x 2 + laat zijn;";
    assert IsKeywordOperandText(s);
    KeywordOperandFrom0(s);
  }

  lemma BadTargetLexed()
    ensures TokensFrom("laat @ x zijn;", 0) == BadTargetTokens()
  {
    var s := "laat @ x zijn;";
    assert IsBadTargetText(s);
    BadTargetFrom0(s);
  }

  lemma BadOperandLexed()
    ensures TokensFrom("laat pi @ zijn;", 0) == BadOperandTokens()
  {
    var s := "laat pi @ zijn;";
    assert IsBadOperandText(s);
    BadOperandFrom0(s);
  }

  lemma MissingSemicolonLexed()
    ensures TokensFrom("print 2 + 2 uit", 0) == MissingSemicolonTokens()
  {
    var s := "print 2 + 2 uit";
    assert IsMissingSemicolonText(s);
    MissingSemicolonFrom0(s);
  }

  lemma DanglingStarLexed()
    ensures TokensFrom("laat tau pi * pi * zijn;", 0) == DanglingStarTokens()
  {
    var s := "laat tau pi * pi * zijn;";
    assert IsDanglingStarText(s);
    DanglingStarFrom0(s);
  }

  /** `parser_gives("", "program")`. */
  lemma GivesEmpty()
    ensures var r := Parse(TokensFrom("", 0)).result;
      r.Ok? && Ast.ToString(r.value) == "program"
  {
    EmptyFrom0("");
  }

  /** `parser_gives("print pi uit;", ...)`. */
  lemma GivesPrintPi()
    ensures var r := Parse(TokensFrom("print pi uit;", 0)).result;
      r.Ok? && Ast.ToString(r.value) == "program (print (\"pi\"))"
  {
    PrintPiLexed();
    PrintPiParsed();
  }

  lemma TwoPrintsLexed()
    ensures TokensFrom("print pi uit; print tau uit;", 0) == TwoPrintsTokens()
  {
    var s := "print pi uit; print tau uit;";
    assert IsTwoPrintsText(s);
    TwoPrintsFrom0(s);
  }

  /** `parser_gives("print pi uit; print tau uit;", ...)`. */
  lemma GivesTwoPrints()
    ensures var r := Parse(TokensFrom("print pi uit; print tau uit;", 0)).result;
      r.Ok? && Ast.ToString(r.value) == "program (print (\"pi\"), print (\"tau\"))"
  {
    TwoPrintsLexed();
    TwoPrintsParsed();
  }

  /** `parser_gives("print 2 + 2 uit;", ...)`. */
  lemma GivesPrintSum()
    ensures var r := Parse(TokensFrom("print 2 + 2 uit;", 0)).result;
      r.Ok? && Ast.ToString(r.value) == "program (print (+ (2.00000, 2.00000)))"
  {
    PrintSumLexed();
    PrintSumParsed();
  }

  /** `parser_gives("laat tau pi * pi zijn;", ...)`. */
  lemma GivesAssignSquare()
    ensures var r := Parse(TokensFrom("laat tau pi * pi zijn;", 0)).result;
      r.Ok? && Ast.ToString(r.value) == "program (= (\"tau\", * (\"pi\", \"pi\")))"
  {
    AssignSquareLexed();
    AssignSquareParsed();
  }

  /** `parser_errs("laat x 2 + laat zijn;")`: a keyword where an operand is due. */
  lemma ErrsKeywordOperand()
    ensures Parse(TokensFrom("laat x 2 + laat zijn;", 0)).result
      == Err("Want number, name, het, or(, got <laat>.")
  {
    KeywordOperandLexed();
    KeywordOperandParsed();
  }

  /** `parser_errs("laat @ x zijn;")`: the lexer's error stands for the missing target. */
  lemma ErrsBadTarget()
    ensures Parse(TokensFrom("laat @ x zijn;", 0)).result == Err("Invalid character: '@'")
  {
    BadTargetLexed();
    BadTargetParsed();
    AtMessage();
  }

  /** `parser_errs("laat pi @ zijn;")`: the lexer's error stands for the missing operand. */
  lemma ErrsBadOperand()
    ensures Parse(TokensFrom("laat pi @ zijn;", 0)).result == Err("Invalid character: '@'")
  {
    BadOperandLexed();
    BadOperandParsed();
    AtMessage();
  }

  /** `parser_errs("print 2 + 2 uit")`: the statement lacks its `;`. */
  lemma ErrsMissingSemicolon()
    ensures Parse(TokensFrom("print 2 + 2 uit", 0)).result == Err("Want ;, got <end>.")
  {
    MissingSemicolonLexed();
    MissingSemicolonParsed();
  }

  /** `parser_errs("laat tau pi * pi * zijn;")`: a dangling operator. */
  lemma ErrsDanglingStar()
    ensures Parse(TokensFrom("laat tau pi * pi * zijn;", 0)).result
      == Err("Want number, name, het, or(, got <zijn>.")
  {
    DanglingStarLexed();
    DanglingStarParsed();
  }
}
