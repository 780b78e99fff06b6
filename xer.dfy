/** The xer language's automaton: the three constant blocks of the scanner,
    split into their whitespace-separated fields, and the scanner built
    from them. */
module Xer {
  import opened CharClass
  import opened Numeric
  import opened Options
  import opened Builder
  import opened Tokens
  import opened Tokenizer
  import opened ScanProperties
  import opened NumericBounds

  /** The tokens of the alphabet block: three ranges, then single
      characters. */
  const AlphabetTokens: seq<string> := AlphabetRanges + AlphabetSingles

  const AlphabetRanges: seq<string> := ["a-z", "A-Z", "0-9"]
  const AlphabetSingles: seq<string> := [
    "(", ")", "{", "}", "[", "_", "]", "=", "!", "<", ">", "+", "-", "*",
    "/", "\\", "|", "^", "~", "%", ",", ".", "?", ":", ";", "'", "\"", "&"
  ]

  /** The tokens of the state block, one group per line of the block; `s`
      comes first and `-` occurs twice. */
  const StateTokens: seq<string> := StateRow1 + StateRow2 + StateRow3 + StateRow4 + StateRow5 + StateRow6 + StateRow7 + StateRow8

  const StateRow1: seq<string> := ["s"]
  const StateRow2: seq<string> := ["MAIN", "INT", "CHAR", "BOOL", "AUTO", "CONST", "RETURN", "IF", "ELSIF", "ELSE"]
  const StateRow3: seq<string> := ["FOR", "WHILE", "DO", "BREAK", "DELETE", "GOTO", "NEW", "SIZEOF", "TRUE", "FALSE"]
  const StateRow4: seq<string> := ["ID", "DEC", "HEX", "BIN", "STRLIT", "CHARLIT", "0", "NULL"]
  const StateRow5: seq<string> := [":", "(", ")", "-", ";", "{", "}", ",", "[", "]", "="]
  const StateRow6: seq<string> := ["||", "&&", "?", ">=", ">", "<=", "<", "==", "!="]
  const StateRow7: seq<string> := ["+", "-", "*", "/", "%", "^^", "<<", ">>", "^", "|", "&"]
  const StateRow8: seq<string> := ["!", "~", "++", "--", "->", "."]

  /** The lines of the transition block, each split into its fields, in
      seven consecutive groups. */
  const TransitionLines: seq<seq<string>> := Words + Punctuation + Arithmetic + Relational + Logical + Numbers + Quoted

  /** Lines 1-2 of the block: identifiers. */
  const Words: seq<seq<string>> := [
    ["s", "a-z", "A-Z", "_", "ID"],
    ["ID", "a-z", "A-Z", "_", "0-9", "ID"]
  ]

  /** Lines 3-11 of the block: punctuation. */
  const Punctuation: seq<seq<string>> := [
    ["s", ",", ","],
    ["s", ";", ";"],
    ["s", ":", ":"],
    ["s", "(", "("],
    ["s", ")", ")"],
    ["s", "{", "{"],
    ["s", "}", "}"],
    ["s", "[", "["],
    ["s", "]", "]"]
  ]

  /** Lines 12-20 of the block: arithmetic operators. */
  const Arithmetic: seq<seq<string>> := [
    ["s", "+", "+"],
    ["+", "+", "++"],
    ["s", "-", "-"],
    ["-", "-", "--"],
    ["-", ">", "->"],
    ["-", "1-9", "DEC"],
    ["s", "*", "*"],
    ["s", "/", "/"],
    ["s", "%", "%"]
  ]

  /** Lines 21-26 of the block: shift and relational operators. */
  const Relational: seq<seq<string>> := [
    ["s", "<", "<"],
    ["<", "<", "<<"],
    ["<", "=", "<="],
    ["s", ">", ">"],
    [">", ">", ">>"],
    [">", "=", ">="]
  ]

  /** Lines 27-39 of the block: bitwise, logical and remaining operators. */
  const Logical: seq<seq<string>> := [
    ["s", "^", "^"],
    ["^", "^", "^^"],
    ["s", "|", "|"],
    ["|", "|", "||"],
    ["s", "&", "&"],
    ["&", "&", "&&"],
    ["s", "!", "!"],
    ["!", "=", "!="],
    ["s", "~", "~"],
    ["s", ".", "."],
    ["s", "=", "="],
    ["=", "=", "=="],
    ["s", "?", "?"]
  ]

  /** Lines 40-48 of the block: numeric literals. */
  const Numbers: seq<seq<string>> := [
    ["s", "0", "0"],
    ["0", "x", "notHEX"],
    ["0", "b", "notBIN"],
    ["notHEX", "0-9", "a-f", "A-F", "HEX"],
    ["HEX", "0-9", "a-f", "A-F", "HEX"],
    ["notBIN", "0-1", "BIN"],
    ["BIN", "0-1", "BIN"],
    ["s", "1-9", "DEC"],
    ["DEC", "0-9", "DEC"]
  ]

  /** Lines 49-58 of the block: string and character literals. */
  const Quoted: seq<seq<string>> := [
    ["s", "\"", "notSTR"],
    ["notSTR", "!", "#-[", "]-~", "notSTR"],
    ["notSTR", "\"", "STRLIT"],
    ["notSTR", "\\", "notSTResc"],
    ["notSTResc", "n", "t", "b", "r", "a", "'", "\"", "?", "\\", "f", "v", "0", "notSTR"],
    ["s", "'", "char0"],
    ["char0", "!-[", "]-~", "char1"],
    ["char0", "\\", "charS"],
    ["charS", "n", "t", "b", "r", "a", "'", "\"", "?", "\\", "f", "v", "0", "char1"],
    ["char1", "'", "CHARLIT"]
  ]

  lemma XerWellFormed()
    ensures NonEmptyTokens(AlphabetTokens) && NonEmptyLines(TransitionLines)
  {
    XerLinesOk();
  }

  lemma XerStart()
    ensures StartOf(StateTokens) == "s" && "s" in StatesOf(StateTokens)
  {
    assert StateTokens[0] == "s";
  }

  lemma WordsOk()
    ensures NonEmptyLines(Words) && LinesOk("s", Words)
  {
  }

  lemma PunctuationOk()
    ensures NonEmptyLines(Punctuation) && LinesOk("s", Punctuation)
  {
  }

  lemma ArithmeticOk()
    ensures NonEmptyLines(Arithmetic) && LinesOk("s", Arithmetic)
  {
  }

  lemma RelationalOk()
    ensures NonEmptyLines(Relational) && LinesOk("s", Relational)
  {
  }

  lemma LogicalOk()
    ensures NonEmptyLines(Logical) && LinesOk("s", Logical)
  {
  }

  lemma NumbersOk()
    ensures NonEmptyLines(Numbers) && LinesOk("s", Numbers)
  {
  }

  lemma QuotedOk()
    ensures NonEmptyLines(Quoted) && LinesOk("s", Quoted)
  {
  }

  lemma LinesOkConcat(a: seq<seq<string>>, b: seq<seq<string>>)
    requires NonEmptyLines(a) && LinesOk("s", a) && NonEmptyLines(b) && LinesOk("s", b)
    ensures NonEmptyLines(a + b) && LinesOk("s", a + b)
  {
    forall i | 0 <= i < |a + b| ensures (a + b)[i] != [] && EntryOk("s", (a + b)[i][0], Target((a + b)[i])) {
      if i < |a| { assert (a + b)[i] == a[i]; } else { assert (a + b)[i] == b[i - |a|]; }
    }
  }

  lemma XerLinesOk()
    ensures NonEmptyLines(TransitionLines)
    ensures LinesOk("s", TransitionLines)
  {
    WordsOk(); PunctuationOk(); ArithmeticOk(); RelationalOk(); LogicalOk(); NumbersOk(); QuotedOk();
    LinesOkConcat(Words, Punctuation);
    LinesOkConcat(Words + Punctuation, Arithmetic);
    LinesOkConcat(Words + Punctuation + Arithmetic, Relational);
    LinesOkConcat(Words + Punctuation + Arithmetic + Relational, Logical);
    LinesOkConcat(Words + Punctuation + Arithmetic + Relational + Logical, Numbers);
    LinesOkConcat(Words + Punctuation + Arithmetic + Relational + Logical + Numbers, Quoted);
  }

  /** The automaton of `Scanner::Scanner`, built from the three blocks. */
  function XerScanner(): (sc: Scanner)
    ensures sc.startState == "s" && "s" in sc.states
    ensures PatchKeys() <= sc.transitions.Keys
  {
    XerWellFormed();
    XerStart();
    BuildSpec(AlphabetTokens, StateTokens, TransitionLines)
  }

  lemma XerParts()
    ensures NonEmptyTokens(AlphabetTokens) && NonEmptyLines(TransitionLines)
    ensures XerScanner().alphabet == AlphabetOf(AlphabetTokens)
    ensures XerScanner().states == StatesOf(StateTokens)
    ensures XerScanner().transitions == Patched(Table(TransitionLines))
  {
    XerWellFormed();
  }

  /** The singleton's construction: runs the builder on the three blocks. */
  method NewScanner() returns (sc: Scanner)
    ensures sc == XerScanner()
  {
    XerWellFormed();
    sc := Build(AlphabetTokens, StateTokens, TransitionLines);
  }

  /** Whitespace is always in the alphabet. */
  lemma XerBlanks()
    ensures forall c | IsWhiteSpace(c) :: c in XerScanner().alphabet
  {
    XerParts();
  }

  /** A character an alphabet token covers is in the alphabet the block
      builds. */
  lemma CoveredIn(i: nat, c: char)
    requires i < |AlphabetTokens| && Covers(AlphabetTokens[i], c)
    ensures NonEmptyTokens(AlphabetTokens) && c in AlphabetOf(AlphabetTokens)
  {
    XerWellFormed();
    AlphabetMembership(AlphabetTokens, c);
  }

  lemma InXerAlphabet(c: char)
    requires NonEmptyTokens(AlphabetTokens) && c in AlphabetOf(AlphabetTokens)
    ensures c in XerScanner().alphabet
  {
    XerParts();
  }

  /** A character no alphabet token covers is outside the alphabet unless
      it is whitespace. */
  lemma NotInAlphabet(c: char)
    requires !IsWhiteSpace(c) && !('a' <= c <= 'z') && !('A' <= c <= 'Z') && !('0' <= c <= '9')
    requires forall j :: 0 <= j < |AlphabetSingles| ==> AlphabetSingles[j][0] != c
    ensures NonEmptyTokens(AlphabetTokens) && c !in AlphabetOf(AlphabetTokens)
  {
    XerWellFormed();
    AlphabetMembership(AlphabetTokens, c);
    forall i | 0 <= i < |AlphabetTokens| ensures !Covers(AlphabetTokens[i], c) {
      if i < |AlphabetRanges| {
        assert AlphabetTokens[i] == AlphabetRanges[i];
      } else {
        var tok := AlphabetTokens[i];
        assert tok == AlphabetSingles[i - |AlphabetRanges|];
        assert |tok| == 1 by { assert forall j :: 0 <= j < |AlphabetSingles| ==> |AlphabetSingles[j]| == 1; }
      }
    }
  }

  /** Printable characters the alphabet leaves out: a lone `#`, `$`, `@` or
      backquote outside a literal stops the scan. */
  lemma XerAlphabetGaps()
    ensures '#' !in XerScanner().alphabet && '$' !in XerScanner().alphabet
    ensures '@' !in XerScanner().alphabet && '`' !in XerScanner().alphabet
  {
    HashGap(); DollarGap(); AtGap(); BackquoteGap();
  }

  lemma HashGap() ensures '#' !in XerScanner().alphabet { NotInAlphabet('#'); XerParts(); }
  lemma DollarGap() ensures '$' !in XerScanner().alphabet { NotInAlphabet('$'); XerParts(); }
  lemma AtGap() ensures '@' !in XerScanner().alphabet { NotInAlphabet('@'); XerParts(); }
  lemma BackquoteGap() ensures '`' !in XerScanner().alphabet { NotInAlphabet('`'); XerParts(); }

  /** The xer table enters the numeric states only as the range guards
      need. */
  lemma XerNumericShape()
    ensures NumericShape(XerScanner())
  {
    XerLinesOk();
    XerStartOutside();
    BuiltShape(AlphabetTokens, StateTokens, TransitionLines);
    XerIsBuilt();
  }

  lemma XerStartOutside()
    ensures StartOf(StateTokens) !in {"-", "0", "notHEX", "notBIN", "DEC", "HEX", "BIN", "char1", "notSTR"}
  {
    XerStart();
  }

  lemma XerIsBuilt()
    ensures NonEmptyTokens(AlphabetTokens) && NonEmptyLines(TransitionLines)
    ensures XerScanner() == BuildSpec(AlphabetTokens, StateTokens, TransitionLines)
  {
    XerWellFormed();
  }

  /** Every DEC, HEX and BIN token the xer scanner emits fits in 32 bits. */
  lemma XerTokensFit(lines: seq<string>)
    ensures forall i :: 0 <= i < |ScanLines(XerScanner(), lines).tokens| ==>
      var t := ScanLines(XerScanner(), lines).tokens[i];
      (Reaches(XerScanner(), t.text) == Some("DEC") ==> InInt32(DecValue(t.text))) &&
      (Reaches(XerScanner(), t.text) == Some("HEX") ==> |t.text| >= 2 && Digits(t.text[2..], 16) <= IntMax) &&
      (Reaches(XerScanner(), t.text) == Some("BIN") ==> |t.text| >= 2 && Digits(t.text[2..], 2) <= IntMax)
  {
    XerNumericShape();
    NumericTokensFit(XerScanner(), lines);
  }
}
