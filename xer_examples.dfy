/** Worked examples on the xer automaton. */
module XerExamples {
  import opened CharClass
  import opened Numeric
  import opened Options
  import opened Builder
  import opened Tokens
  import opened Tokenizer
  import opened ScanProperties
  import opened NumericBounds
  import opened Xer

  lemma WordsMissDigits(d: char)
    requires '0' <= d <= '9'
    ensures NonEmptyLines(Words)
    ensures FirstLookup(Words, ("s", d)) == None && FirstLookup(Words, ("DEC", d)) == None
  {
    WordsOk();
    FirstLookupMisses(Words, ("s", d));
    FirstLookupMisses(Words, ("DEC", d));
  }

  lemma PunctuationMissDigits(d: char)
    requires '0' <= d <= '9'
    ensures NonEmptyLines(Punctuation)
    ensures FirstLookup(Punctuation, ("s", d)) == None && FirstLookup(Punctuation, ("DEC", d)) == None
  {
    PunctuationOk();
    FirstLookupMisses(Punctuation, ("s", d));
    FirstLookupMisses(Punctuation, ("DEC", d));
  }

  lemma ArithmeticMissDigits(d: char)
    requires '0' <= d <= '9'
    ensures NonEmptyLines(Arithmetic)
    ensures FirstLookup(Arithmetic, ("s", d)) == None && FirstLookup(Arithmetic, ("DEC", d)) == None
  {
    ArithmeticOk();
    FirstLookupMisses(Arithmetic, ("s", d));
    FirstLookupMisses(Arithmetic, ("DEC", d));
  }

  lemma RelationalMissDigits(d: char)
    requires '0' <= d <= '9'
    ensures NonEmptyLines(Relational)
    ensures FirstLookup(Relational, ("s", d)) == None && FirstLookup(Relational, ("DEC", d)) == None
  {
    RelationalOk();
    FirstLookupMisses(Relational, ("s", d));
    FirstLookupMisses(Relational, ("DEC", d));
  }

  lemma LogicalMissDigits(d: char)
    requires '0' <= d <= '9'
    ensures NonEmptyLines(Logical)
    ensures FirstLookup(Logical, ("s", d)) == None && FirstLookup(Logical, ("DEC", d)) == None
  {
    LogicalOk();
    FirstLookupMisses(Logical, ("s", d));
    FirstLookupMisses(Logical, ("DEC", d));
  }

  /** The lines before the numeric group. */
  function Early(): seq<seq<string>>
  {
    Words + Punctuation + Arithmetic + Relational + Logical
  }

  /** No line before the numeric group yields a digit from `s` or from
      DEC. */
  lemma EarlyGroupsMissDigits(d: char)
    requires '0' <= d <= '9'
    ensures NonEmptyLines(Early())
    ensures FirstLookup(Early(), ("s", d)) == None && FirstLookup(Early(), ("DEC", d)) == None
  {
    WordsMissDigits(d); PunctuationMissDigits(d); ArithmeticMissDigits(d);
    RelationalMissDigits(d); LogicalMissDigits(d);
    var k1, k2 := ("s", d), ("DEC", d);
    FirstLookupConcat(Words, Punctuation, k1);
    FirstLookupConcat(Words + Punctuation, Arithmetic, k1);
    FirstLookupConcat(Words + Punctuation + Arithmetic, Relational, k1);
    FirstLookupConcat(Words + Punctuation + Arithmetic + Relational, Logical, k1);
    FirstLookupConcat(Words, Punctuation, k2);
    FirstLookupConcat(Words + Punctuation, Arithmetic, k2);
    FirstLookupConcat(Words + Punctuation + Arithmetic, Relational, k2);
    FirstLookupConcat(Words + Punctuation + Arithmetic + Relational, Logical, k2);
  }

  /** Within the numeric group, `s 1-9 DEC` decides a nonzero digit from
      the start state. */
  lemma NumbersStartDecide(d: char)
    requires '1' <= d <= '9'
    ensures FirstLookup(Numbers, ("s", d)) == Some("DEC")
    ensures FirstLookup(Quoted, ("s", d)) == None
  {
    NumbersOk(); QuotedOk();
    assert Names(Numbers[7][1], d);
    FirstLookupAt(Numbers, 7, ("s", d));
    FirstLookupMisses(Quoted, ("s", d));
  }

  /** Within the numeric group, `DEC 0-9 DEC` decides a digit from DEC. */
  lemma NumbersDecDecide(d: char)
    requires '0' <= d <= '9'
    ensures FirstLookup(Numbers, ("DEC", d)) == Some("DEC")
    ensures FirstLookup(Quoted, ("DEC", d)) == None
  {
    NumbersOk(); QuotedOk();
    assert Names(Numbers[8][1], d);
    FirstLookupAt(Numbers, 8, ("DEC", d));
    FirstLookupMisses(Quoted, ("DEC", d));
  }

  /** In the table the block builds, digits start a DEC literal from the
      start state and continue it. */
  lemma DecTableEntries(d: char)
    requires '0' <= d <= '9'
    ensures NonEmptyLines(TransitionLines)
    ensures d != '0' ==> ("s", d) in Table(TransitionLines) && Table(TransitionLines)[("s", d)] == "DEC"
    ensures ("DEC", d) in Table(TransitionLines) && Table(TransitionLines)[("DEC", d)] == "DEC"
  {
    EarlyGroupsMissDigits(d);
    if d != '0' { NumbersStartDecide(d); }
    NumbersDecDecide(d);
    NumbersOk(); QuotedOk();
    var early := Early();
    FirstLookupConcat(early, Numbers, ("s", d));
    FirstLookupConcat(early + Numbers, Quoted, ("s", d));
    FirstLookupConcat(early, Numbers, ("DEC", d));
    FirstLookupConcat(early + Numbers, Quoted, ("DEC", d));
    XerLinesOk();
    TableIsFirstLookup(TransitionLines, ("s", d));
    TableIsFirstLookup(TransitionLines, ("DEC", d));
  }

  /** Digits start a DEC literal from the start state and continue it. */
  lemma DecEntries(d: char)
    requires '0' <= d <= '9'
    ensures d != '0' ==> ("s", d) in XerScanner().transitions && XerScanner().transitions[("s", d)] == "DEC"
    ensures ("DEC", d) in XerScanner().transitions && XerScanner().transitions[("DEC", d)] == "DEC"
  {
    DecTableEntries(d);
    XerParts();
  }

  lemma DigitInAlphabet(d: char)
    requires '0' <= d <= '9'
    ensures d in XerScanner().alphabet
  {
    CoveredIn(2, d);
    InXerAlphabet(d);
  }

  lemma DecListed()
    ensures "DEC" in StatesOf(StateTokens)
  {
    assert StateRow4[1] == "DEC";
    assert StateTokens[22] == "DEC";
  }

  lemma DecIsAccepting()
    ensures Accepting(XerScanner(), "DEC")
  {
    DecListed();
    XerParts();
  }

  /** The start state, and the DEC entries of the xer table: digits 1-9
      open a DEC lexeme, and digits 0-9 continue one. */
  predicate DecReady(sc: Scanner)
  {
    sc.startState == "s" &&
    (forall d :: '1' <= d <= '9' ==> ("s", d) in sc.transitions && sc.transitions[("s", d)] == "DEC") &&
    (forall d :: '0' <= d <= '9' ==>
      d in sc.alphabet && ("DEC", d) in sc.transitions && sc.transitions[("DEC", d)] == "DEC")
  }

  lemma XerDecReady()
    ensures DecReady(XerScanner())
  {
    forall d | '0' <= d <= '9'
      ensures d != '0' ==> ("s", d) in XerScanner().transitions && XerScanner().transitions[("s", d)] == "DEC"
      ensures d in XerScanner().alphabet
      ensures ("DEC", d) in XerScanner().transitions && XerScanner().transitions[("DEC", d)] == "DEC"
    {
      DecEntries(d);
      DigitInAlphabet(d);
    }
  }

  /** A digit that keeps the value of an unsigned DEC lexeme within 32 bits
      extends it. */
  lemma DecGrows(sc: Scanner, lexeme: string, d: char, out: seq<Token>)
    requires DecReady(sc)
    requires lexeme != [] && lexeme[0] != '-'
    requires '0' <= d <= '9' && Digits(lexeme + [d], 10) <= IntMax
    ensures Step(sc, Config("DEC", lexeme, out), d) == Next(Config("DEC", lexeme + [d], out))
  {
    assert (lexeme + [d])[0] == lexeme[0];
    assert DecValue(lexeme + [d]) == Digits(lexeme + [d], 10);
    assert !Overflows("DEC", lexeme, d);
    assert Extends(sc, "DEC", lexeme, d);
  }

  /** Reading more digits never lowers the value. */
  lemma {:induction false} DigitsGrow(a: string, b: string)
    ensures Digits(a, 10) <= Digits(a + b, 10)
    decreases |b|
  {
    if b == [] {
      assert a + b == a;
    } else {
      var b' := b[..|b| - 1];
      assert a + b == (a + b') + [b[|b| - 1]];
      DigitsSnoc(a + b', b[|b| - 1], 10);
      DigitsGrow(a, b');
      var x := Digits(a + b', 10);
      assert x <= x * 10;
    }
  }

  /** Taking the first digit of a run onto the lexeme. */
  lemma TakeDigit(lexeme: string, text: string, i: nat, j: nat)
    requires lexeme != [] && i < j <= |text|
    ensures lexeme + text[i..j] == (lexeme + [text[i]]) + text[i + 1..j]
    ensures Digits(lexeme + [text[i]], 10) <= Digits(lexeme + text[i..j], 10)
    ensures (lexeme + [text[i]])[0] == lexeme[0]
  {
    assert lexeme + text[i..j] == (lexeme + [text[i]]) + text[i + 1..j];
    DigitsGrow(lexeme + [text[i]], text[i + 1..j]);
  }

  /** An unsigned DEC lexeme takes in a run of digits as long as its value
      stays within 32 bits. */
  lemma {:induction false} DecRuns(sc: Scanner, lexeme: string, text: string, i: nat, j: nat, out: seq<Token>)
    requires DecReady(sc)
    requires lexeme != [] && lexeme[0] != '-' && i <= j <= |text|
    requires forall k :: i <= k < j ==> '0' <= text[k] <= '9'
    requires Digits(lexeme + text[i..j], 10) <= IntMax
    ensures Run(sc, Config("DEC", lexeme, out), text, i) ==
      Run(sc, Config("DEC", lexeme + text[i..j], out), text, j)
    decreases j - i
  {
    if i < j {
      var next := lexeme + [text[i]];
      TakeDigit(lexeme, text, i, j);
      DecGrows(sc, lexeme, text[i], out);
      DecRuns(sc, next, text, i + 1, j, out);
    } else {
      assert lexeme + text[i..j] == lexeme;
    }
  }

  lemma OverflowValues()
    ensures Digits("214748364", 10) == 214748364
    ensures Digits("2147483648", 10) == 2147483648
  {
    DigitsSnoc("", '2', 10);
    assert "" + ['2'] == "2";
    DigitsSnoc("2", '1', 10);
    assert "2" + ['1'] == "21";
    DigitsSnoc("21", '4', 10);
    assert "21" + ['4'] == "214";
    DigitsSnoc("214", '7', 10);
    assert "214" + ['7'] == "2147";
    DigitsSnoc("2147", '4', 10);
    assert "2147" + ['4'] == "21474";
    DigitsSnoc("21474", '8', 10);
    assert "21474" + ['8'] == "214748";
    DigitsSnoc("214748", '3', 10);
    assert "214748" + ['3'] == "2147483";
    DigitsSnoc("2147483", '6', 10);
    assert "2147483" + ['6'] == "21474836";
    DigitsSnoc("21474836", '4', 10);
    assert "21474836" + ['4'] == "214748364";
    DigitsSnoc("214748364", '8', 10);
    assert "214748364" + ['8'] == "2147483648";
  }

  /** A nonzero digit read in the start state starts a DEC lexeme. */
  lemma DecStarts(sc: Scanner, d: char)
    requires DecReady(sc)
    requires '1' <= d <= '9'
    ensures Step(sc, Config("s", [], []), d) == Next(Config("DEC", [d], []))
  {
    assert !Overflows("s", [], d);
    assert [] + [d] == [d];
  }

  lemma MiddleDigits(t: string)
    requires t == "2147483648"
    ensures t[1..9] == "14748364"
    ensures forall k :: 1 <= k < 9 ==> '0' <= t[k] <= '9'
  {
    assert |t[1..9]| == 8;
    forall k | 0 <= k < 8 ensures t[1..9][k] == "14748364"[k] { assert t[1..9][k] == t[k + 1]; }
  }

  /** A nonzero digit read in the start state opens a DEC lexeme. */
  lemma DecOpens(sc: Scanner, text: string, i: nat)
    requires DecReady(sc)
    requires i < |text| && '1' <= text[i] <= '9'
    ensures Run(sc, Config("s", [], []), text, i) == Run(sc, Config("DEC", [text[i]], []), text, i + 1)
  {
    DecStarts(sc, text[i]);
  }

  /** A run of digits led by a nonzero one, read from the start state,
      makes one DEC lexeme while its value stays within 32 bits. */
  lemma DecPrefix(sc: Scanner, text: string, j: nat)
    requires DecReady(sc)
    requires 1 <= j <= |text| && '1' <= text[0] <= '9'
    requires forall k :: 1 <= k < j ==> '0' <= text[k] <= '9'
    requires Digits(text[..j], 10) <= IntMax
    ensures Run(sc, Config("s", [], []), text, 0) == Run(sc, Config("DEC", text[..j], []), text, j)
  {
    DecOpens(sc, text, 0);
    assert [text[0]] + text[1..j] == text[..j];
    DecRuns(sc, [text[0]], text, 1, j, []);
  }

  /** The first nine digits of `2147483648` make one DEC lexeme. */
  lemma OverflowPrefix()
    ensures Run(XerScanner(), Config("s", [], []), "2147483648", 0) ==
      Run(XerScanner(), Config("DEC", "214748364", []), "2147483648", 9)
  {
    var t := "2147483648";
    OverflowValues();
    MiddleDigits(t);
    assert t[..9] == "214748364";
    XerDecReady();
    DecPrefix(XerScanner(), t, 9);
  }

  /** The tenth digit would leave the 32-bit range: the lexeme is flushed
      and the digit restarts from the start state. */
  lemma OverflowLastDigit()
    ensures Run(XerScanner(), Config("DEC", "214748364", []), "2147483648", 9) ==
      Ran(Config("DEC", "8", [Token("DEC", "214748364")]))
  {
    var t, lex := "2147483648", "214748364";
    OverflowValues();
    assert lex + ['8'] == t;
    assert Overflows("DEC", lex, '8');
    DecIsAccepting();
    XerDecReady();
    LastDigitRestarts(XerScanner(), lex, '8');
  }

  /** A last digit that would take a DEC lexeme out of the 32-bit range
      leaves the loop with the lexeme flushed and the digit pending. */
  lemma LastDigitRestarts(sc: Scanner, lexeme: string, d: char)
    requires DecReady(sc) && "DEC" in sc.states
    requires '1' <= d <= '9' && Overflows("DEC", lexeme, d)
    ensures Run(sc, Config("DEC", lexeme, []), lexeme + [d], |lexeme|) ==
      Ran(Config("DEC", [d], [Token("DEC", lexeme)]))
  {
    DecRestarts(sc, lexeme, d);
    assert (lexeme + [d])[|lexeme|] == d;
  }

  /** A digit that would take a DEC lexeme out of the 32-bit range flushes
      it, and restarts a DEC lexeme from the start state's entry. */
  lemma DecRestarts(sc: Scanner, lexeme: string, d: char)
    requires DecReady(sc) && "DEC" in sc.states
    requires '1' <= d <= '9' && Overflows("DEC", lexeme, d)
    ensures Step(sc, Config("DEC", lexeme, []), d) == Next(Config("DEC", [d], [Token("DEC", lexeme)]))
  {
    assert Classify("DEC", lexeme) == "DEC";
    assert [] + [d] == [d];
  }

  /** The loop over `2147483648` goes through with `8` pending in DEC. */
  lemma OverflowRun()
    ensures Run(XerScanner(), Config(XerScanner().startState, [], []), "2147483648", 0) ==
      Ran(Config("DEC", "8", [Token("DEC", "214748364")]))
  {
    XerStart();
    OverflowPrefix();
    OverflowLastDigit();
  }

  /** DEC is accepting, so the pending `8` is flushed at the end of the line. */
  lemma OverflowEnd()
    ensures EndLine(XerScanner(), Config("DEC", "8", [Token("DEC", "214748364")]), "2147483648") ==
      LineOk([Token("DEC", "214748364"), Token("DEC", "8")])
  {
    var cfg := Config("DEC", "8", [Token("DEC", "214748364")]);
    DecIsAccepting();
    assert Classify("DEC", "8") == "DEC";
    assert Flush(cfg) == [Token("DEC", "214748364"), Token("DEC", "8")];
  }

  /** `2147483648` does not fit in 32 bits: the guard ends the token before
      its last digit, which starts a token of its own. */
  lemma SplitsOverflowingLiteral()
    ensures ScanLine(XerScanner(), "2147483648") == LineOk([Token("DEC", "214748364"), Token("DEC", "8")])
  {
    NoComment("2147483648");
    OverflowRun();
    OverflowEnd();
  }

  /** A line without a slash has no comment. */
  lemma NoComment(line: string)
    requires forall i :: 0 <= i < |line| ==> line[i] != '/'
    ensures StripComment(line) == line
  {
    assert line[..|line|] == line;
  }
}
