/** The xer automaton meets both conditions under which a token scans alone
    as it scanned in its line: its start-state entries are for alphabet
    characters other than whitespace, and no entry leads back into `s`. */
module XerRescan {
  import opened CharClass
  import opened Builder
  import opened Tokens
  import opened Tokenizer
  import opened NumericBounds
  import opened Layout
  import opened Rescan
  import opened Xer

  /** The single characters of the alphabet block, in its order. */
  const SingleChars: string := "(){}[_]=!<>+-*/\\|^~%,.?:;'\"&"

  /** The alphabet token after the three ranges at index `j` covers the
      `j`-th single character. */
  lemma SinglesCovered()
    ensures |AlphabetTokens| == 3 + |SingleChars|
    ensures forall j :: 0 <= j < |SingleChars| ==> Covers(AlphabetTokens[3 + j], SingleChars[j])
  {
  }

  /** One of the single characters of the alphabet block. */
  predicate SingleChar(c: char)
  {
    c == '(' || c == ')' || c == '{' || c == '}' || c == '[' || c == '_' || c == ']' ||
    c == '=' || c == '!' || c == '<' || c == '>' || c == '+' || c == '-' || c == '*' ||
    c == '/' || c == '\\' || c == '|' || c == '^' || c == '~' || c == '%' || c == ',' ||
    c == '.' || c == '?' || c == ':' || c == ';' || c == '\'' || c == '"' || c == '&'
  }

  lemma SingleListed(c: char)
    requires SingleChar(c)
    ensures c in SingleChars
  {
  }

  /** The characters the alphabet block names: its three ranges and its
      single characters. */
  predicate XerChar(c: char)
  {
    'a' <= c <= 'z' || 'A' <= c <= 'Z' || '0' <= c <= '9' || SingleChar(c)
  }

  /** A single character is in the alphabet of any token list that covers
      the single characters after three other tokens. */
  lemma CoveredBySingles(tokens: seq<string>, c: char)
    requires NonEmptyTokens(tokens) && SingleChar(c)
    requires |tokens| == 3 + |SingleChars|
    requires forall j :: 0 <= j < |SingleChars| ==> Covers(tokens[3 + j], SingleChars[j])
    ensures c in AlphabetOf(tokens)
  {
    SingleListed(c);
    var j :| 0 <= j < |SingleChars| && SingleChars[j] == c;
    AlphabetMembership(tokens, c);
    assert Covers(tokens[3 + j], c);
  }

  lemma SingleCovered(c: char)
    requires SingleChar(c)
    ensures NonEmptyTokens(AlphabetTokens) && c in AlphabetOf(AlphabetTokens)
  {
    XerWellFormed();
    SinglesCovered();
    CoveredBySingles(AlphabetTokens, c);
  }

  lemma XerCharCovered(c: char)
    requires XerChar(c)
    ensures NonEmptyTokens(AlphabetTokens) && c in AlphabetOf(AlphabetTokens)
  {
    if 'a' <= c <= 'z' {
      CoveredIn(0, c);
    } else if 'A' <= c <= 'Z' {
      CoveredIn(1, c);
    } else if '0' <= c <= '9' {
      CoveredIn(2, c);
    } else {
      SingleCovered(c);
    }
  }

  lemma XerCharInAlphabet(c: char)
    requires XerChar(c)
    ensures c in XerScanner().alphabet
  {
    XerCharCovered(c);
    InXerAlphabet(c);
  }

  /** A symbol field that names only characters of the alphabet block: one
      such character, or a range inside one of the block's three ranges. */
  predicate StartField(f: string)
  {
    (|f| == 1 && XerChar(f[0])) ||
    (|f| == 3 && (('a' <= f[0] && f[2] <= 'z') || ('A' <= f[0] && f[2] <= 'Z') || ('0' <= f[0] && f[2] <= '9')))
  }

  lemma FieldChar(f: string, c: char)
    requires StartField(f) && Names(f, c)
    ensures XerChar(c) && !IsWhiteSpace(c)
  {
  }

  /** A line from `s` names only characters of the alphabet block, and no
      whitespace. */
  predicate StartLineOk(fields: seq<string>)
  {
    fields != [] && fields[0] == "s" ==> forall j :: 1 <= j < |fields| - 1 ==> StartField(fields[j])
  }

  predicate StartLinesOk(lines: seq<seq<string>>)
  {
    forall i :: 0 <= i < |lines| ==> StartLineOk(lines[i])
  }

  lemma WordsStart() ensures StartLinesOk(Words) { }
  lemma PunctuationStart() ensures StartLinesOk(Punctuation) { }
  lemma ArithmeticStart() ensures StartLinesOk(Arithmetic) { }
  lemma RelationalStart() ensures StartLinesOk(Relational) { }
  lemma LogicalStart() ensures StartLinesOk(Logical) { }
  lemma NumbersStart() ensures StartLinesOk(Numbers) { }
  lemma QuotedStart() ensures StartLinesOk(Quoted) { }

  lemma StartLinesConcat(a: seq<seq<string>>, b: seq<seq<string>>)
    requires StartLinesOk(a) && StartLinesOk(b)
    ensures StartLinesOk(a + b)
  {
    forall i | 0 <= i < |a + b| ensures StartLineOk((a + b)[i]) {
      if i < |a| { assert (a + b)[i] == a[i]; } else { assert (a + b)[i] == b[i - |a|]; }
    }
  }

  lemma XerStartLines()
    ensures StartLinesOk(TransitionLines)
  {
    WordsStart(); PunctuationStart(); ArithmeticStart(); RelationalStart();
    LogicalStart(); NumbersStart(); QuotedStart();
    StartLinesConcat(Words, Punctuation);
    StartLinesConcat(Words + Punctuation, Arithmetic);
    StartLinesConcat(Words + Punctuation + Arithmetic, Relational);
    StartLinesConcat(Words + Punctuation + Arithmetic + Relational, Logical);
    StartLinesConcat(Words + Punctuation + Arithmetic + Relational + Logical, Numbers);
    StartLinesConcat(Words + Punctuation + Arithmetic + Relational + Logical + Numbers, Quoted);
  }

  /** A line from `s` that names only characters of the alphabet block
      other than whitespace yields entries only for such characters. */
  lemma StartLineChar(fields: seq<string>, c: char)
    requires StartLineOk(fields) && Provides(fields, ("s", c))
    ensures XerChar(c) && !IsWhiteSpace(c)
  {
    ProvidesIff(fields, ("s", c));
    var j :| 1 <= j < |fields| - 1 && Names(fields[j], c);
    FieldChar(fields[j], c);
  }

  /** Lines from `s` that name only characters of the alphabet block other
      than whitespace yield only entries for such characters. */
  lemma StartEntryChars(lines: seq<seq<string>>, c: char)
    requires NonEmptyLines(lines) && StartLinesOk(lines) && ("s", c) in Table(lines)
    ensures XerChar(c) && !IsWhiteSpace(c)
  {
    TableProvided(lines, ("s", c));
    var i :| 0 <= i < |lines| && Provides(lines[i], ("s", c));
    assert StartLineOk(lines[i]);
    StartLineChar(lines[i], c);
  }

  /** The patches add no entry from `s`. */
  lemma UnpatchedStart(t: map<Key, string>, c: char)
    requires ("s", c) in Patched(t)
    ensures ("s", c) in t
  {
    assert ("s", c) !in PatchKeys();
  }

  lemma TableStartEntry(c: char)
    requires NonEmptyLines(TransitionLines) && ("s", c) in Table(TransitionLines)
    ensures XerChar(c) && !IsWhiteSpace(c)
  {
    XerStartLines();
    StartEntryChars(TransitionLines, c);
  }

  lemma XerStartEntry(c: char)
    requires ("s", c) in XerScanner().transitions
    ensures c in XerScanner().alphabet && !IsWhiteSpace(c)
  {
    XerParts();
    UnpatchedStart(Table(TransitionLines), c);
    TableStartEntry(c);
    XerCharInAlphabet(c);
  }

  /** Every character the xer table starts a lexeme with is in the
      alphabet and is not whitespace; the start state `s` has no range
      guard. */
  lemma XerRestartable()
    ensures Restartable(XerScanner())
  {
    var sc := XerScanner();
    forall c | (sc.startState, c) in sc.transitions ensures c in sc.alphabet && !IsWhiteSpace(c) {
      XerStartEntry(c);
    }
  }

  lemma XerNoReentry()
    ensures NoReentry(XerScanner())
  {
    XerNumericShape();
    ShapeNoReentry(XerScanner());
  }

  /** On the xer automaton, every token a scan emits, scanned again as a
      line of its own, is that one token again, with the same kind. */
  lemma XerTokensScanAlone(lines: seq<string>)
    ensures forall i :: 0 <= i < |ScanLines(XerScanner(), lines).tokens| ==>
      var t := ScanLines(XerScanner(), lines).tokens[i];
      ScanLine(XerScanner(), t.text) == LineOk([t])
  {
    XerRestartable();
    XerNoReentry();
    TokensScanAlone(XerScanner(), lines);
  }

  /** The layout round trip holds on every line the xer automaton scans. */
  lemma XerLineLayout(line: string)
    ensures var text := StripComment(line);
      var r := Run(XerScanner(), Config("s", [], []), text, 0);
      text != [] && r.Ran? && Accepting(XerScanner(), r.cfg.state) ==>
        ScanLine(XerScanner(), line).LineOk? && Spells(ScanLine(XerScanner(), line).tokens, text)
  {
    XerNoReentry();
    LineLayout(XerScanner(), line);
  }
}
