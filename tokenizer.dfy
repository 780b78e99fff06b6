/** The line tokenizer `Scanner::scan` (scanner.cc): per line, strip the
    comment, run the automaton with maximal munch over one lexeme buffer,
    flush and restart at token boundaries, and stop everything at the first
    error. The input file becomes the sequence of its lines and the token
    file the returned token sequence; an error is reported by its position. */
module Tokenizer {
  import opened CharClass
  import opened Numeric
  import opened Options
  import opened Builder
  import opened Tokens

  /** Where scanning stopped: the 1-based line number and the 1-based
      position of the offending character in the comment-stripped line. */
  datatype ScanError = ScanError(line: nat, pos: nat)

  /** Everything a scan produces. */
  datatype Outcome = Outcome(tokens: seq<Token>, error: Option<ScanError>)

  // ---------------------------------------------------------------- comments

  /** `str.find("//")`, with "not found" as the length of the line. */
  function CommentStart(s: string, from: nat := 0): (i: nat)
    requires from <= |s|
    ensures from <= i <= |s|
    ensures i < |s| ==> i + 1 < |s| && s[i] == '/' && s[i + 1] == '/'
    ensures forall j :: from <= j < i && j + 1 < |s| ==> !(s[j] == '/' && s[j + 1] == '/')
    decreases |s| - from
  {
    if from + 1 >= |s| then |s|
    else if s[from] == '/' && s[from + 1] == '/' then from
    else CommentStart(s, from + 1)
  }

  /** The line up to the first `//`. */
  function StripComment(line: string): string
  {
    line[..CommentStart(line)]
  }

  // ------------------------------------------------------------- one step

  /** The range guards on numeric lexemes: extending a DEC lexeme must keep
      its value within 32 bits, and extending a HEX or BIN lexeme must keep
      the value of its digits after the two-character prefix at most IntMax.
      A HEX or BIN lexeme shorter than its prefix also fails, as `substr(2)`
      does then. */
  predicate Overflows(state: string, lexeme: string, c: char)
  {
    (state == "DEC" && !InInt32(DecValue(lexeme + [c]))) ||
    (state == "BIN" && (|lexeme| < 2 || Digits(lexeme[2..] + [c], 2) > IntMax)) ||
    (state == "HEX" && (|lexeme| < 2 || Digits(lexeme[2..] + [c], 16) > IntMax))
  }

  /** Character `c` extends the lexeme: it is in the alphabet, the table has
      an entry for it and no range guard fails. Otherwise the source throws,
      and its one `catch` treats the three causes alike. */
  predicate Extends(sc: Scanner, state: string, lexeme: string, c: char)
  {
    c in sc.alphabet && (state, c) in sc.transitions && !Overflows(state, lexeme, c)
  }

  /** A token may end in every declared state except the start state. */
  predicate Accepting(sc: Scanner, state: string)
  {
    state in sc.states && state != sc.startState
  }

  /** The scan loop's variables within a line: the current state, the lexeme
      buffer and the tokens this line has emitted so far. */
  datatype Config = Config(state: string, lexeme: string, emitted: seq<Token>)

  datatype StepResult = Next(cfg: Config) | Stuck(emitted: seq<Token>)

  /** `formatToken`: the emitted tokens after flushing the lexeme. */
  function Flush(cfg: Config): seq<Token>
  {
    cfg.emitted + [Token(Classify(cfg.state, cfg.lexeme), cfg.lexeme)]
  }

  /** One iteration of the character loop. */
  function Step(sc: Scanner, cfg: Config, c: char): StepResult
  {
    if IsWhiteSpace(c) && cfg.state == sc.startState then Next(cfg)
    else if Extends(sc, cfg.state, cfg.lexeme, c) then
      Next(Config(sc.transitions[(cfg.state, c)], cfg.lexeme + [c], cfg.emitted))
    else if !Accepting(sc, cfg.state) then Stuck(cfg.emitted)
    else if (sc.startState, c) in sc.transitions then
      Next(Config(sc.transitions[(sc.startState, c)], [c], Flush(cfg)))
    else if IsWhiteSpace(c) then Next(Config(sc.startState, [], Flush(cfg)))
    else Stuck(Flush(cfg))
  }

  function Emitted(r: StepResult): seq<Token>
  {
    match r
    case Next(cfg) => cfg.emitted
    case Stuck(out) => out
  }

  // ------------------------------------------------------------- one line

  datatype RunResult = Ran(cfg: Config) | Failed(emitted: seq<Token>, pos: nat)

  /** The character loop from position `i` on; a failure reports the
      1-based position of the character that caused it. */
  function Run(sc: Scanner, cfg: Config, text: string, i: nat): RunResult
    requires i <= |text|
    decreases |text| - i
  {
    if i == |text| then Ran(cfg)
    else match Step(sc, cfg, text[i])
      case Next(cfg') => Run(sc, cfg', text, i + 1)
      case Stuck(out) => Failed(out, i + 1)
  }

  datatype LineResult = LineOk(tokens: seq<Token>) | LineErr(tokens: seq<Token>, pos: nat)

  /** The end-of-line check: flush a finished token; otherwise it is an error
      only when the line's last character is not whitespace, and a pending
      partial lexeme is dropped silently. */
  function EndLine(sc: Scanner, cfg: Config, text: string): LineResult
    requires text != []
  {
    if Accepting(sc, cfg.state) then LineOk(Flush(cfg))
    else if !IsWhiteSpace(text[|text| - 1]) then LineErr(cfg.emitted, |text|)
    else LineOk(cfg.emitted)
  }

  /** One line: strip the comment, skip it when nothing is left, else run the
      loop from the start state with an empty lexeme. */
  function ScanLine(sc: Scanner, line: string): LineResult
  {
    var text := StripComment(line);
    if text == [] then LineOk([])
    else match Run(sc, Config(sc.startState, [], []), text, 0)
      case Ran(cfg) => EndLine(sc, cfg, text)
      case Failed(out, pos) => LineErr(out, pos)
  }

  // ------------------------------------------------------------ all lines

  /** Lines `done..` after `out` was produced by the lines before; the first
      line error ends the scan. */
  function ScanFrom(sc: Scanner, lines: seq<string>, done: nat, out: seq<Token>): Outcome
    requires done <= |lines|
    decreases |lines| - done
  {
    if done == |lines| then Outcome(out, None)
    else match ScanLine(sc, lines[done])
      case LineOk(toks) => ScanFrom(sc, lines, done + 1, out + toks)
      case LineErr(toks, pos) => Outcome(out + toks, Some(ScanError(done + 1, pos)))
  }

  function ScanLines(sc: Scanner, lines: seq<string>): Outcome
  {
    ScanFrom(sc, lines, 0, [])
  }

  /** The body of the `try` block up to its last two statements: whether
      `c` is in the alphabet, has an entry and passes the range guards. */
  method Advances(sc: Scanner, state: string, lexeme: string, c: char) returns (advance: bool)
    ensures advance == Extends(sc, state, lexeme, c)
  {
    advance := c in sc.alphabet && (state, c) in sc.transitions;
    if advance && state == "DEC" && !InInt32(DecValue(lexeme + [c])) {
      advance := false;
    }
    if advance && (state == "BIN" || state == "HEX") {
      if |lexeme| < 2 {
        advance := false;
      } else {
        var noPrefixNum := lexeme[2..];
        if state == "BIN" && Digits(noPrefixNum + [c], 2) > IntMax {
          advance := false;
        }
        if state == "HEX" && Digits(noPrefixNum + [c], 16) > IntMax {
          advance := false;
        }
      }
    }
  }

  /** The inner loop of `Scanner::scan` over one comment-stripped line,
      appending the tokens it emits to `tokens0`. It stops at the first
      character that fails; `c` is the last character read. */
  method ScanText(sc: Scanner, str: string, tokens0: seq<Token>)
    returns (tokens: seq<Token>, currentState: string, lexeme: string, c: char, failed: bool, pos: nat, ghost emitted: seq<Token>)
    requires str != []
    ensures tokens == tokens0 + emitted
    ensures failed ==> Run(sc, Config(sc.startState, [], []), str, 0) == Failed(emitted, pos)
    ensures !failed ==> Run(sc, Config(sc.startState, [], []), str, 0) == Ran(Config(currentState, lexeme, emitted))
    ensures !failed ==> pos == |str| && c == str[|str| - 1]
  {
    tokens := tokens0;
    emitted := [];
    currentState := sc.startState;
    lexeme := "";
    failed := false;
    pos := 0;
    c := str[0];
    while pos < |str|
      invariant pos <= |str|
      invariant tokens == tokens0 + emitted
      invariant pos > 0 ==> c == str[pos - 1]
      invariant Run(sc, Config(currentState, lexeme, emitted), str, pos) ==
                Run(sc, Config(sc.startState, [], []), str, 0)
    {
      c := str[pos];
      ghost var cfg0 := Config(currentState, lexeme, emitted);
      ghost var step := Step(sc, cfg0, c);
      assert Run(sc, cfg0, str, pos) ==
        match step
        case Next(cfg') => Run(sc, cfg', str, pos + 1)
        case Stuck(out) => Failed(out, pos + 1);
      pos := pos + 1;
      if IsWhiteSpace(c) && currentState == sc.startState {
        continue;
      }
      var advance := Advances(sc, currentState, lexeme, c);
      if advance {
        currentState := sc.transitions[(currentState, c)];
        lexeme := lexeme + [c];
      } else if Accepting(sc, currentState) {
        var token := Token(Classify(currentState, lexeme), lexeme);
        tokens := tokens + [token];
        emitted := emitted + [token];
        lexeme := "";
        currentState := sc.startState;
        if (sc.startState, c) in sc.transitions {
          currentState := sc.transitions[(sc.startState, c)];
          lexeme := lexeme + [c];
        } else if !IsWhiteSpace(c) {
          failed := true;
          assert step == Stuck(emitted);
          return;
        }
      } else {
        failed := true;
        assert step == Stuck(emitted);
        return;
      }
      assert step == Next(Config(currentState, lexeme, emitted));
    }
  }

  /** `Scanner::scan`, with the input file as its lines and the token and
      error streams as the returned values. */
  method Scan(sc: Scanner, lines: seq<string>) returns (tokens: seq<Token>, error: Option<ScanError>)
    ensures Outcome(tokens, error) == ScanLines(sc, lines)
  {
    tokens := [];
    error := None;
    var lineNumber: nat := 0;
    while lineNumber < |lines|
      invariant lineNumber <= |lines|
      invariant error == None
      invariant ScanFrom(sc, lines, lineNumber, tokens) == ScanLines(sc, lines)
    {
      var str := lines[lineNumber];
      ghost var unfolded := match ScanLine(sc, str)
        case LineOk(toks) => ScanFrom(sc, lines, lineNumber + 1, tokens + toks)
        case LineErr(toks, p) => Outcome(tokens + toks, Some(ScanError(lineNumber + 1, p)));
      assert ScanFrom(sc, lines, lineNumber, tokens) == unfolded;
      lineNumber := lineNumber + 1;

      var commentStart := CommentStart(str);
      str := str[..commentStart];
      if str == [] {
        assert tokens + [] == tokens;
        continue;
      }

      assert str == StripComment(lines[lineNumber - 1]);
      var currentState, lexeme, c, failed, pos;
      ghost var emitted;
      ghost var before := tokens;
      tokens, currentState, lexeme, c, failed, pos, emitted := ScanText(sc, str, tokens);
      if failed {
        error := Some(ScanError(lineNumber, pos));
        assert ScanLine(sc, lines[lineNumber - 1]) == LineErr(emitted, pos);
        break;
      }
      if Accepting(sc, currentState) {
        var token := Token(Classify(currentState, lexeme), lexeme);
        tokens := tokens + [token];
        emitted := emitted + [token];
        assert tokens == before + emitted;
      } else if !IsWhiteSpace(c) {
        error := Some(ScanError(lineNumber, pos));
        assert ScanLine(sc, lines[lineNumber - 1]) == LineErr(emitted, pos);
        break;
      }
      assert ScanLine(sc, lines[lineNumber - 1]) == LineOk(emitted);
      assert unfolded == ScanFrom(sc, lines, lineNumber, tokens);
    }
  }
}
