/** What the tokenizer guarantees: blank and comment-only lines produce
    nothing, lines are scanned independently and the first error halts the
    scan, every token is a lexeme the automaton accepts, tokens end only where
    the next character cannot extend them, and errors point into their line. */
module ScanProperties {
  import opened CharClass
  import opened Options
  import opened Builder
  import opened Tokens
  import opened Tokenizer

  // ------------------------------------------------------- blank lines

  predicate Blank(text: string)
  {
    forall i :: 0 <= i < |text| ==> IsWhiteSpace(text[i])
  }

  /** Whitespace read in the start state changes nothing: not the state,
      not the (empty) lexeme, not the tokens already emitted on the line. */
  lemma {:induction false} RunSkipsBlank(sc: Scanner, cfg: Config, text: string, i: nat)
    requires i <= |text| && cfg.state == sc.startState
    requires forall j :: i <= j < |text| ==> IsWhiteSpace(text[j])
    ensures Run(sc, cfg, text, i) == Ran(cfg)
    decreases |text| - i
  {
    if i < |text| {
      RunSkipsBlank(sc, cfg, text, i + 1);
    }
  }

  /** A line that is empty, whitespace or a comment once its comment is
      stripped yields no token and no error. */
  lemma BlankLineEmitsNothing(sc: Scanner, line: string)
    requires Blank(StripComment(line))
    ensures ScanLine(sc, line) == LineOk([])
  {
    var text := StripComment(line);
    if text != [] {
      RunSkipsBlank(sc, Config(sc.startState, [], []), text, 0);
    }
  }

  lemma {:induction false} ScanFromBlank(sc: Scanner, lines: seq<string>, done: nat)
    requires done <= |lines|
    requires forall i :: 0 <= i < |lines| ==> Blank(StripComment(lines[i]))
    ensures ScanFrom(sc, lines, done, []) == Outcome([], None)
    decreases |lines| - done
  {
    if done < |lines| {
      BlankLineEmitsNothing(sc, lines[done]);
      var none: seq<Token> := [];
      assert none + none == none;
      ScanFromBlank(sc, lines, done + 1);
    }
  }

  /** Input made only of whitespace and comments yields no token and no error. */
  lemma BlankInputEmitsNothing(sc: Scanner, lines: seq<string>)
    requires forall i :: 0 <= i < |lines| ==> Blank(StripComment(lines[i]))
    ensures ScanLines(sc, lines) == Outcome([], None)
  {
    ScanFromBlank(sc, lines, 0);
  }

  // ------------------------------------------ lines are independent, errors halt

  function ShiftError(e: Option<ScanError>, n: nat): Option<ScanError>
  {
    match e
    case None => None
    case Some(ScanError(line, pos)) => Some(ScanError(line + n, pos))
  }

  /** Tokens of earlier lines are only ever prepended. */
  lemma {:induction false} ScanFromOut(sc: Scanner, lines: seq<string>, done: nat, out: seq<Token>)
    requires done <= |lines|
    ensures ScanFrom(sc, lines, done, out) ==
      Outcome(out + ScanFrom(sc, lines, done, []).tokens, ScanFrom(sc, lines, done, []).error)
    decreases |lines| - done
  {
    if done < |lines| {
      match ScanLine(sc, lines[done])
      case LineOk(toks) =>
        ScanFromOut(sc, lines, done + 1, out + toks);
        ScanFromOut(sc, lines, done + 1, [] + toks);
        assert [] + toks == toks;
      case LineErr(toks, pos) =>
        assert [] + toks == toks;
    }
  }

  lemma {:induction false} ScanFromPrefix(sc: Scanner, a: seq<string>, b: seq<string>, done: nat, out: seq<Token>)
    requires done <= |a|
    ensures ScanFrom(sc, a, done, out).error.Some? ==>
      ScanFrom(sc, a + b, done, out) == ScanFrom(sc, a, done, out)
    ensures ScanFrom(sc, a, done, out).error.None? ==>
      ScanFrom(sc, a + b, done, out) == ScanFrom(sc, a + b, |a|, ScanFrom(sc, a, done, out).tokens)
    decreases |a| - done
  {
    if done < |a| {
      assert (a + b)[done] == a[done];
      match ScanLine(sc, a[done])
      case LineOk(toks) => ScanFromPrefix(sc, a, b, done + 1, out + toks);
      case LineErr(toks, pos) =>
    }
  }

  lemma {:induction false} ScanFromShift(sc: Scanner, a: seq<string>, b: seq<string>, k: nat, out: seq<Token>)
    requires k <= |b|
    ensures ScanFrom(sc, a + b, |a| + k, out) ==
      Outcome(ScanFrom(sc, b, k, out).tokens, ShiftError(ScanFrom(sc, b, k, out).error, |a|))
    decreases |b| - k
  {
    if k < |b| {
      assert (a + b)[|a| + k] == b[k];
      match ScanLine(sc, b[k])
      case LineOk(toks) => ScanFromShift(sc, a, b, k + 1, out + toks);
      case LineErr(toks, pos) =>
    }
  }

  /** The first error halts the whole scan: later lines change nothing. */
  lemma ScanHalts(sc: Scanner, a: seq<string>, b: seq<string>)
    requires ScanLines(sc, a).error.Some?
    ensures ScanLines(sc, a + b) == ScanLines(sc, a)
  {
    ScanFromPrefix(sc, a, b, 0, []);
  }

  /** Every line starts afresh: after error-free lines `a`, the lines `b`
      produce the tokens and the error they produce alone, the error's line
      number counted on from `a`. */
  lemma ScanConcat(sc: Scanner, a: seq<string>, b: seq<string>)
    requires ScanLines(sc, a).error.None?
    ensures ScanLines(sc, a + b) ==
      Outcome(ScanLines(sc, a).tokens + ScanLines(sc, b).tokens, ShiftError(ScanLines(sc, b).error, |a|))
  {
    var ta := ScanLines(sc, a).tokens;
    ScanFromPrefix(sc, a, b, 0, []);
    ScanFromShift(sc, a, b, 0, ta);
    assert |a| + 0 == |a|;
    ScanFromOut(sc, b, 0, ta);
  }

  // ----------------------------------------------------------- error positions

  lemma {:induction false} RunFailsInside(sc: Scanner, cfg: Config, text: string, i: nat)
    requires i <= |text|
    ensures Run(sc, cfg, text, i).Failed? ==> i < Run(sc, cfg, text, i).pos <= |text|
    decreases |text| - i
  {
    if i < |text| {
      match Step(sc, cfg, text[i])
      case Next(cfg') => RunFailsInside(sc, cfg', text, i + 1);
      case Stuck(out) =>
    }
  }

  lemma LineErrorInside(sc: Scanner, line: string)
    ensures ScanLine(sc, line).LineErr? ==> 1 <= ScanLine(sc, line).pos <= |StripComment(line)|
  {
    var text := StripComment(line);
    if text != [] {
      RunFailsInside(sc, Config(sc.startState, [], []), text, 0);
    }
  }

  /** A failed run stops at the character its position names, counted from
      1: the run over the characters before it goes through, and the step on
      it is stuck. */
  lemma {:induction false} RunFailsAt(sc: Scanner, cfg: Config, text: string, i: nat)
    requires i <= |text|
    ensures Run(sc, cfg, text, i).Failed? ==>
      var p := Run(sc, cfg, text, i).pos;
      i < p <= |text| && Run(sc, cfg, text[..p - 1], i).Ran? &&
      Step(sc, Run(sc, cfg, text[..p - 1], i).cfg, text[p - 1]) == Stuck(Run(sc, cfg, text, i).emitted)
    decreases |text| - i
  {
    if i < |text| {
      match Step(sc, cfg, text[i])
      case Next(cfg') =>
        RunFailsAt(sc, cfg', text, i + 1);
        if Run(sc, cfg', text, i + 1).Failed? {
          var p := Run(sc, cfg', text, i + 1).pos;
          assert text[..p - 1][i] == text[i];
        }
      case Stuck(out) =>
        assert |text[..i]| == i;
    }
  }

  /** Where a line's error lies: either at the character that stopped the
      loop, or at the line's last character when the line ends in a state
      that is not accepting after a character that is not whitespace. */
  lemma LineErrorAt(sc: Scanner, line: string)
    ensures ScanLine(sc, line).LineErr? ==>
      var text, p := StripComment(line), ScanLine(sc, line).pos;
      var start := Config(sc.startState, [], []);
      1 <= p <= |text| &&
      ((Run(sc, start, text[..p - 1], 0).Ran? &&
        Step(sc, Run(sc, start, text[..p - 1], 0).cfg, text[p - 1]).Stuck?) ||
       (p == |text| && Run(sc, start, text, 0).Ran? &&
        !Accepting(sc, Run(sc, start, text, 0).cfg.state) && !IsWhiteSpace(text[p - 1])))
  {
    var text := StripComment(line);
    if text != [] {
      RunFailsAt(sc, Config(sc.startState, [], []), text, 0);
    }
  }

  lemma {:induction false} ScanFromErrorInside(sc: Scanner, lines: seq<string>, done: nat, out: seq<Token>)
    requires done <= |lines|
    ensures var e := ScanFrom(sc, lines, done, out).error;
      e.Some? ==> done < e.value.line <= |lines| &&
                  1 <= e.value.pos <= |StripComment(lines[e.value.line - 1])|
    decreases |lines| - done
  {
    if done < |lines| {
      LineErrorInside(sc, lines[done]);
      match ScanLine(sc, lines[done])
      case LineOk(toks) => ScanFromErrorInside(sc, lines, done + 1, out + toks);
      case LineErr(toks, pos) =>
    }
  }

  /** An error names a line of the input and a character of that line once
      its comment is stripped (positions count from 1, skipped whitespace
      included). */
  lemma ErrorPointsIntoLine(sc: Scanner, lines: seq<string>)
    ensures var e := ScanLines(sc, lines).error;
      e.Some? ==> 1 <= e.value.line <= |lines| &&
                  1 <= e.value.pos <= |StripComment(lines[e.value.line - 1])|
  {
    ScanFromErrorInside(sc, lines, 0, []);
  }

  // ------------------------------------------------------ lexeme invariant

  /** The state the transition table reaches from the start state over
      `text`, if it never misses an entry. */
  function Reaches(sc: Scanner, text: string): Option<string>
  {
    if text == [] then Some(sc.startState)
    else match Reaches(sc, text[..|text| - 1])
      case None => None
      case Some(q) =>
        if (q, text[|text| - 1]) in sc.transitions then Some(sc.transitions[(q, text[|text| - 1])])
        else None
  }

  lemma ReachesSnoc(sc: Scanner, text: string, c: char)
    ensures Reaches(sc, text + [c]) ==
      match Reaches(sc, text)
      case None => None
      case Some(q) => if (q, c) in sc.transitions then Some(sc.transitions[(q, c)]) else None
  {
    assert (text + [c])[..|text + [c]| - 1] == text;
  }

  /** A token the automaton recognises: the table leads from the start
      state over its text to an accepting state, and its kind is that
      state's classification of the text. */
  predicate Recognized(sc: Scanner, t: Token)
  {
    var r := Reaches(sc, t.text);
    r.Some? && Accepting(sc, r.value) && t.kind == Classify(r.value, t.text)
  }

  predicate AllRecognized(sc: Scanner, ts: seq<Token>)
  {
    forall i :: 0 <= i < |ts| ==> Recognized(sc, ts[i])
  }

  /** The buffer invariant: running the table over the lexeme from the start
      state reaches the current state; and what was flushed is recognised. */
  predicate LexemeInv(sc: Scanner, cfg: Config)
  {
    Reaches(sc, cfg.lexeme) == Some(cfg.state) && AllRecognized(sc, cfg.emitted)
  }

  lemma FlushRecognized(sc: Scanner, cfg: Config)
    requires LexemeInv(sc, cfg) && Accepting(sc, cfg.state)
    ensures AllRecognized(sc, Flush(cfg))
  {
    var f := Flush(cfg);
    forall i | 0 <= i < |f| ensures Recognized(sc, f[i]) {
      if i < |cfg.emitted| { assert f[i] == cfg.emitted[i]; }
    }
  }

  lemma StepKeepsLexemeInv(sc: Scanner, cfg: Config, c: char)
    requires LexemeInv(sc, cfg)
    ensures match Step(sc, cfg, c)
      case Next(cfg') => LexemeInv(sc, cfg')
      case Stuck(out) => AllRecognized(sc, out)
  {
    if IsWhiteSpace(c) && cfg.state == sc.startState {
    } else if Extends(sc, cfg.state, cfg.lexeme, c) {
      ReachesSnoc(sc, cfg.lexeme, c);
    } else if Accepting(sc, cfg.state) {
      FlushRecognized(sc, cfg);
      ReachesSnoc(sc, [], c);
      assert [] + [c] == [c];
    }
  }

  lemma {:induction false} RunKeepsLexemeInv(sc: Scanner, cfg: Config, text: string, i: nat)
    requires i <= |text| && LexemeInv(sc, cfg)
    ensures match Run(sc, cfg, text, i)
      case Ran(cfg') => LexemeInv(sc, cfg')
      case Failed(out, _) => AllRecognized(sc, out)
    decreases |text| - i
  {
    if i < |text| {
      StepKeepsLexemeInv(sc, cfg, text[i]);
      match Step(sc, cfg, text[i])
      case Next(cfg') => RunKeepsLexemeInv(sc, cfg', text, i + 1);
      case Stuck(out) =>
    }
  }

  lemma LineRecognized(sc: Scanner, line: string)
    ensures AllRecognized(sc, ScanLine(sc, line).tokens)
  {
    var text := StripComment(line);
    if text != [] {
      var cfg0 := Config(sc.startState, [], []);
      RunKeepsLexemeInv(sc, cfg0, text, 0);
      match Run(sc, cfg0, text, 0)
      case Ran(cfg) =>
        if Accepting(sc, cfg.state) { FlushRecognized(sc, cfg); }
      case Failed(out, _) =>
    }
  }

  lemma AppendRecognized(sc: Scanner, a: seq<Token>, b: seq<Token>)
    requires AllRecognized(sc, a) && AllRecognized(sc, b)
    ensures AllRecognized(sc, a + b)
  {
    forall i | 0 <= i < |a + b| ensures Recognized(sc, (a + b)[i]) {
      if i < |a| { assert (a + b)[i] == a[i]; } else { assert (a + b)[i] == b[i - |a|]; }
    }
  }

  lemma {:induction false} ScanFromRecognized(sc: Scanner, lines: seq<string>, done: nat, out: seq<Token>)
    requires done <= |lines| && AllRecognized(sc, out)
    ensures AllRecognized(sc, ScanFrom(sc, lines, done, out).tokens)
    decreases |lines| - done
  {
    if done < |lines| {
      LineRecognized(sc, lines[done]);
      AppendRecognized(sc, out, ScanLine(sc, lines[done]).tokens);
      match ScanLine(sc, lines[done])
      case LineOk(toks) => ScanFromRecognized(sc, lines, done + 1, out + toks);
      case LineErr(toks, pos) =>
    }
  }

  /** Every token the scan emits is a non-empty lexeme on which the table
      leads from the start state to an accepting state, and its kind is the
      classification of that state and text. */
  lemma TokensRecognized(sc: Scanner, lines: seq<string>)
    ensures AllRecognized(sc, ScanLines(sc, lines).tokens)
    ensures forall i :: 0 <= i < |ScanLines(sc, lines).tokens| ==> ScanLines(sc, lines).tokens[i].text != []
  {
    ScanFromRecognized(sc, lines, 0, []);
  }

  // -------------------------------------------------------- maximal munch

  /** A step emits a token exactly when the automaton sits in an accepting
      state and the character cannot extend the lexeme: it is outside the
      alphabet, the table leads nowhere on the extended text, or a range
      guard fails. The token is the whole buffered lexeme, and the character
      then restarts a lexeme from the start state or, being whitespace,
      leaves the buffer empty in the start state. */
  lemma MaximalMunch(sc: Scanner, cfg: Config, c: char)
    requires Reaches(sc, cfg.lexeme) == Some(cfg.state)
    ensures var r := Step(sc, cfg, c);
      Emitted(r) == cfg.emitted || Emitted(r) == Flush(cfg)
    ensures var r := Step(sc, cfg, c);
      Emitted(r) == Flush(cfg) <==>
        !(IsWhiteSpace(c) && cfg.state == sc.startState) && Accepting(sc, cfg.state) &&
        (c !in sc.alphabet || Reaches(sc, cfg.lexeme + [c]).None? || Overflows(cfg.state, cfg.lexeme, c))
    ensures var r := Step(sc, cfg, c);
      r.Next? && Emitted(r) == Flush(cfg) ==>
        (r.cfg.lexeme == [c] && Reaches(sc, [c]) == Some(r.cfg.state)) ||
        (r.cfg.lexeme == [] && r.cfg.state == sc.startState && IsWhiteSpace(c))
  {
    ReachesSnoc(sc, cfg.lexeme, c);
    ReachesSnoc(sc, [], c);
    assert [] + [c] == [c];
    assert |Flush(cfg)| == |cfg.emitted| + 1;
  }

  /** A step fails exactly when the character cannot extend the lexeme and
      either no token can end here, or the token ends but the character
      neither starts a new one nor is whitespace. */
  lemma StepFails(sc: Scanner, cfg: Config, c: char)
    ensures Step(sc, cfg, c).Stuck? <==>
      !(IsWhiteSpace(c) && cfg.state == sc.startState) && !Extends(sc, cfg.state, cfg.lexeme, c) &&
      (!Accepting(sc, cfg.state) || ((sc.startState, c) !in sc.transitions && !IsWhiteSpace(c)))
  {
  }

  // ------------------------------------------------------------- round trip

  /** The texts of the tokens, one after the other. */
  function Texts(ts: seq<Token>): string
  {
    if ts == [] then [] else Texts(ts[..|ts| - 1]) + ts[|ts| - 1].text
  }

  /** `s` without its whitespace characters. */
  function NoWS(s: string): string
  {
    if s == [] then []
    else NoWS(s[..|s| - 1]) + (if IsWhiteSpace(s[|s| - 1]) then [] else [s[|s| - 1]])
  }

  lemma TextsSnoc(ts: seq<Token>, t: Token)
    ensures Texts(ts + [t]) == Texts(ts) + t.text
  {
    assert (ts + [t])[..|ts|] == ts;
  }

  lemma {:induction false} NoWSConcat(a: string, b: string)
    ensures NoWS(a + b) == NoWS(a) + NoWS(b)
    decreases |b|
  {
    if b == [] {
      assert a + b == a;
    } else {
      var init := b[..|b| - 1];
      assert (a + b)[..|a + b| - 1] == a + init;
      assert (a + b)[|a + b| - 1] == b[|b| - 1];
      NoWSConcat(a, init);
    }
  }

  /** What a configuration has read so far, whitespace aside. */
  function Read(cfg: Config): string
  {
    NoWS(Texts(cfg.emitted) + cfg.lexeme)
  }

  /** After a flush, what was in the buffer is counted among the tokens. */
  lemma ReadAfterFlush(cfg: Config, q: string, lexeme: string)
    ensures Read(Config(q, lexeme, Flush(cfg))) == NoWS(Texts(cfg.emitted) + cfg.lexeme + lexeme)
  {
    TextsSnoc(cfg.emitted, Token(Classify(cfg.state, cfg.lexeme), cfg.lexeme));
  }

  /** Reading `c` onto the buffer or past it. */
  lemma ReadChar(x: string, c: char)
    ensures NoWS(x + [c]) == NoWS(x) + NoWS([c])
    ensures IsWhiteSpace(c) ==> NoWS(x) + NoWS([c]) == NoWS(x)
  {
    NoWSConcat(x, [c]);
    assert [c][..0] == [];
  }

  /** A step that goes on has read exactly one more character: the tokens
      emitted and the lexeme keep every non-whitespace character in order. */
  lemma StepRoundTrip(sc: Scanner, cfg: Config, c: char)
    requires Step(sc, cfg, c).Next?
    ensures Read(Step(sc, cfg, c).cfg) == Read(cfg) + NoWS([c])
  {
    var x := Texts(cfg.emitted) + cfg.lexeme;
    ReadChar(x, c);
    if IsWhiteSpace(c) && cfg.state == sc.startState {
      assert Step(sc, cfg, c).cfg == cfg;
    } else if Extends(sc, cfg.state, cfg.lexeme, c) {
      var next := Config(sc.transitions[(cfg.state, c)], cfg.lexeme + [c], cfg.emitted);
      assert Step(sc, cfg, c).cfg == next;
      assert Texts(cfg.emitted) + (cfg.lexeme + [c]) == x + [c];
    } else if (sc.startState, c) in sc.transitions {
      assert Step(sc, cfg, c).cfg == Config(sc.transitions[(sc.startState, c)], [c], Flush(cfg));
      ReadAfterFlush(cfg, sc.transitions[(sc.startState, c)], [c]);
    } else {
      assert Step(sc, cfg, c).cfg == Config(sc.startState, [], Flush(cfg));
      ReadAfterFlush(cfg, sc.startState, []);
      assert x + [] == x;
    }
  }

  /** Reading `text[i]` and then the rest is reading `text[i..]`. */
  lemma ReadOn(x: string, text: string, i: nat)
    requires i < |text|
    ensures x + NoWS([text[i]]) + NoWS(text[i + 1..]) == x + NoWS(text[i..])
  {
    assert text[i..] == [text[i]] + text[i + 1..];
    NoWSConcat([text[i]], text[i + 1..]);
  }

  lemma {:induction false} RunRoundTrip(sc: Scanner, cfg: Config, text: string, i: nat)
    requires i <= |text|
    ensures Run(sc, cfg, text, i).Ran? ==> Read(Run(sc, cfg, text, i).cfg) == Read(cfg) + NoWS(text[i..])
    decreases |text| - i
  {
    if i == |text| {
      assert text[i..] == [];
    } else if Step(sc, cfg, text[i]).Next? {
      var cfg' := Step(sc, cfg, text[i]).cfg;
      StepRoundTrip(sc, cfg, text[i]);
      RunRoundTrip(sc, cfg', text, i + 1);
      ReadOn(Read(cfg), text, i);
    }
  }

  /** A line whose loop goes through gives back its characters. When it ends
      in an accepting state, the tokens' texts are the comment-stripped line
      without its whitespace. When it ends elsewhere after a whitespace
      character, the tokens lack exactly the pending lexeme, which is dropped. */
  lemma LineRoundTrip(sc: Scanner, line: string)
    ensures var text := StripComment(line);
      var r := Run(sc, Config(sc.startState, [], []), text, 0);
      text != [] && r.Ran? && Accepting(sc, r.cfg.state) ==>
        ScanLine(sc, line).LineOk? && NoWS(Texts(ScanLine(sc, line).tokens)) == NoWS(text)
    ensures var text := StripComment(line);
      var r := Run(sc, Config(sc.startState, [], []), text, 0);
      text != [] && r.Ran? && !Accepting(sc, r.cfg.state) && IsWhiteSpace(text[|text| - 1]) ==>
        ScanLine(sc, line).LineOk? &&
        NoWS(Texts(ScanLine(sc, line).tokens)) + NoWS(r.cfg.lexeme) == NoWS(text)
  {
    var text := StripComment(line);
    var start := Config(sc.startState, [], []);
    RunRoundTrip(sc, start, text, 0);
    assert Read(start) == [] by { assert Texts([]) + [] == []; }
    assert text[0..] == text;
    var r := Run(sc, start, text, 0);
    if text != [] && r.Ran? {
      var cfg := r.cfg;
      NoWSConcat(Texts(cfg.emitted), cfg.lexeme);
      if Accepting(sc, cfg.state) {
        TextsSnoc(cfg.emitted, Token(Classify(cfg.state, cfg.lexeme), cfg.lexeme));
      }
    }
  }
}
