/** The range guards keep every numeric token within 32 bits. This holds for
    any automaton whose numeric states are entered only the way the xer
    table enters them (`NumericShape`): the guards only check extensions of
    a DEC, HEX or BIN lexeme, so the lexeme a numeric state starts from must
    be short. */
module NumericBounds {
  import opened CharClass
  import opened Numeric
  import opened Options
  import opened Builder
  import opened Tokens
  import opened Tokenizer
  import opened ScanProperties

  /** The value a numeric state's lexeme denotes is within 32 bits. */
  predicate NumericFits(state: string, lexeme: string)
  {
    (state == "DEC" ==> InInt32(DecValue(lexeme))) &&
    (state == "HEX" ==> |lexeme| >= 2 && Digits(lexeme[2..], 16) <= IntMax) &&
    (state == "BIN" ==> |lexeme| >= 2 && Digits(lexeme[2..], 2) <= IntMax)
  }

  /** A token whose text the table leads to DEC, HEX or BIN fits in 32 bits. */
  predicate TokenFits(sc: Scanner, t: Token)
  {
    Reaches(sc, t.text).Some? ==> NumericFits(Reaches(sc, t.text).value, t.text)
  }

  /** How entry `k` may enter the states the guards rely on: nothing enters
      the start state, `-` and `0` are entered from the start state,
      `notHEX` and `notBIN` from `0`, DEC from DEC, `-` or the start state,
      HEX from HEX or `notHEX`, and BIN from BIN or `notBIN`. */
  predicate EntryShape(sc: Scanner, k: Key)
    requires k in sc.transitions
  {
    EntryOk(sc.startState, k.0, sc.transitions[k])
  }

  predicate EntryOk(start: string, from: string, to: string)
  {
    to != start &&
    ((to == "-" || to == "0") ==> from == start) &&
    ((to == "notHEX" || to == "notBIN") ==> from == "0") &&
    (to == "DEC" ==> from == "DEC" || from == "-" || from == start) &&
    (to == "HEX" ==> from == "HEX" || from == "notHEX") &&
    (to == "BIN" ==> from == "BIN" || from == "notBIN")
  }

  predicate NumericShape(sc: Scanner)
  {
    sc.startState !in {"-", "0", "notHEX", "notBIN", "DEC", "HEX", "BIN"} &&
    forall k | k in sc.transitions :: EntryShape(sc, k)
  }

  /** Lengths of the short lexemes and the values of the numeric ones. */
  predicate ShapeInv(sc: Scanner, cfg: Config)
  {
    (cfg.state == sc.startState ==> cfg.lexeme == []) &&
    ((cfg.state == "-" || cfg.state == "0") ==> |cfg.lexeme| == 1) &&
    ((cfg.state == "notHEX" || cfg.state == "notBIN") ==> |cfg.lexeme| == 2) &&
    NumericFits(cfg.state, cfg.lexeme) &&
    AllFit(sc, cfg.emitted)
  }

  predicate AllFit(sc: Scanner, ts: seq<Token>)
  {
    forall i :: 0 <= i < |ts| ==> TokenFits(sc, ts[i])
  }

  lemma FlushFits(sc: Scanner, cfg: Config)
    requires Reaches(sc, cfg.lexeme) == Some(cfg.state) && ShapeInv(sc, cfg)
    ensures AllFit(sc, Flush(cfg))
  {
    var f := Flush(cfg);
    forall i | 0 <= i < |f| ensures TokenFits(sc, f[i]) {
      if i < |cfg.emitted| { assert f[i] == cfg.emitted[i]; }
    }
  }

  /** Entering state `to` by character `c` from a lexeme of the shape the
      invariant gives keeps the new lexeme's shape. */
  lemma EnterKeepsShape(sc: Scanner, from: string, lexeme: string, c: char)
    requires NumericShape(sc)
    requires (from, c) in sc.transitions
    requires from == sc.startState ==> lexeme == []
    requires (from == "-" || from == "0") ==> |lexeme| == 1
    requires (from == "notHEX" || from == "notBIN") ==> |lexeme| == 2
    requires NumericFits(from, lexeme)
    requires !Overflows(from, lexeme, c)
    ensures var to := sc.transitions[(from, c)];
      to != sc.startState &&
      ((to == "-" || to == "0") ==> |lexeme + [c]| == 1) &&
      ((to == "notHEX" || to == "notBIN") ==> |lexeme + [c]| == 2) &&
      NumericFits(to, lexeme + [c])
  {
    var to := sc.transitions[(from, c)];
    assert EntryShape(sc, (from, c));
    var s := lexeme + [c];
    if |lexeme| <= 1 {
      ShortLexemeFits(s, 10);
      if |s| == 2 {
        assert s[2..] == [];
      }
    }
    if |lexeme| == 2 {
      assert s[2..] == [c];
      ShortLexemeFits([c], 16);
      ShortLexemeFits([c], 2);
    }
    if |lexeme| >= 2 {
      assert s[2..] == lexeme[2..] + [c];
    }
  }

  lemma StepKeepsShape(sc: Scanner, cfg: Config, c: char)
    requires NumericShape(sc)
    requires Reaches(sc, cfg.lexeme) == Some(cfg.state) && ShapeInv(sc, cfg)
    ensures Step(sc, cfg, c).Next? ==> ShapeInv(sc, Step(sc, cfg, c).cfg)
    ensures Step(sc, cfg, c).Stuck? ==> AllFit(sc, Step(sc, cfg, c).emitted)
  {
    if IsWhiteSpace(c) && cfg.state == sc.startState {
    } else if Extends(sc, cfg.state, cfg.lexeme, c) {
      EnterKeepsShape(sc, cfg.state, cfg.lexeme, c);
    } else if Accepting(sc, cfg.state) {
      FlushFits(sc, cfg);
      if (sc.startState, c) in sc.transitions {
        EnterKeepsShape(sc, sc.startState, [], c);
        assert [] + [c] == [c];
      }
    }
  }

  lemma {:induction false} RunKeepsShape(sc: Scanner, cfg: Config, text: string, i: nat)
    requires NumericShape(sc)
    requires i <= |text| && LexemeInv(sc, cfg) && ShapeInv(sc, cfg)
    ensures Run(sc, cfg, text, i).Ran? ==>
      LexemeInv(sc, Run(sc, cfg, text, i).cfg) && ShapeInv(sc, Run(sc, cfg, text, i).cfg)
    ensures Run(sc, cfg, text, i).Failed? ==> AllFit(sc, Run(sc, cfg, text, i).emitted)
    decreases |text| - i
  {
    if i < |text| {
      StepKeepsLexemeInv(sc, cfg, text[i]);
      StepKeepsShape(sc, cfg, text[i]);
      match Step(sc, cfg, text[i])
      case Next(after) => RunKeepsShape(sc, after, text, i + 1);
      case Stuck(out) =>
    }
  }

  lemma LineFits(sc: Scanner, line: string)
    requires NumericShape(sc)
    ensures AllFit(sc, ScanLine(sc, line).tokens)
  {
    var text := StripComment(line);
    if text != [] {
      var cfg0 := Config(sc.startState, [], []);
      RunKeepsShape(sc, cfg0, text, 0);
      match Run(sc, cfg0, text, 0)
      case Ran(cfg) =>
        if Accepting(sc, cfg.state) { FlushFits(sc, cfg); }
      case Failed(out, _) =>
    }
  }

  lemma AppendFit(sc: Scanner, a: seq<Token>, b: seq<Token>)
    requires AllFit(sc, a) && AllFit(sc, b)
    ensures AllFit(sc, a + b)
  {
    forall i | 0 <= i < |a + b| ensures TokenFits(sc, (a + b)[i]) {
      if i < |a| { assert (a + b)[i] == a[i]; } else { assert (a + b)[i] == b[i - |a|]; }
    }
  }

  lemma {:induction false} ScanFromFits(sc: Scanner, lines: seq<string>, done: nat, out: seq<Token>)
    requires NumericShape(sc)
    requires done <= |lines| && AllFit(sc, out)
    ensures AllFit(sc, ScanFrom(sc, lines, done, out).tokens)
    decreases |lines| - done
  {
    if done < |lines| {
      LineFits(sc, lines[done]);
      AppendFit(sc, out, ScanLine(sc, lines[done]).tokens);
      match ScanLine(sc, lines[done])
      case LineOk(toks) => ScanFromFits(sc, lines, done + 1, out + toks);
      case LineErr(toks, pos) =>
    }
  }

  /** On an automaton of numeric shape every emitted token the table leads
      to DEC has a value within [IntMin, IntMax], and every token it leads to
      HEX or BIN has digits after the prefix whose value is at most IntMax. */
  lemma NumericTokensFit(sc: Scanner, lines: seq<string>)
    requires NumericShape(sc)
    ensures forall i :: 0 <= i < |ScanLines(sc, lines).tokens| ==>
      var t := ScanLines(sc, lines).tokens[i];
      (Reaches(sc, t.text) == Some("DEC") ==> InInt32(DecValue(t.text))) &&
      (Reaches(sc, t.text) == Some("HEX") ==> |t.text| >= 2 && Digits(t.text[2..], 16) <= IntMax) &&
      (Reaches(sc, t.text) == Some("BIN") ==> |t.text| >= 2 && Digits(t.text[2..], 2) <= IntMax)
  {
    ScanFromFits(sc, lines, 0, []);
    var ts := ScanLines(sc, lines).tokens;
    forall i | 0 <= i < |ts|
      ensures Reaches(sc, ts[i].text).Some? ==> NumericFits(Reaches(sc, ts[i].text).value, ts[i].text)
    {
      assert TokenFits(sc, ts[i]);
    }
  }

  // ------------------------------------------- the shape of a built table

  /** Every line of a transition block enters its target the way
      `EntryOk` allows. */
  predicate LinesOk(start: string, lines: seq<seq<string>>)
    requires NonEmptyLines(lines)
  {
    forall i :: 0 <= i < |lines| ==> EntryOk(start, lines[i][0], Target(lines[i]))
  }

  lemma {:induction false} FirstLookupOk(start: string, lines: seq<seq<string>>, k: Key)
    requires NonEmptyLines(lines) && LinesOk(start, lines)
    requires FirstLookup(lines, k).Some?
    ensures EntryOk(start, k.0, FirstLookup(lines, k).value)
    decreases |lines|
  {
    if !Provides(lines[0], k) {
      assert NonEmptyLines(lines[1..]) by {
        forall i | 0 <= i < |lines[1..]| ensures lines[1..][i] != [] { assert lines[1..][i] == lines[i + 1]; }
      }
      assert LinesOk(start, lines[1..]) by {
        forall i | 0 <= i < |lines[1..]|
          ensures EntryOk(start, lines[1..][i][0], Target(lines[1..][i]))
        {
          assert lines[1..][i] == lines[i + 1];
        }
      }
      FirstLookupOk(start, lines[1..], k);
    }
  }

  /** A scanner built from a block whose lines all enter their targets as
      `EntryOk` allows, with a start state outside the numeric states, has
      numeric shape: the four patches enter only `char1` and `notSTR`. */
  lemma BuiltShape(alphabetTokens: seq<string>, stateTokens: seq<string>, lines: seq<seq<string>>)
    requires NonEmptyTokens(alphabetTokens) && NonEmptyLines(lines)
    requires StartOf(stateTokens) !in {"-", "0", "notHEX", "notBIN", "DEC", "HEX", "BIN", "char1", "notSTR"}
    requires LinesOk(StartOf(stateTokens), lines)
    ensures NumericShape(BuildSpec(alphabetTokens, stateTokens, lines))
  {
    var start := StartOf(stateTokens);
    TableOk(start, lines);
    PatchedOk(start, Table(lines));
  }

  /** Every entry of the table a block builds is one `EntryOk` allows. */
  lemma TableOk(start: string, lines: seq<seq<string>>)
    requires NonEmptyLines(lines) && LinesOk(start, lines)
    ensures forall k | k in Table(lines) :: EntryOk(start, k.0, Table(lines)[k])
  {
    forall k | k in Table(lines) ensures EntryOk(start, k.0, Table(lines)[k]) {
      TableIsFirstLookup(lines, k);
      FirstLookupOk(start, lines, k);
    }
  }

  /** The four patches enter only `char1` and `notSTR`, which `EntryOk`
      allows from anywhere unless one of them is the start state. */
  lemma PatchedOk(start: string, t: map<Key, string>)
    requires start !in {"-", "0", "notHEX", "notBIN", "DEC", "HEX", "BIN", "char1", "notSTR"}
    requires forall k | k in t :: EntryOk(start, k.0, t[k])
    ensures forall k | k in Patched(t) :: EntryOk(start, k.0, Patched(t)[k])
  {
    forall k | k in Patched(t) ensures EntryOk(start, k.0, Patched(t)[k]) {
      if k !in t {
        assert k in PatchKeys();
        if k == ("char0", ' ') {
          assert Patched(t)[k] == "char1";
        } else {
          assert k.0 == "notSTR" && k.1 in {' ', '\t', '\U{000B}'};
          assert Patched(t)[k] == "notSTR";
        }
      }
    }
  }
}
