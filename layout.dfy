/** Where the tokens of a line come from. When no entry of the table leads
    back into the start state, the lexeme buffer is always the run of
    characters just read, so the tokens' texts, separated by gaps of
    whitespace, spell the comment-stripped line exactly. */
module Layout {
  import opened CharClass
  import opened Builder
  import opened Tokens
  import opened Tokenizer
  import opened ScanProperties
  import opened NumericBounds

  /** No entry of the table leads back into the start state. */
  predicate NoReentry(sc: Scanner)
  {
    forall k | k in sc.transitions :: sc.transitions[k] != sc.startState
  }

  lemma ShapeNoReentry(sc: Scanner)
    requires NumericShape(sc)
    ensures NoReentry(sc)
  {
    forall k | k in sc.transitions ensures sc.transitions[k] != sc.startState {
      assert EntryShape(sc, k);
    }
  }

  /** `gaps[0] + ts[0].text + gaps[1] + ... + ts[n - 1].text + gaps[n]`. */
  function Join(ts: seq<Token>, gaps: seq<string>): string
    requires |gaps| == |ts| + 1
  {
    if ts == [] then gaps[0]
    else Join(ts[..|ts| - 1], gaps[..|ts|]) + ts[|ts| - 1].text + gaps[|ts|]
  }

  /** `s` is the tokens' texts in order, separated by whitespace-only gaps. */
  predicate LaidOut(ts: seq<Token>, gaps: seq<string>, s: string)
  {
    |gaps| == |ts| + 1 && (forall j :: 0 <= j < |gaps| ==> Blank(gaps[j])) && Join(ts, gaps) == s
  }

  ghost predicate Spells(ts: seq<Token>, s: string)
  {
    exists gaps :: LaidOut(ts, gaps, s)
  }

  lemma JoinSnoc(ts: seq<Token>, gaps: seq<string>, t: Token, g: string)
    requires |gaps| == |ts| + 1
    ensures Join(ts + [t], gaps + [g]) == Join(ts, gaps) + t.text + g
  {
    assert (ts + [t])[..|ts|] == ts;
    assert (gaps + [g])[..|ts| + 1] == gaps;
  }

  /** Widening the last gap by `extra`. */
  lemma JoinWiden(ts: seq<Token>, gaps: seq<string>, extra: string)
    requires |gaps| == |ts| + 1
    ensures Join(ts, gaps[..|ts|] + [gaps[|ts|] + extra]) == Join(ts, gaps) + extra
  {
    var wide := gaps[..|ts|] + [gaps[|ts|] + extra];
    if ts != [] {
      assert wide[..|ts|] == gaps[..|ts|];
    }
  }

  /** The loop invariant: the tokens emitted so far, with blank gaps, spell
      the text read before the lexeme, and the lexeme is the text read since;
      in the start state the lexeme is empty. */
  predicate Placed(sc: Scanner, text: string, i: nat, cfg: Config, gaps: seq<string>)
  {
    |cfg.lexeme| <= i <= |text| &&
    (cfg.state == sc.startState ==> cfg.lexeme == []) &&
    text[i - |cfg.lexeme|..i] == cfg.lexeme &&
    LaidOut(cfg.emitted, gaps, text[..i - |cfg.lexeme|])
  }

  /** Flushing the buffer: the tokens then spell all the text read. */
  lemma FlushPlaced(sc: Scanner, text: string, i: nat, cfg: Config, gaps: seq<string>)
    requires Placed(sc, text, i, cfg, gaps)
    ensures LaidOut(Flush(cfg), gaps + [[]], text[..i])
  {
    var m := i - |cfg.lexeme|;
    JoinSnoc(cfg.emitted, gaps, Token(Classify(cfg.state, cfg.lexeme), cfg.lexeme), []);
    assert text[..i] == text[..m] + cfg.lexeme + [];
  }

  /** Whitespace skipped in the start state widens the last gap. */
  lemma SkipPlaced(sc: Scanner, text: string, i: nat, cfg: Config, gaps: seq<string>)
    returns (gaps': seq<string>)
    requires i < |text| && IsWhiteSpace(text[i]) && cfg.lexeme == []
    requires Placed(sc, text, i, cfg, gaps)
    ensures Placed(sc, text, i + 1, cfg, gaps')
  {
    var n := |cfg.emitted|;
    gaps' := gaps[..n] + [gaps[n] + [text[i]]];
    JoinWiden(cfg.emitted, gaps, [text[i]]);
    assert Blank(gaps[n]);
    forall j | 0 <= j < |gaps'| ensures Blank(gaps'[j]) {
      if j < n { assert gaps'[j] == gaps[j]; }
    }
    assert text[..i + 1] == text[..i] + [text[i]];
  }

  /** A character that extends the buffer is the buffer's new last one. */
  lemma ExtendPlaced(sc: Scanner, text: string, i: nat, cfg: Config, gaps: seq<string>, q: string)
    requires i < |text| && q != sc.startState
    requires Placed(sc, text, i, cfg, gaps)
    ensures Placed(sc, text, i + 1, Config(q, cfg.lexeme + [text[i]], cfg.emitted), gaps)
  {
    var m := i - |cfg.lexeme|;
    assert text[m..i + 1] == cfg.lexeme + [text[i]];
  }

  /** A flush followed by a restart on the character read. */
  lemma RestartPlaced(sc: Scanner, text: string, i: nat, cfg: Config, gaps: seq<string>, q: string)
    requires i < |text| && q != sc.startState
    requires Placed(sc, text, i, cfg, gaps)
    ensures Placed(sc, text, i + 1, Config(q, [text[i]], Flush(cfg)), gaps + [[]])
  {
    FlushPlaced(sc, text, i, cfg, gaps);
    assert text[i..i + 1] == [text[i]];
  }

  /** A flush followed by whitespace, which opens a new gap. */
  lemma DropPlaced(sc: Scanner, text: string, i: nat, cfg: Config, gaps: seq<string>)
    requires i < |text| && IsWhiteSpace(text[i])
    requires Placed(sc, text, i, cfg, gaps)
    ensures Placed(sc, text, i + 1, Config(sc.startState, [], Flush(cfg)), gaps + [[text[i]]])
  {
    var m := i - |cfg.lexeme|;
    JoinSnoc(cfg.emitted, gaps, Token(Classify(cfg.state, cfg.lexeme), cfg.lexeme), [text[i]]);
    assert text[..i + 1] == text[..m] + cfg.lexeme + [text[i]];
  }

  lemma StepPlaced(sc: Scanner, text: string, i: nat, cfg: Config, gaps: seq<string>)
    returns (gaps': seq<string>, p: nat)
    requires NoReentry(sc) && i < |text| && Placed(sc, text, i, cfg, gaps)
    ensures Step(sc, cfg, text[i]).Next? ==> Placed(sc, text, i + 1, Step(sc, cfg, text[i]).cfg, gaps')
    ensures Step(sc, cfg, text[i]).Stuck? ==> p <= i && LaidOut(Step(sc, cfg, text[i]).emitted, gaps', text[..p])
  {
    var c := text[i];
    if IsWhiteSpace(c) && cfg.state == sc.startState {
      gaps' := SkipPlaced(sc, text, i, cfg, gaps);
      p := 0;
    } else if Extends(sc, cfg.state, cfg.lexeme, c) {
      ExtendPlaced(sc, text, i, cfg, gaps, sc.transitions[(cfg.state, c)]);
      gaps', p := gaps, 0;
    } else if !Accepting(sc, cfg.state) {
      gaps', p := gaps, i - |cfg.lexeme|;
    } else if (sc.startState, c) in sc.transitions {
      RestartPlaced(sc, text, i, cfg, gaps, sc.transitions[(sc.startState, c)]);
      gaps', p := gaps + [[]], 0;
    } else if IsWhiteSpace(c) {
      DropPlaced(sc, text, i, cfg, gaps);
      gaps', p := gaps + [[c]], 0;
    } else {
      FlushPlaced(sc, text, i, cfg, gaps);
      gaps', p := gaps + [[]], i;
    }
  }

  lemma {:induction false} RunPlaced(sc: Scanner, text: string, i: nat, cfg: Config, gaps: seq<string>)
    returns (gaps': seq<string>, p: nat)
    requires NoReentry(sc) && i <= |text| && Placed(sc, text, i, cfg, gaps)
    ensures Run(sc, cfg, text, i).Ran? ==> Placed(sc, text, |text|, Run(sc, cfg, text, i).cfg, gaps')
    ensures Run(sc, cfg, text, i).Failed? ==>
      p <= |text| && LaidOut(Run(sc, cfg, text, i).emitted, gaps', text[..p])
    decreases |text| - i
  {
    if i == |text| {
      gaps', p := gaps, 0;
    } else {
      var g, q := StepPlaced(sc, text, i, cfg, gaps);
      match Step(sc, cfg, text[i])
      case Next(cfg') => gaps', p := RunPlaced(sc, text, i + 1, cfg', g);
      case Stuck(out) => gaps', p := g, q;
    }
  }

  /** A line's loop starts out placed. */
  lemma StartPlaced(sc: Scanner, text: string)
    ensures Placed(sc, text, 0, Config(sc.startState, [], []), [[]])
  {
    assert text[..0] == [];
  }

  /** After a loop that went through, the tokens `EndLine` keeps spell a
      prefix of the line. */
  lemma EndLinePlaced(sc: Scanner, text: string, cfg: Config, g: seq<string>)
    returns (gaps: seq<string>, p: nat)
    requires text != [] && Placed(sc, text, |text|, cfg, g)
    ensures p <= |text| && LaidOut(EndLine(sc, cfg, text).tokens, gaps, text[..p])
  {
    if Accepting(sc, cfg.state) {
      EndPlaced(sc, text, cfg, g);
      gaps, p := g + [[]], |text|;
    } else {
      gaps, p := g, |text| - |cfg.lexeme|;
    }
  }

  /** The tokens of a line spell a prefix of the comment-stripped line. */
  lemma LinePlaced(sc: Scanner, line: string) returns (gaps: seq<string>, p: nat)
    requires NoReentry(sc)
    ensures p <= |StripComment(line)| && LaidOut(ScanLine(sc, line).tokens, gaps, StripComment(line)[..p])
  {
    var text := StripComment(line);
    var start0 := Config(sc.startState, [], []);
    if text == [] {
      gaps, p := [[]], 0;
    } else {
      StartPlaced(sc, text);
      var g, q := RunPlaced(sc, text, 0, start0, [[]]);
      var r := Run(sc, start0, text, 0);
      if r.Ran? {
        assert ScanLine(sc, line) == EndLine(sc, r.cfg, text);
        gaps, p := EndLinePlaced(sc, text, r.cfg, g);
      } else {
        assert ScanLine(sc, line) == LineErr(r.emitted, r.pos);
        gaps, p := g, q;
      }
    }
  }

  /** At the end of a loop that went through, the buffer is the end of the
      line and, once flushed, the tokens spell the whole line. */
  lemma EndPlaced(sc: Scanner, text: string, cfg: Config, gaps: seq<string>)
    requires Placed(sc, text, |text|, cfg, gaps)
    ensures text[|text| - |cfg.lexeme|..] == cfg.lexeme
    ensures LaidOut(Flush(cfg), gaps + [[]], text)
  {
    FlushPlaced(sc, text, |text|, cfg, gaps);
    assert text[..|text|] == text;
  }

  lemma LinePrefixLayout(sc: Scanner, line: string)
    requires NoReentry(sc)
    ensures var text := StripComment(line);
      exists p :: 0 <= p <= |text| && Spells(ScanLine(sc, line).tokens, text[..p])
  {
    var gaps, p := LinePlaced(sc, line);
    assert Spells(ScanLine(sc, line).tokens, StripComment(line)[..p]);
  }

  /** The end of a line's loop that went through from the start state. */
  lemma LineEndLayout(sc: Scanner, line: string, cfg: Config)
    requires NoReentry(sc)
    requires StripComment(line) != []
    requires Run(sc, Config(sc.startState, [], []), StripComment(line), 0) == Ran(cfg)
    ensures Accepting(sc, cfg.state) ==>
      ScanLine(sc, line).LineOk? && Spells(ScanLine(sc, line).tokens, StripComment(line))
    ensures !Accepting(sc, cfg.state) ==>
      var text := StripComment(line);
      |cfg.lexeme| <= |text| && text[|text| - |cfg.lexeme|..] == cfg.lexeme &&
      Spells(ScanLine(sc, line).tokens, text[..|text| - |cfg.lexeme|]) &&
      (cfg.state == sc.startState ==> cfg.lexeme == [])
  {
    var text := StripComment(line);
    StartPlaced(sc, text);
    var g, q := RunPlaced(sc, text, 0, Config(sc.startState, [], []), [[]]);
    EndPlaced(sc, text, cfg, g);
    assert ScanLine(sc, line) == EndLine(sc, cfg, text);
    if Accepting(sc, cfg.state) {
      assert LaidOut(ScanLine(sc, line).tokens, g + [[]], text);
    } else {
      assert LaidOut(ScanLine(sc, line).tokens, g, text[..|text| - |cfg.lexeme|]);
    }
  }

  /** The round trip of a line. Whatever happens, the tokens, with blank gaps
      between them, spell a prefix of the comment-stripped line. When the
      loop goes through and ends in an accepting state, they spell the whole
      line. When it ends in another state, they spell the line up to the
      pending lexeme, which is what follows; that lexeme is empty in the
      start state. */
  lemma LineLayout(sc: Scanner, line: string)
    requires NoReentry(sc)
    ensures var text := StripComment(line);
      exists p :: 0 <= p <= |text| && Spells(ScanLine(sc, line).tokens, text[..p])
    ensures var text := StripComment(line);
      var r := Run(sc, Config(sc.startState, [], []), text, 0);
      text != [] && r.Ran? && Accepting(sc, r.cfg.state) ==>
        ScanLine(sc, line).LineOk? && Spells(ScanLine(sc, line).tokens, text)
    ensures var text := StripComment(line);
      var r := Run(sc, Config(sc.startState, [], []), text, 0);
      text != [] && r.Ran? && !Accepting(sc, r.cfg.state) ==>
        |r.cfg.lexeme| <= |text| && text[|text| - |r.cfg.lexeme|..] == r.cfg.lexeme &&
        Spells(ScanLine(sc, line).tokens, text[..|text| - |r.cfg.lexeme|]) &&
        (r.cfg.state == sc.startState ==> r.cfg.lexeme == [])
  {
    LinePrefixLayout(sc, line);
    var text := StripComment(line);
    var r := Run(sc, Config(sc.startState, [], []), text, 0);
    if text != [] && r.Ran? {
      LineEndLayout(sc, line, r.cfg);
    }
  }
}
