/** Token kinds are stable: every token a scan emits, scanned again alone as
    a line of its own, comes back as the same single token. This needs two
    things of the table. The restart after a flush (scanner.cc) looks up the
    start state's entry for the character without checking the alphabet or
    the range guards, while a fresh scan checks both, so every start-state
    entry must be for an alphabet character that is not whitespace, and the
    start state must carry no range guard. And the token's text must hold no
    `//`, which holds when no entry leads back into the start state, since a
    token is then a piece of its comment-stripped line. */
module Rescan {
  import opened CharClass
  import opened Builder
  import opened Tokens
  import opened Tokenizer
  import opened ScanProperties
  import opened Layout

  /** What the restart needs of the table for a fresh scan to agree with it. */
  predicate Restartable(sc: Scanner)
  {
    sc.startState !in {"DEC", "HEX", "BIN"} &&
    forall c | (sc.startState, c) in sc.transitions :: c in sc.alphabet && !IsWhiteSpace(c)
  }

  /** Token `t`'s text, read alone from the start state, goes through into
      an accepting state with nothing emitted, and `t`'s kind is that
      state's classification of the text. */
  predicate Rescans(sc: Scanner, t: Token)
  {
    var r := Run(sc, Config(sc.startState, [], []), t.text, 0);
    r.Ran? && r.cfg.lexeme == t.text && r.cfg.emitted == [] &&
    Accepting(sc, r.cfg.state) && t.kind == Classify(r.cfg.state, t.text)
  }

  predicate AllRescan(sc: Scanner, ts: seq<Token>)
  {
    forall i :: 0 <= i < |ts| ==> Rescans(sc, ts[i])
  }

  /** The loop invariant: the lexeme, read alone from the start state,
      leads to the current state with nothing emitted, and every token
      emitted so far rescans. */
  predicate RescanInv(sc: Scanner, cfg: Config)
  {
    Run(sc, Config(sc.startState, [], []), cfg.lexeme, 0) == Ran(Config(cfg.state, cfg.lexeme, [])) &&
    AllRescan(sc, cfg.emitted)
  }

  /** A loop that goes through `s` goes on over `s + t` from where it ended. */
  lemma {:induction false} RunThrough(sc: Scanner, cfg: Config, s: string, t: string, i: nat)
    requires i <= |s|
    ensures Run(sc, cfg, s, i).Ran? ==> Run(sc, cfg, s + t, i) == Run(sc, Run(sc, cfg, s, i).cfg, s + t, |s|)
    decreases |s| - i
  {
    if i < |s| {
      assert (s + t)[i] == s[i];
      match Step(sc, cfg, s[i])
      case Next(cfg') => RunThrough(sc, cfg', s, t, i + 1);
      case Stuck(_) =>
    }
  }

  /** Reading one more character is one more step. */
  lemma RunSnoc(sc: Scanner, cfg: Config, s: string, c: char, next: Config)
    requires Run(sc, cfg, s, 0).Ran? && Step(sc, Run(sc, cfg, s, 0).cfg, c) == Next(next)
    ensures Run(sc, cfg, s + [c], 0) == Ran(next)
  {
    RunThrough(sc, cfg, s, [c], 0);
    assert (s + [c])[|s|] == c;
  }

  lemma FlushRescans(sc: Scanner, cfg: Config)
    requires RescanInv(sc, cfg) && Accepting(sc, cfg.state)
    ensures AllRescan(sc, Flush(cfg))
  {
    var f := Flush(cfg);
    forall i | 0 <= i < |f| ensures Rescans(sc, f[i]) {
      if i < |cfg.emitted| { assert f[i] == cfg.emitted[i]; }
    }
  }

  /** A restart on `c` is what a fresh scan of `c` alone does. */
  lemma RestartRescans(sc: Scanner, c: char)
    requires Restartable(sc) && (sc.startState, c) in sc.transitions
    ensures RescanInv(sc, Config(sc.transitions[(sc.startState, c)], [c], []))
  {
    var start0 := Config(sc.startState, [], []);
    var q := sc.transitions[(sc.startState, c)];
    assert !Overflows(sc.startState, [], c);
    assert [] + [c] == [c];
    assert Step(sc, start0, c) == Next(Config(q, [c], []));
    RunSnoc(sc, start0, [], c, Config(q, [c], []));
    assert [] + [c] == [c];
  }

  lemma StepKeepsRescan(sc: Scanner, cfg: Config, c: char)
    requires Restartable(sc) && RescanInv(sc, cfg)
    ensures match Step(sc, cfg, c)
      case Next(cfg') => RescanInv(sc, cfg')
      case Stuck(out) => AllRescan(sc, out)
  {
    var start0 := Config(sc.startState, [], []);
    if IsWhiteSpace(c) && cfg.state == sc.startState {
    } else if Extends(sc, cfg.state, cfg.lexeme, c) {
      var next := Config(sc.transitions[(cfg.state, c)], cfg.lexeme + [c], []);
      assert Step(sc, Config(cfg.state, cfg.lexeme, []), c) == Next(next);
      RunSnoc(sc, start0, cfg.lexeme, c, next);
    } else if Accepting(sc, cfg.state) {
      FlushRescans(sc, cfg);
      if (sc.startState, c) in sc.transitions {
        RestartRescans(sc, c);
      }
    }
  }

  lemma {:induction false} RunKeepsRescan(sc: Scanner, cfg: Config, text: string, i: nat)
    requires Restartable(sc) && i <= |text| && RescanInv(sc, cfg)
    ensures match Run(sc, cfg, text, i)
      case Ran(cfg') => RescanInv(sc, cfg')
      case Failed(out, _) => AllRescan(sc, out)
    decreases |text| - i
  {
    if i < |text| {
      StepKeepsRescan(sc, cfg, text[i]);
      match Step(sc, cfg, text[i])
      case Next(cfg') => RunKeepsRescan(sc, cfg', text, i + 1);
      case Stuck(out) =>
    }
  }

  lemma LineRescans(sc: Scanner, line: string)
    requires Restartable(sc)
    ensures AllRescan(sc, ScanLine(sc, line).tokens)
  {
    var text := StripComment(line);
    if text != [] {
      var start0 := Config(sc.startState, [], []);
      RunKeepsRescan(sc, start0, text, 0);
      match Run(sc, start0, text, 0)
      case Ran(cfg) =>
        if Accepting(sc, cfg.state) { FlushRescans(sc, cfg); }
      case Failed(out, _) =>
    }
  }

  // ------------------------------------------------------------ no comment

  /** `s` holds no `//`. */
  predicate NoMark(s: string)
  {
    forall j :: 0 <= j < |s| - 1 ==> !(s[j] == '/' && s[j + 1] == '/')
  }

  lemma StrippedNoMark(line: string)
    ensures NoMark(StripComment(line))
  {
    var text := StripComment(line);
    forall j | 0 <= j < |text| - 1 ensures !(text[j] == '/' && text[j + 1] == '/') {
      assert text[j] == line[j] && text[j + 1] == line[j + 1];
    }
  }

  /** A line without `//` keeps all of itself. */
  lemma NoMarkKept(s: string)
    requires NoMark(s)
    ensures StripComment(s) == s
  {
    assert s[..|s|] == s;
  }

  lemma NoMarkParts(x: string, y: string)
    requires NoMark(x + y)
    ensures NoMark(x) && NoMark(y)
  {
    forall j | 0 <= j < |x| - 1 ensures !(x[j] == '/' && x[j + 1] == '/') {
      assert (x + y)[j] == x[j] && (x + y)[j + 1] == x[j + 1];
    }
    forall j | 0 <= j < |y| - 1 ensures !(y[j] == '/' && y[j + 1] == '/') {
      assert (x + y)[|x| + j] == y[j] && (x + y)[|x| + j + 1] == y[j + 1];
    }
  }

  /** A token of a laid-out text is a piece of it, so it holds no `//` when
      the text holds none. */
  lemma {:induction false} JoinNoMark(ts: seq<Token>, gaps: seq<string>)
    requires |gaps| == |ts| + 1 && NoMark(Join(ts, gaps))
    ensures forall k :: 0 <= k < |ts| ==> NoMark(ts[k].text)
    decreases |ts|
  {
    if ts != [] {
      var n := |ts| - 1;
      var init := ts[..n];
      NoMarkParts(Join(init, gaps[..n + 1]) + ts[n].text, gaps[n + 1]);
      NoMarkParts(Join(init, gaps[..n + 1]), ts[n].text);
      JoinNoMark(init, gaps[..n + 1]);
      forall k | 0 <= k < |ts| ensures NoMark(ts[k].text) {
        if k < n { assert ts[k] == init[k]; }
      }
    }
  }

  /** Every token of a line holds no `//`. */
  lemma LineNoMark(sc: Scanner, line: string)
    requires NoReentry(sc)
    ensures forall k :: 0 <= k < |ScanLine(sc, line).tokens| ==> NoMark(ScanLine(sc, line).tokens[k].text)
  {
    var text := StripComment(line);
    var gaps, p := LinePlaced(sc, line);
    StrippedNoMark(line);
    assert text == text[..p] + text[p..];
    NoMarkParts(text[..p], text[p..]);
    JoinNoMark(ScanLine(sc, line).tokens, gaps);
  }

  // -------------------------------------------------------------- stable

  /** Token `t` scanned alone as a line is `t` again. */
  predicate ScansAlone(sc: Scanner, t: Token)
  {
    ScanLine(sc, t.text) == LineOk([t])
  }

  predicate AllAlone(sc: Scanner, ts: seq<Token>)
  {
    forall i :: 0 <= i < |ts| ==> ScansAlone(sc, ts[i])
  }

  lemma RescanAlone(sc: Scanner, t: Token)
    requires Rescans(sc, t) && NoMark(t.text)
    ensures ScansAlone(sc, t)
  {
    NoMarkKept(t.text);
    var r := Run(sc, Config(sc.startState, [], []), t.text, 0);
    assert t.text != [];
    assert Flush(r.cfg) == [] + [t];
  }

  lemma LineAlone(sc: Scanner, line: string)
    requires Restartable(sc) && NoReentry(sc)
    ensures AllAlone(sc, ScanLine(sc, line).tokens)
  {
    var ts := ScanLine(sc, line).tokens;
    LineRescans(sc, line);
    LineNoMark(sc, line);
    forall i | 0 <= i < |ts| ensures ScansAlone(sc, ts[i]) {
      RescanAlone(sc, ts[i]);
    }
  }

  lemma AppendAlone(sc: Scanner, a: seq<Token>, b: seq<Token>)
    requires AllAlone(sc, a) && AllAlone(sc, b)
    ensures AllAlone(sc, a + b)
  {
    forall i | 0 <= i < |a + b| ensures ScansAlone(sc, (a + b)[i]) {
      if i < |a| { assert (a + b)[i] == a[i]; } else { assert (a + b)[i] == b[i - |a|]; }
    }
  }

  lemma {:induction false} ScanFromAlone(sc: Scanner, lines: seq<string>, done: nat, out: seq<Token>)
    requires Restartable(sc) && NoReentry(sc)
    requires done <= |lines| && AllAlone(sc, out)
    ensures AllAlone(sc, ScanFrom(sc, lines, done, out).tokens)
    decreases |lines| - done
  {
    if done < |lines| {
      LineAlone(sc, lines[done]);
      AppendAlone(sc, out, ScanLine(sc, lines[done]).tokens);
      match ScanLine(sc, lines[done])
      case LineOk(toks) => ScanFromAlone(sc, lines, done + 1, out + toks);
      case LineErr(toks, pos) =>
    }
  }

  /** Every token a scan emits, scanned again as a line of its own, is that
      one token again, with the same kind. */
  lemma TokensScanAlone(sc: Scanner, lines: seq<string>)
    requires Restartable(sc) && NoReentry(sc)
    ensures forall i :: 0 <= i < |ScanLines(sc, lines).tokens| ==>
      ScanLine(sc, ScanLines(sc, lines).tokens[i].text) == LineOk([ScanLines(sc, lines).tokens[i]])
  {
    ScanFromAlone(sc, lines, 0, []);
    var ts := ScanLines(sc, lines).tokens;
    forall i | 0 <= i < |ts| ensures ScanLine(sc, ts[i].text) == LineOk([ts[i]]) {
      assert ScansAlone(sc, ts[i]);
    }
  }
}
