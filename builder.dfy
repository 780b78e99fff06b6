/** The automaton builder: the constructor `Scanner::Scanner` (scanner.cc),
    which expands the alphabet, state and transition blocks into the four
    fields of the scanner. The blocks are taken already split into
    whitespace-separated tokens (alphabet, states) and into lines of fields
    (transitions), so the builder is generic and the xer constants are one
    instance of it. */
module Builder {
  import opened CharClass
  import opened Options

  /** A transition key: the from-state and the character read. The source
      keys its map by the concatenation `from + c`, which is injective (equal
      keys have equal lengths, hence equal from-states and characters). */
  type Key = (string, char)

  /** The built automaton, immutable once built. */
  datatype Scanner = Scanner(
    alphabet: set<char>,
    states: set<string>,
    startState: string,
    transitions: map<Key, string>)

  /** Tokens produced by whitespace splitting are never empty. */
  predicate NonEmptyTokens(tokens: seq<string>)
  {
    forall i :: 0 <= i < |tokens| ==> tokens[i] != []
  }

  /** A transition line has at least its from-state field. */
  predicate NonEmptyLines(lines: seq<seq<string>>)
  {
    forall i :: 0 <= i < |lines| ==> lines[i] != []
  }

  // ---------------------------------------------------------------- alphabet

  /** The characters one alphabet token adds: itself when it is one character
      long, and otherwise every character from its first to its last one,
      whatever its length (a malformed token is not rejected). */
  function TokenChars(tok: string): set<char>
    requires tok != []
  {
    if IsChar(tok) then {tok[0]} else Span(tok[0], tok[|tok| - 1])
  }

  /** The characters the tokens add, token after token. */
  function TokensChars(tokens: seq<string>): set<char>
    requires NonEmptyTokens(tokens)
  {
    if tokens == [] then {}
    else TokensChars(tokens[..|tokens| - 1]) + TokenChars(tokens[|tokens| - 1])
  }

  /** The alphabet: the tokens' characters plus the three whitespace characters. */
  function AlphabetOf(tokens: seq<string>): set<char>
    requires NonEmptyTokens(tokens)
  {
    TokensChars(tokens) + {' ', '\t', '\U{000B}'}
  }

  /** Whether the alphabet token `tok` names character `c`. */
  predicate Covers(tok: string, c: char)
  {
    (|tok| == 1 && c == tok[0]) || (|tok| > 1 && tok[0] <= c <= tok[|tok| - 1])
  }

  lemma {:induction false} TokensCharsMembership(tokens: seq<string>, c: char)
    requires NonEmptyTokens(tokens)
    ensures c in TokensChars(tokens) <==> exists i :: 0 <= i < |tokens| && Covers(tokens[i], c)
  {
    if tokens != [] {
      var init, last := tokens[..|tokens| - 1], tokens[|tokens| - 1];
      TokensCharsMembership(init, c);
      assert c in TokenChars(last) <==> Covers(last, c);
      if c in TokensChars(init) {
        var i :| 0 <= i < |init| && Covers(init[i], c);
        assert tokens[i] == init[i];
      }
      if exists i :: 0 <= i < |tokens| && Covers(tokens[i], c) {
        var i :| 0 <= i < |tokens| && Covers(tokens[i], c);
        if i < |init| {
          assert init[i] == tokens[i];
        }
      }
    }
  }

  /** The alphabet holds exactly the whitespace characters and the characters
      the tokens name. */
  lemma AlphabetMembership(tokens: seq<string>, c: char)
    requires NonEmptyTokens(tokens)
    ensures c in AlphabetOf(tokens) <==>
      IsWhiteSpace(c) || exists i :: 0 <= i < |tokens| && Covers(tokens[i], c)
  {
    TokensCharsMembership(tokens, c);
  }

  /** The loop `for (char c = lo; c <= hi; c++) set.insert(c)`. */
  method InsertSpan(s: set<char>, lo: char, hi: char) returns (r: set<char>)
    ensures r == s + Span(lo, hi)
  {
    r := s;
    var k := lo as int;
    while k <= hi as int
      invariant lo as int <= k <= hi as int + 1 || k == lo as int
      invariant forall c :: c in r <==> c in s || (lo <= c && c as int < k)
    {
      if IsCode(k) {
        r := r + {k as char};
      }
      k := k + 1;
    }
  }

  /** The first loop of the constructor. */
  method BuildAlphabet(tokens: seq<string>) returns (alphabet: set<char>)
    requires NonEmptyTokens(tokens)
    ensures alphabet == AlphabetOf(tokens)
  {
    alphabet := {};
    var i := 0;
    while i < |tokens|
      invariant 0 <= i <= |tokens|
      invariant alphabet == TokensChars(tokens[..i])
    {
      var str := tokens[i];
      if IsChar(str) {
        alphabet := alphabet + {str[0]};
      } else {
        alphabet := InsertSpan(alphabet, str[0], str[|str| - 1]);
      }
      assert tokens[..i + 1][..i] == tokens[..i];
      i := i + 1;
    }
    assert tokens[..i] == tokens;
    alphabet := alphabet + {' '};
    alphabet := alphabet + {'\t'};
    alphabet := alphabet + {'\U{000B}'};
  }

  // ------------------------------------------------------------------ states

  /** Every state token is a state; repeated tokens collapse. */
  function StatesOf(tokens: seq<string>): set<string>
  {
    set i | 0 <= i < |tokens| :: tokens[i]
  }

  /** The first state token, or the empty string when there is none. */
  function StartOf(tokens: seq<string>): string
  {
    if tokens == [] then "" else tokens[0]
  }

  /** The second loop of the constructor, with its `readFirst` flag. */
  method BuildStates(tokens: seq<string>) returns (states: set<string>, startState: string)
    ensures forall s :: s in states <==> s in tokens
    ensures tokens != [] ==> startState == tokens[0]
    ensures tokens == [] ==> startState == ""
    ensures states == StatesOf(tokens) && startState == StartOf(tokens)
  {
    states := {};
    startState := "";
    var readFirst := false;
    var i := 0;
    while i < |tokens|
      invariant 0 <= i <= |tokens|
      invariant states == StatesOf(tokens[..i])
      invariant readFirst <==> i > 0
      invariant startState == StartOf(tokens[..i])
    {
      var str := tokens[i];
      assert tokens[..i + 1] == tokens[..i] + [str];
      states := states + {str};
      if !readFirst {
        startState := str;
        readFirst := true;
      }
      i := i + 1;
    }
    assert tokens[..i] == tokens;
  }

  // ------------------------------------------------------------- transitions

  /** The characters one symbol field names: a one-character field names that
      character, a three-character field the range from its first to its last
      character; a field of any other length names nothing. */
  function FieldChars(f: string): set<char>
  {
    if IsChar(f) then {f[0]} else if IsRange(f) then Span(f[0], f[2]) else {}
  }

  function FieldsChars(fields: seq<string>): set<char>
  {
    if fields == [] then {}
    else FieldsChars(fields[..|fields| - 1]) + FieldChars(fields[|fields| - 1])
  }

  /** The symbol fields of a line: all but its first and its last field. */
  function Middle(fields: seq<string>): seq<string>
  {
    if |fields| < 2 then [] else fields[1..|fields| - 1]
  }

  /** The target of a line: its last field. */
  function Target(fields: seq<string>): string
    requires fields != []
  {
    fields[|fields| - 1]
  }

  /** Whether line `fields` yields an entry for key `k`. */
  predicate Provides(fields: seq<string>, k: Key)
  {
    fields != [] && k.0 == fields[0] && k.1 in FieldsChars(Middle(fields))
  }

  /** Whether symbol field `f` names character `c`. */
  predicate Names(f: string, c: char)
  {
    (|f| == 1 && c == f[0]) || (|f| == 3 && f[0] <= c <= f[2])
  }

  lemma {:induction false} FieldsCharsMembership(fields: seq<string>, c: char)
    ensures c in FieldsChars(fields) <==> exists j :: 0 <= j < |fields| && Names(fields[j], c)
  {
    if fields != [] {
      var init, last := fields[..|fields| - 1], fields[|fields| - 1];
      FieldsCharsMembership(init, c);
      assert c in FieldChars(last) <==> Names(last, c);
      if c in FieldsChars(init) {
        var j :| 0 <= j < |init| && Names(init[j], c);
        assert fields[j] == init[j];
      }
      if exists j :: 0 <= j < |fields| && Names(fields[j], c) {
        var j :| 0 <= j < |fields| && Names(fields[j], c);
        if j < |init| {
          assert init[j] == fields[j];
        }
      }
    }
  }

  /** A line yields key `(q, c)` exactly when its first field is `q` and one
      of its symbol fields names `c`: a one-character field names itself, a
      three-character field the range from its first to its last character,
      and a field of any other length names nothing. */
  lemma ProvidesIff(fields: seq<string>, k: Key)
    ensures Provides(fields, k) <==>
      fields != [] && k.0 == fields[0] && exists j :: 1 <= j < |fields| - 1 && Names(fields[j], k.1)
  {
    FieldsCharsMembership(Middle(fields), k.1);
    if exists j :: 1 <= j < |fields| - 1 && Names(fields[j], k.1) {
      var j :| 1 <= j < |fields| - 1 && Names(fields[j], k.1);
      assert Middle(fields)[j - 1] == fields[j];
    }
    if exists j :: 0 <= j < |Middle(fields)| && Names(Middle(fields)[j], k.1) {
      var j :| 0 <= j < |Middle(fields)| && Names(Middle(fields)[j], k.1);
      assert Middle(fields)[j] == fields[j + 1];
    }
  }

  /** Line `fields` yields no entry for key `k`. */
  predicate Misses(fields: seq<string>, k: Key)
  {
    fields == [] || k.0 != fields[0] || forall j :: 1 <= j < |fields| - 1 ==> !Names(fields[j], k.1)
  }

  /** First-wins insertion (`std::map::insert`) of `(from, c) -> to` for every
      `c` in `cs`: keys already present keep their value. */
  function AddKeys(m: map<Key, string>, from: string, cs: set<char>, to: string): map<Key, string>
  {
    map k | k in m.Keys + (set c | c in cs :: (from, c)) :: if k in m then m[k] else to
  }

  /** The entries of the transition block, line after line. */
  function Table(lines: seq<seq<string>>): map<Key, string>
    requires NonEmptyLines(lines)
  {
    if lines == [] then map[]
    else
      var last := lines[|lines| - 1];
      AddKeys(Table(lines[..|lines| - 1]), last[0], FieldsChars(Middle(last)), Target(last))
  }

  /** Reference meaning of the table: the first line that yields key `k`
      decides its target. */
  function FirstLookup(lines: seq<seq<string>>, k: Key): Option<string>
    requires NonEmptyLines(lines)
  {
    if lines == [] then None
    else if Provides(lines[0], k) then Some(Target(lines[0]))
    else FirstLookup(lines[1..], k)
  }

  lemma {:induction false} FirstLookupSnoc(lines: seq<seq<string>>, last: seq<string>, k: Key)
    requires NonEmptyLines(lines) && last != []
    ensures NonEmptyLines(lines + [last])
    ensures FirstLookup(lines + [last], k) ==
      if FirstLookup(lines, k).Some? then FirstLookup(lines, k)
      else if Provides(last, k) then Some(Target(last))
      else None
  {
    assert NonEmptyLines(lines + [last]) by {
      forall i | 0 <= i < |lines + [last]| ensures (lines + [last])[i] != [] {
        if i < |lines| { assert (lines + [last])[i] == lines[i]; }
      }
    }
    if lines != [] {
      assert (lines + [last])[1..] == lines[1..] + [last];
      FirstLookupSnoc(lines[1..], last, k);
    }
  }

  /** The table built first-wins line after line holds exactly the keys some
      line yields, each mapped to the target of the FIRST line that yields it. */
  lemma {:induction false} TableIsFirstLookup(lines: seq<seq<string>>, k: Key)
    requires NonEmptyLines(lines)
    ensures k in Table(lines) <==> FirstLookup(lines, k).Some?
    ensures k in Table(lines) ==> Table(lines)[k] == FirstLookup(lines, k).value
  {
    if lines != [] {
      var init, last := lines[..|lines| - 1], lines[|lines| - 1];
      assert lines == init + [last];
      TableIsFirstLookup(init, k);
      FirstLookupSnoc(init, last, k);
    }
  }

  /** Looking a key up in two consecutive blocks of lines: the first block
      decides when it yields the key. */
  lemma {:induction false} FirstLookupConcat(a: seq<seq<string>>, b: seq<seq<string>>, k: Key)
    requires NonEmptyLines(a) && NonEmptyLines(b)
    ensures NonEmptyLines(a + b)
    ensures FirstLookup(a + b, k) == if FirstLookup(a, k).Some? then FirstLookup(a, k) else FirstLookup(b, k)
    decreases |a|
  {
    assert NonEmptyLines(a + b) by {
      forall i | 0 <= i < |a + b| ensures (a + b)[i] != [] {
        if i < |a| { assert (a + b)[i] == a[i]; } else { assert (a + b)[i] == b[i - |a|]; }
      }
    }
    if a == [] {
      assert a + b == b;
    } else {
      assert (a + b)[0] == a[0];
      assert (a + b)[1..] == a[1..] + b;
      assert NonEmptyLines(a[1..]) by {
        forall i | 0 <= i < |a[1..]| ensures a[1..][i] != [] { assert a[1..][i] == a[i + 1]; }
      }
      FirstLookupConcat(a[1..], b, k);
    }
  }

  /** A key that no line yields has no entry in the table. */
  lemma {:induction false} FirstLookupMisses(lines: seq<seq<string>>, k: Key)
    requires NonEmptyLines(lines)
    requires forall i :: 0 <= i < |lines| ==> Misses(lines[i], k)
    ensures FirstLookup(lines, k) == None
    decreases |lines|
  {
    if lines != [] {
      ProvidesIff(lines[0], k);
      assert NonEmptyLines(lines[1..]) by {
        forall i | 0 <= i < |lines[1..]| ensures lines[1..][i] != [] { assert lines[1..][i] == lines[i + 1]; }
      }
      forall i | 0 <= i < |lines[1..]| ensures Misses(lines[1..][i], k) { assert lines[1..][i] == lines[i + 1]; }
      FirstLookupMisses(lines[1..], k);
    }
  }

  /** A key first yielded by line `i` maps to that line's target. */
  lemma {:induction false} FirstLookupAt(lines: seq<seq<string>>, i: nat, k: Key)
    requires NonEmptyLines(lines) && i < |lines|
    requires forall j :: 0 <= j < i ==> Misses(lines[j], k)
    requires lines[i][0] == k.0 && exists j :: 1 <= j < |lines[i]| - 1 && Names(lines[i][j], k.1)
    ensures FirstLookup(lines, k) == Some(Target(lines[i]))
    decreases i
  {
    ProvidesIff(lines[0], k);
    if i > 0 {
      assert NonEmptyLines(lines[1..]) by {
        forall j | 0 <= j < |lines[1..]| ensures lines[1..][j] != [] { assert lines[1..][j] == lines[j + 1]; }
      }
      forall j | 0 <= j < i - 1 ensures Misses(lines[1..][j], k) { assert lines[1..][j] == lines[j + 1]; }
      assert lines[1..][i - 1] == lines[i];
      FirstLookupAt(lines[1..], i - 1, k);
    }
  }

  /** A key the lookup finds is yielded by some line. */
  lemma {:induction false} FirstLookupFrom(lines: seq<seq<string>>, k: Key)
    requires NonEmptyLines(lines) && FirstLookup(lines, k).Some?
    ensures exists i :: 0 <= i < |lines| && Provides(lines[i], k)
    decreases |lines|
  {
    if !Provides(lines[0], k) {
      assert NonEmptyLines(lines[1..]) by {
        forall j | 0 <= j < |lines[1..]| ensures lines[1..][j] != [] { assert lines[1..][j] == lines[j + 1]; }
      }
      FirstLookupFrom(lines[1..], k);
      var i :| 0 <= i < |lines[1..]| && Provides(lines[1..][i], k);
      assert lines[1..][i] == lines[i + 1];
    }
  }

  /** A key in the table is yielded by some line of the block. */
  lemma TableProvided(lines: seq<seq<string>>, k: Key)
    requires NonEmptyLines(lines) && k in Table(lines)
    ensures exists i :: 0 <= i < |lines| && Provides(lines[i], k)
  {
    TableIsFirstLookup(lines, k);
    FirstLookupFrom(lines, k);
  }

  /** An entry, once in the table, is never overwritten by later lines. */
  lemma {:induction false} TableKeepsEntries(lines: seq<seq<string>>, more: seq<seq<string>>, k: Key)
    requires NonEmptyLines(lines) && NonEmptyLines(more)
    requires k in Table(lines)
    ensures NonEmptyLines(lines + more)
    ensures k in Table(lines + more) && Table(lines + more)[k] == Table(lines)[k]
  {
    assert NonEmptyLines(lines + more) by {
      forall i | 0 <= i < |lines + more| ensures (lines + more)[i] != [] {
        if i < |lines| { assert (lines + more)[i] == lines[i]; }
        else { assert (lines + more)[i] == more[i - |lines|]; }
      }
    }
    if more != [] {
      var init := more[..|more| - 1];
      assert (lines + more)[..|lines + more| - 1] == lines + init;
      TableKeepsEntries(lines, init, k);
    } else {
      assert lines + more == lines;
    }
  }

  /** The loop `for (...) symbols += c` over one range field. */
  method AppendSpan(symbols: string, lo: char, hi: char) returns (r: string)
    ensures forall c :: c in r <==> c in symbols || lo <= c <= hi
  {
    r := symbols;
    var k := lo as int;
    while k <= hi as int
      invariant lo as int <= k <= hi as int + 1 || k == lo as int
      invariant forall c :: c in r <==> c in symbols || (lo <= c && c as int < k)
    {
      if IsCode(k) {
        r := r + [k as char];
      }
      k := k + 1;
    }
  }

  /** The symbol loop of one transition line, after `pop_back` removed the target. */
  method LineSymbols(lineVector: seq<string>) returns (symbols: string)
    ensures forall c :: c in symbols <==> c in FieldsChars(if |lineVector| < 1 then [] else lineVector[1..])
  {
    symbols := "";
    var i := 1;
    while i < |lineVector|
      invariant 1 <= i <= |lineVector| || i == 1
      invariant forall c :: c in symbols <==> c in FieldsChars(if i <= |lineVector| then lineVector[1..i] else [])
    {
      var s := lineVector[i];
      assert lineVector[1..i + 1] == lineVector[1..i] + [s];
      if IsChar(s) {
        symbols := symbols + s;
      } else if IsRange(s) {
        symbols := AppendSpan(symbols, s[0], s[|s| - 1]);
      }
      i := i + 1;
    }
    if |lineVector| >= 1 {
      assert lineVector[1..i] == lineVector[1..];
    }
  }

  /** One first-wins insertion adds the key to the keys inserted so far. */
  lemma AddKeysStep(m: map<Key, string>, from: string, cs: set<char>, c: char, to: string)
    ensures AddKeys(m, from, cs + {c}, to) ==
      var a := AddKeys(m, from, cs, to);
      if (from, c) in a then a else a[(from, c) := to]
  {
    var a := AddKeys(m, from, cs, to);
    var b := AddKeys(m, from, cs + {c}, to);
    var e := if (from, c) in a then a else a[(from, c) := to];
    assert b.Keys == e.Keys;
  }

  /** The insertion loop `for (const char c : symbols) transitions.insert(...)`. */
  method InsertSymbols(transitions: map<Key, string>, fromState: string, symbols: string, toState: string)
    returns (r: map<Key, string>)
    ensures r == AddKeys(transitions, fromState, Elems(symbols), toState)
  {
    r := transitions;
    var j := 0;
    while j < |symbols|
      invariant 0 <= j <= |symbols|
      invariant r == AddKeys(transitions, fromState, Elems(symbols[..j]), toState)
    {
      var c := symbols[j];
      assert Elems(symbols[..j + 1]) == Elems(symbols[..j]) + {c} by {
        assert symbols[..j + 1] == symbols[..j] + [c];
      }
      AddKeysStep(transitions, fromState, Elems(symbols[..j]), c, toState);
      if (fromState, c) !in r {
        r := r[(fromState, c) := toState];
      }
      j := j + 1;
    }
    assert symbols[..j] == symbols;
  }

  /** The third loop of the constructor: one pass over the transition lines. */
  method BuildTransitions(lines: seq<seq<string>>) returns (transitions: map<Key, string>)
    requires NonEmptyLines(lines)
    ensures transitions == Table(lines)
  {
    transitions := map[];
    var n := 0;
    while n < |lines|
      invariant 0 <= n <= |lines|
      invariant transitions == Table(lines[..n])
    {
      var lineVector := lines[n];
      var fromState := lineVector[0];
      var toState := lineVector[|lineVector| - 1];
      lineVector := lineVector[..|lineVector| - 1];
      var symbols := LineSymbols(lineVector);
      assert Elems(symbols) == FieldsChars(Middle(lines[n])) by {
        if |lineVector| >= 1 { assert lineVector[1..] == Middle(lines[n]); }
      }
      transitions := InsertSymbols(transitions, fromState, symbols, toState);
      assert lines[..n + 1][..n] == lines[..n];
      n := n + 1;
    }
    assert lines[..n] == lines;
  }

  // ----------------------------------------------------------------- patches

  /** First-wins insertion of a single entry. */
  function Insert(m: map<Key, string>, k: Key, v: string): (r: map<Key, string>)
    ensures r.Keys == m.Keys + {k}
    ensures forall k' :: k' in m ==> r[k'] == m[k']
    ensures k !in m ==> r[k] == v
  {
    if k in m then m else m[k := v]
  }

  /** The four entries the constructor inserts after the transition block,
      for whitespace that a field cannot hold: a space opens a character
      literal's body, and space, tab and vertical tab continue a string. */
  function Patched(m: map<Key, string>): (r: map<Key, string>)
    ensures forall k :: k in m ==> k in r && r[k] == m[k]
    ensures forall k :: k in r <==> k in m || k in PatchKeys()
    ensures PatchKeys() <= r.Keys
    ensures ("char0", ' ') !in m ==> r[("char0", ' ')] == "char1"
    ensures forall c | c in {' ', '\t', '\U{000B}'} && ("notSTR", c) !in m :: r[("notSTR", c)] == "notSTR"
  {
    var m := Insert(m, ("char0", ' '), "char1");
    var m := Insert(m, ("notSTR", ' '), "notSTR");
    var m := Insert(m, ("notSTR", '\t'), "notSTR");
    Insert(m, ("notSTR", '\U{000B}'), "notSTR")
  }

  function PatchKeys(): set<Key>
  {
    {("char0", ' '), ("notSTR", ' '), ("notSTR", '\t'), ("notSTR", '\U{000B}')}
  }

  // ------------------------------------------------------------ constructor

  /** The automaton the constructor builds from the three blocks. */
  function BuildSpec(alphabetTokens: seq<string>, stateTokens: seq<string>, lines: seq<seq<string>>): Scanner
    requires NonEmptyTokens(alphabetTokens) && NonEmptyLines(lines)
  {
    Scanner(AlphabetOf(alphabetTokens), StatesOf(stateTokens), StartOf(stateTokens), Patched(Table(lines)))
  }

  /** `Scanner::Scanner`: the three loops, then the four patches. */
  method Build(alphabetTokens: seq<string>, stateTokens: seq<string>, lines: seq<seq<string>>)
    returns (sc: Scanner)
    requires NonEmptyTokens(alphabetTokens) && NonEmptyLines(lines)
    ensures sc == BuildSpec(alphabetTokens, stateTokens, lines)
    ensures PatchKeys() <= sc.transitions.Keys
  {
    var alphabet := BuildAlphabet(alphabetTokens);
    var states, startState := BuildStates(stateTokens);
    var transitions := BuildTransitions(lines);
    transitions := Insert(transitions, ("char0", ' '), "char1");
    transitions := Insert(transitions, ("notSTR", ' '), "notSTR");
    transitions := Insert(transitions, ("notSTR", '\t'), "notSTR");
    transitions := Insert(transitions, ("notSTR", '\U{000B}'), "notSTR");
    sc := Scanner(alphabet, states, startState, transitions);
  }
}
