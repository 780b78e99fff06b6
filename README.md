# xerlang scanner, modelled in Dafny

This project models the lexer of the xer language's compiler (`scanner.cc`,
`scanner.h`). The lexer has two halves.

- **Building the automaton.** `Scanner::Scanner` expands three constant
  text blocks into four parts:
  - an alphabet (a set of characters);
  - a set of state names;
  - a start state, which is the first state named;
  - a transition table keyed by a state and a character.

  The source keys the table by the string `fromState + c`. That key is
  injective, so the model keys it by the pair `(fromState, c)`.
- **Scanning.** `Scanner::scan` reads a file line by line and cuts each line
  at `//`. It runs the automaton with maximal munch over one lexeme buffer,
  and emits a token when the next character cannot extend the lexeme. When a
  DEC, HEX or BIN literal would leave the 32-bit range, it ends the token
  and restarts. Identifiers that are reserved words get the word's kind.
  The first error stops the whole scan.

The modules are:

- `CharClass`: the character predicates `isChar`, `isRange` and
  `isWhiteSpace`, and character ranges.
- `Numeric`: the digit readings `std::stoll` performs, and the 32-bit bounds.
- `Builder`: the constructor, generic over the blocks already split into
  whitespace-separated fields.
  - Each part is specified by a function: `AlphabetOf`, `StatesOf`/`StartOf`,
    `Table` and `Patched`.
  - It is computed by a method with the source's loops: `BuildAlphabet`,
    `BuildStates`, `BuildTransitions` and `Build`.
  - `FirstLookup` is an independent reference meaning of the first-wins
    table.
- `Tokens`: tokens and `formatToken`'s classification.
- `Tokenizer`: `scan` as functions and as a method.
  - The functions are `Step` (one iteration of the character loop), `Run`,
    `EndLine`, `ScanLine` and `ScanLines`.
  - The method `Scan` has the line loop of the source and is proved equal
    to `ScanLines`. The character loop is the method `ScanText`, proved
    equal to `Run`, and the guard checks are the method `Advances`.
- `ScanProperties`, `NumericBounds`: properties of any automaton, and the
  32-bit bound for any automaton whose table enters the numeric states the
  way xer's does.
- `Layout`: the exact round trip of a line. The tokens, with blank gaps
  between them, spell the comment-stripped line, on any automaton with no
  entry back into its start state.
- `Rescan`: the idempotence of classification. Every token a scan emits,
  scanned again alone as a line, is the same token with the same kind.
  This holds on any automaton whose restart agrees with a fresh scan and
  that has no entry back into its start state.
- `Xer`, `XerExamples`, `XerRescan`: the concrete blocks, the xer automaton,
  and facts about it. These include a worked scan of `2147483648`, and
  proofs that xer meets the conditions of `Layout` and `Rescan`.

Input and output are values: the input file is a `seq<string>` of its lines,
and the token file is the returned token sequence. An error is returned as
its line and position, not printed.

## Model

| member | source | states |
|---|---|---|
| CharClass.IsChar | scanner.cc:146 | a field names one character exactly when it is one character long |
| CharClass.IsRange | scanner.cc:147 | a field names a range exactly when it is three characters long, whatever its middle character |
| CharClass.IsWhiteSpace | scanner.cc:148 | the whitespace characters are space, tab and vertical tab, and no others (not newline, carriage return or form feed) |
| CharClass.Span | scanner.cc:92 | the characters the range loop from `lo` to `hi` inserts: exactly those with `lo <= c <= hi` |
| Numeric.ShortLexemeFits | scanner.cc:214-224 | a lexeme of at most two characters reads as at most 255 in any base up to 16, and its decimal value is within 32 bits |
| Builder.AlphabetMembership | scanner.cc:89-97 | a character is in the alphabet iff it is a space, tab or vertical tab, or some token names it: a one-character token names itself, and any longer token names the range from its first to its last character |
| Builder.InsertSpan | scanner.cc:92 | the range loop adds exactly the characters from `lo` to `hi` to the set |
| Builder.BuildAlphabet | scanner.cc:87-97 | the alphabet loop computes `AlphabetOf(tokens)` |
| Builder.BuildStates | scanner.cc:100-109 | the state set holds exactly the tokens of the block, so duplicates collapse; the start state is the first token, or empty when there is none |
| Builder.FieldsCharsMembership | scanner.cc:122-128 | a character is among a line's symbols iff one of its fields names it |
| Builder.ProvidesIff | scanner.cc:119-129 | a line yields an entry for `(q, c)` iff its first field is `q` and one of its middle fields names `c`; only length-1 and length-3 fields name characters, and the last field is the target |
| Builder.AppendSpan | scanner.cc:126 | the symbol range loop appends exactly the characters from `lo` to `hi` |
| Builder.LineSymbols | scanner.cc:117-128 | the symbols collected from a line are exactly the characters its fields after the first name (the target has been popped) |
| Builder.Insert | scanner.cc:129-134 | `std::map::insert`: a key already present keeps its value, and an absent key gets the new value |
| Builder.InsertSymbols | scanner.cc:129 | inserting `(from, c) -> to` for each symbol keeps every existing key's value (first insert wins) and adds the new keys |
| Builder.BuildTransitions | scanner.cc:114-130 | the line loop computes `Table(lines)` |
| Builder.TableIsFirstLookup | scanner.cc:114-130 | a key is in the table iff some line yields it, and it maps to the target of the first line that yields it |
| Builder.FirstLookupConcat | scanner.cc:114-130 | over two consecutive blocks of lines, the first block's entry wins |
| Builder.FirstLookupMisses | scanner.cc:114-130 | a key no line yields has no entry |
| Builder.FirstLookupAt | scanner.cc:114-130 | a key first yielded by line `i` maps to that line's target |
| Builder.TableKeepsEntries | scanner.cc:129 | later lines never overwrite an entry |
| Builder.Patched | scanner.cc:131-134 | the four patches keep every earlier entry, add exactly the keys `char0`/space and `notSTR`/space, tab and vertical tab, and give each absent key its target |
| Builder.Build | scanner.cc:85-139 | the constructor yields the alphabet, states, start state and patched table the block functions describe, and the four patch keys are present |
| Tokens.Classify | scanner.cc:156-178 | `formatToken`'s kind: state `0` becomes `DEC`, an `ID` whose text is a reserved word takes the word's kind, any other state is its own kind |
| Tokens.KeywordKindIsUpper | scanner.cc:158-178 | each of the 21 reserved words gets its own spelling in upper case as its kind, except `auto`, whose kind stays `auto` |
| Tokens.ClassifyKinds | scanner.cc:157-178 | state `0` gives kind `DEC`; an identifier spelling a reserved word gets the word's upper-case kind (`auto` stays as it is); any other identifier is `ID`; every other state is its own kind |
| Tokenizer.CommentStart | scanner.cc:198 | the result is the index of the first `//` in the line, or the line's length when there is none |
| Tokenizer.Overflows | scanner.cc:214-224 | the range guards: in DEC, the lexeme with `c` appended, read as signed decimal, is outside [INT_MIN, INT_MAX]; in BIN and HEX, the digits after the two-character prefix with `c` appended, read in base 2 or 16, exceed INT_MAX, and a lexeme shorter than that prefix trips the guard too, since `substr(2)` throws there |
| Tokenizer.Step | scanner.cc:207-249 | one character: whitespace in the start state is skipped; a character that extends the lexeme moves along the table's entry and is buffered; otherwise a non-accepting state stops the line, and an accepting one flushes a token and restarts from the start state's entry for the character, drops it if it is whitespace, or stops the line |
| Tokenizer.EndLine | scanner.cc:252-257 | at the end of a line, an accepting state flushes its token; otherwise the line is an error at its last position when the last character is not whitespace, and the partial lexeme is dropped when it is |
| Tokenizer.ScanLine | scanner.cc:194-257 | one line: cut at the first `//`; an empty rest yields nothing; otherwise run the character loop from the start state with an empty lexeme, and report a stuck character's 1-based position or apply the end-of-line check |
| Tokenizer.Advances | scanner.cc:211-224 | the checks of the `try` block before the move: `c` extends the lexeme iff it is in the alphabet, the table has an entry for it, and no range guard trips |
| Tokenizer.ScanText | scanner.cc:205-250 | the character loop over one comment-stripped line computes `Run` from the start state. At a stuck character it stops with the tokens so far and the character's 1-based position; otherwise it ends after the whole line with the final state, lexeme and tokens, the last character read being the line's last |
| Tokenizer.Scan | scanner.cc:185-258 | the nested loops produce exactly `ScanLines(sc, lines)`: the tokens and the first error's line and position |
| ScanProperties.RunSkipsBlank | scanner.cc:207-210 | whitespace read in the start state, at the start of a line or after a flush, is skipped: the state, the lexeme and the tokens already emitted stay as they are |
| ScanProperties.BlankLineEmitsNothing | scanner.cc:197-210 | a line that is empty or only whitespace once its comment is cut yields no token and no error |
| ScanProperties.BlankInputEmitsNothing | scanner.cc:193-258 | input whose every line is blank after cutting comments yields no tokens and no error |
| ScanProperties.ScanHalts | scanner.cc:241-257 | once a line has an error, the lines after it change nothing |
| ScanProperties.ScanConcat | scanner.cc:190-258 | lines are scanned independently: an error-free first part contributes its tokens, and the rest scans as if on its own, with its error's line number shifted by the length of the first part |
| ScanProperties.LineErrorInside | scanner.cc:205-257 | a line's error position is between 1 and the length of the comment-stripped line |
| ScanProperties.RunFailsAt | scanner.cc:205-248 | a failed run's position counts every character from 1, skipped whitespace included: the run over the characters before it goes through, and the step on the named character is stuck |
| ScanProperties.LineErrorAt | scanner.cc:205-257 | a line's error names either the character that stopped the loop, or the last character, when the line ends in a non-accepting state and that character is not whitespace |
| ScanProperties.ErrorPointsIntoLine | scanner.cc:190-257 | a reported error names a line from 1 to the number of lines, and a position within that line after its comment is cut |
| ScanProperties.StepKeepsLexemeInv | scanner.cc:210-237 | one character keeps the lexeme invariant: running the table from the start state over the buffer reaches the current state, and every emitted token is recognised |
| ScanProperties.RunKeepsLexemeInv | scanner.cc:207-250 | the character loop keeps the lexeme invariant over the whole line |
| ScanProperties.TokensRecognized | scanner.cc:207-253 | every emitted token's text is nonempty, leads the table from the start state to an accepting state (declared and not the start state), and has the kind `formatToken` gives that state and text |
| ScanProperties.MaximalMunch | scanner.cc:210-237 | a step either keeps the emitted tokens or flushes the lexeme. It flushes iff the character is not start-state whitespace, the state is accepting, and the character cannot extend the lexeme: it is outside the alphabet, has no entry, or trips a range guard. After a flush the lexeme is the character alone (restart from the start state), or empty in the start state for whitespace |
| ScanProperties.StepFails | scanner.cc:229-248 | a character stops the line iff it cannot extend the lexeme and either the state is not accepting, or the character has no start-state entry and is not whitespace |
| ScanProperties.StepRoundTrip | scanner.cc:207-249 | a step that goes on loses no character: the emitted tokens' texts followed by the lexeme, without whitespace, grow by exactly the character read (or by nothing when it is whitespace) |
| ScanProperties.RunRoundTrip | scanner.cc:205-250 | a character loop that goes through has read the rest of the line: the tokens' texts and the lexeme, without whitespace, grow by the rest of the line without whitespace |
| ScanProperties.LineRoundTrip | scanner.cc:194-257 | a line whose loop goes through and ends in an accepting state scans without error, and its tokens' texts spell the comment-stripped line without its whitespace; when the loop ends in a non-accepting state after whitespace, the line also scans without error, and the tokens' texts followed by the dropped lexeme spell it |
| Layout.ShapeNoReentry | scanner.cc:114-134 | on an automaton of numeric shape, no entry leads back into the start state |
| Layout.StepPlaced | scanner.cc:207-249 | on an automaton with no entry back into the start state, one character keeps the layout invariant: the tokens, with blank gaps, spell the line up to the lexeme, and the lexeme is the characters just before the position reached; a stuck step leaves the tokens spelling a prefix |
| Layout.RunPlaced | scanner.cc:205-250 | the character loop keeps the layout invariant over the rest of the line |
| Layout.LineLayout | scanner.cc:194-257 | on an automaton with no entry back into its start state, a line's tokens, with blank gaps between them, always spell a prefix of the comment-stripped line. When the loop goes through and ends accepting, they spell the whole line exactly, whitespace inside literals included. When it ends in another state, they spell the line up to the pending lexeme, which is the rest of the line and is empty in the start state |
| Rescan.StepKeepsRescan | scanner.cc:207-249 | on a restartable automaton, one character keeps the rescan invariant: the lexeme read alone from the start state reaches the current state, and every emitted token read alone reaches an accepting state whose kind is the token's; after a stuck step the tokens emitted rescan too |
| Rescan.LineRescans | scanner.cc:194-257 | on a restartable automaton, every token of a line, read alone from the start state, goes through to an accepting state that classifies it as it was classified |
| Rescan.NoMarkKept | scanner.cc:198-199 | a line with no `//` is kept whole by the comment cut |
| Rescan.StrippedNoMark | scanner.cc:198-199 | a comment-stripped line holds no `//` |
| Rescan.LineNoMark | scanner.cc:194-257 | on an automaton with no entry back into its start state, no token of a line holds `//` |
| Rescan.RescanAlone | scanner.cc:194-257 | a token whose text reads alone to its own kind, and holds no `//`, scans as a line of its own to exactly that token |
| Rescan.TokensScanAlone | scanner.cc:190-258 | idempotence of classification: on a restartable automaton with no entry back into its start state, every token a scan emits, scanned again alone as a line, is exactly that token, with the same kind and no error |
| NumericBounds.StepKeepsShape | scanner.cc:210-237 | on an automaton of numeric shape, one character keeps DEC lexemes within 32 bits and HEX/BIN digits after the prefix at most INT_MAX, along with every token already emitted |
| NumericBounds.NumericTokensFit | scanner.cc:214-224 | on an automaton of numeric shape, every emitted token the table leads to DEC has a value within [-2147483648, 2147483647], and every token it leads to HEX or BIN has a prefix and digits after it worth at most 2147483647 |
| NumericBounds.BuiltShape | scanner.cc:114-134 | a table built from lines that each enter their target as the guards need has numeric shape, since the patches enter only `char1` and `notSTR` |
| Xer.XerStart | scanner.cc:13-20 | the start state of the xer block is `s`, and `s` is a state |
| Xer.XerLinesOk | scanner.cc:23-80 | every transition line of the xer block is nonempty and enters the numeric states as the guards need |
| Xer.XerScanner | scanner.cc:85-139 | the xer automaton starts in `s`, which is one of its states, and has the four patch keys |
| Xer.XerBlanks | scanner.cc:95-97 | space, tab and vertical tab are in the xer alphabet |
| Xer.NewScanner | scanner.cc:141-144 | building the automaton from the three blocks yields the xer automaton |
| Xer.NotInAlphabet | scanner.cc:11 | a character outside the three ranges and unlike every single-character token is not in the xer alphabet, unless it is whitespace |
| Xer.XerAlphabetGaps | scanner.cc:11 | `#`, `$`, `@` and the backquote are not in the xer alphabet |
| Xer.XerNumericShape | scanner.cc:23-80 | the xer automaton has numeric shape |
| Xer.XerTokensFit | scanner.cc:214-224 | every DEC, HEX and BIN token the xer scanner emits fits in 32 bits |
| XerRescan.XerRestartable | scanner.cc:23-80 | every character the xer table starts a lexeme with from `s` is in the alphabet and is not whitespace, and `s` has no range guard |
| XerRescan.StartEntryChars | scanner.cc:114-130 | lines from `s` that name only alphabet characters yield entries from `s` only for such characters, none of them whitespace |
| XerRescan.XerNoReentry | scanner.cc:23-80 | no xer entry leads back into `s` |
| XerRescan.XerTokensScanAlone | scanner.cc:190-258 | every token the xer scanner emits, scanned again alone as a line, is exactly that token |
| XerRescan.XerLineLayout | scanner.cc:194-257 | a line the xer loop goes through, ending accepting, scans without error, and its tokens with blank gaps spell it exactly |
| Builder.TableProvided | scanner.cc:114-130 | every key of the table is yielded by some line of the block |
| XerExamples.DecEntries | scanner.cc:69-70 | digits 1-9 lead from `s` to DEC, and digits 0-9 from DEC to DEC |
| XerExamples.DecRuns | scanner.cc:212-227 | an unsigned DEC lexeme takes in a run of digits as long as its value stays at most INT_MAX |
| XerExamples.XerDecReady | scanner.cc:69-70 | the xer automaton starts in `s`; digits 1-9 lead from `s` to DEC; digits 0-9 are in the alphabet and lead from DEC to DEC |
| XerExamples.DecPrefix | scanner.cc:207-227 | a run of digits led by a nonzero one, read from the start state, becomes one DEC lexeme while its value stays within 32 bits |
| XerExamples.DecRestarts | scanner.cc:214-237 | a digit that would take a DEC lexeme out of the 32-bit range flushes it as a DEC token, and opens a new DEC lexeme holding the digit alone |
| XerExamples.SplitsOverflowingLiteral | scanner.cc:214-237 | the line `2147483648` scans as `DEC 214748364` followed by `DEC 8` |

## Left out

- File I/O. Opening `<stem>.xer` and `<stem>.tokens`, and writing the
  `KIND : text` lines, are replaced by a sequence of lines in and a token
  sequence out.
- `formatError`'s rendering (the message, the caret line, stderr). Only the
  error's line and position are kept.
- The singleton `instance`/`getInstance` and the deleted copy and move
  operations: the automaton is an immutable value built once, by
  `Xer.NewScanner`.
- `main.cc`, which only picks a file name and calls `scan`.
- Splitting the text blocks at whitespace (`istringstream >>`,
  `getline`). The builder takes the blocks already split into tokens and
  lines of fields. The xer blocks are written that way, one group per line
  or run of lines of the source.
- Transition lines with no fields, where `lineVector.front()` is undefined.
  The builder requires every line to have at least one field.
- `std::stoll` on digit strings it cannot read, or reads only in part. The
  guards are modelled as exact readings of the digits. The xer table enters
  DEC, HEX and BIN only on digits of their base, although the model does
  not prove that.
- The 8-bit `char` type. Ranges are expanded over Unicode scalar values,
  which matches the source's loops for the 7-bit ranges of the xer blocks.
  With a signed 8-bit `char`, the source's loop for a range ending at
  character 127 never ends.
- The message of the exception thrown for a character outside the
  alphabet. `"Invalid character encountered: " + c` adds the character's code to the
  address of the literal, so the message is undefined for most
  characters. The message is never shown, because the `catch` does not read
  it, so the model treats the throw as the intended one.
- ScanProperties.LineRoundTrip: the equality holds only modulo whitespace.
  It compares the texts with all whitespace removed, so it says nothing
  about whitespace inside string or character literals. It holds on every
  automaton. The exact round trip is `Layout.LineLayout`. That lemma needs
  an automaton with no entry back into its start state: where such an
  entry exists, whitespace read within a lexeme in the start state is
  skipped, and a token is then not a contiguous piece of the line.
  Neither lemma claims the tokens spell the whole line when it ends in a
  non-accepting state after whitespace, because the end-of-line check
  drops the pending lexeme without an error.
- Rescan.TokensScanAlone: holds only on automata whose every start-state
  entry is for a non-whitespace alphabet character and whose start state is
  not DEC, HEX or BIN (`Restartable`), with no entry back into the start
  state. The restart after a flush (scanner.cc:234-236) follows the start
  state's entry without the alphabet check or the range guards, so on
  other tables a token can classify differently when scanned alone. The
  xer automaton meets both conditions (`XerRescan.XerTokensScanAlone`).
- The commented-out dump of the table, and the unused includes.
- Builder.Build: does not state that the transition key `fromState + c` is
  a string. The pair `(fromState, c)` carries the same information, because
  equal concatenations with one trailing character have equal parts.
- Several points where the source differs from a cleaner description of it:
  - `std::map::insert` keeps the first entry for a key;
  - the first field of every transition line is its from-state, and
    indentation means nothing;
  - a state is accepting when it is declared and is not the start state;
  - the kind of `auto` stays lower case;
  - at the end of a line, a pending non-accepting state is an error only when
    the last character is not whitespace, and otherwise the partial lexeme
    is dropped silently;
  - alphabet tokens longer than one character and transition fields of
    other lengths are accepted without complaint.

  The model follows the code in each of these.
