/** Token classification, as `Scanner::formatToken` does it (scanner.cc). */
module Tokens {

  /** A token: its kind and the text it was scanned from. */
  datatype Token = Token(kind: string, text: string)

  /** The reserved words the scanner recognises, with the kind each gets. */
  const KeywordKinds: map<string, string> := map[
    "main" := "MAIN", "int" := "INT", "char" := "CHAR", "bool" := "BOOL",
    "auto" := "auto", "const" := "CONST", "return" := "RETURN", "if" := "IF",
    "elsif" := "ELSIF", "else" := "ELSE", "for" := "FOR", "while" := "WHILE",
    "do" := "DO", "break" := "BREAK", "delete" := "DELETE", "goto" := "GOTO",
    "new" := "NEW", "sizeof" := "SIZEOF", "true" := "TRUE", "false" := "FALSE",
    "NULL" := "NULL"]

  /** `upper` is `w` with its ASCII lower-case letters made upper case. */
  predicate UpperOf(w: string, upper: string)
  {
    |upper| == |w| &&
    forall i :: 0 <= i < |w| ==>
      upper[i] == if 'a' <= w[i] <= 'z' then (w[i] as int - 32) as char else w[i]
  }

  /** The kind a flushed lexeme gets from the state it ended in. */
  function Classify(state: string, text: string): string
  {
    if state == "0" then "DEC"
    else if state == "ID" && text in KeywordKinds then KeywordKinds[text]
    else state
  }

  /** Every reserved word's kind is the word in upper case, except `auto`,
      whose kind is `auto` itself. */
  lemma KeywordKindIsUpper(w: string)
    requires w in KeywordKinds
    ensures w == "auto" ==> KeywordKinds[w] == "auto"
    ensures w != "auto" ==> UpperOf(w, KeywordKinds[w])
  {
    if w == "main" || w == "int" || w == "char" || w == "bool" || w == "const" { UpperGroup1(w); }
    else if w == "return" || w == "if" || w == "elsif" || w == "else" || w == "for" { UpperGroup2(w); }
    else if w == "while" || w == "do" || w == "break" || w == "delete" || w == "goto" { UpperGroup3(w); }
    else if w == "new" || w == "sizeof" || w == "true" || w == "false" || w == "NULL" { UpperGroup4(w); }
  }

  /** What a flushed token's kind means: state `0` reads as a decimal, an
      identifier spelling a reserved word gets the word's upper-case kind
      (`auto` keeps its spelling), and every other token is named after its
      state. */
  lemma ClassifyKinds(state: string, text: string)
    ensures state == "0" ==> Classify(state, text) == "DEC"
    ensures state == "ID" && text == "auto" ==> Classify(state, text) == "auto"
    ensures state == "ID" && text in KeywordKinds && text != "auto" ==> UpperOf(text, Classify(state, text))
    ensures state == "ID" && text !in KeywordKinds ==> Classify(state, text) == "ID"
    ensures state != "0" && state != "ID" ==> Classify(state, text) == state
  {
    if state == "ID" && text in KeywordKinds { KeywordKindIsUpper(text); }
  }

  lemma UpperGroup1(w: string)
    requires w == "main" || w == "int" || w == "char" || w == "bool" || w == "const"
    ensures UpperOf(w, KeywordKinds[w])
  {
    if w == "main" { assert KeywordKinds[w] == "MAIN"; }
    else if w == "int" { assert KeywordKinds[w] == "INT"; }
    else if w == "char" { assert KeywordKinds[w] == "CHAR"; }
    else if w == "bool" { assert KeywordKinds[w] == "BOOL"; }
    else { assert KeywordKinds[w] == "CONST"; }
  }

  lemma UpperGroup2(w: string)
    requires w == "return" || w == "if" || w == "elsif" || w == "else" || w == "for"
    ensures UpperOf(w, KeywordKinds[w])
  {
    if w == "return" { assert KeywordKinds[w] == "RETURN"; }
    else if w == "if" { assert KeywordKinds[w] == "IF"; }
    else if w == "elsif" { assert KeywordKinds[w] == "ELSIF"; }
    else if w == "else" { assert KeywordKinds[w] == "ELSE"; }
    else { assert KeywordKinds[w] == "FOR"; }
  }

  lemma UpperGroup3(w: string)
    requires w == "while" || w == "do" || w == "break" || w == "delete" || w == "goto"
    ensures UpperOf(w, KeywordKinds[w])
  {
    if w == "while" { assert KeywordKinds[w] == "WHILE"; }
    else if w == "do" { assert KeywordKinds[w] == "DO"; }
    else if w == "break" { assert KeywordKinds[w] == "BREAK"; }
    else if w == "delete" { assert KeywordKinds[w] == "DELETE"; }
    else { assert KeywordKinds[w] == "GOTO"; }
  }

  lemma UpperGroup4(w: string)
    requires w == "new" || w == "sizeof" || w == "true" || w == "false" || w == "NULL"
    ensures UpperOf(w, KeywordKinds[w])
  {
    if w == "new" { assert KeywordKinds[w] == "NEW"; }
    else if w == "sizeof" { assert KeywordKinds[w] == "SIZEOF"; }
    else if w == "true" { assert KeywordKinds[w] == "TRUE"; }
    else if w == "false" { assert KeywordKinds[w] == "FALSE"; }
    else { assert KeywordKinds[w] == "NULL"; }
  }
}
