/** The language's fixed vocabulary: memory size, bracket pairs, built-in applications. */
module Constants {

  /** Number of addressable memory cells. */
  const DATA_SIZE: nat := 10000

  const APPLICATOR_OPEN: string := "["
  const APPLICATOR_CLOSE: string := "]"
  const APPLICATION_OPEN: string := "{"
  const APPLICATION_CLOSE: string := "}"
  const CONDITIONAL_OPEN: string := "("
  const CONDITIONAL_CLOSE: string := ")"

  const INCREMENT: string := "+"
  const DECREMENT: string := "-"
  const OUTPUT: string := "."
  const INPUT: string := ","
  const NOP: string := "_"

  /** The three opening bracket tokens, the keys of the bracket pair table. */
  predicate IsOpen(t: string) {
    t == APPLICATOR_OPEN || t == APPLICATION_OPEN || t == CONDITIONAL_OPEN
  }

  /** The three closing bracket tokens, the values of the bracket pair table. */
  predicate IsClose(t: string) {
    t == APPLICATOR_CLOSE || t == APPLICATION_CLOSE || t == CONDITIONAL_CLOSE
  }

  /** The closing bracket that matches an opening one. */
  function Pair(open: string): (close: string)
    requires IsOpen(open)
    ensures IsClose(close)
  {
    if open == APPLICATOR_OPEN then APPLICATOR_CLOSE
    else if open == APPLICATION_OPEN then APPLICATION_CLOSE
    else CONDITIONAL_CLOSE
  }

  /** A character of any of the six bracket tokens. */
  predicate IsBracketChar(c: char) {
    c == '[' || c == ']' || c == '{' || c == '}' || c == '(' || c == ')'
  }

  /** The five built-in applications. */
  predicate IsBuiltin(t: string) {
    t == INCREMENT || t == DECREMENT || t == OUTPUT || t == INPUT || t == NOP
  }
}
