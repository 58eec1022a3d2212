/** Node addresses and tagged links of the list in service/ll.c. */
module LlTypes {

  /** NULL, and the list head `q`. */
  const NIL := 0
  const HEAD := 1

  /** A link in a local variable: an address with its FLAGGED bit; `deref` never hands out the DEREF bit. */
  datatype Tag = Tag(a: nat, fl: bool)

  function One(a: nat, x: nat): int { if a == x then 1 else 0 }
}
