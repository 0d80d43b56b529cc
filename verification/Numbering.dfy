/** The CSeq numbers of a dialog: 32 bits wide, handed out one after the other. */
module Numbering {
  import opened Prelude

  type CSeq = U32

  function Bump(x: CSeq): CSeq { if x + 1 == TWO32 then 0 else x + 1 }

  /** The number n places after c. */
  function Nth(c: CSeq, n: nat): CSeq { if n == 0 then c else Bump(Nth(c, n - 1)) }

  lemma {:induction false} NthWithoutWrap(c: CSeq, n: nat)
    requires c + n < TWO32
    ensures Nth(c, n) == c + n
  {
    if n > 0 { NthWithoutWrap(c, n - 1); }
  }
}
