/** Facts about sequences of any element type, stated once so that proofs about concrete contents need not re-derive them. */
module Seqs {
  lemma HeadTail<T>(s: seq<T>)
    requires s != []
    ensures [s[0]] + s[1..] == s
  {
  }

  lemma AppendEmpty<T>(s: seq<T>)
    ensures s + [] == s
  {
  }
}
