/** Small facts about sequences that the loops of the model use. */
module Seqs {
  lemma ConcatAssoc<T>(a: seq<T>, b: seq<T>, c: seq<T>)
    ensures a + b + c == a + (b + c)
  {
  }

  lemma AppendNil<T>(s: seq<T>)
    ensures s + [] == s
  {
  }

  lemma TakeAll<T>(s: seq<T>)
    ensures s[..|s|] == s
  {
  }

  lemma TakeNext<T>(s: seq<T>, k: nat)
    requires k < |s|
    ensures s[..k + 1] == s[..k] + [s[k]]
  {
  }

  /** Replacing the element at `k` leaves the prefix before it alone. */
  lemma TakeUpdate<T>(s: seq<T>, k: nat, v: T)
    requires k < |s|
    ensures s[k := v][..k + 1] == s[..k] + [v]
  {
  }
}
