/** Facts about sequence prefixes used by the loops that walk a sequence. */
module Seqs {

  /** The next prefix is the current prefix and one more element. */
  lemma PrefixSnoc<T>(s: seq<T>, i: nat)
    requires i < |s|
    ensures s[..i + 1] == s[..i] + [s[i]]
    ensures s[..i + 1][..i] == s[..i]
  {
  }
}
