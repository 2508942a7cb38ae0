/** What several modules share. */
module Common {

  datatype Option<T> = None | Some(value: T)

  const WORDS := 256

  /** A disk block as its 32-bit words. */
  type Block = b: seq<int> | |b| == WORDS witness seq(WORDS, _ => 0)

  lemma SubsetSize(s: set<nat>, t: set<nat>)
    requires s <= t
    ensures |s| <= |t|
  {
    assert t == s + (t - s);
  }
}
