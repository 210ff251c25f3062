/** A prune that is given a stream's checkpoint respects that stream. */
module StreamRetention {
  import opened Keys
  import opened Prelude
  import opened Retention
  import opened StreamProtocol
  import opened StreamTheorems

  /** What such a prune removes never lies ahead of the stream, which may have moved on since
      its checkpoint was read; so the stream's guarantees about watermarks and rows to come
      hold across it. */
  lemma PruneIsGuarded(s: Sys, before: set<Key>, after: set<Key>, checkpoints: seq<string>, i: nat, c: Key)
    requires OnlyBehind(before, after, checkpoints)
    requires i < |checkpoints| && Names(checkpoints[i], c)
    requires Checkpoint(s).Some? && UpTo(c, Checkpoint(s).value)
    ensures Guarded(s, Remove(before - after))
  {
    forall k | k in before - after ensures Passed(s, k) {
      assert Before(k, c);
    }
  }
}
