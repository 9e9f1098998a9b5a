/** The check of one page of a hash-chained table, shared by the administrators' and the agents' logs. */
module ChainCheck {
  import opened Prelude
  import opened HashChain

  function RowId<C>(s: seq<Row<C>>, k: Option<nat>): Option<nat>
    requires k.Some? ==> k.value < |s|
  {
    if k.None? then None else Some(s[k.value].id)
  }

  /** Checks the rows of one page. The hash to continue is passed in and out. */
  method CheckPage<C>(h: Hasher<C>, logs: seq<Row<C>>, previous: Digest,
                      ghost scan: seq<Row<C>>, ghost offset: nat)
    returns (broken: Option<nat>, last: Digest)
    requires offset + |logs| <= |scan| && logs == scan[offset..offset + |logs|] && previous == Before(scan, offset)
    requires forall k :: 0 <= k < offset ==> Good(h, scan, k)
    ensures broken.Some? ==> broken == RowId(scan, FirstBreak(h, scan))
    ensures broken.None? ==> (forall k :: 0 <= k < offset + |logs| ==> Good(h, scan, k))
                             && last == Before(scan, offset + |logs|)
  {
    hide FirstBreak, FirstBreakFrom;
    broken, last := None, previous;
    for i := 0 to |logs|
      invariant forall k :: 0 <= k < offset + i ==> Good(h, scan, k)
      invariant last == Before(scan, offset + i)
    {
      var row := logs[i];
      assert row == scan[offset + i];
      if row.previous != Some(last) {
        BreaksAt(h, scan, offset + i);
        return Some(row.id), last;
      }
      var expected := h(row.content, last);
      if expected.None? || row.hash != expected {
        BreaksAt(h, scan, offset + i);
        return Some(row.id), last;
      }
      last := expected.value;
    }
  }
}
