/** The administrators' audit log: one global chain, written under a lock and verified page by page. */
module AuditLog {
  import opened Prelude
  import opened ChainCheck
  import opened HashChain

  datatype AuditContent = AuditContent(
    adminId: string,
    action: string,
    target: Option<string>,
    detail: Option<string>,
    ip: Option<string>,
    userAgent: Option<string>)

  /** `a` comes no later than `b` in the lookup's order: numbers descending with nulls last, then newest first. */
  predicate NoLater(a: Key, b: Key) {
    if a.number.None? then b.number.None? && b.at <= a.at
    else b.number.None? || b.number.value < a.number.value || (b.number.value == a.number.value && b.at <= a.at)
  }

  function PageEnd(offset: nat, size: nat, length: nat): nat
    requires offset <= length
  {
    if offset + size <= length then offset + size else length
  }

  class AuditLogService {
    const hash: (AuditContent, Digest) -> Digest
    var table: seq<Row<AuditContent>>

    /** Every stored row can be hashed again. */
    function H(): Hasher<AuditContent> { (c, p) => Some(hash(c, p)) }

    /** The columns that are hashed determine the digest and are determined by it. */
    lemma HashesAll()
      requires CollisionFree(hash)
      ensures Ideal(H())
    {
      var h := H();
      assert forall c, p :: h(c, p) == Some(hash(c, p));
    }

    /**
     What a scan reports if it differs from the logged table in contents only: nothing if it is that table, and
     otherwise the first row whose content differs.
    */
    ghost predicate ReportsEdits(scan: seq<Row<AuditContent>>, broken: Option<nat>) reads this {
      CollisionFree(hash) && Valid() && StrictKeys(table) && SameButContents(table, scan) ==>
        && (broken == None <==> scan == table)
        && forall k: nat :: FirstEdit(table, scan, k) ==> broken == Some(table[k].id)
    }

    /**
     For a collision-free hash and growing keys, any change of hashed columns is reported at the first row it touches.
    */
    lemma EditsAreReported(scan: seq<Row<AuditContent>>)
      ensures ReportsEdits(scan, RowId(scan, FirstBreak(H(), scan)))
    {
      if CollisionFree(hash) && Valid() && StrictKeys(table) && SameButContents(table, scan) {
        HashesAll();
        StrictlyBuiltIsChained(H(), table);
        hide *;
        EditsAreFound(H(), table, scan);
        ReportOf(scan);
      }
    }

    lemma ReportOf(scan: seq<Row<AuditContent>>)
      requires SameButContents(table, scan)
      requires FirstBreak(H(), scan) == None <==> scan == table
      requires forall k: nat :: FirstEdit(table, scan, k) ==> FirstBreak(H(), scan) == Some(k)
      ensures ReportsEdits(scan, RowId(scan, FirstBreak(H(), scan)))
    {
      hide FirstBreak, H, CollisionFree, Valid, StrictKeys;
    }

    ghost predicate Valid() reads this {
      Built(H(), table) && DistinctHashes(table)
    }

    constructor (hash: (AuditContent, Digest) -> Digest)
      ensures Valid() && this.hash == hash && table == []
    {
      this.hash := hash;
      table := [];
    }

    /** The query for the newest row. */
    method FindNewest() returns (last: nat)
      requires table != []
      ensures IsLast(table, last)
      ensures forall i :: 0 <= i < |table| ==>
                var x, newest := table[i].key, table[last].key;
                || (x.number.None? && newest.number.Some?)
                || (x.number.Some? && newest.number.Some? && x.number.value < newest.number.value)
                || (x.number == newest.number && x.at <= newest.at)
    {
      last := 0;
      for i := 1 to |table|
        invariant last < i && forall j :: 0 <= j < i ==> KeyLeq(table[j].key, table[last].key)
      {
        if !NoLater(table[last].key, table[i].key) {
          last := i;
        }
      }
    }

    method PreviousHash() returns (previous: Digest)
      ensures if table == [] then previous == GENESIS
              else exists last: nat :: IsLast(table, last) && previous == LinkOf(table[last])
    {
      previous := GENESIS;
      if table != [] {
        var last := FindNewest();
        if table[last].hash.Some? && table[last].hash.value != "" {
          previous := table[last].hash.value;
        }
        assert previous == LinkOf(table[last]);
      }
    }

    method HashTaken(digest: Digest) returns (taken: bool)
      ensures taken <==> exists k :: 0 <= k < |table| && table[k].hash == Some(digest)
    {
      for k := 0 to |table|
        invariant forall j :: 0 <= j < k ==> table[j].hash != Some(digest)
      {
        if table[k].hash == Some(digest) {
          return true;
        }
      }
      taken := false;
    }

    /** Appends one row. A hash that is already in the table violates its unique key and rolls the write back. */
    method Log(id: nat, key: Key, content: AuditContent) returns (logged: bool, ghost row: Row<AuditContent>)
      requires Valid()
      modifies this`table
      ensures Valid()
      ensures row.id == id && row.key == key && row.content == content && Linked(H(), old(table), row)
      ensures row.previous.Some? && row.hash == Some(hash(content, row.previous.value))
      ensures logged <==> forall k :: 0 <= k < |old(table)| ==> old(table)[k].hash != row.hash
      ensures table == if logged then old(table) + [row] else old(table)
    {
      var previousHash := PreviousHash();
      var digest := hash(content, previousHash);
      var next := Row(id, key, content, Some(previousHash), Some(digest));
      row := next;
      var taken := HashTaken(digest);
      logged := !taken;
      if logged {
        AppendBuilds(H(), table, row);
        table := table + [next];
      }
    }

    /**
     The paginated check over the table as the database orders it. It reports exactly the first row that does not
     continue its predecessor or does not fit its own hash, whatever the page size; a page size of zero reads nothing.
    */
    method VerifyChain(scan: seq<Row<AuditContent>>, batchSize: nat) returns (broken: Option<nat>)
      ensures broken == if batchSize == 0 then None else RowId(scan, FirstBreak(H(), scan))
      ensures batchSize > 0 ==> ReportsEdits(scan, broken)
    {
      EditsAreReported(scan);
      hide FirstBreakFrom, Good, ReportsEdits;
      var expectedPrevious := GENESIS;
      var offset := 0;
      while true
        invariant offset <= |scan| && (batchSize == 0 ==> offset == 0)
        invariant forall k :: 0 <= k < offset ==> Good(H(), scan, k)
        invariant expectedPrevious == Before(scan, offset)
        decreases |scan| - offset
      {
        var logs := scan[offset..PageEnd(offset, batchSize, |scan|)];
        if |logs| == 0 {
          break;
        }
        broken, expectedPrevious := CheckPage(H(), logs, expectedPrevious, scan, offset);
        if broken.Some? {
          return;
        }
        offset := offset + |logs|;
      }
      return None;
    }
  }
}
