/**
 The agents' operation log: one chain per agent in a shared table, and confirmations that rewrite a logged row.
*/
module AgentLog {
  import opened Prelude
  import opened ChainCheck
  import opened HashChain
  import opened AuditLog

  datatype AgentContent = AgentContent(
    agentId: string,
    action: string,
    scope: string,
    amount: Option<nat>,
    detail: Option<string>,
    result: string)

  type AgentRow = Row<AgentContent>

  const PENDING_CONFIRM := "PENDING_CONFIRM"
  const REJECTED := "REJECTED"
  const SUCCESS := "SUCCESS"
  const FAILED := "FAILED"

  /** What executing a confirmed tool yields: the detail written back with its result or its error. */
  datatype Execution = Executed(written: string) | Threw(written: string)

  datatype Decision = Reject | Confirm(tool: Option<Execution>)

  datatype ConfirmError = NotFound | AlreadyDecided | DetailCorrupt | ToolMissing | ToolFailed

  /** The rows of one agent, in table order. */
  function Chain(rows: seq<AgentRow>, agentId: string): (r: seq<AgentRow>)
    ensures forall k :: 0 <= k < |r| ==> r[k] in rows && r[k].content.agentId == agentId
  {
    if rows == [] then []
    else
      var rest := Chain(rows[..|rows| - 1], agentId);
      if rows[|rows| - 1].content.agentId == agentId then rest + [rows[|rows| - 1]] else rest
  }

  lemma ChainAppend(rows: seq<AgentRow>, row: AgentRow, agentId: string)
    ensures Chain(rows + [row], agentId) ==
            if row.content.agentId == agentId then Chain(rows, agentId) + [row] else Chain(rows, agentId)
  {
    assert (rows + [row])[..|rows|] == rows;
  }

  /** What a decision writes: only the result and the detail; hash and link stay as logged. */
  function Decided(content: AgentContent, decision: Decision): (r: AgentContent)
    requires decision.Confirm? ==> decision.tool.Some?
    ensures r.agentId == content.agentId && r.action == content.action
    ensures r.scope == content.scope && r.amount == content.amount
    ensures r.result != PENDING_CONFIRM
    ensures decision.Reject? ==> r.detail == content.detail && r.result == "REJECTED"
    ensures decision.Confirm? && decision.tool.value.Executed? ==>
              r.result == "SUCCESS" && r.detail == Some(decision.tool.value.written)
    ensures decision.Confirm? && decision.tool.value.Threw? ==>
              r.result == "FAILED" && r.detail == Some(decision.tool.value.written)
  {
    match decision
    case Reject => content.(result := REJECTED)
    case Confirm(tool) =>
      if tool.value.Executed? then content.(result := SUCCESS, detail := Some(tool.value.written))
      else content.(result := FAILED, detail := Some(tool.value.written))
  }

  /** `now` is `logged` with some pending rows decided. */
  ghost predicate DecidedFrom(logged: seq<AgentRow>, now: seq<AgentRow>) {
    && |now| == |logged|
    && forall k :: 0 <= k < |now| ==>
         && now[k] == logged[k].(content := now[k].content)
         && now[k].content.agentId == logged[k].content.agentId
         && (now[k].content != logged[k].content ==> IsDecided(logged, now, k))
  }

  predicate IsDecided(logged: seq<AgentRow>, now: seq<AgentRow>, k: nat)
    requires k < |logged| && k < |now|
  {
    logged[k].content.result == PENDING_CONFIRM && now[k].content.result != PENDING_CONFIRM
  }

  lemma {:induction false} ChainDecided(logged: seq<AgentRow>, now: seq<AgentRow>, agentId: string)
    requires DecidedFrom(logged, now)
    ensures DecidedFrom(Chain(logged, agentId), Chain(now, agentId))
  {
    if now != [] {
      var n := |now| - 1;
      forall k | 0 <= k < n && now[k].content != logged[k].content ensures IsDecided(logged[..n], now[..n], k) {
        assert IsDecided(logged, now, k);
      }
      ChainDecided(logged[..n], now[..n], agentId);
    }
  }

  /** `k` is the earliest decided row of a chain. */
  ghost predicate EarliestDecided(logged: seq<AgentRow>, now: seq<AgentRow>, k: nat)
    requires |logged| == |now|
  {
    k < |now| && IsDecided(logged, now, k) && forall j :: 0 <= j < k ==> !IsDecided(logged, now, j)
  }

  /**
   One agent's chain verifies as long as none of its operations was decided; afterwards the earliest decided row is
   reported as tampered with, although every row was written by the service itself.
  */
  lemma ConfirmationBreaksChain(h: Hasher<AgentContent>, logged: seq<AgentRow>, now: seq<AgentRow>,
                                scan: seq<AgentRow>)
    requires Ideal(h) && Built(h, logged) && StrictKeys(logged)
    requires DecidedFrom(logged, now) && IsScan(now, scan)
    ensures |scan| == |now|
    ensures FirstBreak(h, scan) == None <==> forall k :: 0 <= k < |now| ==> !IsDecided(logged, now, k)
    ensures forall k: nat :: EarliestDecided(logged, now, k) ==> FirstBreak(h, scan) == Some(k) && scan[k] == now[k]
  {
    StrictlyBuiltIsChained(h, logged);
    StrictScanIsUnique(now, scan);
    forall k | 0 <= k < |now| && (forall j :: 0 <= j < k ==> !IsDecided(logged, now, j))
      ensures Good(h, now, k) <==> !IsDecided(logged, now, k)
    {
      assert Good(h, logged, k);
    }
    forall k: nat | EarliestDecided(logged, now, k) ensures FirstBreak(h, now) == Some(k) {
      BreaksAt(h, now, k);
    }
    if k :| 0 <= k < |now| && IsDecided(logged, now, k) {
      var first := FirstDecided(logged, now, k);
      assert EarliestDecided(logged, now, first);
    }
  }

  lemma {:induction false} FirstDecided(logged: seq<AgentRow>, now: seq<AgentRow>, k: nat) returns (first: nat)
    requires |logged| == |now| && k < |now| && IsDecided(logged, now, k)
    ensures first <= k && EarliestDecided(logged, now, first)
  {
    first := k;
    if j :| 0 <= j < k && IsDecided(logged, now, j) {
      first := FirstDecided(logged, now, j);
    }
  }

  lemma LinkedToLogged(h: Hasher<AgentContent>, logged: seq<AgentRow>, now: seq<AgentRow>,
                       row: AgentRow)
    requires DecidedFrom(logged, now) && Linked(h, now, row)
    ensures Linked(h, logged, row)
  {
    if now != [] {
      var last: nat :| IsLast(now, last) && row.previous.value == LinkOf(now[last]);
      assert IsLast(logged, last);
    }
  }

  lemma LogKeepsBuilt(h: Hasher<AgentContent>, logged: seq<AgentRow>, now: seq<AgentRow>,
                      row: AgentRow)
    requires DecidedFrom(logged, now) && forall agentId :: Built(h, Chain(logged, agentId))
    requires Linked(h, Chain(now, row.content.agentId), row)
    ensures DecidedFrom(logged + [row], now + [row])
    ensures forall agentId :: Built(h, Chain(logged + [row], agentId))
  {
    forall k | 0 <= k < |now| && now[k].content != logged[k].content
      ensures IsDecided(logged + [row], now + [row], k)
    {
      assert IsDecided(logged, now, k);
    }
    forall agentId ensures Built(h, Chain(logged + [row], agentId)) {
      ChainAppend(logged, row, agentId);
      if row.content.agentId == agentId {
        ChainDecided(logged, now, agentId);
        LinkedToLogged(h, Chain(logged, agentId), Chain(now, agentId), row);
        AppendBuilds(h, Chain(logged, agentId), row);
      }
    }
  }

  /** The position right after the cursor's row. */
  predicate IsStart(scan: seq<AgentRow>, cursor: Option<nat>, start: nat) {
    start <= |scan| && if cursor.None? then start == 0 else 0 < start && scan[start - 1].id == cursor.value
  }

  class AgentLogService {
    const hash: (AgentContent, Digest) -> Digest
    /** Which stored details are well-formed JSON. */
    const parses: string -> bool
    var rows: seq<AgentRow>
    /** The rows as they were when logged. */
    ghost var logged: seq<AgentRow>

    predicate Readable(content: AgentContent) {
      content.detail.Some? ==> parses(content.detail.value)
    }

    /** The verification hashes the parsed detail, and gives up on one that does not parse. */
    function H(): Hasher<AgentContent> {
      (c, p) => if Readable(c) then Some(hash(c, p)) else None
    }

    lemma HashesAll()
      requires CollisionFree(hash)
      ensures Ideal(H())
    {
      var h := H();
      assert forall c, p :: h(c, p) == if Readable(c) then Some(hash(c, p)) else None;
    }

    /**
     What a scan reports if it differs from an agent's rows as logged in contents only: nothing if it is these rows, and
     otherwise the first row whose content differs.
    */
    ghost predicate ReportsEdits(agentId: string, scan: seq<AgentRow>, broken: Option<nat>) reads this {
      var chain := Chain(logged, agentId);
      CollisionFree(hash) && Valid() && StrictKeys(chain) && SameButContents(chain, scan) ==>
        && (broken == None <==> scan == chain)
        && forall k: nat :: FirstEdit(chain, scan, k) ==> broken == Some(chain[k].id)
    }

    /**
     For a collision-free hash and growing times, any change of hashed columns is reported at the first row it
     touches.
    */
    lemma EditsAreReported(agentId: string, scan: seq<AgentRow>)
      ensures ReportsEdits(agentId, scan, RowId(scan, FirstBreak(H(), scan)))
    {
      var chain := Chain(logged, agentId);
      if CollisionFree(hash) && Valid() && StrictKeys(chain) && SameButContents(chain, scan) {
        HashesAll();
        StrictlyBuiltIsChained(H(), chain);
        hide *;
        EditsAreFound(H(), chain, scan);
        ReportOf(agentId, scan);
      }
    }

    lemma ReportOf(agentId: string, scan: seq<AgentRow>)
      requires SameButContents(Chain(logged, agentId), scan)
      requires FirstBreak(H(), scan) == None <==> scan == Chain(logged, agentId)
      requires forall k: nat :: FirstEdit(Chain(logged, agentId), scan, k) ==> FirstBreak(H(), scan) == Some(k)
      ensures ReportsEdits(agentId, scan, RowId(scan, FirstBreak(H(), scan)))
    {
      hide FirstBreak, H, CollisionFree, Valid, StrictKeys, Chain;
    }

    ghost predicate Valid() reads this {
      && DecidedFrom(logged, rows)
      && (forall agentId :: Built(H(), Chain(logged, agentId)))
      && forall i, j :: 0 <= i < j < |rows| ==> rows[i].id != rows[j].id
    }

    constructor (hash: (AgentContent, Digest) -> Digest, parses: string -> bool)
      ensures Valid() && this.hash == hash && this.parses == parses && rows == [] && logged == []
    {
      this.hash, this.parses := hash, parses;
      rows := [];
      logged := [];
    }

    /** The query for the agent's newest row. */
    method PreviousHash(agentId: string) returns (previous: Digest)
      ensures var chain := Chain(rows, agentId);
              if chain == [] then previous == GENESIS
              else exists last: nat :: IsLast(chain, last) && previous == LinkOf(chain[last])
    {
      var chain := Chain(rows, agentId);
      if chain == [] {
        return GENESIS;
      }
      var last: nat := 0;
      for i := 1 to |chain|
        invariant last < i && forall j :: 0 <= j < i ==> KeyLeq(chain[j].key, chain[last].key)
      {
        if !KeyLeq(chain[i].key, chain[last].key) {
          last := i;
        }
      }
      assert IsLast(chain, last);
      previous := if chain[last].hash.None? || chain[last].hash.value == "" then GENESIS else chain[last].hash.value;
    }

    /** Logs an operation; its detail is written as JSON. */
    method Log(id: nat, at: int, content: AgentContent) returns (digest: Digest)
      requires Readable(content)
      requires Valid() && forall k :: 0 <= k < |rows| ==> rows[k].id != id
      modifies this`rows, this`logged
      ensures Valid()
      ensures |rows| == |old(rows)| + 1 && rows[..|old(rows)|] == old(rows)
      ensures rows[|old(rows)|].id == id && rows[|old(rows)|].key == Key(None, at)
      ensures rows[|old(rows)|].content == content && rows[|old(rows)|].hash == Some(digest)
      ensures Linked(H(), Chain(old(rows), content.agentId), rows[|old(rows)|])
      ensures logged == old(logged) + [rows[|old(rows)|]]
    {
      var previousHash := PreviousHash(content.agentId);
      digest := hash(content, previousHash);
      var row := Row(id, Key(None, at), content, Some(previousHash), Some(digest));
      LogKeepsBuilt(H(), logged, rows, row);
      rows := rows + [row];
      logged := logged + [row];
    }

    /** Confirms or rejects an operation that awaits its decision. */
    method ConfirmOp(id: nat, decision: Decision) returns (outcome: Result<(), ConfirmError>)
      requires Valid()
      modifies this`rows
      ensures Valid()
      ensures outcome == Err(NotFound) <==> forall k :: 0 <= k < |rows| ==> old(rows)[k].id != id
      ensures |rows| == |old(rows)|
      ensures forall k :: 0 <= k < |rows| ==>
                rows[k] == if old(rows)[k].id == id && old(rows)[k].content.result == "PENDING_CONFIRM"
                              && (decision.Confirm? ==> Readable(old(rows)[k].content) && decision.tool.Some?)
                           then old(rows)[k].(content := Decided(old(rows)[k].content, decision))
                           else old(rows)[k]
      ensures forall k :: 0 <= k < |rows| && rows[k].id == id ==>
                outcome == if old(rows)[k].content.result != "PENDING_CONFIRM" then Err(AlreadyDecided)
                           else if decision.Reject? then Ok(())
                           else if !Readable(old(rows)[k].content) then Err(DetailCorrupt)
                           else if decision.tool.None? then Err(ToolMissing)
                           else if decision.tool.value.Threw? then Err(ToolFailed)
                           else Ok(())
    {
      var k := 0;
      while k < |rows| && rows[k].id != id
        invariant k <= |rows| && forall j :: 0 <= j < k ==> rows[j].id != id
      {
        k := k + 1;
      }
      if k == |rows| {
        return Err(NotFound);
      }
      if rows[k].content.result != PENDING_CONFIRM {
        return Err(AlreadyDecided);
      }
      if decision.Confirm? && !Readable(rows[k].content) {
        return Err(DetailCorrupt);
      }
      if decision.Confirm? && decision.tool.None? {
        return Err(ToolMissing);
      }
      rows := rows[k := rows[k].(content := Decided(rows[k].content, decision))];
      outcome := if decision.Confirm? && decision.tool.value.Threw? then Err(ToolFailed) else Ok(());
    }

    /** The page after a cursor: the rows that follow the one with the cursor's id. */
    method PageAfter(scan: seq<AgentRow>, cursor: Option<nat>, take: nat) returns (logs: seq<AgentRow>)
      requires cursor.Some? ==> exists k :: 0 <= k < |scan| && scan[k].id == cursor.value
      ensures exists start: nat ::
                && IsStart(scan, cursor, start)
                && |logs| == (if take < |scan| - start then take else |scan| - start)
                && logs == scan[start..start + |logs|]
    {
      var from := 0;
      if cursor.Some? {
        while scan[from].id != cursor.value
          invariant from < |scan| && exists k :: from <= k < |scan| && scan[k].id == cursor.value
          decreases |scan| - from
        {
          from := from + 1;
        }
        from := from + 1;
      }
      assert IsStart(scan, cursor, from);
      logs := scan[from..PageEnd(from, take, |scan|)];
    }

    /** The cursor-paginated check of one agent's rows in the order of the database. */
    method VerifyChain(scan: seq<AgentRow>, batchSize: nat) returns (broken: Option<nat>)
      requires forall i, j :: 0 <= i < j < |scan| ==> scan[i].id != scan[j].id
      ensures broken == if batchSize == 0 then None else RowId(scan, FirstBreak(H(), scan))
      ensures batchSize > 0 ==> forall agentId :: ReportsEdits(agentId, scan, broken)
    {
      forall agentId ensures ReportsEdits(agentId, scan, RowId(scan, FirstBreak(H(), scan))) {
        EditsAreReported(agentId, scan);
      }
      hide FirstBreakFrom, Good, ReportsEdits;
      var cursor: Option<nat> := None;
      var previousHash := GENESIS;
      ghost var seen := 0;
      while true
        invariant seen <= |scan| && (batchSize == 0 ==> seen == 0)
        invariant IsStart(scan, cursor, seen)
        invariant forall k :: 0 <= k < seen ==> Good(H(), scan, k)
        invariant previousHash == Before(scan, seen)
        decreases |scan| - seen
      {
        var logs := PageAfter(scan, cursor, batchSize);
        if |logs| == 0 {
          break;
        }
        broken, previousHash := CheckPage(H(), logs, previousHash, scan, seen);
        if broken.Some? {
          return;
        }
        cursor := Some(logs[|logs| - 1].id);
        seen := seen + |logs|;
        if |logs| < batchSize {
          break;
        }
      }
      return None;
    }
  }
}
