/**
 The workflow of difference rows. Assigning, resolving and fixing automatically each read a row, check its status, and
 update it in a later call, so other updates may come in between.
*/
module DifferenceWorkflow {
  import opened Prelude
  import opened ReconciliationModel
  import opened ReconciliationService

  datatype Action =
    | Assign(assignee: string)
    | Resolve(text: string, resolver: string, requested: Option<DiffStatus>)
    | AutoFix(threshold: int)

  /** What the row that was read must look like. */
  predicate Permits(action: Action, seen: DiffRow) {
    match action
    case Assign(_) => seen.status == Pending
    case Resolve(_, _, _) => seen.status == Investigating
    case AutoFix(threshold) =>
      seen.diff.diffType == AmountMismatch && seen.status == Pending && seen.diff.amount <= threshold
  }

  function FinalStatus(requested: Option<DiffStatus>): (status: DiffStatus)
    ensures status.Resolved? || status.Ignored?
    ensures status.Ignored? <==> requested == Some(Ignored)
  {
    if requested == Some(Ignored) then Ignored else Resolved
  }

  /** The update, whatever the row looks like by now. */
  function Update(action: Action, row: DiffRow): DiffRow {
    match action
    case Assign(assignee) => row.(assignedTo := Some(assignee), status := Investigating)
    case Resolve(text, resolver, requested) =>
      row.(resolution := Some(text), resolvedBy := Some(resolver), status := FinalStatus(requested))
    case AutoFix(_) => row.(resolution := Some("small difference"), resolvedBy := Some("AUTO_FIX"), status := Ignored)
  }

  predicate Terminal(status: DiffStatus) { status.Resolved? || status.Ignored? }

  /** The moves the workflow promises. */
  predicate Edge(from: DiffStatus, to: DiffStatus) {
    || (from.Pending? && to.Investigating?)
    || (from.Investigating? && Terminal(to))
    || (from.Pending? && to.Ignored?)
  }

  predicate Path(from: DiffStatus, to: DiffStatus) {
    from == to || from.Pending? || (from.Investigating? && Terminal(to))
  }

  datatype Session = Session(id: nat, action: Action, seen: DiffRow)

  datatype Desk = Desk(rows: map<nat, DiffRow>, sessions: map<nat, Session>)

  datatype Event =
    | Read(session: nat, id: nat, action: Action)
    | Write(session: nat)

  predicate Writes(d: Desk, e: Event) {
    && e.Write? && e.session in d.sessions
    && Permits(d.sessions[e.session].action, d.sessions[e.session].seen)
    && d.sessions[e.session].id in d.rows
  }

  function Next(d: Desk, e: Event): Desk {
    match e
    case Read(s, id, action) =>
      if id in d.rows then d.(sessions := d.sessions[s := Session(id, action, d.rows[id])]) else d
    case Write(s) =>
      if Writes(d, e)
      then d.(rows := d.rows[d.sessions[s].id := Update(d.sessions[s].action, d.rows[d.sessions[s].id])],
              sessions := d.sessions - {s})
      else d
  }

  function Run(d: Desk, events: seq<Event>): Desk {
    if events == [] then d else Next(Run(d, events[..|events| - 1]), events[|events| - 1])
  }

  /** The row changed its status between a session's read and its write. */
  predicate Stale(d: Desk, e: Event) {
    Writes(d, e) && d.rows[d.sessions[e.session].id].status != d.sessions[e.session].seen.status
  }

  ghost predicate FreshRun(d: Desk, events: seq<Event>) {
    forall k :: 0 <= k < |events| ==> !Stale(Run(d, events[..k]), events[k])
  }

  /** An update moves its row along the workflow unless it is stale; a stale one never makes a move of its own kind. */
  lemma WriteFollowsEdgeIff(d: Desk, e: Event)
    requires Writes(d, e)
    ensures var s := d.sessions[e.session];
            var from, to := d.rows[s.id].status, Next(d, e).rows[s.id].status;
            && (!Stale(d, e) ==> Edge(from, to))
            && (Stale(d, e) && Edge(from, to) <==>
                  || (s.action.AutoFix? && from.Investigating?)
                  || (s.action.Resolve? && from.Pending? && to.Ignored?))
  {
  }

  /** A row loses its final status exactly when a stale update with another status reaches it. */
  lemma FinalStatusIsLostIff(d: Desk, e: Event, id: nat)
    requires id in d.rows && Terminal(d.rows[id].status)
    ensures Next(d, e).rows[id].status != d.rows[id].status <==>
            && Stale(d, e) && d.sessions[e.session].id == id
            && Update(d.sessions[e.session].action, d.rows[id]).status != d.rows[id].status
  {
  }

  /** Without stale updates every row moves along the workflow for the whole run, and final rows keep their status. */
  lemma {:induction false} FreshRunsFollowWorkflow(d: Desk, events: seq<Event>, id: nat)
    requires FreshRun(d, events) && id in d.rows
    ensures id in Run(d, events).rows && Path(d.rows[id].status, Run(d, events).rows[id].status)
    ensures Terminal(d.rows[id].status) ==> Run(d, events).rows[id].status == d.rows[id].status
  {
    hide Update, Permits, FinalStatus;
    if events != [] {
      var n := |events| - 1;
      assert forall k :: 0 <= k < n ==> events[..n][..k] == events[..k];
      FreshRunsFollowWorkflow(d, events[..n], id);
      assert !Stale(Run(d, events[..n]), events[n]);
      if Writes(Run(d, events[..n]), events[n]) {
        WriteFollowsEdgeIff(Run(d, events[..n]), events[n]);
      }
    }
  }

  /** The status an action leaves behind. */
  function Outcome(action: Action): DiffStatus {
    match action
    case Assign(_) => Investigating
    case Resolve(_, _, requested) => FinalStatus(requested)
    case AutoFix(_) => Ignored
  }

  ghost predicate RowStays(d: Desk, events: seq<Event>, id: nat)
    requires id in d.rows
  {
    forall k :: 0 <= k <= |events| ==> StandsAt(d, events, id, k)
  }

  ghost predicate StandsAt(d: Desk, events: seq<Event>, id: nat, k: nat)
    requires id in d.rows && k <= |events|
  {
    var rows := Run(d, events[..k]).rows;
    id in rows && rows[id].status == d.rows[id].status
  }

  /** The event leaves session `s` as it is: it belongs to another session, or reads a row that does not exist. */
  predicate Spares(d: Desk, e: Event, s: nat) {
    e.session != s || (e.Read? && e.id !in d.rows)
  }

  /**
   Event `k` is the write of a session that was open before the run, with nothing in between: it had read the row while
   its action was still allowed, and answers with another status than the row now has.
  */
  ghost predicate LateAnswer(d: Desk, events: seq<Event>, id: nat, k: nat)
    requires id in d.rows && k < |events|
  {
    && events[k].Write? && events[k].session in d.sessions
    && var s := d.sessions[events[k].session];
       && s.id == id && Permits(s.action, s.seen) && Outcome(s.action) != d.rows[id].status
       && forall j :: 0 <= j < k ==> Spares(d, events[j], events[k].session)
  }

  lemma {:induction false} SameRows(d: Desk, events: seq<Event>)
    ensures Run(d, events).rows.Keys == d.rows.Keys
  {
    if events != [] {
      SameRows(d, events[..|events| - 1]);
    }
  }

  /** A spared session is still open, and as it was. */
  lemma {:induction false} SparedSessionStays(d: Desk, events: seq<Event>, s: nat, k: nat)
    requires k <= |events| && s in d.sessions && forall j :: 0 <= j < k ==> Spares(d, events[j], s)
    ensures s in Run(d, events[..k]).sessions && Run(d, events[..k]).sessions[s] == d.sessions[s]
  {
    if k > 0 {
      SparedSessionStays(d, events, s, k - 1);
      SameRows(d, events[..k - 1]);
      assert events[..k][..k - 1] == events[..k - 1];
    }
  }

  /** While a row has its final status, only sessions opened before may still write to it. */
  lemma {:induction false} OpenSessionsAreOld(d: Desk, events: seq<Event>, id: nat, k: nat, s: nat)
    requires id in d.rows && Terminal(d.rows[id].status) && k <= |events|
    requires forall j :: 0 <= j < k ==> StandsAt(d, events, id, j)
    requires var open := Run(d, events[..k]).sessions;
             s in open && open[s].id == id && Permits(open[s].action, open[s].seen)
    ensures s in d.sessions && Run(d, events[..k]).sessions[s] == d.sessions[s]
    ensures forall j :: 0 <= j < k ==> Spares(d, events[j], s)
  {
    if k > 0 {
      assert events[..k][..k - 1] == events[..k - 1];
      assert StandsAt(d, events, id, k - 1);
      SameRows(d, events[..k - 1]);
      OpenSessionsAreOld(d, events, id, k - 1, s);
    } else {
      assert events[..0] == [];
    }
  }

  /** The first event to change a final status is a late answer. */
  lemma {:induction false} StandsUpTo(d: Desk, events: seq<Event>, id: nat, k: nat)
    requires id in d.rows && Terminal(d.rows[id].status) && k <= |events|
    requires forall j :: 0 <= j < k ==> !LateAnswer(d, events, id, j)
    ensures forall j :: 0 <= j <= k ==> StandsAt(d, events, id, j)
  {
    hide Next, Permits, Update;
    if k > 0 {
      StandsUpTo(d, events, id, k - 1);
      LateAnswerWrites(d, events, id, k - 1);
    } else {
      assert events[..0] == [];
    }
  }

  lemma LateAnswerWrites(d: Desk, events: seq<Event>, id: nat, k: nat)
    requires id in d.rows && Terminal(d.rows[id].status) && k < |events|
    requires forall j :: 0 <= j <= k ==> StandsAt(d, events, id, j)
    ensures StandsAt(d, events, id, k + 1) <==> !LateAnswer(d, events, id, k)
  {
    var before, e := Run(d, events[..k]), events[k];
    assert StandsAt(d, events, id, k);
    assert events[..k + 1][..k] == events[..k];
    FinalStatusIsLostIff(before, e, id);
    if LateAnswer(d, events, id, k) {
      SparedSessionStays(d, events, e.session, k);
    }
    if Stale(before, e) && before.sessions[e.session].id == id {
      OpenSessionsAreOld(d, events, id, k, e.session);
    }
  }

  /**
   A final status stands for a whole run exactly when no session that read the row while it was still open gets to
   write another answer. The sessions open at the start and the order of the events decide it.
  */
  lemma FinalStatusStandsIff(d: Desk, events: seq<Event>, id: nat)
    requires id in d.rows && Terminal(d.rows[id].status)
    ensures RowStays(d, events, id) <==> forall k :: 0 <= k < |events| ==> !LateAnswer(d, events, id, k)
  {
    hide StandsAt, LateAnswer, Run;
    if RowStays(d, events, id) {
      forall k | 0 <= k < |events| ensures !LateAnswer(d, events, id, k) {
        LateAnswerWrites(d, events, id, k);
      }
    } else if forall k :: 0 <= k < |events| ==> !LateAnswer(d, events, id, k) {
      StandsUpTo(d, events, id, |events|);
    }
  }

  /** Two people may resolve the same row: the second answer replaces the first. */
  lemma SecondAnswerWins(row: DiffRow, first: Action, second: Action)
    requires row.status == Investigating && first.Resolve? && second.Resolve?
    requires FinalStatus(first.requested) != FinalStatus(second.requested)
    ensures var d := Desk(map[row.id := row], map[]);
            var both := Next(Next(d, Read(1, row.id, first)), Read(2, row.id, second));
            var once := Next(both, Write(1));
            var twice := Next(once, Write(2));
            && row.id in once.rows && once.rows[row.id].status == FinalStatus(first.requested)
            && row.id in twice.rows && twice.rows[row.id].status == FinalStatus(second.requested)
            && !Stale(both, Write(1)) && Stale(once, Write(2))
  {
    var d := Desk(map[row.id := row], map[]);
    var both := Next(Next(d, Read(1, row.id, first)), Read(2, row.id, second));
    assert both.rows == map[row.id := row];
    assert both.sessions[1] == Session(row.id, first, row) && both.sessions[2] == Session(row.id, second, row);
    var once := Next(both, Write(1));
    assert once.sessions == both.sessions - {1};
    assert 2 in once.sessions && once.sessions[2] == Session(row.id, second, row);
  }

  // ---------------------------------------------------------------- the calls, run without interruption

  ghost predicate DistinctRowIds(rows: seq<DiffRow>) {
    forall i, j :: 0 <= i < j < |rows| ==> rows[i].id != rows[j].id
  }

  /** The list shows the row as a pending small mismatch. */
  ghost predicate Chosen(list: seq<DiffRow>, threshold: int, id: nat) {
    exists i :: 0 <= i < |list| && list[i].id == id && Small(list[i], threshold)
  }

  ghost predicate Small(row: DiffRow, threshold: int) {
    row.diff.diffType == AmountMismatch && row.status == Pending && row.diff.amount <= threshold
  }

  lemma ChosenStep(list: seq<DiffRow>, i: nat, threshold: int)
    requires i < |list|
    ensures forall id :: Chosen(list[..i + 1], threshold, id) <==>
              Chosen(list[..i], threshold, id) || (list[i].id == id && Small(list[i], threshold))
  {
    forall id | Chosen(list[..i], threshold, id) ensures Chosen(list[..i + 1], threshold, id) {
      var j :| 0 <= j < i && list[..i][j].id == id && Small(list[..i][j], threshold);
      assert list[..i + 1][j] == list[j];
    }
    assert list[..i + 1][i] == list[i];
    forall id | Chosen(list[..i + 1], threshold, id) && !(list[i].id == id && Small(list[i], threshold))
      ensures Chosen(list[..i], threshold, id)
    {
      var j :| 0 <= j < i + 1 && list[..i + 1][j].id == id && Small(list[..i + 1][j], threshold);
      assert list[..i][j] == list[j];
    }
  }

  /** The list shows the row as a pending small mismatch at a position whose risk event is written. */
  ghost predicate Recorded(list: seq<DiffRow>, threshold: int, unlogged: set<nat>, id: nat) {
    exists i :: 0 <= i < |list| && list[i].id == id && Small(list[i], threshold) && i !in unlogged
  }

  lemma RecordedStep(list: seq<DiffRow>, i: nat, threshold: int, unlogged: set<nat>)
    requires i < |list|
    ensures forall id :: Recorded(list[..i + 1], threshold, unlogged, id) <==>
              Recorded(list[..i], threshold, unlogged, id)
              || (list[i].id == id && Small(list[i], threshold) && i !in unlogged)
  {
    forall id
      ensures Recorded(list[..i + 1], threshold, unlogged, id) <==>
              Recorded(list[..i], threshold, unlogged, id)
              || (list[i].id == id && Small(list[i], threshold) && i !in unlogged)
    {
      RecordedAt(list, i, threshold, unlogged, id);
    }
  }

  lemma RecordedAt(list: seq<DiffRow>, i: nat, threshold: int, unlogged: set<nat>, id: nat)
    requires i < |list|
    ensures Recorded(list[..i + 1], threshold, unlogged, id) <==>
            Recorded(list[..i], threshold, unlogged, id)
            || (list[i].id == id && Small(list[i], threshold) && i !in unlogged)
  {
    hide Small;
    assert list[..i + 1][i] == list[i];
    if Recorded(list[..i], threshold, unlogged, id) {
      var j :| 0 <= j < i && list[..i][j].id == id && Small(list[..i][j], threshold) && j !in unlogged;
      assert list[..i + 1][j] == list[j];
    }
    if Recorded(list[..i + 1], threshold, unlogged, id) {
      var j :| 0 <= j < i + 1 && list[..i + 1][j].id == id && Small(list[..i + 1][j], threshold)
          && j !in unlogged;
      assert j < i ==> list[..i][j] == list[j];
    }
  }

  /** The columns an answer writes: an assignee, or a text, who gave it, and the final status. */
  ghost predicate Answered(action: Action, was: DiffRow, now: DiffRow) {
    match action
    case Assign(assignee) => now == was.(assignedTo := Some(assignee), status := Investigating)
    case Resolve(text, resolver, requested) =>
      && now == was.(resolution := Some(text), resolvedBy := Some(resolver), status := now.status)
      && now.status == if requested == Some(Ignored) then Ignored else Resolved
    case AutoFix(_) => false
  }

  /**
   Of the rows a match has just written, automatic fixing ignores exactly those of an item and an order that disagree
   while their amounts differ by no more than the threshold.
  */
  lemma AutoFixIgnoresIff(p: Platform, items: seq<Item>, channel: string, day: int, d: Diff, id: nat, threshold: int)
    requires d in Differences(p, items, channel, day)
    ensures Permits(AutoFix(threshold), NewRow(id, day, channel, d)) <==>
            exists k :: 0 <= k < |items| && SlightMismatch(p, items[k], d, threshold)
  {
    hide Differences, Lookup, Known;
    DifferencesExactly(p, items, channel, day, d);
    if d.diffType == AmountMismatch {
      assert ReportsMismatch(p, items, d);
      var k :| 0 <= k < |items| && Disagrees(p, items[k], d);
      assert SlightMismatch(p, items[k], d, threshold) <==> d.amount <= threshold;
    }
  }

  /** The item's number leads to an order with another amount or fee, and `d` says so. */
  ghost predicate Disagrees(p: Platform, item: Item, d: Diff) {
    var found := Lookup(p, item.channelOrderNo);
    && found.Some? && (found.value.amount != item.amount || found.value.fee != item.fee)
    && d.channelOrderNo == Some(item.channelOrderNo) && d.platformOrderNo == Some(found.value.orderNo)
    && d.diffType == AmountMismatch && d.amount == Distance(item.amount, found.value.amount)
  }

  ghost predicate SlightMismatch(p: Platform, item: Item, d: Diff, threshold: int) {
    && Disagrees(p, item, d)
    && var found := Lookup(p, item.channelOrderNo);
       found.value.amount - threshold <= item.amount <= found.value.amount + threshold
  }

  /** An item that differs in its fee alone makes a difference of zero, which is ignored under every threshold. */
  lemma FeeMismatchIsIgnored(p: Platform, item: Item, channel: string, day: int, id: nat, threshold: nat)
    requires var found := Lookup(p, item.channelOrderNo);
             found.Some? && found.value.amount == item.amount && found.value.fee != item.fee
    ensures |ItemDiff(p, item)| == 1 && ItemDiff(p, item)[0].amount == 0
    ensures Permits(AutoFix(threshold), NewRow(id, day, channel, ItemDiff(p, item)[0]))
  {
    hide Lookup;
  }

  class DifferenceTable {
    var rows: seq<DiffRow>

    constructor (initial: seq<DiffRow>)
      ensures rows == initial
    {
      rows := initial;
    }

    method Find(id: nat) returns (k: nat)
      ensures k <= |rows|
      ensures k < |rows| ==> rows[k].id == id
      ensures k == |rows| ==> forall j :: 0 <= j < |rows| ==> rows[j].id != id
    {
      k := 0;
      while k < |rows| && rows[k].id != id
        invariant k <= |rows| && forall j :: 0 <= j < k ==> rows[j].id != id
      {
        k := k + 1;
      }
    }

    /** `assignDifference` and `resolveDifference`: one row changes, and only from the status its action asks for. */
    method Perform(id: nat, action: Action) returns (r: Result<DiffRow, DifferenceError>)
      requires DistinctRowIds(rows) && !action.AutoFix?
      modifies this`rows
      ensures DistinctRowIds(rows) && |rows| == |old(rows)|
      ensures r == Err(DifferenceNotFound) <==> forall k :: 0 <= k < |old(rows)| ==> old(rows)[k].id != id
      ensures r == Err(StatusInvalid) <==>
              exists k :: 0 <= k < |rows| && old(rows)[k].id == id
                          && old(rows)[k].status != if action.Assign? then Pending else Investigating
      ensures forall k :: 0 <= k < |rows| ==>
                rows[k] == if r.Ok? && old(rows)[k].id == id then r.value else old(rows)[k]
      ensures r.Ok? ==> exists k :: 0 <= k < |rows| && old(rows)[k].id == id && r.value == Update(action, old(rows)[k])
                                    && Edge(old(rows)[k].status, r.value.status)
                                       && Answered(action, old(rows)[k], r.value)
    {
      var k := Find(id);
      if k == |rows| {
        return Err(DifferenceNotFound);
      }
      if !Permits(action, rows[k]) {
        return Err(StatusInvalid);
      }
      var updated := Update(action, rows[k]);
      rows := rows[k := updated];
      r := Ok(updated);
    }

    /**
     Fixes small differences from a list read earlier. A row ends up ignored exactly when the list shows it as a
     pending small mismatch, whatever has become of it since. It is reported only if its risk event could be written,
     which fails for the positions in `unlogged`.
    */
    method AutoFixAll(list: seq<DiffRow>, threshold: int, enabled: bool, unlogged: set<nat>) returns (fixed: seq<nat>)
      requires DistinctRowIds(rows)
      modifies this`rows
      ensures DistinctRowIds(rows) && |rows| == |old(rows)|
      ensures !enabled ==> fixed == []
      ensures forall k :: 0 <= k < |rows| ==>
                rows[k] == if enabled && Chosen(list, threshold, old(rows)[k].id)
                           then Update(AutoFix(threshold), old(rows)[k]) else old(rows)[k]
      ensures forall k :: 0 <= k < |rows| && rows[k] != old(rows)[k] ==>
                && rows[k].status == Ignored && rows[k].resolvedBy == Some("AUTO_FIX")
                && rows[k] == old(rows)[k].(status := Ignored, resolvedBy := rows[k].resolvedBy,
                                            resolution := rows[k].resolution)
      ensures forall id :: id in fixed <==>
                enabled && Recorded(list, threshold, unlogged, id)
                && exists k :: 0 <= k < |rows| && old(rows)[k].id == id
    {
      fixed := [];
      if !enabled {
        return;
      }
      for i := 0 to |list|
        invariant DistinctRowIds(rows) && |rows| == |old(rows)|
        invariant forall k :: 0 <= k < |rows| ==>
                    rows[k] == if Chosen(list[..i], threshold, old(rows)[k].id)
                               then Update(AutoFix(threshold), old(rows)[k]) else old(rows)[k]
        invariant forall id :: id in fixed <==>
                    Recorded(list[..i], threshold, unlogged, id) && exists k :: 0 <= k < |rows| && old(rows)[k].id == id
      {
        ChosenStep(list, i, threshold);
        RecordedStep(list, i, threshold, unlogged);
        if Permits(AutoFix(threshold), list[i]) {
          var k := Find(list[i].id);
          if k < |rows| {
            rows := rows[k := Update(AutoFix(threshold), rows[k])];
            if i !in unlogged {
              fixed := fixed + [list[i].id];
            }
          }
        }
      }
      assert list[..|list|] == list;
    }
  }
}
