/**
 The optimistic daily limit under concurrency: each payment finds or creates the usage row, remembers its version,
 and later updates it only if the version is unchanged and the limit leaves room.
*/
module DailyLimit {
  import opened Prelude

  datatype Usage = Usage(used: int, version: int)

  /** The row, the version each running payment has read, and the history of committed amounts. */
  datatype State = State(row: Option<Usage>, seen: map<nat, int>, committed: seq<nat>)

  datatype Step =
    | Find(payment: nat)
    | Create(payment: nat)
    | Commit(payment: nat, amount: nat)

  predicate Fits(u: Usage, version: int, limit: int, amount: int) {
    u.version == version && u.used <= limit - amount
  }

  /** A payment whose insert hits the unique key, or whose update matches no row, is rolled back. */
  function Next(s: State, limit: int, step: Step): State {
    match step
    case Find(p) => if s.row.Some? then s.(seen := s.seen[p := s.row.value.version]) else s
    case Create(p) =>
      if s.row.None? then s.(row := Some(Usage(0, 0)), seen := s.seen[p := 0]) else s.(seen := s.seen - {p})
    case Commit(p, amount) =>
      if p in s.seen && s.row.Some? && Fits(s.row.value, s.seen[p], limit, amount) then
        State(Some(Usage(s.row.value.used + amount, s.row.value.version + 1)), s.seen - {p}, s.committed + [amount])
      else s.(seen := s.seen - {p})
  }

  function AsInt(): nat -> int { (x: nat) => x }

  ghost predicate Inv(s: State, limit: int) {
    && (s.row.None? ==> s.committed == [] && s.seen == map[])
    && (s.row.Some? ==> s.row.value == Usage(Sum(s.committed, AsInt()), |s.committed|))
    && Sum(s.committed, AsInt()) <= limit
    && (forall p :: p in s.seen ==> 0 <= s.seen[p] <= |s.committed|)
  }

  lemma CommitKeepsInv(s: State, limit: int, p: nat, amount: nat)
    requires Inv(s, limit) && p in s.seen && s.row.Some? && Fits(s.row.value, s.seen[p], limit, amount)
    ensures Inv(Next(s, limit, Commit(p, amount)), limit)
  {
    SumAppend(s.committed, amount, AsInt());
    hide Sum;
  }

  lemma NextKeepsInv(s: State, limit: int, step: Step)
    requires Inv(s, limit)
    ensures Inv(Next(s, limit, step), limit)
  {
    if Next(s, limit, step).committed != s.committed {
      CommitKeepsInv(s, limit, step.payment, step.amount);
    } else {
      assert s.row.None? ==> Sum(s.committed, AsInt()) == 0;
      hide Sum;
    }
  }

  ghost function Run(s: State, limit: int, steps: seq<Step>): State
    decreases |steps|
  {
    if steps == [] then s else Next(Run(s, limit, steps[..|steps| - 1]), limit, steps[|steps| - 1])
  }

  /** In every interleaving the row counts every committed payment, loses none, and stays within the limit. */
  lemma {:induction false} LimitHolds(limit: nat, steps: seq<Step>)
    ensures var s := Run(State(None, map[], []), limit, steps);
            && Inv(s, limit)
            && Sum(s.committed, AsInt()) <= limit
            && (s.row.Some? ==> s.row.value == Usage(Sum(s.committed, AsInt()), |s.committed|))
    decreases |steps|
  {
    if steps != [] {
      LimitHolds(limit, steps[..|steps| - 1]);
      NextKeepsInv(Run(State(None, map[], []), limit, steps[..|steps| - 1]), limit, steps[|steps| - 1]);
    }
  }

  lemma {:induction false} HistoryGrows(s: State, limit: int, steps: seq<Step>)
    ensures s.committed <= Run(s, limit, steps).committed
    decreases |steps|
  {
    if steps != [] {
      HistoryGrows(s, limit, steps[..|steps| - 1]);
    }
  }

  lemma {:induction false} VersionKept(s: State, limit: int, steps: seq<Step>, p: nat)
    requires p in s.seen && forall i :: 0 <= i < |steps| ==> steps[i].payment != p
    ensures p in Run(s, limit, steps).seen && Run(s, limit, steps).seen[p] == s.seen[p]
    decreases |steps|
  {
    if steps != [] {
      VersionKept(s, limit, steps[..|steps| - 1], p);
    }
  }

  lemma {:induction false} RunKeepsInv(s: State, limit: int, steps: seq<Step>)
    requires Inv(s, limit)
    ensures Inv(Run(s, limit, steps), limit)
    decreases |steps|
  {
    if steps != [] {
      RunKeepsInv(s, limit, steps[..|steps| - 1]);
      NextKeepsInv(Run(s, limit, steps[..|steps| - 1]), limit, steps[|steps| - 1]);
    }
  }

  /** A payment commits exactly when no other one committed since it read the row and its amount still fits. */
  lemma CommitsIff(s: State, limit: int, p: nat, others: seq<Step>, amount: nat)
    requires Inv(s, limit) && s.row.Some?
    requires forall i :: 0 <= i < |others| ==> others[i].payment != p
    ensures var before := Run(Next(s, limit, Find(p)), limit, others);
            var after := Next(before, limit, Commit(p, amount));
            if before.committed == s.committed && Sum(before.committed, AsInt()) + amount <= limit
            then after.committed == before.committed + [amount] else after.committed == before.committed
  {
    var read := Next(s, limit, Find(p));
    var before := Run(read, limit, others);
    NextKeepsInv(s, limit, Find(p));
    RunKeepsInv(read, limit, others);
    HistoryGrows(read, limit, others);
    VersionKept(read, limit, others, p);
    RowStays(read, limit, others);
    assert before.committed == s.committed <==> |before.committed| == |s.committed|;
  }

  lemma {:induction false} RowStays(s: State, limit: int, steps: seq<Step>)
    requires s.row.Some?
    ensures Run(s, limit, steps).row.Some?
    decreases |steps|
  {
    if steps != [] {
      RowStays(s, limit, steps[..|steps| - 1]);
    }
  }
}
