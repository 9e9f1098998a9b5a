/**
 Hash-chained log tables. `h` hashes a row's content together with the previous hash; the theorems hold for every `h`
 that is injective and never yields the genesis value or the empty string.
*/
module HashChain {
  import opened Prelude

  type Digest = string

  /** The hash of a content and the previous hash; `None` if the content cannot be serialised again. */
  type Hasher<!C> = (C, Digest) -> Option<Digest>

  const GENESIS: Digest := "0000000000000000000000000000000000000000000000000000000000000000"

  /** The columns a table is ordered by: the sequence number, which may be null, then the creation time. */
  datatype Key = Key(number: Option<int>, at: int)

  datatype Row<C> = Row(id: nat, key: Key, content: C, previous: Option<Digest>, hash: Option<Digest>)

  ghost predicate Ideal<C(!new)>(h: Hasher<C>) {
    && (forall c, p, c', p' :: h(c, p).Some? && h(c, p) == h(c', p') ==> c == c' && p == p')
    && (forall c, p :: h(c, p).Some? ==> h(c, p).value != GENESIS && h(c, p).value != "")
  }

  /** What is asked of the hash function itself: no collisions, and never 64 zeros or nothing. */
  ghost predicate CollisionFree<C(!new)>(hash: (C, Digest) -> Digest) {
    && (forall c, p, c', p' :: hash(c, p) == hash(c', p') ==> c == c' && p == p')
    && (forall c, p :: hash(c, p) != "" &&
          hash(c, p) != "0000000000000000000000000000000000000000000000000000000000000000")
  }

  /** Ascending order with nulls first; the lookup of the newest row uses its exact reverse. */
  predicate KeyLeq(a: Key, b: Key) {
    if a.number.None? then b.number.Some? || a.at <= b.at
    else b.number.Some? && (a.number.value < b.number.value || (a.number.value == b.number.value && a.at <= b.at))
  }

  predicate KeyLess(a: Key, b: Key) { KeyLeq(a, b) && !KeyLeq(b, a) }

  // ---------------------------------------------------------------- verification

  function HashOr(d: Option<Digest>): Digest {
    if d.None? then GENESIS else d.value
  }

  /** The hash that row `k` has to continue. */
  function Before<C>(s: seq<Row<C>>, k: nat): Digest
    requires k <= |s|
  {
    if k == 0 then GENESIS else HashOr(s[k - 1].hash)
  }

  /** Row `k` continues the row before it, and its hash fits its content. */
  predicate Good<C>(h: Hasher<C>, s: seq<Row<C>>, k: nat)
    requires k < |s|
  {
    s[k].previous == Some(Before(s, k)) && s[k].hash.Some? && s[k].hash == h(s[k].content, Before(s, k))
  }

  ghost predicate Chained<C>(h: Hasher<C>, s: seq<Row<C>>) {
    forall k :: 0 <= k < |s| ==> Good(h, s, k)
  }

  /** The first row from `i` on that is not good. */
  function FirstBreakFrom<C>(h: Hasher<C>, s: seq<Row<C>>, i: nat): (r: Option<nat>)
    requires i <= |s|
    ensures r.None? <==> forall k :: i <= k < |s| ==> Good(h, s, k)
    ensures r.Some? ==> i <= r.value < |s| && !Good(h, s, r.value) && forall k :: i <= k < r.value ==> Good(h, s, k)
    decreases |s| - i
  {
    if i == |s| then None else if !Good(h, s, i) then Some(i) else FirstBreakFrom(h, s, i + 1)
  }

  function FirstBreak<C>(h: Hasher<C>, s: seq<Row<C>>): Option<nat> {
    FirstBreakFrom(h, s, 0)
  }

  lemma BreaksAt<C>(h: Hasher<C>, s: seq<Row<C>>, k: nat)
    requires k < |s| && !Good(h, s, k) && forall j :: 0 <= j < k ==> Good(h, s, j)
    ensures FirstBreak(h, s) == Some(k)
  {
  }

  // ---------------------------------------------------------------- appending

  /** Row `last` is one the lookup of the newest row may return; ties are the database's choice. */
  ghost predicate IsLast<C>(t: seq<Row<C>>, last: nat) {
    last < |t| && forall i :: 0 <= i < |t| ==> KeyLeq(t[i].key, t[last].key)
  }

  /** A missing or empty hash counts as the genesis value. */
  function LinkOf<C>(r: Row<C>): Digest {
    if r.hash.None? || r.hash.value == "" then GENESIS else r.hash.value
  }

  /** `row` is what a log call appends to table `t`. */
  ghost predicate Linked<C>(h: Hasher<C>, t: seq<Row<C>>, row: Row<C>) {
    && row.previous.Some?
    && row.hash.Some? && row.hash == h(row.content, row.previous.value)
    && if t == [] then row.previous.value == GENESIS
       else exists last: nat :: IsLast(t, last) && row.previous.value == LinkOf(t[last])
  }

  /** The table in the order its rows were written, one log call after the other. */
  ghost predicate Built<C>(h: Hasher<C>, t: seq<Row<C>>) {
    forall k :: 0 <= k < |t| ==> Linked(h, t[..k], t[k])
  }

  /** The unique key on the hash column. */
  ghost predicate DistinctHashes<C>(t: seq<Row<C>>) {
    forall i, j :: 0 <= i < j < |t| ==> t[i].hash != t[j].hash
  }

  lemma AppendBuilds<C>(h: Hasher<C>, t: seq<Row<C>>, row: Row<C>)
    requires Built(h, t) && Linked(h, t, row)
    ensures Built(h, t + [row])
  {
    forall k | 0 <= k < |t + [row]| ensures Linked(h, (t + [row])[..k], (t + [row])[k]) {
      assert (t + [row])[..k] == t[..k];
      assert t[..|t|] == t;
    }
  }

  ghost predicate StrictKeys<C>(t: seq<Row<C>>) {
    forall i, j :: 0 <= i < j < |t| ==> KeyLess(t[i].key, t[j].key)
  }

  ghost predicate Sorted<C>(s: seq<Row<C>>) {
    forall i, j :: 0 <= i < j < |s| ==> KeyLeq(s[i].key, s[j].key)
  }

  /** An order in which the database may return the whole table. */
  ghost predicate IsScan<C>(t: seq<Row<C>>, s: seq<Row<C>>) {
    multiset(s) == multiset(t) && Sorted(s)
  }

  /** With strictly growing keys the newest row is the one written last, so the table is a chain. */
  lemma StrictlyBuiltIsChained<C(!new)>(h: Hasher<C>, t: seq<Row<C>>)
    requires Ideal(h) && Built(h, t) && StrictKeys(t)
    ensures Chained(h, t)
  {
    forall k | 0 <= k < |t| ensures Good(h, t, k) {
      assert Linked(h, t[..k], t[k]);
      if k > 0 {
        var last: nat :| IsLast(t[..k], last) && t[k].previous.value == LinkOf(t[..k][last]);
        assert KeyLeq(t[..k][k - 1].key, t[last].key);
        assert last == k - 1;
        assert Linked(h, t[..k - 1], t[k - 1]);
      }
    }
  }

  /** The row with the greatest key ends every scan. */
  lemma ScanEnds<C>(t: seq<Row<C>>, s: seq<Row<C>>)
    requires StrictKeys(t) && IsScan(t, s) && t != []
    ensures s != [] && s[|s| - 1] == t[|t| - 1]
  {
    assert t[|t| - 1] in multiset(s);
    var i :| 0 <= i < |s| && s[i] == t[|t| - 1];
    assert s[|s| - 1] in multiset(t);
    var j :| 0 <= j < |t| && t[j] == s[|s| - 1];
  }

  lemma WithoutLast<C>(s: seq<Row<C>>)
    requires s != []
    ensures multiset(s[..|s| - 1]) == multiset(s) - multiset{s[|s| - 1]}
  {
    assert s == s[..|s| - 1] + [s[|s| - 1]];
  }

  lemma {:induction false} StrictScanIsUnique<C>(t: seq<Row<C>>, s: seq<Row<C>>)
    requires StrictKeys(t) && IsScan(t, s)
    ensures s == t
    decreases |t|
  {
    if t == [] {
      assert |s| == |multiset(s)| == |multiset(t)|;
    } else {
      ScanEnds(t, s);
      WithoutLast(s);
      WithoutLast(t);
      StrictScanIsUnique(t[..|t| - 1], s[..|s| - 1]);
      assert s == s[..|s| - 1] + [s[|s| - 1]] && t == t[..|t| - 1] + [t[|t| - 1]];
    }
  }

  /** Tables whose keys grow strictly verify, whatever the database's order among ties. */
  lemma LoggedTablesVerify<C(!new)>(h: Hasher<C>, t: seq<Row<C>>, s: seq<Row<C>>)
    requires Ideal(h) && Built(h, t) && StrictKeys(t) && IsScan(t, s)
    ensures FirstBreak(h, s) == None
  {
    StrictlyBuiltIsChained(h, t);
    StrictScanIsUnique(t, s);
  }

  // ---------------------------------------------------------------- exactly when a logged table verifies

  function Insert<C>(s: seq<Row<C>>, x: Row<C>): (r: seq<Row<C>>)
    ensures multiset(r) == multiset(s) + multiset{x}
  {
    if s == [] then [x]
    else if KeyLeq(s[|s| - 1].key, x.key) then s + [x]
    else
      assert s == s[..|s| - 1] + [s[|s| - 1]];
      Insert(s[..|s| - 1], x) + [s[|s| - 1]]
  }

  function SortRows<C>(t: seq<Row<C>>): (r: seq<Row<C>>)
    ensures multiset(r) == multiset(t)
  {
    if t == [] then []
    else
      assert t == t[..|t| - 1] + [t[|t| - 1]];
      Insert(SortRows(t[..|t| - 1]), t[|t| - 1])
  }

  lemma {:induction false} InsertSorts<C>(s: seq<Row<C>>, x: Row<C>)
    requires Sorted(s)
    ensures Sorted(Insert(s, x))
  {
    if s != [] && !KeyLeq(s[|s| - 1].key, x.key) {
      var front, last := s[..|s| - 1], s[|s| - 1];
      InsertSorts(front, x);
      forall i | 0 <= i < |Insert(front, x)| ensures KeyLeq(Insert(front, x)[i].key, last.key) {
        assert Insert(front, x)[i] in multiset(Insert(front, x));
        assert Insert(front, x)[i] in multiset(front) || Insert(front, x)[i] == x;
      }
    }
  }

  lemma {:induction false} SortingSorts<C>(t: seq<Row<C>>)
    ensures IsScan(t, SortRows(t))
  {
    if t != [] {
      SortingSorts(t[..|t| - 1]);
      InsertSorts(SortRows(t[..|t| - 1]), t[|t| - 1]);
    }
  }

  /** In a built table a row continues a row written before it. */
  lemma ContinuesEarlier<C(!new)>(h: Hasher<C>, t: seq<Row<C>>, i: nat, j: nat)
    requires Ideal(h) && Built(h, t) && DistinctHashes(t) && i < |t| && j < |t|
    requires t[i].hash.Some? && t[j].previous == t[i].hash
    ensures i < j
  {
    assert Linked(h, t[..j], t[j]) && Linked(h, t[..i], t[i]);
    if j > 0 {
      var l: nat :| IsLast(t[..j], l) && t[j].previous.value == LinkOf(t[..j][l]);
      assert Linked(h, t[..l], t[l]);
    }
  }

  /** No two rows of a chain have the same hash. */
  lemma {:induction false} ChainHashesDiffer<C(!new)>(h: Hasher<C>, s: seq<Row<C>>, i: nat, j: nat)
    requires Ideal(h) && Chained(h, s) && i < j < |s|
    ensures s[i].hash != s[j].hash
  {
    assert Good(h, s, i) && Good(h, s, j) && Good(h, s, j - 1);
    if i > 0 {
      assert Good(h, s, i - 1);
      ChainHashesDiffer(h, s, i - 1, j - 1);
    }
  }

  lemma {:induction false} Occurs<T>(s: seq<T>, i: nat, j: nat)
    requires i < j < |s| && s[i] == s[j]
    ensures multiset(s)[s[i]] >= 2
  {
    assert s == s[..i] + [s[i]] + s[i + 1..j] + [s[j]] + s[j + 1..];
  }

  lemma {:induction false} OccursTwice<T>(s: seq<T>, x: T) returns (i: nat, j: nat)
    requires multiset(s)[x] >= 2
    ensures i < j < |s| && s[i] == s[j] == x
  {
    assert s == [s[0]] + s[1..];
    if s[0] == x {
      assert x in multiset(s[1..]);
      j :| 0 < j < |s| && s[j] == x;
      i := 0;
    } else {
      i, j := OccursTwice(s[1..], x);
      i, j := i + 1, j + 1;
    }
  }

  /** A table that verifies in some order has no repeated hash. */
  lemma VerifyingHashesDiffer<C(!new)>(h: Hasher<C>, t: seq<Row<C>>, s: seq<Row<C>>)
    requires Ideal(h) && IsScan(t, s) && Chained(h, s)
    ensures DistinctHashes(t)
  {
    forall i, j | 0 <= i < j < |t| ensures t[i].hash != t[j].hash {
      var a, b;
      if t[i] == t[j] {
        Occurs(t, i, j);
        a, b := OccursTwice(s, t[i]);
      } else {
        assert t[i] in multiset(s) && t[j] in multiset(s);
        a :| 0 <= a < |s| && s[a] == t[i];
        b :| 0 <= b < |s| && s[b] == t[j];
      }
      ChainHashesDiffer(h, s, if a < b then a else b, if a < b then b else a);
    }
  }

  function PositionOf<C(==)>(t: seq<Row<C>>, r: Row<C>): (k: nat)
    requires r in t
    ensures k < |t| && t[k] == r
  {
    if t[0] == r then 0 else PositionOf(t[1..], r) + 1
  }

  predicate Increasing(p: seq<nat>) {
    forall i :: 0 <= i < |p| - 1 ==> p[i] < p[i + 1]
  }

  lemma {:induction false} AtLeast(p: seq<nat>, k: nat)
    requires k < |p| && Increasing(p)
    ensures p[k] >= k
  {
    if k > 0 { AtLeast(p, k - 1); }
  }

  lemma {:induction false} AtMost(p: seq<nat>, k: nat)
    requires k < |p| && Increasing(p) && forall i :: 0 <= i < |p| ==> p[i] < |p|
    ensures p[k] <= k
    decreases |p| - k
  {
    if k < |p| - 1 { AtMost(p, k + 1); }
  }

  /** Where each row of a scan was written. */
  function Positions<C(==)>(t: seq<Row<C>>, s: seq<Row<C>>): (p: seq<nat>)
    requires forall k :: 0 <= k < |s| ==> s[k] in t
    ensures |p| == |s| && forall k :: 0 <= k < |p| ==> p[k] < |t| && t[p[k]] == s[k]
  {
    if s == [] then [] else [PositionOf(t, s[0])] + Positions(t, s[1..])
  }

  lemma ScanHolds<C>(t: seq<Row<C>>, s: seq<Row<C>>)
    requires multiset(s) == multiset(t)
    ensures |s| == |t| && forall k :: 0 <= k < |s| ==> s[k] in t
  {
    assert |s| == |multiset(s)| == |multiset(t)| == |t|;
    forall k | 0 <= k < |s| ensures s[k] in t {
      assert s[k] in multiset(s);
    }
  }

  /** Each row of an order that verifies was written before the next one. */
  lemma PositionsIncrease<C(!new)>(h: Hasher<C>, t: seq<Row<C>>, s: seq<Row<C>>)
    requires Ideal(h) && Built(h, t) && DistinctHashes(t) && Chained(h, s) && forall k :: 0 <= k < |s| ==> s[k] in t
    ensures Increasing(Positions(t, s))
  {
    hide Ideal, Built, DistinctHashes, PositionOf, Positions;
    var p := Positions(t, s);
    forall k | 0 <= k < |p| - 1 ensures p[k] < p[k + 1] {
      assert Good(h, s, k) && Good(h, s, k + 1);
      ContinuesEarlier(h, t, p[k], p[k + 1]);
    }
  }

  /** An order that verifies is the order of writing. */
  lemma VerifyingScanIsWriteOrder<C(!new)>(h: Hasher<C>, t: seq<Row<C>>, s: seq<Row<C>>)
    requires Ideal(h) && Built(h, t) && IsScan(t, s) && Chained(h, s)
    ensures s == t
  {
    VerifyingHashesDiffer(h, t, s);
    ScanHolds(t, s);
    hide *;
    PositionsIncrease(h, t, s);
    InPlace(t, s, Positions(t, s));
  }

  /** Rows written at increasing positions, as many as there are, stand where they were written. */
  lemma InPlace<C>(t: seq<Row<C>>, s: seq<Row<C>>, p: seq<nat>)
    requires |p| == |s| == |t| && Increasing(p) && forall k :: 0 <= k < |p| ==> p[k] < |t| && t[p[k]] == s[k]
    ensures s == t
  {
    hide Increasing;
    forall k | 0 <= k < |t| ensures s[k] == t[k] {
      AtLeast(p, k);
      AtMost(p, k);
      assert p[k] == k;
    }
  }

  lemma SwappedScan<C>(t: seq<Row<C>>, k: nat)
    requires Sorted(t) && k + 1 < |t| && KeyLeq(t[k + 1].key, t[k].key)
    ensures IsScan(t, t[k := t[k + 1]][k + 1 := t[k]])
  {
    var s := t[k := t[k + 1]][k + 1 := t[k]];
    assert t == t[..k] + [t[k], t[k + 1]] + t[k + 2..];
    assert s == t[..k] + [t[k + 1], t[k]] + t[k + 2..];
    assert multiset([t[k], t[k + 1]]) == multiset([t[k + 1], t[k]]);
    forall i, j | 0 <= i < j < |s| ensures KeyLeq(s[i].key, s[j].key) {
    }
  }

  ghost predicate AlwaysVerifies<C(!new)>(h: Hasher<C>, t: seq<Row<C>>) {
    forall s :: IsScan(t, s) ==> FirstBreak(h, s) == None
  }

  lemma AlwaysVerifyingIsSorted<C(!new)>(h: Hasher<C>, t: seq<Row<C>>)
    requires Ideal(h) && Built(h, t) && AlwaysVerifies(h, t)
    ensures Sorted(t)
  {
    SortingSorts(t);
    assert FirstBreak(h, SortRows(t)) == None;
    VerifyingScanIsWriteOrder(h, t, SortRows(t));
  }

  lemma AlwaysVerifyingHasNoTie<C(!new)>(h: Hasher<C>, t: seq<Row<C>>, k: nat)
    requires Ideal(h) && Built(h, t) && AlwaysVerifies(h, t) && Sorted(t) && k + 1 < |t|
    ensures KeyLess(t[k].key, t[k + 1].key)
  {
    if KeyLeq(t[k + 1].key, t[k].key) {
      SwappedScan(t, k);
      var s := t[k := t[k + 1]][k + 1 := t[k]];
      assert FirstBreak(h, s) == None;
      VerifyingHashesDiffer(h, t, s);
      assert s[k] == t[k + 1];
      VerifyingScanIsWriteOrder(h, t, s);
    }
  }

  lemma AlwaysVerifyingIsStrict<C(!new)>(h: Hasher<C>, t: seq<Row<C>>)
    requires Ideal(h) && Built(h, t) && AlwaysVerifies(h, t)
    ensures StrictKeys(t)
  {
    hide Ideal, Built, AlwaysVerifies;
    AlwaysVerifyingIsSorted(h, t);
    forall i, j | 0 <= i < j < |t| ensures KeyLess(t[i].key, t[j].key) {
      AlwaysVerifyingHasNoTie(h, t, i);
      assert KeyLeq(t[i + 1].key, t[j].key);
    }
  }

  /**
   A logged table verifies, however the database orders ties, exactly when the keys grew strictly with every write.
   Two rows created in the same millisecond, or a clock that steps back, are enough to break it.
  */
  lemma AlwaysVerifiesIff<C(!new)>(h: Hasher<C>, t: seq<Row<C>>)
    requires Ideal(h) && Built(h, t)
    ensures AlwaysVerifies(h, t) <==> StrictKeys(t)
  {
    hide Ideal, Built, StrictKeys, IsScan, FirstBreak;
    if StrictKeys(t) {
      forall s | IsScan(t, s) ensures FirstBreak(h, s) == None {
        LoggedTablesVerify(h, t, s);
      }
    }
    if AlwaysVerifies(h, t) {
      AlwaysVerifyingIsStrict(h, t);
    }
  }

  // ---------------------------------------------------------------- tampering

  /** Changing the content of one row is reported at that row. */
  lemma EditIsFound<C(!new)>(h: Hasher<C>, s: seq<Row<C>>, k: nat, c: C)
    requires Ideal(h) && Chained(h, s) && k < |s| && c != s[k].content
    ensures FirstBreak(h, s[k := s[k].(content := c)]) == Some(k)
  {
    var s' := s[k := s[k].(content := c)];
    assert Good(h, s, k);
    forall j | 0 <= j < k ensures Good(h, s', j) {
      assert Good(h, s, j);
    }
    BreaksAt(h, s', k);
  }

  /** The same rows with any number of contents changed in place. */
  ghost predicate SameButContents<C>(s: seq<Row<C>>, t: seq<Row<C>>) {
    |t| == |s| && forall k :: 0 <= k < |s| ==> t[k] == s[k].(content := t[k].content)
  }

  ghost predicate FirstEdit<C>(s: seq<Row<C>>, t: seq<Row<C>>, k: nat) {
    k < |s| && k < |t| && t[k].content != s[k].content && forall j :: 0 <= j < k ==> t[j].content == s[j].content
  }

  /** However many contents are changed, the first changed row is reported, and nothing if there is none. */
  lemma EditsAreFound<C(!new)>(h: Hasher<C>, s: seq<Row<C>>, t: seq<Row<C>>)
    requires Ideal(h) && Chained(h, s) && SameButContents(s, t)
    ensures FirstBreak(h, t) == None <==> t == s
    ensures forall k: nat :: FirstEdit(s, t, k) ==> FirstBreak(h, t) == Some(k)
  {
    forall k: nat | FirstEdit(s, t, k) ensures FirstBreak(h, t) == Some(k) {
      assert Good(h, s, k);
      forall j | 0 <= j < k ensures Good(h, t, j) { assert Good(h, s, j); }
      BreaksAt(h, t, k);
    }
    if t != s {
      var k := AnEdit(s, t, |s|);
    }
  }

  lemma {:induction false} AnEdit<C>(s: seq<Row<C>>, t: seq<Row<C>>, n: nat) returns (k: nat)
    requires SameButContents(s, t) && n <= |s| && exists i :: 0 <= i < n && t[i] != s[i]
    ensures FirstEdit(s, t, k)
  {
    k := n - 1;
    if exists i :: 0 <= i < n - 1 && t[i] != s[i] {
      k := AnEdit(s, t, n - 1);
    }
  }

  /** Rehashing an edited row only moves the report to the next row; at the end of the table it goes unnoticed. */
  lemma RehashedEditIsFoundNext<C(!new)>(h: Hasher<C>, s: seq<Row<C>>, k: nat, c: C)
    requires Ideal(h) && Chained(h, s) && k < |s| && c != s[k].content && h(c, Before(s, k)).Some?
    ensures FirstBreak(h, s[k := s[k].(content := c, hash := h(c, Before(s, k)))]) ==
            if k + 1 < |s| then Some(k + 1) else None
  {
    var s' := s[k := s[k].(content := c, hash := h(c, Before(s, k)))];
    assert Good(h, s, k);
    forall j | 0 <= j <= k ensures Good(h, s', j) {
      assert Good(h, s, j);
    }
    if k + 1 < |s| {
      assert Good(h, s, k + 1);
      BreaksAt(h, s', k + 1);
    }
  }

  /** Deleting a row is reported at its successor; deleting the last row goes unnoticed. */
  lemma DeletionIsFoundNext<C(!new)>(h: Hasher<C>, s: seq<Row<C>>, k: nat)
    requires Ideal(h) && Chained(h, s) && k < |s|
    ensures FirstBreak(h, s[..k] + s[k + 1..]) == if k + 1 < |s| then Some(k) else None
    ensures k + 1 < |s| ==> (s[..k] + s[k + 1..])[k] == s[k + 1]
  {
    var s' := s[..k] + s[k + 1..];
    forall j | 0 <= j < k ensures Good(h, s', j) {
      assert Good(h, s, j);
    }
    if k + 1 < |s| {
      assert Good(h, s, k + 1) && Good(h, s, k);
      if k > 0 {
        assert Good(h, s, k - 1);
        ChainHashesDiffer(h, s, k - 1, k);
      }
      BreaksAt(h, s', k);
    }
  }

  function LastHash<C>(s: seq<Row<C>>): Digest {
    Before(s, |s|)
  }

  ghost predicate SameHistory<C>(s: seq<Row<C>>, t: seq<Row<C>>) {
    && |s| == |t|
    && forall k :: 0 <= k < |s| ==>
         s[k].content == t[k].content && s[k].previous == t[k].previous && s[k].hash == t[k].hash
  }

  lemma FrontVerifies<C(!new)>(h: Hasher<C>, s: seq<Row<C>>)
    requires s != [] && FirstBreak(h, s) == None
    ensures FirstBreak(h, s[..|s| - 1]) == None && Good(h, s, |s| - 1)
    ensures s[|s| - 1].previous == Some(LastHash(s[..|s| - 1]))
  {
    var front := s[..|s| - 1];
    forall k | 0 <= k < |front| ensures Good(h, front, k) { assert Good(h, s, k); }
    assert Good(h, s, |front|);
  }

  /** A hash determines whether there is a row at all, and what that row says. */
  lemma SameLastRow<C(!new)>(h: Hasher<C>, s: seq<Row<C>>, t: seq<Row<C>>)
    requires Ideal(h) && LastHash(s) == LastHash(t)
    requires s != [] ==> Good(h, s, |s| - 1)
    requires t != [] ==> Good(h, t, |t| - 1)
    ensures s == [] <==> t == []
    ensures s != [] ==>
              var x, y := s[|s| - 1], t[|t| - 1];
              x.content == y.content && x.previous == y.previous && x.hash == y.hash
  {
  }

  /** Two tables that verify and end in the same hash have the same length and the same hashed columns in every row. */
  lemma {:induction false} LastHashDeterminesHistory<C(!new)>(h: Hasher<C>, s: seq<Row<C>>, t: seq<Row<C>>)
    requires Ideal(h) && FirstBreak(h, s) == None && FirstBreak(h, t) == None
    requires LastHash(s) == LastHash(t)
    ensures SameHistory(s, t)
    decreases |s|
  {
    if s != [] { FrontVerifies(h, s); }
    if t != [] { FrontVerifies(h, t); }
    SameLastRow(h, s, t);
    if s != [] {
      var s', t' := s[..|s| - 1], t[..|t| - 1];
      hide *;
      LastHashDeterminesHistory(h, s', t');
      SameHistoryAppend(s', t', s[|s| - 1], t[|t| - 1]);
      assert s == s' + [s[|s| - 1]] && t == t' + [t[|t| - 1]];
    }
  }

  lemma SameHistoryAppend<C>(s: seq<Row<C>>, t: seq<Row<C>>, x: Row<C>, y: Row<C>)
    requires SameHistory(s, t) && x.content == y.content && x.previous == y.previous && x.hash == y.hash
    ensures SameHistory(s + [x], t + [y])
  {
  }
}
