/** The contents of the hash table as a value: one list of entries per bucket, in chain
    order, and its meaning as a plain map. */
module Buckets {
  import opened KeyValue
  import opened Hashing

  type Chain = seq<Entry>
  type Table = seq<Chain>

  /** Position of the first entry with the key, or the length of the chain. */
  function Find(c: Chain, k: string): (i: nat)
    ensures i <= |c|
    ensures i < |c| ==> c[i].key == k
    ensures forall j :: 0 <= j < i ==> c[j].key != k
  {
    if c == [] || c[0].key == k then 0 else 1 + Find(c[1..], k)
  }

  function ChainGet(c: Chain, k: string): Option<string> {
    var i := Find(c, k);
    if i < |c| then Some(c[i].value) else None
  }

  /** Overwrites in place, or adds at the head of the chain. */
  function ChainPut(c: Chain, k: string, v: string): Chain {
    var i := Find(c, k);
    if i < |c| then c[i := Entry(k, v)] else [Entry(k, v)] + c
  }

  function ChainDrop(c: Chain, k: string): Chain {
    var i := Find(c, k);
    if i < |c| then c[..i] + c[i + 1..] else c
  }

  function EmptyTable(capacity: nat): Table {
    seq(capacity, _ => [])
  }

  function Get(t: Table, k: string): Option<string>
    requires |t| > 0
  {
    ChainGet(t[BucketOf(k, |t|)], k)
  }

  function Put(t: Table, k: string, v: string): (r: Table)
    requires |t| > 0
    ensures |r| == |t|
  {
    var b := BucketOf(k, |t|);
    t[b := ChainPut(t[b], k, v)]
  }

  function Drop(t: Table, k: string): (r: Table)
    requires |t| > 0
    ensures |r| == |t|
  {
    var b := BucketOf(k, |t|);
    t[b := ChainDrop(t[b], k)]
  }

  function ApplyTable(t: Table, op: Op): (r: Table)
    requires |t| > 0
    ensures |r| == |t|
  {
    match op
    case Insert(k, v) => Put(t, k, v)
    case Delete(k) => Drop(t, k)
  }

  function ReplayTable(ops: seq<Op>, t: Table): (r: Table)
    requires |t| > 0
    ensures |r| == |t|
  {
    if ops == [] then t else ReplayTable(ops[1..], ApplyTable(t, ops[0]))
  }

  // What a well-formed table means.

  /** Every key stands in the bucket its hash names, and only once. */
  predicate WellFormed(t: Table) {
    && |t| > 0
    && forall i :: 0 <= i < |t| ==> ChainOk(t[i], i, |t|)
  }

  predicate ChainOk(c: Chain, b: int, capacity: int)
    requires capacity > 0
  {
    && DistinctKeys(c)
    && forall j :: 0 <= j < |c| ==> BucketOf(c[j].key, capacity) == b
  }

  function TableKeys(t: Table): set<string> {
    set i, j | 0 <= i < |t| && 0 <= j < |t[i]| :: t[i][j].key
  }

  lemma FindInDistinct(c: Chain, j: nat)
    requires DistinctKeys(c) && j < |c|
    ensures Find(c, c[j].key) == j
  {
    var i := Find(c, c[j].key);
    assert i <= j;
  }

  lemma KeyIsFound(t: Table, k: string)
    requires WellFormed(t)
    ensures k in TableKeys(t) <==> Get(t, k).Some?
  {
    var b := BucketOf(k, |t|);
    if k in TableKeys(t) {
      var i, j :| 0 <= i < |t| && 0 <= j < |t[i]| && t[i][j].key == k;
      assert ChainOk(t[i], i, |t|);
      FindInDistinct(t[i], j);
    }
  }

  /** The map a well-formed table stands for. */
  ghost function Abs(t: Table): (m: Store)
    requires WellFormed(t)
  {
    map k | k in TableKeys(t) :: ValueOf(Get(t, k))
  }

  function ValueOf(o: Option<string>): string {
    if o.Some? then o.value else ""
  }

  lemma AbsLookup(t: Table, k: string)
    requires WellFormed(t)
    ensures Lookup(Abs(t), k) == Get(t, k)
  {
    KeyIsFound(t, k);
  }

  lemma FindAgrees(c: Chain, k: string, i: nat)
    requires i <= |c|
    requires i < |c| ==> c[i].key == k
    requires forall j :: 0 <= j < i ==> c[j].key != k
    ensures Find(c, k) == i
  {
  }

  lemma ChainPutMeaning(c: Chain, k: string, v: string, b: int, capacity: int)
    requires capacity > 0 && ChainOk(c, b, capacity) && BucketOf(k, capacity) == b
    ensures ChainOk(ChainPut(c, k, v), b, capacity)
    ensures forall k' :: ChainGet(ChainPut(c, k, v), k') == if k' == k then Some(v) else ChainGet(c, k')
  {
    var d, i := ChainPut(c, k, v), Find(c, k);
    forall k' ensures ChainGet(d, k') == if k' == k then Some(v) else ChainGet(c, k') {
      var f := Find(c, k');
      if i < |c| {
        FindAgrees(d, k', f);
      } else {
        assert forall j :: 1 <= j < |d| ==> d[j] == c[j - 1];
        FindAgrees(d, k', if k' == k then 0 else f + 1);
      }
    }
  }

  /** A known key keeps its place in the chain, and so do the others; a new one comes first. */
  lemma ChainPutPlaces(c: Chain, k: string, v: string)
    ensures var d, i := ChainPut(c, k, v), Find(c, k);
            if i < |c| then |d| == |c| && forall j :: 0 <= j < |c| ==> d[j] == if j == i then Entry(k, v) else c[j]
            else d[0] == Entry(k, v) && d[1..] == c
  {
  }

  lemma DropAt(c: Chain, i: nat, k: string)
    requires i < |c| && c[i].key == k && DistinctKeys(c)
    ensures DistinctKeys(c[..i] + c[i + 1..])
    ensures forall k' :: ChainGet(c[..i] + c[i + 1..], k') == if k' == k then None else ChainGet(c, k')
  {
    var d := c[..i] + c[i + 1..];
    assert forall j :: 0 <= j < i ==> d[j] == c[j];
    assert forall j :: i <= j < |d| ==> d[j] == c[j + 1];
    forall k' ensures ChainGet(d, k') == if k' == k then None else ChainGet(c, k') {
      var f := Find(c, k');
      FindAgrees(d, k', if k' == k then |d| else if f < i then f else f - 1);
    }
  }

  lemma ChainDropMeaning(c: Chain, k: string, b: int, capacity: int)
    requires capacity > 0 && ChainOk(c, b, capacity)
    ensures ChainOk(ChainDrop(c, k), b, capacity)
    ensures forall k' :: ChainGet(ChainDrop(c, k), k') == if k' == k then None else ChainGet(c, k')
  {
    var i := Find(c, k);
    if i < |c| {
      DropAt(c, i, k);
    }
  }

  /** Insertion and removal on the table are insertion and removal on the map. */
  lemma ApplyRefines(t: Table, op: Op)
    requires WellFormed(t)
    ensures WellFormed(ApplyTable(t, op))
    ensures Abs(ApplyTable(t, op)) == Apply(Abs(t), op)
  {
    var r, b := ApplyTable(t, op), BucketOf(op.key, |t|);
    assert ChainOk(t[b], b, |t|);
    match op {
      case Insert(k, v) => ChainPutMeaning(t[b], k, v, b, |t|);
      case Delete(k) => ChainDropMeaning(t[b], k, b, |t|);
    }
    forall i | 0 <= i < |r| ensures ChainOk(r[i], i, |r|) {
      assert ChainOk(t[i], i, |t|);
    }
    forall k ensures Lookup(Abs(r), k) == Lookup(Apply(Abs(t), op), k) {
      AbsLookup(r, k);
      AbsLookup(t, k);
    }
    StoreEquality(Abs(r), Apply(Abs(t), op));
  }

  lemma {:induction false} ReplayRefines(ops: seq<Op>, t: Table)
    requires WellFormed(t)
    ensures WellFormed(ReplayTable(ops, t))
    ensures Abs(ReplayTable(ops, t)) == Replay(ops, Abs(t))
  {
    if ops != [] {
      ApplyRefines(t, ops[0]);
      ReplayRefines(ops[1..], ApplyTable(t, ops[0]));
    }
  }

  lemma EmptyTableMeaning(capacity: nat)
    requires capacity > 0
    ensures WellFormed(EmptyTable(capacity))
    ensures Abs(EmptyTable(capacity)) == map[]
  {
  }

  // Enumeration and reload.

  /** The order in which `forEach` walks: bucket by bucket, each chain from its head. */
  function Enumerate(t: Table): seq<Entry> {
    if t == [] then [] else t[0] + Enumerate(t[1..])
  }

  lemma {:induction false} EnumerateSegment(t: Table, lo: nat, capacity: int)
    requires capacity > 0
    requires forall i :: 0 <= i < |t| ==> ChainOk(t[i], lo + i, capacity)
    ensures DistinctKeys(Enumerate(t))
    ensures forall j :: 0 <= j < |Enumerate(t)| ==> BucketOf(Enumerate(t)[j].key, capacity) >= lo
    ensures forall e :: e in Enumerate(t) <==> exists i :: 0 <= i < |t| && e in t[i]
  {
    if t != [] {
      var c, rest := t[0], Enumerate(t[1..]);
      assert ChainOk(c, lo, capacity);
      forall i | 0 <= i < |t[1..]| ensures ChainOk(t[1..][i], lo + 1 + i, capacity) {
        assert ChainOk(t[i + 1], lo + (i + 1), capacity);
      }
      EnumerateSegment(t[1..], lo + 1, capacity);
      assert forall j :: 0 <= j < |c| ==> BucketOf(c[j].key, capacity) == lo;
      assert forall i :: 1 <= i < |t| ==> t[i] == t[1..][i - 1];
      assert forall i :: 0 <= i < |t[1..]| ==> t[1..][i] == t[i + 1];
    }
  }

  lemma EntryIsBound(t: Table, i: nat, n: nat)
    requires WellFormed(t) && i < |t| && n < |t[i]|
    ensures var e := t[i][n]; Lookup(Abs(t), e.key) == Some(e.value)
  {
    assert ChainOk(t[i], i, |t|);
    FindInDistinct(t[i], n);
    AbsLookup(t, t[i][n].key);
  }

  /** The walk goes through the buckets from the first to the last. */
  lemma {:induction false} WalkInBucketOrder(t: Table, lo: nat, capacity: int, a: nat, b: nat)
    requires capacity > 0 && a <= b < |Enumerate(t)|
    requires forall i :: 0 <= i < |t| ==> ChainOk(t[i], lo + i, capacity)
    ensures BucketOf(Enumerate(t)[a].key, capacity) <= BucketOf(Enumerate(t)[b].key, capacity)
    decreases |t|
  {
    var c := t[0];
    assert ChainOk(c, lo + 0, capacity);
    forall i | 0 <= i < |t[1..]| ensures ChainOk(t[1..][i], lo + 1 + i, capacity) {
      assert ChainOk(t[i + 1], lo + (i + 1), capacity);
    }
    if a >= |c| {
      WalkInBucketOrder(t[1..], lo + 1, capacity, a - |c|, b - |c|);
    } else {
      assert BucketOf(c[a].key, capacity) == lo;
      EnumerateSegment(t[1..], lo + 1, capacity);
    }
  }

  /** Every entry the walk reports is a binding of the map. */
  lemma WalkIsSound(t: Table, j: nat)
    requires WellFormed(t) && j < |Enumerate(t)|
    ensures var e := Enumerate(t)[j]; Lookup(Abs(t), e.key) == Some(e.value)
  {
    var e := Enumerate(t)[j];
    EnumerateSegment(t, 0, |t|);
    assert e in Enumerate(t);
    var i :| 0 <= i < |t| && e in t[i];
    var n :| 0 <= n < |t[i]| && t[i][n] == e;
    EntryIsBound(t, i, n);
  }

  lemma WalkMissesNothing(t: Table, k: string)
    requires WellFormed(t)
    ensures k in TableKeys(t) ==> k in Keys(Enumerate(t))
  {
    EnumerateSegment(t, 0, |t|);
    if i, n :| 0 <= i < |t| && 0 <= n < |t[i]| && t[i][n].key == k {
      assert t[i][n] in Enumerate(t);
    }
  }

  lemma WalkNeverRepeats(t: Table)
    requires WellFormed(t)
    ensures DistinctKeys(Enumerate(t))
  {
    EnumerateSegment(t, 0, |t|);
  }

  /** The walk reports every live key exactly once, with its value, and nothing else. */
  lemma EnumerateIsComplete(t: Table)
    requires WellFormed(t)
    ensures Enumerates(Enumerate(t), Abs(t))
  {
    var es, m := Enumerate(t), Abs(t);
    WalkNeverRepeats(t);
    forall j | 0 <= j < |es| ensures Lookup(m, es[j].key) == Some(es[j].value) {
      WalkIsSound(t, j);
    }
    forall k | k in m ensures k in Keys(es) {
      WalkMissesNothing(t, k);
    }
  }

  function Reverse<T>(s: seq<T>): (r: seq<T>)
    ensures |r| == |s|
  {
    if s == [] then [] else Reverse(s[1..]) + [s[0]]
  }

  lemma {:induction false} ReverseAt<T>(s: seq<T>, i: nat)
    requires i < |s|
    ensures Reverse(s)[i] == s[|s| - 1 - i]
  {
    if i < |s| - 1 {
      ReverseAt(s[1..], i);
    }
  }

  lemma ReverseTwice<T>(s: seq<T>)
    ensures Reverse(Reverse(s)) == s
  {
    forall i | 0 <= i < |s| ensures Reverse(Reverse(s))[i] == s[i] {
      ReverseAt(Reverse(s), i);
      ReverseAt(s, |s| - 1 - i);
    }
  }

  function Reversed(t: Table): (r: Table)
    ensures |r| == |t|
  {
    seq(|t|, i requires 0 <= i < |t| => Reverse(t[i]))
  }

  lemma PutFresh(t: Table, e: Entry, b: int)
    requires 0 <= b < |t| && BucketOf(e.key, |t|) == b
    requires forall j :: 0 <= j < |t[b]| ==> t[b][j].key != e.key
    ensures Put(t, e.key, e.value) == t[b := [e] + t[b]]
  {
    FindAgrees(t[b], e.key, |t[b]|);
  }

  lemma InsertsCons(c: Chain, t: Table)
    requires |t| > 0 && c != []
    ensures ReplayTable(Inserts(c), t) == ReplayTable(Inserts(c[1..]), Put(t, c[0].key, c[0].value))
  {
    assert Inserts(c)[1..] == Inserts(c[1..]);
  }

  lemma ReverseCons<T>(s: seq<T>, tail: seq<T>)
    requires s != []
    ensures Reverse(s[1..]) + ([s[0]] + tail) == Reverse(s) + tail
  {
  }

  lemma {:induction false} ReloadChain(c: Chain, t: Table, b: int)
    requires 0 <= b < |t|
    requires ChainOk(c, b, |t|)
    requires forall i, j :: 0 <= i < |c| && 0 <= j < |t[b]| ==> c[i].key != t[b][j].key
    ensures ReplayTable(Inserts(c), t) == t[b := Reverse(c) + t[b]]
  {
    if c == [] {
      assert Reverse(c) + t[b] == t[b];
    } else {
      var e, rest := c[0], c[1..];
      var t' := t[b := [e] + t[b]];
      PutFresh(t, e, b);
      InsertsCons(c, t);
      assert forall i :: 0 <= i < |rest| ==> rest[i] == c[i + 1];
      assert forall j :: 1 <= j < |t'[b]| ==> t'[b][j] == t[b][j - 1];
      ReloadChain(rest, t', b);
      ReverseCons(c, t[b]);
    }
  }

  lemma {:induction false} ReplayTableConcat(a: seq<Op>, b: seq<Op>, t: Table)
    requires |t| > 0
    ensures ReplayTable(a + b, t) == ReplayTable(b, ReplayTable(a, t))
  {
    if a == [] {
      assert a + b == b;
    } else {
      assert (a + b)[1..] == a[1..] + b;
      ReplayTableConcat(a[1..], b, ApplyTable(t, a[0]));
    }
  }

  lemma EnumerateCons(t: Table, s: Table)
    requires t != [] && |s| > 0
    ensures ReplayTable(Inserts(Enumerate(t)), s)
         == ReplayTable(Inserts(Enumerate(t[1..])), ReplayTable(Inserts(t[0]), s))
  {
    var c, rest := t[0], Enumerate(t[1..]);
    assert Inserts(c + rest) == Inserts(c) + Inserts(rest);
    ReplayTableConcat(Inserts(c), Inserts(rest), s);
  }

  lemma {:induction false} ReloadSegment(t: Table, lo: nat, s: Table)
    requires lo + |t| == |s| && |s| > 0
    requires forall i :: 0 <= i < |t| ==> ChainOk(t[i], lo + i, |s|)
    requires forall i :: lo <= i < |s| ==> s[i] == []
    ensures ReplayTable(Inserts(Enumerate(t)), s) == s[..lo] + Reversed(t)
  {
    if t == [] {
      assert s[..lo] + Reversed(t) == s;
    } else {
      var c, rest := t[0], t[1..];
      EnumerateCons(t, s);
      assert ChainOk(c, lo + 0, |s|);
      ReloadChain(c, s, lo);
      var s' := s[lo := Reverse(c)];
      assert Reverse(c) + s[lo] == Reverse(c);
      forall i | 0 <= i < |rest| ensures ChainOk(rest[i], lo + 1 + i, |s'|) {
        assert ChainOk(t[i + 1], lo + (i + 1), |s|);
      }
      ReloadSegment(rest, lo + 1, s');
      PrefixGrows(s, lo, t);
    }
  }

  lemma PrefixGrows(s: Table, lo: nat, t: Table)
    requires lo < |s| && t != []
    ensures s[lo := Reverse(t[0])][..lo + 1] + Reversed(t[1..]) == s[..lo] + Reversed(t)
  {
    assert s[lo := Reverse(t[0])][..lo + 1] == s[..lo] + [Reverse(t[0])];
    assert Reversed(t) == [Reverse(t[0])] + Reversed(t[1..]);
  }

  /** Writing a table out and reloading it into an empty table of the same capacity
      reverses every chain and keeps the map. */
  lemma ReloadReverses(t: Table)
    requires WellFormed(t)
    ensures ReplayTable(Inserts(Enumerate(t)), EmptyTable(|t|)) == Reversed(t)
    ensures WellFormed(Reversed(t)) && Abs(Reversed(t)) == Abs(t)
  {
    var s := EmptyTable(|t|);
    ReloadSegment(t, 0, s);
    assert s[..0] + Reversed(t) == Reversed(t);
    EmptyTableMeaning(|t|);
    ReplayRefines(Inserts(Enumerate(t)), s);
    EnumerateIsComplete(t);
    ReloadEnumeration(Enumerate(t), Abs(t));
  }

  lemma ReversedTwice(t: Table)
    ensures Reversed(Reversed(t)) == t
  {
    forall i | 0 <= i < |t| ensures Reversed(Reversed(t))[i] == t[i] {
      ReverseTwice(t[i]);
    }
  }

  /** Two such cycles give back the original chains exactly. */
  lemma ReloadTwiceRestores(t: Table)
    requires WellFormed(t)
    ensures var once := ReplayTable(Inserts(Enumerate(t)), EmptyTable(|t|));
            ReplayTable(Inserts(Enumerate(once)), EmptyTable(|t|)) == t
  {
    ReloadReverses(t);
    ReloadReverses(Reversed(t));
    ReversedTwice(t);
  }
}
