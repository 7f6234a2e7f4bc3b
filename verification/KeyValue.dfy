/** The key-value store as a plain map, the two mutations, and the replay of a list of
    mutations on top of a base map. */
module KeyValue {

  datatype Option<+T> = None | Some(value: T)

  type Store = map<string, string>

  datatype Op = Insert(key: string, value: string) | Delete(key: string)

  datatype Entry = Entry(key: string, value: string)

  function Lookup(m: Store, k: string): Option<string> {
    if k in m then Some(m[k]) else None
  }

  /** What a key maps to right after the mutation took effect. */
  function Result(op: Op): Option<string> {
    match op
    case Insert(_, v) => Some(v)
    case Delete(_) => None
  }

  function Apply(m: Store, op: Op): (r: Store)
    ensures forall k :: Lookup(r, k) == if k == op.key then Result(op) else Lookup(m, k)
  {
    match op
    case Insert(k, v) => m[k := v]
    case Delete(k) => m - {k}
  }

  function Replay(ops: seq<Op>, m: Store): Store {
    if ops == [] then m else Replay(ops[1..], Apply(m, ops[0]))
  }

  function Touched(ops: seq<Op>): set<string> {
    set i | 0 <= i < |ops| :: ops[i].key
  }

  /** The last mutation of the key in the list. */
  function LastOn(ops: seq<Op>, k: string): (o: Option<Op>)
    ensures o.Some? <==> k in Touched(ops)
    ensures o.Some? ==> o.value.key == k
    decreases |ops|
  {
    if ops == [] then None
    else
      var n := |ops| - 1;
      assert ops == ops[..n] + [ops[n]];
      TouchedSnoc(ops[..n], ops[n]);
      if ops[n].key == k then Some(ops[n]) else LastOn(ops[..n], k)
  }

  lemma TouchedSnoc(ops: seq<Op>, op: Op)
    ensures Touched(ops + [op]) == Touched(ops) + {op.key}
  {
    var all := ops + [op];
    assert forall i :: 0 <= i < |ops| ==> all[i] == ops[i];
    assert all[|ops|] == op;
  }

  lemma LastOnSnoc(ops: seq<Op>, op: Op, k: string)
    ensures LastOn(ops + [op], k) == if op.key == k then Some(op) else LastOn(ops, k)
  {
    assert (ops + [op])[..|ops|] == ops;
  }

  function Inserts(entries: seq<Entry>): (ops: seq<Op>)
    ensures |ops| == |entries|
    ensures forall i :: 0 <= i < |ops| ==> ops[i] == Insert(entries[i].key, entries[i].value)
  {
    seq(|entries|, i requires 0 <= i < |entries| => Insert(entries[i].key, entries[i].value))
  }

  /** Entries that a snapshot may hold: no key occurs twice. */
  predicate DistinctKeys(entries: seq<Entry>) {
    forall i, j :: 0 <= i < j < |entries| ==> entries[i].key != entries[j].key
  }

  function Keys(entries: seq<Entry>): set<string> {
    set i | 0 <= i < |entries| :: entries[i].key
  }

  /** The entries list exactly the bindings of the map, each once. */
  ghost predicate Enumerates(entries: seq<Entry>, m: Store) {
    && DistinctKeys(entries)
    && Keys(entries) == m.Keys
    && forall i :: 0 <= i < |entries| ==> entries[i].key in m && m[entries[i].key] == entries[i].value
  }

  lemma StoreEquality(a: Store, b: Store)
    requires forall k :: Lookup(a, k) == Lookup(b, k)
    ensures a == b
  {
    forall k ensures k in a <==> k in b {
      assert Lookup(a, k) == Lookup(b, k);
    }
    forall k | k in a ensures a[k] == b[k] {
      assert Lookup(a, k) == Lookup(b, k);
    }
  }

  lemma {:induction false} ReplayConcat(a: seq<Op>, b: seq<Op>, m: Store)
    ensures Replay(a + b, m) == Replay(b, Replay(a, m))
  {
    if a == [] {
      assert a + b == b;
    } else {
      assert (a + b)[1..] == a[1..] + b;
      ReplayConcat(a[1..], b, Apply(m, a[0]));
    }
  }

  lemma ReplayAppend(ops: seq<Op>, op: Op, m: Store)
    ensures Replay(ops + [op], m) == Apply(Replay(ops, m), op)
    ensures Touched(ops + [op]) == Touched(ops) + {op.key}
  {
    ReplayConcat(ops, [op], m);
    assert Replay([op], Replay(ops, m)) == Apply(Replay(ops, m), op);
    TouchedSnoc(ops, op);
  }

  /** The last mention of a key decides what replay makes of it; the base decides for keys
      not mentioned. */
  lemma {:induction false} ReplayByLast(ops: seq<Op>, m: Store, k: string)
    ensures Lookup(Replay(ops, m), k)
         == if k in Touched(ops) then Result(LastOn(ops, k).value) else Lookup(m, k)
    decreases |ops|
  {
    if ops != [] {
      var n := |ops| - 1;
      assert ops == ops[..n] + [ops[n]];
      ReplayAppend(ops[..n], ops[n], m);
      ReplayByLast(ops[..n], m, k);
    }
  }

  lemma TouchedCons(ops: seq<Op>)
    requires ops != []
    ensures Touched(ops) == {ops[0].key} + Touched(ops[1..])
  {
    assert forall i :: 1 <= i < |ops| ==> ops[i] == ops[1..][i - 1];
    assert forall i :: 0 <= i < |ops[1..]| ==> ops[1..][i] == ops[i + 1];
  }

  /** Replay absorbs its base: a key the list mentions ends up the same whatever was there
      before, and a key it does not mention keeps what was there. */
  lemma {:induction false} Absorption(ops: seq<Op>, m: Store, n: Store, k: string)
    ensures k in Touched(ops) ==> Lookup(Replay(ops, m), k) == Lookup(Replay(ops, n), k)
    ensures k !in Touched(ops) ==> Lookup(Replay(ops, m), k) == Lookup(m, k)
  {
    if ops != [] {
      TouchedCons(ops);
      var m', n' := Apply(m, ops[0]), Apply(n, ops[0]);
      Absorption(ops[1..], m', n', k);
      Absorption(ops[1..], n', m', k);
    }
  }

  /** Replaying a list on a store it already shaped changes nothing. */
  lemma ReplayIdempotent(ops: seq<Op>, m: Store)
    ensures Replay(ops, Replay(ops, m)) == Replay(ops, m)
  {
    forall k ensures Lookup(Replay(ops, Replay(ops, m)), k) == Lookup(Replay(ops, m), k) {
      Absorption(ops, Replay(ops, m), m, k);
    }
    StoreEquality(Replay(ops, Replay(ops, m)), Replay(ops, m));
  }

  /** Reloading distinct entries into an empty store binds exactly those entries. */
  lemma {:induction false} ReloadEntries(entries: seq<Entry>, base: Store)
    requires DistinctKeys(entries)
    ensures forall i :: 0 <= i < |entries| ==>
      Lookup(Replay(Inserts(entries), base), entries[i].key) == Some(entries[i].value)
    ensures forall k :: k !in Keys(entries) ==>
      Lookup(Replay(Inserts(entries), base), k) == Lookup(base, k)
  {
    if entries != [] {
      var e, rest := entries[0], entries[1..];
      var base' := Apply(base, Insert(e.key, e.value));
      assert Inserts(entries)[1..] == Inserts(rest);
      assert Replay(Inserts(entries), base) == Replay(Inserts(rest), base');
      ReloadEntries(rest, base');
      assert forall i :: 1 <= i < |entries| ==> entries[i] == rest[i - 1];
      assert forall i :: 0 <= i < |rest| ==> rest[i] == entries[i + 1];
      assert e.key !in Keys(rest);
      assert Keys(entries) == Keys(rest) + {e.key};
    }
  }

  lemma EntriesConcat(a: seq<Entry>, b: seq<Entry>)
    ensures Keys(a + b) == Keys(a) + Keys(b)
    ensures DistinctKeys(a + b) ==> DistinctKeys(a) && Keys(a) !! Keys(b)
  {
    var c := a + b;
    assert forall i :: 0 <= i < |a| ==> c[i] == a[i];
    assert forall i :: 0 <= i < |b| ==> c[|a| + i] == b[i];
    assert forall i :: 0 <= i < |c| ==> c[i] == if i < |a| then a[i] else b[i - |a|];
  }

  /** Reloading the first part of an enumeration restores the bindings it lists, no others. */
  lemma ReloadPart(a: seq<Entry>, b: seq<Entry>, m: Store, k: string)
    requires Enumerates(a + b, m)
    ensures k in Keys(a) ==> Lookup(Replay(Inserts(a), map[]), k) == Lookup(m, k) && k in m
    ensures k !in Keys(a) ==> Lookup(Replay(Inserts(a), map[]), k) == None
    ensures k in Keys(b) ==> k in m && k !in Keys(a)
    ensures k !in Keys(a) && k !in Keys(b) ==> k !in m
  {
    EntriesConcat(a, b);
    ReloadEntries(a, map[]);
    if k in Keys(a) {
      var i :| 0 <= i < |a| && a[i].key == k;
      assert (a + b)[i] == a[i];
    }
  }

  lemma ReloadEnumeration(entries: seq<Entry>, m: Store)
    requires Enumerates(entries, m)
    ensures Replay(Inserts(entries), map[]) == m
  {
    var r := Replay(Inserts(entries), map[]);
    ReloadEntries(entries, map[]);
    forall k ensures Lookup(r, k) == Lookup(m, k) {
      if k in m {
        assert k in Keys(entries);
        var i :| 0 <= i < |entries| && entries[i].key == k;
      }
    }
    StoreEquality(r, m);
  }
}
