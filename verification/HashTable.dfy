/** The chained hash table on the heap. */
module HashTable {
  import opened KeyValue
  import opened Hashing
  import opened Buckets

  class Node {
    const key: string
    var value: string
    var next: Node?

    constructor (k: string, v: string)
      ensures key == k && value == v && next == null
    {
      key := k;
      value := v;
      next := null;
    }
  }

  method NodeBefore(key: string, value: string, next: Node?) returns (n: Node)
    ensures fresh(n) && n.key == key && n.value == value && n.next == next
  {
    n := new Node(key, value);
    n.next := next;
  }

  /** The nodes `c`, in order, form the null-terminated list that starts at `head`, and
      hold the entries `es`. */
  ghost predicate Linked(head: Node?, c: seq<Node>, es: Chain)
    reads c
  {
    && |c| == |es|
    && head == NodeAt(c, 0)
    && forall j :: 0 <= j < |c| ==>
      && c[j].key == es[j].key
      && c[j].value == es[j].value
      && c[j].next == NodeAt(c, j + 1)
  }

  ghost function NodeAt(c: seq<Node>, j: nat): Node? {
    if j < |c| then c[j] else null
  }

  ghost predicate Within(c: seq<Node>, objects: set<object>) {
    forall j :: 0 <= j < |c| ==> c[j] in objects
  }

  lemma LinkedPush(n: Node, c: seq<Node>, es: Chain)
    requires Linked(n.next, c, es)
    ensures Linked(n, [n] + c, [Entry(n.key, n.value)] + es)
  {
    var d := [n] + c;
    forall j | 0 <= j < |d| ensures d[j].next == NodeAt(d, j + 1) {
      if j > 0 {
        assert d[j] == c[j - 1];
      }
    }
  }

  ghost function Without<T>(s: seq<T>, i: nat): (r: seq<T>)
    requires i < |s|
    ensures |r| == |s| - 1
    ensures forall j :: 0 <= j < |r| ==> r[j] == s[if j < i then j else j + 1]
  {
    s[..i] + s[i + 1..]
  }

  /** Once the node before position i (or the bucket) points past it, the list is linked
      without that node. */
  lemma LinkedWithout(c: seq<Node>, es: Chain, i: nat, head: Node?)
    requires i < |c| == |es|
    requires head == if i == 0 then NodeAt(c, 1) else c[0]
    requires forall j :: 0 <= j < |c| ==> c[j].key == es[j].key && c[j].value == es[j].value
    requires forall j :: 0 <= j < |c| ==>
      c[j].next == if j == i - 1 then NodeAt(c, j + 2) else NodeAt(c, j + 1)
    ensures Linked(head, Without(c, i), Without(es, i))
  {
  }

  lemma DropMeansWithout(t: Table, key: string)
    requires |t| > 0
    ensures var b := BucketOf(key, |t|);
            var i := Find(t[b], key);
            Drop(t, key) == if i < |t[b]| then t[b := Without(t[b], i)] else t
  {
    var b := BucketOf(key, |t|);
    assert t[b := t[b]] == t;
  }

  lemma WithinWithout(c: seq<Node>, i: nat, objects: set<object>)
    requires i < |c| && Within(c, objects)
    ensures Within(Without(c, i), objects)
  {
  }

  lemma TakeOneMore(before: seq<Entry>, es: Chain, j: nat)
    requires j < |es|
    ensures before + es[..j] + [es[j]] == before + es[..j + 1]
  {
  }

  class HashMap {
    const capacity: int
    const table: array<Node?>

    ghost var chains: seq<seq<Node>>   // the nodes of each bucket, from the head
    ghost var contents: Table          // the entries those nodes hold
    ghost var Repr: set<object>

    /** The heap holds exactly `chains`, and they hold exactly `contents`. */
    ghost predicate Shape()
      reads this, Repr
    {
      && this in Repr && table in Repr
      && table.Length == capacity == |chains| == |contents|
      && (forall b :: 0 <= b < capacity ==> Within(chains[b], Repr))
      && forall b :: 0 <= b < capacity ==> Linked(table[b], chains[b], contents[b])
    }

    ghost predicate Valid()
      reads this, Repr
      ensures Valid() ==> this in Repr
    {
      Shape() && WellFormed(contents)
    }

    /** The node at position i of bucket b stands nowhere else. */
    ghost predicate OnlyAt(b: nat, i: nat)
      reads this
      requires b < |chains| && i < |chains[b]|
    {
      && (forall j :: 0 <= j < |chains[b]| && j != i ==> chains[b][j] != chains[b][i])
      && forall b' :: 0 <= b' < |chains| && b' != b ==> chains[b][i] !in chains[b']
    }

    /** The map the table stands for. */
    ghost function View(): Store
      requires Valid()
      reads this, Repr
    {
      Abs(contents)
    }

    constructor (size: int)
      requires size > 0
      ensures Valid() && fresh(Repr)
      ensures contents == EmptyTable(size) && View() == map[]
    {
      capacity := size;
      table := new Node?[size];
      chains := seq(size, _ => []);
      contents := EmptyTable(size);
      new;
      for i := 0 to capacity
        modifies table
        invariant forall j :: 0 <= j < i ==> table[j] == null
      {
        table[i] := null;
      }
      Repr := {this, table};
      EmptyTableMeaning(size);
    }

    /** No node stands in two places: chains are pairwise disjoint and never loop back. */
    lemma OnePlace(b: nat, i: nat)
      requires Valid()
      requires b < capacity && i < |chains[b]|
      ensures OnlyAt(b, i)
    {
      assert Linked(table[b], chains[b], contents[b]);
      assert ChainOk(contents[b], b, capacity);
      forall b', j | 0 <= b' < capacity && b' != b && 0 <= j < |chains[b']|
        ensures chains[b'][j] != chains[b][i]
      {
        assert Linked(table[b'], chains[b'], contents[b']);
        assert ChainOk(contents[b'], b', capacity);
      }
    }

    /** The walk that insert, get and remove each make down one bucket: stops at the node
        with the key (`prev` being the node before it), or at the end of the chain. */
    method Walk(b: int, key: string) returns (prev: Node?, curr: Node?, ghost i: nat)
      requires Valid() && 0 <= b < capacity
      ensures i == Find(contents[b], key) && i <= |chains[b]|
      ensures curr == NodeAt(chains[b], Find(contents[b], key))
      ensures prev == if Find(contents[b], key) == 0 then null else chains[b][Find(contents[b], key) - 1]
    {
      curr := table[b];
      prev := null;
      i := 0;
      while curr != null && curr.key != key
        invariant 0 <= i <= |chains[b]| && curr == NodeAt(chains[b], i)
        invariant prev == if i == 0 then null else chains[b][i - 1]
        invariant forall j :: 0 <= j < i ==> contents[b][j].key != key
        decreases |chains[b]| - i
      {
        prev := curr;
        curr := curr.next;
        i := i + 1;
      }
      FindAgrees(contents[b], key, i);
    }

    /** `curr->value = value` */
    method Overwrite(ghost b: nat, ghost i: nat, curr: Node, value: string)
      requires Shape() && b < capacity && i < |chains[b]|
      requires curr == chains[b][i] && OnlyAt(b, i)
      modifies curr`value, this`contents
      ensures Shape()
      ensures contents == old(contents[b := contents[b][i := Entry(curr.key, value)]])
    {
      curr.value := value;
      contents := contents[b := contents[b][i := Entry(curr.key, value)]];
      assert Linked(table[b], chains[b], contents[b]);
    }

    /** Notes what a bucket holds by now; all others are as before. */
    ghost method Record(b: nat, c: seq<Node>, es: Chain)
      requires this in Repr && table in Repr
      requires b < capacity == table.Length == |chains| == |contents|
      requires forall b' :: 0 <= b' < capacity ==> Within(chains[b'], Repr)
      requires forall b' :: 0 <= b' < capacity && b' != b ==> Linked(table[b'], chains[b'], contents[b'])
      requires Within(c, Repr) && Linked(table[b], c, es)
      modifies this`chains, this`contents
      ensures Shape() && contents == old(contents)[b := es]
    {
      chains := chains[b := c];
      contents := contents[b := es];
    }

    /** A new node becomes the head of its bucket. */
    method PushFront(b: int, key: string, value: string)
      requires Shape() && 0 <= b < capacity
      modifies this, table
      ensures Shape() && fresh(Repr - old(Repr))
      ensures contents == old(contents[b := [Entry(key, value)] + contents[b]])
    {
      var newNode := NodeBefore(key, value, table[b]);
      LinkedPush(newNode, chains[b], contents[b]);
      table[b] := newNode;
      Repr := Repr + {newNode};
      Record(b, [newNode] + chains[b], [Entry(key, value)] + contents[b]);
    }

    /** Deletes the head of a bucket. */
    method UnlinkHead(b: int, curr: Node)
      requires Shape() && 0 <= b < capacity && chains[b] != []
      requires curr == chains[b][0]
      modifies this, table
      ensures Shape() && Repr == old(Repr)
      ensures contents == old(contents[b := Without(contents[b], 0)])
    {
      LinkedWithout(chains[b], contents[b], 0, curr.next);
      table[b] := curr.next;
      chains := chains[b := Without(chains[b], 0)];
      contents := contents[b := Without(contents[b], 0)];
    }

    /** Deletes inside a chain: the node before position i now points past it. */
    method UnlinkAfter(ghost b: nat, ghost i: nat, prev: Node, curr: Node)
      requires Shape() && b < capacity && 0 < i < |chains[b]|
      requires curr == chains[b][i] && prev == chains[b][i - 1]
      requires OnlyAt(b, i - 1)
      modifies this`chains, this`contents, prev`next
      ensures Shape()
      ensures contents == old(contents[b := Without(contents[b], i)])
    {
      SkipNext(b, i, prev, curr);
      WithinWithout(chains[b], i, Repr);
      Record(b, Without(chains[b], i), Without(contents[b], i));
    }

    /** `prev->next = curr->next` disturbs no other chain. */
    method SkipNext(ghost b: nat, ghost i: nat, prev: Node, curr: Node)
      requires Shape() && b < capacity && 0 < i < |chains[b]|
      requires curr == chains[b][i] && prev == chains[b][i - 1]
      requires OnlyAt(b, i - 1)
      modifies prev`next
      ensures forall b' :: 0 <= b' < capacity && b' != b ==> Linked(table[b'], chains[b'], contents[b'])
      ensures Linked(table[b], Without(chains[b], i), Without(contents[b], i))
    {
      prev.next := curr.next;
      LinkedWithout(chains[b], contents[b], i, table[b]);
    }

    method Insert(key: string, value: string)
      requires Valid()
      modifies Repr
      ensures Valid() && fresh(Repr - old(Repr))
      ensures contents == Put(old(contents), key, value)
      ensures View() == old(View())[key := value]
    {
      ApplyRefines(contents, Op.Insert(key, value));
      var hashValue := HashFunction(key, capacity);
      var prev, curr, i := Walk(hashValue, key);
      if curr != null {
        OnePlace(hashValue, i);
        Overwrite(hashValue, i, curr, value);
      } else {
        PushFront(hashValue, key, value);
      }
    }

    /** The value of the key, or "" when the table does not hold it. */
    method Get(key: string) returns (value: string)
      requires Valid()
      ensures value == ValueOf(Buckets.Get(contents, key))
      ensures value == if key in View() then View()[key] else ""
    {
      AbsLookup(contents, key);
      var hashValue := HashFunction(key, capacity);
      var prev, curr, i := Walk(hashValue, key);
      value := if curr != null then curr.value else "";
    }

    method Remove(key: string)
      requires Valid()
      modifies Repr
      ensures Valid() && fresh(Repr - old(Repr))
      ensures contents == Drop(old(contents), key)
      ensures View() == old(View()) - {key}
    {
      ApplyRefines(contents, Delete(key));
      DropMeansWithout(contents, key);
      var hashValue := HashFunction(key, capacity);
      var prev, curr, i := Walk(hashValue, key);
      if curr != null {
        if prev != null {
          OnePlace(hashValue, i - 1);
        }
        Unlink(hashValue, i, prev, curr);
      }
    }

    /** Takes the node at position i out of its chain. */
    method Unlink(b: int, ghost i: nat, prev: Node?, curr: Node)
      requires Shape() && 0 <= b < capacity && i < |chains[b]|
      requires i > 0 ==> OnlyAt(b, i - 1)
      requires curr == chains[b][i] && prev == if i == 0 then null else chains[b][i - 1]
      modifies Repr
      ensures Shape() && Repr == old(Repr)
      ensures contents == old(contents[b := Without(contents[b], i)])
    {
      if prev == null {
        UnlinkHead(b, curr);
      } else {
        UnlinkAfter(b, i, prev, curr);
      }
    }

    lemma BucketDone(before: seq<Entry>, i: nat)
      requires i < |contents|
      ensures before + Enumerate(contents[i..]) == before + contents[i] + Enumerate(contents[i + 1..])
    {
      assert contents[i..][1..] == contents[i + 1..];
    }

    /** Walks every bucket and chain; `visited` lists the pairs the callback gets, in order. */
    method ForEach() returns (visited: seq<Entry>)
      requires Valid()
      ensures visited == Enumerate(contents)
      ensures Enumerates(visited, View())
    {
      visited := [];
      assert contents[0..] == contents;
      for i := 0 to capacity
        invariant visited + Enumerate(contents[i..]) == Enumerate(contents)
      {
        BucketDone(visited, i);
        visited := VisitChain(i, visited);
      }
      EnumerateIsComplete(contents);
    }

    /** The inner loop of `ForEach`: one bucket, from its head. */
    method VisitChain(b: int, before: seq<Entry>) returns (visited: seq<Entry>)
      requires Shape() && 0 <= b < capacity
      ensures visited == before + contents[b]
    {
      visited := before;
      var current := table[b];
      ghost var chain, entries, j := chains[b], contents[b], 0;
      while current != null
        invariant 0 <= j <= |chain| && current == NodeAt(chain, j)
        invariant visited == before + entries[..j]
        decreases |chain| - j
      {
        assert entries[j] == Entry(current.key, current.value);
        TakeOneMore(before, entries, j);
        visited := visited + [Entry(current.key, current.value)];
        current := current.next;
        j := j + 1;
      }
      assert entries[..j] == entries;
    }
  }
}
