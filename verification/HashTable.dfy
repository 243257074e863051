/** The chained hash table: an array of doubly linked chains that stands for a finite map. */
module HashTable {

  class Node<K(==), V> {
    const key: K
    var value: V
    var prev: Node?<K, V>
    var next: Node?<K, V>

    constructor (key: K, value: V)
      ensures this.key == key && this.value == value && prev == null && next == null
    {
      this.key := key;
      this.value := value;
      prev, next := null, null;
    }
  }

  // ------------------------------------------------------------- one chain

  function First<K, V>(c: seq<Node<K, V>>): Node?<K, V> {
    if c == [] then null else c[0]
  }

  ghost predicate Distinct<K, V>(c: seq<Node<K, V>>) {
    forall i, j :: 0 <= i < j < |c| ==> c[i].key != c[j].key
  }

  function Before<K, V>(c: seq<Node<K, V>>, i: nat): Node?<K, V>
    requires i < |c|
  {
    if i == 0 then null else c[i - 1]
  }

  function After<K, V>(c: seq<Node<K, V>>, i: nat): Node?<K, V>
    requires i < |c|
  {
    if i == |c| - 1 then null else c[i + 1]
  }

  /** Linked both ways from front to back: prev and next are mutually inverse. */
  ghost predicate Linked<K, V>(c: seq<Node<K, V>>)
    reads c`prev, c`next
  {
    && (forall i {:trigger c[i].prev} :: 0 <= i < |c| ==> c[i].prev == Before(c, i))
    && (forall i {:trigger c[i].next} :: 0 <= i < |c| ==> c[i].next == After(c, i))
  }

  lemma DistinctNodes<K, V>(c: seq<Node<K, V>>)
    requires Distinct(c)
    ensures forall i, j :: 0 <= i < j < |c| ==> c[i] != c[j]
  {}

  /** Putting an unlinked node in front of a chain. */
  method PushFront<K, V>(node: Node<K, V>, head: Node?<K, V>, ghost c: seq<Node<K, V>>)
    requires Linked(c) && Distinct(c) && head == First(c) && node !in c && node.prev == null && node.next == null
    modifies node`next, c`prev
    ensures Linked([node] + c)
  {
    DistinctNodes(c);
    if head != null {
      node.next := head;
      head.prev := node;
    }
    ghost var d := [node] + c;
    forall i | 0 <= i < |d|
      ensures d[i].prev == Before(d, i) && d[i].next == After(d, i)
    {
      if i > 0 {
        assert d[i] == c[i - 1];
        assert old(c[i - 1].prev) == Before(c, i - 1) && old(c[i - 1].next) == After(c, i - 1);
      }
    }
  }

  /** Unlinking a node; its neighbours, if any, now point at each other. */
  method Unlink<K, V>(node: Node<K, V>, ghost c: seq<Node<K, V>>, ghost i: nat)
    requires Linked(c) && Distinct(c) && i < |c| && c[i] == node
    modifies c`next, c`prev
    ensures Linked(c[..i] + c[i + 1..])
  {
    DistinctNodes(c);
    assert c[i].prev == Before(c, i) && c[i].next == After(c, i);
    var prev, next := node.prev, node.next;
    if prev != null {
      prev.next := next;
    }
    if next != null {
      next.prev := prev;
    }
    ghost var d := c[..i] + c[i + 1..];
    forall j | 0 <= j < |d|
      ensures d[j].prev == Before(d, j) && d[j].next == After(d, j)
    {
      ghost var k := if j < i then j else j + 1;
      assert d[j] == c[k];
      assert old(c[k].prev) == Before(c, k) && old(c[k].next) == After(c, k);
    }
  }

  // ---------------------------------------------- all chains, as sequences

  /** The hash function always names a bucket. */
  ghost predicate InRange<K(!new)>(hash: (nat, K) -> nat, buckets: nat) {
    forall k :: hash(buckets, k) < buckets
  }

  ghost predicate HasKey<K, V>(c: seq<Node<K, V>>, k: K) {
    exists n :: n in c && n.key == k
  }

  /** Every node is in the chain of its key's bucket, no key is held twice, and the keys held are those of the map. */
  ghost predicate KeysOk<K(!new), V>(chains: seq<seq<Node<K, V>>>, nodes: set<Node<K, V>>, hash: (nat, K) -> nat,
                                     contents: map<K, V>) {
    && InRange(hash, |chains|)
    && (forall b, n :: 0 <= b < |chains| && n in chains[b] ==> n in nodes && hash(|chains|, n.key) == b)
    && (forall b :: 0 <= b < |chains| ==> Distinct(chains[b]))
    && (forall k :: k in contents <==> HasKey(chains[hash(|chains|, k)], k))
  }

  /** No two chains share a node, and no chain repeats one. */
  ghost predicate Apart<K, V>(chains: seq<seq<Node<K, V>>>) {
    && (forall b, b', n :: 0 <= b < |chains| && 0 <= b' < |chains| && b != b' && n in chains[b] ==> n !in chains[b'])
    && (forall b :: 0 <= b < |chains| ==> Distinct(chains[b]))
  }

  lemma KeysApart<K(!new), V>(chains: seq<seq<Node<K, V>>>, nodes: set<Node<K, V>>, hash: (nat, K) -> nat, contents: map<K, V>)
    requires KeysOk(chains, nodes, hash, contents)
    ensures Apart(chains)
  {
    hide HasKey, Distinct;
    forall b, b', n | 0 <= b < |chains| && 0 <= b' < |chains| && b != b' && n in chains[b] ensures n !in chains[b'] {
      assert hash(|chains|, n.key) == b;
    }
  }

  lemma HeldKey<K(!new), V>(chains: seq<seq<Node<K, V>>>, nodes: set<Node<K, V>>, hash: (nat, K) -> nat,
                            contents: map<K, V>, b: nat, n: Node<K, V>)
    requires KeysOk(chains, nodes, hash, contents) && b < |chains| && n in chains[b]
    ensures n.key in contents
  {
    assert hash(|chains|, n.key) == b;
    assert HasKey(chains[b], n.key);
  }

  lemma SameKeys<K(!new), V>(chains: seq<seq<Node<K, V>>>, nodes: set<Node<K, V>>, hash: (nat, K) -> nat,
                             contents: map<K, V>, other: map<K, V>)
    requires KeysOk(chains, nodes, hash, contents) && other.Keys == contents.Keys
    ensures KeysOk(chains, nodes, hash, other)
  {
    hide HasKey, Distinct;
    assert forall k :: k in other <==> k in contents;
  }

  /** Two nodes with one key are one node. */
  lemma OnlyHolder<K(!new), V>(chains: seq<seq<Node<K, V>>>, nodes: set<Node<K, V>>, hash: (nat, K) -> nat,
                               contents: map<K, V>, b: nat, n: Node<K, V>, b': nat, n': Node<K, V>)
    requires KeysOk(chains, nodes, hash, contents) && b < |chains| && b' < |chains| && n in chains[b] && n' in chains[b']
    ensures n.key == n'.key ==> n == n'
  {
    assert hash(|chains|, n.key) == b && hash(|chains|, n'.key) == b';
    if n.key == n'.key {
      var c := chains[b];
      var i, j :| 0 <= i < |c| && 0 <= j < |c| && c[i] == n && c[j] == n';
      assert Distinct(c);
    }
  }

  lemma PushKeys<K(!new), V>(chains: seq<seq<Node<K, V>>>, nodes: set<Node<K, V>>, hash: (nat, K) -> nat,
                             contents: map<K, V>, b: nat, node: Node<K, V>, value: V)
    requires KeysOk(chains, nodes, hash, contents) && node.key !in contents && b == hash(|chains|, node.key)
    ensures b < |chains|
    ensures KeysOk(chains[b := [node] + chains[b]], nodes + {node}, hash, contents[node.key := value])
  {
    var c := chains[b];
    var d := [node] + c;
    assert !HasKey(c, node.key);
    assert forall n :: n in d <==> n == node || n in c;
    forall k ensures HasKey(d, k) <==> k == node.key || HasKey(c, k) {
      assert node in d;
    }
    assert Distinct(d) by {
      forall i, j | 0 <= i < j < |d| ensures d[i].key != d[j].key {
        assert d[j] == c[j - 1] && c[j - 1] in c;
      }
    }
  }

  lemma DropKeys<K(!new), V>(chains: seq<seq<Node<K, V>>>, nodes: set<Node<K, V>>, hash: (nat, K) -> nat,
                             contents: map<K, V>, b: nat, i: nat)
    requires KeysOk(chains, nodes, hash, contents) && b < |chains| && i < |chains[b]|
    ensures KeysOk(chains[b := chains[b][..i] + chains[b][i + 1..]], nodes, hash, contents - {chains[b][i].key})
  {
    var c, node := chains[b], chains[b][i];
    var d := c[..i] + c[i + 1..];
    assert Distinct(d) by {
      assert forall j :: 0 <= j < |d| ==> d[j] == if j < i then c[j] else c[j + 1];
    }
    DropMembers(c, i);
    assert node in c;
    forall k ensures HasKey(d, k) <==> k != node.key && HasKey(c, k) {
      if HasKey(c, k) && k != node.key {
        var n :| n in c && n.key == k;
        assert n in d;
      }
    }
  }

  lemma DropMembers<K, V>(c: seq<Node<K, V>>, i: nat)
    requires Distinct(c) && i < |c|
    ensures forall n :: n in c[..i] + c[i + 1..] <==> n in c && n != c[i]
    ensures forall n :: n in c && n != c[i] ==> n.key != c[i].key
  {
    DistinctNodes(c);
    var d := c[..i] + c[i + 1..];
    forall n | n in c && n != c[i] ensures n in d && n.key != c[i].key {
      var j :| 0 <= j < |c| && c[j] == n;
      assert d[if j < i then j else j - 1] == n;
    }
    assert forall j :: 0 <= j < |d| ==> d[j] == if j < i then c[j] else c[j + 1];
  }

  // ---------------------------------------------------------------- the table

  class Table<K(==, !new), V> {
    const buckets: nat
    const hash: (nat, K) -> nat
    const heads: array<Node?<K, V>>
    ghost var chains: seq<seq<Node<K, V>>>
    ghost var nodes: set<Node<K, V>>
    ghost var contents: map<K, V>

    ghost predicate Valid()
      reads this, heads, nodes
    {
      && heads.Length == buckets == |chains|
      && KeysOk(chains, nodes, hash, contents)
      && LinksOk()
      && ValuesOk()
    }

    /** Each bucket points at its chain, and each chain is linked. */
    ghost predicate LinksOk()
      reads this`chains, this`nodes, heads, nodes`prev, nodes`next
    {
      && heads.Length == |chains|
      && (forall b :: 0 <= b < |chains| ==> heads[b] == First(chains[b]) && Inside(chains[b]) && Linked(chains[b]))
    }

    ghost predicate Inside(c: seq<Node<K, V>>)
      reads this`nodes
    {
      forall n :: n in c ==> n in nodes
    }

    ghost predicate ValuesOk()
      reads this, nodes`value
    {
      forall b, n :: 0 <= b < |chains| && n in chains[b] && n in nodes ==> n.key in contents && contents[n.key] == n.value
    }

    /** Every object the table consists of. */
    ghost function Footprint(): set<object>
      reads this
    {
      {this, heads} + nodes
    }

    constructor (buckets: nat, hash: (nat, K) -> nat)
      requires InRange(hash, buckets)
      ensures Valid() && contents == map[] && fresh(Footprint())
      ensures this.buckets == buckets && this.hash == hash
    {
      this.buckets := buckets;
      this.hash := hash;
      heads := new Node?<K, V>[buckets](_ => null);
      chains := seq(buckets, _ => []);
      nodes := {};
      contents := map[];
    }

    /** Walking the key's chain: the node that holds the key, or null exactly when the map has no such key. */
    method Lookup(key: K) returns (node: Node?<K, V>)
      requires Valid()
      ensures hash(buckets, key) < |chains|
      ensures node == null <==> key !in contents
      ensures node != null ==> node in chains[hash(buckets, key)] && node in nodes
      ensures node != null ==> node.key == key && node.value == contents[key]
    {
      ghost var c := chains[hash(buckets, key)];
      node := heads[hash(buckets, key)];
      ghost var i := 0;
      assert Linked(c);
      while node != null && node.key != key
        invariant 0 <= i <= |c|
        invariant node == if i == |c| then null else c[i]
        invariant forall j :: 0 <= j < i ==> c[j].key != key
        decreases |c| - i
      {
        assert c[i].next == After(c, i);
        node := node.next;
        i := i + 1;
      }
      if node != null {
        assert c[i] in c;
        assert HasKey(c, key);
      }
    }

    /** Adding an entry; false, and nothing changed, where the source reports a duplicate key. */
    method Add(key: K, value: V) returns (ok: bool)
      requires Valid()
      modifies this, heads, nodes
      ensures Valid() && fresh(Footprint() - old(Footprint()))
      ensures ok <==> key !in old(contents)
      ensures contents == if ok then old(contents)[key := value] else old(contents)
    {
      hide KeysOk;
      var existing := Lookup(key);
      if existing != null { return false; }
      var b := hash(buckets, key);
      var node := new Node(key, value);
      PushKeys(chains, nodes, hash, contents, b, node, value);
      KeysApart(chains, nodes, hash, contents);
      LinkIn(b, node);
      contents := contents[key := value];
      assert ValuesOk();
      return true;
    }

    /** The links of an untouched chain survive. */
    static twostate lemma LinksKept(d: seq<Node<K, V>>)
      requires old(Linked(d)) && forall n :: n in d ==> n.prev == old(n.prev) && n.next == old(n.next)
      ensures Linked(d)
    {
      assert forall i :: 0 <= i < |d| ==> d[i].prev == old(d[i].prev) && d[i].next == old(d[i].next);
    }

    /** The pointer work of an insertion. */
    method LinkIn(b: nat, node: Node<K, V>)
      requires LinksOk() && Apart(chains) && b < |chains| && node !in nodes && node.prev == null && node.next == null
      modifies heads, nodes`prev, node`next, this`chains, this`nodes
      ensures LinksOk()
      ensures chains == old(chains)[b := [node] + old(chains)[b]] && nodes == old(nodes) + {node}
      ensures forall b', n :: 0 <= b' < |old(chains)| && n in old(chains)[b'] ==> n in old(nodes)
    {
      hide Distinct, Linked;
      ghost var c := chains[b];
      PushFront(node, heads[b], c);
      heads[b] := node;
      chains := chains[b := [node] + c];
      nodes := nodes + {node};
      forall b' | 0 <= b' < |chains|
        ensures heads[b'] == First(chains[b']) && Inside(chains[b']) && Linked(chains[b'])
      {
        assert old(Inside(chains[b']));
        if b' != b {
          ghost var d := old(chains)[b'];
          assert forall n :: n in d ==> n != node && n !in c;
          LinksKept(d);
        }
      }
    }

    /** Removing an entry by unlinking its node; false where the source reports a missing node. */
    method Free(key: K) returns (ok: bool)
      requires Valid()
      modifies this, heads, nodes
      ensures Valid() && Footprint() == old(Footprint())
      ensures ok <==> key in old(contents)
      ensures contents == old(contents) - {key}
    {
      hide KeysOk;
      var node := Lookup(key);
      if node == null { return false; }
      var b := hash(buckets, key);
      ghost var i :| 0 <= i < |chains[b]| && chains[b][i] == node;
      DropKeys(chains, nodes, hash, contents, b, i);
      KeysApart(chains, nodes, hash, contents);
      DropMembers(chains[b], i);
      LinkOut(b, node, i);
      contents := contents - {key};
      forall b', n | 0 <= b' < |chains| && n in chains[b'] && n in nodes
        ensures n.key in contents && contents[n.key] == n.value
      {
        HeldKey(chains, nodes, hash, contents, b', n);
        assert n in old(chains)[b'];
      }
      return true;
    }

    /** The pointer work of a removal. */
    method LinkOut(b: nat, node: Node<K, V>, ghost i: nat)
      requires LinksOk() && Apart(chains) && b < |chains| && i < |chains[b]| && chains[b][i] == node
      modifies heads, nodes`prev, nodes`next, this`chains
      ensures LinksOk()
      ensures var c := old(chains)[b]; chains == old(chains)[b := c[..i] + c[i + 1..]]
    {
      hide Distinct, Linked;
      ghost var c := chains[b];
      HeadNode(c, i);
      DropMembers(c, i);
      assert Inside(c);
      var next := node.next;
      if node.prev == null {
        heads[b] := next;
      }
      Unlink(node, c, i);
      chains := chains[b := c[..i] + c[i + 1..]];
      forall b' | 0 <= b' < |chains|
        ensures heads[b'] == First(chains[b']) && Inside(chains[b']) && Linked(chains[b'])
      {
        assert old(Inside(chains[b']));
        if b' != b {
          ghost var d := old(chains)[b'];
          assert forall n :: n in d ==> n !in c;
          LinksKept(d);
        }
      }
    }

    /** A node without a predecessor is the first of its chain, and its successor heads the rest. */
    static lemma HeadNode(c: seq<Node<K, V>>, i: nat)
      requires i < |c| && Linked(c)
      ensures c[i].prev == null <==> i == 0
      ensures i == 0 ==> c[i].next == First(c[..i] + c[i + 1..])
      ensures i > 0 ==> First(c[..i] + c[i + 1..]) == First(c)
    {
      assert c[i].prev == Before(c, i) && c[i].next == After(c, i);
    }

    /** The write through the pointer that a lookup returned. */
    method Store(node: Node<K, V>, value: V)
      requires Valid() && hash(buckets, node.key) < |chains| && node in chains[hash(buckets, node.key)] && node in nodes
      modifies this`contents, node`value
      ensures Valid() && Footprint() == old(Footprint())
      ensures contents == old(contents)[node.key := value]
    {
      hide KeysOk, LinksOk;
      ghost var b := hash(buckets, node.key);
      HeldKey(chains, nodes, hash, contents, b, node);
      SameKeys(chains, nodes, hash, contents, contents[node.key := value]);
      node.value := value;
      contents := contents[node.key := value];
      forall b', n | 0 <= b' < |chains| && n in chains[b'] && n in nodes
        ensures n.key in contents && contents[n.key] == n.value
      {
        OnlyHolder(chains, nodes, hash, old(contents), b', n, b, node);
      }
    }
  }
}
