/**
 The OrderedSet of the release script: a circular doubly linked list of keys around a
 sentinel, with an index from keys to list nodes. The list and the index together
 always represent one sequence without duplicates.
 */
module OrderedSets {
  import opened Basics

  // ------------------------------------------------- what a set of keys means, as a value

  function Added<K(==)>(s: seq<K>, k: K): seq<K> {
    if k in s then s else s + [k]
  }

  function Discarded<K(==)>(s: seq<K>, k: K): seq<K> {
    if s == [] then []
    else if s[0] == k then Discarded(s[1..], k)
    else [s[0]] + Discarded(s[1..], k)
  }

  /** All keys of `xs` added in order. */
  function AddedAll<K(==)>(s: seq<K>, xs: seq<K>): seq<K>
    decreases |xs|
  {
    if xs == [] then s else AddedAll(Added(s, xs[0]), xs[1..])
  }

  lemma {:induction false} DiscardedAbsent<K>(s: seq<K>, k: K)
    requires k !in s
    ensures Discarded(s, k) == s
  {
    if s != [] {
      DiscardedAbsent(s[1..], k);
    }
  }

  /** Discarding takes out exactly the key and keeps the order of the others. */
  lemma {:induction false} DiscardedAt<K(!new)>(s: seq<K>, i: nat)
    requires NoDuplicates(s) && i < |s|
    ensures Discarded(s, s[i]) == s[..i] + s[i + 1..]
  {
    if i == 0 {
      DiscardedAbsent(s[1..], s[0]);
    } else {
      DiscardedAt(s[1..], i - 1);
      assert s[1..][..i - 1] == s[1..i];
      assert s[1..][i..] == s[i + 1..];
    }
  }

  /** Discarding undoes adding a new key. */
  lemma DiscardUndoesAdd<K(!new)>(s: seq<K>, k: K)
    requires NoDuplicates(s) && k !in s
    ensures Discarded(Added(s, k), k) == s
  {
    DiscardedAt(s + [k], |s|);
  }

  lemma {:induction false} AddedAllMembers<K(!new)>(s: seq<K>, xs: seq<K>)
    requires NoDuplicates(s)
    ensures NoDuplicates(AddedAll(s, xs))
    ensures s <= AddedAll(s, xs)
    ensures forall k :: k in AddedAll(s, xs) <==> k in s || k in xs
    decreases |xs|
  {
    if xs != [] {
      AddedAllMembers(Added(s, xs[0]), xs[1..]);
    }
  }

  /** Where a key stands first. */
  ghost function First<K>(s: seq<K>, k: K): (i: nat)
    requires k in s
    ensures i < |s| && s[i] == k && forall j :: 0 <= j < i ==> s[j] != k
  {
    if s[0] == k then 0 else 1 + First(s[1..], k)
  }

  /** Building a set from an iterable keeps the order of first occurrences. */
  lemma {:induction false} AddedAllOrder<K(!new)>(s: seq<K>, xs: seq<K>, a: K, b: K)
    requires NoDuplicates(s)
    requires a in xs && b in xs && a !in s && b !in s && First(xs, a) < First(xs, b)
    ensures a in AddedAll(s, xs) && b in AddedAll(s, xs)
    ensures First(AddedAll(s, xs), a) < First(AddedAll(s, xs), b)
    decreases |xs|
  {
    AddedAllMembers(s, xs);
    if xs[0] == a {
      AddedAllMembers(s + [a], xs[1..]);
      assert AddedAll(s, xs)[|s|] == a;
      assert forall j :: 0 <= j <= |s| ==> AddedAll(s, xs)[j] == (s + [a])[j];
    } else {
      AddedAllOrder(Added(s, xs[0]), xs[1..], a, b);
    }
  }

  /** A sequence without duplicates is rebuilt from its own elements. */
  lemma {:induction false} AddedAllRebuilds<K(!new)>(s: seq<K>, xs: seq<K>)
    requires NoDuplicates(s + xs)
    ensures AddedAll(s, xs) == s + xs
    decreases |xs|
  {
    if xs != [] {
      var k := xs[0];
      assert k !in s by {
        assert (s + xs)[|s|] == k;
        assert forall i :: 0 <= i < |s| ==> (s + xs)[i] == s[i];
      }
      assert (s + [k]) + xs[1..] == s + xs;
      AddedAllRebuilds(s + [k], xs[1..]);
    }
  }

  // --------------------------------------------------------------------- the structure

  /** A node [key, prev, next]; the sentinel has no key. */
  class Node<K> {
    const key: Option<K>
    var prev: Node<K>
    var next: Node<K>

    constructor Sentinel()
      ensures key == None && prev == this && next == this
    {
      key := None;
      prev, next := this, this;
    }

    constructor (key: K, prev: Node<K>, next: Node<K>)
      ensures this.key == Some(key) && this.prev == prev && this.next == next
    {
      this.key := Some(key);
      this.prev, this.next := prev, next;
    }
  }

  /** Position `i` of a ring: the sentinel at 0 and again after the last node. */
  ghost function At<K>(end: Node<K>, nodes: seq<Node<K>>, i: int): Node<K>
    requires 0 <= i <= |nodes| + 1
  {
    if 1 <= i <= |nodes| then nodes[i - 1] else end
  }

  /** The links between positions `i` and `i + 1`, both ways. */
  ghost predicate Linked<K>(end: Node<K>, nodes: seq<Node<K>>, i: int)
    requires 0 <= i <= |nodes|
    reads end, nodes
  {
    && At(end, nodes, i).next == At(end, nodes, i + 1)
    && At(end, nodes, i + 1).prev == At(end, nodes, i)
  }

  ghost predicate Ring<K(!new)>(end: Node<K>, nodes: seq<Node<K>>)
    reads end, nodes
  {
    && end !in nodes
    && (forall i, j :: 0 <= i < j < |nodes| ==> nodes[i] != nodes[j])
    && (forall i :: 0 <= i <= |nodes| ==> Linked(end, nodes, i))
  }

  /** What `__getstate__` pickles: an empty set as a marker, otherwise the list of keys. */
  datatype State<K> = EmptyMarker | Keys(keys: seq<K>)

  class OrderedSet<K(==, !new)> {
    var end: Node<K>
    var index: map<K, Node<K>>
    /** The nodes of the ring after the sentinel, in order, and their keys. */
    ghost var nodes: seq<Node<K>>
    ghost var contents: seq<K>
    ghost var repr: set<object>

    ghost predicate Valid()
      reads this, repr
      ensures Valid() ==> this in repr && end in repr
    {
      && this in repr && end in repr && (forall n :: n in nodes ==> n in repr)
      && Ring(end, nodes) && end.key == None
      && |contents| == |nodes|
      && (forall i :: 0 <= i < |nodes| ==>
            && nodes[i].key == Some(contents[i])
            && contents[i] in index && index[contents[i]] == nodes[i])
      && (forall k :: k in index ==> k in contents)
      && NoDuplicates(contents)
    }

    /** `OrderedSet()`. */
    constructor ()
      ensures Valid() && fresh(repr) && contents == []
    {
      var sentinel := new Node<K>.Sentinel();
      end, index, nodes, contents := sentinel, map[], [], [];
      repr := {this, sentinel};
    }

    /** `OrderedSet(iterable)`: each element of the iterable is added in turn. */
    constructor From(iterable: seq<K>)
      ensures Valid() && fresh(repr) && contents == AddedAll([], iterable)
    {
      var sentinel := new Node<K>.Sentinel();
      end, index, nodes, contents := sentinel, map[], [], [];
      repr := {this, sentinel};
      new;
      AddAll(iterable);
    }

    /** `self |= iterable`. */
    method AddAll(iterable: seq<K>)
      requires Valid()
      modifies repr
      ensures Valid() && fresh(repr - old(repr))
      ensures contents == AddedAll(old(contents), iterable)
    {
      var i := 0;
      while i < |iterable|
        invariant i <= |iterable| && Valid() && fresh(repr - old(repr))
        invariant AddedAll(contents, iterable[i..]) == AddedAll(old(contents), iterable)
      {
        assert iterable[i..][1..] == iterable[i + 1..];
        Add(iterable[i]);
        i := i + 1;
      }
    }

    /** `len(self)`. */
    method Len() returns (n: nat)
      requires Valid()
      ensures n == |contents|
    {
      IndexSize(contents, index.Keys);
      n := |index|;
    }

    lemma {:induction false} IndexSize(s: seq<K>, ks: set<K>)
      requires NoDuplicates(s) && forall k :: k in s <==> k in ks
      ensures |s| == |ks|
    {
      if s != [] {
        assert s[0] in ks;
        IndexSize(s[1..], ks - {s[0]});
      }
    }

    /** `key in self`. */
    method Contains(key: K) returns (b: bool)
      requires Valid()
      ensures b <==> key in contents
    {
      b := key in index;
    }

    /** `add`. */
    method Add(key: K)
      requires Valid()
      modifies repr
      ensures Valid() && fresh(repr - old(repr))
      ensures contents == Added(old(contents), key)
    {
      if key !in index {
        var node := Append(key);
        index := index[key := node];
        contents := contents + [key];
        repr := repr + {node};
      }
    }

    /** The two assignments that put a new node before the sentinel. */
    method Append(key: K) returns (node: Node<K>)
      requires Ring(end, nodes)
      modifies this`nodes, end, nodes
      ensures Ring(end, nodes) && fresh(node) && node.key == Some(key)
      ensures nodes == old(nodes) + [node]
    {
      ghost var n, before := |nodes|, nodes;
      assert Linked(end, nodes, n);
      var last := end.prev;
      node := new Node(key, last, end);
      last.next := node;
      end.prev := node;
      nodes := nodes + [node];
      forall i | 0 <= i <= |nodes| ensures Linked(end, nodes, i) {
        if i < n {
          assert old(Linked(end, nodes, i));
        }
      }
    }

    /** `discard`. */
    method Discard(key: K)
      requires Valid()
      modifies repr
      ensures Valid() && repr == old(repr)
      ensures contents == Discarded(old(contents), key)
    {
      if key in index {
        ghost var i := First(contents, key);
        DiscardedAt(contents, i);
        DiscardNode(key, i);
      } else {
        DiscardedAbsent(contents, key);
      }
    }

    /** Takes a key that is there out of index and ring. */
    method DiscardNode(key: K, ghost i: nat)
      requires Valid() && i < |contents| && contents[i] == key
      modifies repr
      ensures Valid() && repr == old(repr)
      ensures contents == old(contents[..i] + contents[i + 1..])
    {
      ghost var before := nodes;
      var node := index[key];
      assert node == before[i];
      Unlink(node, i);
      assert forall j :: 0 <= j < i ==> nodes[j] == before[j];
      assert forall j :: i <= j < |nodes| ==> nodes[j] == before[j + 1];
      index := index - {key};
      Forget(i);
    }

    /** The keys after a node was taken out of ring and index. */
    ghost method Forget(i: nat)
      requires this in repr && end in repr && (forall n :: n in nodes ==> n in repr)
      requires Ring(end, nodes) && end.key == None
      requires |contents| == |nodes| + 1 && i < |contents| && NoDuplicates(contents)
      requires forall j :: 0 <= j < i ==> nodes[j].key == Some(contents[j])
      requires forall j :: i <= j < |nodes| ==> nodes[j].key == Some(contents[j + 1])
      requires forall j :: 0 <= j < i ==> contents[j] in index && index[contents[j]] == nodes[j]
      requires forall j :: i <= j < |nodes| ==> contents[j + 1] in index && index[contents[j + 1]] == nodes[j]
      requires forall k :: k in index ==> k in contents && k != contents[i]
      modifies `contents
      ensures contents == old(contents[..i] + contents[i + 1..])
      ensures Valid()
    {
      contents := contents[..i] + contents[i + 1..];
    }

    /** The two assignments that take a node out of the ring. */
    method Unlink(node: Node<K>, ghost i: nat)
      requires Ring(end, nodes) && i < |nodes| && nodes[i] == node
      modifies this`nodes, end, nodes
      ensures Ring(end, nodes)
      ensures nodes == old(nodes[..i] + nodes[i + 1..])
    {
      assert Linked(end, nodes, i) && Linked(end, nodes, i + 1);
      var prev, nxt := node.prev, node.next;
      prev.next := nxt;
      nxt.prev := prev;
      nodes := nodes[..i] + nodes[i + 1..];
      forall a | 0 <= a <= |nodes| ensures Linked(end, nodes, a) {
        assert old(Linked(end, nodes, if a < i then a else a + 1));
      }
    }

    /** `__iter__`: the keys in ring order. */
    method Iterate() returns (keys: seq<K>)
      requires Valid()
      ensures keys == contents
    {
      keys := [];
      var curr := end.next;
      assert Linked(end, nodes, 0);
      while curr != end
        invariant |keys| <= |nodes| && curr == At(end, nodes, |keys| + 1)
        invariant keys == contents[..|keys|]
        decreases |nodes| - |keys|
      {
        assert Linked(end, nodes, |keys| + 1);
        keys := keys + [curr.key.value];
        curr := curr.next;
      }
    }

    /** `__reversed__`: the keys against ring order. */
    method IterateReversed() returns (keys: seq<K>)
      requires Valid()
      ensures IsReverse(keys, contents)
    {
      keys := [];
      var curr := end.prev;
      ghost var i := |nodes|;
      assert Linked(end, nodes, i);
      assert contents[i..] == [];
      while curr != end
        invariant 0 <= i <= |nodes| && curr == At(end, nodes, i)
        invariant keys == Reversed(contents[i..])
        decreases i
      {
        keys := keys + [curr.key.value];
        curr := curr.prev;
        i := i - 1;
        assert Linked(end, nodes, i);
        assert contents[i..][1..] == contents[i + 1..];
      }
      assert contents[0..] == contents;
      ReversedIsReverse(contents);
    }

    /** `pop`: None stands for the KeyError of an empty set. */
    method Pop(last: bool) returns (key: Option<K>)
      requires Valid()
      modifies repr
      ensures Valid() && repr == old(repr)
      ensures old(contents) == [] ==> key == None && contents == []
      ensures old(contents) != [] && last ==>
                key == Some(old(contents)[|old(contents)| - 1]) && contents == old(contents)[..|old(contents)| - 1]
      ensures old(contents) != [] && !last ==>
                key == Some(old(contents)[0]) && contents == old(contents)[1..]
    {
      IndexSize(contents, index.Keys);
      if |index| == 0 {
        return None;
      }
      assert Linked(end, nodes, |nodes|) && Linked(end, nodes, 0);
      key := if last then end.prev.key else end.next.key;
      ghost var i := if last then |contents| - 1 else 0;
      DiscardedAt(contents, i);
      Discard(key.value);
    }

    /** `__eq__` with another OrderedSet: same keys in the same order. */
    method Equals(other: OrderedSet<K>) returns (b: bool)
      requires Valid() && other.Valid()
      ensures b <==> contents == other.contents
    {
      var m := Len();
      var n := other.Len();
      if m != n {
        return false;
      }
      var mine := Iterate();
      var theirs := other.Iterate();
      b := mine == theirs;
    }

    /** `__eq__` with any other set: same keys. */
    method EqualsSet(other: set<K>) returns (b: bool)
      requires Valid()
      ensures b <==> forall k :: k in contents <==> k in other
    {
      var mine := Iterate();
      b := (set k | k in mine) == other;
    }

    /** `__getstate__`. */
    method GetState() returns (state: State<K>)
      requires Valid()
      ensures state == if contents == [] then EmptyMarker else Keys(contents)
    {
      var n := Len();
      if n == 0 {
        state := EmptyMarker;
      } else {
        var keys := Iterate();
        state := Keys(keys);
      }
    }

    /** `__setstate__`, which runs `__init__` again. */
    constructor FromState(state: State<K>)
      ensures Valid() && fresh(repr)
      ensures contents == if state.EmptyMarker? then [] else AddedAll([], state.keys)
    {
      var sentinel := new Node<K>.Sentinel();
      end, index, nodes, contents := sentinel, map[], [], [];
      repr := {this, sentinel};
      new;
      if state.Keys? {
        AddAll(state.keys);
      }
    }

    /** Pickling and unpickling a set gives an equal set. */
    method PickleRoundTrip() returns (copy: OrderedSet<K>)
      requires Valid()
      ensures copy.Valid() && fresh(copy) && copy.contents == contents
    {
      var state := GetState();
      AddedAllRebuilds([], contents);
      assert [] + contents == contents;
      copy := new OrderedSet<K>.FromState(state);
    }
  }
}
