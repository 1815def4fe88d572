/**
 The parts of a VirtualService that the controller never looks into, as the generated copies see them:
 a tree whose nodes are structs, slices and maps, any of them nil.
 */
module ObjectTrees {
  import opened Wrappers
  import opened VirtualServiceValues

  /** A struct, the backing array of a slice, or a map: what it holds itself, and the pointers it holds. */
  class Node {
    ghost var Repr: set<object>
    var scalars: seq<string>
    var children: seq<Node?>

    constructor (scalars: seq<string>, children: seq<Node?>, ghost owned: set<object>)
      requires Rooted(children, owned)
      ensures Valid() && Repr == {this} + owned
      ensures Value() == Tree(scalars, Values(children, owned))
    {
      this.scalars, this.children := scalars, children;
      Repr := {this} + owned;
    }

    ghost predicate Valid()
      reads this, Repr
      decreases Repr
    {
      && this in Repr
      && forall i :: 0 <= i < |children| && children[i] != null ==>
           children[i] in Repr && children[i].Repr <= Repr - {this} && children[i].Valid()
    }

    ghost function Value(): Tree
      requires Valid()
      reads this, Repr
      decreases Repr
    {
      Tree(scalars,
           seq(|children|, i requires 0 <= i < |children| && Valid() reads this, Repr =>
             if children[i] == null then None else Some(children[i].Value())))
    }
  }

  ghost function NodeRepr(n: Node?): set<object>
    reads n
  {
    if n == null then {} else n.Repr
  }

  ghost predicate NodeValid(n: Node?)
    reads n, NodeRepr(n)
  {
    n != null ==> n.Valid()
  }

  ghost function NodeValue(n: Node?): Option<Tree>
    requires NodeValid(n)
    reads n, NodeRepr(n)
  {
    if n == null then None else Some(n.Value())
  }

  /** The nodes of a list are well formed and made of objects in `owned`. */
  ghost predicate Rooted(ns: seq<Node?>, owned: set<object>)
    reads owned
  {
    forall i :: 0 <= i < |ns| && ns[i] != null ==> ns[i] in owned && ns[i].Repr <= owned && ns[i].Valid()
  }

  ghost function Values(ns: seq<Node?>, owned: set<object>): (v: seq<Option<Tree>>)
    requires Rooted(ns, owned)
    reads owned
    ensures |v| == |ns|
  {
    seq(|ns|, i requires 0 <= i < |ns| && Rooted(ns, owned) reads owned => NodeValue(ns[i]))
  }

  lemma RootedExtend(ns: seq<Node?>, owned: set<object>, n: Node?)
    requires Rooted(ns, owned) && NodeValid(n)
    ensures Rooted(ns + [n], owned + NodeRepr(n))
    ensures Values(ns + [n], owned + NodeRepr(n)) == Values(ns, owned) + [NodeValue(n)]
  {
  }

  lemma Child(n: Node, i: nat)
    requires n.Valid() && i < |n.children|
    ensures NodeValid(n.children[i]) && NodeRepr(n.children[i]) < n.Repr
    ensures i < |n.Value().children| == |n.children| && n.Value().children[i] == NodeValue(n.children[i])
  {
  }

  /**
   The generated copy of a struct: all fields at once, then a nil-safe copy of every slice, map and
   struct that it points to. Every node of the copy is new, whatever the source shares.
   */
  method CopyNode(n: Node?) returns (m: Node?)
    requires NodeValid(n)
    ensures NodeValid(m) && fresh(NodeRepr(m)) && NodeValue(m) == NodeValue(n)
    decreases NodeRepr(n)
  {
    if n == null {
      return null;
    }
    var copies: seq<Node?> := [];
    ghost var owned: set<object> := {};
    ghost var v := n.Value();
    for i := 0 to |n.children|
      invariant fresh(owned) && Rooted(copies, owned) && Values(copies, owned) == v.children[..i]
    {
      Child(n, i);
      var child := CopyNode(n.children[i]);
      RootedExtend(copies, owned, child);
      copies, owned := copies + [child], owned + NodeRepr(child);
    }
    assert v.children[..|n.children|] == v.children;
    m := new Node(n.scalars, copies, owned);
  }

  /** A new tree with a given value. */
  method DecodeNode(t: Option<Tree>) returns (m: Node?)
    ensures NodeValid(m) && fresh(NodeRepr(m)) && NodeValue(m) == t
    decreases t
  {
    if t.None? {
      return null;
    }
    var nodes: seq<Node?> := [];
    ghost var owned: set<object> := {};
    for i := 0 to |t.value.children|
      invariant fresh(owned) && Rooted(nodes, owned) && Values(nodes, owned) == t.value.children[..i]
    {
      var child := DecodeNode(t.value.children[i]);
      RootedExtend(nodes, owned, child);
      nodes, owned := nodes + [child], owned + NodeRepr(child);
    }
    assert t.value.children[..|t.value.children|] == t.value.children;
    m := new Node(t.value.scalars, nodes, owned);
  }
}
