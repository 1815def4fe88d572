/** VirtualServiceSpec: deep copy, the search for a service, and the two edits in place. */
module VirtualServices {
  import opened Wrappers
  import opened VirtualServiceValues
  import opened ObjectTrees
  import opened VirtualServiceObjects
  import opened RouteLists
  import opened HttpRoutes

  type BlockPtr = HTTPRoute?

  ghost function BlockRepr(b: BlockPtr): set<object>
    reads b
  {
    if b == null then {} else b.Repr
  }

  ghost predicate BlockValid(b: BlockPtr)
    reads b, BlockRepr(b)
  {
    b != null ==> b.Valid()
  }

  ghost function BlockValueOf(b: BlockPtr): Option<BlockValue>
    requires BlockValid(b)
    reads b, BlockRepr(b)
  {
    if b == null then None else Some(b.Value())
  }

  /** The blocks of a slice are well formed and made of objects in `owned`. */
  ghost predicate WithinBlocks(s: seq<BlockPtr>, owned: set<object>)
    reads owned
  {
    forall i :: 0 <= i < |s| && s[i] != null ==> s[i] in owned && s[i].Repr <= owned && s[i].Valid()
  }

  ghost function BlockValues(s: seq<BlockPtr>, owned: set<object>): (v: Blocks)
    requires WithinBlocks(s, owned)
    reads owned
    ensures |v| == |s|
  {
    seq(|s|, i requires 0 <= i < |s| && WithinBlocks(s, owned) reads owned => BlockValueOf(s[i]))
  }

  /** No block shares an object with another block, and none of its routes with the rest of it. */
  ghost predicate Forest(s: seq<BlockPtr>, owned: set<object>)
    requires WithinBlocks(s, owned)
    reads owned
  {
    && (forall i, j {:trigger BlockRepr(s[i]), BlockRepr(s[j])} :: 0 <= i < j < |s| ==>
         BlockRepr(s[i]) !! BlockRepr(s[j]))
    && (forall i :: 0 <= i < |s| && s[i] != null ==> s[i].Unshared())
  }

  lemma AppendBlock(s: seq<BlockPtr>, owned: set<object>, b: BlockPtr)
    requires WithinBlocks(s, owned) && Forest(s, owned)
    requires BlockValid(b) && BlockRepr(b) !! owned && (b != null ==> b.Unshared())
    ensures WithinBlocks(s + [b], owned + BlockRepr(b)) && Forest(s + [b], owned + BlockRepr(b))
    ensures BlockValues(s + [b], owned + BlockRepr(b)) == BlockValues(s, owned) + [BlockValueOf(b)]
  {
  }

  method CopyBlock(b: BlockPtr) returns (t: BlockPtr)
    requires BlockValid(b)
    ensures BlockValid(t) && fresh(BlockRepr(t)) && BlockValueOf(t) == BlockValueOf(b) && (t != null ==> t.Unshared())
  {
    if b == null {
      return null;
    }
    var out := new HTTPRoute();
    b.DeepCopyInto(out);
    t := out;
  }

  /** One round of the loop below: a nil-safe copy of `src` becomes entry `i` of `b`. */
  method CopyBlockAt(src: BlockPtr, b: array<BlockPtr>, i: nat, ghost owned: set<object>)
    returns (ghost owned': set<object>)
    requires i < b.Length && WithinBlocks(b[..i], owned) && Forest(b[..i], owned) && b !in owned
    requires BlockValid(src)
    modifies b
    ensures owned <= owned' && fresh(owned' - owned) && b !in owned'
    ensures WithinBlocks(b[..i + 1], owned') && Forest(b[..i + 1], owned')
    ensures BlockValues(b[..i + 1], owned') == old(BlockValues(b[..i], owned)) + [old(BlockValueOf(src))]
  {
    ghost var done := b[..i];
    var t := CopyBlock(src);
    AppendBlock(done, owned, t);
    owned' := owned + BlockRepr(t);
    b[i] := t;
    assert b[..i + 1] == done + [t];
  }

  method CopyBlocks(s: seq<BlockPtr>, ghost owned: set<object>) returns (b: array<BlockPtr>, ghost owned': set<object>)
    requires WithinBlocks(s, owned)
    ensures fresh(b) && b.Length == |s| && fresh(owned') && b !in owned'
    ensures WithinBlocks(b[..], owned') && Forest(b[..], owned')
    ensures BlockValues(b[..], owned') == BlockValues(s, owned)
  {
    b := new BlockPtr[|s|](_ => null);
    owned' := {};
    ghost var v := BlockValues(s, owned);
    for i := 0 to |s|
      invariant fresh(owned') && b !in owned'
      invariant WithinBlocks(b[..i], owned') && Forest(b[..i], owned')
      invariant BlockValues(b[..i], owned') == v[..i]
    {
      assert BlockValueOf(s[i]) == v[i];
      owned' := CopyBlockAt(s[i], b, i, owned');
      assert v[..i + 1] == v[..i] + [v[i]];
    }
    assert b[..] == b[..|s|] && v[..|s|] == v;
  }

  /** A block that an edit elsewhere, of a block now made of `edited`, has left alone. */
  ghost predicate BlockStays(b: BlockPtr, owned: set<object>, v: Option<BlockValue>, edited: set<object>)
    reads owned, b, BlockRepr(b)
  {
    && BlockValid(b) && BlockValueOf(b) == v && BlockRepr(b) !! edited
    && (b != null ==> b in owned && b.Repr <= owned && b.Unshared())
  }

  lemma EditedForest(s: seq<BlockPtr>, owned: set<object>, bs: Blocks, h: nat)
    requires h < |s| == |bs| && s[h] != null && s[h].Valid() && s[h].Unshared()
    requires forall i :: 0 <= i < |s| && i != h ==> BlockStays(s[i], owned, bs[i], s[h].Repr)
    requires forall i, j :: 0 <= i < j < |s| && i != h && j != h ==> BlockRepr(s[i]) !! BlockRepr(s[j])
    ensures WithinBlocks(s, owned + s[h].Repr) && Forest(s, owned + s[h].Repr)
    ensures BlockValues(s, owned + s[h].Repr) == bs[h := Some(s[h].Value())]
  {
  }

  /** The block behind entry `i`, and the route behind its entry `r`, are not nil. */
  lemma EntryAt(s: seq<BlockPtr>, owned: set<object>, i: nat)
    requires WithinBlocks(s, owned) && i < |s| && BlockValues(s, owned)[i].Some?
    ensures s[i] != null && s[i].Valid() && s[i] in owned && s[i].Repr <= owned
    ensures BlockValues(s, owned)[i] == Some(s[i].Value())
    ensures RoutesOf(BlockValues(s, owned)[i]) == s[i].RouteValues()
  {
    assert BlockValues(s, owned)[i] == BlockValueOf(s[i]);
  }

  lemma RouteAt(b: HTTPRoute, r: nat)
    requires b.Valid() && r < |b.RouteValues()| && b.RouteValues()[r].Some?
    ensures r < |b.Entries()| && b.Entries()[r] != null
  {
    assert b.RouteValues()[r] == RouteValueOf(b.Entries()[r]);
  }

  method FindInEntry(s: seq<BlockPtr>, ghost owned: set<object>, i: nat, svc: string) returns (r: int)
    requires WithinBlocks(s, owned) && i < |s|
    requires BlockValues(s, owned)[i].Some? && Searchable(RoutesOf(BlockValues(s, owned)[i]), svc)
    ensures r == FindRoute(RoutesOf(BlockValues(s, owned)[i]), svc)
  {
    EntryAt(s, owned, i);
    r := s[i].FindMatchingRoute(svc);
  }

  /** None of the first `n` blocks routes to `svc`. */
  ghost predicate NoMatch(bs: Blocks, svc: string, n: nat)
    requires n <= |bs|
  {
    forall j :: 0 <= j < n ==> FindRoute(RoutesOf(bs[j]), svc) == -1
  }

  lemma NextBlock(bs: Blocks, svc: string, i: nat)
    requires i < |bs| && NoMatch(bs, svc, i)
    ensures FindRoute(RoutesOf(bs[i]), svc) == -1 ==> NoMatch(bs, svc, i + 1)
    ensures FindRoute(RoutesOf(bs[i]), svc) != -1 ==> FindBlock(bs, svc) == i
  {
    if FindRoute(RoutesOf(bs[i]), svc) != -1 {
      FindBlockUnique(bs, svc, i);
    }
  }

  lemma LastBlock(bs: Blocks, svc: string)
    requires NoMatch(bs, svc, |bs|)
    ensures FindBlock(bs, svc) == -1
  {
    FindBlockUnique(bs, svc, -1);
  }

  /** The loop enters every block before the first match, and that one. */
  lemma EnteredAt(bs: Blocks, svc: string, i: nat)
    requires SearchableBlocks(bs, svc) && i < |bs| && NoMatch(bs, svc, i)
    ensures bs[i].Some? && Searchable(RoutesOf(bs[i]), svc)
  {
    assert i < Entered(bs, svc);
  }

  /** The nested range loops with early return; a nil entry before the match would be dereferenced. */
  method FindInBlocks(s: seq<BlockPtr>, ghost owned: set<object>, svc: string) returns (h: int, r: int)
    requires WithinBlocks(s, owned) && SearchableBlocks(BlockValues(s, owned), svc)
    ensures h == FindBlock(BlockValues(s, owned), svc)
    ensures r == if h == -1 then -1 else FindRoute(RoutesOf(BlockValues(s, owned)[h]), svc)
  {
    ghost var bs := BlockValues(s, owned);
    for i := 0 to |s|
      invariant NoMatch(bs, svc, i)
    {
      EnteredAt(bs, svc, i);
      r := FindInEntry(s, owned, i, svc);
      NextBlock(bs, svc, i);
      if r != -1 {
        return i, r;
      }
    }
    LastBlock(bs, svc);
    return -1, -1;
  }

  method SplitBlock(s: seq<BlockPtr>, ghost owned: set<object>, h: nat, r: nat, name: string)
    returns (ghost owned': set<object>)
    requires WithinBlocks(s, owned) && Forest(s, owned) && h < |s| && s[h] != null
    requires r < |s[h].Entries()| && s[h].Entries()[r] != null
    modifies s[h].Repr
    ensures owned <= owned' && fresh(owned' - owned) && WithinBlocks(s, owned') && Forest(s, owned')
    ensures var bs := old(BlockValues(s, owned));
            && bs[h].Some? && r < |RoutesOf(bs[h])|
            && BlockValues(s, owned') == ReplaceRoutes(bs, h, ShareOut(RoutesOf(bs[h]), r, name))
  {
    var block := s[h];
    ghost var bs := BlockValues(s, owned);
    block.AddCanary(r, name);
    forall i | 0 <= i < |s| && i != h
      ensures BlockStays(s[i], owned, bs[i], block.Repr) && BlockRepr(s[i]) == old(BlockRepr(s[i]))
    {
      assert old(BlockRepr(s[i])) !! old(BlockRepr(s[h]));
    }
    forall i, j | 0 <= i < j < |s| && i != h && j != h
      ensures BlockRepr(s[i]) !! BlockRepr(s[j])
    {
      assert old(BlockRepr(s[i])) !! old(BlockRepr(s[j]));
    }
    EditedForest(s, owned, bs, h);
    owned' := owned + block.Repr;
  }

  method MergeBlock(s: seq<BlockPtr>, ghost owned: set<object>, h: nat, r: nat, k: nat)
    requires WithinBlocks(s, owned) && Forest(s, owned) && h < |s| && s[h] != null
    requires r < |s[h].Entries()| && s[h].Entries()[r] != null && k < |s[h].Entries()| && s[h].Entries()[k] != null
    modifies s[h].Repr
    ensures WithinBlocks(s, owned) && Forest(s, owned)
    ensures var bs := old(BlockValues(s, owned));
            && bs[h].Some? && r < |RoutesOf(bs[h])| && k < |RoutesOf(bs[h])|
            && BlockValues(s, owned) == ReplaceRoutes(bs, h, TakeBack(RoutesOf(bs[h]), r, k))
  {
    var block := s[h];
    ghost var bs := BlockValues(s, owned);
    block.ReturnShare(r, k);
    forall i | 0 <= i < |s| && i != h
      ensures BlockStays(s[i], owned, bs[i], block.Repr)
    {
      assert old(BlockRepr(s[i])) !! old(BlockRepr(s[h]));
    }
    forall i, j | 0 <= i < j < |s| && i != h && j != h
      ensures BlockRepr(s[i]) !! BlockRepr(s[j])
    {
      assert old(BlockRepr(s[i])) !! old(BlockRepr(s[j]));
    }
    EditedForest(s, owned, bs, h);
    assert owned + block.Repr == owned;
  }

  class VirtualServiceSpec {
    ghost var Repr: set<object>
    ghost var owned: set<object>
    var others: Node? // all other fields
    var http: array?<BlockPtr>

    constructor ()
      ensures Valid() && Unshared() && Repr == {this} && Value() == SpecValue(None, None)
    {
      others, http := null, null;
      Repr, owned := {this}, {};
    }

    ghost predicate Valid()
      reads this, Repr
    {
      && this in Repr && owned <= Repr - {this}
      && (others != null ==> others in Repr && others.Repr <= Repr - {this} && others.Valid())
      && (http != null ==> http in Repr && http !in owned && WithinBlocks(http[..], owned))
    }

    ghost predicate Unshared()
      requires Valid()
      reads this, Repr
    {
      && (http != null ==> Forest(http[..], owned) && http !in NodeRepr(others))
      && NodeRepr(others) !! owned
    }

    ghost function HttpValues(): Blocks
      requires Valid()
      reads this, Repr
    {
      if http == null then [] else BlockValues(http[..], owned)
    }

    ghost function Value(): SpecValue
      requires Valid()
      reads this, Repr
    {
      SpecValue(if http == null then None else Some(HttpValues()), NodeValue(others))
    }

    method CopyShellInto(out: VirtualServiceSpec)
      requires Valid() && out !in Repr
      modifies out
      ensures out.Valid() && out.Unshared() && fresh(out.Repr - {out}) && out.Value() == Value().(http := None)
    {
      var o := CopyNode(others);
      out.others, out.http := o, null;
      out.owned, out.Repr := {}, {out} + NodeRepr(o);
    }

    method SetBlocks(http: array<BlockPtr>, ghost owned: set<object>)
      requires Valid() && WithinBlocks(http[..], owned) && Forest(http[..], owned)
      requires http !in owned && this !in owned && {http} + owned !! NodeRepr(others)
      modifies this`http, this`owned, this`Repr
      ensures Valid() && Unshared() && Repr == old(Repr) + {http} + owned
      ensures Value() == old(Value()).(http := Some(old(BlockValues(http[..], owned))))
    {
      this.http, this.owned := http, owned;
      Repr := Repr + {http} + owned;
      assert Forest(http[..], owned);
    }

    /**
     The copy is equal to the source as a value, nil entries included, every object of it but `out`
     itself is new, and no block or route in it shares an object with anything else, whatever the
     source shares.
     */
    method DeepCopyInto(out: VirtualServiceSpec)
      requires Valid() && out !in Repr
      modifies out
      ensures out.Valid() && out.Unshared() && fresh(out.Repr - {out}) && out.Value() == Value()
    {
      CopyShellInto(out);
      if http != null {
        var b, o := CopyBlocks(http[..], owned);
        out.SetBlocks(b, o);
      }
    }

    method DeepCopy() returns (out: VirtualServiceSpec)
      requires Valid()
      ensures out.Valid() && out.Unshared() && fresh(out.Repr) && out.Value() == Value()
    {
      out := new VirtualServiceSpec();
      DeepCopyInto(out);
    }

    method FindMatchingHttpAndRoute(svc: string) returns (h: int, r: int)
      requires Valid() && SearchableBlocks(BlocksOf(Value()), svc)
      ensures h == FindBlock(BlocksOf(Value()), svc)
      ensures r == if h == -1 then -1 else FindRoute(RoutesOf(BlocksOf(Value())[h]), svc)
    {
      if http == null {
        return -1, -1;
      }
      h, r := FindInBlocks(http[..], owned, svc);
    }

    method FindMatchingRouteInHttpRoute(host: string, h: nat) returns (k: int)
      requires Valid() && h < |BlocksOf(Value())|
      requires BlocksOf(Value())[h].Some? && Searchable(RoutesOf(BlocksOf(Value())[h]), host)
      ensures k == FindRoute(RoutesOf(BlocksOf(Value())[h]), host)
    {
      k := FindInEntry(http[..], owned, h, host);
    }

    // ----- the controller's edits

    method SplitEntry(h: nat, r: nat, name: string)
      requires Valid() && Unshared() && http != null && h < http.Length && http[h] != null
      requires r < |http[h].Entries()| && http[h].Entries()[r] != null
      modifies Repr
      ensures Valid() && Unshared() && fresh(Repr - old(Repr))
      ensures var bs := old(HttpValues());
              && bs[h].Some? && r < |RoutesOf(bs[h])|
              && Value() == old(Value()).(http := Some(ReplaceRoutes(bs, h, ShareOut(RoutesOf(bs[h]), r, name))))
    {
      assert http[h].Repr !! NodeRepr(others);
      owned := SplitBlock(http[..], owned, h, r, name);
      Repr := Repr + owned;
    }

    method MergeEntry(h: nat, r: nat, k: nat)
      requires Valid() && Unshared() && http != null && h < http.Length && http[h] != null
      requires r < |http[h].Entries()| && http[h].Entries()[r] != null && k < |http[h].Entries()|
               && http[h].Entries()[k] != null
      modifies Repr
      ensures Valid() && Unshared() && fresh(Repr - old(Repr))
      ensures var bs := old(HttpValues());
              && bs[h].Some? && r < |RoutesOf(bs[h])| && k < |RoutesOf(bs[h])|
              && Value() == old(Value()).(http := Some(ReplaceRoutes(bs, h, TakeBack(RoutesOf(bs[h]), r, k))))
    {
      assert http[h].Repr !! NodeRepr(others);
      MergeBlock(http[..], owned, h, r, k);
    }

    /** The entries at positions that a search of the values has found. */
    lemma Found(h: nat, r: nat)
      requires Valid() && h < |HttpValues()| && r < |RoutesOf(HttpValues()[h])| && RoutesOf(HttpValues()[h])[r].Some?
      ensures http != null && h < http.Length && http[h] != null && http[h].Valid()
      ensures r < |http[h].Entries()| && http[h].Entries()[r] != null
      ensures HttpValues()[h] == Some(http[h].Value()) && RoutesOf(HttpValues()[h]) == http[h].RouteValues()
    {
      EntryAt(http[..], owned, h);
      RouteAt(http[h], r);
    }

    /** The edit of a split, on the positions that the searches have returned. */
    method SplitInPlace(svc: string, h: nat, r: nat, name: string)
      requires Valid() && Unshared()
      requires h == FindBlock(BlocksOf(Value()), svc) && r == FindRoute(RoutesOf(BlocksOf(Value())[h]), svc)
      modifies Repr
      ensures Valid() && Unshared() && fresh(Repr - old(Repr))
      ensures Value() == Split(old(Value()), svc, name)
    {
      assert BlocksOf(Value()) == HttpValues();
      Found(h, r);
      SplitEntry(h, r, name);
    }

    /** The edit of a merge, on the positions that the searches have returned. */
    method MergeInPlace(svc: string, name: string, h: nat, r: nat, k: nat)
      requires Valid() && Unshared()
      requires h == FindBlock(BlocksOf(Value()), svc) && r == FindRoute(RoutesOf(BlocksOf(Value())[h]), svc)
      requires k == FindRoute(RoutesOf(BlocksOf(Value())[h]), name)
      modifies Repr
      ensures Valid() && Unshared() && fresh(Repr - old(Repr))
      ensures Value() == Merge(old(Value()), svc, name)
    {
      assert BlocksOf(Value()) == HttpValues();
      Found(h, r);
      Found(h, k);
      MergeEntry(h, r, k);
    }
  }

  /**
   Why a failed write can be retried: the controller edits a deep copy of the cached object, and every
   object of the cached graph, down to each weight and route list, is left alone.
   */
  method SplitOnCopy(cached: VirtualServiceSpec, svc: string, name: string) returns (copy: VirtualServiceSpec)
    requires cached.Valid() && SearchableBlocks(BlocksOf(cached.Value()), svc)
    ensures copy.Valid() && fresh(copy.Repr) && copy.Value() == Split(cached.Value(), svc, name)
    ensures unchanged(cached.Repr)
  {
    copy := cached.DeepCopy();
    SplitIfFound(copy, svc, name);
  }

  /** The search and the edit, on an object graph that the caller owns. */
  method SplitIfFound(vs: VirtualServiceSpec, svc: string, name: string)
    requires vs.Valid() && vs.Unshared() && SearchableBlocks(BlocksOf(vs.Value()), svc)
    modifies vs.Repr
    ensures vs.Valid() && fresh(vs.Repr - old(vs.Repr)) && vs.Value() == Split(old(vs.Value()), svc, name)
  {
    var h, r := vs.FindMatchingHttpAndRoute(svc);
    if h != -1 && r != -1 {
      vs.SplitInPlace(svc, h, r, name);
    }
  }
}
