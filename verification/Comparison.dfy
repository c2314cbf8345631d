/** Copying and comparing trees in the heap. */
module Comparison {
  import opened Bytes
  import opened Json
  import JsonCompare
  import opened Nodes
  import opened SiblingList

  // -------- cJSON_Duplicate

  /** Links a finished tree behind the last root of a chain. */
  method AppendTree(head: Node?, last: Node?, n: Node, ghost nodes: seq<Node>, ghost region: set<Node>)
    returns (first: Node)
    requires IsChain(head, last, nodes, region) && n.Valid() && n.repr !! region && n.next == null
    modifies nodes`next, n`prev
    ensures IsChain(first, n, nodes + [n], region + n.repr)
  {
    ghost var all := nodes + [n];
    LinkTree(head, last, n, nodes, region);
    first := if head == null then n else head;
    ChainGrows(first, nodes, region, n);
  }

  method LinkTree(head: Node?, last: Node?, n: Node, ghost nodes: seq<Node>, ghost region: set<Node>)
    requires IsChain(head, last, nodes, region) && n.Valid() && n.repr !! region && n.next == null
    modifies nodes`next, n`prev
    ensures Chained(if head == null then n else head, nodes + [n]) && Forest(nodes, region) && n.Valid()
  {
    if last != null && head != null {
      last.next := n;
      n.prev := last;
    }
  }

  /** The copies stand for the same trees under the same keys. */
  ghost predicate Alike(nodes: seq<Node>, originals: seq<Node>)
    reads nodes`key, nodes`model, originals`key, originals`model
  {
    |nodes| == |originals| && forall i :: 0 <= i < |nodes| ==>
      nodes[i].key == originals[i].key && nodes[i].model == originals[i].model
  }

  lemma AlikeMore(nodes: seq<Node>, originals: seq<Node>, n: Node, original: Node)
    requires Alike(nodes, originals) && n.key == original.key && n.model == original.model
    ensures Alike(nodes + [n], originals + [original])
  {
  }

  /** The fields of a node without its children. */
  method CopyNode(item: Node) returns (copy: Node)
    ensures fresh(copy) && copy.Blank() && copy.next == null && copy.prev == null && copy.key == item.key
    ensures copy.kind == item.kind && copy.valuestring == item.valuestring
    ensures copy.valueint == item.valueint && copy.valuedouble == item.valuedouble
  {
    copy := new Node();
    copy.kind, copy.valueint, copy.valuedouble := item.kind, item.valueint, item.valuedouble;
    copy.valuestring, copy.key := item.valuestring, item.key;
  }

  /** A copy of the node, with copies of everything below it when asked for. */
  method Duplicate(item: Node, recurse: bool) returns (copy: Node)
    requires item.Valid()
    ensures fresh(copy.repr) && copy.next == null && copy.prev == null && copy.key == item.key
    ensures copy.kind == item.kind && copy.valuestring == item.valuestring
    ensures copy.valueint == item.valueint && copy.valuedouble == item.valuedouble
    ensures if recurse then copy.Valid() && copy.model == item.model else copy.Blank()
    decreases item.repr, 2
  {
    copy := CopyNode(item);
    if recurse {
      CopyChildren(item, copy);
    }
  }

  method CopyChildren(item: Node, copy: Node)
    requires item.Valid() && copy.Blank() && copy !in item.repr
    requires copy.kind == item.kind && copy.valuestring == item.valuestring
    requires copy.valueint == item.valueint && copy.valuedouble == item.valuedouble
    modifies copy`child, copy`kind, copy`kids, copy`repr, copy`model
    ensures copy.Valid() && copy.model == item.model && copy.kind == item.kind && fresh(copy.repr - {copy})
    decreases item.repr, 1
  {
    var head, last;
    ghost var nodes, region;
    head, last, nodes, region := CopyList(item);
    if item.kind == ArrayKind || item.kind == ObjectKind {
      copy.Adopt(item.kind, head, last, nodes, region, item.model);
    } else {
      copy.model := item.model;
    }
  }

  /** Copies of the children, chained in the same order. */
  method CopyList(item: Node) returns (head: Node?, last: Node?, ghost nodes: seq<Node>, ghost region: set<Node>)
    requires item.Valid()
    ensures IsChain(head, last, nodes, region) && Alike(nodes, item.kids) && fresh(region)
    decreases item.repr, 0
  {
    hide Forest, IsChain, HasModels, HasMembers, Linked;
    head, last, nodes, region := null, null, [], {};
    EmptyChain();
    FirstChild(item);
    var child := item.child;
    while child != null
      invariant |nodes| <= |item.kids| && child == (if |nodes| < |item.kids| then item.kids[|nodes|] else null)
      invariant IsChain(head, last, nodes, region) && Alike(nodes, item.kids[..|nodes|]) && fresh(region)
      decreases |item.kids| - |nodes|
    {
      ghost var originals := item.kids[..|nodes|];
      ChildOf(item, |nodes|);
      ChainIsInside(head, last, nodes, region);
      assert item.kids[..|nodes| + 1] == originals + [child];
      head, last, nodes, region := CopyNext(child, head, last, nodes, region, originals);
      child := child.next;
    }
    assert item.kids[..|nodes|] == item.kids;
  }

  /** The copy of one more child at the end of the chain. */
  method CopyNext(child: Node, head: Node?, last: Node?, ghost nodes: seq<Node>, ghost region: set<Node>,
                  ghost originals: seq<Node>)
    returns (head': Node?, last': Node?, ghost nodes': seq<Node>, ghost region': set<Node>)
    requires child.Valid() && IsChain(head, last, nodes, region) && Alike(nodes, originals)
    modifies nodes`next
    ensures IsChain(head', last', nodes', region') && Alike(nodes', originals + [child])
    ensures |nodes'| == |nodes| + 1 && region <= region' && fresh(region' - region)
    decreases child.repr, 3
  {
    hide Forest, Chained, HasModels, HasMembers, Alike;
    var newchild := Duplicate(child, true);
    AlikeMore(nodes, originals, newchild, child);
    head' := AppendTree(head, last, newchild, nodes, region);
    last', nodes', region' := newchild, nodes + [newchild], region + newchild.repr;
  }

  // -------- cJSON_Compare, case-sensitive

  ghost function Weight(n: Node?): nat
    reads n
  {
    if n == null then 0 else JsonCompare.Size(n.model)
  }

  /** The two nodes are one, or share nothing. */
  ghost predicate Apart(a: Node?, b: Node?)
    reads a, b
  {
    a != null && b != null && a != b ==> a.repr !! b.repr
  }

  method Compare(a: Node?, b: Node?) returns (r: bool)
    requires (a != null ==> a.Valid()) && (b != null ==> b.Valid()) && Apart(a, b)
    ensures r == (a != null && b != null && (a == b || JsonCompare.Compare(a.model, b.model)))
    decreases Weight(a) + Weight(b), 2
  {
    if a == null || b == null || a.kind != b.kind {
      return false;
    }
    if a == b {
      return true;
    }
    match a.kind {
      case FalseKind => r := true;
      case TrueKind => r := true;
      case NullKind => r := true;
      case NumberKind => r := JsonCompare.CompareDouble(a.valuedouble, b.valuedouble);
      case StringKind => r := a.valuestring == b.valuestring;
      case ArrayKind => r := CompareItems(a, b);
      case ObjectKind =>
        r := AllFound(a, b);
        if r {
          r := AllFound(b, a);
        }
      case InvalidKind => r := false;
    }
  }

  method CompareItems(a: Node, b: Node) returns (r: bool)
    requires a.Valid() && b.Valid() && a.repr !! b.repr && a.kind == ArrayKind && b.kind == ArrayKind
    ensures r == JsonCompare.CompareItems(a.model.items, b.model.items)
    decreases Weight(a) + Weight(b), 1
  {
    hide Forest, JsonCompare.Compare, JsonCompare.CompareItems, Linked, HasMembers;
    FirstChild(a);
    FirstChild(b);
    var x, y := a.child, b.child;
    ghost var xs, ys := a.model.items, b.model.items;
    ghost var i := 0;
    assert xs[0..] == xs && ys[0..] == ys;
    while x != null && y != null
      invariant i <= |a.kids| && i <= |b.kids|
      invariant x == (if i < |a.kids| then a.kids[i] else null) && y == (if i < |b.kids| then b.kids[i] else null)
      invariant JsonCompare.CompareItems(xs, ys) == JsonCompare.CompareItems(xs[i..], ys[i..])
      decreases |a.kids| - i
    {
      ItemIsSmaller(xs, i);
      ItemIsSmaller(ys, i);
      ChildOf(a, i);
      ChildOf(b, i);
      NextItems(xs, ys, i);
      var same := Compare(x, y);
      if !same {
        return false;
      }
      x := x.next;
      y := y.next;
      i := i + 1;
    }
    ItemsAtEnd(xs, ys, i);
    return x == y;
  }

  lemma NextItems(xs: seq<Value>, ys: seq<Value>, i: nat)
    requires i < |xs| && i < |ys|
    ensures JsonCompare.CompareItems(xs[i..], ys[i..])
            == (JsonCompare.Compare(xs[i], ys[i]) && JsonCompare.CompareItems(xs[i + 1..], ys[i + 1..]))
  {
    assert xs[i..][1..] == xs[i + 1..] && ys[i..][1..] == ys[i + 1..];
  }

  lemma ItemsAtEnd(xs: seq<Value>, ys: seq<Value>, i: nat)
    requires i <= |xs| && i <= |ys| && (i == |xs| || i == |ys|)
    ensures JsonCompare.CompareItems(xs[i..], ys[i..]) == (i == |xs| && i == |ys|)
  {
  }

  lemma {:induction false} ItemIsSmaller(items: seq<Value>, i: nat)
    requires i < |items|
    ensures JsonCompare.Size(items[i]) <= JsonCompare.ItemsSize(items)
  {
    if i > 0 {
      ItemIsSmaller(items[1..], i - 1);
    }
  }

  lemma {:induction false} MemberIsSmaller(members: seq<Member>, i: nat)
    requires i < |members|
    ensures JsonCompare.Size(members[i].value) <= JsonCompare.MembersSize(members)
  {
    if i > 0 {
      MemberIsSmaller(members[1..], i - 1);
    }
  }

  /** Every member of `a` has an equal counterpart in `b`. */
  method AllFound(a: Node, b: Node) returns (r: bool)
    requires a.Valid() && b.Valid() && a.repr !! b.repr && a.kind == ObjectKind && b.kind == ObjectKind
    ensures r == JsonCompare.AllFound(a.model.members, b.model.members)
    decreases Weight(a) + Weight(b), 1
  {
    hide Forest, JsonCompare.Compare, Linked;
    FirstChild(a);
    var x := a.child;
    ghost var ms, ns := a.model.members, b.model.members;
    ghost var i := 0;
    assert ms[0..] == ms;
    while x != null
      invariant i <= |a.kids| && x == (if i < |a.kids| then a.kids[i] else null)
      invariant JsonCompare.AllFound(ms, ns) == JsonCompare.AllFound(ms[i..], ns)
      decreases |a.kids| - i
    {
      assert ms[i..][0] == ms[i] && ms[i..][1..] == ms[i + 1..];
      MemberIsSmaller(ms, i);
      ChildOf(a, i);
      var same := FoundSame(x, b);
      if !same {
        return false;
      }
      x := x.next;
      i := i + 1;
    }
    return true;
  }

  /** The first member of `b` with the key of `x` equals it. */
  method FoundSame(x: Node, b: Node) returns (r: bool)
    requires x.Valid() && x.key.Some? && b.Valid() && x.repr !! b.repr && b.kind == ObjectKind
    ensures var found := Lookup(b.model.members, x.key.value);
            r == (found.Some? && JsonCompare.Compare(x.model, found.value))
    decreases Weight(x) + Weight(b), 0
  {
    var y := GetObjectItem(b, x.key.value);
    if y == null {
      return false;
    }
    JsonCompare.LookupIsSmaller(b.model.members, x.key.value);
    r := Compare(x, y);
  }

  /** A copy compares equal to its original exactly when members with the same key mean the same. */
  method CompareWithCopy(item: Node) returns (r: bool)
    requires item.Valid() && Printable(item.model)
    ensures r <==> JsonCompare.Agrees(item.model)
  {
    var copy := Duplicate(item, true);
    r := Compare(item, copy);
    JsonCompare.CompareCopy(item.model);
  }
}
