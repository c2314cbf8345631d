/** The cJSON node: siblings in a doubly linked list whose head keeps the tail in `prev`. */
module Nodes {
  import opened Bytes
  import opened JsonNumber
  import opened Json

  datatype Kind = InvalidKind | NullKind | FalseKind | TrueKind | NumberKind | StringKind | ArrayKind | ObjectKind

  class Node {
    var next: Node?
    var prev: Node?
    var child: Node?
    var kind: Kind
    var valuestring: seq<byte>
    var valueint: int
    var valuedouble: real
    var key: Option<seq<byte>>

    ghost var kids: seq<Node>   // the children in order
    ghost var repr: set<Node>   // this node and everything below it
    ghost var model: Value      // the tree this node stands for

    /** A zeroed node. */
    constructor ()
      ensures next == null && prev == null && child == null && kind == InvalidKind
      ensures valuestring == [] && key == None && kids == [] && repr == {this}
    {
      next, prev, child, kind := null, null, null, InvalidKind;
      valuestring, valueint, valuedouble, key := [], 0, 0.0, None;
      kids, repr, model := [], {this}, Null;
    }

    /** The node heads a well-formed tree for `model`. The links of the node itself, which belong to the
        list it stands in, and its key do not matter. */
    ghost predicate Valid()
      reads this`child, this`kind, this`valuestring, this`valueint, this`valuedouble, this`kids, this`repr, this`model
      reads repr - {this}
      decreases repr, 0
    {
      && this in repr
      && (forall i :: 0 <= i < |kids| ==> kids[i] in repr - {this})
      && Forest(kids, repr - {this})
      && Linked(child, kids)
      && Matches()
    }

    /** The fields of the node and its children's models make up `model`. */
    ghost predicate Matches()
      reads this`kind, this`valuestring, this`valueint, this`valuedouble, this`kids, this`model
      reads kids`key, kids`model
    {
      match kind
      case InvalidKind => false
      case NullKind => model == Null && kids == []
      case FalseKind => model == False && kids == []
      case TrueKind => model == True && kids == []
      case NumberKind => model == Number(valuedouble) && valueint == Saturate(valuedouble) && kids == []
      case StringKind => model == String(valuestring) && NoNul(valuestring) && kids == []
      case ArrayKind => model.Array? && HasModels(kids, model.items)
      case ObjectKind => model.Object? && HasMembers(kids, model.members)
    }

    /** A leaf of one of the three words. */
    method SetWord(k: Kind)
      requires Blank() && (k == NullKind || k == FalseKind || k == TrueKind)
      modifies this`kind, this`valueint, this`model
      ensures Valid() && model == if k == NullKind then Null else if k == FalseKind then False else True
    {
      kind := k;
      if k == TrueKind {
        valueint := 1;
      }
      model := if k == NullKind then Null else if k == FalseKind then False else True;
    }

    /** A number leaf: the double and its saturated integer. */
    method SetNumber(number: real)
      requires Blank()
      modifies this`kind, this`valueint, this`valuedouble, this`model
      ensures Valid() && model == Number(number)
    {
      valuedouble := number;
      if number >= INT_MAX as real {
        valueint := INT_MAX;
      } else if number <= INT_MIN as real {
        valueint := INT_MIN;
      } else {
        valueint := Truncate(number);
      }
      kind := NumberKind;
      model := Number(number);
    }

    /** A string leaf. */
    method SetString(text: seq<byte>)
      requires Blank() && NoNul(text)
      modifies this`kind, this`valuestring, this`model
      ensures Valid() && model == String(text) && valuestring == text
    {
      kind := StringKind;
      valuestring := text;
      model := String(text);
    }

    /** Hangs a finished chain of children below the node: the head's `prev` becomes the last child. */
    method Adopt(container: Kind, head: Node?, last: Node?, ghost nodes: seq<Node>, ghost region: set<Node>,
        ghost tree: Value)
      requires Blank() && this !in region
      requires IsChain(head, last, nodes, region)
      requires if container == ArrayKind then tree.Array? && HasModels(nodes, tree.items)
               else container == ObjectKind && tree.Object? && HasMembers(nodes, tree.members)
      modifies this`child, this`kind, this`kids, this`repr, this`model, nodes`prev
      ensures Valid() && model == tree && repr == {this} + region && kind == container && kids == nodes
    {
      hide HasModels, HasMembers, Forest, Chained;
      CloseRing(head, last, nodes, region);
      SetContainer(container, head, nodes, region, tree);
    }

    method SetContainer(container: Kind, head: Node?, ghost nodes: seq<Node>, ghost region: set<Node>,
        ghost tree: Value)
      modifies this`child, this`kind, this`kids, this`repr, this`model
      ensures kind == container && child == head && kids == nodes && repr == {this} + region && model == tree
    {
      kind, child := container, head;
      kids, repr, model := nodes, {this} + region, tree;
    }

    /** Nothing hangs below the node yet. */
    ghost predicate Blank()
      reads this`child, this`kids, this`repr
    {
      child == null && kids == [] && repr == {this}
    }
  }

  /** `next` and `prev` link the sequence from its head on; the tail ends it. */
  ghost predicate Chained(head: Node?, nodes: seq<Node>)
    reads nodes`next, nodes`prev
  {
    && (nodes == [] ==> head == null)
    && (nodes != [] ==> head == nodes[0] && nodes[|nodes| - 1].next == null)
    && (forall i {:trigger nodes[i].next} :: 0 <= i < |nodes| - 1 ==> nodes[i].next == nodes[i + 1])
    && (forall i {:trigger nodes[i].prev} :: 0 < i < |nodes| ==> nodes[i].prev == nodes[i - 1])
  }

  /** A complete sibling list: chained, and the head's `prev` is the last node. */
  ghost predicate Linked(head: Node?, nodes: seq<Node>)
    reads nodes`next, nodes`prev
  {
    Chained(head, nodes) && (nodes != [] ==> nodes[0].prev == nodes[|nodes| - 1])
  }

  /** Valid trees that share no node, all inside `region`. The links between the roots do not matter. */
  ghost predicate Forest(nodes: seq<Node>, region: set<Node>)
    reads nodes`child, nodes`kind, nodes`valuestring, nodes`valueint, nodes`valuedouble, nodes`kids, nodes`repr,
        nodes`model
    reads region - (set n | n in nodes)
    decreases region, 1
  {
    && (forall i :: 0 <= i < |nodes| ==> nodes[i] in nodes[i].repr && nodes[i].repr <= region)
    && (forall i, j :: 0 <= i < j < |nodes| ==> nodes[i].repr !! nodes[j].repr)
    && (forall i :: 0 <= i < |nodes| ==> nodes[i].Valid())
  }

  /** A chain under construction: linked roots of disjoint trees, and its last node. */
  ghost predicate IsChain(head: Node?, last: Node?, nodes: seq<Node>, region: set<Node>)
    reads nodes, region
  {
    Chained(head, nodes) && Forest(nodes, region) && (nodes != [] ==> last == nodes[|nodes| - 1])
  }

  lemma EmptyChain()
    ensures IsChain(null, null, [], {})
  {
  }

  lemma ChainIsInside(head: Node?, last: Node?, nodes: seq<Node>, region: set<Node>)
    requires IsChain(head, last, nodes, region)
    ensures forall i :: 0 <= i < |nodes| ==> nodes[i] in region
  {
  }

  lemma FirstChild(n: Node)
    requires n.Valid()
    ensures n.child == if n.kids == [] then null else n.kids[0]
  {
  }

  /** A child heads a smaller tree of its own, and leads on to the next one. */
  lemma ChildOf(n: Node, i: nat)
    requires n.Valid() && i < |n.kids|
    ensures n.kids[i].Valid() && n.kids[i].repr <= n.repr - {n} && n in n.repr
    ensures n.kids[i].next == if i + 1 < |n.kids| then n.kids[i + 1] else null
  {
  }

  /** The head of a chain learns who is last. */
  method CloseRing(head: Node?, last: Node?, ghost nodes: seq<Node>, ghost region: set<Node>)
    requires IsChain(head, last, nodes, region)
    modifies nodes`prev
    ensures Linked(head, nodes) && Forest(nodes, region)
  {
    if head != null {
      head.prev := last;
    }
  }

  /** Allocates a node and links it behind the last one of a chain. */
  method AppendBlank(head: Node?, last: Node?, ghost nodes: seq<Node>, ghost region: set<Node>)
    returns (n: Node, first: Node)
    requires IsChain(head, last, nodes, region)
    modifies nodes`next
    ensures fresh(n) && n.Blank() && n.key == None && n !in region
    ensures Chained(first, nodes + [n]) && Forest(nodes, region)
  {
    n := new Node();
    if head == null {
      first := n;
    } else {
      first := head;
      last.next := n;
      n.prev := last;
    }
  }

  /** A chain grows by one finished tree. */
  lemma ForestGrows(nodes: seq<Node>, region: set<Node>, n: Node)
    requires Forest(nodes, region) && n.Valid() && n.repr !! region
    ensures Forest(nodes + [n], region + n.repr)
  {
  }

  lemma ChainGrows(head: Node?, nodes: seq<Node>, region: set<Node>, n: Node)
    requires Chained(head, nodes + [n]) && Forest(nodes, region) && n.Valid() && n.repr !! region
    ensures IsChain(head, n, nodes + [n], region + n.repr)
  {
    ForestGrows(nodes, region, n);
  }

  ghost predicate HasModels(nodes: seq<Node>, values: seq<Value>)
    reads nodes`model
  {
    |values| == |nodes| && forall i :: 0 <= i < |nodes| ==> values[i] == nodes[i].model
  }

  /** No node carries a key. */
  ghost predicate Keyless(nodes: seq<Node>)
    reads nodes`key
  {
    forall i :: 0 <= i < |nodes| ==> nodes[i].key == None
  }

  /** The parsed elements of an array. */
  ghost predicate HasElements(nodes: seq<Node>, values: seq<Value>)
    reads nodes`key, nodes`model
  {
    HasModels(nodes, values) && Keyless(nodes)
  }

  ghost predicate HasMembers(nodes: seq<Node>, members: seq<Member>)
    reads nodes`key, nodes`model
  {
    |members| == |nodes| && forall i :: 0 <= i < |nodes| ==>
      nodes[i].key == Some(members[i].key) && NoNul(members[i].key) && members[i].value == nodes[i].model
  }

  lemma ElementsGrow(nodes: seq<Node>, values: seq<Value>, n: Node)
    requires HasElements(nodes, values) && n.key == None
    ensures HasElements(nodes + [n], values + [n.model])
  {
  }

  lemma MembersGrow(nodes: seq<Node>, members: seq<Member>, n: Node)
    requires HasMembers(nodes, members) && n.key.Some? && NoNul(n.key.value)
    ensures HasMembers(nodes + [n], members + [Member(n.key.value, n.model)])
  {
  }
}
