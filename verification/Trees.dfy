/** Trees in the heap and trees as values: one is built from the other with the calls the callers of
    cJSON use, the Create and Add functions and the walk along `child` and `next`. */
module Trees {
  import opened Bytes
  import opened JsonNumber
  import opened Json
  import opened JsonParse
  import opened Nodes
  import opened SiblingList

  /** A tree that nothing else hangs on: fresh nodes, no neighbours, no key. */
  ghost predicate Loose(n: Node, v: Value)
    reads n, n.repr
  {
    n.Valid() && n.model == v && n.next == null && n.prev == null && n.key == None
  }

  /** Builds the tree of a value out of fresh nodes. */
  method Import(v: Value) returns (n: Node)
    requires WellFormed(v)
    ensures Loose(n, v) && fresh(n.repr)
    decreases v, 0
  {
    n := new Node();
    match v {
      case Null => n.SetWord(NullKind);
      case False => n.SetWord(FalseKind);
      case True => n.SetWord(TrueKind);
      case Number(d) => n.SetNumber(d);
      case String(t) => n.SetString(t);
      case Array(items) =>
        n.kind, n.model := ArrayKind, Array([]);
        ImportItems(n, items);
      case Object(members) =>
        n.kind, n.model := ObjectKind, Object([]);
        ImportMembers(n, members);
    }
  }

  /** Adds the items to an empty array. */
  method ImportItems(n: Node, items: seq<Value>)
    requires ItemsWellFormed(items) && Loose(n, Array([])) && n.repr == {n}
    modifies n`child, n`kind, n`kids, n`repr, n`model
    ensures Loose(n, Array(items)) && fresh(n.repr - {n})
    decreases items, 0
  {
    var i := 0;
    assert items[0..] == items && items[..0] == [];
    while i < |items|
      invariant i <= |items| && ItemsWellFormed(items[i..])
      invariant Loose(n, Array(items[..i])) && fresh(n.repr - {n})
      modifies n`child, n`kind, n`kids, n`repr, n`model
    {
      assert items[i..][0] == items[i] && items[i..][1..] == items[i + 1..];
      ImportItem(n, items[i], items[..i]);
      assert items[..i + 1] == items[..i] + [items[i]];
      i := i + 1;
    }
    assert items[..i] == items;
  }

  lemma AppendedItem(items: seq<Value>, key: Option<seq<byte>>, v: Value)
    ensures WithChild(Array(items), |items|, key, v) == Array(items + [v])
  {
    assert Inserted(items, |items|, v) == items + [v];
  }

  /** One more item at the end of an array. */
  method ImportItem(n: Node, v: Value, ghost items: seq<Value>)
    requires WellFormed(v) && Loose(n, Array(items))
    modifies n`child, n`kind, n`kids, n`repr, n`model, n.kids`next, n.kids`prev
    ensures Loose(n, Array(items + [v])) && fresh(n.repr - old(n.repr))
    decreases v, 1
  {
    hide HasModels, HasMembers, Forest, Linked, WellFormed, WithChild, Inserted;
    var item := Import(v);
    AppendedItem(items, item.key, v);
    var ok := AddItemToArray(n, item);
  }

  /** Adds the members to an empty object. */
  method ImportMembers(n: Node, members: seq<Member>)
    requires MembersWellFormed(members) && Loose(n, Object([])) && n.repr == {n}
    modifies n`child, n`kind, n`kids, n`repr, n`model
    ensures Loose(n, Object(members)) && fresh(n.repr - {n})
    decreases members, 0
  {
    var i := 0;
    assert members[0..] == members && members[..0] == [];
    while i < |members|
      invariant i <= |members| && MembersWellFormed(members[i..])
      invariant Loose(n, Object(members[..i])) && fresh(n.repr - {n})
      modifies n`child, n`kind, n`kids, n`repr, n`model
    {
      assert members[i..][0] == members[i] && members[i..][1..] == members[i + 1..];
      ImportMember(n, members[i], members[..i]);
      assert members[..i + 1] == members[..i] + [members[i]];
      i := i + 1;
    }
    assert members[..i] == members;
  }

  /** One more member at the end of an object. */
  method ImportMember(n: Node, m: Member, ghost members: seq<Member>)
    requires NoNul(m.key) && WellFormed(m.value) && Loose(n, Object(members))
    modifies n`child, n`kind, n`kids, n`repr, n`model, n.kids`next, n.kids`prev
    ensures Loose(n, Object(members + [m])) && fresh(n.repr - old(n.repr))
    decreases m, 1
  {
    hide Forest, Linked, HasModels, HasMembers;
    var item := Import(m.value);
    var ok := AddItemToObject(n, m.key, item);
    assert Member(m.key, m.value) == m;
  }

  /** The value of a tree in the heap. */
  method Export(n: Node) returns (v: Value)
    requires n.Valid()
    ensures v == n.model
    decreases n.repr
  {
    match n.kind {
      case NullKind => v := Null;
      case FalseKind => v := False;
      case TrueKind => v := True;
      case NumberKind => v := Number(n.valuedouble);
      case StringKind => v := String(n.valuestring);
      case ArrayKind =>
        var items := ExportItems(n);
        v := Array(items);
      case ObjectKind =>
        var members := ExportMembers(n);
        v := Object(members);
      case InvalidKind => assert false;
    }
  }

  method ExportItems(n: Node) returns (items: seq<Value>)
    requires n.Valid() && n.kind == ArrayKind
    ensures Array(items) == n.model
    decreases n.repr, 0
  {
    items := [];
    var child := n.child;
    while child != null
      invariant |items| <= |n.kids| && child == (if |items| < |n.kids| then n.kids[|items|] else null)
      invariant items == n.model.items[..|items|]
      decreases |n.kids| - |items|
    {
      var v := Export(child);
      items := items + [v];
      child := child.next;
    }
  }

  method ExportMembers(n: Node) returns (members: seq<Member>)
    requires n.Valid() && n.kind == ObjectKind
    ensures Object(members) == n.model
    decreases n.repr, 0
  {
    members := [];
    var child := n.child;
    while child != null
      invariant |members| <= |n.kids| && child == (if |members| < |n.kids| then n.kids[|members|] else null)
      invariant members == n.model.members[..|members|]
      decreases |n.kids| - |members|
    {
      var v := Export(child);
      members := members + [Member(child.key.value, v)];
      child := child.next;
    }
  }
}
