/** Operations on the sibling list of a container, each the matching operation on the sequence of children. */
module SiblingList {
  import opened Bytes
  import opened Json
  import opened Nodes

  function Inserted<T>(s: seq<T>, i: nat, x: T): seq<T>
    requires i <= |s|
  {
    s[..i] + [x] + s[i..]
  }

  function Removed<T>(s: seq<T>, i: nat): seq<T>
    requires i < |s|
  {
    s[..i] + s[i + 1..]
  }

  // -------- the tree after an operation

  predicate IsContainer(v: Value) {
    v.Array? || v.Object?
  }

  function ChildCount(v: Value): nat
    requires IsContainer(v)
  {
    if v.Array? then |v.items| else |v.members|
  }

  /** A node that may stand in the container: in an object it needs a key. */
  ghost predicate Fits(v: Value, n: Node)
    reads n`key
  {
    v.Array? || (v.Object? && n.key.Some? && NoNul(n.key.value))
  }

  function WithChild(v: Value, i: nat, key: Option<seq<byte>>, child: Value): Value
    requires IsContainer(v) && i <= ChildCount(v) && (v.Object? ==> key.Some?)
  {
    if v.Array? then Array(Inserted(v.items, i, child)) else Object(Inserted(v.members, i, Member(key.value, child)))
  }

  function WithoutChild(v: Value, i: nat): Value
    requires IsContainer(v) && i < ChildCount(v)
  {
    if v.Array? then Array(Removed(v.items, i)) else Object(Removed(v.members, i))
  }

  function WithReplaced(v: Value, i: nat, key: Option<seq<byte>>, child: Value): Value
    requires IsContainer(v) && i < ChildCount(v) && (v.Object? ==> key.Some?)
  {
    if v.Array? then Array(v.items[i := child]) else Object(v.members[i := Member(key.value, child)])
  }

  ghost predicate Container(n: Node)
    reads n`child, n`kind, n`valuestring, n`valueint, n`valuedouble, n`kids, n`repr, n`model
    reads n.repr - {n}
  {
    n.Valid() && IsContainer(n.model)
  }

  /** The children make up the tree of a container of this kind. */
  ghost predicate Fitting(kind: Kind, kids: seq<Node>, model: Value)
    reads kids`key, kids`model
  {
    if kind == ArrayKind then model.Array? && HasModels(kids, model.items)
    else kind == ObjectKind && model.Object? && HasMembers(kids, model.members)
  }

  /** What must hold of the children before they are handed to their parent. */
  ghost predicate Ready(parent: Node, kids: seq<Node>, region: set<Node>, model: Value)
    reads parent`kind, kids`key, kids`model
    reads kids`child, kids`kind, kids`valuestring, kids`valueint, kids`valuedouble, kids`kids, kids`repr
    reads region - (set n | n in kids)
  {
    parent !in region && Forest(kids, region) && Fitting(parent.kind, kids, model)
  }

  lemma KidsAreCounted(n: Node)
    requires Container(n)
    ensures ChildCount(n.model) == |n.kids|
  {
  }

  lemma FittingWith(kind: Kind, kids: seq<Node>, model: Value, i: nat, n: Node)
    requires IsContainer(model) && Fitting(kind, kids, model) && ChildCount(model) == |kids| && i <= |kids|
      && Fits(model, n)
    ensures Fitting(kind, Inserted(kids, i, n), WithChild(model, i, n.key, n.model))
  {
  }

  lemma ReadyWith(parent: Node, i: nat, n: Node)
    requires Container(parent) && i <= |parent.kids| && n.Valid() && n.repr !! parent.repr && Fits(parent.model, n)
    ensures Ready(parent, Inserted(parent.kids, i, n), parent.repr - {parent} + n.repr,
                  WithChild(parent.model, i, n.key, n.model))
  {
    hide Forest, Linked, HasModels, HasMembers, Inserted;
    KidsAreCounted(parent);
    FittingWith(parent.kind, parent.kids, parent.model, i, n);
    ForestWith(parent.kids, parent.repr - {parent}, i, n);
  }

  lemma ReadyWithout(parent: Node, i: nat)
    requires Container(parent) && i < |parent.kids|
    ensures Ready(parent, Removed(parent.kids, i), parent.repr - {parent} - parent.kids[i].repr,
      WithoutChild(parent.model, i))
    ensures parent.kids[i].Valid() && parent.kids[i].repr <= parent.repr - {parent}
  {
    ForestWithout(parent.kids, parent.repr - {parent}, i);
  }

  /** The other roots keep out of a root's tree, and what is outside it are the other roots. */
  lemma RestIsApart(nodes: seq<Node>, region: set<Node>, i: nat)
    requires Forest(nodes, region) && i < |nodes|
    ensures forall j :: 0 <= j < |nodes| && j != i ==> nodes[j] !in nodes[i].repr
    ensures Within(nodes, region - nodes[i].repr, Removed(nodes, i))
  {
    var rest := Removed(nodes, i);
    forall j | 0 <= j < |nodes| && nodes[j] in region - nodes[i].repr
      ensures nodes[j] in rest
    {
      assert rest[if j < i then j else j - 1] == nodes[j];
    }
  }

  /** Those of `nodes` that lie in the region are among `roots`. */
  ghost predicate Within(nodes: seq<Node>, region: set<Node>, roots: seq<Node>) {
    forall j :: 0 <= j < |nodes| && nodes[j] in region ==> nodes[j] in roots
  }

  lemma ReadyReplaced(parent: Node, i: nat, n: Node)
    requires Container(parent) && i < |parent.kids| && n.Valid() && n.repr !! parent.repr && Fits(parent.model, n)
    ensures Ready(parent, parent.kids[i := n], parent.repr - {parent} - parent.kids[i].repr + n.repr,
                  WithReplaced(parent.model, i, n.key, n.model))
    ensures parent.kids[i].repr <= parent.repr - {parent}
    ensures Within(parent.kids, parent.repr - {parent} - parent.kids[i].repr + n.repr, parent.kids[i := n])
  {
    ForestReplaced(parent.kids, parent.repr - {parent}, i, n);
    forall j | 0 <= j < |parent.kids| && parent.kids[j] in parent.repr - {parent} - parent.kids[i].repr + n.repr
      ensures parent.kids[j] in parent.kids[i := n]
    {
      assert j != i;
      assert parent.kids[i := n][j] == parent.kids[j];
    }
  }

  lemma ForestWith(nodes: seq<Node>, region: set<Node>, i: nat, n: Node)
    requires Forest(nodes, region) && i <= |nodes| && n.Valid() && n.repr !! region
    ensures Forest(Inserted(nodes, i, n), region + n.repr)
  {
  }

  lemma ForestWithout(nodes: seq<Node>, region: set<Node>, i: nat)
    requires Forest(nodes, region) && i < |nodes|
    ensures Forest(Removed(nodes, i), region - nodes[i].repr) && nodes[i].Valid()
  {
  }

  lemma ForestReplaced(nodes: seq<Node>, region: set<Node>, i: nat, n: Node)
    requires Forest(nodes, region) && i < |nodes| && n.Valid() && n.repr !! region
    ensures Forest(nodes[i := n], region - nodes[i].repr + n.repr)
  {
  }

  /** The parent takes over a finished list of children. */
  method Rebuild(parent: Node, ghost kids: seq<Node>, ghost region: set<Node>, ghost model: Value)
    requires Linked(parent.child, kids) && Ready(parent, kids, region, model)
    modifies parent`child, parent`kind, parent`kids, parent`repr, parent`model
    ensures Became(parent, kids, {parent} + region, model)
  {
    parent.SetContainer(parent.kind, parent.child, kids, region, model);
  }

  /** What an operation leaves of a container: children, nodes and tree. */
  ghost predicate Became(n: Node, kids: seq<Node>, repr: set<Node>, model: Value)
    reads n`child, n`kind, n`valuestring, n`valueint, n`valuedouble, n`kids, n`repr, n`model
    reads n.repr - {n}
  {
    Container(n) && n.kids == kids && n.repr == repr && n.model == model
  }

  // -------- relinking

  /** suffix_object and the tail pointer: the list with one more node at its end. */
  method LinkLast(parent: Node, item: Node, ghost kids: seq<Node>)
    requires Linked(parent.child, kids) && item !in kids && item.next == null
    modifies parent`child, item`next, item`prev, kids`next, kids`prev
    ensures Linked(parent.child, kids + [item])
  {
    var child := parent.child;
    if child == null {
      parent.child := item;
      item.prev := item;
      item.next := null;
    } else if child.prev != null {
      child.prev.next := item;
      item.prev := child.prev;
      parent.child.prev := item;
    }
  }

  /** The list with `item` before the node `after` at index `i`. */
  method LinkBefore(parent: Node, after: Node, item: Node, ghost kids: seq<Node>, ghost i: nat)
    requires Linked(parent.child, kids) && item !in kids && i < |kids| && kids[i] == after
    requires forall j, k :: 0 <= j < k < |kids| ==> kids[j] != kids[k]
    modifies parent`child, item`next, item`prev, kids`next, kids`prev
    ensures Linked(parent.child, Inserted(kids, i, item))
  {
    item.next := after;
    item.prev := after.prev;
    after.prev := item;
    if after == parent.child {
      parent.child := item;
    } else {
      item.prev.next := item;
    }
  }

  /** The list without the node at index `i`, which ends up with no neighbours. */
  method Unlink(parent: Node, item: Node, ghost kids: seq<Node>, ghost i: nat)
    requires Linked(parent.child, kids) && i < |kids| && kids[i] == item
    requires forall j, k :: 0 <= j < k < |kids| ==> kids[j] != kids[k]
    modifies parent`child, kids`next, kids`prev
    ensures Linked(parent.child, Removed(kids, i)) && item.next == null && item.prev == null
  {
    if item != parent.child {
      item.prev.next := item.next;
    }
    if item.next != null {
      item.next.prev := item.prev;
    }
    if item == parent.child {
      parent.child := item.next;
    } else if item.next == null {
      parent.child.prev := item.prev;
    }
    item.prev := null;
    item.next := null;
  }

  /** What stands next to the node at index `i`. */
  lemma Neighbours(head: Node?, kids: seq<Node>, i: nat)
    requires Linked(head, kids) && i < |kids|
    ensures kids[i].next == (if i + 1 < |kids| then kids[i + 1] else null)
    ensures kids[i].prev == (if i > 0 then kids[i - 1] else kids[|kids| - 1])
    ensures head == kids[0] && kids[0].prev == kids[|kids| - 1]
  {
  }

  /** The list with `replacement` in the place of the node at index `i`. */
  method Relink(parent: Node, item: Node, replacement: Node, ghost kids: seq<Node>, ghost i: nat)
    requires Linked(parent.child, kids) && i < |kids| && kids[i] == item && replacement !in kids
    requires forall j, k :: 0 <= j < k < |kids| ==> kids[j] != kids[k]
    modifies parent`child, replacement`next, replacement`prev, kids`next, kids`prev
    ensures Linked(parent.child, kids[i := replacement]) && item.next == null && item.prev == null
  {
    Neighbours(parent.child, kids, i);
    ghost var next := kids[i := replacement];
    assert forall k :: 0 <= k < |kids| && k != i ==> next[k] == kids[k];
    replacement.next := item.next;
    replacement.prev := item.prev;
    if replacement.next != null {
      replacement.next.prev := replacement;
    }
    if parent.child == item {
      if parent.child.prev == parent.child {
        replacement.prev := replacement;
      }
      parent.child := replacement;
    } else {
      if replacement.prev != null {
        replacement.prev.next := replacement;
      }
      if replacement.next == null {
        parent.child.prev := replacement;
      }
    }
    item.next := null;
    item.prev := null;
  }

  // -------- the operations

  lemma KidsDiffer(n: Node)
    requires n.Valid()
    ensures forall j, k :: 0 <= j < k < |n.kids| ==> n.kids[j] != n.kids[k]
    ensures forall j :: 0 <= j < |n.kids| ==> n.kids[j] in n.repr && n.kids[j] != n
  {
  }

  /** get_array_item: the node at the index, or null behind the end. */
  method GetArrayItem(parent: Node?, index: nat) returns (r: Node?)
    requires parent != null ==> parent.Valid()
    ensures r == if parent != null && index < |parent.kids| then parent.kids[index] else null
  {
    if parent == null {
      return null;
    }
    r := parent.child;
    var left := index;
    ghost var i := 0;
    while r != null && left > 0
      invariant 0 <= i <= |parent.kids| && i + left == index
      invariant r == (if i < |parent.kids| then parent.kids[i] else null)
    {
      left := left - 1;
      r := r.next;
      i := i + 1;
    }
  }

  /** get_object_item, case-sensitive: the first child with the name. */
  method GetObjectItem(parent: Node?, name: seq<byte>) returns (r: Node?)
    requires parent != null ==> parent.Valid() && (parent.kind == ObjectKind || Keyless(parent.kids))
    ensures var found := if parent == null then None else Get(parent.model, name);
            if found.None? then r == null
            else r != null && r in parent.kids && r.Valid() && r.model == found.value && r.key == Some(name)
  {
    if parent == null {
      return null;
    }
    r := parent.child;
    ghost var kids := parent.kids;
    ghost var members := if parent.model.Object? then parent.model.members else [];
    ghost var i := 0;
    assert members[0..] == members;
    while r != null && r.key.Some? && name != r.key.value
      invariant 0 <= i <= |kids| && r == (if i < |kids| then kids[i] else null)
      invariant parent.kind == ObjectKind ==> Lookup(members, name) == Lookup(members[i..], name)
      decreases |kids| - i
    {
      assert members[i..][1..] == members[i + 1..];
      r := r.next;
      i := i + 1;
    }
    if r == null || r.key.None? {
      return null;
    }
  }

  /** add_item_to_array: the item becomes the last child. */
  method AddItemToArray(parent: Node, item: Node) returns (ok: bool)
    requires parent != item ==>
      Container(parent) && item.Valid() && item.next == null && item.repr !! parent.repr && Fits(parent.model, item)
    modifies parent`child, parent`kind, parent`kids, parent`repr, parent`model
    modifies item`next, item`prev, parent.kids`next, parent.kids`prev
    ensures ok == (parent != item)
    ensures ok ==> Became(parent, old(parent.kids) + [item], old(parent.repr) + item.repr,
                          WithChild(old(parent.model), ChildCount(old(parent.model)), item.key, item.model))
  {
    if parent == item {
      return false;
    }
    ghost var kids, region := parent.kids + [item], parent.repr - {parent} + item.repr;
    ghost var model := WithChild(parent.model, ChildCount(parent.model), item.key, item.model);
    assert {parent} + region == parent.repr + item.repr;
    AppendReady(parent, item, kids, region, model);
    Rebuild(parent, kids, region, model);
    return true;
  }

  method AppendReady(parent: Node, item: Node, ghost kids: seq<Node>, ghost region: set<Node>, ghost model: Value)
    requires Container(parent) && item.Valid() && item.next == null && item.repr !! parent.repr
      && Fits(parent.model, item)
    requires kids == parent.kids + [item] && region == parent.repr - {parent} + item.repr
    requires model == WithChild(parent.model, ChildCount(parent.model), item.key, item.model)
    modifies parent`child, item`next, item`prev, parent.kids`next, parent.kids`prev
    ensures Linked(parent.child, kids) && Ready(parent, kids, region, model)
  {
    hide HasModels, HasMembers, WithChild;
    KidsAreCounted(parent);
    KidsDiffer(parent);
    assert Inserted(parent.kids, |parent.kids|, item) == kids;
    ReadyWith(parent, |parent.kids|, item);
    assert kids[|parent.kids|] == item && forall j :: 0 <= j < |parent.kids| ==> parent.kids[j] == kids[j];
    LinkLast(parent, item, parent.kids);
  }

  /** cJSON_InsertItemInArray: the item stands at the index, or at the end when the list is shorter. */
  method InsertItemInArray(parent: Node, which: int, item: Node) returns (ok: bool)
    requires parent != item && Container(parent)
    requires item.Valid() && item.repr !! parent.repr && Fits(parent.model, item)
    requires which >= |parent.kids| ==> item.next == null
    modifies parent`child, parent`kind, parent`kids, parent`repr, parent`model
    modifies item`next, item`prev, parent.kids`next, parent.kids`prev
    ensures ok == (which >= 0)
    ensures ok ==> var at := if which <= |old(parent.kids)| then which else |old(parent.kids)|;
                   Became(parent, Inserted(old(parent.kids), at, item), old(parent.repr) + item.repr,
                          WithChild(old(parent.model), at, item.key, item.model))
  {
    if which < 0 {
      return false;
    }
    ghost var kids, repr, model := parent.kids, parent.repr, parent.model;
    var after := GetArrayItem(parent, which);
    if after == null {
      assert Inserted(kids, |kids|, item) == kids + [item];
      ok := AddItemToArray(parent, item);
      return ok;
    }
    InsertBefore(parent, after, item, which);
    return true;
  }

  /** The item stands before the child at the index. */
  method InsertBefore(parent: Node, after: Node, item: Node, ghost i: nat)
    requires parent != item && Container(parent) && i < |parent.kids| && parent.kids[i] == after
    requires item.Valid() && item.repr !! parent.repr && Fits(parent.model, item)
    modifies parent`child, parent`kind, parent`kids, parent`repr, parent`model
    modifies item`next, item`prev, parent.kids`next, parent.kids`prev
    ensures Became(parent, Inserted(old(parent.kids), i, item), old(parent.repr) + item.repr,
                   WithChild(old(parent.model), i, item.key, item.model))
  {
    hide Forest, HasModels, HasMembers, Linked, Fitting;
    KidsAreCounted(parent);
    ghost var kids, region := Inserted(parent.kids, i, item), parent.repr - {parent} + item.repr;
    ghost var model := WithChild(parent.model, i, item.key, item.model);
    assert {parent} + region == parent.repr + item.repr;
    InsertReady(parent, after, item, i, kids, region, model);
    Rebuild(parent, kids, region, model);
  }

  method InsertReady(parent: Node, after: Node, item: Node, ghost i: nat,
                     ghost kids: seq<Node>, ghost region: set<Node>, ghost model: Value)
    requires Container(parent) && i < |parent.kids| && parent.kids[i] == after
    requires item.Valid() && item.repr !! parent.repr && Fits(parent.model, item)
    requires kids == Inserted(parent.kids, i, item) && region == parent.repr - {parent} + item.repr
    requires ChildCount(parent.model) == |parent.kids| && model == WithChild(parent.model, i, item.key, item.model)
    modifies parent`child, item`next, item`prev, parent.kids`next, parent.kids`prev
    ensures Linked(parent.child, kids) && Ready(parent, kids, region, model)
  {
    hide Forest, Linked, HasModels, HasMembers, WithChild, Fitting;
    KidsDiffer(parent);
    ReadyWith(parent, i, item);
    KeptAfterInsert(parent.kids, i, item);
    LinkKeeping(parent, after, item, parent.kids, i, kids, region, model);
  }

  lemma KeptAfterInsert(kids: seq<Node>, i: nat, item: Node)
    requires i <= |kids|
    ensures item in Inserted(kids, i, item) && forall j :: 0 <= j < |kids| ==> kids[j] in Inserted(kids, i, item)
  {
    var all := Inserted(kids, i, item);
    assert all[i] == item;
    forall j | 0 <= j < |kids| ensures kids[j] in all {
      assert kids[j] == all[if j < i then j else j + 1];
    }
  }

  /** Linking changes nothing about the trees. */
  method LinkKeeping(parent: Node, after: Node, item: Node, ghost kids: seq<Node>, ghost i: nat,
                     ghost next: seq<Node>, ghost region: set<Node>, ghost model: Value)
    requires Linked(parent.child, kids) && item !in kids && i < |kids| && kids[i] == after
    requires forall j, k :: 0 <= j < k < |kids| ==> kids[j] != kids[k]
    requires next == Inserted(kids, i, item) && item in next && forall j :: 0 <= j < |kids| ==> kids[j] in next
    requires Ready(parent, next, region, model)
    modifies parent`child, item`next, item`prev, kids`next, kids`prev
    ensures Linked(parent.child, next) && Ready(parent, next, region, model)
  {
    hide HasModels, HasMembers, Linked;
    LinkBefore(parent, after, item, kids, i);
  }

  /** cJSON_DetachItemViaPointer: the child leaves with everything below it. */
  method DetachItemViaPointer(parent: Node, item: Node, ghost i: nat)
    requires Container(parent) && i < |parent.kids| && parent.kids[i] == item
    modifies parent`child, parent`kind, parent`kids, parent`repr, parent`model
    modifies parent.kids`next, parent.kids`prev
    ensures Became(parent, Removed(old(parent.kids), i), old(parent.repr) - item.repr,
      WithoutChild(old(parent.model), i))
    ensures item.Valid() && item.model == old(item.model) && item.next == null && item.prev == null
    ensures item.repr == old(item.repr) && item.repr !! parent.repr
  {
    hide Forest, Linked, Within;
    ghost var kids, region := parent.kids, parent.repr - {parent};
    ghost var rest, left, model := Removed(kids, i), region - item.repr, WithoutChild(parent.model, i);
    KidsDiffer(parent);
    ReadyWithout(parent, i);
    assert parent.repr - item.repr == {parent} + left;
    RestIsApart(kids, region, i);
    UnlinkKeeping(parent, item, kids, i, rest, left, model);
    Rebuild(parent, rest, left, model);
  }

  /** Unlinking changes nothing about the trees that stay and the one that leaves. */
  method UnlinkKeeping(parent: Node, item: Node, ghost kids: seq<Node>, ghost i: nat,
                       ghost rest: seq<Node>, ghost region: set<Node>, ghost model: Value)
    requires Linked(parent.child, kids) && i < |kids| && kids[i] == item && rest == Removed(kids, i)
    requires forall j, k :: 0 <= j < k < |kids| ==> kids[j] != kids[k]
    requires Ready(parent, rest, region, model) && Within(kids, region, rest)
    requires item.Valid() && forall j :: 0 <= j < |kids| && j != i ==> kids[j] !in item.repr
    requires parent !in kids && parent !in item.repr
    modifies parent`child, kids`next, kids`prev
    ensures Linked(parent.child, rest) && Ready(parent, rest, region, model)
    ensures item.Valid() && item.next == null && item.prev == null
  {
    hide HasModels, HasMembers, Linked;
    Unlink(parent, item, kids, i);
  }

  /** cJSON_ReplaceItemViaPointer: another tree takes the place of a child. */
  method ReplaceItemViaPointer(parent: Node, item: Node, replacement: Node, ghost i: nat)
    requires Container(parent) && i < |parent.kids| && parent.kids[i] == item
    requires replacement != item ==>
      replacement.Valid() && replacement.repr !! parent.repr && Fits(parent.model, replacement)
    modifies parent`child, parent`kind, parent`kids, parent`repr, parent`model
    modifies replacement`next, replacement`prev, parent.kids`next, parent.kids`prev
    ensures replacement == item ==> Became(parent, old(parent.kids), old(parent.repr), old(parent.model))
    ensures replacement != item ==>
      Became(parent, old(parent.kids)[i := replacement], old(parent.repr) - item.repr + replacement.repr,
             WithReplaced(old(parent.model), i, replacement.key, replacement.model))
  {
    hide Forest, Linked, Within;
    if replacement == item {
      return;
    }
    ghost var kids, region := parent.kids, parent.repr - {parent};
    ghost var next, left := kids[i := replacement], region - item.repr + replacement.repr;
    ghost var model := WithReplaced(parent.model, i, replacement.key, replacement.model);
    KidsDiffer(parent);
    ReadyReplaced(parent, i, replacement);
    assert parent.repr - item.repr + replacement.repr == {parent} + left;
    RelinkKeeping(parent, item, replacement, kids, i, next, left, model);
    Rebuild(parent, next, left, model);
  }

  /** Relinking changes nothing about the trees that stay and the one that comes in. */
  method RelinkKeeping(parent: Node, item: Node, replacement: Node, ghost kids: seq<Node>, ghost i: nat,
                       ghost next: seq<Node>, ghost region: set<Node>, ghost model: Value)
    requires Linked(parent.child, kids) && i < |kids| && kids[i] == item && replacement !in kids
    requires forall j, k :: 0 <= j < k < |kids| ==> kids[j] != kids[k]
    requires next == kids[i := replacement] && Ready(parent, next, region, model) && Within(kids, region, next)
    modifies parent`child, replacement`next, replacement`prev, kids`next, kids`prev
    ensures Linked(parent.child, next) && Ready(parent, next, region, model)
  {
    hide HasModels, HasMembers, Linked;
    assert next[i] == replacement;
    Relink(parent, item, replacement, kids, i);
  }

  /** add_item_to_object: the item gets its key and becomes the last member. */
  method AddItemToObject(parent: Node, name: seq<byte>, item: Node) returns (ok: bool)
    requires parent != item ==>
      Container(parent) && parent.model.Object? && item.Valid() && item.next == null && item.repr !! parent.repr
    requires NoNul(name)
    modifies parent`child, parent`kind, parent`kids, parent`repr, parent`model
    modifies item`next, item`prev, item`key, parent.kids`next, parent.kids`prev
    ensures ok == (parent != item)
    ensures ok ==> Became(parent, old(parent.kids) + [item], old(parent.repr) + item.repr,
                          Object(old(parent.model.members) + [Member(name, item.model)]))
  {
    if parent == item {
      return false;
    }
    item.key := Some(name);
    ghost var members := parent.model.members;
    assert Inserted(members, |members|, Member(name, item.model)) == members + [Member(name, item.model)];
    ok := AddItemToArray(parent, item);
  }
}
