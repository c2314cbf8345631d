/** JSON trees as values and the text the printer produces for them. */
module Json {
  import opened Bytes
  import opened JsonNumber
  import opened JsonString

  const NULL_TEXT: seq<byte> := [110, 117, 108, 108]
  const FALSE_TEXT: seq<byte> := [102, 97, 108, 115, 101]
  const TRUE_TEXT: seq<byte> := [116, 114, 117, 101]

  const NESTING_LIMIT: nat := 1000

  /** Strings are C strings without their terminator; children are in list order. */
  datatype Value =
    | Null
    | False
    | True
    | Number(number: real)
    | String(text: seq<byte>)
    | Array(items: seq<Value>)
    | Object(members: seq<Member>)

  datatype Member = Member(key: seq<byte>, value: Value)

  /** A tree the printer handles with `%d` alone: C strings, 32-bit integers. */
  predicate Printable(v: Value)
    decreases v
  {
    match v
    case Number(d) => IsInt32(d)
    case String(t) => NoNul(t)
    case Array(items) => ItemsPrintable(items)
    case Object(members) => MembersPrintable(members)
    case _ => true
  }

  predicate ItemsPrintable(items: seq<Value>)
    decreases items
  {
    items == [] || (Printable(items[0]) && ItemsPrintable(items[1..]))
  }

  predicate MembersPrintable(members: seq<Member>)
    decreases members
  {
    members == [] || (NoNul(members[0].key) && Printable(members[0].value) && MembersPrintable(members[1..]))
  }

  /** At most `k` containers inside one another. */
  predicate NestsWithin(v: Value, k: nat)
    decreases v
  {
    match v
    case Array(items) => k > 0 && ItemsNest(items, k - 1)
    case Object(members) => k > 0 && MembersNest(members, k - 1)
    case _ => true
  }

  predicate ItemsNest(items: seq<Value>, k: nat)
    decreases items
  {
    items == [] || (NestsWithin(items[0], k) && ItemsNest(items[1..], k))
  }

  predicate MembersNest(members: seq<Member>, k: nat)
    decreases members
  {
    members == [] || (NestsWithin(members[0].value, k) && MembersNest(members[1..], k))
  }

  lemma ItemsNestCons(v: Value, rest: seq<Value>, k: nat)
    ensures ItemsNest([v] + rest, k) <==> NestsWithin(v, k) && ItemsNest(rest, k)
  {
    assert ([v] + rest)[1..] == rest;
  }

  lemma MembersNestCons(m: Member, rest: seq<Member>, k: nat)
    ensures MembersNest([m] + rest, k) <==> NestsWithin(m.value, k) && MembersNest(rest, k)
  {
    assert ([m] + rest)[1..] == rest;
  }

  lemma {:induction false} ItemsByIndex(items: seq<Value>, k: nat)
    requires forall i :: 0 <= i < |items| ==> Printable(items[i]) && NestsWithin(items[i], k)
    ensures ItemsPrintable(items) && ItemsNest(items, k)
  {
    if items != [] {
      ItemsByIndex(items[1..], k);
    }
  }

  // -------- printed text

  function Tabs(n: nat): seq<byte> {
    seq(n, _ => TAB)
  }

  /** `t` when the print is formatted, nothing otherwise. */
  function When(format: bool, t: seq<byte>): seq<byte> {
    if format then t else []
  }

  /** The text of a tree that stands inside `depth` containers. */
  function Render(v: Value, format: bool, depth: nat): seq<byte>
    decreases v
  {
    match v
    case Null => NULL_TEXT
    case False => FALSE_TEXT
    case True => TRUE_TEXT
    case Number(d) => Decimal(Saturate(d))
    case String(t) => Quoted(t)
    case Array(items) => [LBRACKET] + RenderItems(items, format, depth + 1) + [RBRACKET]
    case Object(members) =>
      [LBRACE] + When(format, [LF]) + RenderMembers(members, format, depth + 1) + When(format, Tabs(depth)) + [RBRACE]
  }

  function Separator(format: bool): seq<byte> {
    [COMMA] + When(format, [SPACE])
  }

  function RenderItems(items: seq<Value>, format: bool, depth: nat): seq<byte>
    decreases items
  {
    if items == [] then []
    else Render(items[0], format, depth) + (if |items| > 1 then Separator(format) else [])
         + RenderItems(items[1..], format, depth)
  }

  function RenderMember(m: Member, last: bool, format: bool, depth: nat): seq<byte>
    decreases m
  {
    When(format, Tabs(depth)) + Quoted(m.key) + [COLON] + When(format, [TAB]) + Render(m.value, format, depth)
    + When(!last, [COMMA]) + When(format, [LF])
  }

  function RenderMembers(members: seq<Member>, format: bool, depth: nat): seq<byte>
    decreases members
  {
    if members == [] then []
    else RenderMember(members[0], |members| == 1, format, depth) + RenderMembers(members[1..], format, depth)
  }

  /** The printed text of a whole tree. */
  function Print(v: Value, format: bool): seq<byte> {
    Render(v, format, 0)
  }

  // -------- one child after the other, by index

  /** The part of an array's text that stands for item `i`. */
  function ItemText(items: seq<Value>, i: nat, format: bool, depth: nat): seq<byte>
    requires i < |items|
  {
    Render(items[i], format, depth) + (if i + 1 < |items| then Separator(format) else [])
  }

  /** The part of an object's text that stands for member `i`. */
  function MemberText(members: seq<Member>, i: nat, format: bool, depth: nat): seq<byte>
    requires i < |members|
  {
    RenderMember(members[i], i + 1 == |members|, format, depth)
  }

  /** Having printed `done`, what is left of an array's text are the items from `i` on. */
  predicate ItemsLeft(items: seq<Value>, i: nat, done: seq<byte>, format: bool, depth: nat)
    requires i <= |items|
  {
    ItemsPrintable(items[i..]) && RenderItems(items, format, depth) == done + RenderItems(items[i..], format, depth)
  }

  lemma ItemsStart(items: seq<Value>, format: bool, depth: nat)
    requires ItemsPrintable(items)
    ensures ItemsLeft(items, 0, [], format, depth)
  {
    assert items[0..] == items;
    assert [] + RenderItems(items, format, depth) == RenderItems(items, format, depth);
  }

  lemma PrintItemsStep(items: seq<Value>, i: nat, done: seq<byte>, format: bool, depth: nat)
    requires i < |items| && ItemsLeft(items, i, done, format, depth)
    ensures Printable(items[i]) && ItemsLeft(items, i + 1, done + ItemText(items, i, format, depth), format, depth)
  {
    assert items[i..][0] == items[i] && items[i..][1..] == items[i + 1..];
    var rest := RenderItems(items[i + 1..], format, depth);
    assert RenderItems(items[i..], format, depth) == ItemText(items, i, format, depth) + rest;
    assert done + (ItemText(items, i, format, depth) + rest) == done + ItemText(items, i, format, depth) + rest;
  }

  lemma ItemsEnd(items: seq<Value>, done: seq<byte>, format: bool, depth: nat)
    requires ItemsLeft(items, |items|, done, format, depth)
    ensures done == RenderItems(items, format, depth)
  {
    assert items[|items|..] == [];
  }

  predicate MembersLeft(members: seq<Member>, i: nat, done: seq<byte>, format: bool, depth: nat)
    requires i <= |members|
  {
    MembersPrintable(members[i..])
        && RenderMembers(members, format, depth) == done + RenderMembers(members[i..], format, depth)
  }

  lemma MembersStart(members: seq<Member>, format: bool, depth: nat)
    requires MembersPrintable(members)
    ensures MembersLeft(members, 0, [], format, depth)
  {
    assert members[0..] == members;
    assert [] + RenderMembers(members, format, depth) == RenderMembers(members, format, depth);
  }

  lemma PrintMembersStep(members: seq<Member>, i: nat, done: seq<byte>, format: bool, depth: nat)
    requires i < |members| && MembersLeft(members, i, done, format, depth)
    ensures Printable(members[i].value) && NoNul(members[i].key)
    ensures MembersLeft(members, i + 1, done + MemberText(members, i, format, depth), format, depth)
  {
    assert members[i..][0] == members[i] && members[i..][1..] == members[i + 1..];
    var rest := RenderMembers(members[i + 1..], format, depth);
    assert RenderMembers(members[i..], format, depth) == MemberText(members, i, format, depth) + rest;
    assert done + (MemberText(members, i, format, depth) + rest) == done + MemberText(members, i, format, depth) + rest;
  }

  lemma MembersEnd(members: seq<Member>, done: seq<byte>, format: bool, depth: nat)
    requires MembersLeft(members, |members|, done, format, depth)
    ensures done == RenderMembers(members, format, depth)
  {
    assert members[|members|..] == [];
  }

  // -------- what no text contains

  predicate NoControl(s: seq<byte>) {
    forall i :: 0 <= i < |s| ==> s[i] >= 32
  }

  lemma RenderIsNeverEmpty(v: Value, format: bool, depth: nat)
    ensures Render(v, format, depth) != []
  {
  }

  lemma {:induction false} RenderHasNoNul(v: Value, format: bool, depth: nat)
    ensures NoNul(Render(v, format, depth))
    decreases v
  {
    match v
    case Array(items) => ItemsHaveNoNul(items, format, depth + 1);
    case Object(members) => MembersHaveNoNul(members, format, depth + 1);
    case Number(d) => assert forall i :: 0 <= i < |Decimal(Saturate(d))| ==> IsNumberByte(Decimal(Saturate(d))[i]);
    case _ =>
  }

  lemma {:induction false} ItemsHaveNoNul(items: seq<Value>, format: bool, depth: nat)
    ensures NoNul(RenderItems(items, format, depth))
    decreases items
  {
    if items != [] {
      RenderHasNoNul(items[0], format, depth);
      ItemsHaveNoNul(items[1..], format, depth);
    }
  }

  lemma {:induction false} MembersHaveNoNul(members: seq<Member>, format: bool, depth: nat)
    ensures NoNul(RenderMembers(members, format, depth))
    decreases members
  {
    if members != [] {
      RenderHasNoNul(members[0].value, format, depth);
      MembersHaveNoNul(members[1..], format, depth);
    }
  }

  /** An unformatted print holds no byte below 32, so it never holds the newline that ends a header. */
  lemma {:induction false} UnformattedHasNoControl(v: Value, depth: nat)
    ensures NoControl(Render(v, false, depth))
    decreases v
  {
    match v
    case Array(items) => ItemsHaveNoControl(items, depth + 1);
    case Object(members) => MembersHaveNoControl(members, depth + 1);
    case _ =>
  }

  lemma {:induction false} ItemsHaveNoControl(items: seq<Value>, depth: nat)
    ensures NoControl(RenderItems(items, false, depth))
    decreases items
  {
    if items != [] {
      UnformattedHasNoControl(items[0], depth);
      ItemsHaveNoControl(items[1..], depth);
    }
  }

  lemma {:induction false} MembersHaveNoControl(members: seq<Member>, depth: nat)
    ensures NoControl(RenderMembers(members, false, depth))
    decreases members
  {
    if members != [] {
      UnformattedHasNoControl(members[0].value, depth);
      MembersHaveNoControl(members[1..], depth);
    }
  }

  // -------- looking up members

  /** cJSON_GetObjectItemCaseSensitive on a value: the first member with the key. */
  function Lookup(members: seq<Member>, key: seq<byte>): (r: Option<Value>)
    ensures r.None? ==> forall i :: 0 <= i < |members| ==> members[i].key != key
  {
    if members == [] then None
    else if members[0].key == key then Some(members[0].value)
    else Lookup(members[1..], key)
  }

  /** Of several members with the same key the first counts. */
  lemma {:induction false} LookupIsFirst(members: seq<Member>, key: seq<byte>, i: nat)
    requires i < |members| && members[i].key == key && forall j :: 0 <= j < i ==> members[j].key != key
    ensures Lookup(members, key) == Some(members[i].value)
  {
    if i > 0 {
      LookupIsFirst(members[1..], key, i - 1);
    }
  }

  function Get(v: Value, key: seq<byte>): Option<Value> {
    if v.Object? then Lookup(v.members, key) else None
  }
}
