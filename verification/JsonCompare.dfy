/** cJSON_Compare, case-sensitive, on trees as values, and what it decides. */
module JsonCompare {
  import opened Bytes
  import opened JsonNumber
  import opened Json

  function Abs(x: real): real {
    if x < 0.0 then -x else x
  }

  /** 2^-52, DBL_EPSILON */
  const EPSILON: real := 1.0 / 4503599627370496.0

  predicate CompareDouble(a: real, b: real) {
    var most := if Abs(a) > Abs(b) then Abs(a) else Abs(b);
    Abs(a - b) <= most * EPSILON
  }

  /** Two numbers are taken for equal when they differ by at most one part in 2^52 of the larger magnitude. */
  lemma CompareIsRelative(a: real, b: real)
    ensures var d := (a - b) * 4503599627370496.0;
            CompareDouble(a, b) <==> (|| (d <= a && -d <= a) || (d <= -a && -d <= -a)
                                      || (d <= b && -d <= b) || (d <= -b && -d <= -b))
  {
  }

  function Size(v: Value): (n: nat)
    ensures n > 0
    decreases v
  {
    match v
    case Array(items) => 1 + ItemsSize(items)
    case Object(members) => 1 + MembersSize(members)
    case _ => 1
  }

  function ItemsSize(items: seq<Value>): nat
    decreases items
  {
    if items == [] then 0 else Size(items[0]) + ItemsSize(items[1..])
  }

  function MembersSize(members: seq<Member>): nat
    decreases members
  {
    if members == [] then 0 else Size(members[0].value) + MembersSize(members[1..])
  }

  lemma {:induction false} LookupIsSmaller(members: seq<Member>, key: seq<byte>)
    requires Lookup(members, key).Some?
    ensures Size(Lookup(members, key).value) <= MembersSize(members)
  {
    if members[0].key != key {
      LookupIsSmaller(members[1..], key);
    }
  }

  /** Arrays in order; of two objects, every member of either must have its counterpart in the other. */
  predicate Compare(a: Value, b: Value)
    decreases Size(a) + Size(b), 0
  {
    match (a, b)
    case (Null, Null) => true
    case (False, False) => true
    case (True, True) => true
    case (Number(x), Number(y)) => CompareDouble(x, y)
    case (String(s), String(t)) => s == t
    case (Array(xs), Array(ys)) => CompareItems(xs, ys)
    case (Object(ms), Object(ns)) => AllFound(ms, ns) && AllFound(ns, ms)
    case _ => false
  }

  predicate CompareItems(xs: seq<Value>, ys: seq<Value>)
    decreases ItemsSize(xs) + ItemsSize(ys), 1
  {
    if xs == [] || ys == [] then xs == ys
    else Compare(xs[0], ys[0]) && CompareItems(xs[1..], ys[1..])
  }

  /** Each member's counterpart is the first one with its key. */
  predicate AllFound(ms: seq<Member>, others: seq<Member>)
    decreases MembersSize(ms) + MembersSize(others), 1, |ms|
  {
    ms == []
    || (Lookup(others, ms[0].key).Some?
        && (LookupIsSmaller(others, ms[0].key);
            Compare(ms[0].value, Lookup(others, ms[0].key).value))
        && AllFound(ms[1..], others))
  }

  // -------- the meaning of a tree

  /** A tree with its objects as finite maps. */
  datatype Meaning =
    | Word(Value)
    | Digits(real)
    | Text(seq<byte>)
    | List(seq<Meaning>)
    | Fields(map<seq<byte>, Meaning>)

  function MeaningOf(v: Value): Meaning
    decreases v
  {
    match v
    case Number(d) => Digits(d)
    case String(t) => Text(t)
    case Array(items) => List(ListOf(items))
    case Object(members) => Fields(MapOf(members))
    case _ => Word(v)
  }

  function ListOf(items: seq<Value>): seq<Meaning>
    decreases items
  {
    if items == [] then [] else [MeaningOf(items[0])] + ListOf(items[1..])
  }

  /** The first member with a key counts. */
  function MapOf(members: seq<Member>): map<seq<byte>, Meaning>
    decreases members
  {
    if members == [] then map[] else MapOf(members[1..])[members[0].key := MeaningOf(members[0].value)]
  }

  /** Members that share a key mean the same, in every object of the tree. */
  predicate Agrees(v: Value)
    decreases v
  {
    match v
    case Array(items) => ItemsAgree(items)
    case Object(members) => MembersAgree(members, MapOf(members))
    case _ => true
  }

  predicate ItemsAgree(items: seq<Value>)
    decreases items
  {
    items == [] || (Agrees(items[0]) && ItemsAgree(items[1..]))
  }

  predicate MembersAgree(members: seq<Member>, all: map<seq<byte>, Meaning>)
    decreases members
  {
    members == []
    || (Agrees(members[0].value) && members[0].key in all && all[members[0].key] == MeaningOf(members[0].value)
        && MembersAgree(members[1..], all))
  }

  /** No object of the tree has two members with the same key. */
  predicate UniqueKeys(v: Value)
    decreases v
  {
    match v
    case Array(items) => ItemsUnique(items)
    case Object(members) => MembersUnique(members)
    case _ => true
  }

  predicate ItemsUnique(items: seq<Value>)
    decreases items
  {
    items == [] || (UniqueKeys(items[0]) && ItemsUnique(items[1..]))
  }

  predicate MembersUnique(members: seq<Member>)
    decreases members
  {
    members == []
    || (UniqueKeys(members[0].value) && Lookup(members[1..], members[0].key).None? && MembersUnique(members[1..]))
  }

  // -------- what Compare decides

  /** On 32-bit integers the tolerance of compare_double is less than one. */
  lemma CompareIntegers(a: real, b: real)
    requires IsInt32(a) && IsInt32(b)
    ensures CompareDouble(a, b) <==> a == b
  {
    var most := if Abs(a) > Abs(b) then Abs(a) else Abs(b);
    assert most <= 2147483648.0;
    assert most * EPSILON < 1.0 by {
      assert EPSILON <= 1.0 / 4294967296.0;
      Scale(most, EPSILON);
    }
    assert most * EPSILON >= 0.0;
    var x, y := Saturate(a), Saturate(b);
    if x != y {
      assert Abs((x - y) as real) >= 1.0;
      assert a - b == (x - y) as real;
    }
  }

  lemma Scale(most: real, epsilon: real)
    requires 0.0 <= most <= 2147483648.0 && 0.0 <= epsilon <= 1.0 / 4294967296.0
    ensures most * epsilon < 1.0
  {
    assert most * epsilon <= 2147483648.0 * epsilon;
  }

  lemma {:induction false} LookupMeaning(members: seq<Member>, key: seq<byte>)
    ensures key in MapOf(members) <==> Lookup(members, key).Some?
    ensures Lookup(members, key).Some? ==> MapOf(members)[key] == MeaningOf(Lookup(members, key).value)
  {
    if members != [] {
      LookupMeaning(members[1..], key);
    }
  }

  lemma {:induction false} LookupAgrees(members: seq<Member>, all: map<seq<byte>, Meaning>, key: seq<byte>)
    requires MembersAgree(members, all) && Lookup(members, key).Some?
    ensures Agrees(Lookup(members, key).value)
  {
    if members[0].key != key {
      LookupAgrees(members[1..], all, key);
    }
  }

  lemma {:induction false} LookupIsPrintable(members: seq<Member>, key: seq<byte>)
    requires MembersPrintable(members) && Lookup(members, key).Some?
    ensures Printable(Lookup(members, key).value)
  {
    if members[0].key != key {
      LookupIsPrintable(members[1..], key);
    }
  }

  /** On trees of 32-bit integers Compare is true exactly when the trees mean the same, arrays in order and
      objects as finite maps, and neither has members that share a key without meaning the same. */
  lemma {:induction false} CompareDecides(a: Value, b: Value)
    requires Printable(a) && Printable(b)
    ensures Compare(a, b) <==> MeaningOf(a) == MeaningOf(b) && Agrees(a) && Agrees(b)
    decreases Size(a) + Size(b), 0
  {
    match (a, b)
    case (Number(x), Number(y)) => CompareIntegers(x, y);
    case (Array(xs), Array(ys)) => ItemsDecide(xs, ys);
    case (Object(ms), Object(ns)) => ObjectsDecide(ms, ns);
    case _ =>
  }

  lemma {:induction false} ItemsDecide(xs: seq<Value>, ys: seq<Value>)
    requires ItemsPrintable(xs) && ItemsPrintable(ys)
    ensures CompareItems(xs, ys) <==> ListOf(xs) == ListOf(ys) && ItemsAgree(xs) && ItemsAgree(ys)
    decreases ItemsSize(xs) + ItemsSize(ys), 1
  {
    if xs != [] && ys != [] {
      CompareDecides(xs[0], ys[0]);
      ItemsDecide(xs[1..], ys[1..]);
      assert ListOf(xs)[0] == MeaningOf(xs[0]) && ListOf(xs)[1..] == ListOf(xs[1..]);
      assert ListOf(ys)[0] == MeaningOf(ys[0]) && ListOf(ys)[1..] == ListOf(ys[1..]);
    }
  }

  lemma {:induction false} ObjectsDecide(ms: seq<Member>, ns: seq<Member>)
    requires MembersPrintable(ms) && MembersPrintable(ns)
    ensures AllFound(ms, ns) && AllFound(ns, ms)
       <==> MapOf(ms) == MapOf(ns) && MembersAgree(ms, MapOf(ms)) && MembersAgree(ns, MapOf(ns))
    decreases MembersSize(ms) + MembersSize(ns), 2
  {
    if AllFound(ms, ns) && AllFound(ns, ms) {
      FoundAgrees(ms, ns);
      FoundAgrees(ns, ms);
      Included(ms, MapOf(ns));
      Included(ns, MapOf(ms));
      assert MapOf(ms) == MapOf(ns);
    }
    if MapOf(ms) == MapOf(ns) && MembersAgree(ms, MapOf(ms)) && MembersAgree(ns, MapOf(ns)) {
      AgreesFound(ms, ns);
      AgreesFound(ns, ms);
    }
  }

  lemma {:induction false} FoundAgrees(ms: seq<Member>, ns: seq<Member>)
    requires MembersPrintable(ms) && MembersPrintable(ns) && AllFound(ms, ns)
    ensures MembersAgree(ms, MapOf(ns))
    decreases MembersSize(ms) + MembersSize(ns), 1, |ms|
  {
    if ms != [] {
      LookupMeaning(ns, ms[0].key);
      LookupIsPrintable(ns, ms[0].key);
      LookupIsSmaller(ns, ms[0].key);
      CompareDecides(ms[0].value, Lookup(ns, ms[0].key).value);
      FoundAgrees(ms[1..], ns);
    }
  }

  lemma {:induction false} AgreesFound(ms: seq<Member>, ns: seq<Member>)
    requires MembersPrintable(ms) && MembersPrintable(ns) && MembersAgree(ms, MapOf(ns)) && MembersAgree(ns, MapOf(ns))
    ensures AllFound(ms, ns)
    decreases MembersSize(ms) + MembersSize(ns), 1, |ms|
  {
    if ms != [] {
      LookupMeaning(ns, ms[0].key);
      LookupIsPrintable(ns, ms[0].key);
      LookupIsSmaller(ns, ms[0].key);
      LookupAgrees(ns, MapOf(ns), ms[0].key);
      CompareDecides(ms[0].value, Lookup(ns, ms[0].key).value);
      AgreesFound(ms[1..], ns);
    }
  }

  lemma {:induction false} Included(ms: seq<Member>, all: map<seq<byte>, Meaning>)
    requires MembersAgree(ms, all)
    ensures forall k :: k in MapOf(ms) ==> k in all && all[k] == MapOf(ms)[k]
  {
    if ms != [] {
      Included(ms[1..], all);
    }
  }

  lemma {:induction false} UniqueAgrees(v: Value)
    requires UniqueKeys(v)
    ensures Agrees(v)
    decreases v
  {
    match v
    case Array(items) => UniqueItemsAgree(items);
    case Object(members) => UniqueMembersAgree(members, MapOf(members));
    case _ =>
  }

  lemma {:induction false} UniqueItemsAgree(items: seq<Value>)
    requires ItemsUnique(items)
    ensures ItemsAgree(items)
    decreases items
  {
    if items != [] {
      UniqueAgrees(items[0]);
      UniqueItemsAgree(items[1..]);
    }
  }

  lemma {:induction false} UniqueMembersAgree(members: seq<Member>, all: map<seq<byte>, Meaning>)
    requires MembersUnique(members)
    requires forall k :: k in MapOf(members) ==> k in all && all[k] == MapOf(members)[k]
    ensures MembersAgree(members, all)
    decreases members
  {
    if members != [] {
      var rest := MapOf(members[1..]);
      LookupMeaning(members[1..], members[0].key);
      assert members[0].key !in rest;
      forall k | k in rest ensures k in all && all[k] == rest[k] {
        assert MapOf(members)[k] == rest[k];
      }
      assert members[0].key in MapOf(members);
      UniqueAgrees(members[0].value);
      UniqueMembersAgree(members[1..], all);
    }
  }

  /** On trees with unique keys Compare decides whether the trees mean the same. */
  lemma CompareDecidesEquality(a: Value, b: Value)
    requires Printable(a) && Printable(b) && UniqueKeys(a) && UniqueKeys(b)
    ensures Compare(a, b) <==> MeaningOf(a) == MeaningOf(b)
  {
    UniqueAgrees(a);
    UniqueAgrees(b);
    CompareDecides(a, b);
  }

  /** A tree equals its copy exactly when its members with the same key mean the same. */
  lemma CompareCopy(v: Value)
    requires Printable(v)
    ensures Compare(v, v) <==> Agrees(v)
  {
    CompareDecides(v, v);
  }

  /** With a key twice, a tree need not equal its own copy. */
  lemma DuplicateKeysFoolCompare()
    ensures var v := Object([Member([97], Number(1.0)), Member([97], Number(2.0))]);
            Printable(v) && !Compare(v, v)
  {
    var first, second := Member([97], Number(1.0)), Member([97], Number(2.0));
    var members := [first, second];
    assert members[1..] == [second] && [second][1..] == [];
    IntegersAreInt32(1);
    IntegersAreInt32(2);
    assert MembersPrintable([second]);
    assert Printable(Object(members));
    CompareCopy(Object(members));
    assert MapOf(members)[[97 as byte]] == Digits(1.0);
    assert !MembersAgree([second], MapOf(members));
  }
}
