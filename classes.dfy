/** class.go: the class registry, its ordering and the resolution of virtual
    functions to vtables.

    The Go program links Class, VTable and Override records by pointer. Here
    the records live in two stores held by the container: a class is an index
    into `store`, a vtable an index into `tables`, so "the same table object"
    is equality of table ids. A class's overrides are values inside its
    record. The super chain is acyclic; a ghost rank that strictly decreases
    towards the root witnesses this and bounds the recursion of ChooseVTable. */
module Classes {
  import opened Wrappers
  import opened GoStrings
  import Utils
  import GeneratorUtils
  import FunctionParser

  type ClassId = nat
  type TableId = nat

  /** A virtual function entry: its name without "Impl" and its signature. */
  datatype VFunc = VFunc(name: string, signature: string)

  datatype VTable = VTable(name: string, functions: seq<VFunc>)

  /** Functions this class puts into an ancestor's table. */
  datatype Override = Override(table: TableId, functions: seq<VFunc>)

  datatype ClassRec = ClassRec(name: string, super: Option<ClassId>, vtable: Option<TableId>, overrides: seq<Override>)

  // ---------------------------------------------------------------------
  // Name helpers

  predicate IsVirtualMethod(m: FunctionParser.Function) {
    HasSuffix(m.name, "Impl")
  }

  function MethodVirtualName(m: FunctionParser.Function): (r: string)
    ensures IsVirtualMethod(m) ==> r + "Impl" == m.name
    ensures !IsVirtualMethod(m) ==> r == m.name
  {
    TrimSuffix(m.name, "Impl")
  }

  function FunctionToVFunc(m: FunctionParser.Function): (v: VFunc)
    ensures v.name == MethodVirtualName(m) && v.signature == FunctionParser.Signature(m)
  {
    VFunc(MethodVirtualName(m), FunctionParser.Signature(m))
  }

  /** VTable.IsInitName: "is" + Capitalize(name) + "Init". Capitalize panics
      on an empty table name, which is None here. */
  function IsInitName(t: VTable): (r: Option<string>)
    ensures r.None? <==> t.name == []
    ensures r.Some? ==> |r.value| == |t.name| + 6 && r.value[..2] == "is"
                        && r.value[|r.value| - 4..] == "Init"
                        && r.value[3..|r.value| - 4] == t.name[1..]
                        && r.value[2] == ToUpperAscii(t.name[0])
  {
    match Utils.Capitalize(t.name)
    case None => None
    case Some(c) => Some("is" + c + "Init")
  }

  /** The "Impl" suffix marks a virtual method: stripping it and putting it
      back gives the method's name. */
  lemma VirtualNameRoundTrip(m: FunctionParser.Function, base: string)
    requires m.name == base + "Impl"
    ensures IsVirtualMethod(m) && MethodVirtualName(m) == base
  {
    TrimSuffixOfAppended(base, "Impl");
  }

  // ---------------------------------------------------------------------
  // Vtable contents

  /** VTable.HasMethod. */
  predicate TableHas(t: VTable, methodName: string) {
    exists i :: 0 <= i < |t.functions| && t.functions[i].name == methodName
  }

  /** After AddVirtual(m) the table has m's virtual name, and keeps every
      name it had. */
  lemma AddVirtualHas(t: VTable, m: FunctionParser.Function, other: string)
    ensures var t' := t.(functions := t.functions + [FunctionToVFunc(m)]);
            && TableHas(t', MethodVirtualName(m))
            && (TableHas(t', other) <==> TableHas(t, other) || other == MethodVirtualName(m))
  {
    var t' := t.(functions := t.functions + [FunctionToVFunc(m)]);
    assert t'.functions[|t.functions|].name == MethodVirtualName(m);
    if TableHas(t, other) {
      var i :| 0 <= i < |t.functions| && t.functions[i].name == other;
      assert t'.functions[i].name == other;
    }
  }

  // ---------------------------------------------------------------------
  // Well-formed stores

  /** Every id a record holds points into its store. */
  predicate Linked(store: seq<ClassRec>, tables: seq<VTable>) {
    forall id :: 0 <= id < |store| ==>
      && (store[id].super.Some? ==> store[id].super.value < |store|)
      && (store[id].vtable.Some? ==> store[id].vtable.value < |tables|)
      && (forall k :: 0 <= k < |store[id].overrides| ==> store[id].overrides[k].table < |tables|)
  }

  /** The rank strictly decreases from a class to its super: the chain is acyclic. */
  predicate Ranked(store: seq<ClassRec>, rank: seq<nat>)
  {
    && |rank| == |store|
    && forall id :: 0 <= id < |store| && store[id].super.Some? ==>
         store[id].super.value < |store| && rank[store[id].super.value] < rank[id]
  }

  /** At most one override per table in each class. */
  predicate OverridesDistinct(os: seq<Override>) {
    forall i, j :: 0 <= i < j < |os| ==> os[i].table != os[j].table
  }

  predicate NamesDistinct(store: seq<ClassRec>) {
    forall x, y :: 0 <= x < y < |store| ==> store[x].name != store[y].name
  }

  predicate WellFormed(store: seq<ClassRec>, tables: seq<VTable>, rank: seq<nat>) {
    && Linked(store, tables)
    && Ranked(store, rank)
    && NamesDistinct(store)
    && forall id :: 0 <= id < |store| ==> OverridesDistinct(store[id].overrides)
  }

  /** The registry map and the store agree: each name maps to the class of
      that name, and every class is registered. */
  predicate Registry(classes: map<string, ClassId>, store: seq<ClassRec>) {
    && (forall n :: n in classes ==> classes[n] < |store| && store[classes[n]].name == n)
    && (forall id :: 0 <= id < |store| ==> store[id].name in classes && classes[store[id].name] == id)
  }

  // ---------------------------------------------------------------------
  // Ordering (the comparator of GetClassesSorted)

  /** The comparator: roots first, then a parent before its child, then by name. */
  function ClassOrder(store: seq<ClassRec>, c1: ClassId, c2: ClassId): (r: int)
    requires c1 < |store| && c2 < |store|
    ensures -1 <= r <= 1
    ensures r == 0 ==> store[c1].name == store[c2].name
  {
    var a := store[c1];
    var b := store[c2];
    if a.super.None? && b.super.Some? then -1
    else if a.super.Some? && b.super.None? then 1
    else if a.super == Some(c2) then 1
    else if b.super == Some(c1) then -1
    else Compare(a.name, b.name)
  }

  /** Without 2-cycles and with distinct names the comparator is antisymmetric,
      and it is zero only on a class and itself. */
  lemma ClassOrderAntisymmetric(store: seq<ClassRec>, rank: seq<nat>, x: ClassId, y: ClassId)
    requires Ranked(store, rank) && NamesDistinct(store)
    requires x < |store| && y < |store|
    ensures ClassOrder(store, x, y) == -ClassOrder(store, y, x)
    ensures ClassOrder(store, x, y) == 0 <==> x == y
  {
    CompareAntisymmetric(store[x].name, store[y].name);
    if x < y {
      assert store[x].name != store[y].name;
    } else if y < x {
      assert store[y].name != store[x].name;
    }
  }

  /** A root comes before every class that has a super. */
  lemma RootsFirst(store: seq<ClassRec>, x: ClassId, y: ClassId)
    requires x < |store| && y < |store|
    requires store[x].super.None? && store[y].super.Some?
    ensures ClassOrder(store, x, y) == -1 && ClassOrder(store, y, x) == 1
  {
  }

  /** A class comes before its direct subclasses. */
  lemma ParentFirst(store: seq<ClassRec>, rank: seq<nat>, x: ClassId, y: ClassId)
    requires Ranked(store, rank)
    requires x < |store| && y < |store| && store[y].super == Some(x)
    ensures ClassOrder(store, x, y) == -1 && ClassOrder(store, y, x) == 1
  {
    assert rank[x] < rank[y];
  }

  /** Neighbours in a sorted sequence are in comparator order. */
  predicate AdjacentOrdered(store: seq<ClassRec>, r: seq<ClassId>)
    requires forall i :: 0 <= i < |r| ==> r[i] < |store|
  {
    forall i :: 0 < i < |r| ==> ClassOrder(store, r[i], r[i - 1]) >= 0
  }

  /** Two unrelated non-roots "a" and "m" under a root, and "z" the parent
      of "a": the comparator runs in a circle (a < m < z < a). */
  function CircleStore(): seq<ClassRec> {
    [ ClassRec("a", Some(1), None, []),
      ClassRec("z", Some(3), None, []),
      ClassRec("m", Some(3), None, []),
      ClassRec("r", None, None, []) ]
  }

  /** The circle's hierarchy is acyclic and its names are distinct. */
  lemma CircleStoreWellFormed()
    ensures Ranked(CircleStore(), [2, 1, 1, 0]) && NamesDistinct(CircleStore())
  {
    var s := CircleStore();
    assert s[0].name != s[1].name && s[0].name != s[2].name && s[0].name != s[3].name;
    assert s[1].name != s[2].name && s[1].name != s[3].name && s[2].name != s[3].name;
  }

  /** The comparator is not transitive, so an insertion-sorted result is
      only ordered between neighbours: [r, a, m, z] is, yet "a" precedes its
      own parent "z". That order is what sorting the enumeration
      [r, a, m, z] yields, since every neighbour pair is already ordered. */
  lemma ComparatorNotTransitive()
    ensures var s := CircleStore();
            && ClassOrder(s, 0, 2) < 0 && ClassOrder(s, 2, 1) < 0 && ClassOrder(s, 1, 0) < 0
            && AdjacentOrdered(s, [3, 0, 2, 1])
            && s[0].super == Some(1)
  {
    var s := CircleStore();
    assert Compare("a", "m") == -1 by { assert "a"[0] < "m"[0]; }
    assert Compare("m", "z") == -1 by { assert "m"[0] < "z"[0]; }
    assert Compare("m", "a") == 1 by { CompareAntisymmetric("a", "m"); }
    assert Compare("z", "m") == 1 by { CompareAntisymmetric("m", "z"); }
  }

  // ---------------------------------------------------------------------
  // Resolution (ChooseVTable)

  /** The first override whose table has the method. */
  function FirstMatch(os: seq<Override>, tables: seq<VTable>, n: string): (r: Option<nat>)
    requires forall k :: 0 <= k < |os| ==> os[k].table < |tables|
    ensures r.None? <==> forall k :: 0 <= k < |os| ==> !TableHas(tables[os[k].table], n)
    ensures r.Some? ==>
              && r.value < |os| && TableHas(tables[os[r.value].table], n)
              && forall j :: 0 <= j < r.value ==> !TableHas(tables[os[j].table], n)
    decreases |os|
  {
    if os == [] then None
    else if TableHas(tables[os[0].table], n) then Some(0)
    else
      match FirstMatch(os[1..], tables, n)
      case None => None
      case Some(k) => Some(k + 1)
  }

  /** What ChooseVTable returns for the virtual name n. */
  ghost function Choice(store: seq<ClassRec>, tables: seq<VTable>, rank: seq<nat>, c: ClassId, n: string): Option<TableId>
    requires Linked(store, tables) && Ranked(store, rank) && c < |store|
    decreases rank[c]
  {
    var k := FirstMatch(store[c].overrides, tables, n);
    if k.Some? then Some(store[c].overrides[k.value].table)
    else if store[c].super.Some? && Choice(store, tables, rank, store[c].super.value, n).Some? then
      Choice(store, tables, rank, store[c].super.value, n)
    else store[c].vtable
  }

  /** A class, its super, its super's super, ... up to the root. */
  ghost function Chain(store: seq<ClassRec>, rank: seq<nat>, c: ClassId): (ch: seq<ClassId>)
    requires Ranked(store, rank) && c < |store|
    ensures ch != [] && ch[0] == c
    ensures forall k :: 0 <= k < |ch| ==> ch[k] < |store|
    ensures forall k :: 0 < k < |ch| ==> store[ch[k - 1]].super == Some(ch[k])
    ensures store[ch[|ch| - 1]].super.None?
    decreases rank[c]
  {
    if store[c].super.Some? then [c] + Chain(store, rank, store[c].super.value) else [c]
  }

  /** A class that could supply a table: it has one of its own or an
      override whose table has the method. */
  ghost predicate Candidate(store: seq<ClassRec>, tables: seq<VTable>, id: ClassId, n: string)
    requires Linked(store, tables) && id < |store|
  {
    store[id].vtable.Some? || FirstMatch(store[id].overrides, tables, n).Some?
  }

  /** ChooseVTable yields nil exactly when no class on the chain could supply
      a table. */
  lemma {:induction false} ChoiceNoneIff(store: seq<ClassRec>, tables: seq<VTable>, rank: seq<nat>, c: ClassId, n: string)
    requires Linked(store, tables) && Ranked(store, rank) && c < |store|
    ensures Choice(store, tables, rank, c, n).None? <==> NoCandidateOnChain(store, tables, rank, c, n)
    decreases rank[c]
  {
    if store[c].super.Some? {
      ChoiceNoneIff(store, tables, rank, store[c].super.value, n);
      NoCandidateStep(store, tables, rank, c, n);
    } else {
      assert Chain(store, rank, c) == [c];
    }
  }

  /** The chain of a class with a super is the class followed by its super's chain. */
  lemma ChainCons(store: seq<ClassRec>, rank: seq<nat>, c: ClassId)
    requires Ranked(store, rank) && c < |store| && store[c].super.Some?
    ensures Chain(store, rank, c) == [c] + Chain(store, rank, store[c].super.value)
    ensures |Chain(store, rank, c)| == 1 + |Chain(store, rank, store[c].super.value)|
    ensures forall k :: 0 <= k < |Chain(store, rank, store[c].super.value)| ==>
              Chain(store, rank, c)[k + 1] == Chain(store, rank, store[c].super.value)[k]
  {
  }

  lemma NoCandidateStep(store: seq<ClassRec>, tables: seq<VTable>, rank: seq<nat>, c: ClassId, n: string)
    requires Linked(store, tables) && Ranked(store, rank) && c < |store| && store[c].super.Some?
    ensures NoCandidateOnChain(store, tables, rank, c, n) <==>
              !Candidate(store, tables, c, n) && NoCandidateOnChain(store, tables, rank, store[c].super.value, n)
  {
    var s := store[c].super.value;
    var ch := Chain(store, rank, c);
    var tail := Chain(store, rank, s);
    ChainCons(store, rank, c);
    if !Candidate(store, tables, c, n) && NoCandidateOnChain(store, tables, rank, s, n) {
      forall k | 0 <= k < |ch| ensures !Candidate(store, tables, ch[k], n) {
        if k > 0 { assert ch[k] == tail[k - 1]; }
      }
    }
  }

  /** A table ChooseVTable yields is owned or overridden by a class on the chain. */
  lemma {:induction false} ChoiceOnChain(store: seq<ClassRec>, tables: seq<VTable>, rank: seq<nat>, c: ClassId, n: string)
    requires Linked(store, tables) && Ranked(store, rank) && c < |store|
    requires Choice(store, tables, rank, c, n).Some?
    ensures OwnedOnChain(store, rank, c, Choice(store, tables, rank, c, n).value)
    decreases rank[c]
  {
    var ch := Chain(store, rank, c);
    var r := Choice(store, tables, rank, c, n);
    var k := FirstMatch(store[c].overrides, tables, n);
    if k.Some? {
      assert store[c].overrides[k.value].table == r.value;
      assert OwnsOrOverrides(store, ch[0], r.value);
    } else if store[c].super.Some? && Choice(store, tables, rank, store[c].super.value, n).Some? {
      var s := store[c].super.value;
      ChoiceOnChain(store, tables, rank, s, n);
      var tail := Chain(store, rank, s);
      assert ch == [c] + tail;
      var j :| 0 <= j < |tail| && OwnsOrOverrides(store, tail[j], r.value);
      assert ch[j + 1] == tail[j];
    } else {
      assert OwnsOrOverrides(store, ch[0], r.value);
    }
  }

  /** No class on the chain from c could supply a table for n. */
  ghost predicate NoCandidateOnChain(store: seq<ClassRec>, tables: seq<VTable>, rank: seq<nat>, c: ClassId, n: string)
    requires Linked(store, tables) && Ranked(store, rank) && c < |store|
  {
    var ch := Chain(store, rank, c);
    forall k :: 0 <= k < |ch| ==> !Candidate(store, tables, ch[k], n)
  }

  /** Some class on the chain from c owns or overrides table t. */
  ghost predicate OwnedOnChain(store: seq<ClassRec>, rank: seq<nat>, c: ClassId, t: TableId)
    requires Ranked(store, rank) && c < |store|
  {
    var ch := Chain(store, rank, c);
    exists k :: 0 <= k < |ch| && OwnsOrOverrides(store, ch[k], t)
  }

  /** The class owns table t or overrides it. */
  ghost predicate OwnsOrOverrides(store: seq<ClassRec>, id: ClassId, t: TableId)
    requires id < |store|
  {
    store[id].vtable == Some(t) || exists k :: 0 <= k < |store[id].overrides| && store[id].overrides[k].table == t
  }

  /** No class on the chain from c owns a table. */
  ghost predicate NoTableOnChain(store: seq<ClassRec>, rank: seq<nat>, c: ClassId)
    requires Ranked(store, rank) && c < |store|
  {
    var ch := Chain(store, rank, c);
    forall k :: 0 <= k < |ch| ==> store[ch[k]].vtable.None?
  }

  /** t is the table of the class nearest the root, on the chain from c,
      that owns one. */
  ghost predicate RootMostTable(store: seq<ClassRec>, rank: seq<nat>, c: ClassId, t: TableId)
    requires Ranked(store, rank) && c < |store|
  {
    var ch := Chain(store, rank, c);
    exists k :: 0 <= k < |ch| && store[ch[k]].vtable == Some(t)
                && forall j :: k < j < |ch| ==> store[ch[j]].vtable.None?
  }

  /** No class on the chain has an override whose table holds the method. */
  ghost predicate NoOverrideOnChain(store: seq<ClassRec>, tables: seq<VTable>, rank: seq<nat>, c: ClassId, n: string)
    requires Linked(store, tables) && Ranked(store, rank) && c < |store|
  {
    var ch := Chain(store, rank, c);
    forall k :: 0 <= k < |ch| ==> FirstMatch(store[ch[k]].overrides, tables, n).None?
  }

  /** Where no class on the chain overrides a table holding the method, the
      choice is the table of the root-most class on the chain that owns
      one: own tables are never searched for the method. */
  lemma ChoiceWithoutOverrides(store: seq<ClassRec>, tables: seq<VTable>, rank: seq<nat>, c: ClassId, n: string)
    requires Linked(store, tables) && Ranked(store, rank) && c < |store|
    requires NoOverrideOnChain(store, tables, rank, c, n)
    ensures Choice(store, tables, rank, c, n).None? <==> NoTableOnChain(store, rank, c)
    ensures Choice(store, tables, rank, c, n).Some? ==>
              RootMostTable(store, rank, c, Choice(store, tables, rank, c, n).value)
  {
    ChoiceNoneIff(store, tables, rank, c, n);
    var ch := Chain(store, rank, c);
    assert forall k :: 0 <= k < |ch| ==> FirstMatch(store[ch[k]].overrides, tables, n).None?;
    assert NoCandidateOnChain(store, tables, rank, c, n) <==> NoTableOnChain(store, rank, c);
    if Choice(store, tables, rank, c, n).Some? {
      ChoiceRootMost(store, tables, rank, c, n);
    }
  }

  lemma {:induction false} ChoiceRootMost(store: seq<ClassRec>, tables: seq<VTable>, rank: seq<nat>, c: ClassId, n: string)
    requires Linked(store, tables) && Ranked(store, rank) && c < |store|
    requires NoOverrideOnChain(store, tables, rank, c, n)
    requires Choice(store, tables, rank, c, n).Some?
    ensures RootMostTable(store, rank, c, Choice(store, tables, rank, c, n).value)
    decreases rank[c]
  {
    var ch := Chain(store, rank, c);
    var r := Choice(store, tables, rank, c, n);
    assert FirstMatch(store[ch[0]].overrides, tables, n).None?;
    if store[c].super.Some? {
      var s := store[c].super.value;
      ChainStep(store, tables, rank, c, n);
      if Choice(store, tables, rank, s, n).Some? {
        ChoiceRootMost(store, tables, rank, s, n);
        RootMostInherited(store, rank, c, r.value);
      } else {
        ChoiceNoneIff(store, tables, rank, s, n);
        NoCandidateNoTable(store, tables, rank, s, n);
        RootMostOwn(store, rank, c, r.value);
      }
    } else {
      RootMostOwn(store, rank, c, r.value);
    }
  }

  /** Having no matching override on the chain passes to the super's chain. */
  lemma ChainStep(store: seq<ClassRec>, tables: seq<VTable>, rank: seq<nat>, c: ClassId, n: string)
    requires Linked(store, tables) && Ranked(store, rank) && c < |store| && store[c].super.Some?
    ensures Chain(store, rank, c) == [c] + Chain(store, rank, store[c].super.value)
    ensures NoOverrideOnChain(store, tables, rank, c, n) ==> NoOverrideOnChain(store, tables, rank, store[c].super.value, n)
  {
    ChainCons(store, rank, c);
  }

  lemma NoCandidateNoTable(store: seq<ClassRec>, tables: seq<VTable>, rank: seq<nat>, c: ClassId, n: string)
    requires Linked(store, tables) && Ranked(store, rank) && c < |store|
    requires NoCandidateOnChain(store, tables, rank, c, n)
    ensures NoTableOnChain(store, rank, c)
  {
    var ch := Chain(store, rank, c);
    assert forall k :: 0 <= k < |ch| ==> !Candidate(store, tables, ch[k], n);
  }

  /** The root-most table of the super's chain is that of the class's chain. */
  lemma RootMostInherited(store: seq<ClassRec>, rank: seq<nat>, c: ClassId, t: TableId)
    requires Ranked(store, rank) && c < |store| && store[c].super.Some?
    requires RootMostTable(store, rank, store[c].super.value, t)
    ensures RootMostTable(store, rank, c, t)
  {
    var tail := Chain(store, rank, store[c].super.value);
    var ch := Chain(store, rank, c);
    assert ch == [c] + tail;
    var j :| 0 <= j < |tail| && store[tail[j]].vtable == Some(t)
             && forall i :: j < i < |tail| ==> store[tail[i]].vtable.None?;
    assert ch[j + 1] == tail[j];
    forall i | j + 1 < i < |ch| ensures store[ch[i]].vtable.None? {
      assert ch[i] == tail[i - 1];
    }
  }

  /** A class's own table is the root-most one when no ancestor owns a table. */
  lemma RootMostOwn(store: seq<ClassRec>, rank: seq<nat>, c: ClassId, t: TableId)
    requires Ranked(store, rank) && c < |store| && store[c].vtable == Some(t)
    requires store[c].super.Some? ==> NoTableOnChain(store, rank, store[c].super.value)
    ensures RootMostTable(store, rank, c, t)
  {
    var ch := Chain(store, rank, c);
    if store[c].super.Some? {
      var tail := Chain(store, rank, store[c].super.value);
      assert ch == [c] + tail;
      forall i | 0 < i < |ch| ensures store[ch[i]].vtable.None? {
        assert ch[i] == tail[i - 1];
      }
    }
    assert store[ch[0]].vtable == Some(t);
  }

  // ---------------------------------------------------------------------
  // Registration (RegisterVirtual)

  /** The overrides after registering v for table t: appended to the first
      override of t, or to a new override of t at the end. */
  function AddToOverrides(os: seq<Override>, t: TableId, v: VFunc): seq<Override>
    decreases |os|
  {
    if os == [] then [Override(t, [v])]
    else if os[0].table == t then [os[0].(functions := os[0].functions + [v])] + os[1..]
    else [os[0]] + AddToOverrides(os[1..], t, v)
  }

  /** Registering into an existing override appends the entry to its end
      and leaves every other override as it was. */
  lemma {:induction false} AddToExistingOverride(os: seq<Override>, k: nat, t: TableId, v: VFunc)
    requires k < |os| && os[k].table == t
    requires forall j :: 0 <= j < k ==> os[j].table != t
    ensures AddToOverrides(os, t, v) == os[k := os[k].(functions := os[k].functions + [v])]
    decreases k
  {
    if k > 0 {
      AddToExistingOverride(os[1..], k - 1, t, v);
      assert [os[0]] + os[1..][k - 1 := os[k].(functions := os[k].functions + [v])]
          == os[k := os[k].(functions := os[k].functions + [v])];
    }
  }

  /** Registering for a table no override has adds one override at the end. */
  lemma {:induction false} AddToNewOverride(os: seq<Override>, t: TableId, v: VFunc)
    requires forall j :: 0 <= j < |os| ==> os[j].table != t
    ensures AddToOverrides(os, t, v) == os + [Override(t, [v])]
    decreases |os|
  {
    if os != [] {
      AddToNewOverride(os[1..], t, v);
      assert [os[0]] + (os[1..] + [Override(t, [v])]) == os + [Override(t, [v])];
    }
  }

  /** Registration keeps at most one override per table, and afterwards
      there is one for t. */
  lemma AddToOverridesDistinct(os: seq<Override>, t: TableId, v: VFunc)
    requires OverridesDistinct(os)
    ensures OverridesDistinct(AddToOverrides(os, t, v))
    ensures exists k :: 0 <= k < |AddToOverrides(os, t, v)| && AddToOverrides(os, t, v)[k].table == t
  {
    if k :| 0 <= k < |os| && os[k].table == t {
      assert forall j :: 0 <= j < k ==> os[j].table != t;
      AddToExistingOverride(os, k, t, v);
      assert AddToOverrides(os, t, v)[k].table == t;
    } else {
      AddToNewOverride(os, t, v);
      assert AddToOverrides(os, t, v)[|os|].table == t;
    }
  }

  /** The class store and the table store after RegisterVirtual(c, m, t),
      where v is m's entry. */
  function AfterRegister(store: seq<ClassRec>, tables: seq<VTable>, c: ClassId, v: VFunc, t: TableId): (r: (seq<ClassRec>, seq<VTable>))
    requires c < |store| && t < |tables|
    ensures |r.0| == |store| && |r.1| == |tables|
    ensures forall id :: 0 <= id < |store| && id != c ==> r.0[id] == store[id]
    ensures forall id :: 0 <= id < |tables| && id != t ==> r.1[id] == tables[id]
    ensures r.0[c].name == store[c].name && r.0[c].super == store[c].super && r.0[c].vtable == store[c].vtable
  {
    if store[c].vtable == Some(t) then
      (store, tables[t := tables[t].(functions := tables[t].functions + [v])])
    else
      (store[c := store[c].(overrides := AddToOverrides(store[c].overrides, t, v))], tables)
  }

  /** The Names example: A owns the table aVtable (table 0), B (class 1)
      extends A (class 0) and C (class 2) extends B; bo and co are the
      overrides of B and C. */
  function NamesStore(bo: seq<Override>, co: seq<Override>): seq<ClassRec> {
    [ClassRec("A", None, Some(0), []), ClassRec("B", Some(0), None, bo), ClassRec("C", Some(1), None, co)]
  }

  const NamesRank: seq<nat> := [0, 1, 2]

  /** The Names store is linked and ranked whenever its overrides point
      into the tables. */
  lemma NamesStoreLinked(bo: seq<Override>, co: seq<Override>, tables: seq<VTable>)
    requires |tables| > 0
    requires forall k :: 0 <= k < |bo| ==> bo[k].table < |tables|
    requires forall k :: 0 <= k < |co| ==> co[k].table < |tables|
    ensures Linked(NamesStore(bo, co), tables) && Ranked(NamesStore(bo, co), NamesRank)
  {
  }

  /** Each of A, B and C defines m, and they are resolved and registered in
      that order. A resolves m to its own table and appends it there. */
  lemma NamesResolveA(m: FunctionParser.Function)
    ensures Linked(NamesStore([], []), [VTable("aVtable", [])]) && Ranked(NamesStore([], []), NamesRank)
    ensures Choice(NamesStore([], []), [VTable("aVtable", [])], NamesRank, 0, MethodVirtualName(m)) == Some(0)
    ensures AfterRegister(NamesStore([], []), [VTable("aVtable", [])], 0, FunctionToVFunc(m), 0)
            == (NamesStore([], []), [VTable("aVtable", [FunctionToVFunc(m)])])
  {
    var t0 := [VTable("aVtable", [])];
    var v := FunctionToVFunc(m);
    NamesStoreLinked([], [], t0);
    assert t0[0].functions + [v] == [v];
    assert t0[0 := t0[0].(functions := [v])] == [VTable("aVtable", [v])];
  }

  /** B finds no override of its own and takes A's table, so m goes into a
      new override of A's table. */
  lemma NamesResolveB(m: FunctionParser.Function)
    ensures var t1 := [VTable("aVtable", [FunctionToVFunc(m)])];
            && Linked(NamesStore([], []), t1) && Ranked(NamesStore([], []), NamesRank)
            && Choice(NamesStore([], []), t1, NamesRank, 1, MethodVirtualName(m)) == Some(0)
            && AfterRegister(NamesStore([], []), t1, 1, FunctionToVFunc(m), 0)
               == (NamesStore([Override(0, [FunctionToVFunc(m)])], []), t1)
  {
    var s0 := NamesStore([], []);
    var t1 := [VTable("aVtable", [FunctionToVFunc(m)])];
    NamesStoreLinked([], [], t1);
    assert Choice(s0, t1, NamesRank, 0, MethodVirtualName(m)) == Some(0);
    assert s0[1 := s0[1].(overrides := [Override(0, [FunctionToVFunc(m)])])]
        == NamesStore([Override(0, [FunctionToVFunc(m)])], []);
  }

  /** C inherits B's override, whose table (A's) now has m, so m goes into
      a new override of A's table too. */
  lemma NamesResolveC(m: FunctionParser.Function)
    ensures var t1 := [VTable("aVtable", [FunctionToVFunc(m)])];
            var o := [Override(0, [FunctionToVFunc(m)])];
            && Linked(NamesStore(o, []), t1) && Ranked(NamesStore(o, []), NamesRank)
            && Choice(NamesStore(o, []), t1, NamesRank, 2, MethodVirtualName(m)) == Some(0)
            && AfterRegister(NamesStore(o, []), t1, 2, FunctionToVFunc(m), 0) == (NamesStore(o, o), t1)
  {
    var n := MethodVirtualName(m);
    var t1 := [VTable("aVtable", [FunctionToVFunc(m)])];
    var o := [Override(0, [FunctionToVFunc(m)])];
    var s2 := NamesStore(o, []);
    NamesStoreLinked(o, [], t1);
    NamesStoreLinked(o, o, t1);
    assert TableHas(t1[0], n) by { assert t1[0].functions[0].name == n; }
    assert FirstMatch(s2[1].overrides, t1, n) == Some(0);
    assert Choice(s2, t1, NamesRank, 1, n) == Some(0);
    assert s2[2 := s2[2].(overrides := o)] == NamesStore(o, o);
  }

  /** Replacing a class's overrides keeps the stores well formed when the
      new overrides point into the table store, one per table. */
  lemma OverridesReplaced(classes: map<string, ClassId>, store: seq<ClassRec>, tables: seq<VTable>, rank: seq<nat>,
                          c: ClassId, os: seq<Override>)
    requires Registry(classes, store) && WellFormed(store, tables, rank) && c < |store|
    requires forall k :: 0 <= k < |os| ==> os[k].table < |tables|
    requires OverridesDistinct(os)
    ensures var store' := store[c := store[c].(overrides := os)];
            Registry(classes, store') && WellFormed(store', tables, rank)
  {
    var store' := store[c := store[c].(overrides := os)];
    assert forall id :: 0 <= id < |store| ==> store'[id].name == store[id].name && store'[id].super == store[id].super;
  }

  /** Registering a new name as a fresh root class keeps the stores well formed. */
  lemma ClassAdded(classes: map<string, ClassId>, store: seq<ClassRec>, tables: seq<VTable>, rank: seq<nat>, name: string)
    requires Registry(classes, store) && WellFormed(store, tables, rank) && name !in classes
    ensures var store' := store + [ClassRec(name, None, None, [])];
            Registry(classes[name := |store|], store') && WellFormed(store', tables, rank + [0])
  {
    var id := |store|;
    var store' := store + [ClassRec(name, None, None, [])];
    assert forall x :: 0 <= x < id ==> store'[x] == store[x];
    forall x, y | 0 <= x < y < |store'| ensures store'[x].name != store'[y].name {
      if y == id {
        assert store[x].name in classes;
      }
    }
  }

  /** Giving a class a table from the table store keeps the stores well formed. */
  lemma VTableSet(classes: map<string, ClassId>, store: seq<ClassRec>, tables: seq<VTable>, rank: seq<nat>,
                  c: ClassId, t: TableId)
    requires Registry(classes, store) && WellFormed(store, tables, rank) && c < |store| && t < |tables|
    ensures var store' := store[c := store[c].(vtable := Some(t))];
            Registry(classes, store') && WellFormed(store', tables, rank)
  {
    var store' := store[c := store[c].(vtable := Some(t))];
    assert forall id :: 0 <= id < |store| ==> store'[id].name == store[id].name && store'[id].super == store[id].super;
  }

  // ---------------------------------------------------------------------
  // The container

  class ClassesContainer {
    var classes: map<string, ClassId>
    var store: seq<ClassRec>
    var tables: seq<VTable>
    ghost var rank: seq<nat>

    ghost predicate Valid()
      reads this
    {
      Registry(classes, store) && WellFormed(store, tables, rank)
    }

    /** NewClassesContainer: an empty registry. */
    constructor ()
      ensures Valid() && classes == map[] && store == [] && tables == []
    {
      classes := map[];
      store := [];
      tables := [];
      rank := [];
    }

    /** GetClass: the registered class of that name, created (with no super,
        no vtable and no overrides) when there is none. */
    method GetClass(name: string) returns (id: ClassId)
      requires Valid()
      modifies this
      ensures Valid()
      ensures name in classes && id < |store| && classes[name] == id && store[id].name == name
      ensures name in old(classes) ==>
                id == old(classes[name]) && classes == old(classes) && store == old(store) && rank == old(rank)
      ensures name !in old(classes) ==>
                && id == |old(store)|
                && store == old(store) + [ClassRec(name, None, None, [])]
                && classes == old(classes)[name := id]
      ensures tables == old(tables)
    {
      if name !in classes {
        ClassAdded(classes, store, tables, rank, name);
        id := |store|;
        store := store + [ClassRec(name, None, None, [])];
        rank := rank + [0];
        classes := classes[name := id];
      }
      id := classes[name];
    }

    /** A new vtable; the driver that creates tables is not part of this model. */
    method NewVTable(name: string) returns (t: TableId)
      requires Valid()
      modifies this
      ensures Valid()
      ensures t == |old(tables)| && tables == old(tables) + [VTable(name, [])]
      ensures classes == old(classes) && store == old(store) && rank == old(rank)
    {
      t := |tables|;
      tables := tables + [VTable(name, [])];
    }

    /** c.vtable = t, as the driver assigns it. */
    method SetVTable(c: ClassId, t: TableId)
      requires Valid() && c < |store| && t < |tables|
      modifies this
      ensures Valid()
      ensures store == old(store)[c := old(store[c]).(vtable := Some(t))]
      ensures classes == old(classes) && tables == old(tables) && rank == old(rank)
    {
      VTableSet(classes, store, tables, rank, c, t);
      store := store[c := store[c].(vtable := Some(t))];
    }

    /** c.super = s, as the driver assigns it; newRank shows the chain stays acyclic. */
    method SetSuper(c: ClassId, s: ClassId, ghost newRank: seq<nat>)
      requires Valid() && c < |store| && s < |store|
      requires Ranked(store[c := store[c].(super := Some(s))], newRank)
      modifies this
      ensures Valid()
      ensures store == old(store)[c := old(store[c]).(super := Some(s))]
      ensures classes == old(classes) && tables == old(tables) && rank == newRank
    {
      store := store[c := store[c].(super := Some(s))];
      rank := newRank;
    }

    /** Class.HasVTable: whether the class has a table of its own; in a
        linked store that table is one of its tables. */
    predicate HasVTable(c: ClassId)
      reads this
      requires c < |store|
      ensures HasVTable(c) <==> store[c].vtable.Some?
      ensures HasVTable(c) && Linked(store, tables) ==> store[c].vtable.value < |tables|
    {
      store[c].vtable.Some?
    }

    /** VTable.HasMethod, which scans the functions in order. */
    method HasMethod(t: TableId, methodName: string) returns (b: bool)
      requires t < |tables|
      ensures b == TableHas(tables[t], methodName)
    {
      var fs := tables[t].functions;
      var i := 0;
      while i < |fs|
        invariant 0 <= i <= |fs|
        invariant forall j :: 0 <= j < i ==> fs[j].name != methodName
      {
        if fs[i].name == methodName {
          return true;
        }
        i := i + 1;
      }
      return false;
    }

    /** VTable.AddVirtual: m's entry at the end of table t. */
    method AddVirtual(t: TableId, m: FunctionParser.Function)
      requires Valid() && t < |tables|
      modifies this
      ensures Valid()
      ensures tables == old(tables)[t := old(tables[t]).(functions := old(tables[t].functions) + [FunctionToVFunc(m)])]
      ensures classes == old(classes) && store == old(store) && rank == old(rank)
    {
      tables := tables[t := tables[t].(functions := tables[t].functions + [FunctionToVFunc(m)])];
    }

    /** Override.AddOverride on the k-th override of class c. */
    method AddOverride(c: ClassId, k: nat, m: FunctionParser.Function)
      requires Valid() && c < |store| && k < |store[c].overrides|
      modifies this
      ensures Valid()
      ensures var os := old(store[c].overrides);
              store == old(store)[c := old(store[c]).(overrides := os[k := os[k].(functions := os[k].functions + [FunctionToVFunc(m)])])]
      ensures classes == old(classes) && tables == old(tables) && rank == old(rank)
    {
      var os := store[c].overrides;
      var os' := os[k := os[k].(functions := os[k].functions + [FunctionToVFunc(m)])];
      assert forall j :: 0 <= j < |os| ==> os'[j].table == os[j].table;
      OverridesReplaced(classes, store, tables, rank, c, os');
      store := store[c := store[c].(overrides := os')];
    }

    /** RegisterVirtual: into the class's own table when that is t, otherwise
        into the class's override of t, created at the end when missing. */
    method RegisterVirtual(c: ClassId, m: FunctionParser.Function, t: TableId)
      requires Valid() && c < |store| && t < |tables|
      modifies this
      ensures Valid()
      ensures old(store[c].vtable) == Some(t) ==>
                && tables == old(tables)[t := old(tables[t]).(functions := old(tables[t].functions) + [FunctionToVFunc(m)])]
                && store == old(store)
      ensures old(store[c].vtable) != Some(t) ==>
                && tables == old(tables)
                && store == old(store)[c := old(store[c]).(overrides := AddToOverrides(old(store[c].overrides), t, FunctionToVFunc(m)))]
      ensures classes == old(classes) && rank == old(rank)
      ensures (store, tables) == AfterRegister(old(store), old(tables), c, FunctionToVFunc(m), t)
    {
      if HasVTable(c) && store[c].vtable == Some(t) {
        AddVirtual(t, m);
        return;
      }
      var os := store[c].overrides;
      var k := 0;
      while k < |os|
        invariant 0 <= k <= |os|
        invariant forall j :: 0 <= j < k ==> os[j].table != t
      {
        if os[k].table == t {
          AddToExistingOverride(os, k, t, FunctionToVFunc(m));
          AddOverride(c, k, m);
          return;
        }
        k := k + 1;
      }
      AddToNewOverride(os, t, FunctionToVFunc(m));
      AddToOverridesDistinct(os, t, FunctionToVFunc(m));
      var ov := Override(t, [FunctionToVFunc(m)]);
      OverridesReplaced(classes, store, tables, rank, c, os + [ov]);
      store := store[c := store[c].(overrides := os + [ov])];
    }

    /** ChooseVTable: the first override whose table has the method, else
        the super's non-nil choice, else the class's own table (maybe nil). */
    method ChooseVTable(c: ClassId, m: FunctionParser.Function) returns (r: Option<TableId>)
      requires Valid() && c < |store|
      ensures r == Choice(store, tables, rank, c, MethodVirtualName(m))
      decreases rank[c]
    {
      var n := MethodVirtualName(m);
      var os := store[c].overrides;
      var k := 0;
      while k < |os|
        invariant 0 <= k <= |os|
        invariant forall j :: 0 <= j < k ==> !TableHas(tables[os[j].table], n)
      {
        var has := HasMethod(os[k].table, n);
        if has {
          assert FirstMatch(os, tables, n) == Some(k);
          return Some(os[k].table);
        }
        k := k + 1;
      }
      if store[c].super.Some? {
        var s := ChooseVTable(store[c].super.value, m);
        if s.Some? {
          return s;
        }
      }
      return store[c].vtable;
    }

    /** GetClassesSorted: the registered classes, each once, sorted with the
        comparator; with a non-transitive comparator only neighbours are
        guaranteed to be in order. */
    method GetClassesSorted() returns (r: seq<ClassId>)
      requires Valid()
      ensures |r| == |classes|
      ensures forall n :: n in classes ==> classes[n] in r
      ensures forall i :: 0 <= i < |r| ==> r[i] < |store|
      ensures Distinct(r)
      ensures AdjacentOrdered(store, r)
    {
      var values, keys := GeneratorUtils.MapItems(classes);
      RegisteredValues(classes, store, values, keys);
      r := SortIds(store, rank, values);
      PermutationFacts(r, values);
    }
  }

  /** slices.SortStableFunc on a copy of the ids. */
  method SortIds(store: seq<ClassRec>, ghost rank: seq<nat>, ids: seq<ClassId>) returns (r: seq<ClassId>)
    requires Ranked(store, rank) && NamesDistinct(store)
    requires forall i :: 0 <= i < |ids| ==> ids[i] < |store|
    ensures multiset(r) == multiset(ids)
    ensures forall i :: 0 <= i < |r| ==> r[i] < |store|
    ensures AdjacentOrdered(store, r)
  {
    var a := new ClassId[|ids|](i requires 0 <= i < |ids| => ids[i]);
    assert a[..] == ids;
    InsertionSort(store, rank, a);
    r := a[..];
  }

  /** Go's stable sort on up to twenty elements: insertion sort by swaps,
      with the comparator read from the class store. */
  method InsertionSort(store: seq<ClassRec>, ghost rank: seq<nat>, a: array<ClassId>)
    requires Ranked(store, rank) && NamesDistinct(store)
    requires forall i :: 0 <= i < a.Length ==> a[i] < |store|
    modifies a
    ensures forall i :: 0 <= i < a.Length ==> a[i] < |store|
    ensures multiset(a[..]) == old(multiset(a[..]))
    ensures AdjacentOrdered(store, a[..])
  {
    if a.Length == 0 {
      return;
    }
    var i := 1;
    while i < a.Length
      invariant 1 <= i <= a.Length
      invariant forall k :: 0 <= k < a.Length ==> a[k] < |store|
      invariant multiset(a[..]) == old(multiset(a[..]))
      invariant OrderedUpTo(store, a[..], i)
    {
      InsertOne(store, rank, a, i);
      i := i + 1;
    }
  }

  /** One pass of the insertion sort: a[i] swapped leftwards past every
      element it is less than. */
  method InsertOne(store: seq<ClassRec>, ghost rank: seq<nat>, a: array<ClassId>, i: nat)
    requires Ranked(store, rank) && NamesDistinct(store)
    requires 1 <= i < a.Length
    requires forall k :: 0 <= k < a.Length ==> a[k] < |store|
    requires OrderedUpTo(store, a[..], i)
    modifies a
    ensures forall k :: 0 <= k < a.Length ==> a[k] < |store|
    ensures multiset(a[..]) == old(multiset(a[..]))
    ensures OrderedUpTo(store, a[..], i + 1)
  {
    var j := i;
    InsertStart(store, a[..], i);
    while j > 0 && ClassOrder(store, a[j], a[j - 1]) < 0
      invariant 0 <= j <= i
      invariant forall k :: 0 <= k < a.Length ==> a[k] < |store|
      invariant multiset(a[..]) == old(multiset(a[..]))
      invariant Inserting(store, a[..], i, j)
      decreases j
    {
      ghost var before := a[..];
      a[j - 1], a[j] := a[j], a[j - 1];
      InsertStep(store, rank, before, a[..], i, j);
      j := j - 1;
    }
    InsertDone(store, rank, a[..], i, j);
  }

  /** The registry's values, read in any order of its keys, are distinct
      class ids. */
  lemma RegisteredValues(classes: map<string, ClassId>, store: seq<ClassRec>, values: seq<ClassId>, keys: seq<string>)
    requires Registry(classes, store)
    requires GeneratorUtils.EnumeratesKeys(keys, classes) && |values| == |keys|
    requires forall i :: 0 <= i < |values| ==> keys[i] in classes && values[i] == classes[keys[i]]
    ensures Distinct(values)
    ensures forall i :: 0 <= i < |values| ==> values[i] < |store|
  {
    forall i, j | 0 <= i < j < |values| ensures values[i] != values[j] {
      assert keys[i] != keys[j];
      assert store[values[i]].name == keys[i];
    }
  }

  /** Positions 1 .. i-1 are in comparator order with their left neighbour. */
  predicate OrderedUpTo(store: seq<ClassRec>, s: seq<ClassId>, i: nat)
    requires forall k :: 0 <= k < |s| ==> s[k] < |store|
    requires i <= |s|
  {
    forall k :: 0 < k < i ==> ClassOrder(store, s[k], s[k - 1]) >= 0
  }

  /** While element i moves left to position j: every neighbour pair of the
      prefix s[..i+1] is in order except around position j; the moved element
      is below its right neighbour, and its two neighbours are in order. */
  predicate Inserting(store: seq<ClassRec>, s: seq<ClassId>, i: nat, j: nat)
    requires forall k :: 0 <= k < |s| ==> s[k] < |store|
    requires j <= i < |s|
  {
    && (forall k :: 0 < k <= i && k != j && k != j + 1 ==> ClassOrder(store, s[k], s[k - 1]) >= 0)
    && (j < i ==> ClassOrder(store, s[j], s[j + 1]) < 0)
    && (0 < j < i ==> ClassOrder(store, s[j + 1], s[j - 1]) >= 0)
  }

  lemma InsertStart(store: seq<ClassRec>, s: seq<ClassId>, i: nat)
    requires forall k :: 0 <= k < |s| ==> s[k] < |store|
    requires i < |s| && OrderedUpTo(store, s, i)
    ensures Inserting(store, s, i, i)
  {
  }

  /** One swap moves the element one place left and keeps the invariant. */
  lemma InsertStep(store: seq<ClassRec>, rank: seq<nat>, before: seq<ClassId>, after: seq<ClassId>, i: nat, j: nat)
    requires Ranked(store, rank) && NamesDistinct(store)
    requires forall k :: 0 <= k < |before| ==> before[k] < |store|
    requires 0 < j <= i < |before| && Inserting(store, before, i, j)
    requires ClassOrder(store, before[j], before[j - 1]) < 0
    requires after == before[j - 1 := before[j]][j := before[j - 1]]
    ensures forall k :: 0 <= k < |after| ==> after[k] < |store|
    ensures multiset(after) == multiset(before)
    ensures Inserting(store, after, i, j - 1)
  {
    ClassOrderAntisymmetric(store, rank, before[j], before[j - 1]);
    forall k | 0 < k <= i && k != j - 1 && k != j
      ensures ClassOrder(store, after[k], after[k - 1]) >= 0
    {
      if k == j + 1 {
        assert after[k] == before[k] && after[k - 1] == before[j - 1];
      }
    }
  }

  /** When the element stops, the whole prefix s[..i+1] is in order. */
  lemma InsertDone(store: seq<ClassRec>, rank: seq<nat>, s: seq<ClassId>, i: nat, j: nat)
    requires Ranked(store, rank) && NamesDistinct(store)
    requires forall k :: 0 <= k < |s| ==> s[k] < |store|
    requires j <= i < |s| && Inserting(store, s, i, j)
    requires j == 0 || ClassOrder(store, s[j], s[j - 1]) >= 0
    ensures OrderedUpTo(store, s, i + 1)
  {
    if j < i {
      ClassOrderAntisymmetric(store, rank, s[j], s[j + 1]);
    }
  }

  predicate Distinct<T(==)>(s: seq<T>) {
    forall i, j :: 0 <= i < j < |s| ==> s[i] != s[j]
  }

  /** An element occurs at most once in a sequence without repetitions. */
  lemma {:induction false} DistinctCount<T>(s: seq<T>, x: T)
    requires Distinct(s)
    ensures multiset(s)[x] <= 1
    ensures x in s ==> multiset(s)[x] == 1
    decreases |s|
  {
    if s != [] {
      assert s == [s[0]] + s[1..];
      assert Distinct(s[1..]) by {
        forall i, j | 0 <= i < j < |s[1..]| ensures s[1..][i] != s[1..][j] {
          assert s[1..][i] == s[i + 1] && s[1..][j] == s[j + 1];
        }
      }
      DistinctCount(s[1..], x);
      if x == s[0] {
        assert x !in s[1..] by {
          forall k | 0 <= k < |s[1..]| ensures s[1..][k] != x {
            assert s[1..][k] == s[k + 1];
          }
        }
      }
    }
  }

  /** An element at two positions occurs at least twice. */
  lemma TwoOccurrences<T>(s: seq<T>, i: nat, j: nat)
    requires i < j < |s| && s[i] == s[j]
    ensures multiset(s)[s[i]] >= 2
  {
    var x := s[i];
    assert s == s[..i] + [x] + s[i + 1..j] + [x] + s[j + 1..];
  }

  /** A permutation of a sequence without repetitions has none, and has the
      same elements. */
  lemma PermutationFacts<T>(s: seq<T>, t: seq<T>)
    requires multiset(s) == multiset(t) && Distinct(t)
    ensures Distinct(s) && |s| == |t|
    ensures forall x :: x in t ==> x in s
  {
    assert |s| == |multiset(s)| == |t|;
    forall x | x in t ensures x in s {
      assert x in multiset(t);
    }
    forall i, j | 0 <= i < j < |s| ensures s[i] != s[j] {
      if s[i] == s[j] {
        TwoOccurrences(s, i, j);
        DistinctCount(t, s[i]);
      }
    }
  }
}
