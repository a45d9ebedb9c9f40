/** The register of object scitypes: each scitype class declares a
    shorthand name, a description, whether it is a mixin, and a base class.
    From the enumerated classes the module builds the register, the list of
    scitype names, the list of base classes and the name-to-base-class
    lookup, and answers base-class queries by name. */
module BaseClasses {
  import opened Outcome
  import opened Comprehensions

  /** A base class, as an opaque identifier (the name of the class that
      get_base_class imports and returns). */
  type BaseClassId = string

  /** A scitype class, by its tags after inheritance ("mixin" defaults to
      false, "parent_scitype" to None) and the base class it stands for. */
  datatype ScitypeClass = ScitypeClass(
    name: string,
    parent: Option<string>,
    shortDescr: string,
    mixin: bool,
    baseClass: BaseClassId)

  /** A register entry: (scitype shorthand, base class, description). */
  datatype RegisterEntry = RegisterEntry(name: string, baseClass: BaseClassId, shortDescr: string)

  /** A scitype list entry: (scitype shorthand, description). */
  datatype ScitypeEntry = ScitypeEntry(name: string, shortDescr: string)

  /** The scitype list, with descriptions or as names only. */
  datatype ScitypeListing = Described(entries: seq<ScitypeEntry>) | NamesOnly(names: seq<string>)

  function ClassName(c: ScitypeClass): string { c.name }
  function ClassMixin(c: ScitypeClass): bool { c.mixin }
  function ClassBase(c: ScitypeClass): BaseClassId { c.baseClass }
  function EntryName(e: RegisterEntry): string { e.name }
  function EntryBase(e: RegisterEntry): BaseClassId { e.baseClass }
  function ScitypeEntryName(e: ScitypeEntry): string { e.name }

  function ToRegisterEntry(c: ScitypeClass): RegisterEntry {
    RegisterEntry(c.name, c.baseClass, c.shortDescr)
  }

  function ToScitypeEntry(c: ScitypeClass): ScitypeEntry {
    ScitypeEntry(c.name, c.shortDescr)
  }

  /** The names "object" and "estimator", removed unless base objects are included. */
  predicate IsBaseObjName(s: string) { s == "object" || s == "estimator" }
  predicate NotBaseObjName(s: string) { !IsBaseObjName(s) }
  predicate IsDistributionName(s: string) { s == "distribution" }
  predicate NotDistributionName(s: string) { !IsDistributionName(s) }

  // ---------------------------------------------------------------------
  // Enumeration and raw register
  // ---------------------------------------------------------------------

  /** The enumerated classes whose "mixin" tag equals mixin, in enumeration order. */
  function GetBaseClasses(classes: seq<ScitypeClass>, mixin: bool): (r: seq<ScitypeClass>)
    ensures forall c :: c in r <==> c in classes && c.mixin == mixin
    ensures forall c :: multiset(r)[c] == if c.mixin == mixin then multiset(classes)[c] else 0
  {
    Filter(classes, ClassMixin, MixinIs(mixin))
  }

  /** The test that a class's mixin flag is the one asked for, as a function value. */
  function MixinIs(mixin: bool): bool -> bool {
    m => m == mixin
  }

  /** The raw register of the classes selected by mixin. */
  function RawRegister(classes: seq<ScitypeClass>, mixin: bool): seq<RegisterEntry> {
    Project(GetBaseClasses(classes, mixin), ToRegisterEntry)
  }

  /** The raw scitype list of the classes selected by mixin. */
  function RawScitypeList(classes: seq<ScitypeClass>, mixin: bool): seq<ScitypeEntry> {
    Project(GetBaseClasses(classes, mixin), ToScitypeEntry)
  }

  /** Builds the raw register by appending one entry per selected class. */
  method ConstructBaseClassRegister(classes: seq<ScitypeClass>, mixin: bool) returns (register: seq<RegisterEntry>)
    ensures var clss := GetBaseClasses(classes, mixin);
            |register| == |clss| &&
            forall i :: 0 <= i < |clss| ==>
              register[i] == RegisterEntry(clss[i].name, clss[i].baseClass, clss[i].shortDescr)
    ensures register == RawRegister(classes, mixin)
  {
    var clss := GetBaseClasses(classes, mixin);
    register := [];
    for i := 0 to |clss|
      invariant |register| == i
      invariant forall k :: 0 <= k < i ==> register[k] == ToRegisterEntry(clss[k])
    {
      var cl := clss[i];
      register := register + [RegisterEntry(cl.name, cl.baseClass, cl.shortDescr)];
    }
  }

  /** Builds the raw scitype list by appending one (name, description) pair per selected class. */
  method ConstructScitypeList(classes: seq<ScitypeClass>, mixin: bool) returns (scitypeList: seq<ScitypeEntry>)
    ensures var clss := GetBaseClasses(classes, mixin);
            |scitypeList| == |clss| &&
            forall i :: 0 <= i < |clss| ==> scitypeList[i] == ScitypeEntry(clss[i].name, clss[i].shortDescr)
    ensures scitypeList == RawScitypeList(classes, mixin)
  {
    var clss := GetBaseClasses(classes, mixin);
    scitypeList := [];
    for i := 0 to |clss|
      invariant |scitypeList| == i
      invariant forall k :: 0 <= k < i ==> scitypeList[k] == ToScitypeEntry(clss[k])
    {
      var tags := clss[i];
      scitypeList := scitypeList + [ScitypeEntry(tags.name, tags.shortDescr)];
    }
  }

  // ---------------------------------------------------------------------
  // Filtering and reordering, shared by the register and the scitype list
  // ---------------------------------------------------------------------

  /** The raw list, without "object" and "estimator" unless base objects are included. */
  function Kept<T(!new)>(raw: seq<T>, includeBaseobjs: bool, name: T -> string): (r: seq<T>)
    ensures forall x :: x in r <==> x in raw && (includeBaseobjs || !IsBaseObjName(name(x)))
  {
    if includeBaseobjs then raw else Filter(raw, name, NotBaseObjName)
  }

  /** The "distribution" entries moved to the end: the others first, then them. */
  function DistributionsLast<T(!new)>(xs: seq<T>, name: T -> string): (r: seq<T>)
    ensures forall x :: x in r <==> x in xs
  {
    Filter(xs, name, NotDistributionName) + Filter(xs, name, IsDistributionName)
  }

  /** The raw list filtered, then with the distributions moved last. */
  function Reordered<T(!new)>(raw: seq<T>, includeBaseobjs: bool, name: T -> string): (r: seq<T>)
    ensures forall x :: x in r <==> x in raw && (includeBaseobjs || !IsBaseObjName(name(x)))
  {
    DistributionsLast(Kept(raw, includeBaseobjs, name), name)
  }

  /** The register: the raw register filtered and reordered. */
  function GetBaseClassRegister(classes: seq<ScitypeClass>, mixin: bool, includeBaseobjs: bool): (r: seq<RegisterEntry>)
    ensures forall e :: e in r <==> e in RawRegister(classes, mixin) && (includeBaseobjs || !IsBaseObjName(e.name))
  {
    Reordered(RawRegister(classes, mixin), includeBaseobjs, EntryName)
  }

  /** The scitype list: the raw scitype list filtered and reordered, as
      pairs or as names only. */
  function GetObjScitypeList(classes: seq<ScitypeClass>, mixin: bool, includeBaseobjs: bool, returnDescriptions: bool)
    : (r: ScitypeListing)
    ensures r.Described? <==> returnDescriptions
  {
    var reordered := Reordered(RawScitypeList(classes, mixin), includeBaseobjs, ScitypeEntryName);
    if returnDescriptions then Described(reordered) else NamesOnly(Project(reordered, ScitypeEntryName))
  }

  /** The base classes of the register, in register order. */
  function GetBaseClassList(classes: seq<ScitypeClass>, mixin: bool, includeBaseobjs: bool): (r: seq<BaseClassId>)
    ensures var register := GetBaseClassRegister(classes, mixin, includeBaseobjs);
            |r| == |register| && forall i :: 0 <= i < |r| ==> r[i] == register[i].baseClass
  {
    Project(GetBaseClassRegister(classes, mixin, includeBaseobjs), EntryBase)
  }

  /** The register as a dictionary from scitype name to base class. */
  function GetBaseClassLookup(classes: seq<ScitypeClass>, mixin: bool, includeBaseobjs: bool): (m: map<string, BaseClassId>)
    ensures var register := GetBaseClassRegister(classes, mixin, includeBaseobjs);
            m.Keys == set i | 0 <= i < |register| :: register[i].name
  {
    var register := GetBaseClassRegister(classes, mixin, includeBaseobjs);
    assert forall i :: 0 <= i < |register| ==> EntryName(register[i]) == register[i].name;
    NameMap(register, EntryName, EntryBase)
  }

  // ---------------------------------------------------------------------
  // Base class for a scitype string, or for a list of them
  // ---------------------------------------------------------------------

  /** A scitype string, or a (possibly nested) list of them. */
  datatype Query = Scitype(name: string) | Scitypes(items: seq<Query>)

  /** A base class, or a list of answers, one per queried item. */
  datatype Answer = Single(id: BaseClassId) | Several(items: seq<Answer>)

  /** A dictionary lookup of an unknown key (KeyError). */
  datatype LookupError = KeyError(key: string)

  /** The classes searched by name: the full scitypes, then the mixins. */
  function SearchOrder(classes: seq<ScitypeClass>): seq<ScitypeClass> {
    GetBaseClasses(classes, false) + GetBaseClasses(classes, true)
  }

  /** All answers when every item succeeded, otherwise the error of the
      first item that failed. */
  function CollectAnswers(rs: seq<Result<Answer, LookupError>>): (r: Result<seq<Answer>, LookupError>)
    ensures r.Ok? <==> forall i :: 0 <= i < |rs| ==> rs[i].Ok?
    ensures r.Ok? ==> |r.value| == |rs| && forall i :: 0 <= i < |rs| ==> rs[i] == Ok(r.value[i])
    ensures r.Err? ==> exists i :: 0 <= i < |rs| && rs[i] == Err(r.error) && forall j :: 0 <= j < i ==> rs[j].Ok?
  {
    if rs == [] then Ok([])
    else
      match rs[0]
      case Err(e) => Err(e)
      case Ok(a) =>
        match CollectAnswers(rs[1..])
        case Err(e) =>
          assert exists i :: 0 <= i < |rs[1..]| && rs[1..][i] == Err(e) && forall j :: 0 <= j < i ==> rs[1..][j].Ok?;
          var i :| 0 <= i < |rs[1..]| && rs[1..][i] == Err(e) && forall j :: 0 <= j < i ==> rs[1..][j].Ok?;
          assert rs[i + 1] == Err(e) && forall j :: 0 <= j < i + 1 ==> rs[j].Ok?;
          Err(e)
        case Ok(rest) =>
          assert forall i :: 0 <= i < |rs| ==> rs[i].Ok? by {
            forall i | 0 <= i < |rs| ensures rs[i].Ok? { if i > 0 { assert rs[i] == rs[1..][i - 1]; } }
          }
          Ok([a] + rest)
  }

  /** The base class for a scitype name, looked up among the full scitypes
      and the mixins; a list is answered element by element. */
  function GetBaseClassForStr(classes: seq<ScitypeClass>, q: Query): (r: Result<Answer, LookupError>)
    ensures q.Scitype? ==> (r.Ok? ==> r.value.Single?) && (r.Err? ==> r.error == KeyError(q.name))
    ensures q.Scitypes? && r.Ok? ==> r.value.Several? && |r.value.items| == |q.items|
    decreases q
  {
    match q
    case Scitype(s) =>
      var lookup := NameMap(SearchOrder(classes), ClassName, ClassBase);
      if s in lookup then Ok(Single(lookup[s])) else Err(KeyError(s))
    case Scitypes(items) =>
      var rs := seq(|items|, i requires 0 <= i < |items| => GetBaseClassForStr(classes, items[i]));
      match CollectAnswers(rs)
      case Ok(answers) => Ok(Several(answers))
      case Err(e) => Err(e)
  }

  // ---------------------------------------------------------------------
  // Properties
  // ---------------------------------------------------------------------

  /** The mixin flag splits the enumerated classes in two, losing none and
      duplicating none. */
  lemma MixinPartition(classes: seq<ScitypeClass>)
    ensures multiset(GetBaseClasses(classes, false)) + multiset(GetBaseClasses(classes, true)) == multiset(classes)
    ensures forall c :: c in GetBaseClasses(classes, true) ==> c !in GetBaseClasses(classes, false)
  {
  }

  /** Without base objects no "object" or "estimator" entry remains; with
      them nothing is removed. */
  lemma KeptFiltersBaseObjs<T(!new)>(raw: seq<T>, includeBaseobjs: bool, name: T -> string)
    ensures var kept := Kept(raw, includeBaseobjs, name);
            (!includeBaseobjs ==> forall i :: 0 <= i < |kept| ==> !IsBaseObjName(name(kept[i]))) &&
            (includeBaseobjs ==> kept == raw) &&
            forall x :: multiset(kept)[x] == if !includeBaseobjs && IsBaseObjName(name(x)) then 0 else multiset(raw)[x]
  {
  }

  /** Moving the distributions last loses and duplicates no entry. */
  lemma DistributionsLastPermutes<T(!new)>(xs: seq<T>, name: T -> string)
    ensures multiset(DistributionsLast(xs, name)) == multiset(xs)
  {
    var rest := Filter(xs, name, NotDistributionName);
    var distr := Filter(xs, name, IsDistributionName);
    forall x ensures multiset(rest + distr)[x] == multiset(xs)[x] {
      assert multiset(rest + distr)[x] == multiset(rest)[x] + multiset(distr)[x];
    }
  }

  /** After moving the distributions last, every "distribution" entry comes
      after every other entry. */
  lemma DistributionsLastOrdered<T(!new)>(xs: seq<T>, name: T -> string)
    ensures var r := DistributionsLast(xs, name);
            forall i, j :: 0 <= i < j < |r| && IsDistributionName(name(r[i])) ==> IsDistributionName(name(r[j]))
  {
    var rest := Filter(xs, name, NotDistributionName);
    var distr := Filter(xs, name, IsDistributionName);
    var r := rest + distr;
    forall i, j | 0 <= i < j < |r| && IsDistributionName(name(r[i])) ensures IsDistributionName(name(r[j])) {
      assert r[j] == distr[j - |rest|];
    }
  }

  /** Moving the distributions last keeps the relative order inside each
      group: the other entries, and the "distribution" entries, appear in
      the result in the order they had. */
  lemma DistributionsLastStable<T(!new)>(xs: seq<T>, name: T -> string)
    ensures var r := DistributionsLast(xs, name);
            Filter(r, name, NotDistributionName) == Filter(xs, name, NotDistributionName) &&
            Filter(r, name, IsDistributionName) == Filter(xs, name, IsDistributionName)
  {
    var rest := Filter(xs, name, NotDistributionName);
    var distr := Filter(xs, name, IsDistributionName);
    FilterConcat(rest, distr, name, NotDistributionName);
    FilterConcat(rest, distr, name, IsDistributionName);
    FilterKeepsAll(rest, name, NotDistributionName);
    FilterKeepsNone(distr, name, NotDistributionName);
    FilterKeepsNone(rest, name, IsDistributionName);
    FilterKeepsAll(distr, name, IsDistributionName);
  }

  /** Every entry of the reordered list is an entry of the raw list. */
  lemma ReorderedFromRaw<T(!new)>(raw: seq<T>, includeBaseobjs: bool, name: T -> string, x: T)
    requires x in Reordered(raw, includeBaseobjs, name)
    ensures x in raw
  {
    var kept := Kept(raw, includeBaseobjs, name);
    DistributionsLastPermutes(kept, name);
    assert x in multiset(kept);
  }

  /** The register holds each raw entry as often as the raw register does,
      except that "object" and "estimator" entries are dropped when base
      objects are excluded. */
  lemma RegisterPermutesRaw(classes: seq<ScitypeClass>, mixin: bool, includeBaseobjs: bool)
    ensures forall e :: multiset(GetBaseClassRegister(classes, mixin, includeBaseobjs))[e] ==
              if !includeBaseobjs && IsBaseObjName(e.name) then 0 else multiset(RawRegister(classes, mixin))[e]
  {
    var raw := RawRegister(classes, mixin);
    KeptFiltersBaseObjs(raw, includeBaseobjs, EntryName);
    DistributionsLastPermutes(Kept(raw, includeBaseobjs, EntryName), EntryName);
  }

  /** Without base objects the register has no "object" or "estimator"
      entry, and its "distribution" entries come after all others. */
  lemma RegisterShape(classes: seq<ScitypeClass>, mixin: bool, includeBaseobjs: bool)
    ensures var register := GetBaseClassRegister(classes, mixin, includeBaseobjs);
            (!includeBaseobjs ==> forall i :: 0 <= i < |register| ==> !IsBaseObjName(register[i].name)) &&
            (forall i, j :: 0 <= i < j < |register| && register[i].name == "distribution" ==>
               register[j].name == "distribution")
  {
    var raw := RawRegister(classes, mixin);
    var kept := Kept(raw, includeBaseobjs, EntryName);
    DistributionsLastOrdered(kept, EntryName);
    var register := GetBaseClassRegister(classes, mixin, includeBaseobjs);
    if !includeBaseobjs {
      KeptFiltersBaseObjs(raw, includeBaseobjs, EntryName);
      DistributionsLastPermutes(kept, EntryName);
      forall i | 0 <= i < |register| ensures !IsBaseObjName(register[i].name) {
        assert register[i] in multiset(kept);
      }
    }
  }

  /** Each raw register entry is the entry of an enumerated class with the
      mixin flag asked for. */
  lemma RawEntryFromClass(classes: seq<ScitypeClass>, mixin: bool, e: RegisterEntry)
    requires e in RawRegister(classes, mixin)
    ensures exists c :: c in classes && c.mixin == mixin && e == ToRegisterEntry(c)
  {
    var clss := GetBaseClasses(classes, mixin);
    var raw := Project(clss, ToRegisterEntry);
    var k :| 0 <= k < |raw| && raw[k] == e;
    assert clss[k] in clss;
  }

  /** Each register entry is the entry of an enumerated class whose mixin
      flag is the one asked for. */
  lemma RegisterEntriesFromClasses(classes: seq<ScitypeClass>, mixin: bool, includeBaseobjs: bool, e: RegisterEntry)
    requires e in GetBaseClassRegister(classes, mixin, includeBaseobjs)
    ensures exists c :: c in classes && c.mixin == mixin && e == ToRegisterEntry(c)
  {
    ReorderedFromRaw(RawRegister(classes, mixin), includeBaseobjs, EntryName, e);
    RawEntryFromClass(classes, mixin, e);
  }

  /** The scitype names listed without descriptions are the register's
      names, in the register's order. */
  lemma ScitypeNamesMatchRegister(classes: seq<ScitypeClass>, mixin: bool, includeBaseobjs: bool)
    ensures GetObjScitypeList(classes, mixin, includeBaseobjs, false).names ==
            Project(GetBaseClassRegister(classes, mixin, includeBaseobjs), EntryName)
  {
    var rawR := RawRegister(classes, mixin);
    var rawS := RawScitypeList(classes, mixin);
    assert Project(rawR, EntryName) == Project(rawS, ScitypeEntryName);
    var keptR := Kept(rawR, includeBaseobjs, EntryName);
    var keptS := Kept(rawS, includeBaseobjs, ScitypeEntryName);
    if !includeBaseobjs {
      FilterProjectAgree(rawR, rawS, EntryName, ScitypeEntryName, NotBaseObjName);
    }
    FilterProjectAgree(keptR, keptS, EntryName, ScitypeEntryName, NotDistributionName);
    FilterProjectAgree(keptR, keptS, EntryName, ScitypeEntryName, IsDistributionName);
    ProjectConcat(Filter(keptR, EntryName, NotDistributionName), Filter(keptR, EntryName, IsDistributionName), EntryName);
    ProjectConcat(Filter(keptS, ScitypeEntryName, NotDistributionName), Filter(keptS, ScitypeEntryName, IsDistributionName), ScitypeEntryName);
  }

  /** The described scitype list holds the names of the names-only list,
      in the same order. */
  lemma ScitypeDescribedMatchesNames(classes: seq<ScitypeClass>, mixin: bool, includeBaseobjs: bool)
    ensures Project(GetObjScitypeList(classes, mixin, includeBaseobjs, true).entries, ScitypeEntryName) ==
            GetObjScitypeList(classes, mixin, includeBaseobjs, false).names
  {
  }

  /** Without base objects the described scitype list has no "object" or
      "estimator" entry, and its "distribution" entries come after all others. */
  lemma ScitypeListShape(classes: seq<ScitypeClass>, mixin: bool, includeBaseobjs: bool)
    ensures var entries := GetObjScitypeList(classes, mixin, includeBaseobjs, true).entries;
            (!includeBaseobjs ==> forall i :: 0 <= i < |entries| ==> !IsBaseObjName(entries[i].name)) &&
            (forall i, j :: 0 <= i < j < |entries| && entries[i].name == "distribution" ==>
               entries[j].name == "distribution")
  {
    var kept := Kept(RawScitypeList(classes, mixin), includeBaseobjs, ScitypeEntryName);
    DistributionsLastOrdered(kept, ScitypeEntryName);
    var entries := GetObjScitypeList(classes, mixin, includeBaseobjs, true).entries;
    if !includeBaseobjs {
      forall i | 0 <= i < |entries| ensures !IsBaseObjName(entries[i].name) {
        assert entries[i] in entries;
      }
    }
  }

  /** The described scitype list holds each raw pair as often as the raw
      list does, except the dropped "object" and "estimator" pairs. */
  lemma ScitypeListPermutesRaw(classes: seq<ScitypeClass>, mixin: bool, includeBaseobjs: bool)
    ensures forall e :: multiset(GetObjScitypeList(classes, mixin, includeBaseobjs, true).entries)[e] ==
              if !includeBaseobjs && IsBaseObjName(e.name) then 0 else multiset(RawScitypeList(classes, mixin))[e]
  {
    var raw := RawScitypeList(classes, mixin);
    KeptFiltersBaseObjs(raw, includeBaseobjs, ScitypeEntryName);
    DistributionsLastPermutes(Kept(raw, includeBaseobjs, ScitypeEntryName), ScitypeEntryName);
  }

  /** The lookup maps each register name to the base class of the last
      register entry with that name; when names are unique, to the entry's
      own base class, so the lookup agrees with the base class list. */
  lemma LookupAgreesWithList(classes: seq<ScitypeClass>, mixin: bool, includeBaseobjs: bool, i: int)
    requires 0 <= i < |GetBaseClassRegister(classes, mixin, includeBaseobjs)|
    requires var register := GetBaseClassRegister(classes, mixin, includeBaseobjs);
             forall j :: i < j < |register| ==> register[j].name != register[i].name
    ensures var register := GetBaseClassRegister(classes, mixin, includeBaseobjs);
            var lookup := GetBaseClassLookup(classes, mixin, includeBaseobjs);
            register[i].name in lookup &&
            lookup[register[i].name] == GetBaseClassList(classes, mixin, includeBaseobjs)[i]
  {
    var register := GetBaseClassRegister(classes, mixin, includeBaseobjs);
    NameMapLastWins(register, EntryName, EntryBase, i);
  }

  /** Every key of the lookup is mapped to the base class of a register
      entry with that name. */
  lemma LookupValueFromRegister(classes: seq<ScitypeClass>, mixin: bool, includeBaseobjs: bool, k: string)
    returns (i: int)
    requires k in GetBaseClassLookup(classes, mixin, includeBaseobjs)
    ensures var register := GetBaseClassRegister(classes, mixin, includeBaseobjs);
            0 <= i < |register| && register[i].name == k &&
            GetBaseClassLookup(classes, mixin, includeBaseobjs)[k] == register[i].baseClass
  {
    var register := GetBaseClassRegister(classes, mixin, includeBaseobjs);
    i := NameMapValueFrom(register, EntryName, EntryBase, k);
  }

  /** Every class is found by name, whichever partition it is in: a looked-up
      name gives the base class of some class with that name, and an unknown
      name gives a KeyError naming it. */
  lemma ForStrSearchesBothPartitions(classes: seq<ScitypeClass>, s: string)
    ensures var r := GetBaseClassForStr(classes, Scitype(s));
            (r.Ok? <==> exists c :: c in classes && c.name == s) &&
            (r.Ok? ==> exists c :: c in classes && c.name == s && r.value == Single(c.baseClass)) &&
            (r.Err? ==> r.error == KeyError(s))
  {
    var order := SearchOrder(classes);
    MixinPartition(classes);
    assert forall c :: c in order <==> c in classes by {
      forall c ensures c in order <==> c in classes {
        assert multiset(order)[c] == multiset(classes)[c];
      }
    }
    var lookup := NameMap(order, ClassName, ClassBase);
    if s in lookup {
      var i := NameMapValueFrom(order, ClassName, ClassBase, s);
      assert order[i] in classes;
    }
  }

  /** A class whose name no other class shares is answered with its own base class. */
  lemma ForStrUniqueName(classes: seq<ScitypeClass>, c: ScitypeClass)
    requires c in classes
    requires forall d :: d in classes && d.name == c.name ==> d == c
    ensures GetBaseClassForStr(classes, Scitype(c.name)) == Ok(Single(c.baseClass))
  {
    ForStrSearchesBothPartitions(classes, c.name);
  }

  /** A list query is answered element by element, preserving length and
      order, and fails with the error of its first failing element. */
  lemma ForStrMapsOverLists(classes: seq<ScitypeClass>, items: seq<Query>)
    ensures var r := GetBaseClassForStr(classes, Scitypes(items));
            (r.Ok? <==> forall i :: 0 <= i < |items| ==> GetBaseClassForStr(classes, items[i]).Ok?) &&
            (r.Ok? ==> r.value.Several? && |r.value.items| == |items| &&
                       forall i :: 0 <= i < |items| ==> GetBaseClassForStr(classes, items[i]) == Ok(r.value.items[i])) &&
            (r.Err? ==> exists i :: 0 <= i < |items| && GetBaseClassForStr(classes, items[i]) == Err(r.error) &&
                                   forall j :: 0 <= j < i ==> GetBaseClassForStr(classes, items[j]).Ok?)
  {
    var rs := seq(|items|, i requires 0 <= i < |items| => GetBaseClassForStr(classes, items[i]));
    assert forall i :: 0 <= i < |items| ==> rs[i] == GetBaseClassForStr(classes, items[i]);
    var c := CollectAnswers(rs);
  }

  // ---------------------------------------------------------------------
  // The declared scitype classes
  // ---------------------------------------------------------------------

  /** The tags a scitype class declares itself (all but "mixin") and its base class. */
  datatype ScitypeDecl = ScitypeDecl(name: string, parent: Option<string>, shortDescr: string, baseClass: BaseClassId)

  /** A declared class with its "mixin" tag: declared true by the four
      legacy transformer scitypes, inherited as false by all others. */
  function WithMixin(mixin: bool): ScitypeDecl -> ScitypeClass {
    (d: ScitypeDecl) => ScitypeClass(d.name, d.parent, d.shortDescr, mixin, d.baseClass)
  }

  /** The full scitypes, in the order of enumeration (sorted by Python class name). */
  const FullScitypeDecls: seq<ScitypeDecl> := [
    ScitypeDecl("aligner", Some("estimator"), "time series aligner or sequence aligner", "BaseAligner"),
    ScitypeDecl("classifier", Some("estimator"), "time series classifier", "BaseClassifier"),
    ScitypeDecl("clusterer", Some("estimator"), "time series clusterer", "BaseClusterer"),
    ScitypeDecl("detector", Some("estimator"), "detector - anomalies, outliers, change points", "BaseDetector"),
    ScitypeDecl("distribution", Some("object"), "pandas-like probability distribution", "BaseDistribution"),
    ScitypeDecl("early_classifier", Some("estimator"), "early time series classifier", "BaseEarlyClassifier"),
    ScitypeDecl("estimator", Some("object"), "estimator = object with fit", "BaseEstimator"),
    ScitypeDecl("forecaster", Some("estimator"), "time series forecaster", "BaseForecaster"),
    ScitypeDecl("global_forecaster", Some("forecaster"), "global time series forecaster", "_BaseGlobalForecaster"),
    ScitypeDecl("metric", Some("object"), "performance metric", "BaseMetric"),
    ScitypeDecl("metric_forecasting", Some("metric"), "performance metric for forecasting", "BaseForecastingErrorMetric"),
    ScitypeDecl("metric_forecasting_point", Some("metric_forecasting"), "performance metric for forecasting, point forecasts", "BaseForecastingErrorMetric"),
    ScitypeDecl("network", Some("object"), "deep learning network", "BaseDeepNetwork"),
    ScitypeDecl("object", None, "base scitype for all objects", "BaseObject"),
    ScitypeDecl("param_est", Some("estimator"), "parameter fitting estimator", "BaseParamFitter"),
    ScitypeDecl("regressor", Some("estimator"), "time series regressor", "BaseRegressor"),
    ScitypeDecl("series-annotator", Some("estimator"), "detector - anomalies, outliers, change points", "BaseDetector"),
    ScitypeDecl("splitter", Some("object"), "time series splitter", "BaseSplitter"),
    ScitypeDecl("transformer", Some("estimator"), "time series transformer", "BaseTransformer"),
    ScitypeDecl("transformer-pairwise", Some("transformer"), "pairwise transformer for tabular data, distance or kernel", "BasePairwiseTransformer"),
    ScitypeDecl("transformer-pairwise-panel", Some("transformer"), "pairwise transformer for panel data, distance or kernel", "BasePairwiseTransformerPanel")
  ]

  /** The legacy transformer scitypes, which declare "mixin" true; by class
      name they sort after all full scitypes. */
  const LegacyMixinDecls: seq<ScitypeDecl> := [
    ScitypeDecl("panel-to-panel-trafo", Some("transformer"), "panel to panel transformer", "_PanelToPanelTransformer"),
    ScitypeDecl("panel-to-tabular-trafo", Some("transformer"), "panel to tabular transformer", "_PanelToTabularTransformer"),
    ScitypeDecl("series-to-primitives-trafo", Some("transformer"), "time series to primitives transformer", "_SeriesToPrimitivesTransformer"),
    ScitypeDecl("series-to-series-trafo", Some("transformer"), "time series to time series transformer", "_SeriesToSeriesTransformer")
  ]

  /** The scitype classes the register module declares, in the order of enumeration. */
  const DeclaredScitypes: seq<ScitypeClass> :=
    Project(FullScitypeDecls, WithMixin(false)) + Project(LegacyMixinDecls, WithMixin(true))

  /** Classes that all carry the same "mixin" flag are all selected for
      that flag and none for the other. */
  lemma UniformMixinSelection(decls: seq<ScitypeDecl>, mixin: bool)
    ensures GetBaseClasses(Project(decls, WithMixin(mixin)), mixin) == Project(decls, WithMixin(mixin))
    ensures GetBaseClasses(Project(decls, WithMixin(mixin)), !mixin) == []
  {
    FilterKeepsAll(Project(decls, WithMixin(mixin)), ClassMixin, MixinIs(mixin));
    FilterKeepsNone(Project(decls, WithMixin(mixin)), ClassMixin, MixinIs(!mixin));
  }

  /** Selecting the mixins gives the legacy transformer scitypes. */
  lemma DeclaredMixinClasses()
    ensures GetBaseClasses(DeclaredScitypes, true) == Project(LegacyMixinDecls, WithMixin(true))
  {
    var full, legacy := Project(FullScitypeDecls, WithMixin(false)), Project(LegacyMixinDecls, WithMixin(true));
    UniformMixinSelection(FullScitypeDecls, false);
    UniformMixinSelection(LegacyMixinDecls, true);
    FilterConcat(full, legacy, ClassMixin, MixinIs(true));
  }

  /** Selecting the full scitypes gives all the others, legacy ones excluded. */
  lemma DeclaredFullClasses()
    ensures GetBaseClasses(DeclaredScitypes, false) == Project(FullScitypeDecls, WithMixin(false))
  {
    var full, legacy := Project(FullScitypeDecls, WithMixin(false)), Project(LegacyMixinDecls, WithMixin(true));
    UniformMixinSelection(FullScitypeDecls, false);
    UniformMixinSelection(LegacyMixinDecls, true);
    FilterConcat(full, legacy, ClassMixin, MixinIs(false));
  }

  /** The names of the legacy transformer scitypes, in enumeration order. */
  lemma LegacyNames()
    ensures Project(Project(LegacyMixinDecls, WithMixin(true)), ClassName) ==
            ["panel-to-panel-trafo", "panel-to-tabular-trafo", "series-to-primitives-trafo", "series-to-series-trafo"]
  {
  }

  /** The mixin scitypes are exactly the four legacy transformer scitypes. */
  lemma DeclaredMixins()
    ensures Project(GetBaseClasses(DeclaredScitypes, true), ClassName) ==
            ["panel-to-panel-trafo", "panel-to-tabular-trafo", "series-to-primitives-trafo", "series-to-series-trafo"]
  {
    DeclaredMixinClasses();
    LegacyNames();
  }

  /** When the mixins are the given declarations, the last of them is found
      by name with its own base class: the lookup searches the mixins after
      the full scitypes, and a later class wins. */
  lemma ForStrLastMixinWins(classes: seq<ScitypeClass>, decls: seq<ScitypeDecl>)
    requires decls != [] && GetBaseClasses(classes, true) == Project(decls, WithMixin(true))
    ensures var d := decls[|decls| - 1];
            GetBaseClassForStr(classes, Scitype(d.name)) == Ok(Single(d.baseClass))
  {
    var order := SearchOrder(classes);
    var mixins := Project(decls, WithMixin(true));
    assert order[|order| - 1] == mixins[|mixins| - 1];
    NameMapLastWins(order, ClassName, ClassBase, |order| - 1);
  }

  /** The legacy series-to-series transformer scitype is found by name
      among the declared classes. */
  lemma LegacyScitypeResolves()
    ensures GetBaseClassForStr(DeclaredScitypes, Scitype("series-to-series-trafo")) ==
            Ok(Single("_SeriesToSeriesTransformer"))
  {
    DeclaredMixinClasses();
    ForStrLastMixinWins(DeclaredScitypes, LegacyMixinDecls);
  }
}
