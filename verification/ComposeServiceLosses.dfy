/** What a service loses in silence, seen from the whole import. */
module ComposeServiceLosses {
  import opened Sequences
  import opened Json
  import opened ImportIssues
  import opened ComposeText
  import opened ComposeMounts
  import opened ComposeService
  import opened DependencyOrder
  import opened ComposeImport
  import opened ComposeLaws
  import opened ComposeLosses
  import opened ComposeValueLosses

  // The sort looks at dependencies between services of the file only

  predicate SameEdges(names: seq<string>, a: Graph, b: Graph) {
    forall x | x in names :: Restricted(names, Deps(a, x)) == Restricted(names, Deps(b, x))
  }

  lemma {:induction false} OthersAreSkipped(names: seq<string>, graph: Graph, deps: seq<string>, trail: seq<string>,
    s: Found)
    ensures ExploreAll(names, graph, deps, trail, s) == ExploreAll(names, graph, Restricted(names, deps), trail, s)
    decreases |deps|
  {
    hide Explore;
    if deps != [] {
      var t := if deps[0] in names then Explore(names, graph, deps[0], trail, s) else s;
      OthersAreSkipped(names, graph, deps[1..], trail, t);
      if deps[0] in names { assert Restricted(names, deps)[1..] == Restricted(names, deps[1..]); }
      else { assert Restricted(names, deps) == Restricted(names, deps[1..]); }
    }
  }

  lemma {:induction false} SameExplore(names: seq<string>, a: Graph, b: Graph, name: string, trail: seq<string>,
    s: Found)
    requires SameEdges(names, a, b) && name in names
    ensures Explore(names, a, name, trail, s) == Explore(names, b, name, trail, s)
    decreases set x | x in names && x !in trail, 0, 0
  {
    hide ExploreAll, Restricted;
    if name !in s.ordered && name !in trail {
      Narrows(names, trail, name);
      OthersAreSkipped(names, a, Deps(a, name), trail + [name], s);
      OthersAreSkipped(names, b, Deps(b, name), trail + [name], s);
      SameExploreAll(names, a, b, Restricted(names, Deps(a, name)), trail + [name], s);
    }
  }

  lemma {:induction false} SameExploreAll(names: seq<string>, a: Graph, b: Graph, deps: seq<string>,
    trail: seq<string>, s: Found)
    requires SameEdges(names, a, b)
    ensures ExploreAll(names, a, deps, trail, s) == ExploreAll(names, b, deps, trail, s)
    decreases set x | x in names && x !in trail, 1, |deps|
  {
    hide Explore, SameEdges;
    if deps != [] {
      if deps[0] in names { SameExplore(names, a, b, deps[0], trail, s); }
      var t := if deps[0] in names then Explore(names, a, deps[0], trail, s) else s;
      SameExploreAll(names, a, b, deps[1..], trail, t);
    }
  }

  /** Dependencies that name no service of the file change neither the order nor the cycle that is reported. */
  lemma OnlyEdgesCount(names: seq<string>, a: Graph, b: Graph)
    requires SameEdges(names, a, b)
    ensures Order(names, a) == Order(names, b) && CycleIssues(names, a) == CycleIssues(names, b)
  {
    SameExploreAll(names, a, b, names, [], Found([], None));
  }

  // Two files that differ in one service

  ghost predicate DifferIn(f: File, g: File, name: string) {
    f.rt == g.rt && f.names == g.names && forall x | x != name :: Raw(f, x) == Raw(g, x)
  }

  lemma OthersAreMappedAlike(f: File, g: File, name: string, x: string)
    requires DifferIn(f, g, name) && x != name
    ensures Importable(f, x) == Importable(g, x) && ServiceIssues(f, x) == ServiceIssues(g, x)
    ensures DependenciesOf(f, x) == DependenciesOf(g, x)
    ensures forall n: nat :: ServiceOf(f, x, n) == ServiceOf(g, x, n)
  {
    hide Get, Text, KeyIssues, Settings, SplitImageRef, ReadDependsOn;
  }

  /** The settings of a service hold all that the sort sees of it. */
  lemma SameSettingsSameOrder(f: File, g: File, name: string)
    requires DifferIn(f, g, name) && Importable(f, name) && Importable(g, name)
    requires ServiceOf(f, name, 0).settings == ServiceOf(g, name, 0).settings
    ensures OrderOf(f) == OrderOf(g) && CycleOf(f) == CycleOf(g)
  {
    hide ServiceOf, Importable, DependsOn, DependenciesOf, Restricted, Order, CycleIssues;
    DraftedDependencies(f, name, 0);
    DraftedDependencies(g, name, 0);
    DependsOnSettings(ServiceOf(f, name, 0), ServiceOf(g, name, 0));
    forall x | x in f.names
      ensures Restricted(f.names, Deps(GraphOf(f), x)) == Restricted(f.names, Deps(GraphOf(g), x))
    {
      if x != name { OthersAreMappedAlike(f, g, name, x); }
    }
    OnlyEdgesCount(f.names, GraphOf(f), GraphOf(g));
  }

  lemma DependsOnSettings(a: Service, b: Service)
    requires a.settings == b.settings
    ensures DependsOn(a) == DependsOn(b)
  {
  }

  lemma {:induction false} SameServices(f: File, g: File, name: string, order: seq<string>)
    requires DifferIn(f, g, name) && Importable(f, name) == Importable(g, name)
    requires Importable(f, name) ==> forall n: nat :: ServiceOf(f, name, n) == ServiceOf(g, name, n)
    ensures Services(f, order) == Services(g, order)
  {
    hide Importable, ServiceOf, DifferIn;
    if order != [] {
      var last := order[|order| - 1];
      SameServices(f, g, name, order[..|order| - 1]);
      if last != name { OthersAreMappedAlike(f, g, name, last); }
    }
  }

  /** The issues of all entries of a list, in order. */
  function Gathered(names: seq<string>, said: string -> seq<Issue>): seq<Issue> {
    if names == [] then [] else Gathered(names[..|names| - 1], said) + said(names[|names| - 1])
  }

  lemma PartsDecide<T>(a: seq<T>, x: seq<T>, b: seq<T>, y: seq<T>)
    requires |a| == |b|
    ensures a + x == b + y <==> a == b && x == y
  {
    assert (a + x)[..|a|] == a && (a + x)[|a|..] == x;
    assert (b + y)[..|b|] == b && (b + y)[|b|..] == y;
  }

  lemma {:induction false} LongerIssues(names: seq<string>, p: string -> seq<Issue>, q: string -> seq<Issue>,
    name: string)
    requires forall x | x != name :: p(x) == q(x)
    requires |p(name)| >= |q(name)|
    ensures |Gathered(names, p)| >= |Gathered(names, q)|
    ensures name in names && |p(name)| > |q(name)| ==> |Gathered(names, p)| > |Gathered(names, q)|
    ensures |p(name)| == |q(name)| ==> |Gathered(names, p)| == |Gathered(names, q)|
    ensures |p(name)| == |q(name)| ==>
      (Gathered(names, p) == Gathered(names, q) <==> (name in names ==> p(name) == q(name)))
  {
    if names != [] {
      var front, last := names[..|names| - 1], names[|names| - 1];
      LongerIssues(front, p, q, name);
      assert names == front + [last];
      if |p(name)| == |q(name)| { PartsDecide(Gathered(front, p), p(last), Gathered(front, q), q(last)); }
    }
  }

  /** What is said about one entry never makes up for what is said about another. */
  lemma GatheredDecides(names: seq<string>, p: string -> seq<Issue>, q: string -> seq<Issue>, name: string)
    requires forall x | x != name :: p(x) == q(x)
    ensures Gathered(names, p) == Gathered(names, q) <==> (name in names ==> p(name) == q(name))
  {
    if |p(name)| >= |q(name)| { LongerIssues(names, p, q, name); }
    else { LongerIssues(names, q, p, name); }
    if name !in names { NotGathered(names, p, q, name); }
  }

  lemma {:induction false} NotGathered(names: seq<string>, p: string -> seq<Issue>, q: string -> seq<Issue>,
    name: string)
    requires name !in names && forall x | x != name :: p(x) == q(x)
    ensures Gathered(names, p) == Gathered(names, q)
  {
    if names != [] { NotGathered(names[..|names| - 1], p, q, name); }
  }

  lemma {:induction false} AllAreGathered(f: File, order: seq<string>)
    ensures AllServiceIssues(f, order) == Gathered(order, x => ServiceIssues(f, x))
  {
    hide ServiceIssues;
    if order != [] { AllAreGathered(f, order[..|order| - 1]); }
  }

  lemma {:induction false} KeysAreGathered(c: Context, raw: seq<Field>, keys: seq<string>)
    ensures KeyIssues(c, raw, keys) == Gathered(keys, k => PieceAt(c, raw, k).issues)
  {
    hide PieceAt;
    if keys != [] { KeysAreGathered(c, raw, keys[..|keys| - 1]); }
  }

  lemma IssuesDecide(f: File, g: File, name: string, order: seq<string>)
    requires DifferIn(f, g, name) && name in order
    ensures AllServiceIssues(f, order) == AllServiceIssues(g, order) <==>
      ServiceIssues(f, name) == ServiceIssues(g, name)
  {
    hide ServiceIssues, DifferIn;
    var p, q := x => ServiceIssues(f, x), x => ServiceIssues(g, x);
    forall x | x != name ensures p(x) == q(x) { OthersAreMappedAlike(f, g, name, x); }
    GatheredDecides(order, p, q, name);
    AllAreGathered(f, order);
    AllAreGathered(g, order);
  }

  // The import of the two files

  /** What a draft holds under the name of a service is what that service alone is mapped to. */
  lemma SameDraftsSameService(f: File, g: File, name: string)
    requires f.names == g.names && name in f.names && Importable(f, name) && Drafts(f) == Drafts(g)
    ensures Importable(g, name) && exists n: nat :: ServiceOf(f, name, n) == ServiceOf(g, name, n)
  {
    hide Importable, ServiceOf, Services, OrderOf;
    OrderHolds(f);
    OrderHolds(g);
    DraftedIffKept(f, OrderOf(f), name);
    DraftedIffKept(g, OrderOf(g), name);
    var i :| 0 <= i < |Drafts(f)| && Drafts(f)[i].name == name;
    ServiceIsAt(f, OrderOf(f), i);
    ServiceIsAt(g, OrderOf(g), i);
    var n := Drafts(f)[i].order;
    NameOf(f, OrderOf(f)[n], n);
    NameOf(g, OrderOf(g)[n], n);
    assert ServiceOf(f, name, n) == ServiceOf(g, name, n);
  }

  lemma SameForEveryPlace(f: File, g: File, name: string, n: nat)
    requires ServiceOf(f, name, n) == ServiceOf(g, name, n)
    ensures forall m: nat :: ServiceOf(f, name, m) == ServiceOf(g, name, m)
  {
    hide Settings, Reference, SplitImageRef, Raw;
  }

  /** Two documents that may differ in their services only. */
  ghost predicate SameButServices(a: seq<Field>, b: seq<Field>) {
    forall k | k in {"version", "networks", "volumes"} :: Get(a, k) == Get(b, k)
  }

  lemma SameFileIssues(rt: Runtime, a: seq<Field>, b: seq<Field>)
    requires SameButServices(a, b)
    requires CycleOf(FileOf(rt, Obj(a))) == CycleOf(FileOf(rt, Obj(b)))
    requires OrderOf(FileOf(rt, Obj(a))) == OrderOf(FileOf(rt, Obj(b)))
    ensures FileIssues(rt, Obj(a)) == FileIssues(rt, Obj(b)) <==>
      AllServiceIssues(FileOf(rt, Obj(a)), OrderOf(FileOf(rt, Obj(a))))
        == AllServiceIssues(FileOf(rt, Obj(b)), OrderOf(FileOf(rt, Obj(b))))
  {
    assert Get(a, "version") == Get(b, "version");
    SameParts(rt, a, b, "version");
    hide Get, FileOf, CycleOf, OrderOf, AllServiceIssues, VersionIssues;
    var f, g := FileOf(rt, Obj(a)), FileOf(rt, Obj(b));
    PartsDecide(VersionIssues(Obj(a)) + CycleOf(f), AllServiceIssues(f, OrderOf(f)),
      VersionIssues(Obj(b)) + CycleOf(g), AllServiceIssues(g, OrderOf(g)));
  }

  lemma SameDraftOf(rt: Runtime, a: seq<Field>, b: seq<Field>, services: seq<Service>)
    requires SameButServices(a, b)
    ensures DraftOf(rt, Obj(a), services) == DraftOf(rt, Obj(b), services)
    ensures DraftIssues(rt, Obj(a), services) == DraftIssues(rt, Obj(b), services)
  {
    hide Get, DraftOf, DraftIssues;
    assert Get(a, "networks") == Get(b, "networks") && Get(a, "volumes") == Get(b, "volumes");
    SameDraft(rt, a, b, services);
  }

  lemma ImportOfKept(rt: Runtime, a: seq<Field>, name: string)
    requires name in FileOf(rt, Obj(a)).names && Importable(FileOf(rt, Obj(a)), name)
    ensures var services := Drafts(FileOf(rt, Obj(a)));
      Import(rt, Obj(a)) == Result(true, Some(DraftOf(rt, Obj(a), services)),
        FileIssues(rt, Obj(a)) + DraftIssues(rt, Obj(a), services))
  {
    ImportSucceedsIff(rt, Obj(a));
    hide Importable, FileIssues, DraftIssues, DraftOf, FieldsOf, FileOf, Services, OrderOf;
    assert SomeImportable(FileOf(rt, Obj(a)));
  }

  /** If one service differs, the whole import does exactly if that service or its issues do. */
  lemma OneServiceDecides(rt: Runtime, a: seq<Field>, b: seq<Field>, name: string)
    requires SameButServices(a, b)
    requires var f, g := FileOf(rt, Obj(a)), FileOf(rt, Obj(b));
      DifferIn(f, g, name) && name in f.names && Importable(f, name)
    ensures var f, g := FileOf(rt, Obj(a)), FileOf(rt, Obj(b));
      Import(rt, Obj(a)) == Import(rt, Obj(b)) <==>
      Importable(g, name) && ServiceOf(f, name, 0) == ServiceOf(g, name, 0)
      && ServiceIssues(f, name) == ServiceIssues(g, name)
  {
    hide Get, FileOf, Importable, ServiceOf, ServiceIssues, DraftIssues, FileIssues, Import, OrderOf, Services,
         AllServiceIssues, CycleOf, SameButServices;
    var f, g := FileOf(rt, Obj(a)), FileOf(rt, Obj(b));
    ImportOfKept(rt, a, name);
    if Import(rt, Obj(a)) == Import(rt, Obj(b)) { ImportedAlike(rt, a, b, name); }
    if Importable(g, name) && ServiceOf(f, name, 0) == ServiceOf(g, name, 0) {
      SameForEveryPlace(f, g, name, 0);
      SettingsOfSame(f, g, name);
      SameSettingsSameOrder(f, g, name);
      OrderHolds(f);
      IssuesDecide(f, g, name, OrderOf(f));
      SameServices(f, g, name, OrderOf(f));
      SameFileIssues(rt, a, b);
      SameDraftOf(rt, a, b, Drafts(f));
      ImportOfKept(rt, b, name);
      PartsBehind(FileIssues(rt, Obj(a)), FileIssues(rt, Obj(b)), DraftIssues(rt, Obj(a), Drafts(f)));
    }
  }

  lemma PartsBehind<T>(a: seq<T>, b: seq<T>, x: seq<T>)
    ensures a + x == b + x <==> a == b
  {
    if |a| == |b| { PartsDecide(a, x, b, x); }
    else { assert |a + x| != |b + x|; }
  }

  lemma SettingsOfSame(f: File, g: File, name: string)
    requires ServiceOf(f, name, 0) == ServiceOf(g, name, 0)
    ensures ServiceOf(f, name, 0).settings == ServiceOf(g, name, 0).settings
  {
  }

  lemma ImportedAlike(rt: Runtime, a: seq<Field>, b: seq<Field>, name: string)
    requires var f, g := FileOf(rt, Obj(a)), FileOf(rt, Obj(b));
      DifferIn(f, g, name) && name in f.names && Importable(f, name)
    requires Import(rt, Obj(a)) == Import(rt, Obj(b))
    ensures var f, g := FileOf(rt, Obj(a)), FileOf(rt, Obj(b));
      Importable(g, name) && ServiceOf(f, name, 0) == ServiceOf(g, name, 0)
  {
    var f, g := FileOf(rt, Obj(a)), FileOf(rt, Obj(b));
    ImportOfKept(rt, a, name);
    DraftServices(rt, Obj(b));
    hide FileOf, Importable, ServiceOf, Import, OrderOf, Services, DraftIssues, FileIssues;
    SameDraftsSameService(f, g, name);
    var n: nat :| ServiceOf(f, name, n) == ServiceOf(g, name, n);
    SameForEveryPlace(f, g, name, n);
  }

  lemma DraftServices(rt: Runtime, doc: Json)
    ensures Import(rt, doc).ok ==>
      Import(rt, doc).draft.Some? && Import(rt, doc).draft.value.services == Drafts(FileOf(rt, doc))
  {
    hide Get, Services, OrderOf, FileOf, FileIssues, DraftIssues, FieldsOf;
  }

  // One key less

  lemma {:induction false} KeysOfPut(fields: seq<Field>, name: string, v: Json)
    requires name in Keys(fields)
    ensures Keys(Put(fields, name, v)) == Keys(fields)
  {
    if fields[0].key != name {
      KeysOfPut(fields[1..], name, v);
      assert Put(fields, name, v)[1..] == Put(fields[1..], name, v);
    } else {
      assert Put(fields, name, v)[1..] == fields[1..];
    }
  }

  /** The same document with other fields for one of its services. */
  function WithService(fields: seq<Field>, name: string, service: seq<Field>): seq<Field> {
    Put(fields, "services", Obj(Put(FieldsOf(Get(fields, "services")), name, Obj(service))))
  }

  lemma FileWithService(rt: Runtime, fields: seq<Field>, name: string, service: seq<Field>)
    requires name in FileOf(rt, Obj(fields)).names
    ensures var f, g := FileOf(rt, Obj(fields)), FileOf(rt, Obj(WithService(fields, name, service)));
      g == WithFields(f, name, service) && DifferIn(f, g, name)
    ensures SameButServices(fields, WithService(fields, name, service))
  {
    hide Get, Put, Keys;
    var raw := FieldsOf(Get(fields, "services"));
    KeysOfPut(raw, name, Obj(service));
    forall k ensures k != "services" ==> Get(WithService(fields, name, service), k) == Get(fields, k)
             ensures Get(WithService(fields, name, service), "services") == Obj(Put(raw, name, Obj(service)))
    {
      GetPut(fields, "services", Obj(Put(raw, name, Obj(service))), k);
      GetPut(fields, "services", Obj(Put(raw, name, Obj(service))), "services");
    }
    forall x ensures x != name ==> Get(Put(raw, name, Obj(service)), x) == Get(raw, x) {
      GetPut(raw, name, Obj(service), x);
    }
  }

  /** A key that is deleted from a service of a document leaves no trace in the import exactly if it is inert. */
  lemma ServiceKeyIsLostIff(rt: Runtime, fields: seq<Field>, name: string, key: string)
    requires var f := FileOf(rt, Obj(fields));
      name in f.names && Importable(f, name) && !Nullish(Get(Raw(f, name).fields, key))
    ensures var f := FileOf(rt, Obj(fields));
      Import(rt, Obj(fields)) == Import(rt, Obj(WithService(fields, name, Without(Raw(f, name).fields, key))))
      <==> key != "image" && Inert(At(f, name).(path := ["services", name, key]), KindOf(key),
        Get(Raw(f, name).fields, key))
  {
    hide Get, Without, Import, Inert, KindOf, WithService, ServiceOf, ServiceIssues, SameButServices, FileOf;
    var f := FileOf(rt, Obj(fields));
    var rest := Without(Raw(f, name).fields, key);
    FileWithService(rt, fields, name, rest);
    KeyOfServiceIsLostIff(f, name, key, 0);
    OneServiceDecides(rt, fields, WithService(fields, name, rest), name);
    if key != "image" { KeptWithout(f, name, key); }
    else { ImageIsNeverLost(f, name); }
  }

  // A service that is skipped

  lemma SameDependenciesSameOrder(f: File, g: File, name: string)
    requires DifferIn(f, g, name) && DependenciesOf(f, name) == DependenciesOf(g, name)
    ensures OrderOf(f) == OrderOf(g) && CycleOf(f) == CycleOf(g)
  {
    hide DependenciesOf, Order, CycleIssues, Importable, ServiceIssues, ServiceOf;
    forall x | x in f.names ensures DependenciesOf(f, x) == DependenciesOf(g, x) {
      if x != name { OthersAreMappedAlike(f, g, name, x); }
    }
    assert GraphOf(f) == GraphOf(g);
  }

  lemma ImportOfSome(rt: Runtime, a: seq<Field>)
    requires FileOf(rt, Obj(a)).names != []
    ensures var services := Drafts(FileOf(rt, Obj(a)));
      Import(rt, Obj(a))
        == if services == [] then Result(false, None, FileIssues(rt, Obj(a)) + [Issue(Error, ["services"], Plain)])
           else Result(true, Some(DraftOf(rt, Obj(a), services)),
                       FileIssues(rt, Obj(a)) + DraftIssues(rt, Obj(a), services))
  {
    NamesIffFields(FieldsOf(Get(a, "services")));
    hide Get, Keys, FileIssues, DraftIssues, DraftOf, FieldsOf, Services, OrderOf;
  }

  lemma SkippedDecides(rt: Runtime, a: seq<Field>, b: seq<Field>, name: string)
    requires SameButServices(a, b)
    requires var f, g := FileOf(rt, Obj(a)), FileOf(rt, Obj(b));
      && DifferIn(f, g, name) && name in f.names && !Importable(f, name) && !Importable(g, name)
      && DependenciesOf(f, name) == DependenciesOf(g, name)
    ensures var f, g := FileOf(rt, Obj(a)), FileOf(rt, Obj(b));
      Import(rt, Obj(a)) == Import(rt, Obj(b)) <==> ServiceIssues(f, name) == ServiceIssues(g, name)
  {
    hide Get, FileOf, Importable, ServiceOf, ServiceIssues, DraftIssues, FileIssues, Import, OrderOf, Services,
         AllServiceIssues, CycleOf, SameButServices, DependenciesOf, DraftOf;
    var f, g := FileOf(rt, Obj(a)), FileOf(rt, Obj(b));
    SameDependenciesSameOrder(f, g, name);
    OrderHolds(f);
    IssuesDecide(f, g, name, OrderOf(f));
    SameServices(f, g, name, OrderOf(f));
    SameFileIssues(rt, a, b);
    SameDraftOf(rt, a, b, Drafts(f));
    ImportOfSome(rt, a);
    ImportOfSome(rt, b);
    PartsBehind(FileIssues(rt, Obj(a)), FileIssues(rt, Obj(b)), DraftIssues(rt, Obj(a), Drafts(f)));
    PartsBehind(FileIssues(rt, Obj(a)), FileIssues(rt, Obj(b)), [Issue(Error, ["services"], Plain)]);
  }

  /** Of a skipped service only `build` is named, and only where the image is what is missing. */
  lemma SkippedIssuesDiffer(f: File, name: string, key: string)
    requires Raw(f, name).Obj? && !Importable(f, name) && !Nullish(Get(Raw(f, name).fields, key))
    ensures var g := WithFields(f, name, Without(Raw(f, name).fields, key));
      !Importable(g, name) && (ServiceIssues(g, name) == ServiceIssues(f, name) <==> key != "build" || !ValidName(name))
    ensures key != "depends_on" ==>
      DependenciesOf(WithFields(f, name, Without(Raw(f, name).fields, key)), name) == DependenciesOf(f, name)
  {
    hide Get, Without, ValidName, ReadDependsOn, KeyIssues;
    var fields := Raw(f, name).fields;
    RawOfChanged(f, name, Without(fields, key));
    GetWithout(fields, key, "image");
    GetWithout(fields, key, "build");
    GetWithout(fields, key, "depends_on");
  }

  /** A key other than `depends_on` of a skipped service leaves no trace, unless `build` explains the missing image. */
  lemma SkippedKeyIsLostIff(rt: Runtime, fields: seq<Field>, name: string, key: string)
    requires var f := FileOf(rt, Obj(fields));
      && name in f.names && Raw(f, name).Obj? && !Importable(f, name)
      && !Nullish(Get(Raw(f, name).fields, key)) && key != "depends_on"
    ensures var f := FileOf(rt, Obj(fields));
      Import(rt, Obj(fields)) == Import(rt, Obj(WithService(fields, name, Without(Raw(f, name).fields, key))))
      <==> key != "build" || !ValidName(name)
  {
    hide Get, Without, Import, WithService, ServiceIssues, SameButServices, FileOf, Importable, ValidName;
    var f := FileOf(rt, Obj(fields));
    var rest := Without(Raw(f, name).fields, key);
    FileWithService(rt, fields, name, rest);
    SkippedIssuesDiffer(f, name, key);
    SkippedDecides(rt, fields, WithService(fields, name, rest), name);
  }

  // One value changed

  /** Two services that may differ in one key only are mapped alike exactly if that key is. */
  lemma OneKeyDecides(c: Context, a: seq<Field>, b: seq<Field>, key: string)
    requires forall k | k != key :: PieceAt(c, a, k) == PieceAt(c, b, k)
    ensures (Settings(c, a, KEYS) == Settings(c, b, KEYS) && KeyIssues(c, a, KEYS) == KeyIssues(c, b, KEYS))
       <==> PieceAt(c, a, key) == PieceAt(c, b, key)
  {
    hide PieceAt, KEYS, Settings, KeyIssues;
    var p, q := k => PieceAt(c, a, k).issues, k => PieceAt(c, b, k).issues;
    GatheredDecides(KEYS, p, q, key);
    KeysAreGathered(c, a, KEYS);
    KeysAreGathered(c, b, KEYS);
    var x, y := Settings(c, a, KEYS), Settings(c, b, KEYS);
    forall k ensures k != key ==> (k in x <==> k in y) && (k in x ==> x[k] == y[k]) {
      SettingAt(c, a, KEYS, k);
      SettingAt(c, b, KEYS, k);
    }
    SettingAt(c, a, KEYS, key);
    SettingAt(c, b, KEYS, key);
    UnknownSaysNothing(c, a, key);
    UnknownSaysNothing(c, b, key);
    if PieceAt(c, a, key) == PieceAt(c, b, key) { assert x == y; }
  }

  lemma UnknownSaysNothing(c: Context, raw: seq<Field>, key: string)
    ensures key !in KEYS ==> PieceAt(c, raw, key) == Nothing
  {
    KeysAreKnown(key);
  }

  /**
   * Two values of a key of a service are imported alike, issues included, exactly if the key's own mapping makes the
   * same of them. So what that mapping loses is lost, and nothing else is.
   */
  lemma ValueDecides(rt: Runtime, fields: seq<Field>, name: string, key: string, v: Json, w: Json)
    requires name in FileOf(rt, Obj(fields)).names && Importable(FileOf(rt, Obj(fields)), name) && key != "image"
    ensures var f := FileOf(rt, Obj(fields));
      var raw, c := Raw(f, name).fields, At(f, name).(path := ["services", name, key]);
      Import(rt, Obj(WithService(fields, name, Put(raw, key, v))))
        == Import(rt, Obj(WithService(fields, name, Put(raw, key, w))))
      <==> PieceOf(c, KindOf(key), v) == PieceOf(c, KindOf(key), w)
  {
    hide PieceOf, KindOf, FileOf, Importable, WithService, Import, ServiceOf, ServiceIssues, Put, Get;
    var f := FileOf(rt, Obj(fields));
    KeptIsMapping(f, name);
    var raw := Raw(f, name).fields;
    var a, b := Put(raw, key, v), Put(raw, key, w);
    FileWithService(rt, fields, name, a);
    FileWithService(rt, fields, name, b);
    KeptWithValue(f, name, key, v);
    KeptWithValue(f, name, key, w);
    forall k | k != key ensures PieceAt(At(f, name), a, k) == PieceAt(At(f, name), b, k) {
      GetPut(raw, key, v, k);
      GetPut(raw, key, w, k);
    }
    OneKeyDecides(At(f, name), a, b, key);
    GetPut(raw, key, v, key);
    GetPut(raw, key, w, key);
    assert At(f, name).path + [key] == ["services", name, key];
    OneServiceDecides(rt, WithService(fields, name, a), WithService(fields, name, b), name);
    SamePrefix(ImageIssues(f, name), KeyIssues(At(f, name), a, KEYS), KeyIssues(At(f, name), b, KEYS));
  }

  lemma KeptIsMapping(f: File, name: string)
    requires Importable(f, name)
    ensures Raw(f, name).Obj?
  {
  }

  lemma KeptWithValue(f: File, name: string, key: string, v: Json)
    requires Importable(f, name) && key != "image"
    ensures var g, raw := WithFields(f, name, Put(Raw(f, name).fields, key, v)), Put(Raw(f, name).fields, key, v);
      && Importable(g, name) && ServiceIssues(g, name) == ImageIssues(f, name) + KeyIssues(At(f, name), raw, KEYS)
      && ServiceOf(g, name, 0)
      == Service(name, SplitImageRef(Reference(f, name)), Settings(At(f, name), raw, KEYS), 0)
  {
    hide Get, Put, Text, ValidName, KeyIssues, Settings, SplitImageRef, DefaultIsReported;
    RawOfChanged(f, name, Put(Raw(f, name).fields, key, v));
    GetPut(Raw(f, name).fields, key, v, "image");
  }

  /**
   * From an entry to the whole import: a mode other than `ro` of a short-syntax mount, such as `ro,z`, can be deleted
   * without a trace exactly if the source is no path.
   */
  lemma MountModeIsLostIff(rt: Runtime, fields: seq<Field>, name: string, items: seq<Json>, i: nat, m: MountSpec)
    requires name in FileOf(rt, Obj(fields)).names && Importable(FileOf(rt, Obj(fields)), name)
    requires i < |items| && SpecOk(m) && m.mode.Some?
    ensures var raw := Raw(FileOf(rt, Obj(fields)), name).fields;
      var with, bare := Arr(items[i := Str(Written(m))]), Arr(items[i := Str(Written(m.(mode := None)))]);
      Import(rt, Obj(WithService(fields, name, Put(raw, "volumes", with))))
        == Import(rt, Obj(WithService(fields, name, Put(raw, "volumes", bare))))
      <==> m.mode != Some("ro") && !IsBindSource(m.source)
  {
    hide Import, Importable, WithService, Put, Get, Keys, Written, SpecOk, PieceOf, MountOutcome, IsBindSource;
    var with, bare := Str(Written(m)), Str(Written(m.(mode := None)));
    var c := At(FileOf(rt, Obj(fields)), name).(path := ["services", name, "volumes"]);
    ValueDecides(rt, fields, name, "volumes", Arr(items[i := with]), Arr(items[i := bare]));
    VolumesAreMounts();
    MountEntryDecides(c, items[i := with], i, bare);
    assert items[i := with][i := bare] == items[i := bare];
    ShortModeIsLostIff(rt, m, c.path);
  }

  lemma VolumesAreMounts()
    ensures KindOf("volumes") == MountsKey
  {
  }
}
