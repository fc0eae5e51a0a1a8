/** The mapping of a whole Compose document into a template draft. */
module ComposeImport {
  import opened Sequences
  import opened Json
  import opened ImportIssues
  import opened ImportOutcomes
  import opened ComposeText
  import opened ComposeMounts
  import opened ComposeService
  import opened DependencyOrder

  datatype Service = Service(name: string, image: ImageRef, settings: map<string, Setting>, order: nat)
  datatype Named = Named(name: string, driver: Option<string>)
  datatype Draft = Draft(networks: seq<Named>, volumes: seq<Named>, services: seq<Service>)
  datatype Result = Result(ok: bool, draft: Option<Draft>, issues: seq<Issue>)

  // One service

  predicate NameChar(c: char) { 'a' <= c <= 'z' || 'A' <= c <= 'Z' || '0' <= c <= '9' || c == '_' || c == '-' }
  predicate ValidName(name: string) { name != "" && forall i | 0 <= i < |name| :: NameChar(name[i]) }

  /** Why a service is not imported, if it is not. */
  function SkipIssue(name: string, raw: Json): Option<Issue> {
    if !raw.Obj? then Some(Issue(Unsupported, ["services", name], Plain))
    else if !ValidName(name) then Some(Issue(Error, ["services", name], Plain))
    else if Nullish(Member(raw, "image"))
    then Some(Issue(Error, ["services", name, "image"], if Nullish(Member(raw, "build")) then Plain else BuildOnly))
    else None
  }

  /** The file's services, and how the host language writes values. */
  datatype File = File(rt: Runtime, names: seq<string>, raw: seq<Field>)

  function Raw(f: File, name: string): Json { Get(f.raw, name) }
  function FieldsOf(v: Json): seq<Field> { if v.Obj? then v.fields else [] }
  function Importable(f: File, name: string): bool { SkipIssue(name, Raw(f, name)).None? }
  function At(f: File, name: string): Context { Context(f.rt, ["services", name], f.names) }
  function Reference(f: File, name: string): string { Text(f.rt, Member(Raw(f, name), "image")) }

  function ServiceOf(f: File, name: string, order: nat): Service {
    Service(name, SplitImageRef(Reference(f, name)), Settings(At(f, name), FieldsOf(Raw(f, name)), KEYS), order)
  }

  function ImageIssues(f: File, name: string): seq<Issue> {
    var ref := Reference(f, name);
    if DefaultIsReported(ref) then [Issue(Defaulted, ["services", name, "image"], Shown(ref))] else []
  }

  function ServiceIssues(f: File, name: string): seq<Issue> {
    match SkipIssue(name, Raw(f, name))
    case Some(issue) => [issue]
    case None => ImageIssues(f, name) + KeyIssues(At(f, name), FieldsOf(Raw(f, name)), KEYS)
  }

  method MapService(f: File, name: string, order: nat, report: Report, volumes: NameSet)
    returns (service: Option<Service>)
    modifies report, volumes
    ensures service == if Importable(f, name) then Some(ServiceOf(f, name, order)) else None
    ensures report.issues == old(report.issues) + ServiceIssues(f, name)
    ensures volumes.names == AddAll(old(volumes.names), if service.Some? then Mounted(service.value.settings) else [])
  {
    hide Settings, KeyIssues, Mounted, Text, Get, SplitImageRef, DefaultIsReported, VolumeSources;
    NothingMounted(volumes.names);
    var raw := Raw(f, name);
    if !raw.Obj? {
      report.Push(Issue(Unsupported, ["services", name], Plain));
      return None;
    }
    if !ValidName(name) {
      report.Push(Issue(Error, ["services", name], Plain));
      return None;
    }
    if Nullish(Member(raw, "image")) {
      var detail := if Nullish(Member(raw, "build")) then Plain else BuildOnly;
      report.Push(Issue(Error, ["services", name, "image"], detail));
      return None;
    }
    var ref := Reference(f, name);
    if DefaultIsReported(ref) { report.Push(Issue(Defaulted, ["services", name, "image"], Shown(ref))); }
    var settings := MapKeys(At(f, name), raw.fields, report, volumes);
    service := Some(Service(name, SplitImageRef(ref), settings, order));
  }

  // All services

  function Services(f: File, order: seq<string>): seq<Service> {
    if order == [] then []
    else
      var last := |order| - 1;
      Services(f, order[..last]) + if Importable(f, order[last]) then [ServiceOf(f, order[last], last)] else []
  }

  function AllServiceIssues(f: File, order: seq<string>): seq<Issue> {
    if order == [] then [] else AllServiceIssues(f, order[..|order| - 1]) + ServiceIssues(f, order[|order| - 1])
  }

  /** The volumes that services mount by name, in the order of first mention. */
  function Referenced(services: seq<Service>): seq<string> {
    if services == [] then []
    else AddAll(Referenced(services[..|services| - 1]), Mounted(services[|services| - 1].settings))
  }

  method MapServices(f: File, order: seq<string>, report: Report, volumes: NameSet) returns (services: seq<Service>)
    requires volumes.names == []
    modifies report, volumes
    ensures services == Services(f, order)
    ensures report.issues == old(report.issues) + AllServiceIssues(f, order)
    ensures volumes.names == Referenced(services)
  {
    hide ServiceOf, ServiceIssues, Mounted, Importable, AddAll;
    services := [];
    var i := 0;
    while i < |order|
      invariant 0 <= i <= |order| && services == Services(f, order[..i])
      invariant report.issues == old(report.issues) + AllServiceIssues(f, order[..i])
      invariant volumes.names == Referenced(services)
    {
      assert order[..i + 1][..i] == order[..i];
      NothingMounted(volumes.names);
      ghost var before := services;
      var service := MapService(f, order[i], i, report, volumes);
      if service.Some? {
        services := services + [service.value];
        assert services[..|services| - 1] == before;
      } else {
        assert before + [] == before;
      }
      i := i + 1;
    }
    assert order[..i] == order;
  }

  // Networks and volumes of the document

  function NamedOutcome(rt: Runtime, section: string, field: Field): Outcome<Named> {
    var driver := Member(field.value, "driver");
    if Member(field.value, "external") == Bool(true)
    then Outcome(None, [Issue(Unsupported, [section, field.key], Plain)])
    else
      var known := if Nullish(driver) || Text(rt, driver) == "" then None else Some(Text(rt, driver));
      Outcome(Some(Named(field.key, known)), [])
  }

  function NamedOutcomes(rt: Runtime, section: string, fields: seq<Field>): (r: seq<Outcome<Named>>)
    ensures |r| == |fields| && forall i | 0 <= i < |r| :: r[i] == NamedOutcome(rt, section, fields[i])
  {
    if fields == [] then [] else [NamedOutcome(rt, section, fields[0])] + NamedOutcomes(rt, section, fields[1..])
  }

  function Declared(rt: Runtime, section: string, fields: seq<Field>): seq<Named> {
    Kept(NamedOutcomes(rt, section, fields))
  }
  function DeclaredIssues(rt: Runtime, section: string, fields: seq<Field>): seq<Issue> {
    Said(NamedOutcomes(rt, section, fields))
  }

  method MapDeclared(rt: Runtime, section: string, fields: seq<Field>, report: Report) returns (named: seq<Named>)
    modifies report
    ensures named == Declared(rt, section, fields)
    ensures report.issues == old(report.issues) + DeclaredIssues(rt, section, fields)
  {
    hide Kept, Said, Text, Get;
    NothingKept<Named>();
    ghost var outcomes := NamedOutcomes(rt, section, fields);
    named := [];
    var i := 0;
    assert outcomes[0..] == outcomes;
    while i < |fields|
      invariant 0 <= i <= |fields|
      invariant Kept(outcomes) == named + Kept(outcomes[i..])
      invariant old(report.issues) + Said(outcomes) == report.issues + Said(outcomes[i..])
    {
      OutcomesFrom(outcomes, i);
      ghost var said, rest, kept, more := report.issues, Said(outcomes[i + 1..]), named, Kept(outcomes[i + 1..]);
      assert said + (outcomes[i].issues + rest) == said + outcomes[i].issues + rest;
      var key, config := fields[i].key, fields[i].value;
      if Member(config, "external") == Bool(true) {
        report.Push(Issue(Unsupported, [section, key], Plain));
        assert kept + ([] + more) == kept + more;
      } else {
        var driver := Member(config, "driver");
        var item := Named(key, if Nullish(driver) || Text(rt, driver) == "" then None else Some(Text(rt, driver)));
        assert kept + ([item] + more) == kept + [item] + more;
        named := named + [item];
      }
      i := i + 1;
    }
    assert outcomes[i..] == [] && named + [] == named;
  }

  function NamesOf(named: seq<Named>): (r: seq<string>)
    ensures |r| == |named| && forall i | 0 <= i < |r| :: r[i] == named[i].name
  {
    if named == [] then [] else [named[0].name] + NamesOf(named[1..])
  }

  /** The names that are still to be declared. */
  function Undeclared(declared: seq<string>, names: seq<string>): seq<string> {
    if names == [] then []
    else
      var last := names[|names| - 1];
      Undeclared(declared, names[..|names| - 1]) + if last in declared then [] else [last]
  }

  function Bare(names: seq<string>): (r: seq<Named>)
    ensures |r| == |names| && forall i | 0 <= i < |r| :: r[i] == Named(names[i], None)
  {
    seq(|names|, i requires 0 <= i < |names| => Named(names[i], None))
  }

  function BareIssues(names: seq<string>): (r: seq<Issue>)
    ensures |r| == |names| && forall i | 0 <= i < |r| :: r[i] == Issue(Defaulted, ["volumes", names[i]], Plain)
  {
    seq(|names|, i requires 0 <= i < |names| => Issue(Defaulted, ["volumes", names[i]], Plain))
  }

  lemma {:induction false} UndeclaredAre(declared: seq<string>, names: seq<string>)
    ensures forall x :: x in Undeclared(declared, names) <==> x in names && x !in declared
    ensures NoDuplicates(names) ==> NoDuplicates(Undeclared(declared, names))
  {
    if names != [] {
      var front, last := names[..|names| - 1], names[|names| - 1];
      UndeclaredAre(declared, front);
      assert names == front + [last];
    }
  }

  lemma DeclareOneMore(declared: seq<string>, names: seq<string>, i: nat)
    requires i < |names|
    ensures var before, after := Undeclared(declared, names[..i]), Undeclared(declared, names[..i + 1]);
      && (names[i] in declared ==> after == before)
      && (names[i] !in declared ==>
          && after == before + [names[i]]
          && Bare(after) == Bare(before) + [Named(names[i], None)]
          && BareIssues(after) == BareIssues(before) + [Issue(Defaulted, ["volumes", names[i]], Plain)])
  {
    assert names[..i + 1][..i] == names[..i];
  }

  method DeclareReferenced(volumes: seq<Named>, referenced: seq<string>, report: Report) returns (all: seq<Named>)
    requires NoDuplicates(referenced)
    modifies report
    ensures all == volumes + Bare(Undeclared(NamesOf(volumes), referenced))
    ensures report.issues == old(report.issues) + BareIssues(Undeclared(NamesOf(volumes), referenced))
  {
    hide Undeclared, Bare, BareIssues;
    all := volumes;
    var declared, i := NamesOf(volumes), 0;
    ghost var first := declared;
    NothingUndeclared(first);
    while i < |referenced|
      invariant 0 <= i <= |referenced|
      invariant all == volumes + Bare(Undeclared(first, referenced[..i]))
      invariant declared == first + Undeclared(first, referenced[..i])
      invariant report.issues == old(report.issues) + BareIssues(Undeclared(first, referenced[..i]))
    {
      var name := referenced[i];
      DeclareOneMore(first, referenced, i);
      UndeclaredAre(first, referenced[..i]);
      assert name !in referenced[..i];
      if name !in declared {
        all := all + [Named(name, None)];
        declared := declared + [name];
        report.Push(Issue(Defaulted, ["volumes", name], Plain));
      }
      i := i + 1;
    }
    assert referenced[..i] == referenced;
  }

  lemma NothingUndeclared(declared: seq<string>)
    ensures Undeclared(declared, []) == [] && Bare([]) == [] && BareIssues([]) == []
  {
  }

  // The document

  function VersionIssues(doc: Json): seq<Issue> {
    if Nullish(Member(doc, "version")) then [] else [Issue(Defaulted, ["version"], Plain)]
  }

  function DependenciesOf(f: File, name: string): seq<string> {
    ReadDependsOn(f.rt, Member(Raw(f, name), "depends_on"))
  }

  function GraphOf(f: File): Graph { map name | name in f.names :: DependenciesOf(f, name) }

  function FileOf(rt: Runtime, doc: Json): File {
    var raw := FieldsOf(Member(doc, "services"));
    File(rt, Keys(raw), raw)
  }

  function SharedNetworkIssues(networks: seq<Named>, services: seq<Service>): seq<Issue> {
    if networks == [] && |services| > 1 then [Issue(Defaulted, ["networks"], Plain)] else []
  }

  function TopLevel(rt: Runtime, doc: Json, section: string): seq<Named> {
    Declared(rt, section, FieldsOf(Member(doc, section)))
  }

  function TopLevelIssues(rt: Runtime, doc: Json, section: string): seq<Issue> {
    DeclaredIssues(rt, section, FieldsOf(Member(doc, section)))
  }

  /** The volumes that services mount and the document does not declare. */
  function Missing(rt: Runtime, doc: Json, services: seq<Service>): seq<string> {
    Undeclared(NamesOf(TopLevel(rt, doc, "volumes")), Referenced(services))
  }

  function DraftOf(rt: Runtime, doc: Json, services: seq<Service>): Draft {
    Draft(TopLevel(rt, doc, "networks"), TopLevel(rt, doc, "volumes") + Bare(Missing(rt, doc, services)), services)
  }

  function DraftIssues(rt: Runtime, doc: Json, services: seq<Service>): seq<Issue> {
    TopLevelIssues(rt, doc, "networks") + TopLevelIssues(rt, doc, "volumes") + BareIssues(Missing(rt, doc, services))
    + SharedNetworkIssues(TopLevel(rt, doc, "networks"), services)
  }

  /** The order that the sort gives to the services of a file, and the issue that comes with it, if any. */
  function OrderOf(f: File): seq<string> { Order(f.names, GraphOf(f)) }
  function CycleOf(f: File): seq<Issue> { CycleIssues(f.names, GraphOf(f)) }

  function FileIssues(rt: Runtime, doc: Json): seq<Issue> {
    var f := FileOf(rt, doc);
    VersionIssues(doc) + CycleOf(f) + AllServiceIssues(f, OrderOf(f))
  }

  function Import(rt: Runtime, doc: Json): Result {
    if !doc.Obj? then Result(false, None, [Issue(Error, [], Plain)])
    else if FieldsOf(Member(doc, "services")) == [] then Result(false, None, [Issue(Error, ["services"], Plain)])
    else
      var services := Services(FileOf(rt, doc), OrderOf(FileOf(rt, doc)));
      if services == [] then Result(false, None, FileIssues(rt, doc) + [Issue(Error, ["services"], Plain)])
      else Result(true, Some(DraftOf(rt, doc, services)), FileIssues(rt, doc) + DraftIssues(rt, doc, services))
  }

  method ReadDependencies(f: File) returns (graph: Graph)
    ensures graph == GraphOf(f)
  {
    hide Get, ReadDependsOn;
    graph := map[];
    var i := 0;
    while i < |f.names|
      invariant 0 <= i <= |f.names|
      invariant graph == map name | name in f.names[..i] :: DependenciesOf(f, name)
    {
      graph := graph[f.names[i] := DependenciesOf(f, f.names[i])];
      i := i + 1;
    }
    assert f.names[..i] == f.names;
  }

  method OrderServices(f: File, report: Report) returns (order: seq<string>)
    modifies report
    ensures order == OrderOf(f)
    ensures report.issues == old(report.issues) + CycleOf(f)
  {
    hide Order, CycleIssues, GraphOf;
    var graph := ReadDependencies(f);
    order, report.issues := TopologicalOrder(f.names, graph, report.issues);
  }

  method MapTopLevel(rt: Runtime, doc: Json, services: seq<Service>, referenced: seq<string>, report: Report)
    returns (draft: Draft)
    requires referenced == Referenced(services)
    modifies report
    ensures draft == DraftOf(rt, doc, services)
    ensures report.issues == old(report.issues) + DraftIssues(rt, doc, services)
  {
    hide Missing, TopLevel, TopLevelIssues, Referenced, Bare, BareIssues, NoDuplicates, Mounted, SharedNetworkIssues;
    ghost var said := report.issues;
    var networks := MapSection(rt, doc, "networks", report);
    var volumes := MapSection(rt, doc, "volumes", report);
    ReferencedOnce(services);
    MissingIs(rt, doc, services);
    volumes := DeclareReferenced(volumes, referenced, report);
    ghost var a, b, c := TopLevelIssues(rt, doc, "networks"), TopLevelIssues(rt, doc, "volumes"),
      BareIssues(Missing(rt, doc, services));
    assert said + a + b + c == said + (a + b + c);
    SharedNetwork(networks, services, report);
    ghost var d := SharedNetworkIssues(networks, services);
    assert said + (a + b + c) + d == said + (a + b + c + d);
    draft := Draft(networks, volumes, services);
  }

  lemma MissingIs(rt: Runtime, doc: Json, services: seq<Service>)
    ensures Missing(rt, doc, services) == Undeclared(NamesOf(TopLevel(rt, doc, "volumes")), Referenced(services))
  {
  }

  method MapSection(rt: Runtime, doc: Json, section: string, report: Report) returns (named: seq<Named>)
    modifies report
    ensures named == TopLevel(rt, doc, section)
    ensures report.issues == old(report.issues) + TopLevelIssues(rt, doc, section)
  {
    hide Declared, DeclaredIssues;
    named := MapDeclared(rt, section, FieldsOf(Member(doc, section)), report);
  }

  method SharedNetwork(networks: seq<Named>, services: seq<Service>, report: Report)
    modifies report
    ensures report.issues == old(report.issues) + SharedNetworkIssues(networks, services)
  {
    if networks == [] && |services| > 1 { report.Push(Issue(Defaulted, ["networks"], Plain)); }
  }

  method MapComposeToTemplate(rt: Runtime, doc: Json) returns (r: Result)
    ensures r == Import(rt, doc)
  {
    hide Get, Services, AllServiceIssues, Referenced, DraftOf, DraftIssues, OrderOf, CycleOf, FileOf;
    if !doc.Obj? { return Result(false, None, [Issue(Error, [], Plain)]); }
    if FieldsOf(Member(doc, "services")) == [] { return Result(false, None, [Issue(Error, ["services"], Plain)]); }
    var report := new Report();
    if !Nullish(Member(doc, "version")) { report.Push(Issue(Defaulted, ["version"], Plain)); }
    assert report.issues == VersionIssues(doc);
    var volumeNames := new NameSet();
    var f := FileOf(rt, doc);
    var order := OrderServices(f, report);
    var services := MapServices(f, order, report, volumeNames);
    if services == [] { return Result(false, None, report.issues + [Issue(Error, ["services"], Plain)]); }
    var draft := MapTopLevel(rt, doc, services, volumeNames.names, report);
    r := Result(true, Some(draft), report.issues);
  }

  lemma {:induction false} ReferencedOnce(services: seq<Service>)
    ensures NoDuplicates(Referenced(services))
    ensures forall i, x | 0 <= i < |services| && x in Mounted(services[i].settings) :: x in Referenced(services)
  {
    hide Mounted;
    if services != [] {
      var front, last := services[..|services| - 1], services[|services| - 1];
      ReferencedOnce(front);
      AddAllMembers(Referenced(front), Mounted(last.settings));
      forall i, x | 0 <= i < |services| && x in Mounted(services[i].settings) ensures x in Referenced(services) {
        if i < |front| { assert front[i] == services[i]; }
      }
    }
  }
}
