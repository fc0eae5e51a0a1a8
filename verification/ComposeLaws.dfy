/** What an import of a Compose document guarantees about the draft that it makes. */
module ComposeLaws {
  import opened Sequences
  import opened Json
  import opened ImportIssues
  import opened ImportOutcomes
  import opened ComposeText
  import opened ComposePorts
  import opened ComposeMounts
  import opened ComposeService
  import opened DependencyOrder
  import opened ComposeImport

  // Order

  /** The service that the import makes at a place of the order. */
  predicate IsAt(f: File, order: seq<string>, service: Service) {
    service.order < |order| && service == ServiceOf(f, order[service.order], service.order)
    && Importable(f, order[service.order])
  }

  ghost predicate DraftedAt(services: seq<Service>, n: nat) {
    exists i :: 0 <= i < |services| && services[i].order == n
  }

  /** The draft holds only services that are kept, each as the mapping makes it. */
  lemma {:induction false} ServiceIsAt(f: File, order: seq<string>, i: nat)
    requires i < |Services(f, order)|
    ensures IsAt(f, order, Services(f, order)[i])
  {
    hide Importable, Settings, Reference, SplitImageRef;
    if order != [] {
      var front, before := order[..|order| - 1], Services(f, order[..|order| - 1]);
      if i < |before| {
        ServiceIsAt(f, front, i);
        assert Services(f, order)[i] == before[i];
      }
    }
  }

  /** It holds all of them. */
  lemma {:induction false} KeptIsDrafted(f: File, order: seq<string>, n: nat)
    requires n < |order| && Importable(f, order[n])
    ensures DraftedAt(Services(f, order), n)
  {
    hide Importable, Settings, Reference, SplitImageRef;
    var last := |order| - 1;
    var before, services := Services(f, order[..last]), Services(f, order);
    if n < last {
      KeptIsDrafted(f, order[..last], n);
      var i :| 0 <= i < |before| && before[i].order == n;
      assert services[i].order == n;
    } else {
      assert services[|before|].order == n;
    }
  }

  /** Their places strictly increase. */
  lemma {:induction false} PlacesIncrease(f: File, order: seq<string>, i: nat, j: nat)
    requires i < j < |Services(f, order)|
    ensures Services(f, order)[i].order < Services(f, order)[j].order < |order|
  {
    hide Importable, Settings, Reference, SplitImageRef;
    if order != [] {
      var front, before := order[..|order| - 1], Services(f, order[..|order| - 1]);
      ServiceIsAt(f, order, j);
      if j < |before| { PlacesIncrease(f, front, i, j); }
      else { ServiceIsAt(f, front, i); }
    }
  }

  /** The dependencies of a drafted service. */
  function DependsOn(service: Service): seq<string> {
    if "depends_on" in service.settings && service.settings["depends_on"].Words?
    then service.settings["depends_on"].words else []
  }

  /** They are the dependencies of the file that are services of the file. */
  lemma DraftedDependencies(f: File, name: string, order: nat)
    requires Importable(f, name)
    ensures DependsOn(ServiceOf(f, name, order)) == Restricted(f.names, DependenciesOf(f, name))
  {
    hide Get, Settings, Reference, SplitImageRef, Restricted, ReadDependsOn;
    var c, raw := At(f, name), FieldsOf(Raw(f, name));
    SettingAt(c, raw, KEYS, "depends_on");
    DependsKeyIsKnown();
    NoDependencies(f.names, f.rt, Get(raw, "depends_on"));
  }

  lemma DependsKeyIsKnown()
    ensures "depends_on" in KEYS && KindOf("depends_on") == DependsKey
  {
    assert KEYS[31] == "depends_on";
  }

  lemma NoDependencies(names: seq<string>, rt: Runtime, v: Json)
    ensures Nullish(v) ==> Restricted(names, ReadDependsOn(rt, v)) == []
  {
  }

  /** What the sort promises of the services of a file. */
  lemma OrderHolds(f: File)
    ensures forall x :: x in OrderOf(f) <==> x in f.names
    ensures NoDuplicates(f.names) ==> NoDuplicates(OrderOf(f))
    ensures !HasCycle(f.names, GraphOf(f)) ==>
      DependenciesFirst(f.names, GraphOf(f), OrderOf(f)) && NoDuplicates(OrderOf(f))
  {
    hide HasCycle, NothingJumpsAhead, DependenciesFirst, Order, NoDuplicates;
    OrderIsSorted(f.names, GraphOf(f));
  }

  function Drafts(f: File): seq<Service> { Services(f, OrderOf(f)) }

  /** In a draft from a file without cycles, a service comes after every drafted service that it depends on. */
  lemma DependenciesComeFirst(f: File, i: nat, j: nat)
    requires !HasCycle(f.names, GraphOf(f)) && i < |Drafts(f)| && j < |Drafts(f)|
    requires Drafts(f)[j].name in DependsOn(Drafts(f)[i])
    ensures Drafts(f)[j].order < Drafts(f)[i].order
  {
    hide HasCycle, ServiceOf, DependsOn, Services, OrderOf;
    var order := OrderOf(f);
    OrderHolds(f);
    ServiceIsAt(f, order, i);
    ServiceIsAt(f, order, j);
    var a, b := Drafts(f)[i], Drafts(f)[j];
    var name := order[a.order];
    DraftedDependencies(f, name, a.order);
    NameOf(f, order[b.order], b.order);
    assert Edge(f.names, GraphOf(f), name, b.name);
    assert b.name in order[..a.order];
    var k :| 0 <= k < a.order && order[k] == b.name;
  }

  lemma NameOf(f: File, name: string, order: nat)
    ensures ServiceOf(f, name, order).name == name && ServiceOf(f, name, order).order == order
  {
  }

  // Closure of the draft

  ghost predicate Drafted(services: seq<Service>, name: string) {
    exists i :: 0 <= i < |services| && services[i].name == name
  }

  lemma DraftedIffKept(f: File, order: seq<string>, name: string)
    requires name in order
    ensures Drafted(Services(f, order), name) <==> Importable(f, name)
  {
    hide Importable, ServiceOf, Services;
    var services := Services(f, order);
    forall n: nat, m: string ensures ServiceOf(f, m, n).name == m && ServiceOf(f, m, n).order == n { NameOf(f, m, n); }
    if Importable(f, name) {
      var n :| 0 <= n < |order| && order[n] == name;
      KeptIsDrafted(f, order, n);
      var i :| 0 <= i < |services| && services[i].order == n;
      ServiceIsAt(f, order, i);
    }
    if Drafted(services, name) {
      var i :| 0 <= i < |services| && services[i].name == name;
      ServiceIsAt(f, order, i);
    }
  }

  ghost predicate SomeImportable(f: File) { exists name :: name in f.names && Importable(f, name) }

  /** A draft is made exactly if some service can be kept. */
  lemma ImportSucceedsIff(rt: Runtime, doc: Json)
    ensures Import(rt, doc).ok <==> SomeImportable(FileOf(rt, doc))
    ensures Import(rt, doc).ok <==> Import(rt, doc).draft.Some?
  {
    hide ServiceOf, Services, Importable, DraftOf, DraftIssues, AllServiceIssues, Keys, OrderOf;
    var f := FileOf(rt, doc);
    NamesIffFields(f.raw);
    OrderHolds(f);
    forall name | name in f.names ensures Drafted(Drafts(f), name) <==> Importable(f, name) {
      DraftedIffKept(f, OrderOf(f), name);
    }
    if Drafts(f) != [] {
      ServiceIsAt(f, OrderOf(f), 0);
      assert OrderOf(f)[Drafts(f)[0].order] in f.names;
    }
  }

  lemma NamesIffFields(fields: seq<Field>)
    ensures Keys(fields) == [] <==> fields == []
  {
  }

  /**
   * A draft may name dependencies that it does not contain: the sort and the filter look at all services of the file,
   * also at those that are skipped. It is closed exactly if no kept service depends on a skipped one.
   */
  lemma DraftIsClosedIff(f: File)
    ensures (forall i, d | 0 <= i < |Drafts(f)| && d in DependsOn(Drafts(f)[i]) :: Drafted(Drafts(f), d))
       <==> (forall name, d | name in f.names && Importable(f, name) && d in DependenciesOf(f, name) && d in f.names ::
               Importable(f, d))
  {
    hide ServiceOf, Services, Importable, DependsOn, DependenciesOf, OrderOf;
    var order, services := OrderOf(f), Drafts(f);
    OrderHolds(f);
    if forall i, d | 0 <= i < |services| && d in DependsOn(services[i]) :: Drafted(services, d) {
      forall name, d | name in f.names && Importable(f, name) && d in DependenciesOf(f, name) && d in f.names
        ensures Importable(f, d)
      {
        var n :| 0 <= n < |order| && order[n] == name;
        KeptIsDrafted(f, order, n);
        var i :| 0 <= i < |services| && services[i].order == n;
        ServiceIsAt(f, order, i);
        DraftedDependencies(f, name, n);
        DraftedIffKept(f, order, d);
      }
    }
    if forall name, d | name in f.names && Importable(f, name) && d in DependenciesOf(f, name) && d in f.names ::
         Importable(f, d)
    {
      forall i, d | 0 <= i < |services| && d in DependsOn(services[i]) ensures Drafted(services, d) {
        ServiceIsAt(f, order, i);
        DraftedDependencies(f, order[services[i].order], services[i].order);
        DraftedIffKept(f, order, d);
      }
    }
  }

  // Volumes

  ghost predicate HasKey(fields: seq<Field>, key: string) { exists i :: 0 <= i < |fields| && fields[i].key == key }

  lemma HasKeyTail(fields: seq<Field>, key: string)
    requires fields != []
    ensures HasKey(fields, key) <==> fields[0].key == key || HasKey(fields[1..], key)
  {
    var rest := fields[1..];
    assert forall i | 0 <= i < |rest| :: rest[i] == fields[i + 1];
    if i :| 0 <= i < |fields| && fields[i].key == key { if i > 0 { assert rest[i - 1].key == key; } }
    if i :| 0 <= i < |rest| && rest[i].key == key { assert fields[i + 1].key == key; }
  }

  lemma {:induction false} DeclaredNames(rt: Runtime, section: string, fields: seq<Field>)
    requires Distinct(fields)
    ensures NoDuplicates(NamesOf(Declared(rt, section, fields)))
    ensures forall x :: x in NamesOf(Declared(rt, section, fields)) ==> HasKey(fields, x)
  {
    hide Get, Text, HasKey;
    if fields != [] {
      var rest := fields[1..];
      DeclaredNames(rt, section, rest);
      var outcomes, more := NamedOutcomes(rt, section, fields), Declared(rt, section, rest);
      assert outcomes[1..] == NamedOutcomes(rt, section, rest);
      forall x ensures HasKey(fields, x) <==> fields[0].key == x || HasKey(rest, x) { HasKeyTail(fields, x); }
      FirstKeyIsNew(fields);
      if outcomes[0].item.Some? {
        assert Declared(rt, section, fields) == [outcomes[0].item.value] + more;
        NamesAppend([outcomes[0].item.value], more);
        NoDuplicatesJoin([fields[0].key], NamesOf(more));
      } else {
        assert Declared(rt, section, fields) == more;
      }
    }
  }

  lemma FirstKeyIsNew(fields: seq<Field>)
    requires fields != [] && Distinct(fields)
    ensures !HasKey(fields[1..], fields[0].key)
  {
  }

  lemma NamesAppend(a: seq<Named>, b: seq<Named>)
    ensures NamesOf(a + b) == NamesOf(a) + NamesOf(b)
  {
  }

  lemma NoDuplicatesJoin(a: seq<string>, b: seq<string>)
    requires NoDuplicates(a) && NoDuplicates(b) && forall x :: x in a ==> x !in b
    ensures NoDuplicates(a + b)
  {
    forall i, j | 0 <= i < j < |a + b| ensures (a + b)[i] != (a + b)[j] {
      if i < |a| && j >= |a| { assert a[i] in a && b[j - |a|] in b; }
    }
  }

  /**
   * Every volume that a drafted service mounts by name is declared in the draft, and no volume is declared twice;
   * a volume is declared only if the document declares it or a service mounts it.
   */
  lemma VolumesAreDeclaredOnce(rt: Runtime, doc: Json, services: seq<Service>)
    requires Distinct(FieldsOf(Member(doc, "volumes")))
    ensures var names := NamesOf(DraftOf(rt, doc, services).volumes);
      && NoDuplicates(names)
      && (forall x :: x in names <==> x in NamesOf(TopLevel(rt, doc, "volumes")) || x in Referenced(services))
      && (forall i, x | 0 <= i < |services| && x in Mounted(services[i].settings) :: x in names)
  {
    hide Get, Mounted, Referenced, Undeclared, Declared, FieldsOf, Member, NamesOf, Bare;
    var declared, missing := TopLevel(rt, doc, "volumes"), Missing(rt, doc, services);
    DeclaredNames(rt, "volumes", FieldsOf(Member(doc, "volumes")));
    ReferencedOnce(services);
    UndeclaredAre(NamesOf(declared), Referenced(services));
    hide NoDuplicates, TopLevel, Missing;
    NamesAppend(declared, Bare(missing));
    NamesOfBare(missing);
    NoDuplicatesJoin(NamesOf(declared), missing);
  }

  lemma NamesOfBare(names: seq<string>)
    ensures NamesOf(Bare(names)) == names
  {
  }

  /** What `Mounted` collects: the source of every named-volume mount. */
  lemma {:induction false} SourcesAre(mounts: seq<Mount>)
    ensures forall x :: x in VolumeSources(mounts) <==>
      exists i :: 0 <= i < |mounts| && mounts[i].kind.Volume? && mounts[i].source == x
  {
    if mounts != [] {
      var rest := mounts[1..];
      SourcesAre(rest);
      forall x ensures x in VolumeSources(mounts) <==>
        exists i :: 0 <= i < |mounts| && mounts[i].kind.Volume? && mounts[i].source == x
      {
        if x in VolumeSources(rest) {
          var i :| 0 <= i < |rest| && rest[i].kind.Volume? && rest[i].source == x;
          assert mounts[i + 1] == rest[i];
        } else if x in VolumeSources(mounts) {
          assert mounts[0].kind.Volume? && mounts[0].source == x;
        }
        if i :| 0 <= i < |mounts| && mounts[i].kind.Volume? && mounts[i].source == x {
          if i > 0 { assert rest[i - 1] == mounts[i]; }
        }
      }
    }
  }

  // Every service is accounted for

  /** No error among the issues, and none about anything shallower than `depth`. */
  predicate Modest(issues: seq<Issue>, depth: nat) {
    forall i | 0 <= i < |issues| :: !issues[i].level.Error? && |issues[i].path| >= depth
  }

  lemma {:induction false} SaidIsModest<T>(outcomes: seq<Outcome<T>>, depth: nat)
    requires forall i | 0 <= i < |outcomes| :: Modest(outcomes[i].issues, depth)
    ensures Modest(Said(outcomes), depth)
  {
    if outcomes != [] {
      assert forall i | 0 <= i < |outcomes[1..]| :: outcomes[1..][i] == outcomes[i + 1];
      SaidIsModest(outcomes[1..], depth);
    }
  }

  lemma PortsAreModest(c: Context, v: Json)
    ensures Modest(PortIssues(c.rt, v, c.path), |c.path|)
  {
    hide PortOutcome, Said;
    forall entry: Json ensures Modest(PortOutcome(c.rt, entry, c.path).issues, |c.path|) { PortIsModest(c, entry); }
    SaidIsModest(PortOutcomes(c.rt, Items(v), c.path), |c.path|);
  }

  lemma PortIsModest(c: Context, entry: Json)
    ensures Modest(PortOutcome(c.rt, entry, c.path).issues, |c.path|)
  {
    hide Text, Get, Split, LastIndexOf, Number, MakePort;
  }

  lemma MountsAreModest(c: Context, v: Json)
    ensures Modest(MountIssues(c.rt, v, c.path), |c.path|)
  {
    hide Text, Get, Split, IsBindSource;
    SaidIsModest(MountOutcomes(c.rt, Items(v), c.path), |c.path|);
  }

  lemma VariablesAreModest(c: Context, v: Json)
    ensures Modest(VariablesPiece(c, v).issues, |c.path|)
  {
    hide Text, IndexOf;
    SaidIsModest(VariableOutcomes(c, v), |c.path|);
  }

  lemma PieceIsModest(c: Context, kind: Kind, v: Json)
    ensures Modest(PieceOf(c, kind, v).issues, |c.path|)
  {
    hide Text, Split, VariablesPiece, Ports, PortIssues, Mounts, MountIssues, Get, TestOf, Clamp, Restricted,
      DurationOr, Retries;
    PortsAreModest(c, v);
    MountsAreModest(c, v);
    VariablesAreModest(c, v);
  }

  lemma {:induction false} KeyIssuesAreModest(c: Context, raw: seq<Field>, keys: seq<string>)
    ensures Modest(KeyIssues(c, raw, keys), |c.path| + 1)
  {
    hide PieceOf, KindOf, Get;
    if keys != [] {
      var key := keys[|keys| - 1];
      KeyIssuesAreModest(c, raw, keys[..|keys| - 1]);
      PieceIsModest(c.(path := c.path + [key]), KindOf(key), Get(raw, key));
    }
  }

  /** An issue that says that a service was left out. */
  predicate IsSkip(issue: Issue, name: string) {
    issue.path == ["services", name] || (issue.path == ["services", name, "image"] && issue.level.Error?)
  }

  function SkipsOf(issues: seq<Issue>, name: string): nat {
    if issues == [] then 0
    else SkipsOf(issues[..|issues| - 1], name) + if IsSkip(issues[|issues| - 1], name) then 1 else 0
  }

  function DraftsOf(services: seq<Service>, name: string): nat {
    if services == [] then 0
    else DraftsOf(services[..|services| - 1], name) + if services[|services| - 1].name == name then 1 else 0
  }

  function Occurrences(names: seq<string>, name: string): nat {
    if names == [] then 0 else Occurrences(names[..|names| - 1], name) + if names[|names| - 1] == name then 1 else 0
  }

  lemma {:induction false} SkipsOfAppend(a: seq<Issue>, b: seq<Issue>, name: string)
    ensures SkipsOf(a + b, name) == SkipsOf(a, name) + SkipsOf(b, name)
  {
    if b == [] {
      assert a + b == a;
    } else {
      assert (a + b)[..|a + b| - 1] == a + b[..|b| - 1];
      SkipsOfAppend(a, b[..|b| - 1], name);
    }
  }

  lemma {:induction false} NoSkips(issues: seq<Issue>, name: string)
    requires forall i | 0 <= i < |issues| :: !IsSkip(issues[i], name)
    ensures SkipsOf(issues, name) == 0
  {
    if issues != [] { NoSkips(issues[..|issues| - 1], name); }
  }

  lemma ServiceSkips(f: File, name: string, other: string)
    ensures SkipsOf(ServiceIssues(f, other), name) == if other == name && !Importable(f, other) then 1 else 0
  {
    hide Get, KeyIssues, Text, DefaultIsReported, ValidName;
    var issue := SkipIssue(other, Raw(f, other));
    if issue.Some? {
      assert ServiceIssues(f, other) == [issue.value] && [issue.value][..0] == [];
      assert issue.value.path[1] == other;
    } else {
      KeyIssuesAreModest(At(f, other), FieldsOf(Raw(f, other)), KEYS);
      NoSkips(ServiceIssues(f, other), name);
    }
  }

  lemma {:induction false} ServicesBalance(f: File, order: seq<string>, name: string)
    ensures DraftsOf(Services(f, order), name) == if Importable(f, name) then Occurrences(order, name) else 0
    ensures SkipsOf(AllServiceIssues(f, order), name) == if Importable(f, name) then 0 else Occurrences(order, name)
  {
    hide ServiceOf, ServiceIssues, Importable, IsSkip;
    if order != [] {
      var last := |order| - 1;
      var other, before, services := order[last], Services(f, order[..last]), Services(f, order);
      ServicesBalance(f, order[..last], name);
      ServiceSkips(f, name, other);
      SkipsOfAppend(AllServiceIssues(f, order[..last]), ServiceIssues(f, other), name);
      if Importable(f, other) {
        NameOf(f, other, last);
        assert services[..|services| - 1] == before;
      } else {
        assert services == before;
      }
    }
  }

  lemma {:induction false} OccursOnce(names: seq<string>, name: string)
    requires NoDuplicates(names)
    ensures Occurrences(names, name) == if name in names then 1 else 0
  {
    if names != [] {
      var front, last := names[..|names| - 1], names[|names| - 1];
      assert names == front + [last];
      OccursOnce(front, name);
    }
  }

  lemma DraftIssuesSkipNothing(rt: Runtime, doc: Json, services: seq<Service>, name: string)
    ensures SkipsOf(DraftIssues(rt, doc, services), name) == 0
  {
    hide Get, Missing, SkipsOf, TopLevel, IsSkip;
    var n, v := TopLevelIssues(rt, doc, "networks"), TopLevelIssues(rt, doc, "volumes");
    var b, s := BareIssues(Missing(rt, doc, services)), SharedNetworkIssues(TopLevel(rt, doc, "networks"), services);
    TopLevelSkipsNothing(rt, "networks", FieldsOf(Member(doc, "networks")), name);
    TopLevelSkipsNothing(rt, "volumes", FieldsOf(Member(doc, "volumes")), name);
    forall i | 0 <= i < |b| ensures !IsSkip(b[i], name) { NoSkipElsewhere(b[i], name); }
    NoSkipElsewhere(Issue(Defaulted, ["networks"], Plain), name);
    NoSkips(n, name);
    NoSkips(v, name);
    NoSkips(b, name);
    NoSkips(s, name);
    SkipsOfAppend(n, v, name);
    SkipsOfAppend(n + v, b, name);
    SkipsOfAppend(n + v + b, s, name);
  }

  lemma {:induction false} TopLevelSkipsNothing(rt: Runtime, section: string, fields: seq<Field>, name: string)
    requires section != "services"
    ensures forall i | 0 <= i < |DeclaredIssues(rt, section, fields)| ::
      !IsSkip(DeclaredIssues(rt, section, fields)[i], name)
  {
    hide Get, Text, IsSkip;
    if fields != [] {
      TopLevelSkipsNothing(rt, section, fields[1..], name);
      var outcomes := NamedOutcomes(rt, section, fields);
      assert outcomes[1..] == NamedOutcomes(rt, section, fields[1..]);
      NoSkipElsewhere(Issue(Unsupported, [section, fields[0].key], Plain), name);
      assert DeclaredIssues(rt, section, fields) == outcomes[0].issues + DeclaredIssues(rt, section, fields[1..]);
    }
  }

  lemma NoSkipElsewhere(issue: Issue, name: string)
    requires issue.path != [] && issue.path[0] != "services"
    ensures !IsSkip(issue, name)
  {
  }

  function ServicesIn(r: Result): seq<Service> { if r.draft.Some? then r.draft.value.services else [] }

  /**
   * Every service of a file is drafted once, or left out by exactly one issue that says so, never both; which of the
   * two depends on the service alone.
   */
  lemma EveryServiceIsAccountedFor(rt: Runtime, doc: Json, name: string)
    requires NoDuplicates(FileOf(rt, doc).names) && name in FileOf(rt, doc).names
    ensures var r := Import(rt, doc);
      && DraftsOf(ServicesIn(r), name) == (if Importable(FileOf(rt, doc), name) then 1 else 0)
      && DraftsOf(ServicesIn(r), name) + SkipsOf(r.issues, name) == 1
  {
    hide Services, AllServiceIssues, Importable, DraftIssues, SkipsOf, DraftsOf, NoDuplicates, OrderOf;
    var f := FileOf(rt, doc);
    NamesIffFields(f.raw);
    OrderHolds(f);
    ServicesBalance(f, OrderOf(f), name);
    OccursOnce(OrderOf(f), name);
    FileIssuesSkip(rt, doc, name);
    DraftIssuesSkipNothing(rt, doc, Drafts(f), name);
    hide FileIssues, FileOf;
    SkipsOfAppend(FileIssues(rt, doc), DraftIssues(rt, doc, Drafts(f)), name);
    var failure := [Issue(Error, ["services"], Plain)];
    NoSkips(failure, name);
    SkipsOfAppend(FileIssues(rt, doc), failure, name);
    NothingDrafted(name);
  }

  lemma FileIssuesSkip(rt: Runtime, doc: Json, name: string)
    ensures SkipsOf(FileIssues(rt, doc), name)
      == SkipsOf(AllServiceIssues(FileOf(rt, doc), OrderOf(FileOf(rt, doc))), name)
  {
    hide AllServiceIssues, SkipsOf, OrderOf, Search, FileOf;
    var f := FileOf(rt, doc);
    NoSkips(VersionIssues(doc) + CycleOf(f), name);
    SkipsOfAppend(VersionIssues(doc) + CycleOf(f), AllServiceIssues(f, OrderOf(f)), name);
  }

  lemma NothingDrafted(name: string)
    ensures DraftsOf([], name) == 0
  {
  }
}
