/** What an import says of the document as a whole. */
module ComposeReports {
  import opened Sequences
  import opened Json
  import opened ImportIssues
  import opened ImportOutcomes
  import opened ComposeText
  import opened ComposeService
  import opened DependencyOrder
  import opened ComposeImport
  import opened ComposeLaws
  import opened ComposeLosses

  ghost predicate Says(issues: seq<Issue>, level: Level, path: seq<string>) {
    exists i :: 0 <= i < |issues| && issues[i].level == level && issues[i].path == path
  }

  lemma SaysAppend(a: seq<Issue>, b: seq<Issue>, level: Level, path: seq<string>)
    ensures Says(a + b, level, path) <==> Says(a, level, path) || Says(b, level, path)
  {
    if i :| 0 <= i < |a| && a[i].level == level && a[i].path == path { assert (a + b)[i] == a[i]; }
    if i :| 0 <= i < |b| && b[i].level == level && b[i].path == path { assert (a + b)[|a| + i] == b[i]; }
  }

  lemma SaysNothing(level: Level, path: seq<string>)
    ensures !Says([], level, path)
  {
  }

  lemma SaysOne(issue: Issue, level: Level, path: seq<string>)
    ensures Says([issue], level, path) <==> issue.level == level && issue.path == path
  {
    assert [issue][0] == issue;
  }

  /** What is said about services is about something below them; what is no more than the service itself is a skip. */
  predicate Deep(issues: seq<Issue>) {
    forall i | 0 <= i < |issues| :: |issues[i].path| >= (if issues[i].level in {Error, Unsupported} then 2 else 3)
  }

  lemma ServiceIssuesAreDeep(f: File, name: string)
    ensures Deep(ServiceIssues(f, name))
  {
    hide Get, KeyIssues, Text, DefaultIsReported, ValidName;
    KeyIssuesAreModest(At(f, name), FieldsOf(Raw(f, name)), KEYS);
  }

  lemma {:induction false} AllServiceIssuesAreDeep(f: File, order: seq<string>)
    ensures Deep(AllServiceIssues(f, order))
  {
    hide ServiceIssues;
    if order != [] {
      AllServiceIssuesAreDeep(f, order[..|order| - 1]);
      ServiceIssuesAreDeep(f, order[|order| - 1]);
    }
  }

  lemma DeepSaysNothing(issues: seq<Issue>, level: Level, path: seq<string>)
    requires Deep(issues) && level in {Lossy, Defaulted} && |path| < 3
    ensures !Says(issues, level, path)
  {
  }

  lemma SectionSays(rt: Runtime, section: string, fields: seq<Field>, level: Level, path: seq<string>)
    requires level in {Lossy, Defaulted}
    ensures !Says(DeclaredIssues(rt, section, fields), level, path)
  {
    hide DeclaredIssues, Declared;
    SectionConserves(rt, section, fields);
  }

  lemma BareSays(names: seq<string>, level: Level, path: seq<string>)
    ensures Says(BareIssues(names), level, path) <==>
      level == Defaulted && exists x :: x in names && path == ["volumes", x]
  {
    if x :| x in names && level == Defaulted && path == ["volumes", x] {
      var i :| 0 <= i < |names| && names[i] == x;
      assert BareIssues(names)[i].path == path;
    }
    if i :| 0 <= i < |names| && BareIssues(names)[i].level == level && BareIssues(names)[i].path == path {
      assert names[i] in names;
    }
  }

  /** What is said about the draft as a whole, apart from entries that are skipped. */
  lemma DraftSays(rt: Runtime, doc: Json, services: seq<Service>, level: Level, path: seq<string>)
    requires level in {Lossy, Defaulted}
    ensures Says(DraftIssues(rt, doc, services), level, path) <==>
      level == Defaulted
      && ((exists x :: x in Missing(rt, doc, services) && path == ["volumes", x])
          || (path == ["networks"] && TopLevel(rt, doc, "networks") == [] && |services| > 1))
  {
    hide Says, Missing, BareIssues, Declared, DeclaredIssues, Member;
    var n, v := TopLevelIssues(rt, doc, "networks"), TopLevelIssues(rt, doc, "volumes");
    var b, s := BareIssues(Missing(rt, doc, services)), SharedNetworkIssues(TopLevel(rt, doc, "networks"), services);
    SectionSays(rt, "networks", FieldsOf(Member(doc, "networks")), level, path);
    SectionSays(rt, "volumes", FieldsOf(Member(doc, "volumes")), level, path);
    BareSays(Missing(rt, doc, services), level, path);
    SaysOne(Issue(Defaulted, ["networks"], Plain), level, path);
    SaysNothing(level, path);
    SaysAppend(n, v, level, path);
    SaysAppend(n + v, b, level, path);
    SaysAppend(n + v + b, s, level, path);
  }

  lemma FileSays(rt: Runtime, doc: Json, level: Level, path: seq<string>)
    requires level in {Lossy, Defaulted} && |path| < 3
    ensures Says(FileIssues(rt, doc), level, path) <==>
      (level == Defaulted && path == ["version"] && !Nullish(Member(doc, "version")))
      || (level == Lossy && path == ["services"] && HasCycle(FileOf(rt, doc).names, GraphOf(FileOf(rt, doc))))
  {
    hide Says, HasCycle, FileOf, Member, Order, Search, AllServiceIssues, SortedWell, Lasso;
    var f := FileOf(rt, doc);
    OrderIsSorted(f.names, GraphOf(f));
    AllServiceIssuesAreDeep(f, OrderOf(f));
    DeepSaysNothing(AllServiceIssues(f, OrderOf(f)), level, path);
    SaysNothing(level, path);
    SaysOne(Issue(Defaulted, ["version"], Plain), level, path);
    var cycle := Search(f.names, GraphOf(f)).cycle;
    if cycle.Some? { SaysOne(Issue(Lossy, ["services"], Cycle(cycle.value)), level, path); }
    SaysAppend(VersionIssues(doc), CycleOf(f), level, path);
    SaysAppend(VersionIssues(doc) + CycleOf(f), AllServiceIssues(f, OrderOf(f)), level, path);
  }

  /**
   * What a file with services makes the import say of it as a whole: that its version is of no use exactly if it has
   * one, that its services depend on each other in a cycle exactly if they do; and once there is a draft, that a volume
   * was declared for the user exactly if a drafted service mounts it and the document does not declare it, and that
   * there is no network exactly if there is none for several services.
   */
  lemma DocumentIsReportedIff(rt: Runtime, doc: Json, x: string)
    requires FieldsOf(Member(doc, "services")) != []
    ensures var r, f := Import(rt, doc), FileOf(rt, doc);
      && (Says(r.issues, Defaulted, ["version"]) <==> !Nullish(Member(doc, "version")))
      && (Says(r.issues, Lossy, ["services"]) <==> HasCycle(f.names, GraphOf(f)))
      && (r.ok ==> r.draft.Some?)
      && (Says(r.issues, Defaulted, ["volumes", x]) <==>
            r.ok && x in Referenced(r.draft.value.services) && x !in NamesOf(TopLevel(rt, doc, "volumes")))
      && (Says(r.issues, Defaulted, ["networks"]) <==>
            r.ok && r.draft.value.networks == [] && |r.draft.value.services| > 1)
  {
    hide Says, HasCycle, FileOf, FileIssues, DraftIssues, Services, OrderOf, Referenced, TopLevel, Member, NamesOf,
         Bare, Undeclared, FieldsOf;
    var services, failure := Drafts(FileOf(rt, doc)), Issue(Error, ["services"], Plain);
    UndeclaredAre(NamesOf(TopLevel(rt, doc, "volumes")), Referenced(services));
    Reported(rt, doc, Defaulted, ["version"]);
    Reported(rt, doc, Lossy, ["services"]);
    Reported(rt, doc, Defaulted, ["volumes", x]);
    Reported(rt, doc, Defaulted, ["networks"]);
    Paths(x);
  }

  lemma Paths(x: string)
    ensures ["version"] != ["networks"] && ["version"][0] != "services" && |["volumes", x]| == 2
    ensures forall y :: ["volumes", x] == ["volumes", y] <==> x == y
  {
    assert |"version"| != |"networks"|;
    forall y ensures ["volumes", x] == ["volumes", y] <==> x == y {
      assert ["volumes", x][1] == x && ["volumes", y][1] == y;
    }
  }

  lemma Reported(rt: Runtime, doc: Json, level: Level, path: seq<string>)
    requires FieldsOf(Member(doc, "services")) != [] && level in {Lossy, Defaulted} && 0 < |path| < 3
    ensures var r, services := Import(rt, doc), Drafts(FileOf(rt, doc));
      && (r.ok <==> services != []) && (r.ok ==> r.draft == Some(DraftOf(rt, doc, services)))
      && (Says(r.issues, level, path) <==>
            || (level == Defaulted && path == ["version"] && !Nullish(Member(doc, "version")))
            || (level == Lossy && path == ["services"] && HasCycle(FileOf(rt, doc).names, GraphOf(FileOf(rt, doc))))
            || (r.ok && level == Defaulted
                && ((exists y :: y in Missing(rt, doc, services) && path == ["volumes", y])
                    || (path == ["networks"] && TopLevel(rt, doc, "networks") == [] && |services| > 1))))
  {
    hide Says, HasCycle, FileOf, FileIssues, DraftIssues, Services, OrderOf, Member, DraftOf, Missing, TopLevel;
    var services, failure := Drafts(FileOf(rt, doc)), Issue(Error, ["services"], Plain);
    assert doc.Obj? by { SomeServices(doc); }
    FileSays(rt, doc, level, path);
    DraftSays(rt, doc, services, level, path);
    SaysOne(failure, level, path);
    SaysAppend(FileIssues(rt, doc), [failure], level, path);
    SaysAppend(FileIssues(rt, doc), DraftIssues(rt, doc, services), level, path);
  }

  lemma SomeServices(doc: Json)
    requires FieldsOf(Member(doc, "services")) != []
    ensures doc.Obj?
  {
  }

  /** The names that a service may have. */
  ghost predicate PlainName(name: string) {
    name != "" && forall c | c in name :: 'a' <= c <= 'z' || 'A' <= c <= 'Z' || '0' <= c <= '9' || c == '_' || c == '-'
  }

  /** Which services are imported, and what is said of one that is not: a single issue that tells why. */
  lemma WhySkipped(f: File, name: string)
    ensures var raw := Raw(f, name);
      && (Importable(f, name) <==> raw.Obj? && PlainName(name) && !Nullish(Member(raw, "image")))
      && (!raw.Obj? ==> ServiceIssues(f, name) == [Issue(Unsupported, ["services", name], Plain)])
      && (raw.Obj? && !PlainName(name) ==> ServiceIssues(f, name) == [Issue(Error, ["services", name], Plain)])
      && (raw.Obj? && PlainName(name) && Nullish(Member(raw, "image")) ==>
            ServiceIssues(f, name) == [Issue(Error, ["services", name, "image"],
              if Nullish(Member(raw, "build")) then Plain else BuildOnly)])
  {
    hide Get, KeyIssues, Text, DefaultIsReported;
    assert PlainName(name) <==> ValidName(name) by {
      if ValidName(name) { forall c | c in name ensures NameChar(c) { } }
      forall i | 0 <= i < |name| ensures name[i] in name { }
    }
  }
}
