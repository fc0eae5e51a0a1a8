/** What an import loses in silence: the keys that can be deleted from a document without any effect on the result. */
module ComposeLosses {
  import opened Sequences
  import opened Json
  import opened ImportIssues
  import opened ImportOutcomes
  import opened ComposeText
  import opened ComposePorts
  import opened ComposeMounts
  import opened ComposeService
  import opened ComposeImport
  import opened ComposeLaws

  // Keys of the document

  /** What each of the four keys is read for. */
  lemma SameParts(rt: Runtime, a: seq<Field>, b: seq<Field>, k: string)
    requires Get(a, k) == Get(b, k)
    ensures k == "services" ==>
      FileOf(rt, Obj(a)) == FileOf(rt, Obj(b))
        && FieldsOf(Member(Obj(a), "services")) == FieldsOf(Member(Obj(b), "services"))
    ensures k == "version" ==> VersionIssues(Obj(a)) == VersionIssues(Obj(b))
    ensures TopLevel(rt, Obj(a), k) == TopLevel(rt, Obj(b), k)
      && TopLevelIssues(rt, Obj(a), k) == TopLevelIssues(rt, Obj(b), k)
  {
    hide Get, Keys, Declared, DeclaredIssues;
  }

  /** Every entry of a top-level section is declared in the draft or reported as skipped, once. */
  lemma {:induction false} SectionConserves(rt: Runtime, section: string, fields: seq<Field>)
    ensures |Declared(rt, section, fields)| + |DeclaredIssues(rt, section, fields)| == |fields|
    ensures forall i | 0 <= i < |DeclaredIssues(rt, section, fields)| ::
      DeclaredIssues(rt, section, fields)[i].level.Unsupported?
  {
    hide Get, Text;
    if fields != [] {
      SectionConserves(rt, section, fields[1..]);
      assert NamedOutcomes(rt, section, fields)[1..] == NamedOutcomes(rt, section, fields[1..]);
    }
  }

  /**
   * When deleting a key of a document, whose value is not null, has no effect. Only four keys are read; a file without
   * services is rejected before anything else is looked at, and networks and volumes are looked at only for a draft.
   */
  ghost predicate TopKeyInert(rt: Runtime, fields: seq<Field>, key: string) {
    if key == "services" || key == "version" then FieldsOf(Get(fields, "services")) == []
    else if key == "networks" || key == "volumes" then
      FieldsOf(Get(fields, key)) == [] || !SomeImportable(FileOf(rt, Obj(fields)))
    else true
  }

  lemma ServicesKey(rt: Runtime, fields: seq<Field>)
    ensures Import(rt, Obj(Without(fields, "services"))) == Import(rt, Obj(fields)) <==>
      FieldsOf(Get(fields, "services")) == []
  {
    hide Get, Services, AllServiceIssues, OrderOf, CycleOf, DraftOf, DraftIssues, FileOf, Without;
    GetWithout(fields, "services", "services");
    if FieldsOf(Get(fields, "services")) != [] && !Import(rt, Obj(fields)).ok {
      RejectionsAreReported(rt, Obj(fields));
    }
  }

  /** A document whose services are all skipped is rejected with an issue for each of them. */
  lemma RejectionsAreReported(rt: Runtime, doc: Json)
    requires FieldsOf(Member(doc, "services")) != [] && !Import(rt, doc).ok
    ensures |Import(rt, doc).issues| >= 2
  {
    hide Get, OrderOf, CycleOf, DraftOf, DraftIssues, VersionIssues, Importable, Keys, AllServiceIssues, Services;
    var f := FileOf(rt, doc);
    ImportSucceedsIff(rt, doc);
    NamesIffFields(f.raw);
    OrderHolds(f);
    assert f.names[0] in OrderOf(f);
    SkippedAreReported(f, OrderOf(f));
  }

  lemma SkippedAreReported(f: File, order: seq<string>)
    requires order != [] && !Importable(f, order[|order| - 1])
    ensures AllServiceIssues(f, order) != []
  {
    hide SkipIssue, ImageIssues, KeyIssues;
  }

  /** What the services and the version key determine. */
  lemma SameFile(rt: Runtime, a: seq<Field>, b: seq<Field>)
    requires Get(a, "services") == Get(b, "services") && Get(a, "version") == Get(b, "version")
    ensures FileOf(rt, Obj(a)) == FileOf(rt, Obj(b)) && FileIssues(rt, Obj(a)) == FileIssues(rt, Obj(b))
    ensures FieldsOf(Member(Obj(a), "services")) == FieldsOf(Member(Obj(b), "services"))
  {
    hide Get, AllServiceIssues, OrderOf, CycleOf, FileOf;
    SameParts(rt, a, b, "services");
    SameParts(rt, a, b, "version");
  }

  /**
   * With the same services and version, two documents are imported alike exactly if no draft is made or the same one.
   */
  lemma ImportsDiffer(rt: Runtime, a: seq<Field>, b: seq<Field>)
    requires Get(a, "services") == Get(b, "services") && Get(a, "version") == Get(b, "version")
    ensures var services := Drafts(FileOf(rt, Obj(a)));
      Import(rt, Obj(a)) == Import(rt, Obj(b)) <==>
      !SomeImportable(FileOf(rt, Obj(a)))
      || (DraftOf(rt, Obj(a), services) == DraftOf(rt, Obj(b), services)
          && DraftIssues(rt, Obj(a), services) == DraftIssues(rt, Obj(b), services))
  {
    SameFile(rt, a, b);
    ImportSucceedsIff(rt, Obj(a));
    hide Get, Services, FileIssues, OrderOf, DraftOf, DraftIssues, FileOf, SomeImportable, FieldsOf;
    var services := Drafts(FileOf(rt, Obj(a)));
    SamePrefix(FileIssues(rt, Obj(a)), DraftIssues(rt, Obj(a), services), DraftIssues(rt, Obj(b), services));
  }

  lemma SameDraft(rt: Runtime, a: seq<Field>, b: seq<Field>, services: seq<Service>)
    requires Get(a, "networks") == Get(b, "networks") && Get(a, "volumes") == Get(b, "volumes")
    ensures DraftOf(rt, Obj(a), services) == DraftOf(rt, Obj(b), services)
    ensures DraftIssues(rt, Obj(a), services) == DraftIssues(rt, Obj(b), services)
  {
    SameParts(rt, a, b, "networks");
    SameParts(rt, a, b, "volumes");
    hide Get, TopLevel, TopLevelIssues, Undeclared, Referenced, Bare, BareIssues, NamesOf;
  }

  /** Two documents that agree on the four keys that are read are imported alike. */
  lemma ImportReads(rt: Runtime, a: seq<Field>, b: seq<Field>)
    requires forall k | k in {"services", "version", "networks", "volumes"} :: Get(a, k) == Get(b, k)
    ensures Import(rt, Obj(a)) == Import(rt, Obj(b))
  {
    hide Get, Import, DraftOf, DraftIssues, FileOf, Services, SomeImportable;
    assert forall k | k in {"services", "version", "networks", "volumes"} :: Get(a, k) == Get(b, k);
    SameDraft(rt, a, b, Drafts(FileOf(rt, Obj(a))));
    ImportsDiffer(rt, a, b);
  }

  lemma VersionKey(rt: Runtime, fields: seq<Field>)
    requires !Nullish(Get(fields, "version"))
    ensures Import(rt, Obj(Without(fields, "version"))) == Import(rt, Obj(fields)) <==>
      FieldsOf(Get(fields, "services")) == []
  {
    hide Get, Services, AllServiceIssues, OrderOf, CycleOf, FileOf, Without, DraftOf, DraftIssues, FieldsOf;
    var rest := Without(fields, "version");
    GetWithout(fields, "version", "version");
    GetWithout(fields, "version", "services");
    GetWithout(fields, "version", "networks");
    GetWithout(fields, "version", "volumes");
    SameParts(rt, fields, rest, "services");
    SameDraft(rt, fields, rest, Drafts(FileOf(rt, Obj(fields))));
    assert |FileIssues(rt, Obj(fields))| == |FileIssues(rt, Obj(rest))| + 1;
    hide FileIssues;
    if FieldsOf(Get(fields, "services")) != [] {
      assert |Import(rt, Obj(fields)).issues| == |Import(rt, Obj(rest)).issues| + 1;
    }
  }

  lemma SectionOfNothing(rt: Runtime, fields: seq<Field>, section: string)
    requires FieldsOf(Get(fields, section)) == []
    ensures TopLevel(rt, Obj(fields), section) == [] && TopLevelIssues(rt, Obj(fields), section) == []
  {
    SectionConserves(rt, section, []);
  }

  lemma SectionOfSomething(rt: Runtime, fields: seq<Field>, section: string)
    requires FieldsOf(Get(fields, section)) != []
    ensures |TopLevel(rt, Obj(fields), section)| + |TopLevelIssues(rt, Obj(fields), section)| > 0
    ensures var issues := TopLevelIssues(rt, Obj(fields), section);
      forall i | 0 <= i < |issues| :: issues[i].level.Unsupported?
  {
    SectionConserves(rt, section, FieldsOf(Get(fields, section)));
  }

  lemma NetworksKey(rt: Runtime, fields: seq<Field>)
    ensures Import(rt, Obj(Without(fields, "networks"))) == Import(rt, Obj(fields)) <==>
      FieldsOf(Get(fields, "networks")) == [] || !SomeImportable(FileOf(rt, Obj(fields)))
  {
    hide Get, Without, TopLevel, TopLevelIssues, SomeImportable, FileOf, Services, Bare, BareIssues, Undeclared,
         Referenced, NamesOf, Import, FieldsOf;
    var rest := Without(fields, "networks");
    GetWithout(fields, "networks", "networks");
    GetWithout(fields, "networks", "services");
    GetWithout(fields, "networks", "version");
    GetWithout(fields, "networks", "volumes");
    SameParts(rt, fields, rest, "volumes");
    ImportsDiffer(rt, fields, rest);
    assert FieldsOf(Undefined) == [] by { NoFields(); }
    SectionOfNothing(rt, rest, "networks");
    if FieldsOf(Get(fields, "networks")) == [] { SectionOfNothing(rt, fields, "networks"); }
    else { SectionOfSomething(rt, fields, "networks"); }
  }

  lemma NoFields()
    ensures FieldsOf(Undefined) == []
  {
  }

  lemma VolumesKey(rt: Runtime, fields: seq<Field>)
    ensures Import(rt, Obj(Without(fields, "volumes"))) == Import(rt, Obj(fields)) <==>
      FieldsOf(Get(fields, "volumes")) == [] || !SomeImportable(FileOf(rt, Obj(fields)))
  {
    hide Get, Without, TopLevel, TopLevelIssues, SomeImportable, FileOf, Services, Bare, BareIssues, Undeclared,
         Referenced, NamesOf, Import, FieldsOf, Missing;
    var rest := Without(fields, "volumes");
    GetWithout(fields, "volumes", "volumes");
    GetWithout(fields, "volumes", "services");
    GetWithout(fields, "volumes", "version");
    GetWithout(fields, "volumes", "networks");
    SameParts(rt, fields, rest, "networks");
    ImportsDiffer(rt, fields, rest);
    assert FieldsOf(Undefined) == [] by { NoFields(); }
    SectionOfNothing(rt, rest, "volumes");
    var services := Drafts(FileOf(rt, Obj(fields)));
    if FieldsOf(Get(fields, "volumes")) == [] {
      SectionOfNothing(rt, fields, "volumes");
      SameMissing(rt, fields, rest, services);
    } else {
      SectionOfSomething(rt, fields, "volumes");
      SkipsAreNotDefaults(rt, fields, rest, services);
    }
  }

  lemma SameMissing(rt: Runtime, a: seq<Field>, b: seq<Field>, services: seq<Service>)
    requires TopLevel(rt, Obj(a), "volumes") == TopLevel(rt, Obj(b), "volumes")
    ensures Missing(rt, Obj(a), services) == Missing(rt, Obj(b), services)
  {
  }

  /** Volumes that were declared or skipped cannot be mistaken for volumes that are declared for the user. */
  lemma SkipsAreNotDefaults(rt: Runtime, a: seq<Field>, b: seq<Field>, services: seq<Service>)
    requires TopLevel(rt, Obj(a), "networks") == TopLevel(rt, Obj(b), "networks")
    requires TopLevelIssues(rt, Obj(a), "networks") == TopLevelIssues(rt, Obj(b), "networks")
    requires TopLevel(rt, Obj(b), "volumes") == [] && TopLevelIssues(rt, Obj(b), "volumes") == []
    requires |TopLevel(rt, Obj(a), "volumes")| + |TopLevelIssues(rt, Obj(a), "volumes")| > 0
    requires var issues := TopLevelIssues(rt, Obj(a), "volumes");
      forall i | 0 <= i < |issues| :: issues[i].level.Unsupported?
    ensures DraftOf(rt, Obj(a), services) != DraftOf(rt, Obj(b), services)
         || DraftIssues(rt, Obj(a), services) != DraftIssues(rt, Obj(b), services)
  {
    hide TopLevel, TopLevelIssues, Missing, SharedNetworkIssues, Bare, BareIssues;
    var n, v := TopLevelIssues(rt, Obj(a), "networks"), TopLevelIssues(rt, Obj(a), "volumes");
    var x, y := BareIssues(Missing(rt, Obj(a), services)), BareIssues(Missing(rt, Obj(b), services));
    var s := SharedNetworkIssues(TopLevel(rt, Obj(a), "networks"), services);
    if v != [] { SkipIsNoDefault(n, v, x, y, s); }
    assert DraftIssues(rt, Obj(a), services) == n + v + x + s && DraftIssues(rt, Obj(b), services) == n + [] + y + s;
    if v == [] && |x| == |y| {
      assert |DraftOf(rt, Obj(a), services).volumes| > |DraftOf(rt, Obj(b), services).volumes|;
    }
  }

  lemma SkipIsNoDefault(n: seq<Issue>, v: seq<Issue>, x: seq<Issue>, y: seq<Issue>, s: seq<Issue>)
    requires v != [] && v[0].level.Unsupported?
    requires forall i | 0 <= i < |y| :: y[i].level.Defaulted?
    ensures n + v + x + s != n + [] + y + s
  {
    assert (n + v + x + s)[|n|] == v[0];
    if y != [] { assert (n + [] + y + s)[|n|] == y[0]; }
  }

  /** The keys of a document that are lost in silence are exactly the inert ones. */
  lemma TopLevelKeyIsLostIff(rt: Runtime, fields: seq<Field>, key: string)
    requires !Nullish(Get(fields, key))
    ensures Import(rt, Obj(Without(fields, key))) == Import(rt, Obj(fields)) <==> TopKeyInert(rt, fields, key)
  {
    hide Get, Without, Import, SomeImportable, FieldsOf, FileOf;
    if key == "services" { ServicesKey(rt, fields); }
    else if key == "version" { VersionKey(rt, fields); }
    else if key == "networks" { NetworksKey(rt, fields); }
    else if key == "volumes" { VolumesKey(rt, fields); }
    else {
      forall k | k in {"services", "version", "networks", "volumes"}
        ensures Get(Without(fields, key), k) == Get(fields, k)
      {
        GetWithout(fields, key, k);
      }
      ImportReads(rt, Without(fields, key), fields);
    }
  }

  // Keys of a network or volume

  /** When deleting a key of a network's or volume's settings has no effect. */
  predicate NamedKeyInert(rt: Runtime, settings: seq<Field>, key: string) {
    if key == "external" then Get(settings, key) != Bool(true)
    else if key == "driver" then Get(settings, "external") == Bool(true) || Text(rt, Get(settings, key)) == ""
    else true
  }

  /** Of a network's or volume's settings only `external` and `driver` are read; all others are lost in silence. */
  lemma NamedKeyIsLostIff(rt: Runtime, section: string, name: string, settings: seq<Field>, key: string)
    requires !Nullish(Get(settings, key))
    ensures (NamedOutcome(rt, section, Field(name, Obj(Without(settings, key))))
             == NamedOutcome(rt, section, Field(name, Obj(settings))))
       <==> NamedKeyInert(rt, settings, key)
  {
    hide Get, Without, Text;
    GetWithout(settings, key, "external");
    GetWithout(settings, key, "driver");
  }

  /** Settings that are no mapping are treated as none. */
  lemma NamedValueIsLost(rt: Runtime, section: string, name: string, v: Json)
    requires !v.Obj?
    ensures NamedOutcome(rt, section, Field(name, v)) == NamedOutcome(rt, section, Field(name, Null))
  {
  }

  // What a service loses in silence

  /** The same file with other fields under the name of one service. */
  function WithFields(f: File, name: string, fields: seq<Field>): File { f.(raw := Put(f.raw, name, Obj(fields))) }

  lemma RawOfChanged(f: File, name: string, fields: seq<Field>)
    ensures Raw(WithFields(f, name, fields), name) == Obj(fields)
  {
    GetPut(f.raw, name, Obj(fields), name);
  }

  lemma SamePrefix<T>(a: seq<T>, x: seq<T>, y: seq<T>)
    ensures a + x == a + y <==> x == y
  {
    assert (a + x)[|a|..] == x && (a + y)[|a|..] == y;
  }

  lemma KeptWithout(f: File, name: string, key: string)
    requires Importable(f, name) && key != "image"
    ensures var g := WithFields(f, name, Without(Raw(f, name).fields, key));
      Importable(g, name) && Reference(g, name) == Reference(f, name)
  {
    hide Get, Without, Text, ValidName;
    RawOfChanged(f, name, Without(Raw(f, name).fields, key));
    GetWithout(Raw(f, name).fields, key, "image");
  }

  lemma ImageIsNeverLost(f: File, name: string)
    requires Importable(f, name)
    ensures ServiceIssues(WithFields(f, name, Without(Raw(f, name).fields, "image")), name) != ServiceIssues(f, name)
  {
    hide Get, Without, Text, DefaultIsReported, KeyIssues, ValidName;
    var fields := Raw(f, name).fields;
    RawOfChanged(f, name, Without(fields, "image"));
    GetWithout(fields, "image", "image");
    KeyIssuesAreModest(At(f, name), fields, KEYS);
    var g := WithFields(f, name, Without(fields, "image"));
    assert ServiceIssues(g, name)[0].level.Error?;
    if ServiceIssues(f, name) != [] { assert !ServiceIssues(f, name)[0].level.Error?; }
  }

  /**
   * "Nothing is dropped silently" would say that every key with a value shows in the draft or in the issues. It does,
   * in that deleting the key would change what is made of the service or what is said about it, exactly unless the
   * key is one the importer does not know, or its value has a shape that the key does not read.
   */
  lemma KeyOfServiceIsLostIff(f: File, name: string, key: string, order: nat)
    requires Importable(f, name) && !Nullish(Get(Raw(f, name).fields, key))
    ensures var g := WithFields(f, name, Without(Raw(f, name).fields, key));
      ServiceOf(g, name, order) == ServiceOf(f, name, order) && ServiceIssues(g, name) == ServiceIssues(f, name)
      <==> key != "image" && Inert(At(f, name).(path := ["services", name, key]), KindOf(key),
        Get(Raw(f, name).fields, key))
  {
    var fields := Raw(f, name).fields;
    hide Get, Without, Text, DefaultIsReported, KeyIssues, Inert, KindOf, SplitImageRef, Settings, SkipIssue, Put;
    if key == "image" {
      ImageIsNeverLost(f, name);
    } else {
      var g := WithFields(f, name, Without(fields, key));
      KeptWithout(f, name, key);
      RawOfChanged(f, name, Without(fields, key));
      KeyIsLostSilentlyIff(At(f, name), fields, key);
      assert At(f, name).path + [key] == ["services", name, key];
      SamePrefix(ImageIssues(f, name), KeyIssues(At(f, name), fields, KEYS),
        KeyIssues(At(f, name), Without(fields, key), KEYS));
    }
  }

  /** Two such losses: a host name, and a list of ports that is written as a single text. */
  lemma {:induction false} HostnameIsLost(f: File, name: string, order: nat, key: string)
    requires Importable(f, name)
    requires (key == "hostname" && !Nullish(Get(Raw(f, name).fields, key)))
      || (key == "ports" && Get(Raw(f, name).fields, key).Str?)
    ensures var g := WithFields(f, name, Without(Raw(f, name).fields, key));
      ServiceOf(g, name, order) == ServiceOf(f, name, order) && ServiceIssues(g, name) == ServiceIssues(f, name)
  {
    KeyOfServiceIsLostIff(f, name, key, order);
    HostnameIsUnknown();
    PortsAreListed();
    hide WithFields, ServiceOf, ServiceIssues, Get, KindOf;
  }

  lemma HostnameIsUnknown()
    ensures KindOf("hostname") == Unknown
  {
  }

  lemma PortsAreListed()
    ensures KindOf("ports") == PortsKey
  {
  }
}
