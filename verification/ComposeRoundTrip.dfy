/** Importing a document that was written from a draft gives the draft back. */
module ComposeRoundTrip {
  import opened Sequences
  import opened Json
  import opened ImportIssues
  import opened ImportOutcomes
  import opened ComposeText
  import opened ComposeMounts
  import opened ComposeService
  import opened DependencyOrder
  import opened ComposeImport
  import opened ComposeLaws
  import opened ComposeWriter

  // A service

  /** A reference is written with its tag where that can be told from a port, and as a digest otherwise. */
  predicate IsTag(tag: string) { '@' !in tag && ':' !in tag && '/' !in tag }

  function Ref(image: ImageRef): string { image.image + (if IsTag(image.tag) then ":" else "@") + image.tag }

  ghost function KeyFields(settings: map<string, Setting>, keys: seq<string>): seq<Field> {
    if keys == [] then []
    else (if keys[0] in settings then [Field(keys[0], SettingJson(settings[keys[0]]))] else [])
         + KeyFields(settings, keys[1..])
  }

  ghost function ServiceFields(s: Service): seq<Field> {
    [Field("image", Str(Ref(s.image)))] + KeyFields(s.settings, KEYS)
  }

  ghost predicate ServiceFits(names: seq<string>, s: Service) {
    && ValidName(s.name) && '@' !in s.image.image
    && forall k | k in s.settings :: Fits(names, k, s.settings[k])
  }

  lemma {:induction false} KeyFieldsAt(settings: map<string, Setting>, keys: seq<string>, k: string)
    ensures Get(KeyFields(settings, keys), k)
         == if k in keys && k in settings then SettingJson(settings[k]) else Undefined
  {
    hide SettingJson;
    if keys != [] {
      var rest := KeyFields(settings, keys[1..]);
      KeyFieldsAt(settings, keys[1..], k);
      if keys[0] in settings { assert KeyFields(settings, keys)[1..] == rest; }
      else { assert KeyFields(settings, keys) == rest; }
    }
  }

  lemma FittingIsKnown(names: seq<string>, key: string, setting: Setting)
    requires Fits(names, key, setting)
    ensures key in KEYS && !KindOf(key).Unknown?
  {
    KindTable(key);
    KeysAreKnown(key);
  }

  lemma ServiceFieldsAt(names: seq<string>, s: Service, k: string)
    requires ServiceFits(names, s)
    ensures k == "image" ==> Get(ServiceFields(s), k) == Str(Ref(s.image))
    ensures k != "image" ==>
      Get(ServiceFields(s), k) == if k in s.settings then SettingJson(s.settings[k]) else Undefined
  {
    hide KeyFields, SettingJson, KEYS;
    if k in s.settings { FittingIsKnown(names, k, s.settings[k]); }
    KeyFieldsAt(s.settings, KEYS, k);
    assert ServiceFields(s)[1..] == KeyFields(s.settings, KEYS);
  }

  lemma ImageIsRead(image: ImageRef)
    requires '@' !in image.image
    ensures SplitImageRef(Ref(image)) == image && !DefaultIsReported(Ref(image))
  {
    hide LastIndexOf, IndexOf, SplitImageRef;
    if IsTag(image.tag) {
      SplitInvertsTag(image.image, image.tag);
      assert Ref(image)[|image.image|] == ':';
    } else {
      SplitInvertsDigest(image.image, image.tag);
      assert IsTag("latest");
    }
  }

  lemma {:induction false} SilentKeys(c: Context, raw: seq<Field>, keys: seq<string>)
    requires forall k | k in keys :: PieceAt(c, raw, k).issues == []
    ensures KeyIssues(c, raw, keys) == []
  {
    hide PieceAt;
    if keys != [] { SilentKeys(c, raw, keys[..|keys| - 1]); }
  }

  lemma KeysAreRead(c: Context, s: Service)
    requires ServiceFits(c.names, s)
    ensures Settings(c, ServiceFields(s), KEYS) == s.settings && KeyIssues(c, ServiceFields(s), KEYS) == []
  {
    hide PieceOf, KindOf, Fits, SettingJson, KEYS, Get, ServiceFields, Settings, KeyIssues;
    var raw := ServiceFields(s);
    ImageIsNoKey();
    forall k | k in KEYS
      ensures PieceAt(c, raw, k) == if k in s.settings then Piece(Some(s.settings[k]), []) else Nothing
    {
      ServiceFieldsAt(c.names, s, k);
      var at := c.(path := c.path + [k]);
      if k in s.settings { ReadInvertsWrite(at, k, s.settings[k]); }
      else { NothingForNullish(at, KindOf(k), Undefined); }
    }
    SilentKeys(c, raw, KEYS);
    forall k ensures k in Settings(c, raw, KEYS) <==> k in s.settings
             ensures k in s.settings ==> k in Settings(c, raw, KEYS) && Settings(c, raw, KEYS)[k] == s.settings[k]
    {
      SettingAt(c, raw, KEYS, k);
      if k in s.settings { FittingIsKnown(c.names, k, s.settings[k]); }
    }
  }

  lemma ImageIsNoKey()
    ensures "image" !in KEYS
  {
    KeysAreKnown("image");
  }

  // A draft

  function ServiceNames(services: seq<Service>): (r: seq<string>)
    ensures |r| == |services| && forall i | 0 <= i < |r| :: r[i] == services[i].name
  {
    seq(|services|, i requires 0 <= i < |services| => services[i].name)
  }

  ghost function ServicesJson(services: seq<Service>): (r: seq<Field>)
    ensures |r| == |services|
    ensures forall i | 0 <= i < |r| :: r[i] == Field(services[i].name, Obj(ServiceFields(services[i])))
  {
    seq(|services|, i requires 0 <= i < |services| => Field(services[i].name, Obj(ServiceFields(services[i]))))
  }

  function NamedJson(n: Named): Field {
    Field(n.name, if n.driver.Some? then Obj([Field("driver", Str(n.driver.value))]) else Null)
  }

  function NamedsJson(named: seq<Named>): (r: seq<Field>)
    ensures |r| == |named| && forall i | 0 <= i < |r| :: r[i] == NamedJson(named[i])
  {
    seq(|named|, i requires 0 <= i < |named| => NamedJson(named[i]))
  }

  ghost function WrittenDocument(draft: Draft): Json {
    Obj([Field("services", Obj(ServicesJson(draft.services))), Field("networks", Obj(NamedsJson(draft.networks))),
         Field("volumes", Obj(NamedsJson(draft.volumes)))])
  }

  predicate DriversOk(named: seq<Named>) { forall i | 0 <= i < |named| :: named[i].driver != Some("") }

  ghost predicate InPlace(names: seq<string>, s: Service, i: nat) {
    ServiceFits(names, s) && s.order == i <= |names| && forall d | d in DependsOn(s) :: d in names[..i]
  }

  /**
   * What a document can say of its services: distinct names, each at its place, dependencies before their dependents;
   * and every mounted volume is declared.
   */
  ghost predicate Expressible(draft: Draft) {
    var names := ServiceNames(draft.services);
    && names != [] && NoDuplicates(names)
    && (forall i | 0 <= i < |names| :: InPlace(names, draft.services[i], i))
    && DriversOk(draft.networks) && DriversOk(draft.volumes)
    && forall x | x in Referenced(draft.services) :: x in NamesOf(draft.volumes)
  }

  lemma {:induction false} KeysOfServices(fields: seq<Field>, names: seq<string>)
    requires |fields| == |names| && forall i | 0 <= i < |names| :: fields[i].key == names[i]
    ensures Keys(fields) == names
  {
    if names != [] { KeysOfServices(fields[1..], names[1..]); }
  }

  lemma ServiceIsRead(f: File, s: Service)
    requires ServiceFits(f.names, s) && Raw(f, s.name) == Obj(ServiceFields(s))
    ensures Importable(f, s.name) && ServiceOf(f, s.name, s.order) == s && ServiceIssues(f, s.name) == []
  {
    hide Get, ServiceFields, KEYS, Settings, KeyIssues, SplitImageRef, DefaultIsReported, ValidName;
    ServiceFieldsAt(f.names, s, "image");
    ImageIsRead(s.image);
    KeysAreRead(At(f, s.name), s);
  }

  lemma {:induction false} AllServicesAreRead(f: File, services: seq<Service>, n: nat)
    requires n <= |services|
    requires forall i | 0 <= i < |services| ::
      && services[i].order == i && Importable(f, services[i].name)
      && ServiceOf(f, services[i].name, i) == services[i] && ServiceIssues(f, services[i].name) == []
    ensures Services(f, ServiceNames(services)[..n]) == services[..n]
    ensures AllServiceIssues(f, ServiceNames(services)[..n]) == []
  {
    hide Importable, ServiceOf, ServiceIssues;
    if n > 0 {
      var names := ServiceNames(services);
      AllServicesAreRead(f, services, n - 1);
      assert names[..n][..n - 1] == names[..n - 1] && names[..n][n - 1] == services[n - 1].name;
      assert services[..n] == services[..n - 1] + [services[n - 1]];
    }
  }

  lemma NamedIsRead(rt: Runtime, section: string, n: Named)
    requires n.driver != Some("")
    ensures NamedOutcome(rt, section, NamedJson(n)) == Outcome(Some(n), [])
  {
    if n.driver.Some? {
      var fields := [Field("driver", Str(n.driver.value))];
      NoSuchKey(fields, "external");
      assert Get(fields, "driver") == Str(n.driver.value);
    }
  }

  lemma NamedAreRead(rt: Runtime, section: string, named: seq<Named>)
    requires DriversOk(named)
    ensures Declared(rt, section, NamedsJson(named)) == named && DeclaredIssues(rt, section, NamedsJson(named)) == []
  {
    hide NamedJson, Kept, Said;
    forall i | 0 <= i < |named| ensures NamedOutcome(rt, section, NamedJson(named[i])) == Outcome(Some(named[i]), []) {
      NamedIsRead(rt, section, named[i]);
    }
    AllKept(NamedOutcomes(rt, section, NamedsJson(named)), named);
  }

  lemma WrittenParts(draft: Draft)
    ensures var doc := WrittenDocument(draft);
      && doc.Obj? && Member(doc, "services") == Obj(ServicesJson(draft.services))
      && Member(doc, "networks") == Obj(NamedsJson(draft.networks))
      && Member(doc, "volumes") == Obj(NamedsJson(draft.volumes)) && Member(doc, "version") == Undefined
  {
    hide ServicesJson, NamedsJson, Get;
    var fields := WrittenDocument(draft).fields;
    assert Distinct(fields);
    GetAt(fields, 0);
    GetAt(fields, 1);
    GetAt(fields, 2);
    NoSuchKey(fields, "version");
  }

  lemma ServiceStands(rt: Runtime, draft: Draft, i: nat)
    requires Expressible(draft) && i < |draft.services|
    ensures var f, s := FileOf(rt, WrittenDocument(draft)), draft.services[i];
      && f.names == ServiceNames(draft.services)
      && Importable(f, s.name) && ServiceOf(f, s.name, i) == s && ServiceIssues(f, s.name) == []
  {
    hide ServiceFits, WrittenDocument, ServiceFields, Get, ServiceIssues, ServiceOf, Importable, Referenced, Keys;
    WrittenParts(draft);
    var fields, names := ServicesJson(draft.services), ServiceNames(draft.services);
    KeysOfServices(fields, names);
    assert Distinct(fields);
    GetAt(fields, i);
    ServiceIsRead(FileOf(rt, WrittenDocument(draft)), draft.services[i]);
  }

  /** The services of the written document are in dependency order. */
  lemma OrderStands(rt: Runtime, draft: Draft)
    requires Expressible(draft)
    ensures var f := FileOf(rt, WrittenDocument(draft));
      f.names == ServiceNames(draft.services) && OrderOf(f) == f.names && CycleOf(f) == []
  {
    hide ServiceFits, WrittenDocument, ServiceOf, ServiceIssues, Importable, Referenced, FileOf, DependsOn,
         DependenciesOf, Restricted, Order, CycleIssues, SortedWell, HasCycle, Search;
    var f, names := FileOf(rt, WrittenDocument(draft)), ServiceNames(draft.services);
    ServiceStands(rt, draft, 0);
    forall i, d | 0 <= i < |names| && Edge(names, GraphOf(f), names[i], d) ensures d in names[..i] {
      ServiceStands(rt, draft, i);
      DraftedDependencies(f, names[i], i);
      InRestricted(names, DependenciesOf(f, names[i]), d);
    }
    OrderIsSorted(names, GraphOf(f));
  }

  lemma InRestricted(names: seq<string>, deps: seq<string>, d: string)
    requires d in deps && d in names
    ensures d in Restricted(names, deps)
  {
  }

  lemma ServicesStand(rt: Runtime, draft: Draft)
    requires Expressible(draft)
    ensures var f := FileOf(rt, WrittenDocument(draft));
      Drafts(f) == draft.services && AllServiceIssues(f, OrderOf(f)) == []
  {
    hide ServiceFits, WrittenDocument, ServiceOf, ServiceIssues, Importable, Referenced, FileOf, DependsOn, OrderOf,
         Services, AllServiceIssues;
    var f, names := FileOf(rt, WrittenDocument(draft)), ServiceNames(draft.services);
    OrderStands(rt, draft);
    forall i | 0 <= i < |draft.services|
      ensures Importable(f, names[i]) && ServiceOf(f, names[i], i) == draft.services[i]
           && ServiceIssues(f, names[i]) == []
    {
      ServiceStands(rt, draft, i);
    }
    AllServicesAreRead(f, draft.services, |names|);
    assert names[..|names|] == names && draft.services[..|names|] == draft.services;
  }

  lemma NothingIsMissing(rt: Runtime, draft: Draft)
    requires Expressible(draft)
    ensures var doc := WrittenDocument(draft);
      && DraftOf(rt, doc, draft.services) == draft
      && DraftIssues(rt, doc, draft.services) == SharedNetworkIssues(draft.networks, draft.services)
  {
    hide ServiceFits, WrittenDocument, Referenced, DependsOn, Declared, DeclaredIssues, NamesOf, DriversOk, Undeclared,
         NamedsJson, SharedNetworkIssues, NoDuplicates;
    WrittenParts(draft);
    NamedAreRead(rt, "networks", draft.networks);
    NamedAreRead(rt, "volumes", draft.volumes);
    var missing := Undeclared(NamesOf(draft.volumes), Referenced(draft.services));
    UndeclaredAre(NamesOf(draft.volumes), Referenced(draft.services));
    HasFirst(missing);
  }

  lemma HasFirst<T>(s: seq<T>)
    ensures s != [] ==> s[0] in s
  {
  }

  /**
   * A draft that a document can express is imported from the document that it is written as, and all that is said is
   * that there are no networks, if that is so.
   */
  lemma ImportInvertsWrite(rt: Runtime, draft: Draft)
    requires Expressible(draft)
    ensures Import(rt, WrittenDocument(draft))
         == Result(true, Some(draft),
                   if draft.networks == [] && |draft.services| > 1 then [Issue(Defaulted, ["networks"], Plain)] else [])
  {
    hide ServiceFits, WrittenDocument, Referenced, DependsOn, DraftOf, DraftIssues, FileOf,
         OrderOf, CycleOf, AllServiceIssues, Services, Member, DriversOk;
    var doc := WrittenDocument(draft);
    WrittenParts(draft);
    OrderStands(rt, draft);
    ServicesStand(rt, draft);
    NothingIsMissing(rt, draft);
    assert VersionIssues(doc) == [] && FileIssues(rt, doc) == [];
    assert FieldsOf(Member(doc, "services")) != [];
  }

  // What is imported can be written

  lemma FitsByMembers(a: seq<string>, b: seq<string>, key: string, setting: Setting)
    requires Fits(a, key, setting) && forall x :: x in a <==> x in b
    ensures Fits(b, key, setting)
  {
  }

  /** No mount has an empty source or target; the short syntax allows both. */
  ghost predicate MountsFit(s: Service) {
    forall k | k in s.settings && s.settings[k].MountList? ::
      forall i | 0 <= i < |s.settings[k].mounts| :: MountFits(s.settings[k].mounts[i])
  }

  lemma KeptServiceFits(f: File, name: string, order: nat)
    requires Importable(f, name) && MountsFit(ServiceOf(f, name, order))
    ensures ServiceFits(f.names, ServiceOf(f, name, order))
  {
    hide Get, Text, PieceOf, KindOf, Fits, KEYS, MountFits, ValidName, SplitImageRef, Settings;
    var s, c, raw := ServiceOf(f, name, order), At(f, name), FieldsOf(Raw(f, name));
    JoinInvertsSplitImage(Reference(f, name));
    assert '@' !in s.image.image;
    forall k | k in s.settings ensures Fits(f.names, k, s.settings[k]) {
      SettingAt(c, raw, KEYS, k);
      SettingsFit(c.(path := c.path + [k]), k, Get(raw, k));
    }
  }

  lemma {:induction false} AllAreDrafted(f: File, order: seq<string>)
    requires forall i | 0 <= i < |order| :: Importable(f, order[i])
    ensures |Services(f, order)| == |order|
    ensures forall i | 0 <= i < |order| :: Services(f, order)[i] == ServiceOf(f, order[i], i)
  {
    hide Importable, ServiceOf;
    if order != [] { AllAreDrafted(f, order[..|order| - 1]); }
  }

  lemma DriversAreOk(rt: Runtime, section: string, fields: seq<Field>)
    ensures DriversOk(Declared(rt, section, fields))
  {
    hide Get, Text, Kept;
    var outcomes := NamedOutcomes(rt, section, fields);
    forall i | 0 <= i < |Kept(outcomes)| ensures Kept(outcomes)[i].driver != Some("") {
      var j := KeptAre(outcomes, i);
    }
  }

  lemma DraftedServiceFits(f: File, i: nat)
    requires NoDuplicates(f.names) && !HasCycle(f.names, GraphOf(f)) && i < |OrderOf(f)|
    requires forall name | name in f.names :: Importable(f, name)
    requires i < |Drafts(f)| && MountsFit(Drafts(f)[i])
    requires |Drafts(f)| == |OrderOf(f)| && ServiceNames(Drafts(f)) == OrderOf(f)
    requires Drafts(f)[i] == ServiceOf(f, OrderOf(f)[i], i)
    ensures InPlace(ServiceNames(Drafts(f)), Drafts(f)[i], i)
  {
    hide HasCycle, ServiceOf, Importable, DependsOn, DependenciesOf, Restricted, Services, OrderOf, ServiceFits,
      MountsFit;
    var order := OrderOf(f);
    OrderHolds(f);
    HasMember(order, i);
    NameOf(f, order[i], i);
    KeptServiceFits(f, order[i], i);
    FitsInOrder(f.names, order, Drafts(f)[i]);
    DraftedDependencies(f, order[i], i);
    forall d | d in DependsOn(Drafts(f)[i]) ensures d in order[..i] {
      assert Edge(f.names, GraphOf(f), order[i], d);
    }
  }

  lemma HasMember<T>(s: seq<T>, i: nat)
    requires i < |s|
    ensures s[i] in s
  {
  }

  lemma FitsInOrder(a: seq<string>, b: seq<string>, s: Service)
    requires ServiceFits(a, s) && forall x :: x in a <==> x in b
    ensures ServiceFits(b, s)
  {
    hide Fits;
    forall k | k in s.settings ensures Fits(b, k, s.settings[k]) {
      FitsByMembers(a, b, k, s.settings[k]);
    }
  }

  lemma NamesOfDrafts(f: File)
    requires forall name | name in f.names :: Importable(f, name)
    ensures ServiceNames(Drafts(f)) == OrderOf(f) && |Drafts(f)| == |OrderOf(f)|
    ensures forall i | 0 <= i < |Drafts(f)| :: Drafts(f)[i] == ServiceOf(f, OrderOf(f)[i], i)
  {
    hide Importable, ServiceOf, Services, OrderOf;
    var order := OrderOf(f);
    OrderHolds(f);
    forall i | 0 <= i < |order| ensures Importable(f, order[i]) { HasMember(order, i); }
    AllAreDrafted(f, order);
    forall i | 0 <= i < |order| ensures Drafts(f)[i].name == order[i] { NameOf(f, order[i], i); }
  }

  lemma SectionsAreOk(rt: Runtime, doc: Json, services: seq<Service>)
    ensures var draft := DraftOf(rt, doc, services);
      DriversOk(draft.networks) && DriversOk(draft.volumes)
      && forall x | x in Referenced(services) :: x in NamesOf(draft.volumes)
  {
    hide Declared, Referenced, NamesOf, Undeclared, Bare, Member, DriversOk;
    DriversAreOk(rt, "networks", FieldsOf(Member(doc, "networks")));
    DriversAreOk(rt, "volumes", FieldsOf(Member(doc, "volumes")));
    var declared, missing := TopLevel(rt, doc, "volumes"), Missing(rt, doc, services);
    NamesAppend(declared, Bare(missing));
    NamesOfBare(missing);
    UndeclaredAre(NamesOf(declared), Referenced(services));
    BareIsOk(missing);
    DriversAppend(declared, Bare(missing));
  }

  lemma DriversAppend(a: seq<Named>, b: seq<Named>)
    requires DriversOk(a) && DriversOk(b)
    ensures DriversOk(a + b)
  {
  }

  lemma BareIsOk(names: seq<string>)
    ensures DriversOk(Bare(names))
  {
  }

  /** The draft of a document without cycles, all of whose services are imported, is one that a document can express. */
  lemma ImportIsExpressible(rt: Runtime, doc: Json)
    requires Import(rt, doc).ok
    requires var f := FileOf(rt, doc);
      && NoDuplicates(f.names) && !HasCycle(f.names, GraphOf(f))
      && (forall name | name in f.names :: Importable(f, name))
      && forall i | 0 <= i < |Drafts(f)| :: MountsFit(Drafts(f)[i])
    ensures Import(rt, doc).draft.Some? && Expressible(Import(rt, doc).draft.value)
  {
    hide HasCycle, InPlace, Referenced, Importable, ServiceOf, FileOf, OrderOf, Services, DriversOk, MountsFit,
         NamesOf, FileIssues, DraftIssues, SomeImportable;
    var f := FileOf(rt, doc);
    ImportSucceedsIff(rt, doc);
    NamesOfDrafts(f);
    OrderHolds(f);
    forall i | 0 <= i < |Drafts(f)|
      ensures InPlace(ServiceNames(Drafts(f)), Drafts(f)[i], i)
    {
      DraftedServiceFits(f, i);
    }
    SectionsAreOk(rt, doc, Drafts(f));
  }

  /** So writing and importing once more changes nothing, and finds nothing more to say about it. */
  lemma ImportTwice(rt: Runtime, doc: Json)
    requires Import(rt, doc).ok
    requires var f := FileOf(rt, doc);
      && NoDuplicates(f.names) && !HasCycle(f.names, GraphOf(f))
      && (forall name | name in f.names :: Importable(f, name))
      && forall i | 0 <= i < |Drafts(f)| :: MountsFit(Drafts(f)[i])
    ensures Import(rt, doc).draft.Some?
    ensures var draft := Import(rt, doc).draft.value;
      && Import(rt, WrittenDocument(draft)).draft == Some(draft)
      && Import(rt, WrittenDocument(draft)).issues
        == if draft.networks == [] && |draft.services| > 1 then [Issue(Defaulted, ["networks"], Plain)] else []
  {
    hide Import, WrittenDocument, Expressible, FileOf, HasCycle, Importable, MountsFit, Services, SharedNetworkIssues;
    ImportIsExpressible(rt, doc);
    ImportInvertsWrite(rt, Import(rt, doc).draft.value);
  }
}
