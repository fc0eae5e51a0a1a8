/** The mapping from a stored template version back to its authoring shape. */
module TemplateDraft {
  import opened Json

  // Dropping nulls

  function StripNull(v: Json): Json {
    match v
    case Arr(items) => Arr(StripItems(items))
    case Obj(fields) => Obj(StripFields(fields))
    case _ => v
  }

  function StripItems(items: seq<Json>): (out: seq<Json>)
    ensures |out| == |items|
  {
    if items == [] then [] else [StripNull(items[0])] + StripItems(items[1..])
  }

  function StripFields(fields: seq<Field>): seq<Field> {
    if fields == [] then []
    else
      (if fields[0].value.Null? then [] else [Field(fields[0].key, StripNull(fields[0].value))])
      + StripFields(fields[1..])
  }

  /** No object, at any depth, holds a key whose value is null. An array may hold a null element. */
  predicate NoNullKeys(v: Json) {
    match v
    case Arr(items) => forall i | 0 <= i < |items| :: NoNullKeys(items[i])
    case Obj(fields) => forall i | 0 <= i < |fields| :: !fields[i].value.Null? && NoNullKeys(fields[i].value)
    case _ => true
  }

  method StripNulls(value: Json) returns (stripped: Json)
    requires WellFormed(value)
    ensures stripped == StripNull(value)
    decreases value, 1, 0
  {
    match value
    case Arr(items) =>
      var out, i := [], 0;
      assert items[0..] == items;
      while i < |items|
        invariant 0 <= i <= |items| && StripItems(items) == out + StripItems(items[i..])
      {
        assert items[i..][1..] == items[i + 1..];
        var item := StripNulls(items[i]);
        out, i := out + [item], i + 1;
      }
      stripped := Arr(out);
    case Obj(fields) =>
      var out := StripObject(fields);
      stripped := Obj(out);
    case _ =>
      stripped := value;
  }

  method StripObject(fields: seq<Field>) returns (out: seq<Field>)
    requires Distinct(fields) && forall i | 0 <= i < |fields| :: WellFormed(fields[i].value)
    ensures out == StripFields(fields)
    decreases fields, 0, 0
  {
    hide StripFields, WellFormed;
    out := [];
    var i := 0;
    assert fields[0..] == fields;
    while i < |fields|
      invariant 0 <= i <= |fields| && StripFields(fields) == out + StripFields(fields[i..])
      invariant forall j, n | 0 <= j < |out| && i <= n < |fields| :: out[j].key != fields[n].key
    {
      StripFieldsFrom(fields, i);
      if !fields[i].value.Null? {
        var v := StripNulls(fields[i].value);
        PutNew(out, fields[i].key, v);
        ghost var rest := StripFields(fields[i + 1..]);
        assert out + ([Field(fields[i].key, v)] + rest) == out + [Field(fields[i].key, v)] + rest;
        out := Put(out, fields[i].key, v);
      }
      i := i + 1;
    }
    assert fields[i..] == [];
    StripNothing();
  }

  lemma StripNothing()
    ensures StripFields([]) == []
  {
  }

  lemma StripFieldsFrom(fields: seq<Field>, i: nat)
    requires i < |fields|
    ensures StripFields(fields[i..])
         == if fields[i].value.Null? then StripFields(fields[i + 1..])
            else [Field(fields[i].key, StripNull(fields[i].value))] + StripFields(fields[i + 1..])
  {
    assert fields[i..][1..] == fields[i + 1..];
  }

  lemma {:induction false} StripFieldsKeeps(fields: seq<Field>)
    ensures NoNullKeys(Obj(StripFields(fields))) && StripFields(StripFields(fields)) == StripFields(fields)
    decreases fields, 0
  {
    if fields != [] {
      StripFieldsKeeps(fields[1..]);
      var rest := StripFields(fields[1..]);
      if fields[0].value.Null? {
        assert StripFields(fields) == rest;
      } else {
        StripNullIsProjection(fields[0].value);
        assert StripFields(fields)[1..] == rest;
      }
    }
  }

  /** Stripping leaves no null-valued key, and doing it again changes nothing. */
  lemma {:induction false} StripNullIsProjection(v: Json)
    ensures NoNullKeys(StripNull(v)) && StripNull(StripNull(v)) == StripNull(v)
    ensures v.Null? <==> StripNull(v).Null?
    decreases v, 1
  {
    match v
    case Arr(items) => StripItemsKeeps(items);
    case Obj(fields) => StripFieldsKeeps(fields);
    case _ =>
  }

  lemma {:induction false} StripItemsKeeps(items: seq<Json>)
    ensures NoNullKeys(Arr(StripItems(items))) && StripItems(StripItems(items)) == StripItems(items)
    decreases items, 0
  {
    if items != [] {
      StripItemsKeeps(items[1..]);
      StripNullIsProjection(items[0]);
    }
  }

  /** What has no null-valued key is left alone, and nothing else is. */
  lemma {:induction false} StripNullFixesIff(v: Json)
    ensures StripNull(v) == v <==> NoNullKeys(v)
    decreases v, 1
  {
    StripNullIsProjection(v);
    if NoNullKeys(v) {
      match v
      case Arr(items) => StripItemsFixes(items);
      case Obj(fields) => StripFieldsFixes(fields);
      case _ =>
    }
  }

  lemma {:induction false} StripItemsFixes(items: seq<Json>)
    requires NoNullKeys(Arr(items))
    ensures StripItems(items) == items
    decreases items, 0
  {
    if items != [] {
      assert forall i | 0 <= i < |items[1..]| :: items[1..][i] == items[i + 1];
      StripItemsFixes(items[1..]);
      StripNullFixesIff(items[0]);
    }
  }

  lemma {:induction false} StripFieldsFixes(fields: seq<Field>)
    requires NoNullKeys(Obj(fields))
    ensures StripFields(fields) == fields
    decreases fields, 0
  {
    if fields != [] {
      assert forall i | 0 <= i < |fields[1..]| :: fields[1..][i] == fields[i + 1];
      StripFieldsFixes(fields[1..]);
      StripNullFixesIff(fields[0].value);
    }
  }

  /** What a reader of the write shape finds for a value of the read shape: null has become absence. */
  function Carried(v: Json): Json { if v.Null? then Undefined else StripNull(v) }

  lemma {:induction false} StripInventsNoKey(fields: seq<Field>, k: string)
    requires forall i | 0 <= i < |fields| :: fields[i].key != k
    ensures Get(StripFields(fields), k) == Undefined
  {
    if fields != [] {
      assert forall i | 0 <= i < |fields[1..]| :: fields[1..][i] == fields[i + 1];
      StripInventsNoKey(fields[1..], k);
      if !fields[0].value.Null? { assert StripFields(fields)[1..] == StripFields(fields[1..]); }
      else { assert StripFields(fields) == StripFields(fields[1..]); }
    }
  }

  /** Stripping acts key by key. */
  lemma {:induction false} GetStripped(fields: seq<Field>, k: string)
    requires Distinct(fields)
    ensures Get(StripFields(fields), k) == Carried(Get(fields, k))
  {
    if fields != [] {
      assert forall i | 0 <= i < |fields[1..]| :: fields[1..][i] == fields[i + 1];
      GetStripped(fields[1..], k);
      if fields[0].key == k { StripInventsNoKey(fields[1..], k); }
      if !fields[0].value.Null? { assert StripFields(fields)[1..] == StripFields(fields[1..]); }
      else { assert StripFields(fields) == StripFields(fields[1..]); }
    }
  }

  // Services and config files

  /** `v ?? undefined`. */
  function Optional(v: Json): Json { if Nullish(v) then Undefined else v }

  const SERVICE_KEYS := ["serviceName", "serviceType", "dockerImage", "dockerTag", "containerConfig", "initCommands",
    "dependsOn", "order", "routing", "adoptedContainer", "poolConfig", "jobPoolConfig", "vaultAppRoleId",
    "vaultAppRoleRef", "natsCredentialId", "natsRole", "natsSigner", "addons"]

  const CONFIG_FILE_KEYS := ["serviceName", "fileName", "volumeName", "mountPath", "content", "permissions", "owner"]

  /** The fields of a stored service, and of a stored config file. */
  const SERVICE_INFO := {"id", "versionId", "serviceName", "serviceType", "dockerImage", "dockerTag", "containerConfig",
    "initCommands", "dependsOn", "order", "routing", "adoptedContainer", "poolConfig", "jobPoolConfig",
    "vaultAppRoleId", "vaultAppRoleRef", "natsCredentialId", "natsRole", "natsSigner", "addons"}

  const CONFIG_FILE_INFO := {"id", "versionId", "serviceName", "fileName", "volumeName", "mountPath", "content",
    "permissions", "owner"}

  predicate IsDatabaseKey(key: string) { key == "id" || key == "versionId" }

  function ServiceValue(svc: Json, key: string): Json {
    if key in {"initCommands", "routing", "poolConfig", "addons"} then Optional(Member(svc, key)) else Member(svc, key)
  }

  function ServiceValues(svc: Json): string -> Json { key => ServiceValue(svc, key) }

  function MapService(svc: Json): Json { StripNull(Obj(Record(SERVICE_KEYS, ServiceValues(svc)))) }

  function ConfigFileValue(file: Json, key: string): Json {
    if key in {"permissions", "owner"} then Optional(Member(file, key)) else Member(file, key)
  }

  function ConfigFileValues(file: Json): string -> Json { key => ConfigFileValue(file, key) }

  function MapConfigFile(file: Json): Json { Obj(Record(CONFIG_FILE_KEYS, ConfigFileValues(file))) }

  function MapServices(items: seq<Json>): (out: seq<Json>)
    ensures |out| == |items| && forall i | 0 <= i < |items| :: out[i] == MapService(items[i])
  {
    seq(|items|, i requires 0 <= i < |items| => MapService(items[i]))
  }

  function MapConfigFiles(items: seq<Json>): (out: seq<Json>)
    ensures |out| == |items| && forall i | 0 <= i < |items| :: out[i] == MapConfigFile(items[i])
  {
    if items == [] then [] else [MapConfigFile(items[0])] + MapConfigFiles(items[1..])
  }

  lemma {:induction false} GetStrippedRecord(keys: seq<string>, f: string -> Json, k: string)
    ensures Get(StripFields(Record(keys, f)), k) == if k in keys then Carried(f(k)) else Undefined
  {
    if keys != [] {
      var rest := StripFields(Record(keys[1..], f));
      GetStrippedRecord(keys[1..], f, k);
      if f(keys[0]).Null? { assert StripFields(Record(keys, f)) == rest; }
      else { assert StripFields(Record(keys, f))[1..] == rest; }
    }
  }

  lemma OnlyDatabaseKeysGo(key: string)
    ensures key in SERVICE_KEYS <==> key in SERVICE_INFO && !IsDatabaseKey(key)
    ensures key in CONFIG_FILE_KEYS <==> key in CONFIG_FILE_INFO && !IsDatabaseKey(key)
  {
  }

  /**
   * Every field of a stored service survives but for the two that only the database needs, none is invented, and a
   * second strip changes nothing.
   */
  lemma ServiceIsLossless(svc: Json, k: string)
    ensures Member(MapService(svc), k)
         == if k in SERVICE_INFO && !IsDatabaseKey(k) then Carried(Member(svc, k)) else Undefined
    ensures StripNull(MapService(svc)) == MapService(svc)
  {
    OnlyDatabaseKeysGo(k);
    hide StripFields, Get, Record, ServiceValue;
    GetStrippedRecord(SERVICE_KEYS, ServiceValues(svc), k);
    OptionalIsCarried(svc, k);
    StripNullIsProjection(Obj(Record(SERVICE_KEYS, ServiceValues(svc))));
  }

  lemma OptionalIsCarried(v: Json, k: string)
    ensures Carried(ServiceValue(v, k)) == Carried(Member(v, k)) == Carried(ConfigFileValue(v, k))
  {
  }

  lemma DatabaseKeysGo(svc: Json)
    ensures Member(MapService(svc), "id") == Member(MapService(svc), "versionId") == Undefined
  {
    hide MapService;
    ServiceIsLossless(svc, "id");
    ServiceIsLossless(svc, "versionId");
  }

  lemma ConfigFileIsLossless(file: Json, k: string)
    ensures Member(StripNull(MapConfigFile(file)), k)
         == if k in CONFIG_FILE_INFO && !IsDatabaseKey(k) then Carried(Member(file, k)) else Undefined
  {
    OnlyDatabaseKeysGo(k);
    hide StripFields, Get, Record, ConfigFileValue;
    GetStrippedRecord(CONFIG_FILE_KEYS, ConfigFileValues(file), k);
    OptionalIsCarried(file, k);
  }

  // The draft

  const DRAFT_KEYS := ["parameters", "defaultParameterValues", "networkTypeDefaults", "resourceOutputs",
    "resourceInputs", "networks", "volumes", "services", "configFiles", "notes", "inputs", "requires"]

  /** The shape that the type of a stored version promises. */
  predicate VersionTyped(version: seq<Field>) {
    && Get(version, "networks").Arr? && Get(version, "volumes").Arr?
    && ListTyped(Get(version, "services")) && ListTyped(Get(version, "configFiles"))
    && SectionTyped(Get(version, "vault")) && SectionTyped(Get(version, "nats"))
  }

  predicate ListTyped(v: Json) { Nullish(v) || (v.Arr? && forall i | 0 <= i < |v.items| :: v.items[i].Obj?) }
  predicate SectionTyped(v: Json) { Nullish(v) || v.Obj? }

  /** The sections of an authored draft. */
  const DRAFT_SECTIONS := {"parameters", "defaultParameterValues", "networkTypeDefaults", "resourceOutputs",
    "resourceInputs", "networks", "volumes", "services", "configFiles", "notes", "inputs", "vault", "nats", "requires"}

  lemma SectionsAreMapped(key: string)
    ensures key in DRAFT_SECTIONS <==> key in DRAFT_KEYS || key == "vault" || key == "nats"
  {
  }

  function DraftValue(version: seq<Field>, key: string): Json {
    var v := Get(version, key);
    if key == "services" then Arr(MapServices(Items(v)))
    else if key == "configFiles" then (if Nullish(v) then Undefined else Arr(MapConfigFiles(Items(v))))
    else if key == "notes" then Optional(v)
    else v
  }

  function DraftValues(version: seq<Field>): string -> Json { key => DraftValue(version, key) }

  function PutUnlessNullish(fields: seq<Field>, key: string, v: Json): seq<Field> {
    if Nullish(v) then fields else Put(fields, key, v)
  }

  function BuildDraft(version: seq<Field>): seq<Field>
    requires VersionTyped(version)
  {
    var draft := StripFields(Record(DRAFT_KEYS, DraftValues(version)));
    PutUnlessNullish(PutUnlessNullish(draft, "vault", Get(version, "vault")), "nats", Get(version, "nats"))
  }

  /** What a draft holds under a key, read off the version alone. */
  function Section(version: seq<Field>, key: string): Json {
    var v := Get(version, key);
    if key == "vault" || key == "nats" then Optional(v)
    else if key !in DRAFT_SECTIONS then Undefined
    else if key == "services" then Arr(MapServices(Items(v)))
    else if key == "configFiles" then (if Nullish(v) then Undefined else Arr(StripItems(MapConfigFiles(Items(v)))))
    else Carried(v)
  }

  lemma {:induction false} ServicesAreStripped(items: seq<Json>)
    ensures StripItems(MapServices(items)) == MapServices(items)
  {
    hide MapService, StripNull;
    if items != [] {
      ServiceIsLossless(items[0], "id");
      ServicesAreStripped(items[1..]);
      assert MapServices(items)[1..] == MapServices(items[1..]);
    }
  }

  /**
   * Rebuilding a draft loses no section: nulls become absence everywhere except in `vault` and `nats`, which keep
   * their explicit nulls, and the strip of the whole draft leaves the mapped services as they were.
   */
  lemma DraftIsLossless(version: seq<Field>, k: string)
    requires VersionTyped(version)
    ensures Get(BuildDraft(version), k) == Section(version, k)
  {
    hide StripFields, StripItems, Record, Get, Put, MapService;
    var draft := StripFields(Record(DRAFT_KEYS, DraftValues(version)));
    GetStrippedRecord(DRAFT_KEYS, DraftValues(version), k);
    GetPut(draft, "vault", Get(version, "vault"), k);
    GetPut(PutUnlessNullish(draft, "vault", Get(version, "vault")), "nats", Get(version, "nats"), k);
    NoOverlap();
    SectionsAreMapped(k);
    if k in DRAFT_KEYS { SectionIsCarried(version, k); }
  }

  lemma NoOverlap()
    ensures "vault" !in DRAFT_KEYS && "nats" !in DRAFT_KEYS && "vault" != "nats"
  {
  }

  lemma SectionIsCarried(version: seq<Field>, k: string)
    requires k in DRAFT_KEYS
    ensures Carried(DraftValue(version, k)) == Section(version, k)
  {
    hide MapService;
    NoOverlap();
    SectionsAreMapped(k);
    ServicesAreStripped(Items(Get(version, k)));
  }
}
