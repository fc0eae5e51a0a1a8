/** The export and import codec of stack templates: a round trip that loses literal secrets and release notes only. */
module TemplateTransfer {
  import opened Sequences
  import opened Json
  import opened ImportIssues
  import opened ComposeText
  import opened TemplateDraft

  const FORMAT := "mini-infra.stack-template/v1"
  const FORMAT_PREFIX := "mini-infra.stack-template/"
  const PLACEHOLDER := "__mini-infra:redacted-secret__"
  const DEFAULT_SUBJECT_PREFIX := "app.{{stack.id}}"

  // Redaction

  /** A field of a vault entry that carries its value literally, not as a reference to an input. */
  predicate IsLiteral(field: Json) { Member(field, "value").Str? }

  function Redacted(): Json { Obj([Field("value", Str(PLACEHOLDER))]) }

  function RedactField(field: Json): Json { if IsLiteral(field) then Redacted() else field }

  function RedactFields(fields: seq<Field>): (r: seq<Field>)
    ensures |r| == |fields| && forall i | 0 <= i < |r| :: r[i] == Field(fields[i].key, RedactField(fields[i].value))
  {
    if fields == [] then [] else [Field(fields[0].key, RedactField(fields[0].value))] + RedactFields(fields[1..])
  }

  function SecretIssue(path: string, name: string): Issue {
    Issue(Lossy, ["version", "vault", "kv[" + path + "]", "fields", name], Plain)
  }

  function FieldIssue(path: string, field: Field): seq<Issue> {
    if IsLiteral(field.value) then [SecretIssue(path, field.key)] else []
  }

  function FieldIssues(path: string, fields: seq<Field>): seq<Issue> {
    if fields == [] then [] else FieldIssue(path, fields[0]) + FieldIssues(path, fields[1..])
  }

  lemma FieldIssuesFrom(path: string, fields: seq<Field>, i: nat)
    requires i < |fields|
    ensures FieldIssues(path, fields[i..]) == FieldIssue(path, fields[i]) + FieldIssues(path, fields[i + 1..])
  {
    assert fields[i..][1..] == fields[i + 1..];
  }

  /** A KV entry as its type promises it. */
  predicate EntryTyped(entry: Json) {
    && entry.Obj? && Member(entry, "path").Str? && Member(entry, "fields").Obj?
    && Distinct(Member(entry, "fields").fields)
    && forall i | 0 <= i < |Member(entry, "fields").fields| :: !Nullish(Member(entry, "fields").fields[i].value)
  }

  predicate EntriesTyped(kv: seq<Json>) { forall i | 0 <= i < |kv| :: EntryTyped(kv[i]) }

  predicate VaultTyped(vault: Json) {
    vault.Obj? && (Nullish(Member(vault, "kv"))
      || (Member(vault, "kv").Arr? && EntriesTyped(Member(vault, "kv").items)))
  }

  function RedactEntry(entry: Json): Json
    requires EntryTyped(entry)
  {
    Obj(Put(entry.fields, "fields", Obj(RedactFields(Member(entry, "fields").fields))))
  }

  function EntryIssues(entry: Json): seq<Issue>
    requires EntryTyped(entry)
  {
    FieldIssues(Member(entry, "path").text, Member(entry, "fields").fields)
  }

  function RedactEntries(kv: seq<Json>): (r: seq<Json>)
    requires EntriesTyped(kv)
    ensures |r| == |kv| && forall i | 0 <= i < |kv| :: r[i] == RedactEntry(kv[i])
  {
    if kv == [] then [] else [RedactEntry(kv[0])] + RedactEntries(kv[1..])
  }

  function EntriesIssues(kv: seq<Json>): seq<Issue>
    requires EntriesTyped(kv)
  {
    if kv == [] then [] else EntryIssues(kv[0]) + EntriesIssues(kv[1..])
  }

  function Kv(vault: Json): seq<Json> { Items(Member(vault, "kv")) }

  function RedactVault(vault: Json): Json
    requires VaultTyped(vault)
  {
    if Kv(vault) == [] then vault else Obj(Put(vault.fields, "kv", Arr(RedactEntries(Kv(vault)))))
  }

  function VaultIssues(vault: Json): seq<Issue>
    requires VaultTyped(vault)
  {
    EntriesIssues(Kv(vault))
  }

  /** One entry's fields, rebuilt key by key. */
  method RedactEntryFields(path: string, source: seq<Field>, report: Report) returns (fields: seq<Field>)
    requires Distinct(source)
    modifies report
    ensures fields == RedactFields(source)
    ensures report.issues == old(report.issues) + FieldIssues(path, source)
  {
    hide RedactFields, FieldIssues, IsLiteral, Redacted;
    fields := [];
    var i := 0;
    assert source[0..] == source;
    while i < |source|
      invariant 0 <= i <= |source| && fields == RedactFields(source)[..i]
      invariant old(report.issues) + FieldIssues(path, source) == report.issues + FieldIssues(path, source[i..])
    {
      var name, field := source[i].key, source[i].value;
      FieldIssuesFrom(path, source, i);
      PutNew(fields, name, RedactField(field));
      ghost var said, rest := report.issues, FieldIssues(path, source[i + 1..]);
      assert said + (FieldIssue(path, source[i]) + rest) == said + FieldIssue(path, source[i]) + rest;
      if IsLiteral(field) {
        fields := Put(fields, name, Redacted());
        report.Push(SecretIssue(path, name));
      } else {
        fields := Put(fields, name, field);
      }
      i := i + 1;
    }
    assert FieldIssues(path, source[i..]) == [] by { assert source[i..] == []; NoFieldIssues(path); }
  }

  lemma NoFieldIssues(path: string)
    ensures FieldIssues(path, []) == []
  {
  }

  method RedactVaultSecrets(vault: Json, report: Report) returns (redacted: Json)
    requires VaultTyped(vault)
    modifies report
    ensures redacted == RedactVault(vault)
    ensures report.issues == old(report.issues) + VaultIssues(vault)
  {
    hide RedactFields, FieldIssues, Put, Get, RedactEntries, EntriesIssues, Distinct;
    var entries := Kv(vault);
    NoEntryIssues();
    if entries == [] { return vault; }
    var kv, i := [], 0;
    assert entries[0..] == entries;
    while i < |entries|
      invariant 0 <= i <= |entries| && kv == RedactEntries(entries)[..i]
      invariant old(report.issues) + EntriesIssues(entries) == report.issues + EntriesIssues(entries[i..])
    {
      EntriesIssuesFrom(entries, i);
      ghost var said, rest := report.issues, EntriesIssues(entries[i + 1..]);
      assert said + (EntryIssues(entries[i]) + rest) == said + EntryIssues(entries[i]) + rest;
      var entry := RedactOneEntry(entries[i], report);
      kv := kv + [entry];
      i := i + 1;
    }
    assert entries[i..] == [] && kv == RedactEntries(entries);
    redacted := Obj(Put(vault.fields, "kv", Arr(kv)));
  }

  method RedactOneEntry(entry: Json, report: Report) returns (redacted: Json)
    requires EntryTyped(entry)
    modifies report
    ensures redacted == RedactEntry(entry)
    ensures report.issues == old(report.issues) + EntryIssues(entry)
  {
    hide RedactFields, FieldIssues, Put, Get;
    var fields := RedactEntryFields(Member(entry, "path").text, Member(entry, "fields").fields, report);
    redacted := Obj(Put(entry.fields, "fields", Obj(fields)));
  }

  lemma EntriesIssuesFrom(kv: seq<Json>, i: nat)
    requires EntriesTyped(kv) && i < |kv|
    ensures EntriesIssues(kv[i..]) == EntryIssues(kv[i]) + EntriesIssues(kv[i + 1..])
  {
    assert kv[i..][1..] == kv[i + 1..];
  }

  lemma NoEntryIssues()
    ensures EntriesIssues([]) == []
  {
  }

  // What redaction means

  /** Two fields that a reader of an export cannot tell apart. */
  predicate SameButSecret(a: Json, b: Json) { a == b || (IsLiteral(a) && IsLiteral(b)) }

  predicate FieldsSameButSecrets(a: seq<Field>, b: seq<Field>) {
    |a| == |b| && forall i | 0 <= i < |a| :: a[i].key == b[i].key && SameButSecret(a[i].value, b[i].value)
  }

  /** A field is changed exactly if its value is given as a text, other than the placeholder itself. */
  lemma FieldIsRedactedIff(field: Json)
    ensures RedactField(field) == field <==>
      !Member(field, "value").Str? || field == Obj([Field("value", Str("__mini-infra:redacted-secret__"))])
    ensures Member(field, "value").Str? ==>
      RedactField(field) == Obj([Field("value", Str("__mini-infra:redacted-secret__"))])
  {
    hide Get;
  }

  lemma RedactedIsLiteral()
    ensures IsLiteral(Redacted())
  {
  }

  /** Redacting twice is redacting once. */
  lemma RedactFieldsTwice(fields: seq<Field>)
    ensures RedactFields(RedactFields(fields)) == RedactFields(fields)
  {
    RedactedIsLiteral();
  }

  /**
   * An export shows nothing about literal secrets: two vault entries export alike exactly if they agree on
   * everything but the literals.
   */
  lemma RedactionHidesExactlyLiterals(a: seq<Field>, b: seq<Field>)
    ensures RedactFields(a) == RedactFields(b) <==> FieldsSameButSecrets(a, b)
  {
    hide RedactFields, IsLiteral, Redacted;
    RedactedIsLiteral();
    if RedactFields(a) == RedactFields(b) {
      forall i | 0 <= i < |a| ensures a[i].key == b[i].key && SameButSecret(a[i].value, b[i].value) {
        assert RedactFields(a)[i] == RedactFields(b)[i];
      }
    }
  }

  /** Two objects that agree apart from what they hold under `key`. */
  predicate AgreeExcept(a: seq<Field>, b: seq<Field>, key: string) { Put(a, key, Undefined) == Put(b, key, Undefined) }

  lemma {:induction false} PutDecides(a: seq<Field>, b: seq<Field>, key: string, x: Json, y: Json)
    ensures Put(a, key, x) == Put(b, key, y) <==> AgreeExcept(a, b, key) && x == y
  {
    if a != [] && b != [] && a[0] == b[0] && a[0].key != key {
      PutDecides(a[1..], b[1..], key, x, y);
      assert forall v, w :: Put(a, key, v) == Put(b, key, w) <==> Put(a[1..], key, v) == Put(b[1..], key, w) by {
        forall v, w ensures Put(a, key, v) == Put(b, key, w) <==> Put(a[1..], key, v) == Put(b[1..], key, w) {
          assert Put(a, key, v)[1..] == Put(a[1..], key, v) && Put(b, key, w)[1..] == Put(b[1..], key, w);
        }
      }
    } else {
      PutHead(a, key, x);
      PutHead(a, key, Undefined);
      PutHead(b, key, y);
      PutHead(b, key, Undefined);
    }
  }

  lemma PutHead(a: seq<Field>, key: string, x: Json)
    ensures Put(a, key, x) != []
    ensures a == [] ==> Put(a, key, x) == [Field(key, x)]
    ensures a != [] && a[0].key == key ==> Put(a, key, x)[0] == Field(key, x) && Put(a, key, x)[1..] == a[1..]
    ensures a != [] && a[0].key != key ==> Put(a, key, x)[0] == a[0] && Put(a, key, x)[1..] != []
  {
    if a != [] && a[0].key != key { PutHead(a[1..], key, x); }
  }

  predicate EntriesSameButSecrets(a: Json, b: Json)
    requires EntryTyped(a) && EntryTyped(b)
  {
    AgreeExcept(a.fields, b.fields, "fields")
      && FieldsSameButSecrets(Member(a, "fields").fields, Member(b, "fields").fields)
  }

  predicate VaultsSameButSecrets(a: Json, b: Json)
    requires VaultTyped(a) && VaultTyped(b)
  {
    if Kv(a) == [] || Kv(b) == [] then a == b
    else
      && AgreeExcept(a.fields, b.fields, "kv") && |Kv(a)| == |Kv(b)|
      && forall i | 0 <= i < |Kv(a)| :: EntriesSameButSecrets(Kv(a)[i], Kv(b)[i])
  }

  lemma EntryHidesExactlyLiterals(a: Json, b: Json)
    requires EntryTyped(a) && EntryTyped(b)
    ensures RedactEntry(a) == RedactEntry(b) <==> EntriesSameButSecrets(a, b)
  {
    hide Put, RedactFields, FieldsSameButSecrets, AgreeExcept, Get;
    var x, y := RedactFields(Member(a, "fields").fields), RedactFields(Member(b, "fields").fields);
    PutDecides(a.fields, b.fields, "fields", Obj(x), Obj(y));
    RedactionHidesExactlyLiterals(Member(a, "fields").fields, Member(b, "fields").fields);
  }

  lemma EntriesHideExactlyLiterals(a: seq<Json>, b: seq<Json>)
    requires EntriesTyped(a) && EntriesTyped(b)
    ensures RedactEntries(a) == RedactEntries(b) <==>
      |a| == |b| && forall i | 0 <= i < |a| :: EntriesSameButSecrets(a[i], b[i])
  {
    hide RedactEntries, RedactEntry, EntriesSameButSecrets, EntryTyped;
    if |a| == |b| {
      forall i | 0 <= i < |a| ensures RedactEntries(a)[i] == RedactEntries(b)[i] <==>
        EntriesSameButSecrets(a[i], b[i])
      {
        EntryHidesExactlyLiterals(a[i], b[i]);
      }
    }
  }

  lemma PutKv(vault: Json)
    requires VaultTyped(vault)
    ensures Kv(vault) != [] ==> Kv(RedactVault(vault)) == RedactEntries(Kv(vault))
    ensures |Kv(RedactVault(vault))| == |Kv(vault)|
  {
    if Kv(vault) != [] { GetPut(vault.fields, "kv", Arr(RedactEntries(Kv(vault))), "kv"); }
  }

  /**
   * What an export shows of a vault section determines everything in it except the literal secrets, and depends on
   * nothing else: two sections export alike exactly if they differ in literals only.
   */
  lemma ExportHidesExactlyLiterals(a: Json, b: Json)
    requires VaultTyped(a) && VaultTyped(b)
    ensures RedactVault(a) == RedactVault(b) <==> VaultsSameButSecrets(a, b)
  {
    PutKv(a);
    PutKv(b);
    hide Put, RedactEntries, AgreeExcept, EntriesSameButSecrets, EntryTyped, Get;
    if Kv(a) != [] && Kv(b) != [] {
      PutDecides(a.fields, b.fields, "kv", Arr(RedactEntries(Kv(a))), Arr(RedactEntries(Kv(b))));
      EntriesHideExactlyLiterals(Kv(a), Kv(b));
    }
  }

  // The document

  function Truthy(text: Option<string>): bool { text.Some? && text.value != "" }

  predicate ExportTyped(version: seq<Field>) {
    VersionTyped(version) && (Nullish(Get(version, "vault")) || VaultTyped(Get(version, "vault")))
  }

  function ExportedVersion(version: seq<Field>): seq<Field>
    requires ExportTyped(version)
  {
    var vault := Get(version, "vault");
    if Nullish(vault) then BuildDraft(version) else Put(BuildDraft(version), "vault", RedactVault(vault))
  }

  function ExportIssues(version: seq<Field>): seq<Issue>
    requires ExportTyped(version)
  {
    if Nullish(Get(version, "vault")) then [] else VaultIssues(Get(version, "vault"))
  }

  function Document(envelope: Json, version: seq<Field>, exportedAt: Option<string>): Json
    requires ExportTyped(version)
  {
    Obj([Field("format", Str(FORMAT))]
        + (if Truthy(exportedAt) then [Field("exportedAt", Str(exportedAt.value))] else [])
        + [Field("sourceVersion", Get(version, "version")), Field("template", envelope),
           Field("version", Obj(ExportedVersion(version)))])
  }

  method BuildTemplateExportDocument(envelope: Json, version: seq<Field>, exportedAt: Option<string>)
    returns (document: Json, issues: seq<Issue>)
    requires ExportTyped(version)
    ensures document == Document(envelope, version, exportedAt)
    ensures issues == ExportIssues(version)
  {
    var report := new Report();
    var body := BuildDraft(version);
    DraftIsLossless(version, "vault");
    if !Nullish(Get(body, "vault")) {
      var vault := RedactVaultSecrets(Get(body, "vault"), report);
      body := Put(body, "vault", vault);
    }
    var stamp := if Truthy(exportedAt) then [Field("exportedAt", Str(exportedAt.value))] else [];
    document := Obj([Field("format", Str(FORMAT))] + stamp
                    + [Field("sourceVersion", Get(version, "version")), Field("template", envelope),
                      Field("version", Obj(body))]);
    issues := report.issues;
  }

  /** An exported body is the draft, with the literals of its vault section replaced. */
  lemma ExportedSections(version: seq<Field>, k: string)
    requires ExportTyped(version)
    ensures Get(ExportedVersion(version), k)
         == if k == "vault" && !Nullish(Get(version, "vault")) then RedactVault(Get(version, "vault"))
           else Section(version, k)
  {
    hide BuildDraft, RedactVault, Section, Put;
    DraftIsLossless(version, k);
    if !Nullish(Get(version, "vault")) { GetPut(BuildDraft(version), "vault", RedactVault(Get(version, "vault")), k); }
  }

  lemma DocumentParts(envelope: Json, version: seq<Field>, exportedAt: Option<string>)
    requires ExportTyped(version)
    ensures var document := Document(envelope, version, exportedAt);
      && Member(document, "format") == Str(FORMAT)
      && Member(document, "template") == envelope
      && Member(document, "version") == Obj(ExportedVersion(version))
      && Member(document, "sourceVersion") == Get(version, "version")
      && Member(document, "exportedAt") == if Truthy(exportedAt) then Str(exportedAt.value) else Undefined
  {
    hide ExportedVersion;
    var head := [Field("format", Str(FORMAT))]
      + (if Truthy(exportedAt) then [Field("exportedAt", Str(exportedAt.value))] else []);
    var tail := [Field("sourceVersion", Get(version, "version")), Field("template", envelope),
      Field("version", Obj(ExportedVersion(version)))];
    assert Document(envelope, version, exportedAt) == Obj(head + tail);
    LastOfThree(tail);
    GetAppend(head, tail, "format");
    GetAppend(head, tail, "template");
    GetAppend(head, tail, "version");
    GetAppend(head, tail, "sourceVersion");
    GetAppend(head, tail, "exportedAt");
    assert head[0].key == "format";
  }

  lemma LastOfThree(tail: seq<Field>)
    requires |tail| == 3 && tail[0].key == "sourceVersion" && tail[1].key == "template" && tail[2].key == "version"
    ensures Get(tail, "template") == tail[1].value && Get(tail, "version") == tail[2].value
    ensures Get(tail, "sourceVersion") == tail[0].value && Get(tail, "exportedAt") == Undefined
  {
    assert Distinct(tail);
    NoSuchKey(tail, "exportedAt");
    GetAt(tail, 1);
    GetAt(tail, 2);
  }

  // Import

  function DetectField(path: string, field: Field): seq<Issue> {
    if field.value.Obj? && Member(field.value, "value") == Str(PLACEHOLDER) then [SecretIssue(path, field.key)] else []
  }

  function DetectFields(path: string, fields: seq<Field>): seq<Issue> {
    if fields == [] then [] else DetectField(path, fields[0]) + DetectFields(path, fields[1..])
  }

  function EntryPath(entry: Json): string { if Member(entry, "path").Str? then Member(entry, "path").text else "?" }

  function DetectEntry(entry: Json): seq<Issue> {
    if entry.Obj? && Member(entry, "fields").Obj? then DetectFields(EntryPath(entry), Member(entry, "fields").fields)
    else []
  }

  function DetectEntries(kv: seq<Json>): seq<Issue> {
    if kv == [] then [] else DetectEntry(kv[0]) + DetectEntries(kv[1..])
  }

  /** The placeholders left in any version body, well-typed or not. */
  function Detect(version: seq<Field>): seq<Issue> { DetectEntries(Kv(Get(version, "vault"))) }

  lemma DetectFieldsFrom(path: string, fields: seq<Field>, i: nat)
    requires i < |fields|
    ensures DetectFields(path, fields[i..]) == DetectField(path, fields[i]) + DetectFields(path, fields[i + 1..])
  {
    assert fields[i..][1..] == fields[i + 1..];
  }

  lemma DetectEntriesFrom(kv: seq<Json>, i: nat)
    requires i < |kv|
    ensures DetectEntries(kv[i..]) == DetectEntry(kv[i]) + DetectEntries(kv[i + 1..])
  {
    assert kv[i..][1..] == kv[i + 1..];
  }

  method DetectRedactedSecrets(version: seq<Field>, report: Report)
    modifies report
    ensures report.issues == old(report.issues) + Detect(version)
  {
    hide DetectFields, DetectEntries;
    var vault := Get(version, "vault");
    if !vault.Obj? || !Member(vault, "kv").Arr? {
      assert Kv(vault) == [] && DetectEntries([]) == [] by { NothingToDetect(); }
      return;
    }
    var kv, i := Member(vault, "kv").items, 0;
    assert kv[0..] == kv;
    while i < |kv|
      invariant 0 <= i <= |kv|
      invariant old(report.issues) + DetectEntries(kv) == report.issues + DetectEntries(kv[i..])
    {
      DetectEntriesFrom(kv, i);
      ghost var said, rest := report.issues, DetectEntries(kv[i + 1..]);
      assert said + (DetectEntry(kv[i]) + rest) == said + DetectEntry(kv[i]) + rest;
      if kv[i].Obj? && Member(kv[i], "fields").Obj? {
        DetectInFields(EntryPath(kv[i]), Member(kv[i], "fields").fields, report);
      } else {
        assert said + [] == said;
      }
      i := i + 1;
    }
    assert kv[i..] == [];
    NothingToDetect();
  }

  lemma NothingToDetect()
    ensures DetectEntries([]) == [] && forall path :: DetectFields(path, []) == []
  {
  }

  method DetectInFields(path: string, fields: seq<Field>, report: Report)
    modifies report
    ensures report.issues == old(report.issues) + DetectFields(path, fields)
  {
    hide DetectFields;
    var i := 0;
    assert fields[0..] == fields;
    while i < |fields|
      invariant 0 <= i <= |fields|
      invariant old(report.issues) + DetectFields(path, fields) == report.issues + DetectFields(path, fields[i..])
    {
      DetectFieldsFrom(path, fields, i);
      ghost var said, rest := report.issues, DetectFields(path, fields[i + 1..]);
      assert said + (DetectField(path, fields[i]) + rest) == said + DetectField(path, fields[i]) + rest;
      if fields[i].value.Obj? && Member(fields[i].value, "value") == Str(PLACEHOLDER) {
        report.Push(SecretIssue(path, fields[i].key));
      } else {
        assert said + [] == said;
      }
      i := i + 1;
    }
    assert fields[i..] == [];
    NothingToDetect();
  }

  datatype Request = Request(
    name: string, displayName: string, scope: string, networks: Json, volumes: Json, services: Json,
    description: Option<string>, category: Option<string>, networkType: Option<string>, sections: seq<Field>)

  datatype ImportResult = ImportResult(ok: bool, request: Option<Request>, issues: seq<Issue>,
    templateName: Option<string>)

  const PASSED_KEYS := ["parameters", "defaultParameterValues", "networkTypeDefaults", "resourceOutputs",
    "resourceInputs", "configFiles", "inputs", "vault", "nats", "requires"]

  function TextOr(v: Json, otherwise: string): string { if v.Str? then v.text else otherwise }
  function TextOption(v: Json): Option<string> { if v.Str? then Some(v.text) else None }
  function ArrayOrEmpty(v: Json): Json { if v.Arr? then v else Arr([]) }

  function PassThrough(source: seq<Field>, target: seq<Field>, key: string): seq<Field> {
    PutUnlessNullish(target, key, Get(source, key))
  }

  function PassAll(keys: seq<string>, source: seq<Field>, target: seq<Field>): seq<Field> {
    if keys == [] then target else PassAll(keys[1..], source, PassThrough(source, target, keys[0]))
  }

  /** Whether the file's scope can be a user template's. */
  predicate UserScope(v: Json) { v == Str("host") || v == Str("environment") }

  predicate CustomPrefix(version: seq<Field>) {
    var subjectPrefix := Member(Get(version, "nats"), "subjectPrefix");
    subjectPrefix.Str? && subjectPrefix.text != "" && subjectPrefix.text != DEFAULT_SUBJECT_PREFIX
  }

  function NameIssues(template: seq<Field>): seq<Issue> {
    (if TextOr(Get(template, "name"), "") == "" then [Issue(Error, ["template", "name"], Plain)] else [])
    + (if TextOr(Get(template, "displayName"), "") == "" then [Issue(Error, ["template", "displayName"], Plain)]
      else [])
  }

  /** How the scope issue spells a scope. */
  function ScopeText(rt: Runtime, scope: Json): string { if Nullish(scope) then "unset" else Text(rt, scope) }

  function ScopeIssues(rt: Runtime, template: seq<Field>): seq<Issue> {
    var scope := Get(template, "scope");
    if UserScope(scope) then [] else [Issue(Defaulted, ["template", "scope"], Shown(ScopeText(rt, scope)))]
  }

  function PrefixIssues(version: seq<Field>): seq<Issue> {
    if CustomPrefix(version)
    then [Issue(Lossy, ["version", "nats", "subjectPrefix"], Shown(Member(Get(version, "nats"), "subjectPrefix").text))]
      else []
  }

  function Findings(rt: Runtime, template: seq<Field>, version: seq<Field>): seq<Issue> {
    NameIssues(template) + ScopeIssues(rt, template) + PrefixIssues(version) + Detect(version)
  }

  predicate SomeError(issues: seq<Issue>) { exists i | 0 <= i < |issues| :: issues[i].level.Error? }

  function Requested(template: seq<Field>, version: seq<Field>): Request {
    Request(TextOr(Get(template, "name"), ""), TextOr(Get(template, "displayName"), ""),
            if UserScope(Get(template, "scope")) then Get(template, "scope").text else "environment",
            ArrayOrEmpty(Get(version, "networks")), ArrayOrEmpty(Get(version, "volumes")),
              ArrayOrEmpty(Get(version, "services")),
            TextOption(Get(template, "description")), TextOption(Get(template, "category")),
              TextOption(Get(template, "networkType")),
            PassAll(PASSED_KEYS, version, []))
  }

  function Fail(path: seq<string>, detail: Detail): ImportResult {
    ImportResult(false, None, [Issue(Error, path, detail)], None)
  }

  function Import(rt: Runtime, doc: Json): ImportResult {
    var format, template, version := Member(doc, "format"), Member(doc, "template"), Member(doc, "version");
    if !doc.Obj? then Fail([], Plain)
    else if !(format.Str? && FORMAT_PREFIX <= format.text) then Fail(["format"], Plain)
    else if format.text != FORMAT then Fail(["format"], Shown(format.text))
    else if !template.Obj? then Fail(["template"], Plain)
    else if !version.Obj? then Fail(["version"], Plain)
    else
      var issues, name := Findings(rt, template.fields, version.fields), TextOr(Get(template.fields, "name"), "");
      if SomeError(issues) then ImportResult(false, None, issues, if name == "" then None else Some(name))
      else ImportResult(true, Some(Requested(template.fields, version.fields)), issues, Some(name))
  }

  method MapTemplateImportDocument(rt: Runtime, doc: Json) returns (r: ImportResult)
    ensures r == Import(rt, doc)
  {
    hide PassAll, Detect, Get;
    if !doc.Obj? { return Fail([], Plain); }
    var format := Member(doc, "format");
    if !format.Str? || !(FORMAT_PREFIX <= format.text) { return Fail(["format"], Plain); }
    if format.text != FORMAT { return Fail(["format"], Shown(format.text)); }
    if !Member(doc, "template").Obj? { return Fail(["template"], Plain); }
    if !Member(doc, "version").Obj? { return Fail(["version"], Plain); }
    var template, version := Member(doc, "template").fields, Member(doc, "version").fields;
    var report := new Report();
    var name, displayName := TextOr(Get(template, "name"), ""), TextOr(Get(template, "displayName"), "");
    if name == "" { report.Push(Issue(Error, ["template", "name"], Plain)); }
    if displayName == "" { report.Push(Issue(Error, ["template", "displayName"], Plain)); }
    assert report.issues == NameIssues(template);
    var scope := "environment";
    if UserScope(Get(template, "scope")) { scope := Get(template, "scope").text; }
    else { report.Push(Issue(Defaulted, ["template", "scope"], Shown(ScopeText(rt, Get(template, "scope"))))); }
    assert report.issues == NameIssues(template) + ScopeIssues(rt, template);
    if CustomPrefix(version) {
      report.Push(Issue(Lossy, ["version", "nats", "subjectPrefix"],
        Shown(Member(Get(version, "nats"), "subjectPrefix").text)));
    }
    assert report.issues == NameIssues(template) + ScopeIssues(rt, template) + PrefixIssues(version);
    DetectRedactedSecrets(version, report);
    if SomeError(report.issues) {
      return ImportResult(false, None, report.issues, if name == "" then None else Some(name));
    }
    var sections := PassSections(version);
    var request := Request(name, displayName, scope,
      ArrayOrEmpty(Get(version, "networks")), ArrayOrEmpty(Get(version, "volumes")),
        ArrayOrEmpty(Get(version, "services")),
      TextOption(Get(template, "description")), TextOption(Get(template, "category")),
        TextOption(Get(template, "networkType")),
      sections);
    r := ImportResult(true, Some(request), report.issues, Some(name));
  }

  method PassSections(version: seq<Field>) returns (sections: seq<Field>)
    ensures sections == PassAll(PASSED_KEYS, version, [])
  {
    sections := [];
    var i := 0;
    assert PASSED_KEYS[0..] == PASSED_KEYS;
    while i < |PASSED_KEYS|
      invariant 0 <= i <= |PASSED_KEYS|
      invariant PassAll(PASSED_KEYS, version, []) == PassAll(PASSED_KEYS[i..], version, sections)
    {
      assert PASSED_KEYS[i..][1..] == PASSED_KEYS[i + 1..];
      sections := PassThrough(version, sections, PASSED_KEYS[i]);
      i := i + 1;
    }
  }

  // The round trip

  /** An import of any document at all succeeds exactly on a named template of the current format. */
  lemma ImportSucceedsIff(rt: Runtime, doc: Json)
    ensures Import(rt, doc).ok <==>
      && Member(doc, "format") == Str(FORMAT) && Member(doc, "template").Obj? && Member(doc, "version").Obj?
      && TextOr(Member(Member(doc, "template"), "name"), "") != ""
      && TextOr(Member(Member(doc, "template"), "displayName"), "") != ""
    ensures Import(rt, doc).ok <==> !SomeError(Import(rt, doc).issues)
    ensures Import(rt, doc).ok <==> Import(rt, doc).request.Some?
  {
    hide Get, Requested, Findings;
    var template, version := Member(doc, "template"), Member(doc, "version");
    if template.Obj? && version.Obj? { OnlyNamesBlock(rt, template.fields, version.fields); }
    assert SomeError([Issue(Error, [], Plain)]) by { assert [Issue(Error, [], Plain)][0].level.Error?; }
    forall path, detail ensures SomeError(Fail(path, detail).issues) {
      assert Fail(path, detail).issues[0].level.Error?;
    }
    PrefixOfFormat();
  }

  lemma PrefixOfFormat()
    ensures FORMAT_PREFIX <= FORMAT
  {
    assert FORMAT[..|FORMAT_PREFIX|] == FORMAT_PREFIX;
  }

  lemma OnlyNamesBlock(rt: Runtime, template: seq<Field>, version: seq<Field>)
    ensures SomeError(Findings(rt, template, version)) <==>
      TextOr(Get(template, "name"), "") == "" || TextOr(Get(template, "displayName"), "") == ""
  {
    hide Get, Detect, ScopeIssues, PrefixIssues;
    var names, rest := NameIssues(template), ScopeIssues(rt, template) + PrefixIssues(version) + Detect(version);
    OtherFindingsDoNot(rt, template, version);
    assert Findings(rt, template, version) == names + rest;
    assert forall i | 0 <= i < |names| :: names[i].level.Error?;
    if names != [] { assert Findings(rt, template, version)[0].level.Error?; }
  }

  lemma OtherFindingsDoNot(rt: Runtime, template: seq<Field>, version: seq<Field>)
    ensures !SomeError(ScopeIssues(rt, template) + PrefixIssues(version) + Detect(version))
  {
    hide Get, Detect, ScopeText, CustomPrefix, UserScope;
    DetectIsNoError(version);
  }

  lemma DetectIsNoError(version: seq<Field>)
    ensures forall i | 0 <= i < |Detect(version)| :: !Detect(version)[i].level.Error?
  {
    EntriesNameNoError(Kv(Get(version, "vault")));
  }

  lemma {:induction false} EntriesNameNoError(kv: seq<Json>)
    ensures forall i | 0 <= i < |DetectEntries(kv)| :: !DetectEntries(kv)[i].level.Error?
  {
    if kv != [] {
      EntriesNameNoError(kv[1..]);
      if kv[0].Obj? && Member(kv[0], "fields").Obj? {
        FieldsNameNoError(EntryPath(kv[0]), Member(kv[0], "fields").fields);
      }
    }
  }

  lemma {:induction false} FieldsNameNoError(path: string, fields: seq<Field>)
    ensures forall i | 0 <= i < |DetectFields(path, fields)| :: !DetectFields(path, fields)[i].level.Error?
  {
    if fields != [] { FieldsNameNoError(path, fields[1..]); }
  }

  lemma {:induction false} GetPassed(keys: seq<string>, source: seq<Field>, target: seq<Field>, k: string)
    ensures Get(PassAll(keys, source, target), k)
         == if k in keys && !Nullish(Get(source, k)) then Get(source, k) else Get(target, k)
  {
    hide Get, Put;
    if keys != [] {
      GetPut(target, keys[0], Get(source, keys[0]), k);
      GetPassed(keys[1..], source, PassThrough(source, target, keys[0]), k);
    }
  }

  lemma {:induction false} RedactionsAreDetected(path: string, fields: seq<Field>)
    requires forall i | 0 <= i < |fields| :: !Nullish(fields[i].value)
    ensures DetectFields(path, RedactFields(fields)) == FieldIssues(path, fields)
  {
    hide IsLiteral;
    if fields != [] {
      RedactionIsDetected(path, fields[0]);
      assert RedactFields(fields)[1..] == RedactFields(fields[1..]);
      RedactionsAreDetected(path, fields[1..]);
    }
  }

  lemma RedactionIsDetected(path: string, field: Field)
    ensures DetectField(path, Field(field.key, RedactField(field.value))) == FieldIssue(path, field)
  {
    assert Member(Redacted(), "value") == Str(PLACEHOLDER);
  }

  lemma {:induction false} EntryRedactionsAreDetected(kv: seq<Json>)
    requires EntriesTyped(kv)
    ensures DetectEntries(RedactEntries(kv)) == EntriesIssues(kv)
  {
    hide Get, Put, RedactFields, DetectFields, FieldIssues;
    if kv != [] {
      var fields := Member(kv[0], "fields").fields;
      EntryRedactionsAreDetected(kv[1..]);
      RedactionsAreDetected(Member(kv[0], "path").text, fields);
      GetPut(kv[0].fields, "fields", Obj(RedactFields(fields)), "fields");
      GetPut(kv[0].fields, "fields", Obj(RedactFields(fields)), "path");
      assert RedactEntries(kv)[1..] == RedactEntries(kv[1..]);
      assert DetectEntry(RedactEntry(kv[0])) == EntryIssues(kv[0]);
    }
  }

  /** An import names exactly the secrets that the export removed, in the same order. */
  lemma ImportNamesWhatExportRemoved(version: seq<Field>)
    requires ExportTyped(version)
    ensures Detect(ExportedVersion(version)) == ExportIssues(version)
  {
    hide Get, RedactEntries, DetectEntries, EntriesIssues, BuildDraft, RedactVault, Put;
    ExportedSections(version, "vault");
    var vault := Get(version, "vault");
    NothingToDetect();
    if !Nullish(vault) {
      PutKv(vault);
      EntryRedactionsAreDetected(Kv(vault));
      if Kv(vault) == [] { assert Kv(RedactVault(vault)) == [] && EntriesIssues([]) == [] by { NoEntryIssues(); } }
    }
  }

  predicate EnvelopeTyped(envelope: Json) {
    && envelope.Obj?
    && Member(envelope, "name").Str? && Member(envelope, "displayName").Str? && Member(envelope, "scope").Str?
  }

  /** What an import request holds of a section of a version body. */
  function Received(request: Request, key: string): Json {
    if key == "networks" then request.networks
    else if key == "volumes" then request.volumes
    else if key == "services" then request.services
    else Get(request.sections, key)
  }

  /** The import of an export, and everything it reports. */
  lemma ExportThenImport(rt: Runtime, envelope: Json, version: seq<Field>, exportedAt: Option<string>)
    requires EnvelopeTyped(envelope) && ExportTyped(version)
    ensures var r := Import(rt, Document(envelope, version, exportedAt));
      && (r.ok <==> Member(envelope, "name").text != "" && Member(envelope, "displayName").text != "")
      && r.issues == NameIssues(envelope.fields) + ScopeIssues(rt, envelope.fields)
        + PrefixIssues(ExportedVersion(version)) + ExportIssues(version)
      && (r.ok ==> r.request == Some(Requested(envelope.fields, ExportedVersion(version))))
  {
    hide Get, ExportedVersion, ExportIssues, NameIssues, ScopeIssues, PrefixIssues, Detect, Requested, Document;
    DocumentParts(envelope, version, exportedAt);
    ImportNamesWhatExportRemoved(version);
    OnlyNamesBlock(rt, envelope.fields, ExportedVersion(version));
    PrefixOfFormat();
  }

  /** An optional text of the request that comes from one key of the template. */
  predicate ComesFrom(text: Option<string>, v: Json) { if v.Str? then text == Some(v.text) else text.None? }

  /** Whatever document a request was made from, each of its texts is that of its own key of the template. */
  lemma RequestReads(rt: Runtime, doc: Json)
    requires Import(rt, doc).ok
    ensures Import(rt, doc).request.Some?
    ensures var template, r := Member(doc, "template"), Import(rt, doc).request.value;
      && Member(template, "name") == Str(r.name) && Member(template, "displayName") == Str(r.displayName)
      && (r.scope == "host" <==> Member(template, "scope") == Str("host"))
      && (r.scope == "environment" <==> Member(template, "scope") != Str("host"))
      && ComesFrom(r.description, Member(template, "description"))
      && ComesFrom(r.category, Member(template, "category"))
      && ComesFrom(r.networkType, Member(template, "networkType"))
      && Import(rt, doc).templateName == Some(r.name)
  {
    hide Get, PassAll, Findings;
    ImportSucceedsIff(rt, doc);
    var a, b := "host", "environment";
    assert |a| == 4 && |b| == 11;
  }

  /** An import of an export asks for a template with the same names, texts and scope, if it can be a user's. */
  lemma EnvelopeArrives(rt: Runtime, envelope: Json, version: seq<Field>, exportedAt: Option<string>)
    requires EnvelopeTyped(envelope) && ExportTyped(version)
    requires Import(rt, Document(envelope, version, exportedAt)).ok
    ensures Import(rt, Document(envelope, version, exportedAt)).request.Some?
    ensures var r := Import(rt, Document(envelope, version, exportedAt)).request.value;
      && Str(r.name) == Member(envelope, "name") && Str(r.displayName) == Member(envelope, "displayName")
      && (UserScope(Member(envelope, "scope")) ==> Str(r.scope) == Member(envelope, "scope"))
      && (!UserScope(Member(envelope, "scope")) ==> r.scope == "environment")
      && ComesFrom(r.description, Member(envelope, "description"))
      && ComesFrom(r.category, Member(envelope, "category"))
      && ComesFrom(r.networkType, Member(envelope, "networkType"))
  {
    hide Import, Document, Get, ExportTyped;
    DocumentParts(envelope, version, exportedAt);
    RequestReads(rt, Document(envelope, version, exportedAt));
    var a, b := "host", "environment";
    assert |a| == 4 && |b| == 11;
  }

  predicate IsList(key: string) { key in {"networks", "volumes", "services"} }

  /** The sections of a request made from any version body. */
  lemma ReceivedFrom(template: seq<Field>, body: seq<Field>, k: string)
    ensures Received(Requested(template, body), k)
         == if IsList(k) then ArrayOrEmpty(Get(body, k)) else if k in PASSED_KEYS then Optional(Get(body, k))
           else Undefined
  {
    hide Get, PassAll, TextOr, TextOption, UserScope;
    GetPassed(PASSED_KEYS, body, [], k);
    assert Get([], k) == Undefined by { NoSuchKey([], k); }
  }

  /** The sections of the request, each read off the version that was exported: all of them except the notes. */
  lemma SectionsArrive(envelope: Json, version: seq<Field>, k: string)
    requires EnvelopeTyped(envelope) && ExportTyped(version)
    ensures Received(Requested(envelope.fields, ExportedVersion(version)), k)
         == if k == "notes" then Undefined else Get(ExportedVersion(version), k)
  {
    hide Get, ExportedVersion, RedactVault, Section, Received, Requested, IsList, ExportTyped;
    ReceivedFrom(envelope.fields, ExportedVersion(version), k);
    ExportedSections(version, k);
    SectionKeys(k);
    SectionShapes(version, k);
  }

  lemma SectionShapes(version: seq<Field>, k: string)
    requires ExportTyped(version)
    ensures !Section(version, k).Null? && (IsList(k) ==> Section(version, k).Arr?)
    ensures k !in DRAFT_KEYS && k != "vault" && k != "nats" ==> Section(version, k).Undefined?
    ensures !Nullish(Get(version, "vault")) ==> RedactVault(Get(version, "vault")).Obj?
  {
    hide Get, Put, StripItems, MapServices, MapConfigFiles, Items, RedactEntries, VaultTyped, Kv;
    StripNullIsProjection(Get(version, k));
    SectionsAreMapped(k);
    if IsList(k) { ListsInDraft(k); }
  }

  lemma ListsInDraft(k: string)
    requires IsList(k)
    ensures k in DRAFT_KEYS && k != "vault" && k != "nats" && k != "configFiles"
  {
  }

  lemma SectionKeys(k: string)
    ensures k == "notes" ==> k !in PASSED_KEYS && !IsList(k)
    ensures IsList(k) ==> k != "vault"
    ensures k != "notes" && !IsList(k) && k !in PASSED_KEYS ==> k !in DRAFT_KEYS && k != "vault" && k != "nats"
  {
  }

  /**
   * Whatever is not carried across is meant to be reported. Release notes are not carried, and no import issue
   * names them: the whole exported body arrives exactly if the version has none.
   */
  lemma BodyArrivesIff(envelope: Json, version: seq<Field>)
    requires EnvelopeTyped(envelope) && ExportTyped(version)
    ensures (forall k ::
               Received(Requested(envelope.fields, ExportedVersion(version)), k) == Get(ExportedVersion(version), k))
       <==> Nullish(Get(version, "notes"))
  {
    hide Get, ExportedVersion, RedactVault, Requested, Received, Section;
    var request := Requested(envelope.fields, ExportedVersion(version));
    SectionsArrive(envelope, version, "notes");
    ExportedSections(version, "notes");
    NotesSection(version);
    assert Received(request, "notes") == Get(ExportedVersion(version), "notes") <==> Nullish(Get(version, "notes"));
    forall k ensures Received(request, k) == Get(ExportedVersion(version), k)
                <==> (k == "notes" ==> Nullish(Get(version, "notes")))
    {
      SectionsArrive(envelope, version, k);
    }
  }

  lemma NotesSection(version: seq<Field>)
    ensures Section(version, "notes") == Undefined <==> Nullish(Get(version, "notes"))
    ensures "notes" != "vault"
  {
    StripNullIsProjection(Get(version, "notes"));
  }

  lemma NotesAreNeverNamed(rt: Runtime, template: seq<Field>, version: seq<Field>)
    ensures forall i | 0 <= i < |Findings(rt, template, version)| ::
      Findings(rt, template, version)[i].path != ["version", "notes"]
  {
    hide Get, Detect;
    DetectNamesFields(Kv(Get(version, "vault")));
    assert Detect(version) == DetectEntries(Kv(Get(version, "vault"))) by { DetectUnfolds(version); }
  }

  lemma DetectUnfolds(version: seq<Field>)
    ensures Detect(version) == DetectEntries(Kv(Get(version, "vault")))
  {
  }

  lemma {:induction false} DetectNamesFields(kv: seq<Json>)
    ensures forall i | 0 <= i < |DetectEntries(kv)| :: |DetectEntries(kv)[i].path| == 5
  {
    if kv != [] {
      DetectNamesFields(kv[1..]);
      if kv[0].Obj? && Member(kv[0], "fields").Obj? {
        DetectNamesOneField(EntryPath(kv[0]), Member(kv[0], "fields").fields);
      }
    }
  }

  lemma {:induction false} DetectNamesOneField(path: string, fields: seq<Field>)
    ensures forall i | 0 <= i < |DetectFields(path, fields)| :: |DetectFields(path, fields)[i].path| == 5
  {
    if fields != [] { DetectNamesOneField(path, fields[1..]); }
  }

  /** Some issue is about that path. */
  ghost predicate Mentions(issues: seq<Issue>, path: seq<string>) {
    exists i :: 0 <= i < |issues| && issues[i].path == path
  }

  /**
   * Which of the checks of an import speak up, whatever the document: a name that is missing, a scope that no user
   * template can have, a subject prefix that is not the default.
   */
  lemma FindingsIff(rt: Runtime, template: seq<Field>, version: seq<Field>)
    ensures var issues, nats := Findings(rt, template, version), Get(version, "nats");
      && (Mentions(issues, ["template", "name"]) <==>
            Get(template, "name") == Str("") || !Get(template, "name").Str?)
      && (Mentions(issues, ["template", "displayName"]) <==>
            Get(template, "displayName") == Str("") || !Get(template, "displayName").Str?)
      && (Mentions(issues, ["template", "scope"]) <==>
            Get(template, "scope") != Str("host") && Get(template, "scope") != Str("environment"))
      && (Mentions(issues, ["version", "nats", "subjectPrefix"]) <==>
            Member(nats, "subjectPrefix").Str?
            && Member(nats, "subjectPrefix") != Str("") && Member(nats, "subjectPrefix") != Str("app.{{stack.id}}"))
  {
    hide Get, Detect, ScopeText, Mentions;
    FindingMentions(rt, template, version, ["template", "name"]);
    FindingMentions(rt, template, version, ["template", "displayName"]);
    FindingMentions(rt, template, version, ["template", "scope"]);
    FindingMentions(rt, template, version, ["version", "nats", "subjectPrefix"]);
    PathsDiffer();
  }

  lemma PathsDiffer()
    ensures ["template", "name"] != ["template", "displayName"] && ["template", "name"] != ["template", "scope"]
    ensures ["template", "displayName"] != ["template", "scope"]
  {
    assert |"name"| == 4 && |"scope"| == 5 && |"displayName"| == 11;
    assert ["template", "name"][1] == "name" && ["template", "displayName"][1] == "displayName";
    assert ["template", "scope"][1] == "scope";
  }

  lemma MentionsAppend(a: seq<Issue>, b: seq<Issue>, path: seq<string>)
    ensures Mentions(a + b, path) <==> Mentions(a, path) || Mentions(b, path)
  {
    if i :| 0 <= i < |a| && a[i].path == path { assert (a + b)[i] == a[i]; }
    if i :| 0 <= i < |b| && b[i].path == path { assert (a + b)[|a| + i] == b[i]; }
  }

  lemma MentionsOne(issue: Issue, path: seq<string>)
    ensures (Mentions([issue], path) <==> issue.path == path) && !Mentions([], path)
  {
    assert [issue][0] == issue;
  }

  lemma FindingMentions(rt: Runtime, template: seq<Field>, version: seq<Field>, path: seq<string>)
    requires |path| < 5
    ensures Mentions(Findings(rt, template, version), path) <==>
      || (TextOr(Get(template, "name"), "") == "" && path == ["template", "name"])
      || (TextOr(Get(template, "displayName"), "") == "" && path == ["template", "displayName"])
      || (!UserScope(Get(template, "scope")) && path == ["template", "scope"])
      || (CustomPrefix(version) && path == ["version", "nats", "subjectPrefix"])
  {
    hide Get, Detect, Mentions, NameIssues, ScopeIssues, PrefixIssues, CustomPrefix, UserScope, TextOr;
    NamesMention(template, path);
    ScopeMentions(rt, template, path);
    PrefixMentions(version, path);
    DetectMentionsDeep(version, path);
    var a, b, c := NameIssues(template), ScopeIssues(rt, template), PrefixIssues(version);
    MentionsAppend(a, b, path);
    MentionsAppend(a + b, c, path);
    MentionsAppend(a + b + c, Detect(version), path);
  }

  lemma NamesMention(template: seq<Field>, path: seq<string>)
    ensures Mentions(NameIssues(template), path) <==>
      || (TextOr(Get(template, "name"), "") == "" && path == ["template", "name"])
      || (TextOr(Get(template, "displayName"), "") == "" && path == ["template", "displayName"])
  {
    hide Get, Mentions, TextOr;
    var x, y := Issue(Error, ["template", "name"], Plain), Issue(Error, ["template", "displayName"], Plain);
    MentionsOne(x, path);
    MentionsOne(y, path);
    var a := if TextOr(Get(template, "name"), "") == "" then [x] else [];
    var b := if TextOr(Get(template, "displayName"), "") == "" then [y] else [];
    MentionsAppend(a, b, path);
    assert NameIssues(template) == a + b;
  }

  lemma ScopeMentions(rt: Runtime, template: seq<Field>, path: seq<string>)
    ensures Mentions(ScopeIssues(rt, template), path) <==>
      !UserScope(Get(template, "scope")) && path == ["template", "scope"]
  {
    hide Get, Mentions, UserScope, ScopeText;
    MentionsOne(Issue(Defaulted, ["template", "scope"], Shown(ScopeText(rt, Get(template, "scope")))), path);
  }

  lemma PrefixMentions(version: seq<Field>, path: seq<string>)
    ensures Mentions(PrefixIssues(version), path) <==>
      CustomPrefix(version) && path == ["version", "nats", "subjectPrefix"]
  {
    hide Get, Mentions;
    MentionsOne(Issue(Lossy, path, Plain), path);
    if CustomPrefix(version) { MentionsOne(PrefixIssues(version)[0], path); }
  }

  lemma DetectMentionsDeep(version: seq<Field>, path: seq<string>)
    requires |path| < 5
    ensures !Mentions(Detect(version), path)
  {
    DetectNamesFields(Kv(Get(version, "vault")));
    DetectUnfolds(version);
    hide Detect, DetectEntries;
  }

  /** Which fields an export names: those of an entry whose value is a text, by the entry's path and their own name. */
  lemma {:induction false} LiteralsAreNamedIff(path: string, fields: seq<Field>, name: string)
    ensures Mentions(FieldIssues(path, fields), ["version", "vault", "kv[" + path + "]", "fields", name]) <==>
      exists i :: 0 <= i < |fields| && fields[i].key == name && Member(fields[i].value, "value").Str?
  {
    hide Mentions;
    var at := ["version", "vault", "kv[" + path + "]", "fields", name];
    MentionsOne(SecretIssue(path, name), at);
    if fields != [] {
      var first, rest := fields[0], fields[1..];
      LiteralsAreNamedIff(path, rest, name);
      MentionsAppend(FieldIssue(path, first), FieldIssues(path, rest), at);
      MentionsOne(SecretIssue(path, first.key), at);
      assert SecretIssue(path, first.key).path[4] == first.key && at[4] == name;
      assert forall i | 0 <= i < |rest| :: rest[i] == fields[i + 1];
      assert forall i | 0 < i < |fields| :: fields[i] == rest[i - 1];
    }
  }
}
