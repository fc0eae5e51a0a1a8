/** What the import of any template document, exported or written by hand, carries across and what it loses. */
module TemplateLosses {
  import opened Sequences
  import opened Json
  import opened ImportIssues
  import opened ImportOutcomes
  import opened ComposeText
  import opened TemplateTransfer

  /** A document that is read as far as its template and version. */
  predicate Readable(doc: Json) {
    Member(doc, "format") == Str(FORMAT) && Member(doc, "template").Obj? && Member(doc, "version").Obj?
  }

  predicate Named(template: seq<Field>) {
    TextOr(Get(template, "name"), "") != "" && TextOr(Get(template, "displayName"), "") != ""
  }

  function ResultOf(rt: Runtime, template: seq<Field>, version: seq<Field>): ImportResult {
    var name := TextOr(Get(template, "name"), "");
    ImportResult(Named(template), if Named(template) then Some(Requested(template, version)) else None,
      Findings(rt, template, version), if name == "" then None else Some(name))
  }

  lemma ImportIsResult(rt: Runtime, doc: Json)
    requires Readable(doc)
    ensures Import(rt, doc) == ResultOf(rt, Member(doc, "template").fields, Member(doc, "version").fields)
  {
    hide Get, Requested, Findings;
    PrefixOfFormat();
    OnlyNamesBlock(rt, Member(doc, "template").fields, Member(doc, "version").fields);
  }

  // Keys of the document

  /** When deleting a key of a document has no effect: the first unreadable part is all that is reported. */
  predicate DocumentKeyInert(fields: seq<Field>, key: string) {
    var format := Get(fields, "format");
    if key == "format" then !(format.Str? && FORMAT_PREFIX <= format.text)
    else if key == "template" then format != Str(FORMAT) || !Get(fields, "template").Obj?
    else if key == "version" then
      format != Str(FORMAT) || !Get(fields, "template").Obj? || !Get(fields, "version").Obj?
    else true
  }

  lemma DocumentKeyIsLostIff(rt: Runtime, fields: seq<Field>, key: string)
    requires !Nullish(Get(fields, key))
    ensures Import(rt, Obj(Without(fields, key))) == Import(rt, Obj(fields)) <==> DocumentKeyInert(fields, key)
  {
    hide Get, Without, Requested, Findings, TextOr;
    GetWithout(fields, key, "format");
    GetWithout(fields, key, "template");
    GetWithout(fields, key, "version");
    if Readable(Obj(fields)) {
      FailIsNoResult(rt, Get(fields, "template").fields, Get(fields, "version").fields);
      ImportIsResult(rt, Obj(fields));
    }
    PrefixOfFormat();
  }

  lemma FailIsNoResult(rt: Runtime, template: seq<Field>, version: seq<Field>)
    ensures forall path, detail | |path| < 2 :: ResultOf(rt, template, version) != Fail(path, detail)
  {
    hide Get, Requested, Detect, ScopeText, CustomPrefix, UserScope;
    if !Named(template) { assert Findings(rt, template, version)[0].path[0] == "template"; }
  }

  // Keys of the template

  /** When deleting a key of the template has no effect. */
  predicate TemplateKeyInert(rt: Runtime, template: seq<Field>, key: string) {
    if key == "name" || key == "displayName" then TextOr(Get(template, key), "") == ""
    else if key == "scope" then ScopeText(rt, Get(template, key)) == "unset"
    else if key in {"description", "category", "networkType"} then !Named(template) || !Get(template, key).Str?
    else true
  }

  lemma FindingsDecide(rt: Runtime, a: seq<Field>, b: seq<Field>, version: seq<Field>)
    requires NameIssues(a) == NameIssues(b) || ScopeIssues(rt, a) == ScopeIssues(rt, b)
    ensures Findings(rt, a, version) == Findings(rt, b, version) <==>
      NameIssues(a) == NameIssues(b) && ScopeIssues(rt, a) == ScopeIssues(rt, b)
  {
    hide NameIssues, ScopeIssues, PrefixIssues, Detect;
    var rest := PrefixIssues(version) + Detect(version);
    forall t ensures Findings(rt, t, version) == NameIssues(t) + ScopeIssues(rt, t) + rest
             ensures Findings(rt, t, version) == [] + NameIssues(t) + (ScopeIssues(rt, t) + rest)
    {
    }
    SandwichDecides(NameIssues(a), ScopeIssues(rt, a), ScopeIssues(rt, b), rest);
    SandwichDecides([], NameIssues(a), NameIssues(b), ScopeIssues(rt, a) + rest);
  }

  lemma NameKeyIsLostIff(rt: Runtime, template: seq<Field>, version: seq<Field>, key: string)
    requires key == "name" || key == "displayName"
    ensures ResultOf(rt, Without(template, key), version) == ResultOf(rt, template, version) <==>
      TextOr(Get(template, key), "") == ""
  {
    hide Get, Without, PassAll, ScopeText, UserScope, ScopeIssues, Findings;
    GetWithout(template, key, "name");
    GetWithout(template, key, "displayName");
    GetWithout(template, key, "description");
    GetWithout(template, key, "category");
    GetWithout(template, key, "networkType");
    ScopeReads(rt, template, key);
    FindingsDecide(rt, template, Without(template, key), version);
  }

  lemma ScopeReads(rt: Runtime, template: seq<Field>, key: string)
    requires key != "scope"
    ensures Get(Without(template, key), "scope") == Get(template, "scope")
    ensures ScopeIssues(rt, Without(template, key)) == ScopeIssues(rt, template)
  {
    hide Get, Without, ScopeText, UserScope;
    GetWithout(template, key, "scope");
  }

  lemma NamesRead(template: seq<Field>, key: string)
    requires key != "name" && key != "displayName"
    ensures NameIssues(Without(template, key)) == NameIssues(template)
    ensures Named(Without(template, key)) == Named(template)
    ensures Get(Without(template, key), "name") == Get(template, "name")
    ensures Get(Without(template, key), "displayName") == Get(template, "displayName")
  {
    hide Get, Without;
    GetWithout(template, key, "name");
    GetWithout(template, key, "displayName");
  }

  lemma ScopeKeyIsLostIff(rt: Runtime, template: seq<Field>, version: seq<Field>)
    ensures ResultOf(rt, Without(template, "scope"), version) == ResultOf(rt, template, version) <==>
      ScopeText(rt, Get(template, "scope")) == "unset"
  {
    hide Get, Without, PassAll, NameIssues, Findings, Text, Named, TextOr;
    var rest := Without(template, "scope");
    NamesRead(template, "scope");
    GetWithout(template, "scope", "scope");
    GetWithout(template, "scope", "description");
    GetWithout(template, "scope", "category");
    GetWithout(template, "scope", "networkType");
    FindingsDecide(rt, template, rest, version);
    ScopesRead(rt, Get(template, "scope"));
  }

  lemma ScopesRead(rt: Runtime, scope: Json)
    ensures UserScope(scope) ==> ScopeText(rt, scope) != "unset"
  {
    var a, b, c := "host", "environment", "unset";
    assert |a| == 4 && |b| == 11 && |c| == 5;
  }

  lemma OtherKeyIsLostIff(rt: Runtime, template: seq<Field>, version: seq<Field>, key: string)
    requires key !in {"name", "displayName", "scope"} && !Nullish(Get(template, key))
    ensures ResultOf(rt, Without(template, key), version) == ResultOf(rt, template, version) <==>
      (key in {"description", "category", "networkType"} ==> !Named(template) || !Get(template, key).Str?)
  {
    hide Get, Without, PassAll, NameIssues, Findings, Text, Named, TextOr, ScopeIssues, UserScope;
    NamesRead(template, key);
    ScopeReads(rt, template, key);
    GetWithout(template, key, "description");
    GetWithout(template, key, "category");
    GetWithout(template, key, "networkType");
    FindingsDecide(rt, template, Without(template, key), version);
  }

  lemma ResultReadsTemplate(rt: Runtime, template: seq<Field>, version: seq<Field>, key: string)
    requires !Nullish(Get(template, key))
    ensures ResultOf(rt, Without(template, key), version) == ResultOf(rt, template, version) <==>
      TemplateKeyInert(rt, template, key)
  {
    hide Get, Without, ResultOf, Named, TextOr, ScopeText;
    if key == "name" || key == "displayName" { NameKeyIsLostIff(rt, template, version, key); }
    else if key == "scope" { ScopeKeyIsLostIff(rt, template, version); }
    else { OtherKeyIsLostIff(rt, template, version, key); }
  }

  // Keys of the version body

  /** When deleting a key of the version body has no effect. */
  predicate BodyKeyInert(template: seq<Field>, version: seq<Field>, key: string) {
    if IsList(key) then !Named(template) || ArrayOrEmpty(Get(version, key)) == Arr([])
    else if key in PASSED_KEYS then
      !Named(template) && (key == "vault" ==> Detect(version) == []) && (key == "nats" ==> !CustomPrefix(version))
    else true
  }

  lemma {:induction false} PassedAlike(keys: seq<string>, a: seq<Field>, b: seq<Field>, target: seq<Field>)
    requires forall k | k in keys :: Get(a, k) == Get(b, k)
    ensures PassAll(keys, a, target) == PassAll(keys, b, target)
  {
    hide Get;
    if keys != [] { PassedAlike(keys[1..], a, b, PassThrough(a, target, keys[0])); }
  }

  lemma PassedKeyIsLostIff(version: seq<Field>, key: string)
    requires !Nullish(Get(version, key))
    ensures PassAll(PASSED_KEYS, Without(version, key), []) == PassAll(PASSED_KEYS, version, []) <==>
      key !in PASSED_KEYS
  {
    hide Get, Without, PassAll, PASSED_KEYS;
    var rest := Without(version, key);
    forall k ensures Get(rest, k) == if k == key then Undefined else Get(version, k) { GetWithout(version, key, k); }
    GetPassed(PASSED_KEYS, version, [], key);
    GetPassed(PASSED_KEYS, rest, [], key);
    ListsAreNotPassed(key);
    if key !in PASSED_KEYS { PassedAlike(PASSED_KEYS, version, rest, []); }
  }

  lemma SectionKeyIsLostIff(template: seq<Field>, version: seq<Field>, key: string)
    requires !Nullish(Get(version, key))
    ensures Requested(template, Without(version, key)) == Requested(template, version) <==>
      if IsList(key) then ArrayOrEmpty(Get(version, key)) == Arr([]) else key !in PASSED_KEYS
  {
    hide Get, Without, PassAll, TextOr, TextOption, UserScope, PASSED_KEYS;
    GetWithout(version, key, "networks");
    GetWithout(version, key, "volumes");
    GetWithout(version, key, "services");
    PassedKeyIsLostIff(version, key);
    ListsAreNotPassed(key);
  }

  lemma ListsAreNotPassed(key: string)
    ensures IsList(key) ==> key !in PASSED_KEYS
    ensures "vault" in PASSED_KEYS && "nats" in PASSED_KEYS
    ensures Get([], key) == Undefined
  {
  }

  lemma VersionIssuesRead(version: seq<Field>, key: string)
    ensures key != "nats" ==> PrefixIssues(Without(version, key)) == PrefixIssues(version)
    ensures key != "vault" ==> Detect(Without(version, key)) == Detect(version)
    ensures key == "nats" ==> PrefixIssues(Without(version, key)) == []
    ensures key == "vault" ==> Detect(Without(version, key)) == []
  {
    hide Get, Without;
    GetWithout(version, key, "nats");
    GetWithout(version, key, "vault");
    NothingToDetect();
  }

  lemma VersionFindingsDecide(rt: Runtime, template: seq<Field>, a: seq<Field>, b: seq<Field>)
    requires PrefixIssues(a) == PrefixIssues(b) || Detect(a) == Detect(b)
    ensures Findings(rt, template, a) == Findings(rt, template, b) <==>
      PrefixIssues(a) == PrefixIssues(b) && Detect(a) == Detect(b)
  {
    hide NameIssues, ScopeIssues, PrefixIssues, Detect;
    var head := NameIssues(template) + ScopeIssues(rt, template);
    SandwichDecides(head, PrefixIssues(a), PrefixIssues(b), Detect(a));
    SandwichDecides(head + PrefixIssues(a), Detect(a), Detect(b), []);
    forall v ensures head + PrefixIssues(v) + Detect(v) + [] == Findings(rt, template, v) { }
    assert head + PrefixIssues(a) + Detect(b) + [] == head + PrefixIssues(a) + Detect(b);
  }

  lemma ResultReadsBody(rt: Runtime, template: seq<Field>, version: seq<Field>, key: string)
    requires !Nullish(Get(version, key))
    ensures ResultOf(rt, template, Without(version, key)) == ResultOf(rt, template, version) <==>
      BodyKeyInert(template, version, key)
  {
    hide Get, Without, Named, TextOr, Requested, Findings, Detect, CustomPrefix, ArrayOrEmpty;
    SectionKeyIsLostIff(template, version, key);
    VersionIssuesRead(version, key);
    VersionFindingsDecide(rt, template, version, Without(version, key));
    ListsAreNotPassed(key);
  }

  // The same, of the import of the document

  /** Replacing the template or the version keeps the rest, and what is unreadable stays so. */
  lemma PartReplaced(rt: Runtime, fields: seq<Field>, part: string, value: seq<Field>)
    requires (part == "template" || part == "version") && Get(fields, part).Obj?
    ensures var changed := Obj(Put(fields, part, Obj(value)));
      && Readable(changed) == Readable(Obj(fields))
      && Member(changed, "template") == (if part == "template" then Obj(value) else Get(fields, "template"))
      && Member(changed, "version") == (if part == "version" then Obj(value) else Get(fields, "version"))
      && (!Readable(Obj(fields)) ==> Import(rt, changed) == Import(rt, Obj(fields)))
  {
    hide Get, Put, Findings, Requested;
    GetPut(fields, part, Obj(value), "format");
    GetPut(fields, part, Obj(value), "template");
    GetPut(fields, part, Obj(value), "version");
    PrefixOfFormat();
  }

  /** A key of the template leaves no trace in the import exactly if it is inert. */
  lemma TemplateKeyIsLostIff(rt: Runtime, fields: seq<Field>, key: string)
    requires Get(fields, "template").Obj? && !Nullish(Get(Get(fields, "template").fields, key))
    ensures var template := Get(fields, "template").fields;
      Import(rt, Obj(Put(fields, "template", Obj(Without(template, key))))) == Import(rt, Obj(fields)) <==>
      !Readable(Obj(fields)) || TemplateKeyInert(rt, template, key)
  {
    hide Get, Put, Without, Import, ResultOf, TemplateKeyInert;
    var template := Get(fields, "template").fields;
    PartReplaced(rt, fields, "template", Without(template, key));
    if Readable(Obj(fields)) {
      ImportIsResult(rt, Obj(fields));
      ImportIsResult(rt, Obj(Put(fields, "template", Obj(Without(template, key)))));
      ResultReadsTemplate(rt, template, Get(fields, "version").fields, key);
    }
  }

  /** So does a key of the version body. */
  lemma BodyKeyIsLostIff(rt: Runtime, fields: seq<Field>, key: string)
    requires Get(fields, "version").Obj? && !Nullish(Get(Get(fields, "version").fields, key))
    ensures var version := Get(fields, "version").fields;
      Import(rt, Obj(Put(fields, "version", Obj(Without(version, key))))) == Import(rt, Obj(fields)) <==>
      !Readable(Obj(fields)) || BodyKeyInert(Get(fields, "template").fields, version, key)
  {
    hide Get, Put, Without, Import, ResultOf, BodyKeyInert;
    var version := Get(fields, "version").fields;
    PartReplaced(rt, fields, "version", Without(version, key));
    if Readable(Obj(fields)) {
      ImportIsResult(rt, Obj(fields));
      ImportIsResult(rt, Obj(Put(fields, "version", Obj(Without(version, key)))));
      ResultReadsBody(rt, Get(fields, "template").fields, version, key);
    }
  }
}
