/**
 * A writer of Compose services, against which the importer is checked: what a setting is written as is read as that
 * setting, and a setting can be written exactly if some value of its key is read as it.
 */
module ComposeWriter {
  import opened Sequences
  import opened Json
  import opened ImportIssues
  import opened ImportOutcomes
  import opened ComposeText
  import opened ComposePorts
  import opened ComposeMounts
  import opened ComposeDuration
  import opened ComposeService

  function Strs(words: seq<string>): (r: seq<Json>)
    ensures |r| == |words| && forall i | 0 <= i < |r| :: r[i] == Str(words[i])
  {
    seq(|words|, i requires 0 <= i < |words| => Str(words[i]))
  }

  ghost function PairFields(pairs: map<string, string>): seq<Field> {
    if pairs == map[] then []
    else
      var name :| name in pairs;
      [Field(name, Str(pairs[name]))] + PairFields(pairs - {name})
  }

  function PortJson(p: Port): Json {
    Obj([Field("target", Num(p.containerPort)), Field("published", Num(p.hostPort)),
         Field("protocol", Str(if p.protocol.Udp? then "udp" else "tcp"))])
  }

  function PortsJson(ports: seq<Port>): (r: seq<Json>)
    ensures |r| == |ports| && forall i | 0 <= i < |r| :: r[i] == PortJson(ports[i])
  {
    seq(|ports|, i requires 0 <= i < |ports| => PortJson(ports[i]))
  }

  function MountJson(m: Mount): Json {
    Obj([Field("type", Str(if m.kind.Bind? then "bind" else "volume")), Field("source", Str(m.source)),
         Field("target", Str(m.target)), Field("read_only", Bool(m.readOnly))])
  }

  function MountsJson(mounts: seq<Mount>): (r: seq<Json>)
    ensures |r| == |mounts| && forall i | 0 <= i < |r| :: r[i] == MountJson(mounts[i])
  {
    seq(|mounts|, i requires 0 <= i < |mounts| => MountJson(mounts[i]))
  }

  function Seconds(ms: int): Json { Num(ms as real / 1000.0) }

  ghost function SettingJson(setting: Setting): Json {
    match setting
    case Words(words) => Arr(Strs(words))
    case Line(line) => Str(line)
    case Pairs(pairs) => Obj(PairFields(pairs))
    case PortList(ports) => Arr(PortsJson(ports))
    case MountList(mounts) => Arr(MountsJson(mounts))
    case Check(test, interval, timeout, retries, startPeriod) =>
      Obj([Field("test", Arr(Strs(test))), Field("interval", Seconds(interval)), Field("timeout", Seconds(timeout)),
           Field("retries", Num(retries)), Field("start_period", Seconds(startPeriod))])
    case Log(driver, maxSize, maxFile) =>
      Obj([Field("driver", Str(driver)),
           Field("options", Obj([Field("max-size", Str(maxSize)), Field("max-file", Str(maxFile))]))])
  }

  /** The settings that a key can have, in a file with the given services. */
  predicate Fits(names: seq<string>, key: string, setting: Setting) {
    if key in {"command", "entrypoint", "cap_add", "devices"} then setting.Words?
    else if key in {"environment", "labels"} then setting.Pairs? && setting.pairs != map[]
    else if key == "ports" then
      setting.PortList? && setting.ports != [] && forall i | 0 <= i < |setting.ports| :: PortFits(setting.ports[i])
    else if key == "volumes" then
      setting.MountList? && setting.mounts != [] && forall i | 0 <= i < |setting.mounts| :: MountFits(setting.mounts[i])
    else if key == "healthcheck" then CheckFits(setting)
    else if key == "user" then setting.Line?
    else if key == "restart" then setting.Line? && setting.line in {"no", "always", "unless-stopped", "on-failure"}
    else if key == "network_mode" then setting.Line? && setting.line in {"host", "bridge"}
    else if key == "networks" then setting.Words? && setting.words != []
    else if key == "logging" then setting.Log?
    else if key == "depends_on" then
      setting.Words? && setting.words != [] && forall i | 0 <= i < |setting.words| :: setting.words[i] in names
    else false
  }

  predicate CheckFits(setting: Setting) {
    && setting.Check? && setting.test != [] && setting.retries >= 1.0
    && SafeDuration(setting.interval) && SafeDuration(setting.timeout) && SafeDuration(setting.startPeriod)
    && setting.startPeriod >= 0
  }

  predicate PortFits(p: Port) { p.exposeOnHost <==> p.hostPort > 0.0 }

  /** In the short syntax source and target may be empty, as in ":". */
  predicate MountFits(m: Mount) { m.source != "" && m.target != "" }

  lemma WordsAreRead(rt: Runtime, words: seq<string>)
    ensures Texts(rt, Strs(words)) == words
  {
  }

  lemma {:induction false} RestrictedIsAll(names: seq<string>, words: seq<string>)
    requires forall i | 0 <= i < |words| :: words[i] in names
    ensures Restricted(names, words) == words
  {
    if words != [] {
      assert forall i | 0 <= i < |words[1..]| :: words[1..][i] == words[i + 1];
      RestrictedIsAll(names, words[1..]);
    }
  }

  // Variables

  lemma PairFieldsStep(pairs: map<string, string>)
    ensures pairs == map[] ==> PairFields(pairs) == []
    ensures pairs != map[] ==>
      && PairFields(pairs) != [] && PairFields(pairs)[0].key in pairs
      && PairFields(pairs)[0].value == Str(pairs[PairFields(pairs)[0].key])
      && PairFields(pairs)[1..] == PairFields(pairs - {PairFields(pairs)[0].key})
  {
  }

  lemma VariablesStep(c: Context, fields: seq<Field>, name: string, text: string, to: map<string, string>)
    requires fields != [] && fields[0] == Field(name, Str(text))
    ensures Said(FieldOutcomes(c, fields)) == Said(FieldOutcomes(c, fields[1..]))
    ensures Assigned(Kept(FieldOutcomes(c, fields)), to)
         == Assigned(Kept(FieldOutcomes(c, fields[1..])), to[name := text])
  {
    var outcomes := FieldOutcomes(c, fields);
    assert outcomes[1..] == FieldOutcomes(c, fields[1..]);
    assert outcomes[0] == Outcome(Some((name, text)), []);
    assert Kept(outcomes)[1..] == Kept(outcomes[1..]);
  }

  lemma {:induction false} VariablesAreRead(c: Context, pairs: map<string, string>, to: map<string, string>)
    ensures Said(FieldOutcomes(c, PairFields(pairs))) == []
    ensures Assigned(Kept(FieldOutcomes(c, PairFields(pairs))), to) == to + pairs
    decreases |pairs|
  {
    hide PairFields, FieldOutcomes, Assigned, Kept, Said;
    PairFieldsStep(pairs);
    if pairs == map[] {
      NothingRead(c, to);
    } else {
      var fields := PairFields(pairs);
      var name := fields[0].key;
      VariablesStep(c, fields, name, pairs[name], to);
      VariablesAreRead(c, pairs - {name}, to[name := pairs[name]]);
      assert to[name := pairs[name]] + (pairs - {name}) == to + pairs;
    }
  }

  lemma NothingRead(c: Context, to: map<string, string>)
    ensures Said(FieldOutcomes(c, [])) == [] && Assigned(Kept(FieldOutcomes(c, [])), to) == to + map[]
  {
    assert to + map[] == to;
  }

  // Ports and mounts

  lemma PortIsRead(rt: Runtime, p: Port, path: seq<string>)
    requires PortFits(p)
    ensures PortOutcome(rt, PortJson(p), path) == Outcome(Some(p), [])
  {
    var fields := PortJson(p).fields;
    assert Distinct(fields);
    GetAt(fields, 0);
    GetAt(fields, 1);
    GetAt(fields, 2);
    hide Get;
  }

  lemma MountIsRead(rt: Runtime, m: Mount, path: seq<string>)
    requires MountFits(m)
    ensures MountOutcome(rt, MountJson(m), path) == Outcome(Some(m), [])
  {
    var fields := MountJson(m).fields;
    assert Distinct(fields);
    GetAt(fields, 0);
    GetAt(fields, 1);
    GetAt(fields, 2);
    GetAt(fields, 3);
    hide Get;
  }

  lemma {:induction false} AllKept<T>(outcomes: seq<Outcome<T>>, items: seq<T>)
    requires |outcomes| == |items|
    requires forall i | 0 <= i < |items| :: outcomes[i] == Outcome(Some(items[i]), [])
    ensures Kept(outcomes) == items && Said(outcomes) == []
  {
    if items != [] { AllKept(outcomes[1..], items[1..]); }
  }

  // Health checks

  lemma SecondsAreRead(rt: Runtime, ms: int)
    ensures Duration(rt, Seconds(ms)) == Some(ms)
  {
  }

  lemma CheckFields(check: Setting)
    requires check.Check?
    ensures var v := SettingJson(check);
      && v.Obj? && Member(v, "test") == Arr(Strs(check.test)) && Member(v, "disable") == Undefined
      && Member(v, "interval") == Seconds(check.interval) && Member(v, "timeout") == Seconds(check.timeout)
      && Member(v, "retries") == Num(check.retries) && Member(v, "start_period") == Seconds(check.startPeriod)
  {
    hide Seconds, Strs, Get;
    var fields := SettingJson(check).fields;
    assert Distinct(fields);
    GetAt(fields, 0);
    GetAt(fields, 1);
    GetAt(fields, 2);
    GetAt(fields, 3);
    GetAt(fields, 4);
    NoSuchKey(fields, "disable");
  }

  lemma CheckIsRead(c: Context, check: Setting)
    requires CheckFits(check)
    ensures HealthPiece(c, SettingJson(check)) == Piece(Some(check), [])
  {
    hide Duration, Seconds, Strs, Get, SettingJson, Texts;
    CheckFields(check);
    WordsAreRead(c.rt, check.test);
    SecondsAreRead(c.rt, check.interval);
    SecondsAreRead(c.rt, check.timeout);
    SecondsAreRead(c.rt, check.startPeriod);
  }

  lemma LogIsRead(c: Context, log: Setting)
    requires log.Log?
    ensures LogPiece(c, SettingJson(log)) == Piece(Some(log), [])
  {
    hide Get;
    var fields := SettingJson(log).fields;
    var options := fields[1].value.fields;
    assert Distinct(fields) && Distinct(options);
    GetAt(fields, 0);
    GetAt(fields, 1);
    GetAt(options, 0);
    GetAt(options, 1);
  }

  lemma ListIsRead(c: Context, key: string, setting: Setting)
    requires Fits(c.names, key, setting) && (key == "ports" || key == "volumes")
    ensures PieceOf(c, if key == "ports" then PortsKey else MountsKey, SettingJson(setting)) == Piece(Some(setting), [])
  {
    hide PortOutcome, MountOutcome, PortJson, MountJson, Kept, Said;
    if key == "ports" {
      forall i | 0 <= i < |setting.ports|
        ensures PortOutcome(c.rt, PortJson(setting.ports[i]), c.path) == Outcome(Some(setting.ports[i]), [])
      {
        PortIsRead(c.rt, setting.ports[i], c.path);
      }
      AllKept(PortOutcomes(c.rt, PortsJson(setting.ports), c.path), setting.ports);
    } else {
      forall i | 0 <= i < |setting.mounts|
        ensures MountOutcome(c.rt, MountJson(setting.mounts[i]), c.path) == Outcome(Some(setting.mounts[i]), [])
      {
        MountIsRead(c.rt, setting.mounts[i], c.path);
      }
      AllKept(MountOutcomes(c.rt, MountsJson(setting.mounts), c.path), setting.mounts);
    }
  }

  lemma PolicyIsRead(c: Context, policy: string)
    requires policy in {"no", "always", "unless-stopped", "on-failure"}
    ensures RestartPiece(c, policy) == Piece(Some(Line(policy)), [])
  {
    hide Split;
    assert |"no"| == 2 && |"always"| == 6 && |"on-failure"| == 10;
    SplitOne(policy, ':');
  }

  lemma PairsAreRead(c: Context, pairs: map<string, string>)
    requires pairs != map[]
    ensures VariablesPiece(c, Obj(PairFields(pairs))) == Piece(Some(Pairs(pairs)), [])
  {
    hide PairFields, FieldOutcomes, Assigned, Kept, Said;
    VariablesAreRead(c, pairs, map[]);
    assert map[] + pairs == pairs;
  }

  /** Which keys are mapped in which way. */
  lemma KindTable(key: string)
    ensures KindOf(key).Exec? <==> key in {"command", "entrypoint"}
    ensures KindOf(key).Variables? <==> key in {"environment", "labels"}
    ensures KindOf(key).WordsKey? <==> key in {"cap_add", "devices"}
    ensures KindOf(key).PortsKey? <==> key == "ports"
    ensures KindOf(key).MountsKey? <==> key == "volumes"
    ensures KindOf(key).HealthKey? <==> key == "healthcheck"
    ensures KindOf(key).UserKey? <==> key == "user"
    ensures KindOf(key).RestartKey? <==> key == "restart"
    ensures KindOf(key).ModeKey? <==> key == "network_mode"
    ensures KindOf(key).NetworksKey? <==> key == "networks"
    ensures KindOf(key).LoggingKey? <==> key == "logging"
    ensures KindOf(key).DependsKey? <==> key == "depends_on"
  {
    if key in REFUSED_KEYS { RefusedAreNotCarried(key); }
    hide REFUSED_KEYS;
  }

  lemma RefusedAreNotCarried(key: string)
    requires key in REFUSED_KEYS
    ensures key !in {"command", "entrypoint", "environment", "labels", "cap_add", "devices", "ports", "volumes",
      "healthcheck", "user", "restart", "network_mode", "networks", "logging", "depends_on"}
  {
  }

  /** What a setting of a key is written as is read as that setting, without a word. */
  lemma ReadInvertsWrite(c: Context, key: string, setting: Setting)
    requires Fits(c.names, key, setting)
    ensures PieceOf(c, KindOf(key), SettingJson(setting)) == Piece(Some(setting), [])
  {
    hide Text, Strs, Texts, VariablesPiece, HealthPiece, RestartPiece, LogPiece, Ports, PortIssues, Mounts, MountIssues,
         PairFields, PortsJson, MountsJson, Restricted, Seconds, KindOf;
    KindTable(key);
    match KindOf(key)
    case Variables => PairsAreRead(c, setting.pairs);
    case PortsKey => ListIsRead(c, key, setting);
    case MountsKey => ListIsRead(c, key, setting);
    case HealthKey => CheckIsRead(c, setting);
    case RestartKey =>
      PlainText(c.rt, setting.line);
      PolicyIsRead(c, setting.line);
    case LoggingKey => LogIsRead(c, setting);
    case UserKey => PlainText(c.rt, setting.line);
    case ModeKey => PlainText(c.rt, setting.line);
    case DependsKey =>
      WordsAreRead(c.rt, setting.words);
      RestrictedIsAll(c.names, setting.words);
    case Exec => WordsAreRead(c.rt, setting.words);
    case WordsKey => WordsAreRead(c.rt, setting.words);
    case NetworksKey => WordsAreRead(c.rt, setting.words);
    case _ =>
  }

  lemma PlainText(rt: Runtime, text: string)
    ensures Text(rt, Str(text)) == text
  {
  }

  // What can be read can be written

  lemma {:induction false} KeptAre<T>(outcomes: seq<Outcome<T>>, i: nat) returns (j: nat)
    requires i < |Kept(outcomes)|
    ensures j < |outcomes| && outcomes[j].item == Some(Kept(outcomes)[i])
  {
    var rest := outcomes[1..];
    if outcomes[0].item.Some? && i == 0 {
      j := 0;
    } else {
      var k := KeptAre(rest, if outcomes[0].item.Some? then i - 1 else i);
      j := k + 1;
    }
  }

  lemma PortAlwaysFits(rt: Runtime, entry: Json, path: seq<string>)
    ensures var item := PortOutcome(rt, entry, path).item; item.Some? ==> PortFits(item.value)
  {
    hide Text, Number, Get, Split, LastIndexOf;
  }

  lemma PortsAlwaysFit(rt: Runtime, v: Json, path: seq<string>)
    ensures var ports := Ports(rt, v, path); forall i | 0 <= i < |ports| :: PortFits(ports[i])
  {
    hide PortOutcome, Kept, PortFits;
    var outcomes := PortOutcomes(rt, Items(v), path);
    forall i | 0 <= i < |Kept(outcomes)| ensures PortFits(Kept(outcomes)[i]) {
      var j := KeptAre(outcomes, i);
      PortAlwaysFits(rt, Items(v)[j], path);
    }
  }

  lemma CheckAlwaysFits(c: Context, v: Json)
    ensures HealthPiece(c, v).setting.Some? ==> CheckFits(HealthPiece(c, v).setting.value)
  {
    hide Get, DurationOr, TestOf, Number;
  }

  /**
   * A key of a service has exactly the settings that can be written for it, but for mounts of the short syntax whose
   * source or target is empty.
   */
  lemma SettingsFit(c: Context, key: string, v: Json)
    requires PieceOf(c, KindOf(key), v).setting.Some?
    requires var setting := PieceOf(c, KindOf(key), v).setting.value;
      setting.MountList? ==> forall i | 0 <= i < |setting.mounts| :: MountFits(setting.mounts[i])
    ensures Fits(c.names, key, PieceOf(c, KindOf(key), v).setting.value)
  {
    hide Text, Texts, Split, VariableOutcomes, Assigned, Kept, Said, Restricted, ReadDependsOn, HealthPiece, LogPiece,
         Ports, PortIssues, Mounts, MountIssues, Keys, MountFits, PortFits, KindOf, CheckFits;
    KindTable(key);
    match KindOf(key)
    case PortsKey => PortsAlwaysFit(c.rt, v, c.path);
    case HealthKey => CheckAlwaysFits(c, v);
    case LoggingKey => LogIsLog(c, v);
    case _ =>
  }

  lemma LogIsLog(c: Context, v: Json)
    ensures LogPiece(c, v).setting.Some? ==> LogPiece(c, v).setting.value.Log?
  {
  }

  // The other forms that Compose allows

  /** A command written as one text is run by a shell. */
  lemma ShellForm(c: Context, key: string, command: string)
    requires key in {"command", "entrypoint"}
    ensures PieceOf(c, KindOf(key), Str(command))
      == Piece(Some(Words(["/bin/sh", "-c", command])), [Issue(Defaulted, c.path, Plain)])
  {
    hide Texts, KindOf;
    KindTable(key);
  }

  /** The keys that have no counterpart are reported, once each, whatever their value. */
  lemma RefusedKeysAreReported(c: Context, key: string, v: Json)
    requires key in {"build", "env_file", "secrets", "configs", "deploy", "profiles", "extends", "container_name",
      "privileged", "cap_drop", "sysctls", "ulimits", "tmpfs", "shm_size", "pid", "links", "external_links"}
    requires !Nullish(v)
    ensures key in KEYS && PieceOf(c, KindOf(key), v) == Piece(None, [Issue(Unsupported, c.path, Plain)])
  {
  }

  /** So is a health test; nothing else about the check changes. */
  lemma ShellTest(c: Context, fields: seq<Field>, command: string)
    ensures HealthPiece(c, Obj(Put(fields, "test", Str(command))))
         == HealthPiece(c, Obj(Put(fields, "test", Arr(Strs(["CMD-SHELL", command])))))
  {
    hide Get, Put, Texts, Strs, DurationOr, Retries, Clamp, ClampIssues;
    var shell := Arr(Strs(["CMD-SHELL", command]));
    WordsAreRead(c.rt, ["CMD-SHELL", command]);
    forall k ensures Get(Put(fields, "test", Str(command)), k) == if k == "test" then Str(command) else Get(fields, k)
             ensures Get(Put(fields, "test", shell), k) == if k == "test" then shell else Get(fields, k)
    {
      GetPut(fields, "test", Str(command), k);
      GetPut(fields, "test", shell, k);
    }
  }

  predicate Lists(item: Json, field: Field) {
    field.value.Str? && '=' !in field.key && item == Str(field.key + "=" + field.value.text)
  }

  /** Variables listed as `NAME=value` are those of the mapping. */
  lemma ListedVariables(c: Context, fields: seq<Field>, items: seq<Json>)
    requires |items| == |fields|
    requires forall i | 0 <= i < |fields| :: Lists(items[i], fields[i])
    ensures VariablesPiece(c, Arr(items)) == VariablesPiece(c, Obj(fields))
  {
    hide Assigned, Kept, Said, ItemOutcome, FieldOutcome, Lists;
    forall i | 0 <= i < |fields| ensures ItemOutcome(c, items[i]) == FieldOutcome(c, fields[i]) {
      ListedVariable(c, fields[i], items[i]);
    }
    assert ItemOutcomes(c, items) == FieldOutcomes(c, fields);
  }

  lemma ListedVariable(c: Context, field: Field, item: Json)
    requires Lists(item, field)
    ensures ItemOutcome(c, item) == FieldOutcome(c, field)
  {
    hide IndexOf;
    var name, text := field.key, field.value.text;
    IndexUnique(name, '=', text);
    assert (name + "=" + text)[..|name|] == name && (name + "=" + text)[|name| + 1..] == text;
  }

  /** Dependencies and networks may be mappings; what their values say is lost, with an issue. */
  lemma MappedNames(c: Context, key: string, fields: seq<Field>)
    requires key in {"depends_on", "networks"}
    ensures PieceOf(c, KindOf(key), Obj(fields))
      == Piece(PieceOf(c, KindOf(key), Arr(Strs(Keys(fields)))).setting, [Issue(Lossy, c.path, Plain)])
  {
    hide Texts, Strs, Keys, Restricted, KindOf;
    KindTable(key);
    WordsAreRead(c.rt, Keys(fields));
  }
}
