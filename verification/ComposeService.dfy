/**
 * The mapping of one Compose service. Each key is mapped on its own, so a service is described by what each of its
 * keys becomes. Settings are filed under the Compose key that they come from.
 */
module ComposeService {
  import opened Sequences
  import opened Json
  import opened ImportIssues
  import opened ImportOutcomes
  import opened ComposeText
  import opened ComposePorts
  import opened ComposeMounts
  import opened ComposeDuration

  datatype Setting =
    | Words(words: seq<string>)
    | Line(line: string)
    | Pairs(pairs: map<string, string>)
    | PortList(ports: seq<Port>)
    | MountList(mounts: seq<Mount>)
    | Check(test: seq<string>, interval: int, timeout: int, retries: real, startPeriod: int)
    | Log(driver: string, maxSize: string, maxFile: string)

  /** What one key becomes. */
  datatype Piece = Piece(setting: Option<Setting>, issues: seq<Issue>)

  const Nothing := Piece(None, [])

  /** How a key is treated. */
  datatype Kind =
    | Unknown | Refused | Exec | Variables | PortsKey | MountsKey | HealthKey | UserKey | WordsKey | RestartKey
    | ModeKey | NetworksKey | LoggingKey | DependsKey

  const REFUSED_KEYS := ["build", "env_file", "secrets", "configs", "deploy", "profiles", "extends", "container_name",
    "privileged", "cap_drop", "sysctls", "ulimits", "tmpfs", "shm_size", "pid", "links", "external_links"]

  function KindOf(key: string): Kind {
    if key in REFUSED_KEYS then Refused
    else if key == "command" || key == "entrypoint" then Exec
    else if key == "environment" || key == "labels" then Variables
    else if key == "ports" then PortsKey
    else if key == "volumes" then MountsKey
    else if key == "healthcheck" then HealthKey
    else if key == "user" then UserKey
    else if key == "cap_add" || key == "devices" then WordsKey
    else if key == "restart" then RestartKey
    else if key == "network_mode" then ModeKey
    else if key == "networks" then NetworksKey
    else if key == "logging" then LoggingKey
    else if key == "depends_on" then DependsKey
    else Unknown
  }

  /** The keys in the order in which they are looked at. */
  const KEYS := REFUSED_KEYS + ["command", "entrypoint", "environment", "labels", "ports", "volumes", "healthcheck",
    "user", "cap_add", "devices", "restart", "network_mode", "networks", "logging", "depends_on"]

  /** What the mapping of a key needs to know besides its value. */
  datatype Context = Context(rt: Runtime, path: seq<string>, names: seq<string>)

  // Variables and labels

  function FieldOutcome(c: Context, field: Field): Outcome<(string, string)> {
    if Nullish(field.value) then Outcome(None, [Issue(Unsupported, c.path + [field.key], Plain)])
    else Outcome(Some((field.key, Text(c.rt, field.value))), [])
  }

  function ItemOutcome(c: Context, item: Json): Outcome<(string, string)> {
    var s := Text(c.rt, item);
    var eq := IndexOf(s, '=');
    if eq == -1 then Outcome(None, [Issue(Unsupported, c.path + [s], Plain)])
    else Outcome(Some((s[..eq], s[eq + 1..])), [])
  }

  function FieldOutcomes(c: Context, fields: seq<Field>): (r: seq<Outcome<(string, string)>>)
    ensures |r| == |fields| && forall i | 0 <= i < |r| :: r[i] == FieldOutcome(c, fields[i])
  {
    seq(|fields|, i requires 0 <= i < |fields| => FieldOutcome(c, fields[i]))
  }

  function ItemOutcomes(c: Context, items: seq<Json>): (r: seq<Outcome<(string, string)>>)
    ensures |r| == |items| && forall i | 0 <= i < |r| :: r[i] == ItemOutcome(c, items[i])
  {
    seq(|items|, i requires 0 <= i < |items| => ItemOutcome(c, items[i]))
  }

  function VariableOutcomes(c: Context, v: Json): seq<Outcome<(string, string)>> {
    if v.Obj? then FieldOutcomes(c, v.fields) else if v.Arr? then ItemOutcomes(c, v.items) else []
  }

  /** The last assignment to a name wins. */
  function Assigned(pairs: seq<(string, string)>, to: map<string, string>): map<string, string>
    decreases |pairs|
  {
    if pairs == [] then to else Assigned(pairs[1..], to[pairs[0].0 := pairs[0].1])
  }

  function VariablesPiece(c: Context, v: Json): Piece {
    var outcomes := VariableOutcomes(c, v);
    var values := Assigned(Kept(outcomes), map[]);
    Piece(if values == map[] then None else Some(Pairs(values)), Said(outcomes))
  }

  // Health checks

  const MIN_HEALTHCHECK_MS := 1000

  function Clamp(ms: int): int { if ms >= MIN_HEALTHCHECK_MS || ms <= 0 then ms else MIN_HEALTHCHECK_MS }

  function ClampIssues(c: Context, ms: int, field: string): seq<Issue> {
    if ms >= MIN_HEALTHCHECK_MS || ms <= 0 then [] else [Issue(Lossy, c.path + [field], RaisedFrom(ms))]
  }

  function TestOf(c: Context, test: Json): seq<string> {
    match test
    case Arr(items) => Texts(c.rt, items)
    case Str(s) => ["CMD-SHELL", s]
    case _ => []
  }

  function DurationOr(c: Context, v: Json, otherwise: int): int {
    match Duration(c.rt, v) case Some(ms) => ms case None => otherwise
  }

  function Retries(c: Context, v: Json): real {
    var n := match Number(c.rt, v) case Some(x) => x case None => 3.0;
    if n < 1.0 then 1.0 else n
  }

  function HealthPiece(c: Context, v: Json): Piece {
    if !v.Obj? || Member(v, "disable") == Bool(true) then Nothing
    else
      var test := TestOf(c, Member(v, "test"));
      if test == [] then Piece(None, [Issue(Unsupported, c.path + ["test"], Plain)])
      else
        var interval := DurationOr(c, Member(v, "interval"), 30000);
        var timeout := DurationOr(c, Member(v, "timeout"), 10000);
        var start := DurationOr(c, Member(v, "start_period"), 0);
        var stored := if start > 0 then Clamp(start) else 0;
        Piece(Some(Check(test, Clamp(interval), Clamp(timeout), Retries(c, Member(v, "retries")), stored)),
              ClampIssues(c, interval, "interval") + ClampIssues(c, timeout, "timeout")
                + ClampIssues(c, start, "start_period"))
  }

  // The other keys

  function ReadDependsOn(rt: Runtime, v: Json): seq<string> {
    match v case Arr(items) => Texts(rt, items) case Obj(fields) => Keys(fields) case _ => []
  }

  /** The dependencies that are services of the file. */
  function Restricted(names: seq<string>, deps: seq<string>): (r: seq<string>)
    ensures forall d :: d in r <==> d in deps && d in names
  {
    if deps == [] then [] else (if deps[0] in names then [deps[0]] else []) + Restricted(names, deps[1..])
  }

  function WordsUnlessEmpty(words: seq<string>): Option<Setting> { if words == [] then None else Some(Words(words)) }

  function RestartPiece(c: Context, text: string): Piece {
    var policy := Split(text, ':')[0];
    if policy in {"no", "always", "unless-stopped", "on-failure"}
    then Piece(Some(Line(policy)), if text != policy then [Issue(Lossy, c.path, Shown(text))] else [])
    else Piece(None, [Issue(Unsupported, c.path, Shown(text))])
  }

  /** A member of an object as text, with a default for one that is missing. */
  function TextOr(c: Context, v: Json, key: string, otherwise: string): string {
    if Nullish(Member(v, key)) then otherwise else Text(c.rt, Member(v, key))
  }

  function LogPiece(c: Context, v: Json): Piece {
    if !v.Obj? then Nothing
    else
      var options := Member(v, "options");
      Piece(Some(Log(TextOr(c, v, "driver", "json-file"), TextOr(c, options, "max-size", "10m"),
                     TextOr(c, options, "max-file", "3"))), [])
  }

  /** What a key of the given kind becomes; `c.path` is the key's own path. */
  function PieceOf(c: Context, kind: Kind, v: Json): Piece {
    if Nullish(v) then Nothing
    else match kind
      case Unknown => Nothing
      case Refused => Piece(None, [Issue(Unsupported, c.path, Plain)])
      case Exec =>
        if v.Arr? then Piece(Some(Words(Texts(c.rt, v.items))), [])
        else if v.Str? then Piece(Some(Words(["/bin/sh", "-c", v.text])), [Issue(Defaulted, c.path, Plain)])
        else Nothing
      case Variables => VariablesPiece(c, v)
      case PortsKey =>
        var ports := Ports(c.rt, v, c.path);
        Piece(if ports == [] then None else Some(PortList(ports)), PortIssues(c.rt, v, c.path))
      case MountsKey =>
        var mounts := Mounts(c.rt, v, c.path);
        Piece(if mounts == [] then None else Some(MountList(mounts)), MountIssues(c.rt, v, c.path))
      case HealthKey => HealthPiece(c, v)
      case UserKey => Piece(Some(Line(Text(c.rt, v))), [])
      case WordsKey => if v.Arr? then Piece(Some(Words(Texts(c.rt, v.items))), []) else Nothing
      case RestartKey => RestartPiece(c, Text(c.rt, v))
      case ModeKey =>
        var mode := Text(c.rt, v);
        if mode in {"host", "bridge"} then Piece(Some(Line(mode)), [])
        else Piece(None, [Issue(Unsupported, c.path, Shown(mode))])
      case NetworksKey =>
        if v.Arr? then Piece(WordsUnlessEmpty(Texts(c.rt, v.items)), [])
        else if v.Obj? then Piece(WordsUnlessEmpty(Keys(v.fields)), [Issue(Lossy, c.path, Plain)])
        else Nothing
      case LoggingKey => LogPiece(c, v)
      case DependsKey =>
        Piece(WordsUnlessEmpty(Restricted(c.names, ReadDependsOn(c.rt, v))),
              if v.Obj? then [Issue(Lossy, c.path, Plain)] else [])
  }

  function PieceAt(c: Context, raw: seq<Field>, key: string): Piece {
    PieceOf(c.(path := c.path + [key]), KindOf(key), Get(raw, key))
  }

  /** The settings that the first keys of a list give a service. */
  function Settings(c: Context, raw: seq<Field>, keys: seq<string>): map<string, Setting> {
    map k | k in keys && PieceAt(c, raw, k).setting.Some? :: PieceAt(c, raw, k).setting.value
  }

  function KeyIssues(c: Context, raw: seq<Field>, keys: seq<string>): seq<Issue> {
    if keys == [] then [] else KeyIssues(c, raw, keys[..|keys| - 1]) + PieceAt(c, raw, keys[|keys| - 1]).issues
  }

  // The mapping, key by key

  lemma NoVariables()
    ensures forall to :: Assigned([], to) == to
  {
  }

  lemma {:induction false} AssignedAppend(a: seq<(string, string)>, b: (string, string), to: map<string, string>)
    ensures Assigned(a + [b], to) == Assigned(a, to)[b.0 := b.1]
    decreases |a|
  {
    if a != [] {
      assert (a + [b])[1..] == a[1..] + [b];
      AssignedAppend(a[1..], b, to[a[0].0 := a[0].1]);
    } else {
      assert ([b])[1..] == [];
    }
  }

  /** The pair that one entry assigns, if it has a value. */
  method ReadVariable(c: Context, v: Json, i: nat, report: Report) returns (pair: Option<(string, string)>)
    requires i < |VariableOutcomes(c, v)|
    modifies report
    ensures pair == VariableOutcomes(c, v)[i].item
    ensures report.issues == old(report.issues) + VariableOutcomes(c, v)[i].issues
  {
    hide Text, IndexOf;
    if v.Obj? {
      var field := v.fields[i];
      if Nullish(field.value) {
        report.Push(Issue(Unsupported, c.path + [field.key], Plain));
        return None;
      }
      return Some((field.key, Text(c.rt, field.value)));
    }
    var s := Text(c.rt, v.items[i]);
    var eq := IndexOf(s, '=');
    if eq == -1 {
      report.Push(Issue(Unsupported, c.path + [s], Plain));
      return None;
    }
    pair := Some((s[..eq], s[eq + 1..]));
  }

  method ToStringMap(c: Context, v: Json, report: Report) returns (setting: Option<Setting>)
    modifies report
    ensures setting == VariablesPiece(c, v).setting
    ensures report.issues == old(report.issues) + VariablesPiece(c, v).issues
  {
    hide VariableOutcomes, Kept, Said, Assigned;
    NoVariables();
    NothingKept<(string, string)>();
    ghost var outcomes := VariableOutcomes(c, v);
    ghost var pairs: seq<(string, string)> := [];
    var n := if v.Obj? then |v.fields| else if v.Arr? then |v.items| else 0;
    assert |outcomes| == n by { CountOutcomes(c, v); }
    var values, i := map[], 0;
    assert outcomes[0..] == outcomes;
    while i < n
      invariant 0 <= i <= n
      invariant Kept(outcomes) == pairs + Kept(outcomes[i..]) && values == Assigned(pairs, map[])
      invariant old(report.issues) + Said(outcomes) == report.issues + Said(outcomes[i..])
    {
      OutcomesFrom(outcomes, i);
      ghost var said, rest, more := report.issues, Said(outcomes[i + 1..]), Kept(outcomes[i + 1..]);
      assert said + (outcomes[i].issues + rest) == said + outcomes[i].issues + rest;
      var pair := ReadVariable(c, v, i, report);
      if pair.Some? {
        AssignedAppend(pairs, pair.value, map[]);
        assert pairs + ([pair.value] + more) == pairs + [pair.value] + more;
        pairs := pairs + [pair.value];
        values := values[pair.value.0 := pair.value.1];
      } else {
        assert pairs + ([] + more) == pairs + more;
      }
      i := i + 1;
    }
    assert outcomes[i..] == [] && pairs + [] == pairs;
    setting := if values == map[] then None else Some(Pairs(values));
  }

  lemma CountOutcomes(c: Context, v: Json)
    ensures |VariableOutcomes(c, v)| == if v.Obj? then |v.fields| else if v.Arr? then |v.items| else 0
  {
  }

  method ClampHealthcheckMs(c: Context, ms: int, field: string, report: Report) returns (r: int)
    modifies report
    ensures r == Clamp(ms)
    ensures report.issues == old(report.issues) + ClampIssues(c, ms, field)
  {
    if ms >= MIN_HEALTHCHECK_MS || ms <= 0 { return ms; }
    report.Push(Issue(Lossy, c.path + [field], RaisedFrom(ms)));
    r := MIN_HEALTHCHECK_MS;
  }

  method MapHealthcheck(c: Context, v: Json, report: Report) returns (setting: Option<Setting>)
    modifies report
    ensures setting == HealthPiece(c, v).setting
    ensures report.issues == old(report.issues) + HealthPiece(c, v).issues
  {
    hide TestOf, DurationOr, Retries, Duration, Get;
    if !v.Obj? || Member(v, "disable") == Bool(true) { return None; }
    var test := TestOf(c, Member(v, "test"));
    if test == [] {
      report.Push(Issue(Unsupported, c.path + ["test"], Plain));
      return None;
    }
    var interval := DurationOr(c, Member(v, "interval"), 30000);
    var timeout := DurationOr(c, Member(v, "timeout"), 10000);
    var start := DurationOr(c, Member(v, "start_period"), 0);
    var retries := Retries(c, Member(v, "retries"));
    interval := ClampHealthcheckMs(c, interval, "interval", report);
    timeout := ClampHealthcheckMs(c, timeout, "timeout", report);
    if start > 0 { start := ClampHealthcheckMs(c, start, "start_period", report); } else { start := 0; }
    setting := Some(Check(test, interval, timeout, retries, start));
  }

  /** The volumes that a setting mounts by name. */
  function MountedBy(setting: Option<Setting>): seq<string> {
    if setting.Some? && setting.value.MountList? then VolumeSources(setting.value.mounts) else []
  }

  method MapKey(c: Context, kind: Kind, v: Json, report: Report, volumes: NameSet) returns (setting: Option<Setting>)
    modifies report, volumes
    ensures setting == PieceOf(c, kind, v).setting
    ensures report.issues == old(report.issues) + PieceOf(c, kind, v).issues
    ensures volumes.names == AddAll(old(volumes.names), MountedBy(setting))
  {
    hide Text, Split, VariablesPiece, HealthPiece, Ports, PortIssues, Mounts, MountIssues, LogPiece, RestartPiece,
      VolumeSources, Restricted;
    NothingMounted(volumes.names);
    assert report.issues + [] == report.issues;
    if Nullish(v) { return None; }
    match kind
    case Unknown => setting := None;
    case Variables =>
      setting := ToStringMap(c, v, report);
      VariablesAreNoMounts(c, v);
    case PortsKey =>
      var ports := MapPorts(c.rt, v, c.path, report);
      setting := if ports.Some? then Some(PortList(ports.value)) else None;
    case MountsKey =>
      var mounts := MapMounts(c.rt, v, c.path, report, volumes);
      setting := if mounts == [] then None else Some(MountList(mounts));
    case HealthKey =>
      setting := MapHealthcheck(c, v, report);
      ChecksAreNoMounts(c, v);
    case _ =>
      OthersAreNoMounts(c, kind, v);
      setting := MapPlainKey(c, kind, v, report);
  }

  /** The keys that need no loop. */
  method MapPlainKey(c: Context, kind: Kind, v: Json, report: Report) returns (setting: Option<Setting>)
    requires !Nullish(v) && !kind.Variables? && !kind.PortsKey? && !kind.MountsKey? && !kind.HealthKey?
    modifies report
    ensures setting == PieceOf(c, kind, v).setting
    ensures report.issues == old(report.issues) + PieceOf(c, kind, v).issues
  {
    hide Text, Split, LogPiece, Restricted, ReadDependsOn, Texts;
    assert report.issues + [] == report.issues;
    setting := None;
    match kind
    case Unknown =>
    case Refused => report.Push(Issue(Unsupported, c.path, Plain));
    case Exec =>
      if v.Arr? { setting := Some(Words(Texts(c.rt, v.items))); }
      else if v.Str? {
        setting := Some(Words(["/bin/sh", "-c", v.text]));
        report.Push(Issue(Defaulted, c.path, Plain));
      }
    case UserKey => setting := Some(Line(Text(c.rt, v)));
    case WordsKey => if v.Arr? { setting := Some(Words(Texts(c.rt, v.items))); }
    case RestartKey =>
      var restart := Text(c.rt, v);
      var policy := Split(restart, ':')[0];
      if policy in {"no", "always", "unless-stopped", "on-failure"} {
        setting := Some(Line(policy));
        if restart != policy { report.Push(Issue(Lossy, c.path, Shown(restart))); }
      } else {
        report.Push(Issue(Unsupported, c.path, Shown(restart)));
      }
    case ModeKey =>
      var mode := Text(c.rt, v);
      if mode in {"host", "bridge"} {
        setting := Some(Line(mode));
      } else {
        report.Push(Issue(Unsupported, c.path, Shown(mode)));
      }
    case NetworksKey =>
      if v.Arr? { setting := WordsUnlessEmpty(Texts(c.rt, v.items)); }
      else if v.Obj? {
        setting := WordsUnlessEmpty(Keys(v.fields));
        report.Push(Issue(Lossy, c.path, Plain));
      }
    case LoggingKey =>
      LogIsSilent(c, v);
      setting := LogPiece(c, v).setting;
    case DependsKey =>
      setting := WordsUnlessEmpty(Restricted(c.names, ReadDependsOn(c.rt, v)));
      if v.Obj? { report.Push(Issue(Lossy, c.path, Plain)); }
  }

  lemma LogIsSilent(c: Context, v: Json)
    ensures LogPiece(c, v).issues == []
  {
  }

  lemma VariablesAreNoMounts(c: Context, v: Json)
    ensures MountedBy(VariablesPiece(c, v).setting) == []
  {
  }

  lemma ChecksAreNoMounts(c: Context, v: Json)
    ensures MountedBy(HealthPiece(c, v).setting) == []
  {
  }

  lemma OthersAreNoMounts(c: Context, kind: Kind, v: Json)
    requires !kind.MountsKey?
    ensures MountedBy(PieceOf(c, kind, v).setting) == []
  {
    hide Text, Split, Ports, PortIssues, Mounts, MountIssues, Restricted, VolumeSources;
  }

  /** The volumes that a service mounts by name. */
  function Mounted(settings: map<string, Setting>): seq<string> {
    if "volumes" in settings then MountedBy(Some(settings["volumes"])) else []
  }

  lemma VolumesOnce(i: nat)
    requires i < |KEYS| && KEYS[i] == "volumes"
    ensures "volumes" !in KEYS[..i]
  {
    assert i == 22;
  }

  lemma OnlyVolumesMount(key: string)
    ensures KindOf(key).MountsKey? <==> key == "volumes"
  {
  }

  /** All the keys of a service, in their order. */
  method MapKeys(c: Context, raw: seq<Field>, report: Report, volumes: NameSet) returns (settings: map<string, Setting>)
    modifies report, volumes
    ensures settings == Settings(c, raw, KEYS)
    ensures report.issues == old(report.issues) + KeyIssues(c, raw, KEYS)
    ensures volumes.names == AddAll(old(volumes.names), Mounted(settings))
  {
    hide PieceOf, KindOf, Get, MountedBy, AddAll, KEYS;
    settings := map[];
    var i := 0;
    NoKeys(c, raw);
    while i < |KEYS|
      invariant 0 <= i <= |KEYS| && settings == Settings(c, raw, KEYS[..i])
      invariant report.issues == old(report.issues) + KeyIssues(c, raw, KEYS[..i])
      invariant volumes.names == AddAll(old(volumes.names), Mounted(settings))
    {
      var key := KEYS[i];
      ghost var before := settings;
      TakeKey(c, raw, KEYS, i);
      var setting := MapKey(c.(path := c.path + [key]), KindOf(key), Get(raw, key), report, volumes);
      settings := With(settings, key, setting);
      NewMounts(c, raw, i, old(volumes.names));
      i := i + 1;
    }
    assert KEYS[..i] == KEYS;
  }

  function With(settings: map<string, Setting>, key: string, setting: Option<Setting>): map<string, Setting> {
    if setting.Some? then settings[key := setting.value] else settings
  }

  lemma TakeKey(c: Context, raw: seq<Field>, keys: seq<string>, i: nat)
    requires i < |keys|
    ensures Settings(c, raw, keys[..i + 1])
      == With(Settings(c, raw, keys[..i]), keys[i], PieceAt(c, raw, keys[i]).setting)
    ensures KeyIssues(c, raw, keys[..i + 1]) == KeyIssues(c, raw, keys[..i]) + PieceAt(c, raw, keys[i]).issues
  {
    hide PieceAt;
    assert keys[..i + 1] == keys[..i] + [keys[i]];
    assert keys[..i + 1][..i] == keys[..i];
  }

  /** Only the key `volumes`, which comes once, adds named volumes. */
  lemma NewMounts(c: Context, raw: seq<Field>, i: nat, names: seq<string>)
    requires i < |KEYS|
    ensures var before, setting := Settings(c, raw, KEYS[..i]), PieceAt(c, raw, KEYS[i]).setting;
      AddAll(AddAll(names, Mounted(before)), MountedBy(setting))
        == AddAll(names, Mounted(With(before, KEYS[i], setting)))
  {
    hide PieceOf, Get, MountedBy, KEYS, KindOf;
    var key := KEYS[i];
    NothingMounted(AddAll(names, Mounted(Settings(c, raw, KEYS[..i]))));
    NothingMounted(names);
    OnlyVolumesMount(key);
    if key == "volumes" {
      VolumesOnce(i);
      MountedByNone();
    } else {
      OthersMountNothing(c.(path := c.path + [key]), KindOf(key), Get(raw, key));
    }
  }

  lemma MountedByNone()
    ensures MountedBy(None) == []
  {
  }

  lemma OthersMountNothing(c: Context, kind: Kind, v: Json)
    requires !kind.MountsKey?
    ensures MountedBy(PieceOf(c, kind, v).setting) == []
  {
    hide VariablesPiece, HealthPiece, MountedBy;
    MountedByNone();
    VariablesAreNoMounts(c, v);
    ChecksAreNoMounts(c, v);
    OthersAreNoMounts(c, kind, v);
  }

  lemma NoKeys(c: Context, raw: seq<Field>)
    ensures Settings(c, raw, []) == map[] && KeyIssues(c, raw, []) == []
    ensures forall names :: AddAll(names, Mounted(map[])) == names
  {
  }

  // What is lost in silence

  /** A value whose shape a key of this kind does not carry and does not report. */
  predicate Inert(c: Context, kind: Kind, v: Json) {
    match kind
    case Unknown => true
    case Refused => false
    case Exec => !v.Arr? && !v.Str?
    case Variables => (v.Obj? ==> v.fields == []) && (v.Arr? ==> v.items == [])
    case PortsKey => v.Arr? ==> v.items == []
    case MountsKey => v.Arr? ==> v.items == []
    case HealthKey => !v.Obj? || Member(v, "disable") == Bool(true)
    case UserKey => false
    case WordsKey => !v.Arr?
    case RestartKey => false
    case ModeKey => false
    case NetworksKey => !v.Obj? && (v.Arr? ==> v.items == [])
    case LoggingKey => !v.Obj?
    case DependsKey => !v.Obj? && (v.Arr? ==> forall i | 0 <= i < |v.items| :: Text(c.rt, v.items[i]) !in c.names)
  }

  lemma VariablesNothingIff(c: Context, v: Json)
    ensures VariablesPiece(c, v) == Nothing <==> (v.Obj? ==> v.fields == []) && (v.Arr? ==> v.items == [])
  {
    hide FieldOutcome, ItemOutcome, Assigned;
    var outcomes := VariableOutcomes(c, v);
    NoVariables();
    NothingKept<(string, string)>();
    if outcomes != [] {
      VariablesAreAccounted(c, v);
      hide Kept, Said, Accounted, VariableOutcomes;
      OutcomesConserve(outcomes);
      if Kept(outcomes) != [] { AssignedSome(Kept(outcomes), map[]); }
    }
  }

  lemma {:induction false} AssignedSome(pairs: seq<(string, string)>, to: map<string, string>)
    requires pairs != [] || to != map[]
    ensures Assigned(pairs, to) != map[]
    decreases |pairs|
  {
    if pairs != [] {
      assert pairs[0].0 in to[pairs[0].0 := pairs[0].1];
      AssignedSome(pairs[1..], to[pairs[0].0 := pairs[0].1]);
    }
  }

  lemma VariablesAreAccounted(c: Context, v: Json)
    ensures forall i | 0 <= i < |VariableOutcomes(c, v)| :: Accounted(VariableOutcomes(c, v)[i])
  {
    hide Text, IndexOf;
    forall i | 0 <= i < |VariableOutcomes(c, v)| ensures Accounted(VariableOutcomes(c, v)[i]) {
      if v.Obj? { SkipsOne(Issue(Unsupported, c.path + [v.fields[i].key], Plain)); }
      else if v.Arr? { SkipsOne(Issue(Unsupported, c.path + [Text(c.rt, v.items[i])], Plain)); }
    }
  }

  lemma PortsNothingIff(c: Context, v: Json)
    requires !Nullish(v)
    ensures PieceOf(c, PortsKey, v) == Nothing <==> Inert(c, PortsKey, v)
  {
    hide PortOutcomes;
    NothingKept<Port>();
    if v.Arr? { PortsConserve(c.rt, v, c.path); }
  }

  lemma MountsNothingIff(c: Context, v: Json)
    requires !Nullish(v)
    ensures PieceOf(c, MountsKey, v) == Nothing <==> Inert(c, MountsKey, v)
  {
    hide MountOutcomes;
    NothingKept<Mount>();
    if v.Arr? { MountsConserve(c.rt, v, c.path); }
  }

  /** Exactly the inert values leave neither a setting nor an issue. */
  lemma NothingIffInert(c: Context, kind: Kind, v: Json)
    requires !Nullish(v)
    ensures PieceOf(c, kind, v) == Nothing <==> Inert(c, kind, v)
  {
    hide Text, Split, VariablesPiece, Ports, PortIssues, Mounts, MountIssues, Get, TestOf, ClampIssues, Clamp;
    match kind
    case Variables => VariablesNothingIff(c, v);
    case PortsKey => PortsNothingIff(c, v);
    case MountsKey => MountsNothingIff(c, v);
    case DependsKey => if v.Arr? { RestrictedNothingIff(c.names, Texts(c.rt, v.items)); }
    case _ =>
  }

  lemma RestrictedNothingIff(names: seq<string>, deps: seq<string>)
    ensures Restricted(names, deps) == [] <==> forall i | 0 <= i < |deps| :: deps[i] !in names
  {
    hide Restricted;
    if Restricted(names, deps) != [] {
      var d := Restricted(names, deps)[0];
      assert d in deps && d in names;
    }
    forall i | 0 <= i < |deps| && deps[i] in names ensures deps[i] in Restricted(names, deps) { }
  }

  lemma {:induction false} IssuesWithout(c: Context, raw: seq<Field>, key: string, keys: seq<string>)
    requires PieceAt(c, Without(raw, key), key) == Nothing
    requires forall k | k != key :: PieceAt(c, Without(raw, key), k) == PieceAt(c, raw, k)
    ensures |KeyIssues(c, raw, keys)|
         >= |KeyIssues(c, Without(raw, key), keys)| + if key in keys then |PieceAt(c, raw, key).issues| else 0
    ensures key !in keys || PieceAt(c, raw, key).issues == [] ==>
      KeyIssues(c, raw, keys) == KeyIssues(c, Without(raw, key), keys)
  {
    hide PieceAt;
    if keys != [] {
      assert keys == keys[..|keys| - 1] + [keys[|keys| - 1]];
      IssuesWithout(c, raw, key, keys[..|keys| - 1]);
    }
  }

  lemma PiecesWithout(c: Context, raw: seq<Field>, key: string)
    ensures PieceAt(c, Without(raw, key), key) == Nothing
    ensures forall k | k != key :: PieceAt(c, Without(raw, key), k) == PieceAt(c, raw, k)
  {
    hide PieceOf, KindOf;
    NothingForNullish(c.(path := c.path + [key]), KindOf(key), Undefined);
    GetWithout(raw, key, key);
    forall k | k != key ensures PieceAt(c, Without(raw, key), k) == PieceAt(c, raw, k) { GetWithout(raw, key, k); }
  }

  lemma NothingForNullish(c: Context, kind: Kind, v: Json)
    requires Nullish(v)
    ensures PieceOf(c, kind, v) == Nothing
  {
  }

  /** Every kind but `Unknown` is a kind of some looked-at key. */
  lemma KeysAreKnown(key: string)
    ensures key in KEYS <==> !KindOf(key).Unknown?
  {
  }

  /**
   * "Nothing is dropped silently" says that a key which is not carried across is reported. What the mapping does: a
   * key of a service with a value can be deleted from the file without any effect on its settings and issues exactly
   * if the key is unknown, or its value has a shape that the key does not read.
   */
  lemma KeyIsLostSilentlyIff(c: Context, raw: seq<Field>, key: string)
    requires !Nullish(Get(raw, key))
    ensures (Settings(c, raw, KEYS) == Settings(c, Without(raw, key), KEYS)
             && KeyIssues(c, raw, KEYS) == KeyIssues(c, Without(raw, key), KEYS))
       <==> Inert(c.(path := c.path + [key]), KindOf(key), Get(raw, key))
  {
    hide PieceOf, KEYS, Inert, Get, Without, KeyIssues, KindOf;
    NothingIffInert(c.(path := c.path + [key]), KindOf(key), Get(raw, key));
    PiecesWithout(c, raw, key);
    IssuesWithout(c, raw, key, KEYS);
    KeysAreKnown(key);
    SettingsWithout(c, raw, key, KEYS);
    UnknownIsInert(c.(path := c.path + [key]), Get(raw, key));
  }

  lemma UnknownIsInert(c: Context, v: Json)
    ensures Inert(c, Unknown, v)
  {
  }

  lemma SettingsWithout(c: Context, raw: seq<Field>, key: string, keys: seq<string>)
    requires PieceAt(c, Without(raw, key), key) == Nothing
    requires forall k | k != key :: PieceAt(c, Without(raw, key), k) == PieceAt(c, raw, k)
    ensures Settings(c, raw, keys) == Settings(c, Without(raw, key), keys) <==>
      key !in keys || PieceAt(c, raw, key).setting.None?
  {
    hide PieceAt, Without, Settings;
    var before, after := Settings(c, raw, keys), Settings(c, Without(raw, key), keys);
    forall k ensures k in before && k != key ==> k in after && before[k] == after[k]
             ensures k in after ==> k != key && k in before
    {
      SettingAt(c, raw, keys, k);
      SettingAt(c, Without(raw, key), keys, k);
    }
    SettingAt(c, raw, keys, key);
  }

  lemma SettingAt(c: Context, raw: seq<Field>, keys: seq<string>, k: string)
    ensures k in Settings(c, raw, keys) <==> k in keys && PieceAt(c, raw, k).setting.Some?
    ensures k in Settings(c, raw, keys) ==> Settings(c, raw, keys)[k] == PieceAt(c, raw, k).setting.value
  {
    hide PieceAt;
  }

  // What the pieces mean

  predicate SafeDuration(ms: int) { !(0 < ms < MIN_HEALTHCHECK_MS) }

  /** What a health check asks for, with the defaults filled in. */
  function Asked(c: Context, v: Json, field: string): int {
    DurationOr(c, Member(v, field), if field == "interval" then 30000 else if field == "timeout" then 10000 else 0)
  }

  function ClampNotice(c: Context, v: Json, field: string): Issue {
    Issue(Lossy, c.path + [field], RaisedFrom(Asked(c, v, field)))
  }

  lemma NoticesDiffer(c: Context, v: Json)
    ensures ClampNotice(c, v, "interval") != ClampNotice(c, v, "timeout")
    ensures ClampNotice(c, v, "interval") != ClampNotice(c, v, "start_period")
    ensures ClampNotice(c, v, "timeout") != ClampNotice(c, v, "start_period")
  {
    var i, t, s := ClampNotice(c, v, "interval"), ClampNotice(c, v, "timeout"), ClampNotice(c, v, "start_period");
    assert i.path[|c.path|] == "interval" && t.path[|c.path|] == "timeout" && s.path[|c.path|] == "start_period";
  }

  /**
   * The backfill at boot would read any stored duration below one second as seconds. No stored check has one; retries
   * are at least one; and each field that is raised has its issue, while every other field is stored as asked for,
   * except that a negative start period becomes none.
   */
  lemma StoredCheckIsSafe(c: Context, v: Json)
    ensures HealthPiece(c, v).setting.Some? ==>
      SafeCheck(c, v, HealthPiece(c, v).setting.value, HealthPiece(c, v).issues)
  {
    hide DurationOr, TestOf, Get, Number;
    NoticesDiffer(c, v);
  }

  predicate SafeCheck(c: Context, v: Json, check: Setting, issues: seq<Issue>) {
    && check.Check? && check.retries >= 1.0
    && SafeDuration(check.interval) && SafeDuration(check.timeout) && SafeDuration(check.startPeriod)
    && (check.interval != Asked(c, v, "interval") <==> ClampNotice(c, v, "interval") in issues)
    && (check.timeout != Asked(c, v, "timeout") <==> ClampNotice(c, v, "timeout") in issues)
    && (Asked(c, v, "start_period") >= 0 ==>
          (check.startPeriod != Asked(c, v, "start_period") <==> ClampNotice(c, v, "start_period") in issues))
    && (Asked(c, v, "start_period") < 0 ==> check.startPeriod == 0 && ClampNotice(c, v, "start_period") !in issues)
  }

  /** A policy is kept, its retry count is dropped with an issue, and anything else is skipped with one. */
  lemma RestartIsRead(c: Context, policy: string, count: string)
    requires ':' !in policy
    ensures var known, text := policy in {"no", "always", "unless-stopped", "on-failure"}, policy + ([':'] + count);
      && RestartPiece(c, policy)
         == (if known then Piece(Some(Line(policy)), []) else Piece(None, [Issue(Unsupported, c.path, Shown(policy))]))
      && RestartPiece(c, text)
         == (if known then Piece(Some(Line(policy)), [Issue(Lossy, c.path, Shown(text))])
             else Piece(None, [Issue(Unsupported, c.path, Shown(text))]))
  {
    hide Split;
    SplitOne(policy, ':');
    SplitFirst(policy, ':', count);
    assert |policy + ([':'] + count)| > |policy|;
  }

  function Names(pairs: seq<(string, string)>): (r: seq<string>)
    ensures |r| == |pairs| && forall i | 0 <= i < |r| :: r[i] == pairs[i].0
  {
    seq(|pairs|, i requires 0 <= i < |pairs| => pairs[i].0)
  }

  /** Every assigned name has the value of its last assignment. */
  lemma {:induction false} LastAssignmentWins(pairs: seq<(string, string)>, to: map<string, string>)
    ensures forall n :: n in Assigned(pairs, to) <==> n in Names(pairs) || n in to
    ensures forall i | 0 <= i < |pairs| && pairs[i].0 !in Names(pairs[i + 1..]) ::
      Assigned(pairs, to)[pairs[i].0] == pairs[i].1
    ensures forall n | n in to && n !in Names(pairs) :: Assigned(pairs, to)[n] == to[n]
    decreases |pairs|
  {
    if pairs != [] {
      var rest, next := pairs[1..], to[pairs[0].0 := pairs[0].1];
      LastAssignmentWins(rest, next);
      assert Names(pairs) == [pairs[0].0] + Names(rest);
      forall i | 0 <= i < |pairs| && pairs[i].0 !in Names(pairs[i + 1..])
        ensures Assigned(pairs, to)[pairs[i].0] == pairs[i].1
      {
        if i > 0 { assert rest[i - 1] == pairs[i] && rest[i..] == pairs[i + 1..]; }
      }
    }
  }

  lemma {:induction false} AssignedSize(pairs: seq<(string, string)>, to: map<string, string>)
    ensures |Assigned(pairs, to)| <= |to| + |pairs|
    ensures |Assigned(pairs, to)| == |to| + |pairs| <==>
      NoDuplicates(Names(pairs)) && forall n | n in to :: n !in Names(pairs)
    decreases |pairs|
  {
    if pairs != [] {
      var rest, next := pairs[1..], to[pairs[0].0 := pairs[0].1];
      AssignedSize(rest, next);
      NamesOfFirst(pairs);
      assert next.Keys == to.Keys + {pairs[0].0};
      assert |next| == if pairs[0].0 in to then |to| else |to| + 1;
    }
  }

  lemma NamesOfFirst(pairs: seq<(string, string)>)
    requires pairs != []
    ensures forall n :: n in Names(pairs) <==> n == pairs[0].0 || n in Names(pairs[1..])
    ensures NoDuplicates(Names(pairs)) <==> NoDuplicates(Names(pairs[1..])) && pairs[0].0 !in Names(pairs[1..])
  {
    var names, rest := Names(pairs), Names(pairs[1..]);
    assert names == [pairs[0].0] + rest;
    if NoDuplicates(names) {
      forall i, j | 0 <= i < j < |rest| ensures rest[i] != rest[j] { assert names[i + 1] != names[j + 1]; }
      forall j | 0 <= j < |rest| ensures rest[j] != pairs[0].0 { assert names[0] != names[j + 1]; }
    }
  }

  /**
   * The values of an environment or label section and its issues add up to its entries exactly if no name is assigned
   * twice; an earlier assignment is overwritten in silence.
   */
  lemma VariablesConserveIff(c: Context, v: Json)
    ensures var outcomes := VariableOutcomes(c, v);
      var values := Assigned(Kept(outcomes), map[]);
      && |values| + Skips(Said(outcomes)) <= |outcomes|
      && (|values| + Skips(Said(outcomes)) == |outcomes| <==> NoDuplicates(Names(Kept(outcomes))))
  {
    hide VariableOutcomes, Kept, Said, Skips, Accounted, Assigned, Names, NoDuplicates;
    var outcomes := VariableOutcomes(c, v);
    VariablesAreAccounted(c, v);
    OutcomesConserve(outcomes);
    AssignedSize(Kept(outcomes), map[]);
  }
}
