/** The ports of a Compose service. */
module ComposePorts {
  import opened Sequences
  import opened Json
  import opened ImportIssues
  import opened ImportOutcomes
  import opened ComposeText

  datatype Protocol = Tcp | Udp
  datatype Port = Port(containerPort: real, hostPort: real, protocol: Protocol, exposeOnHost: bool)

  /** A port of the long syntax. */
  function LongPort(rt: Runtime, entry: Json, path: seq<string>): Outcome<Port> {
    match Number(rt, Member(entry, "target"))
    case None => Outcome(None, [Issue(Unsupported, path, Quoted(entry))])
    case Some(target) =>
      var published := if Nullish(Member(entry, "published")) then Some(0.0)
        else Number(rt, Member(entry, "published"));
      Outcome(Some(MakePort(target, published, Member(entry, "protocol") == Str("udp"))), [])
  }

  function MakePort(target: real, published: Option<real>, udp: bool): Port {
    Port(target, if published.Some? then published.value else 0.0, if udp then Udp else Tcp,
         published.Some? && published.value > 0.0)
  }

  /** A port of the short syntax. */
  function ShortPort(rt: Runtime, spec: string, path: seq<string>): Outcome<Port> {
    var slash := LastIndexOf(spec, '/');
    var body := if slash == -1 then spec else spec[..slash];
    var udp := slash != -1 && spec[slash + 1..] == "udp";
    var skipped, notice := Issue(Unsupported, path, Shown(spec)), Issue(Lossy, path, Shown(spec));
    if '-' in body then Outcome(None, [skipped])
    else
      var parts := Split(body, ':');
      var notices := if |parts| == 2 then [] else [notice];
      var target := rt.parse(if |parts| == 3 then parts[2] else if |parts| == 2 then parts[1] else parts[0]);
      var published := if |parts| == 3 then rt.parse(parts[1]) else if |parts| == 2 then rt.parse(parts[0])
        else Some(0.0);
      match target
      case None => Outcome(None, notices + [skipped])
      case Some(n) => Outcome(Some(MakePort(n, published, udp)), notices)
  }

  function PortOutcome(rt: Runtime, entry: Json, path: seq<string>): Outcome<Port> {
    if entry.Obj? then LongPort(rt, entry, path) else ShortPort(rt, Text(rt, entry), path)
  }

  function PortOutcomes(rt: Runtime, entries: seq<Json>, path: seq<string>): (r: seq<Outcome<Port>>)
    ensures |r| == |entries| && forall i | 0 <= i < |r| :: r[i] == PortOutcome(rt, entries[i], path)
  {
    if entries == [] then [] else [PortOutcome(rt, entries[0], path)] + PortOutcomes(rt, entries[1..], path)
  }

  function Ports(rt: Runtime, raw: Json, path: seq<string>): seq<Port> { Kept(PortOutcomes(rt, Items(raw), path)) }
  function PortIssues(rt: Runtime, raw: Json, path: seq<string>): seq<Issue> {
    Said(PortOutcomes(rt, Items(raw), path))
  }

  function Unless<T>(items: seq<T>): Option<seq<T>> { if items == [] then None else Some(items) }

  method MapPorts(rt: Runtime, raw: Json, path: seq<string>, report: Report) returns (ports: Option<seq<Port>>)
    modifies report
    ensures ports == Unless(Ports(rt, raw, path))
    ensures report.issues == old(report.issues) + PortIssues(rt, raw, path)
  {
    hide PortOutcome, Kept, Said;
    NothingKept<Port>();
    var entries := Items(raw);
    ghost var outcomes := PortOutcomes(rt, entries, path);
    if !raw.Arr? {
      assert outcomes == [];
      return None;
    }
    var list, i := [], 0;
    assert outcomes[0..] == outcomes;
    while i < |entries|
      invariant 0 <= i <= |entries|
      invariant Kept(outcomes) == list + Kept(outcomes[i..])
      invariant old(report.issues) + Said(outcomes) == report.issues + Said(outcomes[i..])
    {
      OutcomesFrom(outcomes, i);
      ghost var said, rest, kept, more := report.issues, Said(outcomes[i + 1..]), list, Kept(outcomes[i + 1..]);
      assert said + (outcomes[i].issues + rest) == said + outcomes[i].issues + rest;
      var port := MapPort(rt, entries[i], path, report);
      if port.Some? {
        assert kept + ([port.value] + more) == kept + [port.value] + more;
        list := list + [port.value];
      } else {
        assert kept + ([] + more) == kept + more;
      }
      i := i + 1;
    }
    assert outcomes[i..] == [] && list + [] == list;
    ports := Unless(list);
  }

  /** The body of the loop, with an early exit for every entry that is skipped. */
  method MapPort(rt: Runtime, entry: Json, path: seq<string>, report: Report) returns (port: Option<Port>)
    modifies report
    ensures port == PortOutcome(rt, entry, path).item
    ensures report.issues == old(report.issues) + PortOutcome(rt, entry, path).issues
  {
    hide Text, Number, ShortPort, MakePort, Get;
    if !entry.Obj? {
      port := MapShortPort(rt, Text(rt, entry), path, report);
      return;
    }
    var target := Number(rt, Member(entry, "target"));
    if target.None? {
      report.Push(Issue(Unsupported, path, Quoted(entry)));
      return None;
    }
    var published := if Nullish(Member(entry, "published")) then Some(0.0) else Number(rt, Member(entry, "published"));
    port := Some(MakePort(target.value, published, Member(entry, "protocol") == Str("udp")));
  }

  method MapShortPort(rt: Runtime, spec: string, path: seq<string>, report: Report) returns (port: Option<Port>)
    modifies report
    ensures port == ShortPort(rt, spec, path).item
    ensures report.issues == old(report.issues) + ShortPort(rt, spec, path).issues
  {
    hide Split, LastIndexOf, MakePort;
    ghost var said := report.issues;
    ghost var notice, skipped := Issue(Lossy, path, Shown(spec)), Issue(Unsupported, path, Shown(spec));
    assert said + [] == said && said + [notice] + [skipped] == said + ([notice] + [skipped])
      && [] + [skipped] == [skipped];
    var udp, body := false, spec;
    var slash := LastIndexOf(body, '/');
    if slash != -1 {
      if spec[slash + 1..] == "udp" { udp := true; }
      body := body[..slash];
    }
    if '-' in body {
      report.Push(Issue(Unsupported, path, Shown(spec)));
      return None;
    }
    var parts := Split(body, ':');
    var hostPart, containerPart := None, parts[0];
    if |parts| == 3 {
      report.Push(Issue(Lossy, path, Shown(spec)));
      hostPart, containerPart := Some(parts[1]), parts[2];
    } else if |parts| == 2 {
      hostPart, containerPart := Some(parts[0]), parts[1];
    } else {
      report.Push(Issue(Lossy, path, Shown(spec)));
    }
    var containerPort := rt.parse(containerPart);
    if containerPort.None? {
      report.Push(Issue(Unsupported, path, Shown(spec)));
      return None;
    }
    var hostPort := if hostPart.Some? then rt.parse(hostPart.value) else Some(0.0);
    port := Some(MakePort(containerPort.value, hostPort, udp));
  }

  // Conservation

  lemma PortIsAccounted(rt: Runtime, entry: Json, path: seq<string>)
    ensures Accounted(PortOutcome(rt, entry, path))
  {
    hide Text, Number, LastIndexOf, Split;
    var skipped := Issue(Unsupported, path, Shown(Text(rt, entry)));
    SkipsAppend([Issue(Lossy, path, Shown(Text(rt, entry)))], [skipped]);
    SkipsOne(skipped);
    SkipsOne(Issue(Unsupported, path, Quoted(entry)));
    SkipsOne(Issue(Lossy, path, Shown(Text(rt, entry))));
    assert [] + [skipped] == [skipped];
  }

  /** Every entry of a list of ports is carried over or reported as skipped, once. */
  lemma PortsConserve(rt: Runtime, raw: Json, path: seq<string>)
    requires raw.Arr?
    ensures |Ports(rt, raw, path)| + Skips(PortIssues(rt, raw, path)) == |raw.items|
  {
    hide Kept, Said, Accounted, PortOutcome;
    forall i | 0 <= i < |raw.items| ensures Accounted(PortOutcomes(rt, raw.items, path)[i]) {
      PortIsAccounted(rt, raw.items[i], path);
    }
    OutcomesConserve(PortOutcomes(rt, raw.items, path));
  }

  // The meaning of a port

  /** A port as the short syntax means it. */
  datatype PortSpec = PortSpec(address: Option<string>, host: Option<string>, container: string,
    protocol: Option<string>)

  predicate PlainText(s: string) { ':' !in s && '/' !in s && '-' !in s }

  predicate SpecOk(p: PortSpec) {
    && PlainText(p.container) && (p.host.Some? ==> PlainText(p.host.value))
    && (p.protocol.Some? ==> '/' !in p.protocol.value)
    && (p.address.Some? ==> PlainText(p.address.value) && p.host.Some?)
  }

  function Front(part: Option<string>, rest: string): string {
    if part.Some? then part.value + ([':'] + rest) else rest
  }
  function Address(p: PortSpec): string { Front(p.address, Front(p.host, p.container)) }
  function Written(p: PortSpec): string { Address(p) + if p.protocol.Some? then "/" + p.protocol.value else "" }

  /** The port that should come of a container port, what is published, if it can be read, and a protocol. */
  predicate IsPort(port: Port, n: real, published: Option<real>, udp: bool) {
    && port.containerPort == n
    && port.hostPort == (match published case Some(h) => h case None => 0.0)
    && (port.protocol == Udp <==> udp)
    && (port.exposeOnHost <==> published.Some? && published.value > 0.0)
  }

  function Published(rt: Runtime, p: PortSpec): Option<real> { if p.host.Some? then rt.parse(p.host.value) else None }

  /**
   * What a port should become: bound to its host port on every interface, with a notice if that is not what it said.
   */
  predicate Means(outcome: Outcome<Port>, rt: Runtime, p: PortSpec, path: seq<string>) {
    var notices := if p.address.Some? || p.host.None? then [Issue(Lossy, path, Shown(Written(p)))] else [];
    match rt.parse(p.container)
    case None => outcome == Outcome(None, notices + [Issue(Unsupported, path, Shown(Written(p)))])
    case Some(n) =>
      && outcome.issues == notices && outcome.item.Some?
      && IsPort(outcome.item.value, n, Published(rt, p), p.protocol == Some("udp"))
  }

  lemma AddressSplits(p: PortSpec)
    requires SpecOk(p)
    ensures Split(Address(p), ':') ==
      (if p.address.Some? then [p.address.value] else []) + (if p.host.Some? then [p.host.value] else [])
        + [p.container]
    ensures '/' !in Address(p) && '-' !in Address(p)
  {
    hide Split;
    SplitOne(p.container, ':');
    if p.host.Some? { SplitFirst(p.host.value, ':', p.container); }
    if p.address.Some? { SplitFirst(p.address.value, ':', Front(p.host, p.container)); }
  }

  lemma BodyOfWritten(p: PortSpec)
    requires SpecOk(p)
    ensures var spec, slash := Written(p), LastIndexOf(Written(p), '/');
      && (if slash == -1 then spec else spec[..slash]) == Address(p)
      && ((slash != -1 && spec[slash + 1..] == "udp") <==> p.protocol == Some("udp"))
  {
    hide LastIndexOf, Split, Address;
    AddressSplits(p);
    var a, spec := Address(p), Written(p);
    if p.protocol.Some? {
      LastIndexUnique(a, '/', p.protocol.value);
      assert spec == a + ['/'] + p.protocol.value;
      assert spec[..|a|] == a && spec[|a| + 1..] == p.protocol.value;
    } else {
      assert spec == a;
    }
  }

  lemma ShortPortReads(rt: Runtime, p: PortSpec, path: seq<string>)
    requires SpecOk(p)
    ensures var notices := if p.address.Some? || p.host.None? then [Issue(Lossy, path, Shown(Written(p)))] else [];
      ShortPort(rt, Written(p), path) ==
      match rt.parse(p.container)
      case None => Outcome(None, notices + [Issue(Unsupported, path, Shown(Written(p)))])
      case Some(n) =>
        var published := if p.host.Some? then rt.parse(p.host.value) else Some(0.0);
        Outcome(Some(MakePort(n, published, p.protocol == Some("udp"))), notices)
  {
    hide LastIndexOf, Split, Address, Written, MakePort;
    BodyOfWritten(p);
    AddressSplits(p);
  }

  /** Every port of the short syntax is read as what it means. */
  lemma ShortPortMeaning(rt: Runtime, p: PortSpec, path: seq<string>)
    requires SpecOk(p)
    ensures Means(PortOutcome(rt, Str(Written(p)), path), rt, p, path)
  {
    hide ShortPort, SpecOk, Written;
    ShortPortReads(rt, p, path);
  }

  /** So is every port of the long syntax that has a numeric target. */
  lemma LongPortMeaning(rt: Runtime, fields: seq<Field>, path: seq<string>)
    ensures var outcome, target := PortOutcome(rt, Obj(fields), path), Number(rt, Get(fields, "target"));
      match target
      case None => outcome == Outcome(None, [Issue(Unsupported, path, Quoted(Obj(fields)))])
      case Some(n) =>
        var published := Get(fields, "published");
        && outcome.issues == [] && outcome.item.Some?
        && IsPort(outcome.item.value, n, if Nullish(published) then None else Number(rt, published),
                  Get(fields, "protocol") == Str("udp"))
  {
    hide Get, Number;
  }

  /**
   * The long syntax is read by three of its keys only: any other changes nothing, unless the entry is skipped, since
   * then the issue spells out the whole entry.
   */
  lemma LongPortIgnoresIff(rt: Runtime, fields: seq<Field>, key: string, value: Json, path: seq<string>)
    requires key !in {"target", "published", "protocol"}
    ensures PortOutcome(rt, Obj(Put(fields, key, value)), path) == PortOutcome(rt, Obj(fields), path)
       <==> Number(rt, Get(fields, "target")).Some? || Put(fields, key, value) == fields
  {
    hide Get, Put, Number, MakePort;
    GetPut(fields, key, value, "target");
    GetPut(fields, key, value, "published");
    GetPut(fields, key, value, "protocol");
  }

  /**
   * A host address is reported in the short syntax; a long-syntax port that is carried over loses it without a word.
   */
  lemma HostAddressIsReportedInShortFormOnly(rt: Runtime, p: PortSpec, fields: seq<Field>, address: Json,
    path: seq<string>)
    requires SpecOk(p) && p.address.Some?
    ensures Issue(Lossy, path, Shown(Written(p))) in PortOutcome(rt, Str(Written(p)), path).issues
    ensures PortOutcome(rt, Obj(Put(fields, "host_ip", address)), path) == PortOutcome(rt, Obj(fields), path)
       <==> Number(rt, Get(fields, "target")).Some? || Put(fields, "host_ip", address) == fields
  {
    hide PortOutcome, Written, Number, Get, Put;
    ShortPortMeaning(rt, p, path);
    LongPortIgnoresIff(rt, fields, "host_ip", address, path);
  }

  /** A protocol other than `udp` is lost in silence exactly if nothing else about the port calls for an issue. */
  lemma ShortProtocolIsLostIff(rt: Runtime, p: PortSpec, path: seq<string>)
    requires SpecOk(p) && p.protocol.Some?
    ensures PortOutcome(rt, Str(Written(p)), path) == PortOutcome(rt, Str(Written(p.(protocol := None))), path)
       <==> p.protocol != Some("udp") && p.address.None? && p.host.Some? && rt.parse(p.container).Some?
  {
    var q := p.(protocol := None);
    assert |Written(p)| > |Written(q)|;
    hide PortOutcome, Written, SpecOk;
    ShortPortMeaning(rt, p, path);
    ShortPortMeaning(rt, q, path);
    var a, b := PortOutcome(rt, Str(Written(p)), path), PortOutcome(rt, Str(Written(q)), path);
    if a.issues != [] && b.issues != [] { assert a.issues[0] != b.issues[0]; }
  }

  /**
   * A port comes out unbound, and nothing is said, exactly if it has no address and its host part reads as zero or not
   * at all.
   */
  lemma ShortHostIsLostIff(rt: Runtime, p: PortSpec, n: real, path: seq<string>)
    requires SpecOk(p) && p.host.Some? && rt.parse(p.container) == Some(n)
    ensures PortOutcome(rt, Str(Written(p)), path)
            == Outcome(Some(Port(n, 0.0, if p.protocol == Some("udp") then Udp else Tcp, false)), [])
       <==> p.address.None? && rt.parse(p.host.value) in {None, Some(0.0)}
  {
    hide PortOutcome, Written, SpecOk;
    ShortPortMeaning(rt, p, path);
  }
}
