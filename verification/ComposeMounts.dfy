/** The volumes and bind mounts of a Compose service. */
module ComposeMounts {
  import opened Sequences
  import opened Json
  import opened ImportIssues
  import opened ImportOutcomes
  import opened ComposeText

  datatype MountType = Bind | Volume
  datatype Mount = Mount(source: string, target: string, kind: MountType, readOnly: bool)

  /** A set of names in the order of first addition. */
  class NameSet {
    var names: seq<string>

    constructor ()
      ensures names == []
    {
      names := [];
    }

    method Add(name: string)
      modifies this
      ensures names == Added(old(names), name)
    {
      if name !in names { names := names + [name]; }
    }
  }

  /** The named volumes that mounts refer to. */
  function VolumeSources(mounts: seq<Mount>): seq<string> {
    if mounts == [] then [] else SourceOf(mounts[0]) + VolumeSources(mounts[1..])
  }

  function SourceOf(mount: Mount): seq<string> { if mount.kind.Volume? then [mount.source] else [] }

  predicate IsBindSource(source: string) { "/" <= source || "./" <= source || "../" <= source || "~" <= source }

  function TextOrEmpty(rt: Runtime, v: Json): string { if Nullish(v) then "" else Text(rt, v) }

  function LongMount(rt: Runtime, entry: Json, path: seq<string>): Outcome<Mount> {
    var source, target := TextOrEmpty(rt, Member(entry, "source")), TextOrEmpty(rt, Member(entry, "target"));
    var kind := if Member(entry, "type") == Str("bind") then Bind else Volume;
    if source == "" || target == "" then Outcome(None, [Issue(Unsupported, path, Quoted(entry))])
    else Outcome(Some(Mount(source, target, kind, Member(entry, "read_only") == Bool(true))), [])
  }

  function ShortMount(spec: string, path: seq<string>): Outcome<Mount> {
    var parts := Split(spec, ':');
    if |parts| == 1 then Outcome(None, [Issue(Unsupported, path, Shown(spec))])
    else
      var readOnly := |parts| > 2 && parts[2] == "ro";
      if !IsBindSource(parts[0]) then Outcome(Some(Mount(parts[0], parts[1], Volume, readOnly)), [])
      else if !("/" <= parts[0]) then Outcome(None, [Issue(Unsupported, path, Shown(spec))])
      else Outcome(Some(Mount(parts[0], parts[1], Bind, readOnly)), [Issue(Lossy, path, Shown(spec))])
  }

  function MountOutcome(rt: Runtime, entry: Json, path: seq<string>): Outcome<Mount> {
    if entry.Obj? then LongMount(rt, entry, path) else ShortMount(Text(rt, entry), path)
  }

  function MountOutcomes(rt: Runtime, entries: seq<Json>, path: seq<string>): (r: seq<Outcome<Mount>>)
    ensures |r| == |entries| && forall i | 0 <= i < |r| :: r[i] == MountOutcome(rt, entries[i], path)
  {
    if entries == [] then [] else [MountOutcome(rt, entries[0], path)] + MountOutcomes(rt, entries[1..], path)
  }

  function Mounts(rt: Runtime, raw: Json, path: seq<string>): seq<Mount> { Kept(MountOutcomes(rt, Items(raw), path)) }
  function MountIssues(rt: Runtime, raw: Json, path: seq<string>): seq<Issue> {
    Said(MountOutcomes(rt, Items(raw), path))
  }

  method MapMounts(rt: Runtime, raw: Json, path: seq<string>, report: Report, volumes: NameSet)
    returns (mounts: seq<Mount>)
    modifies report, volumes
    ensures mounts == Mounts(rt, raw, path)
    ensures report.issues == old(report.issues) + MountIssues(rt, raw, path)
    ensures volumes.names == AddAll(old(volumes.names), VolumeSources(mounts))
  {
    hide MountOutcome, Kept, Said, VolumeSources, AddAll, Added;
    NothingMounted(volumes.names);
    NothingKept<Mount>();
    var entries := Items(raw);
    ghost var outcomes := MountOutcomes(rt, entries, path);
    mounts := [];
    if !raw.Arr? {
      assert outcomes == [];
      return;
    }
    var i := 0;
    assert outcomes[0..] == outcomes;
    while i < |entries|
      invariant 0 <= i <= |entries|
      invariant Kept(outcomes) == mounts + Kept(outcomes[i..])
      invariant old(report.issues) + Said(outcomes) == report.issues + Said(outcomes[i..])
      invariant volumes.names == AddAll(old(volumes.names), VolumeSources(mounts))
    {
      OutcomesFrom(outcomes, i);
      ghost var said, rest, kept, more := report.issues, Said(outcomes[i + 1..]), mounts, Kept(outcomes[i + 1..]);
      assert said + (outcomes[i].issues + rest) == said + outcomes[i].issues + rest;
      var mount := MapMount(rt, entries[i], path, report, volumes);
      if mount.Some? {
        assert kept + ([mount.value] + more) == kept + [mount.value] + more;
        MountAdds(old(volumes.names), kept, mount.value);
        mounts := mounts + [mount.value];
      } else {
        assert kept + ([] + more) == kept + more;
      }
      i := i + 1;
    }
    assert outcomes[i..] == [] && mounts + [] == mounts;
  }

  lemma NothingMounted(names: seq<string>)
    ensures VolumeSources([]) == [] && AddAll(names, []) == names
  {
  }

  lemma {:induction false} SourcesAppend(mounts: seq<Mount>, more: seq<Mount>)
    ensures VolumeSources(mounts + more) == VolumeSources(mounts) + VolumeSources(more)
  {
    if mounts == [] {
      assert mounts + more == more;
    } else {
      assert (mounts + more)[1..] == mounts[1..] + more;
      SourcesAppend(mounts[1..], more);
    }
  }

  lemma MountAdds(names: seq<string>, mounts: seq<Mount>, mount: Mount)
    ensures AddAll(names, VolumeSources(mounts + [mount]))
         == var before := AddAll(names, VolumeSources(mounts));
           if mount.kind.Volume? then Added(before, mount.source) else before
  {
    SourcesAppend(mounts, [mount]);
    AddAllAppend(names, VolumeSources(mounts), VolumeSources([mount]));
    assert VolumeSources([mount]) == SourceOf(mount) + VolumeSources([]);
  }

  /** The body of the loop, with an early exit for every entry that is skipped. */
  method MapMount(rt: Runtime, entry: Json, path: seq<string>, report: Report, volumes: NameSet)
    returns (mount: Option<Mount>)
    modifies report, volumes
    ensures mount == MountOutcome(rt, entry, path).item
    ensures report.issues == old(report.issues) + MountOutcome(rt, entry, path).issues
    ensures volumes.names
         == if mount.Some? && mount.value.kind.Volume? then Added(old(volumes.names), mount.value.source)
            else old(volumes.names)
  {
    hide Text, Split, Get, IsBindSource, Added;
    if entry.Obj? {
      var kind := if Member(entry, "type") == Str("bind") then Bind else Volume;
      var source, target := TextOrEmpty(rt, Member(entry, "source")), TextOrEmpty(rt, Member(entry, "target"));
      if source == "" || target == "" {
        report.Push(Issue(Unsupported, path, Quoted(entry)));
        return None;
      }
      if kind.Volume? { volumes.Add(source); }
      return Some(Mount(source, target, kind, Member(entry, "read_only") == Bool(true)));
    }
    var spec := Text(rt, entry);
    var parts := Split(spec, ':');
    if |parts| == 1 {
      report.Push(Issue(Unsupported, path, Shown(spec)));
      return None;
    }
    var source, target, readOnly := parts[0], parts[1], |parts| > 2 && parts[2] == "ro";
    var kind := if IsBindSource(source) then Bind else Volume;
    if kind.Bind? {
      if !("/" <= source) {
        report.Push(Issue(Unsupported, path, Shown(spec)));
        return None;
      }
      report.Push(Issue(Lossy, path, Shown(spec)));
    } else {
      volumes.Add(source);
    }
    mount := Some(Mount(source, target, kind, readOnly));
  }

  // Conservation

  lemma MountIsAccounted(rt: Runtime, entry: Json, path: seq<string>)
    ensures Accounted(MountOutcome(rt, entry, path))
  {
    hide Text, Get, Split, IsBindSource;
    SkipsOne(Issue(Unsupported, path, Shown(Text(rt, entry))));
    SkipsOne(Issue(Unsupported, path, Quoted(entry)));
    SkipsOne(Issue(Lossy, path, Shown(Text(rt, entry))));
  }

  /** Every entry of a list of mounts is carried over or reported as skipped, once. */
  lemma MountsConserve(rt: Runtime, raw: Json, path: seq<string>)
    requires raw.Arr?
    ensures |Mounts(rt, raw, path)| + Skips(MountIssues(rt, raw, path)) == |raw.items|
  {
    hide Kept, Said, Accounted, MountOutcome;
    forall i | 0 <= i < |raw.items| ensures Accounted(MountOutcomes(rt, raw.items, path)[i]) {
      MountIsAccounted(rt, raw.items[i], path);
    }
    OutcomesConserve(MountOutcomes(rt, raw.items, path));
  }

  // The meaning of a mount

  /** A mount as the short syntax means it. */
  datatype MountSpec = MountSpec(source: string, target: string, mode: Option<string>)

  predicate SpecOk(m: MountSpec) { ':' !in m.source && ':' !in m.target && (m.mode.Some? ==> ':' !in m.mode.value) }

  function Written(m: MountSpec): string {
    m.source + ([':'] + if m.mode.Some? then m.target + ([':'] + m.mode.value) else m.target)
  }

  function Meaning(m: MountSpec, path: seq<string>): Outcome<Mount> {
    var mount := Mount(m.source, m.target, if IsBindSource(m.source) then Bind else Volume, m.mode == Some("ro"));
    if IsBindSource(m.source) && !("/" <= m.source) then Outcome(None, [Issue(Unsupported, path, Shown(Written(m)))])
    else Outcome(Some(mount), if IsBindSource(m.source) then [Issue(Lossy, path, Shown(Written(m)))] else [])
  }

  /** Every mount of the short syntax is read as what it means. */
  lemma ShortMountMeaning(rt: Runtime, m: MountSpec, path: seq<string>)
    requires SpecOk(m)
    ensures MountOutcome(rt, Str(Written(m)), path) == Meaning(m, path)
  {
    WrittenSplits(m);
    hide Written, Split, IsBindSource;
  }

  /** Which sources name a volume, which a path on the host, and which a path that the importer cannot resolve. */
  lemma SourceDecides(rt: Runtime, m: MountSpec, path: seq<string>)
    requires SpecOk(m)
    ensures var s, outcome := m.source, MountOutcome(rt, Str(Written(m)), path);
      if s != "" && s[0] == '/' then
        && outcome.item == Some(Mount(s, m.target, Bind, m.mode == Some("ro")))
        && outcome.issues == [Issue(Lossy, path, Shown(Written(m)))]
      else if (s != "" && s[0] == '~') || (|s| >= 2 && s[..2] == "./") || (|s| >= 3 && s[..3] == "../") then
        outcome == Outcome(None, [Issue(Unsupported, path, Shown(Written(m)))])
      else outcome == Outcome(Some(Mount(s, m.target, Volume, m.mode == Some("ro"))), [])
  {
    hide MountOutcome, Written, SpecOk;
    ShortMountMeaning(rt, m, path);
  }

  lemma WrittenSplits(m: MountSpec)
    requires SpecOk(m)
    ensures Split(Written(m), ':') == [m.source, m.target] + if m.mode.Some? then [m.mode.value] else []
  {
    hide Split;
    if m.mode.Some? {
      SplitOne(m.mode.value, ':');
      SplitFirst(m.target, ':', m.mode.value);
      SplitFirst(m.source, ':', m.target + ([':'] + m.mode.value));
    } else {
      SplitOne(m.target, ':');
      SplitFirst(m.source, ':', m.target);
    }
  }

  /** A mode other than `ro` is lost in silence exactly if the source is no path: only bind mounts are quoted. */
  lemma ShortModeIsLostIff(rt: Runtime, m: MountSpec, path: seq<string>)
    requires SpecOk(m) && m.mode.Some?
    ensures MountOutcome(rt, Str(Written(m)), path) == MountOutcome(rt, Str(Written(m.(mode := None))), path)
       <==> m.mode != Some("ro") && !IsBindSource(m.source)
  {
    ShortMountMeaning(rt, m, path);
    ShortMountMeaning(rt, m.(mode := None), path);
    assert |Written(m)| > |Written(m.(mode := None))|;
    hide MountOutcome, Written, SpecOk, IsBindSource;
  }

  /** So is whatever follows the mode. */
  lemma ExtraPartsAreLostIff(rt: Runtime, m: MountSpec, extra: string, path: seq<string>)
    requires SpecOk(m) && m.mode.Some?
    ensures MountOutcome(rt, Str(Written(m) + ([':'] + extra)), path) == MountOutcome(rt, Str(Written(m)), path)
       <==> !IsBindSource(m.source)
  {
    ExtraSplits(m, extra);
    WrittenSplits(m);
    assert |Written(m) + ([':'] + extra)| > |Written(m)|;
    hide Written, SpecOk, IsBindSource, Split;
  }

  lemma ExtraSplits(m: MountSpec, extra: string)
    requires SpecOk(m) && m.mode.Some?
    ensures Split(Written(m) + ([':'] + extra), ':') == [m.source, m.target, m.mode.value] + Split(extra, ':')
  {
    hide Split;
    var mode := m.mode.value + ([':'] + extra);
    var target := m.target + ([':'] + mode);
    assert Written(m) + ([':'] + extra) == m.source + ([':'] + target);
    SplitFirst(m.mode.value, ':', extra);
    SplitFirst(m.target, ':', mode);
    SplitFirst(m.source, ':', target);
  }
}
