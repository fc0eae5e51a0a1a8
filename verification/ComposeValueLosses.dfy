/** What is lost in silence inside the value of one key of a service. */
module ComposeValueLosses {
  import opened Sequences
  import opened Json
  import opened ImportIssues
  import opened ImportOutcomes
  import opened ComposeText
  import opened ComposePorts
  import opened ComposeMounts
  import opened ComposeService

  // Ports and mounts

  /** When deleting a key of a long-syntax port has no effect; a skipped port is spelled out in its issue. */
  predicate PortKeyInert(rt: Runtime, fields: seq<Field>, key: string) {
    Number(rt, Get(fields, "target")).Some?
    && if key == "target" then false
       else if key == "published" then Number(rt, Get(fields, key)) in {None, Some(0.0)}
       else if key == "protocol" then Get(fields, key) != Str("udp")
       else true
  }

  lemma LongPortKeyIsLostIff(rt: Runtime, fields: seq<Field>, key: string, path: seq<string>)
    requires !Nullish(Get(fields, key))
    ensures PortOutcome(rt, Obj(Without(fields, key)), path) == PortOutcome(rt, Obj(fields), path)
       <==> PortKeyInert(rt, fields, key)
  {
    hide Get, Without, Text;
    GetWithout(fields, key, key);
    GetWithout(fields, key, "target");
    GetWithout(fields, key, "published");
    GetWithout(fields, key, "protocol");
    assert Without(fields, key) != fields;
  }

  /** When deleting a key of a long-syntax mount has no effect; a skipped mount is spelled out in its issue. */
  predicate MountKeyInert(rt: Runtime, fields: seq<Field>, key: string) {
    TextOrEmpty(rt, Get(fields, "source")) != "" && TextOrEmpty(rt, Get(fields, "target")) != ""
    && if key == "source" || key == "target" then false
       else if key == "type" then Get(fields, key) != Str("bind")
       else if key == "read_only" then Get(fields, key) != Bool(true)
       else true
  }

  lemma LongMountKeyIsLostIff(rt: Runtime, fields: seq<Field>, key: string, path: seq<string>)
    requires !Nullish(Get(fields, key))
    ensures MountOutcome(rt, Obj(Without(fields, key)), path) == MountOutcome(rt, Obj(fields), path)
       <==> MountKeyInert(rt, fields, key)
  {
    hide Get, Without, Text;
    GetWithout(fields, key, key);
    GetWithout(fields, key, "type");
    GetWithout(fields, key, "source");
    GetWithout(fields, key, "target");
    GetWithout(fields, key, "read_only");
    assert Without(fields, key) != fields;
  }

  lemma OneReplaced<T>(a: seq<T>, b: seq<T>, i: nat)
    requires |a| == |b| && i < |a| && forall j | 0 <= j < |a| && j != i :: a[j] == b[j]
    ensures a == a[..i] + [a[i]] + a[i + 1..] && b == a[..i] + [b[i]] + a[i + 1..]
  {
  }

  /** Replacing one entry of a list shows exactly if the entry's own mapping makes something else of it. */
  lemma PortEntryDecides(c: Context, items: seq<Json>, i: nat, v: Json)
    requires i < |items|
    ensures PieceOf(c, PortsKey, Arr(items[i := v])) == PieceOf(c, PortsKey, Arr(items))
       <==> PortOutcome(c.rt, v, c.path) == PortOutcome(c.rt, items[i], c.path)
  {
    hide PortOutcome, PortOutcomes, Kept, Said;
    var a, b := PortOutcomes(c.rt, items, c.path), PortOutcomes(c.rt, items[i := v], c.path);
    OneReplaced(a, b, i);
    EntryDecides(a[..i], a[i], b[i], a[i + 1..]);
  }

  lemma MountEntryDecides(c: Context, items: seq<Json>, i: nat, v: Json)
    requires i < |items|
    ensures PieceOf(c, MountsKey, Arr(items[i := v])) == PieceOf(c, MountsKey, Arr(items))
       <==> MountOutcome(c.rt, v, c.path) == MountOutcome(c.rt, items[i], c.path)
  {
    hide MountOutcome, MountOutcomes, Kept, Said;
    var a, b := MountOutcomes(c.rt, items, c.path), MountOutcomes(c.rt, items[i := v], c.path);
    OneReplaced(a, b, i);
    EntryDecides(a[..i], a[i], b[i], a[i + 1..]);
  }

  // Health checks

  /** When deleting a key of a health check has no effect: it is not read, or its value reads as the default. */
  predicate HealthKeyInert(c: Context, fields: seq<Field>, key: string) {
    var off, untested := Get(fields, "disable") == Bool(true), TestOf(c, Get(fields, "test")) == [];
    if key == "disable" then !off
    else if key == "test" then off || untested
    else if key == "interval" then off || untested || DurationOr(c, Get(fields, key), 30000) == 30000
    else if key == "timeout" then off || untested || DurationOr(c, Get(fields, key), 10000) == 10000
    else if key == "start_period" then off || untested || DurationOr(c, Get(fields, key), 0) <= 0
    else if key == "retries" then off || untested || Retries(c, Get(fields, key)) == 3.0
    else true
  }

  lemma HealthKeyIsLostIff(c: Context, fields: seq<Field>, key: string)
    requires !Nullish(Get(fields, key))
    ensures HealthPiece(c, Obj(Without(fields, key))) == HealthPiece(c, Obj(fields)) <==> HealthKeyInert(c, fields, key)
  {
    hide Get, Without, Texts, DurationOr, Retries;
    GetWithout(fields, key, "disable");
    GetWithout(fields, key, "test");
    GetWithout(fields, key, "interval");
    GetWithout(fields, key, "timeout");
    GetWithout(fields, key, "start_period");
    GetWithout(fields, key, "retries");
    DefaultsOfNothing(c);
  }

  lemma DefaultsOfNothing(c: Context)
    ensures forall otherwise :: DurationOr(c, Undefined, otherwise) == otherwise
    ensures Retries(c, Undefined) == 3.0 && TestOf(c, Undefined) == []
  {
  }

  /** What a retry count reads as: three unless it is a number, and never below one. */
  lemma RetriesIsThreeIff(c: Context, v: Json)
    ensures Retries(c, v) == 3.0 <==> Number(c.rt, v) in {None, Some(3.0)}
  {
    hide Number;
  }

  // Logging

  predicate LogKeyInert(c: Context, fields: seq<Field>, key: string) {
    if key == "driver" then Text(c.rt, Get(fields, key)) == "json-file"
    else if key == "options" then
      TextOr(c, Get(fields, key), "max-size", "10m") == "10m" && TextOr(c, Get(fields, key), "max-file", "3") == "3"
    else true
  }

  lemma LogKeyIsLostIff(c: Context, fields: seq<Field>, key: string)
    requires !Nullish(Get(fields, key))
    ensures LogPiece(c, Obj(Without(fields, key))) == LogPiece(c, Obj(fields)) <==> LogKeyInert(c, fields, key)
  {
    hide Get, Without, Text;
    GetWithout(fields, key, "driver");
    GetWithout(fields, key, "options");
  }

  /** The same for the options; only two of them are read. */
  lemma LogOptionIsLostIff(c: Context, fields: seq<Field>, options: seq<Field>, key: string)
    requires Get(fields, "options") == Obj(options) && !Nullish(Get(options, key))
    ensures LogPiece(c, Obj(Put(fields, "options", Obj(Without(options, key))))) == LogPiece(c, Obj(fields))
       <==> !(key == "max-size" && Text(c.rt, Get(options, key)) != "10m")
            && !(key == "max-file" && Text(c.rt, Get(options, key)) != "3")
  {
    hide Get, Put, Without, Text;
    GetPut(fields, "options", Obj(Without(options, key)), "driver");
    GetPut(fields, "options", Obj(Without(options, key)), "options");
    GetWithout(options, key, "max-size");
    GetWithout(options, key, "max-file");
  }

  // Dependencies

  lemma {:induction false} RestrictedAppend(names: seq<string>, a: seq<string>, b: seq<string>)
    ensures Restricted(names, a + b) == Restricted(names, a) + Restricted(names, b)
  {
    if a == [] {
      assert a + b == b;
    } else {
      assert (a + b)[1..] == a[1..] + b;
      RestrictedAppend(names, a[1..], b);
    }
  }

  lemma DependsPiece(c: Context, v: Json)
    requires v.Arr? || v.Obj?
    ensures PieceOf(c, DependsKey, v)
         == Piece(WordsUnlessEmpty(Restricted(c.names, ReadDependsOn(c.rt, v))),
                  if v.Obj? then [Issue(Lossy, c.path, Plain)] else [])
  {
    hide Restricted, ReadDependsOn;
  }

  lemma WordsDiffer(a: seq<string>, b: seq<string>)
    ensures WordsUnlessEmpty(a) == WordsUnlessEmpty(b) <==> a == b
  {
  }

  lemma TextsAppend(rt: Runtime, a: seq<Json>, b: seq<Json>)
    ensures Texts(rt, a + b) == Texts(rt, a) + Texts(rt, b)
  {
    hide Text, Texts;
  }

  lemma TextsAround(rt: Runtime, items: seq<Json>, i: nat)
    requires i < |items|
    ensures Texts(rt, items) == Texts(rt, items[..i]) + ([Text(rt, items[i])] + Texts(rt, items[i + 1..]))
    ensures Texts(rt, items[..i] + items[i + 1..]) == Texts(rt, items[..i]) + Texts(rt, items[i + 1..])
  {
    hide Text, Texts;
    assert items == items[..i] + ([items[i]] + items[i + 1..]);
    TextsAppend(rt, items[..i], [items[i]] + items[i + 1..]);
    TextsAppend(rt, [items[i]], items[i + 1..]);
    TextsAppend(rt, items[..i], items[i + 1..]);
    assert Texts(rt, [items[i]]) == [Text(rt, items[i])];
  }

  /** An entry of a dependency list is lost in silence exactly if it names no service of the file. */
  lemma DependencyIsLostIff(c: Context, items: seq<Json>, i: nat)
    requires i < |items|
    ensures PieceOf(c, DependsKey, Arr(items[..i] + items[i + 1..])) == PieceOf(c, DependsKey, Arr(items))
       <==> Text(c.rt, items[i]) !in c.names
  {
    hide Text, Restricted, Texts, PieceOf, WordsUnlessEmpty;
    var before, after, name := Texts(c.rt, items[..i]), Texts(c.rt, items[i + 1..]), Text(c.rt, items[i]);
    TextsAround(c.rt, items, i);
    RestrictedAppend(c.names, before, [name] + after);
    RestrictedAppend(c.names, [name], after);
    RestrictedAppend(c.names, before, after);
    RestrictedOne(c.names, name);
    DependsPiece(c, Arr(items));
    DependsPiece(c, Arr(items[..i] + items[i + 1..]));
    var a, b := Restricted(c.names, before), Restricted(c.names, after);
    WordsDiffer(a + b, a + (Restricted(c.names, [name]) + b));
    assert a + ([] + b) == a + b && |a + ([name] + b)| != |a + b|;
  }

  lemma RestrictedOne(names: seq<string>, name: string)
    ensures Restricted(names, [name]) == if name in names then [name] else []
  {
  }

  lemma {:induction false} RestrictedKeysWithout(names: seq<string>, fields: seq<Field>, key: string)
    requires key !in names
    ensures Restricted(names, Keys(Without(fields, key))) == Restricted(names, Keys(fields))
  {
    if fields != [] {
      RestrictedKeysWithout(names, fields[1..], key);
      assert Keys(fields)[1..] == Keys(fields[1..]);
      if fields[0].key == key { assert Without(fields, key) == Without(fields[1..], key); }
      else { assert Keys(Without(fields, key))[1..] == Keys(Without(fields[1..], key)); }
    }
  }

  lemma {:induction false} WithoutIsGone(fields: seq<Field>, key: string)
    ensures key !in Keys(Without(fields, key))
  {
    if fields != [] {
      WithoutIsGone(fields[1..], key);
      if fields[0].key == key { assert Without(fields, key) == Without(fields[1..], key); }
      else { assert Without(fields, key)[1..] == Without(fields[1..], key); }
    }
  }

  /** So is an entry of a dependency mapping, whose issue names no entry. */
  lemma DependencyEntryIsLostIff(c: Context, fields: seq<Field>, key: string)
    requires key in Keys(fields)
    ensures PieceOf(c, DependsKey, Obj(Without(fields, key))) == PieceOf(c, DependsKey, Obj(fields)) <==>
      key !in c.names
  {
    hide Restricted, Keys, Without, PieceOf, WordsUnlessEmpty;
    WithoutIsGone(fields, key);
    if key !in c.names { RestrictedKeysWithout(c.names, fields, key); }
    DependsPiece(c, Obj(fields));
    DependsPiece(c, Obj(Without(fields, key)));
    WordsDiffer(Restricted(c.names, Keys(Without(fields, key))), Restricted(c.names, Keys(fields)));
  }
}
