/** The text operations of the Compose importer: conversions, splitting and image references. */
module ComposeText {
  import opened Sequences
  import opened Json

  // Conversions

  /** How the host language writes a number, and reads one (`None` stands for every result that is not finite). */
  datatype Runtime = Runtime(format: real -> string, parse: string -> Option<real>)

  function Text(rt: Runtime, v: Json): string {
    match v
    case Undefined => "undefined"
    case Null => "null"
    case Bool(b) => if b then "true" else "false"
    case Num(x) => rt.format(x)
    case Str(s) => s
    case Arr(items) => TextItems(rt, items)
    case Obj(_) => "[object Object]"
  }

  function TextItems(rt: Runtime, items: seq<Json>): string {
    if items == [] then ""
    else
      var first := if Nullish(items[0]) then "" else Text(rt, items[0]);
      if |items| == 1 then first else first + "," + TextItems(rt, items[1..])
  }

  function Texts(rt: Runtime, items: seq<Json>): (r: seq<string>)
    ensures |r| == |items| && forall i | 0 <= i < |items| :: r[i] == Text(rt, items[i])
  {
    if items == [] then [] else [Text(rt, items[0])] + Texts(rt, items[1..])
  }

  function Number(rt: Runtime, v: Json): Option<real> {
    match v
    case Undefined => None
    case Null => Some(0.0)
    case Bool(b) => Some(if b then 1.0 else 0.0)
    case Num(x) => Some(x)
    case _ => rt.parse(Text(rt, v))
  }

  // Splitting

  function IndexOf(s: string, c: char): (i: int)
    ensures -1 <= i < |s| && (i >= 0 ==> s[i] == c)
    ensures forall j | 0 <= j < (if i == -1 then |s| else i) :: s[j] != c
  {
    if s == "" then -1
    else if s[0] == c then 0
    else
      var j := IndexOf(s[1..], c);
      if j == -1 then -1 else j + 1
  }

  function LastIndexOf(s: string, c: char): (i: int)
    ensures -1 <= i < |s| && (i >= 0 ==> s[i] == c)
    ensures forall j | i < j < |s| :: s[j] != c
  {
    if s == "" then -1
    else if s[|s| - 1] == c then |s| - 1
    else LastIndexOf(s[..|s| - 1], c)
  }

  lemma LastIndexUnique(a: string, c: char, b: string)
    requires c !in b
    ensures LastIndexOf(a + [c] + b, c) == |a|
  {
    hide LastIndexOf;
    var s := a + [c] + b;
    assert s[|a|] == c;
    forall j | |a| < j < |s| ensures s[j] in b { AppendAfter(a, c, b, j); }
  }

  lemma AppendAfter(a: string, c: char, b: string, j: nat)
    requires |a| < j < |a| + 1 + |b|
    ensures (a + [c] + b)[j] == b[j - |a| - 1]
  {
  }

  lemma IndexUnique(a: string, c: char, b: string)
    requires c !in a
    ensures IndexOf(a + [c] + b, c) == |a|
  {
    var s := a + [c] + b;
    assert s[|a|] == c;
    forall j | 0 <= j < |a| ensures s[j] != c { assert s[j] == a[j]; }
  }

  /** `s.split(c)`: at least one part, none of which holds `c`. */
  function Split(s: string, c: char): (parts: seq<string>)
    ensures |parts| >= 1 && forall i | 0 <= i < |parts| :: c !in parts[i]
  {
    if s == "" then [""]
    else
      var rest := Split(s[1..], c);
      if s[0] == c then [""] + rest else [[s[0]] + rest[0]] + rest[1..]
  }

  function Join(parts: seq<string>, c: char): string
    requires |parts| >= 1
  {
    if |parts| == 1 then parts[0] else parts[0] + [c] + Join(parts[1..], c)
  }

  lemma {:induction false} JoinInvertsSplit(s: string, c: char)
    ensures Join(Split(s, c), c) == s
  {
    if s != "" {
      JoinInvertsSplit(s[1..], c);
      var rest := Split(s[1..], c);
      assert ([""] + rest)[1..] == rest;
      if s[0] != c && |rest| > 1 {
        assert ([[s[0]] + rest[0]] + rest[1..])[1..] == rest[1..];
        assert [s[0]] + rest[0] + [c] + Join(rest[1..], c) == [s[0]] + (rest[0] + [c] + Join(rest[1..], c));
      }
    }
  }

  lemma {:induction false} SplitFirst(part: string, c: char, rest: string)
    requires c !in part
    ensures Split(part + ([c] + rest), c) == [part] + Split(rest, c)
  {
    var s := part + ([c] + rest);
    if part == "" {
      assert s == [c] + rest && s[1..] == rest;
    } else {
      assert s[1..] == part[1..] + ([c] + rest);
      SplitFirst(part[1..], c, rest);
      var more := Split(s[1..], c);
      assert more[0] == part[1..] && more[1..] == Split(rest, c);
      assert [s[0]] + part[1..] == part;
    }
  }

  lemma {:induction false} SplitOne(part: string, c: char)
    requires c !in part
    ensures Split(part, c) == [part]
  {
    if part != "" {
      SplitOne(part[1..], c);
      assert [part[0]] + part[1..] == part;
    }
  }

  // Image references

  datatype ImageRef = ImageRef(image: string, tag: string)

  /** The colon of a tag comes after the last slash; any other belongs to a registry's port. */
  predicate Tagged(ref: string) { LastIndexOf(ref, ':') > LastIndexOf(ref, '/') }

  function SplitImageRef(ref: string): ImageRef {
    var at, colon := IndexOf(ref, '@'), LastIndexOf(ref, ':');
    if at != -1 then ImageRef(ref[..at], ref[at + 1..])
    else if Tagged(ref) then ImageRef(ref[..colon], ref[colon + 1..])
    else ImageRef(ref, "latest")
  }

  /** Joining the two parts again gives the same image, and a tag holds neither a colon nor a slash. */
  lemma {:induction false} JoinInvertsSplitImage(ref: string)
    ensures var r := SplitImageRef(ref);
      if '@' in ref then ref == r.image + "@" + r.tag && '@' !in r.image
      else if Tagged(ref) then ref == r.image + ":" + r.tag && ':' !in r.tag && '/' !in r.tag
      else ref == r.image && r.tag == "latest"
  {
    hide LastIndexOf, IndexOf;
    var at, colon := IndexOf(ref, '@'), LastIndexOf(ref, ':');
    assert '@' in ref <==> at != -1;
    if at != -1 { assert ref == ref[..at] + "@" + ref[at + 1..]; }
    else if Tagged(ref) {
      assert ref == ref[..colon] + ":" + ref[colon + 1..];
      var tag := ref[colon + 1..];
      forall i | 0 <= i < |tag| ensures tag[i] != ':' && tag[i] != '/' { assert tag[i] == ref[colon + 1 + i]; }
    }
  }

  lemma SplitInvertsTag(image: string, tag: string)
    requires '@' !in image && '@' !in tag && ':' !in tag && '/' !in tag
    ensures SplitImageRef(image + ":" + tag) == ImageRef(image, tag)
  {
    var ref := image + ":" + tag;
    LastIndexUnique(image, ':', tag);
    assert ref[|image|] == ':' && ref[..|image|] == image && ref[|image| + 1..] == tag;
    forall j | |image| < j < |ref| ensures ref[j] != '/' { assert ref[j] == tag[j - |image| - 1]; }
  }

  lemma SplitInvertsDigest(image: string, digest: string)
    requires '@' !in image
    ensures SplitImageRef(image + "@" + digest) == ImageRef(image, digest)
  {
    var ref := image + "@" + digest;
    IndexUnique(image, '@', digest);
    assert ref[..|image|] == image && ref[|image| + 1..] == digest;
  }

  /** Whether the importer says that it chose the tag `latest`. */
  predicate DefaultIsReported(ref: string) { SplitImageRef(ref).tag == "latest" && ':' !in ref }

  /** A registry's port hides the default: such a reference becomes `latest` in silence. */
  lemma DefaultIsReportedIff(ref: string)
    requires '@' !in ref && !Tagged(ref)
    ensures SplitImageRef(ref) == ImageRef(ref, "latest")
    ensures DefaultIsReported(ref) <==> ':' !in ref
    ensures ':' in ref ==> '/' in ref
  {
  }

  /** So it is for every untagged image of a registry that is named with its port. */
  lemma RegistryPortHidesDefault(host: string, port: string, repository: string)
    requires '@' !in host + port + repository && ':' !in port + repository && '/' !in repository
    ensures var ref := host + ":" + (port + "/" + repository);
      SplitImageRef(ref) == ImageRef(ref, "latest") && !DefaultIsReported(ref)
  {
    hide LastIndexOf, SplitImageRef, DefaultIsReported;
    var path := port + "/" + repository;
    var ref := host + ":" + path;
    LastIndexUnique(host, ':', path);
    LastIndexUnique(host + ":" + port, '/', repository);
    assert ref == host + ":" + port + "/" + repository;
    assert ref[|host|] == ':';
    DefaultIsReportedIff(ref);
  }
}
