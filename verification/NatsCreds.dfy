/**
 * The creds parser of the NATS bus. The two armor expressions are modelled exactly: `(?m)^-{3,}\s*TITLE\s*-{3,}\s*$`,
 * where `\s*` may run over line ends and the last one gives back what follows the last line end it passed.
 */
module NatsCreds {
  import opened Sequences

  const FORM_FEED: char := '\U{000C}'

  /** `\s` of the regular expressions. */
  predicate White(c: char) { c == ' ' || c == '\t' || c == '\r' || c == '\n' || c == FORM_FEED }

  /** The hand-written predicate, which leaves out the form feed. */
  predicate IsSpace(c: char) { c == ' ' || c == '\t' || c == '\r' || c == '\n' }

  function Dashes(s: string): (n: nat)
    ensures n <= |s| && (forall i | 0 <= i < n :: s[i] == '-') && (n < |s| ==> s[n] != '-')
  {
    if s == "" || s[0] != '-' then 0 else 1 + Dashes(s[1..])
  }

  function SkipWhites(s: string): (rest: string)
    ensures |rest| <= |s| && (rest != "" ==> !White(rest[0]))
  {
    if s == "" || !White(s[0]) then s else SkipWhites(s[1..])
  }

  /** What follows three or more dashes, all of them. */
  function SkipDashes(s: string): (rest: Option<string>)
    ensures rest.Some? ==> |rest.value| <= |s|
  {
    if Dashes(s) < 3 then None else Some(s[Dashes(s)..])
  }

  function SkipText(s: string, text: string): (rest: Option<string>)
    ensures rest.Some? ==> |rest.value| <= |s|
  {
    if text <= s then Some(s[|text|..]) else None
  }

  /** How much a greedy `\s*$` matches at the front of `s`. */
  function LineEnd(s: string): (r: Option<nat>)
    ensures r.Some? ==>
      r.value <= |s| && (forall i | 0 <= i < r.value :: White(s[i])) && (r.value < |s| ==> s[r.value] == '\n')
  {
    if s == "" then Some(0)
    else if !White(s[0]) then None
    else match LineEnd(s[1..])
         case Some(n) => Some(n + 1)
         case None => if s[0] == '\n' then Some(0) else None
  }

  /** The length of the match of an armor expression at the front of `s`. */
  function MatchMarker(s: string, title: string): (r: Option<nat>)
    ensures r.Some? ==> r.value <= |s|
  {
    match SkipDashes(s)
    case None => None
    case Some(s1) =>
      match SkipText(SkipWhites(s1), title)
      case None => None
      case Some(s3) =>
        match SkipDashes(SkipWhites(s3))
        case None => None
        case Some(s5) =>
          match LineEnd(s5)
          case None => None
          case Some(n) => Some(|s| - |s5| + n)
  }

  datatype Span = Span(start: nat, end: nat)

  function Shift(r: Option<Span>, offset: nat): Option<Span> {
    match r case None => None case Some(Span(a, b)) => Some(Span(a + offset, b + offset))
  }

  /** The leftmost match; only a line start can begin one. */
  function Find(s: string, title: string, lineStart: bool): (r: Option<Span>)
    ensures r.Some? ==> r.value.start <= r.value.end <= |s|
  {
    if lineStart && MatchMarker(s, title).Some? then Some(Span(0, MatchMarker(s, title).value))
    else if s == "" then None
    else Shift(Find(s[1..], title, s[0] == '\n'), 1)
  }

  // Lines

  /** `line` holds no line end. */
  predicate OneLine(line: string) { forall i | 0 <= i < |line| :: line[i] != '\n' }

  /** What the loop of `splitLines` collects; `current` is the line being read. */
  function Lines(s: string, current: string): seq<string> {
    if s == "" then (if current == "" then [] else [current])
    else if s[0] == '\n' then [current] + Lines(s[1..], "")
    else Lines(s[1..], current + [s[0]])
  }

  method SplitLines(s: string) returns (out: seq<string>)
    ensures out == Lines(s, "")
  {
    out := [];
    var start, i := 0, 0;
    assert s[0..] == s && s[0..0] == "";
    while i < |s|
      invariant 0 <= start <= i <= |s|
      invariant Lines(s, "") == out + Lines(s[i..], s[start..i])
    {
      assert s[i..][1..] == s[i + 1..] && s[start..i] + [s[i]] == s[start..i + 1];
      if s[i] == '\n' {
        out := out + [s[start..i]];
        start := i + 1;
        assert s[start..i + 1] == "";
      }
      i := i + 1;
    }
    assert s[start..i] == s[start..];
    if start < |s| { out := out + [s[start..]]; }
  }

  function TrimLeft(s: string): string { if s != "" && IsSpace(s[0]) then TrimLeft(s[1..]) else s }
  function TrimRight(s: string): string { if s != "" && IsSpace(s[|s| - 1]) then TrimRight(s[..|s| - 1]) else s }
  function Trim(s: string): string { TrimRight(TrimLeft(s)) }

  method TrimSpace(s: string) returns (trimmed: string)
    ensures trimmed == Trim(s)
  {
    var start, end := 0, |s|;
    assert s[0..] == s;
    while start < end && IsSpace(s[start])
      invariant 0 <= start <= end == |s| && TrimLeft(s) == TrimLeft(s[start..])
    {
      assert s[start..][1..] == s[start + 1..];
      start := start + 1;
    }
    assert TrimLeft(s) == s[start..] && s[start..end] == s[start..];
    while end > start && IsSpace(s[end - 1])
      invariant start <= end <= |s| && Trim(s) == TrimRight(s[start..end])
    {
      assert s[start..end][..end - start - 1] == s[start..end - 1];
      end := end - 1;
    }
    trimmed := s[start..end];
  }

  predicate AllAsterisks(s: string) { s != "" && forall i | 0 <= i < |s| :: s[i] == '*' }

  method IsAllAsterisks(s: string) returns (r: bool)
    ensures r == AllAsterisks(s)
  {
    if s == "" { return false; }
    var i := 0;
    while i < |s|
      invariant 0 <= i <= |s| && forall j | 0 <= j < i :: s[j] == '*'
    {
      if s[i] != '*' { return false; }
      i := i + 1;
    }
    r := true;
  }

  /** What a line of armor contributes. */
  function Kept(line: string): string { if AllAsterisks(Trim(line)) then "" else Trim(line) }

  function Content(lines: seq<string>): string { if lines == [] then "" else Kept(lines[0]) + Content(lines[1..]) }

  // Extraction

  datatype Error = MissingBegin(section: string) | MissingEnd(section: string) | EmptyContent(section: string)
  datatype Result<T> = Ok(value: T) | Err(error: Error)

  function Extract(body: string, section: string): Result<string> {
    match Find(body, "BEGIN " + section, true)
    case None => Err(MissingBegin(section))
    case Some(begin) =>
      var after := body[begin.end..];
      match Find(after, "END " + section, true)
      case None => Err(MissingEnd(section))
      case Some(end) =>
        var out := Content(Lines(after[..end.start], ""));
        if out == "" then Err(EmptyContent(section)) else Ok(out)
  }

  method ExtractArmored(body: string, section: string) returns (r: Result<string>)
    ensures r == Extract(body, section)
  {
    hide Find, Lines, Trim, AllAsterisks;
    var begin := Find(body, "BEGIN " + section, true);
    if begin.None? { return Err(MissingBegin(section)); }
    var after := body[begin.value.end..];
    var end := Find(after, "END " + section, true);
    if end.None? { return Err(MissingEnd(section)); }
    var lines := SplitLines(after[..end.value.start]);
    var out := JoinLines(lines);
    r := if out == "" then Err(EmptyContent(section)) else Ok(out);
  }

  /** The loop over the lines of a section. */
  method JoinLines(lines: seq<string>) returns (out: string)
    ensures out == Content(lines)
  {
    hide Trim, AllAsterisks;
    out := "";
    var i := 0;
    assert lines[0..] == lines;
    while i < |lines|
      invariant 0 <= i <= |lines| && Content(lines) == out + Content(lines[i..])
    {
      assert lines[i..][1..] == lines[i + 1..];
      var line := TrimSpace(lines[i]);
      var asterisks := IsAllAsterisks(line);
      ghost var more := Content(lines[i + 1..]);
      assert out + (Kept(lines[i]) + more) == out + Kept(lines[i]) + more;
      if line != "" && !asterisks { out := out + line; } else { assert out + "" == out; }
      i := i + 1;
    }
    assert lines[i..] == [] && out + "" == out;
  }

  const JWT := "NATS USER JWT"
  const SEED := "USER NKEY SEED"

  method SplitCredsBody(body: string) returns (r: Result<(string, string)>)
    ensures r == SplitCreds(body)
  {
    var jwt := ExtractArmored(body, JWT);
    if jwt.Err? { return Err(jwt.error); }
    var seed := ExtractArmored(body, SEED);
    if seed.Err? { return Err(seed.error); }
    r := Ok((jwt.value, seed.value));
  }

  function SplitCreds(body: string): Result<(string, string)> {
    match Extract(body, JWT)
    case Err(e) => Err(e)
    case Ok(jwt) =>
      match Extract(body, SEED)
      case Err(e) => Err(e)
      case Ok(seed) => Ok((jwt, seed))
  }

  // Printing

  /** One marker line: `left` dashes, the title between two gaps, `right` dashes, and trailing blanks. */
  datatype Fence = Fence(left: nat, gapBefore: string, gapAfter: string, right: nat, trail: string)

  function Repeat(c: char, n: nat): string { if n == 0 then "" else [c] + Repeat(c, n - 1) }

  /** The text of a marker line and of what follows it. */
  function FenceText(f: Fence, title: string, rest: string): string {
    Repeat('-', f.left) + (f.gapBefore + (title + (f.gapAfter + (Repeat('-', f.right) + (f.trail + ("\n" + rest))))))
  }

  predicate AllWhite(s: string) { forall i | 0 <= i < |s| :: White(s[i]) }

  predicate FenceOk(f: Fence) {
    f.left >= 3 && f.right >= 3 && AllWhite(f.gapBefore) && AllWhite(f.gapAfter) && AllWhite(f.trail)
    && OneLine(f.gapBefore) && OneLine(f.gapAfter) && OneLine(f.trail)
  }

  /** A line between two markers: a piece of the secret between blanks, or padding that is blank or all asterisks. */
  datatype Entry = Chunk(before: string, text: string, after: string) | Padding(text: string)

  predicate Blank(s: string) { forall i | 0 <= i < |s| :: IsSpace(s[i]) }

  predicate EntryOk(e: Entry) {
    match e
    case Chunk(before, text, after) =>
      Blank(before) && OneLine(before) && Blank(after) && OneLine(after)
      && text != "" && forall i | 0 <= i < |text| :: !White(text[i])
    case Padding(text) => OneLine(text) && (Blank(text) || AllAsterisks(text))
  }

  function EntryLine(e: Entry): string {
    match e
    case Chunk(before, text, after) => before + text + after
    case Padding(text) => text
  }

  function EntryLines(entries: seq<Entry>): seq<string> {
    if entries == [] then [] else [EntryLine(entries[0])] + EntryLines(entries[1..])
  }

  /** The secret that the entries carry. */
  function Secret(entries: seq<Entry>): string {
    if entries == [] then ""
    else (match entries[0] case Chunk(_, text, _) => text case Padding(_) => "") + Secret(entries[1..])
  }

  datatype Armor = Armor(begin: Fence, entries: seq<Entry>, end: Fence)

  function Unlines(lines: seq<string>, rest: string): string {
    if lines == [] then rest else lines[0] + ("\n" + Unlines(lines[1..], rest))
  }

  function ArmorText(a: Armor, section: string, rest: string): string {
    FenceText(a.begin, "BEGIN " + section, Unlines(EntryLines(a.entries), FenceText(a.end, "END " + section, rest)))
  }

  predicate ArmorOk(a: Armor) {
    FenceOk(a.begin) && FenceOk(a.end) && forall i | 0 <= i < |a.entries| :: EntryOk(a.entries[i])
  }

  /** Lines outside the armor only have to be no marker: they begin with fewer than three dashes. */
  predicate FillerOk(lines: seq<string>) { forall i | 0 <= i < |lines| :: OneLine(lines[i]) && Dashes(lines[i]) < 3 }

  datatype Creds = Creds(preamble: seq<string>, jwt: Armor, middle: seq<string>, seed: Armor, postamble: string)

  predicate CredsOk(c: Creds) { FillerOk(c.preamble) && ArmorOk(c.jwt) && FillerOk(c.middle) && ArmorOk(c.seed) }

  function Print(c: Creds): string {
    Unlines(c.preamble, ArmorText(c.jwt, JWT, Unlines(c.middle, ArmorText(c.seed, SEED, c.postamble))))
  }

  // Reading back what was printed

  lemma {:induction false} DashesAppend(s: string, t: string)
    requires Dashes(s) < |s| || t == "" || t[0] != '-'
    ensures Dashes(s + t) == Dashes(s)
  {
    if s == "" {
      assert s + t == t;
    } else if s[0] == '-' {
      assert (s + t)[1..] == s[1..] + t;
      DashesAppend(s[1..], t);
    }
  }

  lemma {:induction false} RepeatedDashes(n: nat, t: string)
    requires t == "" || t[0] != '-'
    ensures |Repeat('-', n)| == n && Dashes(Repeat('-', n) + t) == n && (Repeat('-', n) + t)[n..] == t
  {
    if n == 0 {
      assert Repeat('-', n) + t == t;
    } else {
      RepeatedDashes(n - 1, t);
      assert (Repeat('-', n) + t)[1..] == Repeat('-', n - 1) + t;
    }
  }

  lemma {:induction false} WhitesThrough(gap: string, t: string)
    requires AllWhite(gap)
    ensures SkipWhites(gap + t) == SkipWhites(t)
  {
    if gap == "" {
      assert gap + t == t;
    } else {
      assert (gap + t)[1..] == gap[1..] + t;
      WhitesThrough(gap[1..], t);
    }
  }

  lemma {:induction false} WhitesWithin(s: string, t: string)
    requires !AllWhite(s)
    ensures SkipWhites(s) != "" && SkipWhites(s + t) == SkipWhites(s) + t
  {
    if White(s[0]) {
      assert (s + t)[1..] == s[1..] + t;
      assert !AllWhite(s[1..]) by {
        var i :| 0 <= i < |s| && !White(s[i]);
        assert !White(s[1..][i - 1]);
      }
      WhitesWithin(s[1..], t);
    }
  }

  /** A line end after blanks always lets `\s*$` match. */
  lemma {:induction false} LineEndExists(trail: string, rest: string)
    requires AllWhite(trail)
    ensures LineEnd(trail + ("\n" + rest)).Some?
  {
    if trail == "" {
      assert trail + ("\n" + rest) == "\n" + rest;
    } else {
      assert (trail + ("\n" + rest))[1..] == trail[1..] + ("\n" + rest);
      LineEndExists(trail[1..], rest);
    }
  }

  /** Titles start with a letter, stay on one line and hold a blank with a letter after it. */
  predicate TitleOk(title: string) {
    |title| > 6 && !White(title[0]) && title[0] != '-' && title[0] != '*' && OneLine(title)
    && exists i, j :: 0 <= i < j < |title| && White(title[i]) && !White(title[j])
  }

  lemma DashesThen(n: nat, t: string)
    requires n >= 3 && t != "" && t[0] != '-'
    ensures SkipDashes(Repeat('-', n) + t) == Some(t) && (Repeat('-', n) + t)[0] == '-'
  {
    RepeatedDashes(n, t);
  }

  lemma TextThen(text: string, t: string)
    ensures SkipText(text + t, text) == Some(t)
  {
    assert (text + t)[|text|..] == t;
  }

  lemma GapThen(gap: string, t: string)
    requires AllWhite(gap) && t != "" && !White(t[0])
    ensures SkipWhites(gap + t) == t
  {
    WhitesThrough(gap, t);
  }

  /** A marker line is matched up to some line end, with nothing but blanks passed after the line itself. */
  lemma FenceMatches(f: Fence, title: string, rest: string)
    requires FenceOk(f) && TitleOk(title)
    ensures LineEnd(f.trail + ("\n" + rest)).Some?
    ensures MatchMarker(FenceText(f, title, rest), title)
         == Some(|FenceText(f, title, rest)| - |f.trail + ("\n" + rest)| + LineEnd(f.trail + ("\n" + rest)).value)
  {
    var s5 := f.trail + ("\n" + rest);
    var s4 := Repeat('-', f.right) + s5;
    var s3 := f.gapAfter + s4;
    var s2 := title + s3;
    var s1 := f.gapBefore + s2;
    hide Dashes, SkipDashes, SkipText, SkipWhites, LineEnd, OneLine, Repeat, TitleOk, MatchMarker, AllWhite;
    LineEndExists(f.trail, rest);
    TitleStarts(title);
    NoDashFirst(f.gapBefore, s2);
    NoDashFirst(f.trail, "\n" + rest);
    DashesThen(f.left, s1);
    DashesThen(f.right, s5);
    GapThen(f.gapBefore, s2);
    TextThen(title, s3);
    GapThen(f.gapAfter, s4);
    MatchChain(FenceText(f, title, rest), title, s1, s2, s3, s4, s5);
  }

  lemma TitleStarts(title: string)
    requires TitleOk(title)
    ensures title != "" && title[0] != '-' && !White(title[0])
  {
  }

  lemma NoDashFirst(gap: string, t: string)
    requires AllWhite(gap) && t != "" && t[0] != '-'
    ensures gap + t != "" && (gap + t)[0] != '-'
  {
  }

  /** The parts of a match, one after another. */
  lemma MatchChain(s: string, title: string, s1: string, s2: string, s3: string, s4: string, s5: string)
    requires SkipDashes(s) == Some(s1) && SkipWhites(s1) == s2 && SkipText(s2, title) == Some(s3)
    requires SkipWhites(s3) == s4 && SkipDashes(s4) == Some(s5) && LineEnd(s5).Some?
    ensures MatchMarker(s, title) == Some(|s| - |s5| + LineEnd(s5).value)
  {
    hide SkipDashes, SkipWhites, SkipText, LineEnd;
  }

  lemma NoMatchSame(s: string, title: string)
    requires MatchMarker(s, title).None?
    ensures Find(s, title, true) == Find(s, title, false)
  {
  }

  lemma {:induction false} SkipWithinLine(part: string, rest: string, title: string)
    requires OneLine(part)
    ensures Find(part + rest, title, false) == Shift(Find(rest, title, false), |part|)
  {
    hide Find, OneLine, Shift;
    if part == "" {
      assert part + rest == rest;
      ShiftTwice(Find(rest, title, false), 0);
    } else {
      assert (part + rest)[1..] == part[1..] + rest && (part + rest)[0] == part[0];
      OneLineTail(part);
      SkipWithinLine(part[1..], rest, title);
      FindNext(part + rest, title);
      ShiftTwice(Find(rest, title, false), |part| - 1);
    }
  }

  lemma ShiftTwice(r: Option<Span>, n: nat)
    ensures Shift(Shift(r, n), 1) == Shift(r, n + 1) && Shift(r, 0) == r
  {
  }

  lemma OneLineTail(line: string)
    requires OneLine(line) && line != ""
    ensures line[0] != '\n' && OneLine(line[1..])
  {
  }

  lemma FindNext(s: string, title: string)
    requires s != "" && s[0] != '\n'
    ensures Find(s, title, false) == Shift(Find(s[1..], title, false), 1)
  {
    hide MatchMarker;
  }

  /** A line that begins no marker is passed. */
  lemma {:induction false} SkipLine(line: string, rest: string, title: string)
    requires OneLine(line) && MatchMarker(line + ("\n" + rest), title).None?
    ensures Find(line + ("\n" + rest), title, true) == Shift(Find(rest, title, true), |line| + 1)
  {
    hide MatchMarker, Find, OneLine;
    NoMatchSame(line + ("\n" + rest), title);
    SkipWithinLine(line, "\n" + rest, title);
    NextLine(rest, title);
  }

  lemma {:induction false} UnlinesEndsWith(lines: seq<string>, rest: string)
    ensures |Unlines(lines, rest)| >= |rest| && Unlines(lines, rest)[|Unlines(lines, rest)| - |rest|..] == rest
  {
    if lines != [] { UnlinesEndsWith(lines[1..], rest); }
  }

  /** How much of a text comes before its ending `rest`. */
  function Before(s: string, rest: string): nat { if |s| >= |rest| then |s| - |rest| else 0 }

  lemma FewDashesNoMarker(line: string, rest: string, title: string)
    requires Dashes(line) < 3
    ensures MatchMarker(line + ("\n" + rest), title).None?
  {
    DashesAppend(line, "\n" + rest);
  }

  lemma {:induction false} SkipFiller(lines: seq<string>, rest: string, title: string)
    requires FillerOk(lines)
    ensures Find(Unlines(lines, rest), title, true)
      == Shift(Find(rest, title, true), Before(Unlines(lines, rest), rest))
  {
    hide Find, MatchMarker, Dashes, OneLine;
    UnlinesEndsWith(lines, rest);
    if lines != [] {
      var line, more := lines[0], Unlines(lines[1..], rest);
      SkipFiller(lines[1..], rest, title);
      UnlinesEndsWith(lines[1..], rest);
      FewDashesNoMarker(line, more, title);
      SkipLine(line, more, title);
    }
  }

  /** A piece without blanks cannot begin a title, whatever follows on its line and after it. */
  lemma ChunkIsNoTitle(text: string, after: string, rest: string, title: string)
    requires TitleOk(title) && text != "" && (forall i | 0 <= i < |text| :: !White(text[i])) && AllWhite(after)
    ensures !(title <= text + (after + ("\n" + rest)))
  {
    var s, n := text + (after + ("\n" + rest)), |text| + |after|;
    var i, j :| 0 <= i < j < |title| && White(title[i]) && !White(title[j]);
    var differs := if i < |text| then i else if |title| <= n then j else n;
    assert s[n] == '\n';
    assert title[differs] != s[differs];
  }

  lemma {:induction false} EntriesBeginNoTitle(entries: seq<Entry>, tail: string, title: string)
    requires TitleOk(title) && tail != "" && tail[0] == '-' && forall i | 0 <= i < |entries| :: EntryOk(entries[i])
    ensures !(title <= SkipWhites(Unlines(EntryLines(entries), tail)))
  {
    if entries != [] {
      var e, more := entries[0], Unlines(EntryLines(entries[1..]), tail);
      assert EntryLines(entries)[1..] == EntryLines(entries[1..]);
      EntriesBeginNoTitle(entries[1..], tail, title);
      match e
      case Chunk(before, text, after) =>
        assert EntryLine(e) + ("\n" + more) == before + (text + (after + ("\n" + more)));
        GapThen(before, text + (after + ("\n" + more)));
        ChunkIsNoTitle(text, after, more, title);
      case Padding(text) =>
        if Blank(text) {
          BlankLineThrough(text, more);
        } else {
          GapThen("", text + ("\n" + more));
          assert "" + (text + ("\n" + more)) == text + ("\n" + more);
        }
    }
  }

  /** Blanks to the end of a line are passed together with the line end. */
  lemma BlankLineThrough(blank: string, rest: string)
    requires AllWhite(blank)
    ensures SkipWhites(blank + ("\n" + rest)) == SkipWhites(rest)
  {
    WhitesThrough(blank, "\n" + rest);
    assert ("\n" + rest)[1..] == rest;
  }

  lemma DashesThenMore(text: string, more: string)
    requires more != "" && more[0] != '-'
    ensures SkipDashes(text + more) == if Dashes(text) < 3 then None else Some(text[Dashes(text)..] + more)
  {
    DashesAppend(text, more);
    assert (text + more)[Dashes(text)..] == text[Dashes(text)..] + more;
  }

  lemma MarkerNeedsTitle(s: string, title: string)
    requires SkipDashes(s).Some? ==> !(title <= SkipWhites(SkipDashes(s).value))
    ensures MatchMarker(s, title).None?
  {
  }

  lemma ChunkIsNoMarker(text: string, after: string, rest: string, title: string)
    requires TitleOk(title) && text != "" && (forall i | 0 <= i < |text| :: !White(text[i])) && AllWhite(after)
    requires !(title <= SkipWhites(rest))
    ensures MatchMarker(text + (after + ("\n" + rest)), title).None?
  {
    var d, more := Dashes(text), after + ("\n" + rest);
    assert more[0] != '-';
    hide MatchMarker, SkipDashes, SkipWhites;
    DashesThenMore(text, more);
    if d == |text| {
      assert text[d..] + more == more;
      BlankLineThrough(after, rest);
    } else {
      GapThen("", text[d..] + more);
      assert "" + (text[d..] + more) == text[d..] + more;
      ChunkIsNoTitle(text[d..], after, rest, title);
    }
    MarkerNeedsTitle(text + more, title);
  }

  lemma EntryIsNoMarker(e: Entry, rest: string, title: string)
    requires TitleOk(title) && EntryOk(e) && !(title <= SkipWhites(rest))
    ensures MatchMarker(EntryLine(e) + ("\n" + rest), title).None?
  {
    hide MatchMarker, TitleOk, SkipWhites;
    match e
    case Padding(text) => FewDashesNoMarker(text, rest, title);
    case Chunk(before, text, after) =>
      if before != "" {
        assert EntryLine(e)[0] == before[0];
        FewDashesNoMarker(EntryLine(e), rest, title);
      } else {
        assert before + text == text;
        TextAssociates(text, after, "\n" + rest);
        ChunkIsNoMarker(text, after, rest, title);
      }
  }

  lemma TextAssociates(a: string, b: string, c: string)
    ensures (a + b) + c == a + (b + c)
  {
  }

  lemma EntryLineIsOneLine(e: Entry)
    requires EntryOk(e)
    ensures OneLine(EntryLine(e))
  {
  }

  lemma {:induction false} SkipEntries(entries: seq<Entry>, tail: string, title: string)
    requires TitleOk(title) && tail != "" && tail[0] == '-' && forall i | 0 <= i < |entries| :: EntryOk(entries[i])
    ensures var s := Unlines(EntryLines(entries), tail);
      |s| >= |tail| && Find(s, title, true) == Shift(Find(tail, title, true), |s| - |tail|)
  {
    hide Find, MatchMarker, OneLine, TitleOk, EntryOk, SkipWhites;
    if entries != [] {
      var e, more := entries[0], Unlines(EntryLines(entries[1..]), tail);
      assert EntryLines(entries)[1..] == EntryLines(entries[1..]);
      SkipEntries(entries[1..], tail, title);
      EntriesBeginNoTitle(entries[1..], tail, title);
      EntryIsNoMarker(e, more, title);
      EntryLineIsOneLine(e);
      SkipLine(EntryLine(e), more, title);
    }
  }

  lemma OtherFenceIsNoMarker(f: Fence, other: string, rest: string, title: string, k: nat)
    requires FenceOk(f) && TitleOk(other) && k < |title| && k < |other| && title[k] != other[k]
    ensures MatchMarker(FenceText(f, other, rest), title).None?
  {
    var s2 := other + (f.gapAfter + (Repeat('-', f.right) + (f.trail + ("\n" + rest))));
    var s1 := f.gapBefore + s2;
    assert s1[0] != '-';
    DashesThen(f.left, s1);
    hide Dashes, SkipDashes, SkipWhites, Repeat, LineEnd, OneLine;
    GapThen(f.gapBefore, s2);
    assert s2[k] == other[k];
  }

  lemma {:induction false} SkipThree(a: string, b: string, c: string, rest: string, title: string)
    requires OneLine(a) && OneLine(b) && OneLine(c)
    ensures Find(a + (b + (c + rest)), title, false) == Shift(Find(rest, title, false), |a| + |b| + |c|)
  {
    hide Find, OneLine;
    SkipWithinLine(a, b + (c + rest), title);
    SkipWithinLine(b, c + rest, title);
    SkipWithinLine(c, rest, title);
  }

  lemma SkipWholeFence(f: Fence, other: string, rest: string, title: string)
    requires FenceOk(f) && OneLine(other)
    ensures Find(FenceText(f, other, rest), title, false)
      == Shift(Find(rest, title, true), Before(FenceText(f, other, rest), rest))
  {
    RepeatIsOneLine(f.left);
    RepeatIsOneLine(f.right);
    hide Find, Repeat, OneLine, AllWhite;
    var s3 := f.gapAfter + (Repeat('-', f.right) + (f.trail + ("\n" + rest)));
    SkipThree(Repeat('-', f.left), f.gapBefore, other, s3, title);
    SkipThree(f.gapAfter, Repeat('-', f.right), f.trail, "\n" + rest, title);
    NextLine(rest, title);
  }

  /** A marker line of another title is passed. */
  lemma SkipFence(f: Fence, other: string, rest: string, title: string, k: nat)
    requires FenceOk(f) && TitleOk(other) && k < |title| && k < |other| && title[k] != other[k]
    ensures Find(FenceText(f, other, rest), title, true)
      == Shift(Find(rest, title, true), Before(FenceText(f, other, rest), rest))
  {
    OtherFenceIsNoMarker(f, other, rest, title, k);
    hide MatchMarker, FenceText, FenceOk, Find;
    NoMatchSame(FenceText(f, other, rest), title);
    SkipWholeFence(f, other, rest, title);
  }

  lemma NextLine(rest: string, title: string)
    ensures Find("\n" + rest, title, false) == Shift(Find(rest, title, true), 1)
  {
    assert ("\n" + rest)[1..] == rest;
  }

  lemma {:induction false} RepeatIsOneLine(n: nat)
    ensures OneLine(Repeat('-', n))
  {
    if n > 0 { RepeatIsOneLine(n - 1); }
  }

  // What lies between the markers

  lemma {:induction false} LineEndThrough(blank: string, rest: string)
    requires AllWhite(blank) && LineEnd(rest).Some?
    ensures LineEnd(blank + rest) == Some(|blank| + LineEnd(rest).value)
  {
    if blank == "" {
      assert blank + rest == rest;
    } else {
      assert (blank + rest)[1..] == blank[1..] + rest;
      LineEndThrough(blank[1..], rest);
    }
  }

  lemma {:induction false} LineEndBlocked(line: string, rest: string)
    requires OneLine(line) && !AllWhite(line)
    ensures LineEnd(line + rest).None?
  {
    if White(line[0]) {
      assert (line + rest)[1..] == line[1..] + rest;
      assert !AllWhite(line[1..]) by {
        var i :| 0 <= i < |line| && !White(line[i]);
        assert !White(line[1..][i - 1]);
      }
      LineEndBlocked(line[1..], rest);
    }
  }

  lemma ChunkShows(e: Entry)
    requires EntryOk(e)
    ensures e.Chunk? ==> !AllWhite(EntryLine(e))
  {
    if e.Chunk? { assert EntryLine(e)[|e.before|] == e.text[0]; }
  }

  /** The match of a marker may run on over blank entries, up to the end of the last of them. */
  lemma {:induction false} LineEndCuts(trail: string, entries: seq<Entry>, tail: string) returns (k: nat)
    requires AllWhite(trail) && OneLine(trail) && tail != "" && tail[0] == '-'
    requires forall i | 0 <= i < |entries| :: EntryOk(entries[i])
    ensures var s := trail + ("\n" + Unlines(EntryLines(entries), tail));
      && k <= |entries| && LineEnd(s).Some?
      && s[LineEnd(s).value..] == "\n" + Unlines(EntryLines(entries[k..]), tail)
      && forall i | 0 <= i < k :: entries[i].Padding?
    decreases |entries|
  {
    var body := Unlines(EntryLines(entries), tail);
    if entries != [] && AllWhite(EntryLine(entries[0])) {
      ChunkShows(entries[0]);
      EntryLineIsOneLine(entries[0]);
      assert EntryLines(entries)[1..] == EntryLines(entries[1..]);
      k := LineEndCuts(EntryLine(entries[0]), entries[1..], tail);
      CutFurther(trail, body);
      assert entries[1..][k..] == entries[k + 1..];
      k := k + 1;
    } else {
      assert LineEnd(body).None? by {
        if entries != [] {
          EntryLineIsOneLine(entries[0]);
          LineEndBlocked(EntryLine(entries[0]), "\n" + Unlines(EntryLines(entries)[1..], tail));
        }
      }
      CutHere(trail, body);
      assert entries[0..] == entries;
      k := 0;
    }
  }

  lemma CutFurther(trail: string, body: string)
    requires AllWhite(trail) && LineEnd(body).Some?
    ensures var s := trail + ("\n" + body); LineEnd(s).Some? && s[LineEnd(s).value..] == body[LineEnd(body).value..]
  {
    assert ("\n" + body)[1..] == body;
    LineEndThrough(trail, "\n" + body);
  }

  lemma CutHere(trail: string, body: string)
    requires AllWhite(trail) && LineEnd(body).None?
    ensures var s := trail + ("\n" + body); LineEnd(s).Some? && s[LineEnd(s).value..] == "\n" + body
  {
    assert ("\n" + body)[1..] == body;
    LineEndThrough(trail, "\n" + body);
  }

  lemma {:induction false} LinesOf(line: string, current: string, rest: string)
    requires OneLine(line)
    ensures Lines(line + ("\n" + rest), current) == [current + line] + Lines(rest, "")
  {
    var s := line + ("\n" + rest);
    if line == "" {
      assert s == "\n" + rest && s[1..] == rest && current + line == current;
    } else {
      assert s[1..] == line[1..] + ("\n" + rest) && current + line == current + [line[0]] + line[1..];
      LinesOf(line[1..], current + [line[0]], rest);
    }
  }

  lemma {:induction false} LinesOfEntries(entries: seq<Entry>)
    requires forall i | 0 <= i < |entries| :: EntryOk(entries[i])
    ensures Lines(Unlines(EntryLines(entries), ""), "") == EntryLines(entries)
  {
    if entries != [] {
      EntryLineIsOneLine(entries[0]);
      assert EntryLines(entries)[1..] == EntryLines(entries[1..]);
      LinesOf(EntryLine(entries[0]), "", Unlines(EntryLines(entries[1..]), ""));
      assert "" + EntryLine(entries[0]) == EntryLine(entries[0]);
      LinesOfEntries(entries[1..]);
    }
  }

  lemma {:induction false} UnlinesSplits(lines: seq<string>, tail: string)
    ensures Unlines(lines, tail) == Unlines(lines, "") + tail
  {
    if lines == [] {
      assert "" + tail == tail;
    } else {
      var more := Unlines(lines[1..], "");
      UnlinesSplits(lines[1..], tail);
      TextAssociates("\n", more, tail);
      TextAssociates(lines[0], "\n" + more, tail);
    }
  }

  lemma {:induction false} TrimLeftThrough(blank: string, s: string)
    requires Blank(blank)
    ensures TrimLeft(blank + s) == TrimLeft(s)
  {
    if blank == "" {
      assert blank + s == s;
    } else {
      assert (blank + s)[1..] == blank[1..] + s;
      TrimLeftThrough(blank[1..], s);
    }
  }

  lemma {:induction false} TrimRightThrough(s: string, blank: string)
    requires Blank(blank)
    ensures TrimRight(s + blank) == TrimRight(s)
  {
    if blank == "" {
      assert s + blank == s;
    } else {
      assert (s + blank)[..|s + blank| - 1] == s + blank[..|blank| - 1];
      TrimRightThrough(s, blank[..|blank| - 1]);
    }
  }

  /** A line keeps its piece of the secret, unless that piece is all asterisks. */
  lemma EntryKept(e: Entry)
    requires EntryOk(e)
    ensures Kept(EntryLine(e)) == if e.Chunk? && !AllAsterisks(e.text) then e.text else ""
  {
    match e
    case Padding(text) =>
      if Blank(text) {
        TrimLeftThrough(text, "");
        assert text + "" == text;
      }
    case Chunk(before, text, after) =>
      TextAssociates(before, text, after);
      TrimLeftThrough(before, text + after);
      TrimRightThrough(text, after);
  }

  /** The secret without the pieces that look like padding. */
  function Visible(entries: seq<Entry>): string {
    if entries == [] then ""
    else (if entries[0].Chunk? && !AllAsterisks(entries[0].text) then entries[0].text else "") + Visible(entries[1..])
  }

  lemma {:induction false} ContentIsVisible(entries: seq<Entry>)
    requires forall i | 0 <= i < |entries| :: EntryOk(entries[i])
    ensures Content(EntryLines(entries)) == Visible(entries)
  {
    if entries != [] {
      EntryKept(entries[0]);
      assert EntryLines(entries)[1..] == EntryLines(entries[1..]);
      ContentIsVisible(entries[1..]);
    }
  }

  lemma {:induction false} BlankPrefixInvisible(entries: seq<Entry>, k: nat)
    requires k <= |entries| && forall i | 0 <= i < k :: entries[i].Padding?
    ensures Visible(entries[k..]) == Visible(entries)
  {
    if k > 0 {
      BlankPrefixInvisible(entries[1..], k - 1);
      assert entries[1..][k - 1..] == entries[k..];
      assert Visible(entries) == "" + Visible(entries[1..]);
    } else {
      assert entries[0..] == entries;
    }
  }

  lemma {:induction false} VisibleIsSecretIff(entries: seq<Entry>)
    requires forall i | 0 <= i < |entries| :: EntryOk(entries[i])
    ensures |Visible(entries)| <= |Secret(entries)|
    ensures Visible(entries) == Secret(entries) <==>
      forall i | 0 <= i < |entries| && entries[i].Chunk? :: !AllAsterisks(entries[i].text)
  {
    if entries != [] {
      var rest := entries[1..];
      VisibleIsSecretIff(rest);
      assert forall i | 0 < i < |entries| :: entries[i] == rest[i - 1];
      assert forall i | 0 <= i < |rest| :: rest[i] == entries[i + 1];
      match entries[0]
      case Padding(_) => assert "" + Visible(rest) == Visible(rest) && "" + Secret(rest) == Secret(rest);
      case Chunk(_, text, _) =>
        assert (text + Visible(rest))[|text|..] == Visible(rest) && (text + Secret(rest))[|text|..] == Secret(rest);
    }
  }

  // The round trip

  lemma TitlesAreOk()
    ensures TitleOk("BEGIN " + JWT) && TitleOk("END " + JWT) && TitleOk("BEGIN " + SEED) && TitleOk("END " + SEED)
  {
    hide TitleOk;
    JwtTitlesAreOk();
    SeedTitlesAreOk();
  }

  lemma JwtTitlesAreOk()
    ensures TitleOk("BEGIN " + JWT) && TitleOk("END " + JWT)
  {
    hide TitleOk;
    TitleFrom("BEGIN " + JWT, 5);
    TitleFrom("END " + JWT, 3);
  }

  lemma SeedTitlesAreOk()
    ensures TitleOk("BEGIN " + SEED) && TitleOk("END " + SEED)
  {
    hide TitleOk;
    TitleFrom("BEGIN " + SEED, 5);
    TitleFrom("END " + SEED, 3);
  }

  lemma TitleFrom(title: string, blank: nat)
    requires |title| > 6 && blank < 6 && title[blank] == ' ' && !White(title[blank + 1])
    requires 'A' <= title[0] <= 'Z' && OneLine(title)
    ensures TitleOk(title)
  {
    assert White(title[blank]);
  }

  /** The outcome for one armored section. */
  function Outcome(a: Armor, section: string): Result<string> {
    if Visible(a.entries) == "" then Err(EmptyContent(section)) else Ok(Visible(a.entries))
  }

  lemma FenceBegins(f: Fence, title: string, rest: string)
    requires FenceOk(f)
    ensures FenceText(f, title, rest) != "" && FenceText(f, title, rest)[0] == '-'
  {
    assert Repeat('-', f.left)[0] == '-';
  }

  /** Past the text `pre` in front of it, the parser reads exactly what the armor carries. */
  lemma ExtractFinds(body: string, at: nat, a: Armor, section: string, rest: string)
    requires ArmorOk(a) && TitleOk("BEGIN " + section) && TitleOk("END " + section)
    requires at <= |body| && body[at..] == ArmorText(a, section, rest)
    requires Find(body, "BEGIN " + section, true) == Shift(Find(body[at..], "BEGIN " + section, true), at)
    ensures Extract(body, section) == Outcome(a, section)
  {
    hide Find, MatchMarker, FenceText, LineEnd, Lines, TitleOk, FenceOk, EntryOk, Unlines, Content, Visible;
    var title := "BEGIN " + section;
    var tail := FenceText(a.end, "END " + section, rest);
    var inner := Unlines(EntryLines(a.entries), tail);
    FenceBegins(a.end, "END " + section, rest);
    var k := BlanksAfterMarker(a, tail);
    var text := body[at..];
    FenceCuts(a.begin, title, inner);
    FoundHere(text, title);
    SliceOfSlice(body, at, MatchMarker(text, title).value);
    AfterMarker(a.entries[k..], a.end, section, rest);
    BlankPrefixInvisible(a.entries, k);
  }

  lemma SliceOfSlice(s: string, i: nat, j: nat)
    requires i + j <= |s|
    ensures s[i..][j..] == s[i + j..]
  {
  }

  /** What is left after an opening marker is what its line end leaves. */
  lemma FenceCuts(f: Fence, title: string, rest: string)
    requires FenceOk(f) && TitleOk(title)
    ensures var s, s5 := FenceText(f, title, rest), f.trail + ("\n" + rest);
      && LineEnd(s5).Some? && MatchMarker(s, title).Some?
      && MatchMarker(s, title).value <= |s| && s[MatchMarker(s, title).value..] == s5[LineEnd(s5).value..]
  {
    hide MatchMarker, FenceText, LineEnd, TitleOk, FenceOk;
    FenceMatches(f, title, rest);
    FenceEndsWith(f, title, rest);
  }

  lemma FoundHere(s: string, title: string)
    requires MatchMarker(s, title).Some?
    ensures Find(s, title, true) == Some(Span(0, MatchMarker(s, title).value))
  {
  }

  lemma BlanksAfterMarker(a: Armor, tail: string) returns (k: nat)
    requires ArmorOk(a) && tail != "" && tail[0] == '-'
    ensures var s5 := a.begin.trail + ("\n" + Unlines(EntryLines(a.entries), tail));
      && k <= |a.entries| && LineEnd(s5).Some?
        && s5[LineEnd(s5).value..] == "\n" + Unlines(EntryLines(a.entries[k..]), tail)
    ensures forall i | 0 <= i < k :: a.entries[i].Padding?
    ensures forall i | 0 <= i < |a.entries[k..]| :: EntryOk(a.entries[k..][i])
  {
    k := LineEndCuts(a.begin.trail, a.entries, tail);
  }

  lemma FenceEndsWith(f: Fence, title: string, rest: string)
    ensures var s, s5 := FenceText(f, title, rest), f.trail + ("\n" + rest);
      |s| >= |s5| && forall n | 0 <= n <= |s5| :: s[|s| - |s5| + n..] == s5[n..]
  {
    var s, s5 := FenceText(f, title, rest), f.trail + ("\n" + rest);
    assert s[|s| - |s5|..] == s5;
  }

  /** From the line end where the opening match stopped to the closing marker. */
  lemma AfterMarker(entries: seq<Entry>, f: Fence, section: string, rest: string)
    requires FenceOk(f) && TitleOk("END " + section) && forall i | 0 <= i < |entries| :: EntryOk(entries[i])
    ensures var after := "\n" + Unlines(EntryLines(entries), FenceText(f, "END " + section, rest));
      var end := Find(after, "END " + section, true);
      end.Some? && Content(Lines(after[..end.value.start], "")) == Visible(entries)
  {
    hide Find, MatchMarker, FenceText, FenceOk, TitleOk, EntryOk, Unlines, Lines, Content, Visible;
    var title := "END " + section;
    var tail := FenceText(f, title, rest);
    var lines := EntryLines(entries);
    ClosingIsFound(f, section, rest);
    PassEntries(entries, tail, title);
    PassLineEnd(Unlines(lines, tail), title);
    UnlinesSplits(lines, tail);
    var after := "\n" + Unlines(lines, tail);
    assert after[..|after| - |tail|] == "\n" + Unlines(lines, "");
    LinesBetween(entries);
  }

  lemma ClosingIsFound(f: Fence, section: string, rest: string)
    requires FenceOk(f) && TitleOk("END " + section)
    ensures var tail := FenceText(f, "END " + section, rest);
      tail != "" && tail[0] == '-' && Find(tail, "END " + section, true).Some?
        && Find(tail, "END " + section, true).value.start == 0
  {
    hide MatchMarker, FenceText, FenceOk, TitleOk;
    FenceBegins(f, "END " + section, rest);
    FenceMatches(f, "END " + section, rest);
  }

  lemma PassLineEnd(rest: string, title: string)
    ensures Find("\n" + rest, title, true) == Shift(Find(rest, title, true), 1)
  {
    hide Find, MatchMarker;
    assert "" + ("\n" + rest) == "\n" + rest;
    FewDashesNoMarker("", rest, title);
    SkipLine("", rest, title);
  }

  lemma LinesBetween(entries: seq<Entry>)
    requires forall i | 0 <= i < |entries| :: EntryOk(entries[i])
    ensures Content(Lines("\n" + Unlines(EntryLines(entries), ""), "")) == Visible(entries)
  {
    hide Content, EntryOk, Unlines, Visible;
    var lines := EntryLines(entries);
    LinesOf("", "", Unlines(lines, ""));
    LinesOfEntries(entries);
    ContentIsVisible(entries);
    BlankLineContent(lines);
  }

  lemma BlankLineContent(lines: seq<string>)
    ensures Content([""] + lines) == Content(lines)
  {
    assert ([""] + lines)[1..] == lines;
  }

  lemma PrintedJwt(c: Creds)
    requires CredsOk(c)
    ensures Extract(Print(c), JWT) == Outcome(c.jwt, JWT)
  {
    hide Find, MatchMarker, Extract, ArmorText, TitleOk, FillerOk, ArmorOk;
    TitlesAreOk();
    var rest := Unlines(c.middle, ArmorText(c.seed, SEED, c.postamble));
    var text := ArmorText(c.jwt, JWT, rest);
    PassFiller(c.preamble, text, "BEGIN " + JWT);
    FoundPast(Print(c), c.jwt, JWT, rest);
  }

  /** The seed's marker is found past the whole first section. */
  lemma PrintedSeed(c: Creds)
    requires CredsOk(c)
    ensures Extract(Print(c), SEED) == Outcome(c.seed, SEED)
  {
    hide Find, MatchMarker, Extract, ArmorText, TitleOk, FillerOk, ArmorOk;
    TitlesAreOk();
    hide PassesTo, Unlines;
    var title, text := "BEGIN " + SEED, ArmorText(c.seed, SEED, c.postamble);
    var middle := Unlines(c.middle, text);
    var first := ArmorText(c.jwt, JWT, middle);
    PassFiller(c.preamble, first, title);
    SkipJwtArmor(c.jwt, middle);
    PassesThrough(Print(c), first, middle, title);
    PassFiller(c.middle, text, title);
    PassesThrough(Print(c), middle, text, title);
    FoundPast(Print(c), c.seed, SEED, c.postamble);
  }

  lemma FoundPast(body: string, a: Armor, section: string, rest: string)
    requires ArmorOk(a) && TitleOk("BEGIN " + section) && TitleOk("END " + section)
    requires PassesTo(body, ArmorText(a, section, rest), "BEGIN " + section)
    ensures Extract(body, section) == Outcome(a, section)
  {
    hide Find, Extract, ArmorText, TitleOk, ArmorOk;
    ExtractFinds(body, |body| - |ArmorText(a, section, rest)|, a, section, rest);
  }

  /** `s` ends in `rest`, and a search from the start of `s` that is not met before `rest` goes on there. */
  predicate PassesTo(s: string, rest: string, title: string) {
    |s| >= |rest| && s[|s| - |rest|..] == rest && Find(s, title, true) == Shift(Find(rest, title, true), |s| - |rest|)
  }

  lemma PassesThrough(s: string, t: string, rest: string, title: string)
    requires PassesTo(s, t, title) && PassesTo(t, rest, title)
    ensures PassesTo(s, rest, title)
  {
    hide Find;
    assert s[|s| - |t|..][|t| - |rest|..] == s[|s| - |rest|..];
  }

  lemma {:induction false} PassFence(f: Fence, other: string, rest: string, title: string, k: nat)
    requires FenceOk(f) && TitleOk(other) && k < |title| && k < |other| && title[k] != other[k]
    ensures PassesTo(FenceText(f, other, rest), rest, title)
  {
    hide Find, FenceText, FenceOk, TitleOk;
    FenceKeepsRest(f, other, rest);
    SkipFence(f, other, rest, title, k);
  }

  lemma PassEntries(entries: seq<Entry>, tail: string, title: string)
    requires TitleOk(title) && tail != "" && tail[0] == '-' && forall i | 0 <= i < |entries| :: EntryOk(entries[i])
    ensures PassesTo(Unlines(EntryLines(entries), tail), tail, title)
  {
    hide Find, TitleOk, EntryOk, Unlines;
    UnlinesEndsWith(EntryLines(entries), tail);
    SkipEntries(entries, tail, title);
  }

  lemma SeedTitleDiffers()
    ensures ("BEGIN " + SEED)[6] != ("BEGIN " + JWT)[6] && ("BEGIN " + SEED)[0] != ("END " + JWT)[0]
  {
  }

  lemma SkipJwtArmor(a: Armor, rest: string)
    requires ArmorOk(a)
    ensures PassesTo(ArmorText(a, JWT, rest), rest, "BEGIN " + SEED)
  {
    hide PassesTo, Find, FenceText, TitleOk, FenceOk, EntryOk, Unlines;
    TitlesAreOk();
    SeedTitleDiffers();
    var title, begin, end := "BEGIN " + SEED, "BEGIN " + JWT, "END " + JWT;
    var tail := FenceText(a.end, end, rest);
    var inner := Unlines(EntryLines(a.entries), tail);
    FenceBegins(a.end, end, rest);
    PassFence(a.begin, begin, inner, title, 6);
    PassEntries(a.entries, tail, title);
    PassesThrough(ArmorText(a, JWT, rest), inner, tail, title);
    PassFence(a.end, end, rest, title, 0);
    PassesThrough(ArmorText(a, JWT, rest), tail, rest, title);
  }

  lemma FenceKeepsRest(f: Fence, title: string, rest: string)
    ensures var s := FenceText(f, title, rest); |s| >= |rest| && s[|s| - |rest|..] == rest
  {
  }

  /** The same for the lines outside the armor. */
  lemma PassFiller(lines: seq<string>, rest: string, title: string)
    requires FillerOk(lines)
    ensures PassesTo(Unlines(lines, rest), rest, title)
  {
    hide Find, FillerOk, Unlines;
    UnlinesEndsWith(lines, rest);
    SkipFiller(lines, rest, title);
  }

  /**
   * Parsing what was printed gives back the token and the seed, whatever the dash counts, blanks, wrapping and
   * padding, exactly if no piece of either consists of asterisks alone.
   */
  lemma SplitInvertsPrintIff(c: Creds)
    requires CredsOk(c) && Secret(c.jwt.entries) != "" && Secret(c.seed.entries) != ""
    ensures SplitCreds(Print(c)) == Ok((Secret(c.jwt.entries), Secret(c.seed.entries)))
       <==> forall e | e in c.jwt.entries + c.seed.entries && e.Chunk? :: !AllAsterisks(e.text)
  {
    PrintedJwt(c);
    PrintedSeed(c);
    VisibleIsSecretIff(c.jwt.entries);
    VisibleIsSecretIff(c.seed.entries);
    hide Extract, Print, Visible, Secret;
    forall e | e in c.jwt.entries || e in c.seed.entries ensures e in c.jwt.entries + c.seed.entries { }
  }

  // What is rejected

  /** A line of `s` begins at `p`; `lineStart` says whether one begins at the front. */
  predicate Starts(s: string, p: nat, lineStart: bool) {
    p <= |s| && if p == 0 then lineStart else s[p - 1] == '\n'
  }

  ghost predicate MarkerAt(s: string, p: nat, lineStart: bool, title: string) {
    Starts(s, p, lineStart) && MatchMarker(s[p..], title).Some?
  }

  ghost predicate NoMarkerBefore(s: string, n: nat, lineStart: bool, title: string) {
    forall p: nat | p < n :: !MarkerAt(s, p, lineStart, title)
  }

  /** The first marker is found, if there is any. */
  lemma {:induction false} FindIsLeftmost(s: string, title: string, lineStart: bool)
    ensures match Find(s, title, lineStart)
      case None => NoMarkerBefore(s, |s| + 1, lineStart, title)
      case Some(span) =>
        && MarkerAt(s, span.start, lineStart, title) && NoMarkerBefore(s, span.start, lineStart, title)
        && MatchMarker(s[span.start..], title) == Some(span.end - span.start)
  {
    hide MatchMarker;
    assert s[0..] == s;
    if !(lineStart && MatchMarker(s, title).Some?) && s != "" {
      var rest, first := s[1..], s[0] == '\n';
      FindIsLeftmost(rest, title, first);
      forall p: nat | 0 < p <= |s| ensures MarkerAt(s, p, lineStart, title) <==> MarkerAt(rest, p - 1, first, title) {
        assert s[p..] == rest[p - 1..];
      }
      var found := Find(rest, title, first);
      if found.Some? { assert s[found.value.start + 1..] == rest[found.value.start..]; }
    }
  }

  ghost predicate FirstMarker(s: string, p: nat, title: string) {
    MarkerAt(s, p, true, title) && NoMarkerBefore(s, p, true, title)
  }

  lemma FirstIsFound(s: string, p: nat, title: string)
    ensures FirstMarker(s, p, title) ==>
      Find(s, title, true) == Some(Span(p, p + MatchMarker(s[p..], title).value))
    ensures NoMarkerBefore(s, |s| + 1, true, title) <==> Find(s, title, true).None?
  {
    hide MatchMarker;
    FindIsLeftmost(s, title, true);
  }

  /**
   * Why a section is rejected: it has no opening marker, or no closing one after the first opening one, or nothing but
   * blanks and asterisks between the two; and what it is otherwise.
   */
  lemma ExtractFailsIff(body: string, section: string, begin: nat, end: nat)
    ensures Extract(body, section) == Err(MissingBegin(section))
       <==> NoMarkerBefore(body, |body| + 1, true, "BEGIN " + section)
    ensures FirstMarker(body, begin, "BEGIN " + section) ==>
      var after := body[begin + MatchMarker(body[begin..], "BEGIN " + section).value..];
      && (Extract(body, section) == Err(MissingEnd(section))
          <==> NoMarkerBefore(after, |after| + 1, true, "END " + section))
      && (FirstMarker(after, end, "END " + section) ==>
            var content := Content(Lines(after[..end], ""));
            Extract(body, section) == if content == "" then Err(EmptyContent(section)) else Ok(content))
  {
    hide MatchMarker, Find, Content, Lines, NoMarkerBefore;
    FirstIsFound(body, begin, "BEGIN " + section);
    if FirstMarker(body, begin, "BEGIN " + section) {
      var after := body[begin + MatchMarker(body[begin..], "BEGIN " + section).value..];
      FirstIsFound(after, end, "END " + section);
    }
  }

  /** The token's section is looked at first, so its error is the one that is reported. */
  lemma FirstErrorIsReported(body: string)
    ensures SplitCreds(body).Ok? <==> Extract(body, JWT).Ok? && Extract(body, SEED).Ok?
    ensures SplitCreds(body).Err? ==>
      (SplitCreds(body).error.section == JWT <==> Extract(body, JWT).Err?)
      && (SplitCreds(body).error.section == SEED <==> Extract(body, JWT).Ok?)
  {
    assert JWT[0] != SEED[0];
    hide Find;
  }
}
