/**
 * Tailscale hostnames and JetStream stream names: a chain of regular-expression rewrites, length budgets and a
 * 32-bit FNV-1a suffix. Strings are sequences of code units; lower-casing is modelled for ASCII letters.
 */
module Hostnames {
  import opened Sequences

  predicate Alphanumeric(c: char) { 'a' <= c <= 'z' || '0' <= c <= '9' }

  function LowerChar(c: char): char { if 'A' <= c <= 'Z' then c - 'A' + 'a' else c }

  function Lower(s: string): string { if s == "" then "" else [LowerChar(s[0])] + Lower(s[1..]) }

  // The rewrites

  /** `/[^a-z0-9-]+/g` to "-"; `inRun` says that the run has been replaced already. */
  function ReplaceInvalid(s: string, inRun: bool): string {
    if s == "" then ""
    else if Alphanumeric(s[0]) || s[0] == '-' then [s[0]] + ReplaceInvalid(s[1..], false)
    else (if inRun then "" else "-") + ReplaceInvalid(s[1..], true)
  }

  /** `/-+/g` to "-". */
  function CollapseHyphens(s: string, inRun: bool): string {
    if s == "" then ""
    else if s[0] != '-' then [s[0]] + CollapseHyphens(s[1..], false)
    else (if inRun then "" else "-") + CollapseHyphens(s[1..], true)
  }

  function StripLeft(s: string): string { if s != "" && s[0] == '-' then StripLeft(s[1..]) else s }

  function StripRight(s: string): string { if s != "" && s[|s| - 1] == '-' then StripRight(s[..|s| - 1]) else s }

  function Rewrite(s: string): string { StripRight(StripLeft(CollapseHyphens(ReplaceInvalid(s, false), false))) }

  // Their meaning

  /** The maximal alphanumeric runs; `run` is the one being read. */
  function Tokens(s: string, run: string): seq<string> {
    if s == "" then (if run == "" then [] else [run])
    else if Alphanumeric(s[0]) then Tokens(s[1..], run + [s[0]])
    else (if run == "" then [] else [run]) + Tokens(s[1..], "")
  }

  function Join(parts: seq<string>, separator: string): string {
    if parts == [] then ""
    else if |parts| == 1 then parts[0]
    else parts[0] + separator + Join(parts[1..], separator)
  }

  /** Runs of anything but letters and digits as one hyphen each. */
  function Merge(s: string, inRun: bool): string {
    if s == "" then ""
    else if Alphanumeric(s[0]) then [s[0]] + Merge(s[1..], false)
    else (if inRun then "" else "-") + Merge(s[1..], true)
  }

  lemma {:induction false} RewritesMerge(s: string, replaced: bool, inRun: bool)
    requires replaced ==> inRun
    ensures CollapseHyphens(ReplaceInvalid(s, replaced), inRun) == Merge(s, inRun)
  {
    if s != "" {
      var rest := s[1..];
      if Alphanumeric(s[0]) {
        RewritesMerge(rest, false, false);
        assert ReplaceInvalid(s, replaced)[1..] == ReplaceInvalid(rest, false);
      } else if s[0] == '-' {
        RewritesMerge(rest, false, true);
        assert ReplaceInvalid(s, replaced)[1..] == ReplaceInvalid(rest, false);
      } else {
        RewritesMerge(rest, true, true);
        if replaced {
          assert ReplaceInvalid(s, replaced) == ReplaceInvalid(rest, true) && Merge(s, inRun) == Merge(rest, true);
        } else {
          assert ReplaceInvalid(s, replaced)[1..] == ReplaceInvalid(rest, true);
        }
      }
    }
  }

  lemma {:induction false} MergeStartsClean(s: string)
    ensures Merge(s, true) != "" ==> Merge(s, true)[0] != '-'
    ensures StripLeft(Merge(s, false)) == Merge(s, true)
  {
    if s != "" {
      MergeStartsClean(s[1..]);
      if !Alphanumeric(s[0]) { assert Merge(s, false)[1..] == Merge(s[1..], true); }
    }
  }

  lemma {:induction false} StripRightKeeps(a: string, b: string)
    requires StripRight(b) != ""
    ensures StripRight(a + b) == a + StripRight(b)
  {
    if b[|b| - 1] == '-' {
      assert (a + b)[..|a + b| - 1] == a + b[..|b| - 1];
      StripRightKeeps(a, b[..|b| - 1]);
    }
  }

  lemma {:induction false} StripRightEmpties(b: string)
    ensures StripRight(b) == "" <==> forall i | 0 <= i < |b| :: b[i] == '-'
  {
    if b != "" { StripRightEmpties(b[..|b| - 1]); }
  }

  ghost predicate Token(t: string) { t != "" && forall i | 0 <= i < |t| :: Alphanumeric(t[i]) }

  lemma {:induction false} TokensAreTokens(s: string, run: string)
    requires run == "" || Token(run)
    ensures forall i | 0 <= i < |Tokens(s, run)| :: Token(Tokens(s, run)[i])
  {
    if s != "" {
      if Alphanumeric(s[0]) { TokensAreTokens(s[1..], run + [s[0]]); } else { TokensAreTokens(s[1..], ""); }
    }
  }

  lemma {:induction false} MergedTokens(s: string, run: string)
    requires run == "" || Token(run)
    ensures StripRight(run + Merge(s, run == "")) == Join(Tokens(s, run), "-")
  {
    hide StripRight, Join, Token, Merge, Tokens;
    if s == "" {
      LastToken(run);
    } else if Alphanumeric(s[0]) {
      LongerToken(run, s[0]);
      MergedTokens(s[1..], run + [s[0]]);
      OneInRun(s, run);
    } else {
      MergedTokens(s[1..], "");
      OneOutside(s, run);
      if run != "" { TokenThenRest(run, s[1..]); }
    }
  }

  lemma LongerToken(run: string, c: char)
    requires (run == "" || Token(run)) && Alphanumeric(c)
    ensures Token(run + [c]) && run + [c] != ""
  {
  }

  lemma OneInRun(s: string, run: string)
    requires s != "" && Alphanumeric(s[0])
    ensures run + Merge(s, run == "") == run + [s[0]] + Merge(s[1..], false)
    ensures Tokens(s, run) == Tokens(s[1..], run + [s[0]])
  {
  }

  lemma OneOutside(s: string, run: string)
    requires s != "" && !Alphanumeric(s[0])
    ensures "" + Merge(s[1..], true) == Merge(s[1..], true)
    ensures run + Merge(s, run == "") == if run == "" then Merge(s[1..], true) else run + "-" + Merge(s[1..], true)
    ensures Tokens(s, run) == (if run == "" then [] else [run]) + Tokens(s[1..], "")
    ensures run == "" ==> Tokens(s, run) == Tokens(s[1..], "")
  {
  }

  lemma LastToken(run: string)
    requires run == "" || Token(run)
    ensures StripRight(run + Merge("", run == "")) == Join(Tokens("", run), "-")
  {
    assert run + "" == run;
  }

  lemma TokenThenRest(run: string, rest: string)
    requires Token(run) && StripRight(Merge(rest, true)) == Join(Tokens(rest, ""), "-")
    ensures StripRight(run + "-" + Merge(rest, true)) == Join([run] + Tokens(rest, ""), "-")
  {
    var tokens := Tokens(rest, "");
    TokensAreTokens(rest, "");
    MergeStartsClean(rest);
    StripRightEmpties(Merge(rest, true));
    if tokens == [] {
      assert Merge(rest, true) == "";
      assert run + "-" + "" == run + "-" && (run + "-")[..|run|] == run;
    } else {
      assert Token(tokens[0]) && Join(tokens, "-") != "";
      StripRightKeeps(run + "-", Merge(rest, true));
      assert ([run] + tokens)[1..] == tokens;
    }
  }

  /** The chain of rewrites is: the maximal runs of letters and digits, joined by single hyphens. */
  lemma RewriteJoinsTokens(s: string)
    ensures Rewrite(s) == Join(Tokens(s, ""), "-")
  {
    RewritesMerge(s, false, false);
    MergeStartsClean(s);
    MergedTokens(s, "");
    assert "" + Merge(s, true) == Merge(s, true);
  }

  /** Letters, digits and single inner hyphens. */
  ghost predicate CleanForm(s: string) {
    && (forall i | 0 <= i < |s| :: Alphanumeric(s[i]) || s[i] == '-')
    && (forall i | 0 <= i < |s| - 1 :: s[i] != '-' || s[i + 1] != '-')
    && (s != "" ==> s[0] != '-' && s[|s| - 1] != '-')
  }

  /** RFC 1123: a host label. */
  ghost predicate Label(s: string) { 1 <= |s| <= 63 && CleanForm(s) }

  lemma CleanFormJoins(a: string, b: string)
    requires CleanForm(a) && CleanForm(b) && a != "" && b != ""
    ensures CleanForm(a + "-" + b)
  {
    var s := a + "-" + b;
    forall i | 0 <= i < |s| ensures Alphanumeric(s[i]) || s[i] == '-' { }
    forall i | 0 <= i < |s| - 1 ensures s[i] != '-' || s[i + 1] != '-' {
      if i < |a| - 1 { assert s[i] == a[i] && s[i + 1] == a[i + 1]; }
      if i > |a| { assert s[i] == b[i - |a| - 1] && s[i + 1] == b[i - |a|]; }
    }
  }

  lemma {:induction false} JoinIsClean(tokens: seq<string>)
    requires forall i | 0 <= i < |tokens| :: Token(tokens[i])
    ensures CleanForm(Join(tokens, "-")) && (Join(tokens, "-") == "" <==> tokens == [])
  {
    if tokens != [] {
      assert Token(tokens[0]);
      if |tokens| > 1 {
        JoinIsClean(tokens[1..]);
        CleanFormJoins(tokens[0], Join(tokens[1..], "-"));
      }
    }
  }

  lemma {:induction false} NothingToReplace(s: string, inRun: bool)
    requires forall i | 0 <= i < |s| :: Alphanumeric(s[i]) || s[i] == '-'
    ensures ReplaceInvalid(s, inRun) == s
  {
    if s != "" { NothingToReplace(s[1..], false); }
  }

  lemma {:induction false} NothingToCollapse(s: string, inRun: bool)
    requires forall i | 0 <= i < |s| - 1 :: s[i] != '-' || s[i + 1] != '-'
    requires s != "" && inRun ==> s[0] != '-'
    ensures CollapseHyphens(s, inRun) == s
  {
    if s != "" {
      forall i | 0 <= i < |s[1..]| - 1 ensures s[1..][i] != '-' || s[1..][i + 1] != '-' {
        assert s[i + 1] != '-' || s[i + 2] != '-';
      }
      NothingToCollapse(s[1..], s[0] == '-');
    }
  }

  /** The rewrite always gives clean form and leaves clean form alone; so it is idempotent. */
  lemma RewriteCleans(s: string)
    ensures CleanForm(Rewrite(s)) && (Rewrite(s) == "" <==> Tokens(s, "") == [])
    ensures CleanForm(s) <==> Rewrite(s) == s
    ensures Rewrite(Rewrite(s)) == Rewrite(s)
  {
    RewriteJoinsTokens(s);
    TokensAreTokens(s, "");
    JoinIsClean(Tokens(s, ""));
    CleanIsFixed(Rewrite(s));
    if CleanForm(s) { CleanIsFixed(s); }
  }

  lemma CleanIsFixed(s: string)
    requires CleanForm(s)
    ensures Rewrite(s) == s
  {
    NothingToReplace(s, false);
    NothingToCollapse(s, false);
  }

  lemma {:induction false} SomeTokenIff(s: string, run: string)
    ensures Tokens(s, run) != [] <==> run != "" || exists i :: 0 <= i < |s| && Alphanumeric(s[i])
  {
    if s != "" {
      var rest := s[1..];
      SomeTokenIff(rest, run + [s[0]]);
      SomeTokenIff(rest, "");
      assert forall i | 0 <= i < |rest| :: rest[i] == s[i + 1];
      assert forall i | 0 < i < |s| :: s[i] == rest[i - 1];
    }
  }

  // FNV-1a

  function FnvStep(h: bv32, c: char): bv32
  {
    (h ^ ((c as int) as bv32)) * 0x01000193
  }

  function Fnv1a32(input: string): bv32 {
    if input == "" then 0x811c9dc5 else FnvStep(Fnv1a32(input[..|input| - 1]), input[|input| - 1])
  }

  function HexDigit(d: nat): char
    requires d < 16
  {
    if d < 10 then '0' + d as char else 'a' + (d - 10) as char
  }

  function Hex(n: nat): string { if n < 16 then [HexDigit(n)] else Hex(n / 16) + [HexDigit(n % 16)] }

  function PadStart(s: string, length: nat): string
    decreases length - |s|
  {
    if |s| >= length then s else PadStart("0" + s, length)
  }

  function Fnv1a32Hex(input: string): string { PadStart(Hex(Fnv1a32(input) as nat), 8) }

  /** The loop that both files spell out. */
  method HashHex(input: string) returns (hex: string)
    ensures hex == Fnv1a32Hex(input)
  {
    var h: bv32 := 0x811c9dc5;
    var i := 0;
    while i < |input|
      invariant 0 <= i <= |input| && h == Fnv1a32(input[..i])
    {
      assert input[..i + 1][..i] == input[..i];
      h := FnvStep(h, input[i]);
      i := i + 1;
    }
    assert input[..i] == input;
    hex := PadStart(Hex(h as nat), 8);
  }

  lemma FnvOne(input: string, c: char)
    ensures Fnv1a32(input + [c]) == FnvStep(Fnv1a32(input), c)
  {
    assert (input + [c])[..|input|] == input;
  }

  /** The test vectors that the authors of FNV publish for the empty text, "a" and "foobar". */
  lemma FnvVectors()
    ensures Fnv1a32("") == 0x811c9dc5 && Fnv1a32("a") == 0xe40c292c && Fnv1a32("foobar") == 0xbf9cf968
  {
    FnvOne("", 'a');
    FnvOne("", 'f');
    FnvOne("f", 'o');
    FnvOne("fo", 'o');
    FnvOne("foo", 'b');
    FnvOne("foob", 'a');
    FnvOne("fooba", 'r');
    FnvSteps();
    FnvMoreSteps();
    hide Fnv1a32, FnvStep;
    assert "" + ['a'] == "a" && "" + ['f'] == "f" && "f" + ['o'] == "fo" && "fo" + ['o'] == "foo";
    assert "foo" + ['b'] == "foob" && "foob" + ['a'] == "fooba" && "fooba" + ['r'] == "foobar";
  }

  lemma FnvSteps()
    ensures Fnv1a32("") == 0x811c9dc5 && FnvStep(0x811c9dc5, 'a') == 0xe40c292c
    ensures FnvStep(0x811c9dc5, 'f') == 0xe30c2799 && FnvStep(0xe30c2799, 'o') == 0x6222e842
  {
  }

  lemma FnvMoreSteps()
    ensures FnvStep(0x6222e842, 'o') == 0xa9f37ed7 && FnvStep(0xa9f37ed7, 'b') == 0x3f5076ef
    ensures FnvStep(0x3f5076ef, 'a') == 0x39aaa18a && FnvStep(0x39aaa18a, 'r') == 0xbf9cf968
  {
  }

  function HexValue(s: string): int {
    if s == "" then 0
    else 16 * HexValue(s[..|s| - 1])
         + if '0' <= s[|s| - 1] <= '9' then s[|s| - 1] as int - '0' as int else s[|s| - 1] as int - 'a' as int + 10
  }

  function Pow16(k: nat): nat { if k == 0 then 1 else 16 * Pow16(k - 1) }

  lemma {:induction false} HexDenotes(n: nat, k: nat)
    requires n < Pow16(k) && k > 0
    ensures 1 <= |Hex(n)| <= k && HexValue(Hex(n)) == n
    ensures forall i | 0 <= i < |Hex(n)| :: Alphanumeric(Hex(n)[i])
  {
    if n >= 16 {
      HexDenotes(n / 16, k - 1);
      assert Hex(n)[..|Hex(n)| - 1] == Hex(n / 16);
    } else {
      assert Hex(n)[..0] == "";
    }
  }

  lemma {:induction false} PadDenotes(s: string, length: nat)
    requires |s| <= length && forall i | 0 <= i < |s| :: Alphanumeric(s[i])
    ensures |PadStart(s, length)| == length && HexValue(PadStart(s, length)) == HexValue(s)
    ensures forall i | 0 <= i < length :: Alphanumeric(PadStart(s, length)[i])
    decreases length - |s|
  {
    if |s| < length {
      LeadingZero(s);
      PadDenotes("0" + s, length);
    }
  }

  lemma {:induction false} LeadingZero(s: string)
    ensures HexValue("0" + s) == HexValue(s)
  {
    if s == "" {
      assert ("0" + s)[..0] == "";
    } else {
      assert ("0" + s)[..|s|] == "0" + s[..|s| - 1];
      LeadingZero(s[..|s| - 1]);
    }
  }

  /** Eight lower-case hexadecimal digits that spell the hash. */
  lemma HashShape(input: string)
    ensures |Fnv1a32Hex(input)| == 8 && HexValue(Fnv1a32Hex(input)) == Fnv1a32(input) as int
    ensures Token(Fnv1a32Hex(input))
  {
    var n := Fnv1a32(input) as nat;
    assert Pow16(8) == 0x1_0000_0000;
    HexDenotes(n, 8);
    PadDenotes(Hex(n), 8);
  }

  // The builders

  const LABEL_BUDGET := 63
  const PREFIX_BUDGET := 54
  const HASH_LENGTH := 8

  /** The readable head of an overflowing name, cut to its budget, and the hash of the raw parts. */
  function Overflow(cleaned: string, budget: nat, parts: seq<string>): string
    requires HASH_LENGTH < budget <= |cleaned|
  {
    StripRight(cleaned[..budget - 1 - HASH_LENGTH]) + "-" + Fnv1a32Hex(Join(parts, "|"))
  }

  /** None stands for the exception on names without a valid character. */
  function Fit(parts: seq<string>, budget: nat): Option<string>
    requires HASH_LENGTH < budget
  {
    var cleaned := Rewrite(Lower(Join(parts, "-")));
    if cleaned == "" then None
    else if |cleaned| <= budget then Some(cleaned)
    else Some(Overflow(cleaned, budget, parts))
  }

  function SanitizeHostname(stack: string, service: string, env: string, discriminator: string,
    instanceId: string): Option<string> {
    Fit([stack, service, env] + (if discriminator != "" then [discriminator] else [])
        + (if instanceId != "" then [instanceId] else []), LABEL_BUDGET)
  }

  function PoolPrefix(stack: string, service: string, env: string): Option<string> {
    Fit([stack, service, env], PREFIX_BUDGET)
  }

  function PoolInstance(stack: string, service: string, env: string, instanceId: string): Option<string> {
    SanitizeHostname(stack, service, env, "", instanceId)
  }

  lemma {:induction false} StripRightIsClean(s: string)
    requires forall i | 0 <= i < |s| :: Alphanumeric(s[i]) || s[i] == '-'
    requires forall i | 0 <= i < |s| - 1 :: s[i] != '-' || s[i + 1] != '-'
    requires s != "" ==> s[0] != '-'
    ensures CleanForm(StripRight(s)) && |StripRight(s)| <= |s| && (s != "" ==> StripRight(s) != "")
  {
    if s != "" && s[|s| - 1] == '-' { StripRightIsClean(s[..|s| - 1]); }
  }

  lemma OverflowIsClean(cleaned: string, budget: nat, parts: seq<string>)
    requires CleanForm(cleaned) && HASH_LENGTH + 1 < budget <= |cleaned|
    ensures CleanForm(Overflow(cleaned, budget, parts)) && 1 <= |Overflow(cleaned, budget, parts)| <= budget
  {
    var head := cleaned[..budget - 1 - HASH_LENGTH];
    StripRightIsClean(head);
    HashShape(Join(parts, "|"));
    CleanFormJoins(StripRight(head), Fnv1a32Hex(Join(parts, "|")));
  }

  /**
   * A name exists exactly when the parts hold a letter or a digit; it fits its budget and is a fixed point of the
   * rewrite.
   */
  lemma FitIsLabel(parts: seq<string>, budget: nat)
    requires HASH_LENGTH + 1 < budget
    ensures var raw := Lower(Join(parts, "-"));
      Fit(parts, budget).Some? <==> exists i :: 0 <= i < |raw| && Alphanumeric(raw[i])
    ensures Fit(parts, budget).Some? ==>
      var name := Fit(parts, budget).value; 1 <= |name| <= budget && CleanForm(name) && Rewrite(name) == name
  {
    var raw := Lower(Join(parts, "-"));
    RewriteCleans(raw);
    SomeTokenIff(raw, "");
    var cleaned := Rewrite(raw);
    if |cleaned| > budget { OverflowIsClean(cleaned, budget, parts); }
    if Fit(parts, budget).Some? { RewriteCleans(Fit(parts, budget).value); }
  }

  /** Every hostname is a valid label; a pool prefix leaves room for a hyphen and eight more characters. */
  lemma HostnamesAreLabels(stack: string, service: string, env: string, discriminator: string, instanceId: string)
    ensures SanitizeHostname(stack, service, env, discriminator, instanceId).Some? ==>
      Label(SanitizeHostname(stack, service, env, discriminator, instanceId).value)
    ensures PoolPrefix(stack, service, env).Some? ==>
      Label(PoolPrefix(stack, service, env).value)
        && |PoolPrefix(stack, service, env).value| + 1 + HASH_LENGTH <= LABEL_BUDGET
  {
    FitIsLabel([stack, service, env] + (if discriminator != "" then [discriminator] else [])
               + (if instanceId != "" then [instanceId] else []), LABEL_BUDGET);
    FitIsLabel([stack, service, env], PREFIX_BUDGET);
  }

  lemma {:induction false} LowerConcat(a: string, b: string)
    ensures Lower(a + b) == Lower(a) + Lower(b)
  {
    if a == "" {
      assert a + b == b;
    } else {
      hide LowerChar;
      LowerConcat(a[1..], b);
      assert (a + b)[1..] == a[1..] + b && (a + b)[0] == a[0];
      var first, rest := [LowerChar(a[0])], Lower(a[1..]);
      assert first + (rest + Lower(b)) == first + rest + Lower(b);
    }
  }

  lemma {:induction false} TokensConcat(a: string, b: string, run: string)
    ensures Tokens(a + "-" + b, run) == Tokens(a, run) + Tokens(b, "")
  {
    var s := a + "-" + b;
    if a == "" {
      assert s[1..] == b;
    } else {
      assert s[1..] == a[1..] + "-" + b;
      if Alphanumeric(a[0]) { TokensConcat(a[1..], b, run + [a[0]]); } else { TokensConcat(a[1..], b, ""); }
    }
  }

  lemma {:induction false} JoinConcat(a: seq<string>, b: seq<string>, separator: string)
    requires a != [] && b != []
    ensures Join(a + b, separator) == Join(a, separator) + separator + Join(b, separator)
  {
    assert (a + b)[0] == a[0] && |a + b| > 1;
    if |a| == 1 {
      assert (a + b)[1..] == b;
    } else {
      JoinConcat(a[1..], b, separator);
      assert (a + b)[1..] == a[1..] + b;
      JoinThree(a[0] + separator, Join(a[1..], separator), separator, Join(b, separator));
    }
  }

  lemma JoinThree(a: string, b: string, separator: string, c: string)
    ensures a + (b + separator + c) == a + b + separator + c
  {
  }

  /** Cleaning a hyphenated pair cleans its halves. */
  lemma RewriteConcat(a: string, b: string)
    requires Rewrite(Lower(a)) != "" && Rewrite(Lower(b)) != ""
    ensures Rewrite(Lower(a + "-" + b)) == Rewrite(Lower(a)) + "-" + Rewrite(Lower(b))
  {
    LowerConcat(a + "-", b);
    LowerConcat(a, "-");
    assert Lower("-") == "-" by { assert "-"[1..] == ""; }
    RewriteJoinsTokens(Lower(a));
    RewriteJoinsTokens(Lower(b));
    RewriteJoinsTokens(Lower(a) + "-" + Lower(b));
    TokensConcat(Lower(a), Lower(b), "");
    JoinConcat(Tokens(Lower(a), ""), Tokens(Lower(b), ""), "-");
  }

  /** Cutting a clean text leaves at most one hyphen to strip. */
  lemma CutIsShort(s: string, k: nat)
    requires CleanForm(s) && 0 < k <= |s|
    ensures k - 1 <= |StripRight(s[..k])| <= k && StripRight(s[..k]) != ""
    ensures CleanForm(StripRight(s[..k])) && StripRight(s[..k]) <= s
  {
    StripRightIsClean(s[..k]);
    if s[k - 1] == '-' {
      assert s[..k][..k - 1] == s[..k - 1] && s[k - 2] != '-';
      assert StripRight(s[..k - 1]) == s[..k - 1];
    } else {
      assert StripRight(s[..k]) == s[..k];
    }
  }

  // What a name is made of

  lemma {:induction false} LowerAt(s: string, i: nat)
    requires i < |s|
    ensures |Lower(s)| == |s|
    ensures Lower(s)[i] as int == s[i] as int + if 'A' <= s[i] <= 'Z' then 32 else 0
  {
    LowerLength(s);
    if i > 0 { LowerAt(s[1..], i - 1); }
  }

  lemma {:induction false} LowerLength(s: string)
    ensures |Lower(s)| == |s|
  {
    if s != "" { LowerLength(s[1..]); }
  }

  /** The runs of letters and digits of all parts, in lower case. */
  function Words(parts: seq<string>): seq<string> {
    if parts == [] then [] else Tokens(Lower(parts[0]), "") + Words(parts[1..])
  }

  lemma {:induction false} WordsOfJoin(parts: seq<string>)
    ensures Tokens(Lower(Join(parts, "-")), "") == Words(parts)
  {
    hide Tokens, Lower;
    if parts == [] {
      NoWords();
    } else if |parts| == 1 {
      assert parts[1..] == [];
    } else {
      WordsOfJoin(parts[1..]);
      LowerConcat(parts[0] + "-", Join(parts[1..], "-"));
      LowerConcat(parts[0], "-");
      LowerHyphen();
      TokensConcat(Lower(parts[0]), Lower(Join(parts[1..], "-")), "");
    }
  }

  lemma NoWords()
    ensures Tokens(Lower(""), "") == []
  {
  }

  lemma LowerHyphen()
    ensures Lower("-") == "-"
  {
    assert "-"[1..] == "";
  }

  /**
   * A name within its budget is the words of its parts, hyphenated; a longer one is the longest head of that which
   * leaves room for a hyphen and eight more characters, and these spell the hash of the parts as they were given.
   */
  lemma FitSpells(parts: seq<string>, budget: nat)
    requires HASH_LENGTH + 1 < budget
    ensures var whole := Join(Words(parts), "-");
      match Fit(parts, budget)
      case None => whole == ""
      case Some(name) =>
        if |whole| <= budget then name == whole
        else
          && |name| in {budget - 1, budget} && name[..|name| - 9] <= whole
          && name[|name| - 9..] == "-" + Fnv1a32Hex(Join(parts, "|"))
  {
    hide Tokens, Lower, Words, Rewrite, StripRight, Fnv1a32Hex;
    var whole, hash := Join(Words(parts), "-"), Fnv1a32Hex(Join(parts, "|"));
    WordsOfJoin(parts);
    RewriteJoinsTokens(Lower(Join(parts, "-")));
    RewriteCleans(Lower(Join(parts, "-")));
    HashShape(Join(parts, "|"));
    if |whole| > budget {
      var k := budget - 1 - HASH_LENGTH;
      CutIsShort(whole, k);
      var head := StripRight(whole[..k]);
      assert Overflow(whole, budget, parts) == head + ("-" + hash);
      assert (head + ("-" + hash))[..|head|] == head && (head + ("-" + hash))[|head|..] == "-" + hash;
    }
  }

  /** The parts of a hostname, in their order; an empty discriminator or instance id is left out. */
  lemma HostnameSpells(stack: string, service: string, env: string, discriminator: string, instanceId: string)
    ensures SanitizeHostname(stack, service, env, "", "") == Fit([stack, service, env], 63)
    ensures PoolPrefix(stack, service, env) == Fit([stack, service, env], 54)
    ensures instanceId != "" ==>
      PoolInstance(stack, service, env, instanceId) == Fit([stack, service, env, instanceId], 63)
    ensures discriminator != "" ==>
      SanitizeHostname(stack, service, env, discriminator, "") == Fit([stack, service, env, discriminator], 63)
    ensures discriminator != "" && instanceId != "" ==>
      SanitizeHostname(stack, service, env, discriminator, instanceId)
        == Fit([stack, service, env, discriminator, instanceId], 63)
  {
    var triple := [stack, service, env];
    assert triple + [] == triple && triple + [] + [] == triple;
    assert triple + [] + [instanceId] == [stack, service, env, instanceId];
    assert triple + [discriminator] + [] == [stack, service, env, discriminator];
    assert triple + [discriminator] + [instanceId] == [stack, service, env, discriminator, instanceId];
    hide Fit;
  }

  /** Two texts that end in a hyphen and a tail: near-equal heads that end in no hyphen must be equal. */
  lemma HeadsAgree(a: string, x: string, b: string, y: string)
    requires a != "" && b != "" && a[|a| - 1] != '-' && b[|b| - 1] != '-' && |b| - 1 <= |a| <= |b| + 1
    ensures a + "-" + x == b + "-" + y <==> a == b && x == y
  {
    var s, t := a + "-" + x, b + "-" + y;
    assert s[|a|] == '-' && t[|b|] == '-';
    assert |a| < |b| ==> t[|a|] == b[|a|];
    assert |b| < |a| ==> s[|b|] == a[|b|];
    if s == t {
      assert s[..|a|] == a && t[..|b|] == b && s[|a| + 1..] == x && t[|b| + 1..] == y;
    }
  }

  /** Both the prefix and the whole name overflow: the prefix head has 53 or 54 characters, like the name's. */
  lemma OverflowMatchesIff(triple: string, whole: string, id: string, parts: seq<string>, more: seq<string>)
    requires CleanForm(triple) && CleanForm(whole) && triple <= whole && |triple| > PREFIX_BUDGET
      && |whole| > LABEL_BUDGET
    ensures Overflow(whole, LABEL_BUDGET, more) == Overflow(triple, PREFIX_BUDGET, parts) + "-" + id <==>
      StripRight(triple[..PREFIX_BUDGET]) == Overflow(triple, PREFIX_BUDGET, parts) && id == Fnv1a32Hex(Join(more, "|"))
  {
    var prefix, hash, short := Overflow(triple, PREFIX_BUDGET, parts), Fnv1a32Hex(Join(more, "|")),
      Fnv1a32Hex(Join(parts, "|"));
    hide Fnv1a32Hex, Join, StripRight;
    HashShape(Join(more, "|"));
    HashShape(Join(parts, "|"));
    CutIsShort(triple, PREFIX_BUDGET);
    CutIsShort(triple, PREFIX_BUDGET - 1 - HASH_LENGTH);
    assert whole[..PREFIX_BUDGET] == triple[..PREFIX_BUDGET];
    assert prefix[|prefix| - 1] == short[|short| - 1] && Alphanumeric(short[|short| - 1]);
    HeadsAgree(StripRight(triple[..PREFIX_BUDGET]), hash, prefix, id);
  }

  /**
   * The Connect panel shows `prefix-instance`. When the cleaned triple and instance id fit a label together, that is
   * the instance's hostname exactly if the triple alone fits the prefix budget. Past the label limit a triple within
   * the prefix budget never matches, and a longer one only if the instance id spells the hash of the whole name and
   * the cut triple spells the prefix, hash and all.
   */
  lemma PrefixNamesInstanceIff(stack: string, service: string, env: string, instanceId: string)
    requires Rewrite(Lower(Join([stack, service, env], "-"))) != "" && Rewrite(Lower(instanceId)) != ""
    ensures PoolPrefix(stack, service, env).Some? && PoolInstance(stack, service, env, instanceId).Some?
    ensures var triple, id := Rewrite(Lower(Join([stack, service, env], "-"))), Rewrite(Lower(instanceId));
      var prefix := PoolPrefix(stack, service, env).value;
      PoolInstance(stack, service, env, instanceId).value == prefix + "-" + id <==>
        if |triple| + 1 + |id| <= LABEL_BUDGET then |triple| <= PREFIX_BUDGET
        else |triple| > PREFIX_BUDGET && StripRight(triple[..PREFIX_BUDGET]) == prefix
             && id == Fnv1a32Hex(Join([stack, service, env, instanceId], "|"))
  {
    hide Rewrite, Lower, StripRight, Fnv1a32Hex;
    var parts := [stack, service, env];
    var more := parts + [instanceId];
    var triple, id := Rewrite(Lower(Join(parts, "-"))), Rewrite(Lower(instanceId));
    var whole := triple + "-" + id;
    NoRewrite();
    JoinConcat(parts, [instanceId], "-");
    RewriteConcat(Join(parts, "-"), instanceId);
    assert parts + [] + [instanceId] == more == [stack, service, env, instanceId];
    FitIsLabel(parts, PREFIX_BUDGET);
    FitIsLabel(more, LABEL_BUDGET);
    RewriteCleans(Lower(Join(parts, "-")));
    RewriteCleans(Lower(Join(more, "-")));
    if |triple| > PREFIX_BUDGET && |whole| > LABEL_BUDGET { OverflowMatchesIff(triple, whole, id, parts, more); }
  }

  lemma PrefixesAgree(a: string, b: string, s: string)
    requires a <= s && b <= s && |a| <= |b|
    ensures a <= b
  {
    assert a == s[..|a|] && b[..|a|] == s[..|a|];
  }

  lemma CutLosesHyphen(s: string, k: nat)
    requires CleanForm(s) && 0 < k <= |s|
    ensures |StripRight(s[..k])| < k ==> s[k - 1] == '-'
  {
    if s[k - 1] != '-' { assert StripRight(s[..k]) == s[..k]; }
  }

  /** A triple within the prefix budget heads the instance's name also where the whole name overflows. */
  lemma ShortTripleHeads(triple: string, whole: string, tail: string)
    requires CleanForm(triple) && CleanForm(whole) && triple <= whole && triple != ""
    requires |triple| <= PREFIX_BUDGET && |whole| > LABEL_BUDGET
    ensures triple <= StripRight(whole[..PREFIX_BUDGET]) + tail
  {
    hide StripRight;
    CutIsShort(whole, PREFIX_BUDGET);
    var head := StripRight(whole[..PREFIX_BUDGET]);
    CutLosesHyphen(whole, PREFIX_BUDGET);
    assert whole[|triple| - 1] == triple[|triple| - 1];
    PrefixesAgree(triple, head, whole);
  }

  /** An overflowing prefix heads the overflowing name only if it heads the triple, hash and all. */
  lemma OverflowHeadsIff(triple: string, whole: string, parts: seq<string>, tail: string)
    requires CleanForm(triple) && CleanForm(whole) && triple <= whole && |triple| > PREFIX_BUDGET
      && |whole| > LABEL_BUDGET
    requires tail != "" && tail[0] == '-'
    ensures var prefix := Overflow(triple, PREFIX_BUDGET, parts);
      prefix <= StripRight(whole[..PREFIX_BUDGET]) + tail <==> prefix <= triple
  {
    var prefix, short := Overflow(triple, PREFIX_BUDGET, parts), Fnv1a32Hex(Join(parts, "|"));
    hide Fnv1a32Hex, Join, StripRight;
    HashShape(Join(parts, "|"));
    CutIsShort(triple, PREFIX_BUDGET);
    CutIsShort(triple, PREFIX_BUDGET - 1 - HASH_LENGTH);
    assert whole[..PREFIX_BUDGET] == triple[..PREFIX_BUDGET];
    var head := StripRight(triple[..PREFIX_BUDGET]);
    assert prefix[|prefix| - 1] == short[|short| - 1] && Alphanumeric(short[|short| - 1]);
    if |prefix| <= |head| {
      assert (head + tail)[..|prefix|] == head[..|prefix|] == triple[..|prefix|];
    } else {
      CutLosesHyphen(triple, PREFIX_BUDGET);
      assert (head + tail)[|head|] == '-';
    }
  }

  /**
   * The prefix that is shown heads the instance's hostname exactly if the triple is within the prefix budget, unless a
   * longer triple happens to begin with its own cut and hash.
   */
  lemma PrefixHeadsInstanceIff(stack: string, service: string, env: string, instanceId: string)
    requires Rewrite(Lower(Join([stack, service, env], "-"))) != "" && Rewrite(Lower(instanceId)) != ""
    ensures PoolPrefix(stack, service, env).Some? && PoolInstance(stack, service, env, instanceId).Some?
    ensures var triple, prefix := Rewrite(Lower(Join([stack, service, env], "-"))),
      PoolPrefix(stack, service, env).value;
      prefix <= PoolInstance(stack, service, env, instanceId).value <==> |triple| <= PREFIX_BUDGET || prefix <= triple
  {
    hide Rewrite, Lower, StripRight, Fnv1a32Hex;
    var parts := [stack, service, env];
    var more := parts + [instanceId];
    var triple, id := Rewrite(Lower(Join(parts, "-"))), Rewrite(Lower(instanceId));
    var whole, tail := triple + "-" + id, "-" + Fnv1a32Hex(Join(more, "|"));
    NoRewrite();
    JoinConcat(parts, [instanceId], "-");
    RewriteConcat(Join(parts, "-"), instanceId);
    assert parts + [] + [instanceId] == more == [stack, service, env, instanceId];
    FitIsLabel(parts, PREFIX_BUDGET);
    FitIsLabel(more, LABEL_BUDGET);
    RewriteCleans(Lower(Join(parts, "-")));
    RewriteCleans(Lower(Join(more, "-")));
    var prefix := PoolPrefix(stack, service, env).value;
    if |whole| <= LABEL_BUDGET {
      if |prefix| <= |triple| { assert whole[..|prefix|] == triple[..|prefix|]; }
    } else {
      assert Overflow(whole, LABEL_BUDGET, more) == StripRight(whole[..PREFIX_BUDGET]) + tail;
      if |triple| <= PREFIX_BUDGET { ShortTripleHeads(triple, whole, tail); }
      else { OverflowHeadsIff(triple, whole, parts, tail); }
    }
  }

  lemma NoRewrite()
    ensures Rewrite(Lower("")) == ""
  {
    RewriteJoinsTokens("");
  }

  // Stream names

  const STREAM_NAME_MAX := 32
  const STREAM_PREFIX := "JobHistory-"

  predicate StreamChar(c: char) { 'A' <= c <= 'Z' || 'a' <= c <= 'z' || '0' <= c <= '9' || c == '_' || c == '-' }

  function KeepStreamChars(s: string): string {
    if s == "" then "" else (if StreamChar(s[0]) then [s[0]] else "") + KeepStreamChars(s[1..])
  }

  /** Every permitted character stays where it is, and any other goes. */
  lemma {:induction false} StreamCharsStay(a: string, c: char)
    ensures KeepStreamChars(a + [c]) == KeepStreamChars(a) + if StreamChar(c) then [c] else ""
    ensures KeepStreamChars("") == ""
  {
    hide StreamChar;
    if a == "" {
      assert a + [c] == [c] && [c][1..] == "";
    } else {
      assert (a + [c])[0] == a[0] && (a + [c])[1..] == a[1..] + [c];
      StreamCharsStay(a[1..], c);
      var first, last := if StreamChar(a[0]) then [a[0]] else "", if StreamChar(c) then [c] else "";
      assert first + (KeepStreamChars(a[1..]) + last) == first + KeepStreamChars(a[1..]) + last;
    }
  }

  function Slice(s: string, length: nat): string { if |s| <= length then s else s[..length] }

  function StreamName(stackId: string, serviceName: string): string {
    var stack, service := KeepStreamChars(stackId), KeepStreamChars(serviceName);
    var candidate := STREAM_PREFIX + stack + "-" + service;
    if |candidate| <= STREAM_NAME_MAX then candidate
    else Slice(STREAM_PREFIX + Fnv1a32Hex(stackId + "|" + serviceName) + "-" + Slice(service, 12), STREAM_NAME_MAX)
  }

  ghost predicate StreamChars(s: string) { forall i | 0 <= i < |s| :: StreamChar(s[i]) }

  lemma {:induction false} KeptAreStreamChars(s: string)
    ensures StreamChars(KeepStreamChars(s))
  {
    if s != "" { KeptAreStreamChars(s[1..]); }
  }

  /**
   * A stream name carries the ownership prefix, holds only permitted characters, fits, and is never cut by the last
   * slice.
   */
  lemma StreamNameShape(stackId: string, serviceName: string)
    ensures STREAM_PREFIX <= StreamName(stackId, serviceName) && |StreamName(stackId, serviceName)| <= STREAM_NAME_MAX
    ensures StreamChars(StreamName(stackId, serviceName))
    ensures |STREAM_PREFIX + Fnv1a32Hex(stackId + "|" + serviceName) + "-"
      + Slice(KeepStreamChars(serviceName), 12)| <= STREAM_NAME_MAX
  {
    hide KeepStreamChars, Fnv1a32Hex, StreamChars;
    var stack, service, hash := KeepStreamChars(stackId), KeepStreamChars(serviceName),
      Fnv1a32Hex(stackId + "|" + serviceName);
    KeptAreStreamChars(stackId);
    KeptAreStreamChars(serviceName);
    HashIsStreamChars(stackId + "|" + serviceName);
    FixedStreamChars();
    SliceIsStreamChars(service, 12);
    StreamCharsJoin(STREAM_PREFIX, stack);
    StreamCharsJoin(STREAM_PREFIX + stack, "-");
    StreamCharsJoin(STREAM_PREFIX + stack + "-", service);
    StreamCharsJoin(STREAM_PREFIX, hash);
    StreamCharsJoin(STREAM_PREFIX + hash, "-");
    StreamCharsJoin(STREAM_PREFIX + hash + "-", Slice(service, 12));
  }

  lemma StreamCharsJoin(a: string, b: string)
    requires StreamChars(a) && StreamChars(b)
    ensures StreamChars(a + b)
  {
  }

  lemma FixedStreamChars()
    ensures StreamChars(STREAM_PREFIX) && StreamChars("-")
  {
  }

  lemma SliceIsStreamChars(s: string, length: nat)
    requires StreamChars(s)
    ensures StreamChars(Slice(s, length))
  {
  }

  lemma HashIsStreamChars(input: string)
    ensures StreamChars(Fnv1a32Hex(input)) && |Fnv1a32Hex(input)| == 8
  {
    HashShape(input);
    hide Fnv1a32Hex;
    var hash := Fnv1a32Hex(input);
    forall i | 0 <= i < |hash| ensures StreamChar(hash[i]) { assert Alphanumeric(hash[i]); }
  }

  lemma {:induction false} KeptAreKept(s: string)
    requires StreamChars(s)
    ensures KeepStreamChars(s) == s
  {
    if s != "" { KeptAreKept(s[1..]); }
  }

  /** Whether the name of a pair is spelled out, not hashed. */
  predicate Spelled(stackId: string, serviceName: string) {
    |KeepStreamChars(stackId)| + |KeepStreamChars(serviceName)| <= 20
  }

  function PairHash(stackId: string, serviceName: string): string { Fnv1a32Hex(stackId + "|" + serviceName) }

  /** What a name holds on either side of the hyphen that its maker puts in. */
  function Halves(stackId: string, serviceName: string): (string, string) {
    if Spelled(stackId, serviceName) then (KeepStreamChars(stackId), KeepStreamChars(serviceName))
    else (PairHash(stackId, serviceName), Slice(KeepStreamChars(serviceName), 12))
  }

  function Joined(halves: (string, string)): string { halves.0 + "-" + halves.1 }

  lemma NameJoinsHalves(stackId: string, serviceName: string)
    ensures StreamName(stackId, serviceName) == STREAM_PREFIX + Joined(Halves(stackId, serviceName))
  {
    hide KeepStreamChars, Fnv1a32Hex;
    HashShape(stackId + "|" + serviceName);
    var service := KeepStreamChars(serviceName);
    assert STREAM_PREFIX + KeepStreamChars(stackId) + "-" + service
      == STREAM_PREFIX + (KeepStreamChars(stackId) + "-" + service);
    var hash := PairHash(stackId, serviceName);
    assert STREAM_PREFIX + hash + "-" + Slice(service, 12) == STREAM_PREFIX + (hash + "-" + Slice(service, 12));
  }

  /**
   * When two pairs share a stream name: spelled-out pairs exactly if their hyphen joins agree, hashed pairs exactly if
   * both the hash and the readable rest do, and a spelled-out and a hashed one exactly if the first spells the second.
   */
  lemma StreamNamesCollideIff(a: string, b: string, c: string, d: string)
    ensures StreamName(a, b) == StreamName(c, d) <==> Joined(Halves(a, b)) == Joined(Halves(c, d))
    ensures !Spelled(a, b) && !Spelled(c, d) ==>
      (StreamName(a, b) == StreamName(c, d) <==>
        PairHash(a, b) == PairHash(c, d) && Slice(KeepStreamChars(b), 12) == Slice(KeepStreamChars(d), 12))
  {
    hide KeepStreamChars, StreamName, PairHash, Halves;
    NameJoinsHalves(a, b);
    NameJoinsHalves(c, d);
    var left, right := Joined(Halves(a, b)), Joined(Halves(c, d));
    assert (STREAM_PREFIX + left)[|STREAM_PREFIX|..] == left && (STREAM_PREFIX + right)[|STREAM_PREFIX|..] == right;
    if !Spelled(a, b) && !Spelled(c, d) { HashedHalves(a, b, c, d); }
  }

  lemma HashedHalves(a: string, b: string, c: string, d: string)
    requires !Spelled(a, b) && !Spelled(c, d)
    ensures Joined(Halves(a, b)) == Joined(Halves(c, d)) <==>
      PairHash(a, b) == PairHash(c, d) && Slice(KeepStreamChars(b), 12) == Slice(KeepStreamChars(d), 12)
  {
    hide KeepStreamChars, Fnv1a32Hex, Slice;
    HashShape(a + "|" + b);
    HashShape(c + "|" + d);
    var x, y, u, v := PairHash(a, b), Slice(KeepStreamChars(b), 12), PairHash(c, d), Slice(KeepStreamChars(d), 12);
    var s, t := x + "-" + y, u + "-" + v;
    assert s[..8] == x && s[9..] == y && t[..8] == u && t[9..] == v;
  }

  /** Every hashed name is also the name of a different pair, one that is spelled out. */
  lemma HashedNameIsShared(a: string, b: string)
    requires !Spelled(a, b)
    ensures var stack, service := PairHash(a, b), Slice(KeepStreamChars(b), 12);
      StreamName(a, b) == StreamName(stack, service) && Spelled(stack, service) && (a, b) != (stack, service)
  {
    var stack, service := PairHash(a, b), Slice(KeepStreamChars(b), 12);
    HashShape(a + "|" + b);
    KeptAreStreamChars(b);
    assert StreamChars(stack) by { assert forall i | 0 <= i < |stack| :: Alphanumeric(stack[i]); }
    hide KeepStreamChars, Fnv1a32Hex, StreamName;
    KeptAreKept(stack);
    KeptAreKept(service);
    NameJoinsHalves(a, b);
    NameJoinsHalves(stack, service);
  }

  /** Spelled-out names are shared too. */
  lemma DistinctPairsCanCollide()
    ensures StreamName("a", "b-c") == StreamName("a-b", "c")
  {
    assert KeepStreamChars("b-c") == "b-c" && KeepStreamChars("a-b") == "a-b";
    StreamNamesCollideIff("a", "b-c", "a-b", "c");
  }
}
