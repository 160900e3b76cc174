/** `packages.py`: versions and version ranges, which are expanded to text and parsed again. */
module Packages {
  import opened Common

  datatype Result<T> = Ok(value: T) | Invalid

  datatype Version = Version(major: nat, minor: nat, patch: nat)

  // ---------- Numbers ----------

  predicate IsDigit(c: char) {
    '0' <= c <= '9'
  }

  function DigitValue(c: char): nat
    requires IsDigit(c)
  {
    c as int - '0' as int
  }

  function DigitChar(d: nat): (c: char)
    requires d < 10
    ensures IsDigit(c) && DigitValue(c) == d
  {
    '0' + d as char
  }

  predicate AllDigits(s: string) {
    forall i | 0 <= i < |s| :: IsDigit(s[i])
  }

  /** `int(s)`; leading zeros are allowed. */
  function Value(s: string): nat
    requires AllDigits(s)
  {
    if s == "" then 0 else 10 * Value(s[..|s| - 1]) + DigitValue(s[|s| - 1])
  }

  /** `str(n)` */
  function Print(n: nat): (s: string)
    ensures s != "" && AllDigits(s)
  {
    if n < 10 then [DigitChar(n)] else Print(n / 10) + [DigitChar(n % 10)]
  }

  lemma {:induction false} ValueOfPrint(n: nat)
    ensures Value(Print(n)) == n
  {
    if n < 10 {
      assert Print(n)[..0] == "";
    } else {
      ValueOfPrint(n / 10);
      assert Print(n)[..|Print(n)| - 1] == Print(n / 10);
    }
  }

  /** Length of the longest prefix of digits. */
  function Span(s: string): (k: nat)
    ensures k <= |s| && AllDigits(s[..k]) && (k < |s| ==> !IsDigit(s[k]))
  {
    if s == "" || !IsDigit(s[0]) then 0
    else
      var k := Span(s[1..]);
      assert s[..k + 1] == [s[0]] + s[1..][..k];
      k + 1
  }

  lemma {:induction false} SpanOfPrefix(d: string, rest: string)
    requires AllDigits(d) && (rest == "" || !IsDigit(rest[0]))
    ensures Span(d + rest) == |d|
  {
    if d == "" {
      assert d + rest == rest;
    } else {
      assert (d + rest)[1..] == d[1..] + rest;
      SpanOfPrefix(d[1..], rest);
    }
  }

  // ---------- parse_version ----------

  /** A non-empty run of digits and what follows it. */
  function Number(s: string): Option<(nat, string)> {
    var k := Span(s);
    if k == 0 then None else Some((Value(s[..k]), s[k..]))
  }

  /** The same, followed by a dot, which is dropped. */
  function NumberDot(s: string): Option<(nat, string)> {
    match Number(s)
    case None => None
    case Some((n, rest)) => if rest != "" && rest[0] == '.' then Some((n, rest[1..])) else None
  }

  /** `\d+\.\d+\.\d+` at the start of the text, and the rest of it. */
  function Core(s: string): Option<(Version, string)> {
    match NumberDot(s)
    case None => None
    case Some((major, s1)) =>
      match NumberDot(s1)
      case None => None
      case Some((minor, s2)) =>
        match Number(s2)
        case None => None
        case Some((patch, rest)) => Some((Version(major, minor, patch), rest))
  }

  /** `(?:[-+].*)?$` */
  predicate SuffixOk(rest: string) {
    rest == "" || ((rest[0] == '-' || rest[0] == '+') && '\n' !in rest)
  }

  predicate IsSpace(c: char) {
    c == ' ' || c == '\t' || c == '\n' || c == '\r' || c == '\U{0b}' || c == '\U{0c}'
  }

  function StripLeft(s: string): string {
    if s != "" && IsSpace(s[0]) then StripLeft(s[1..]) else s
  }

  function StripRight(s: string): string {
    if s != "" && IsSpace(s[|s| - 1]) then StripRight(s[..|s| - 1]) else s
  }

  function Strip(s: string): string {
    StripRight(StripLeft(s))
  }

  function MatchVersion(s: string): Option<Version> {
    match Core(s)
    case None => None
    case Some((v, rest)) => if SuffixOk(rest) then Some(v) else None
  }

  function ParseVersion(s: string): Result<Version> {
    match MatchVersion(Strip(s))
    case None => Invalid
    case Some(v) => Ok(v)
  }

  /** Exactly `x.y.z`, with nothing around it. */
  predicate Plain(s: string) {
    Core(s).Some? && Core(s).value.1 == ""
  }

  function PlainVersion(s: string): Version
    requires Plain(s)
  {
    Core(s).value.0
  }

  function PrintVersion(v: Version): string {
    Print(v.major) + ("." + (Print(v.minor) + ("." + Print(v.patch))))
  }

  lemma {:induction false} NumberOfPrint(n: nat, rest: string)
    requires rest == "" || !IsDigit(rest[0])
    ensures Number(Print(n) + rest) == Some((n, rest))
  {
    SpanOfPrefix(Print(n), rest);
    ValueOfPrint(n);
    assert (Print(n) + rest)[..|Print(n)|] == Print(n);
    assert (Print(n) + rest)[|Print(n)|..] == rest;
  }

  lemma {:induction false} NumberDotOfPrint(n: nat, rest: string)
    ensures NumberDot(Print(n) + ("." + rest)) == Some((n, rest))
  {
    NumberOfPrint(n, "." + rest);
    assert ("." + rest)[1..] == rest;
  }

  /** Printing a version and parsing it gives it back. */
  lemma {:induction false} CoreOfPrint(v: Version)
    ensures Core(PrintVersion(v)) == Some((v, ""))
  {
    NumberDotOfPrint(v.major, Print(v.minor) + ("." + Print(v.patch)));
    NumberDotOfPrint(v.minor, Print(v.patch));
    NumberOfPrint(v.patch, "");
    assert Print(v.patch) + "" == Print(v.patch);
  }

  // ---------- compare_versions ----------

  /** Numeric precedence of major, minor, patch: Semantic Versioning 2.0.0, section 11, with the
      pre-release part ignored. */
  predicate Less(a: Version, b: Version) {
    a.major < b.major || (a.major == b.major && (a.minor < b.minor || (a.minor == b.minor && a.patch < b.patch)))
  }

  function Compare(a: Version, b: Version): int {
    if Less(a, b) then -1 else if Less(b, a) then 1 else 0
  }

  function CompareVersions(a: string, b: string): Result<int> {
    match ParseVersion(a)
    case Invalid => Invalid
    case Ok(x) =>
      match ParseVersion(b)
      case Invalid => Invalid
      case Ok(y) => Ok(Compare(x, y))
  }

  // ---------- Constraints ----------

  datatype Op = EQ | NE | GT | LT | GE | LE

  datatype Check = Check(op: Op, text: string)

  function OpText(op: Op): string {
    match op
    case EQ => "=="
    case NE => "!="
    case GT => ">"
    case LT => "<"
    case GE => ">="
    case LE => "<="
  }

  predicate StartsWith(s: string, p: string) {
    |s| >= |p| && s[..|p|] == p
  }

  /** The optional operator of a token and what follows it. */
  function SplitOp(s: string): (Option<Op>, string) {
    if StartsWith(s, ">=") then (Some(GE), s[2..])
    else if StartsWith(s, "<=") then (Some(LE), s[2..])
    else if StartsWith(s, "==") then (Some(EQ), s[2..])
    else if StartsWith(s, "!=") then (Some(NE), s[2..])
    else if StartsWith(s, ">") then (Some(GT), s[1..])
    else if StartsWith(s, "<") then (Some(LT), s[1..])
    else (None, s)
  }

  /** An operator with a plain version, or a bare version, which may carry a suffix. */
  function ParseToken(s: string): Result<Check> {
    var (op, v) := SplitOp(s);
    if Plain(v) then Ok(Check(if op.Some? then op.value else EQ, v))
    else if MatchVersion(s).Some? then Ok(Check(EQ, s))
    else Invalid
  }

  predicate IsSep(c: char) {
    c == ',' || IsSpace(c)
  }

  predicate NoSep(s: string) {
    forall i | 0 <= i < |s| :: !IsSep(s[i])
  }

  function TokenEnd(s: string): (k: nat)
    ensures k <= |s| && NoSep(s[..k]) && (k < |s| ==> IsSep(s[k]))
    ensures s != "" && !IsSep(s[0]) ==> k > 0
  {
    if s == "" || IsSep(s[0]) then 0
    else
      var k := TokenEnd(s[1..]);
      assert s[..k + 1] == [s[0]] + s[1..][..k];
      k + 1
  }

  /** The non-empty parts of `re.split(r"[,\s]+", s)`. */
  function Tokens(s: string): seq<string>
    decreases |s|
  {
    if s == "" then []
    else if IsSep(s[0]) then Tokens(s[1..])
    else [s[..TokenEnd(s)]] + Tokens(s[TokenEnd(s)..])
  }

  function CaretUpper(v: Version): Version {
    if v.major > 0 then Version(v.major + 1, 0, 0)
    else if v.minor > 0 then Version(0, v.minor + 1, 0)
    else Version(0, 0, v.patch + 1)
  }

  /** The text `>=v,<upper`; the lower bound keeps the text it was given. */
  function ExpandCaret(s: string): Result<string> {
    match ParseVersion(s)
    case Invalid => Invalid
    case Ok(v) => Ok(">=" + s + "," + "<" + PrintVersion(CaretUpper(v)))
  }

  function ExpandTilde(s: string): Result<string> {
    match ParseVersion(s)
    case Invalid => Invalid
    case Ok(v) => Ok(">=" + PrintVersion(v) + "," + "<" + PrintVersion(Version(v.major, v.minor + 1, 0)))
  }

  /** The constraint text after expanding a leading `^` or `~`. */
  function ExpandRange(expr: string): Result<string> {
    if StartsWith(expr, "^") then ExpandCaret(Strip(expr[1..]))
    else if StartsWith(expr, "~") then ExpandTilde(Strip(expr[1..]))
    else Ok(expr)
  }

  /** All tokens, or the first error. */
  function ParseTokens(tokens: seq<string>): Result<seq<Check>> {
    if tokens == [] then Ok([])
    else
      match ParseToken(tokens[0])
      case Invalid => Invalid
      case Ok(c) =>
        match ParseTokens(tokens[1..])
        case Invalid => Invalid
        case Ok(cs) => Ok([c] + cs)
  }

  function Parsed(expr: string): Result<seq<Check>> {
    match ExpandRange(Strip(expr))
    case Invalid => Invalid
    case Ok(text) => ParseTokens(Tokens(text))
  }

  method ParseParts(parts: seq<string>) returns (r: Result<seq<Check>>)
    ensures r == ParseTokens(parts)
  {
    var out: seq<Check> := [];
    PrefixedStart(parts);
    for i := 0 to |parts|
      invariant ParseTokens(parts) == Prefixed(out, ParseTokens(parts[i..]))
    {
      assert parts[i..][0] == parts[i] && parts[i..][1..] == parts[i + 1..];
      match ParseToken(parts[i]) {
        case Invalid => return Invalid;
        case Ok(c) =>
          PrefixedMore(out, c, ParseTokens(parts[i + 1..]));
          out := out + [c];
      }
    }
    PrefixedEnd(parts, out);
    return Ok(out);
  }

  method ParseConstraints(expr: string) returns (r: Result<seq<Check>>)
    ensures r == Parsed(expr)
  {
    var text := Strip(expr);
    if text == "" {
      return Ok([]);
    }
    match ExpandRange(text)
    case Invalid => return Invalid;
    case Ok(expanded) => r := ParseParts(Tokens(expanded));
  }

  function Prefixed(out: seq<Check>, rest: Result<seq<Check>>): Result<seq<Check>> {
    match rest
    case Invalid => Invalid
    case Ok(cs) => Ok(out + cs)
  }

  lemma {:induction false} PrefixedStart(parts: seq<string>)
    ensures ParseTokens(parts) == Prefixed([], ParseTokens(parts[0..]))
  {
    assert parts[0..] == parts;
    if ParseTokens(parts).Ok? { assert [] + ParseTokens(parts).value == ParseTokens(parts).value; }
  }

  lemma {:induction false} PrefixedEnd(parts: seq<string>, out: seq<Check>)
    ensures Prefixed(out, ParseTokens(parts[|parts|..])) == Ok(out)
  {
    assert parts[|parts|..] == [] && out + [] == out;
  }

  lemma {:induction false} PrefixedMore(out: seq<Check>, c: Check, rest: Result<seq<Check>>)
    ensures Prefixed(out, Prefixed([c], rest)) == Prefixed(out + [c], rest)
  {
    if rest.Ok? { assert out + ([c] + rest.value) == out + [c] + rest.value; }
  }

  // ---------- version_satisfies ----------

  predicate Passes(op: Op, cmp: int) {
    match op
    case EQ => cmp == 0
    case NE => cmp != 0
    case GT => cmp > 0
    case LT => cmp < 0
    case GE => cmp >= 0
    case LE => cmp <= 0
  }

  /** Checks are made in order; the first failing one decides, an unreadable version raises. */
  function AllPass(actual: string, checks: seq<Check>): Result<bool> {
    if checks == [] then Ok(true)
    else
      match CompareVersions(actual, checks[0].text)
      case Invalid => Invalid
      case Ok(cmp) => if Passes(checks[0].op, cmp) then AllPass(actual, checks[1..]) else Ok(false)
  }

  function Satisfies(actual: string, constraint: string): Result<bool> {
    match Parsed(constraint)
    case Invalid => Invalid
    case Ok(checks) => AllPass(actual, checks)
  }

  /** No constraint (`None`) is the empty one: both are always satisfied. */
  method VersionSatisfies(actual: string, constraint: Option<string>) returns (r: Result<bool>)
    ensures constraint == None ==> r == Ok(true)
    ensures constraint.Some? ==> r == Satisfies(actual, constraint.value)
  {
    if constraint == None || constraint.value == "" {
      return Ok(true);
    }
    var parsed := ParseConstraints(constraint.value);
    match parsed
    case Invalid => return Invalid;
    case Ok(checks) =>
      for i := 0 to |checks|
        invariant AllPass(actual, checks) == AllPass(actual, checks[i..])
      {
        assert checks[i..][0] == checks[i] && checks[i..][1..] == checks[i + 1..];
        match CompareVersions(actual, checks[i].text) {
          case Invalid => return Invalid;
          case Ok(cmp) =>
            if !Passes(checks[i].op, cmp) {
              return Ok(false);
            }
        }
      }
      return Ok(true);
  }

  // ---------- Ranges through text ----------

  ghost predicate PlainChecks(checks: seq<Check>) {
    forall i | 0 <= i < |checks| :: Plain(checks[i].text)
  }

  /** Commas and white space, at least one of them. */
  ghost predicate Separator(sep: string) {
    sep != "" && forall i | 0 <= i < |sep| :: sep[i] in {',', ' ', '\t', '\n', '\r', '\U{0b}', '\U{0c}'}
  }

  /** Checks as a constraint expression, joined by `sep`. */
  function Render(checks: seq<Check>, sep: string): string {
    if checks == [] then ""
    else if |checks| == 1 then OpText(checks[0].op) + checks[0].text
    else OpText(checks[0].op) + checks[0].text + sep + Render(checks[1..], sep)
  }

  /** A plain version is digits and dots. */
  lemma {:induction false} PlainIsDigitsAndDots(s: string)
    requires Plain(s)
    ensures s != "" && IsDigit(s[0]) && forall i | 0 <= i < |s| :: IsDigit(s[i]) || s[i] == '.'
  {
    var a := Span(s);
    var s1 := s[a..][1..];
    var b := Span(s1);
    var s2 := s1[b..][1..];
    var c := Span(s2);
    assert s2[c..] == "";
    assert s2 == s2[..c];
    assert s1 == s1[..b] + "." + s2;
    assert s == s[..a] + "." + s1;
  }

  lemma {:induction false} PlainIsOneToken(s: string)
    requires Plain(s)
    ensures NoSep(s)
  {
    PlainIsDigitsAndDots(s);
  }

  lemma {:induction false} NoSepConcat(a: string, b: string)
    requires NoSep(a) && NoSep(b)
    ensures NoSep(a + b)
  {
  }

  lemma {:induction false} PlainHasNoSep(op: Op, s: string)
    requires Plain(s)
    ensures NoSep(OpText(op) + s) && OpText(op) + s != ""
  {
    PlainIsOneToken(s);
    NoSepConcat(OpText(op), s);
    assert |OpText(op)| > 0;
  }

  lemma {:induction false} SplitOpOf(op: Op, s: string)
    requires s != "" && IsDigit(s[0])
    ensures SplitOp(OpText(op) + s) == (Some(op), s)
    ensures SplitOp(s) == (None, s)
  {
    var o := OpText(op);
    var t := o + s;
    assert t[..|o|] == o && t[|o|..] == s && t[0] == o[0];
    if |o| == 1 {
      assert t[1] == s[0];
      assert t[..2][1] != '=';
    } else {
      assert t[..2] == o;
    }
  }

  lemma {:induction false} TokenOfPlain(op: Op, s: string)
    requires Plain(s)
    ensures ParseToken(OpText(op) + s) == Ok(Check(op, s))
  {
    PlainIsDigitsAndDots(s);
    SplitOpOf(op, s);
  }

  lemma {:induction false} TokenEndOf(a: string, rest: string)
    requires NoSep(a) && (rest == "" || IsSep(rest[0]))
    ensures TokenEnd(a + rest) == |a|
  {
    if a == "" {
      assert a + rest == rest;
    } else {
      assert (a + rest)[1..] == a[1..] + rest;
      TokenEndOf(a[1..], rest);
    }
  }

  lemma {:induction false} SkipSeparator(sep: string, rest: string)
    requires sep == "" || Separator(sep)
    ensures Tokens(sep + rest) == Tokens(rest)
    decreases |sep|
  {
    if sep == "" {
      assert sep + rest == rest;
    } else {
      assert sep[0] in {',', ' ', '\t', '\n', '\r', '\U{0b}', '\U{0c}'};
      assert (sep + rest)[1..] == sep[1..] + rest;
      SkipSeparator(sep[1..], rest);
    }
  }

  lemma {:induction false} TokensCons(a: string, sep: string, rest: string)
    requires NoSep(a) && a != "" && Separator(sep)
    ensures Tokens(a) == [a]
    ensures Tokens(a + sep + rest) == [a] + Tokens(rest)
  {
    TokenEndOf(a, "");
    assert a + "" == a && a[..|a|] == a && a[|a|..] == "";
    var s := a + (sep + rest);
    assert (sep + rest)[0] == sep[0] && sep[0] in {',', ' ', '\t', '\n', '\r', '\U{0b}', '\U{0c}'};
    TokenEndOf(a, sep + rest);
    assert s == a + sep + rest;
    assert s[..|a|] == a && s[|a|..] == sep + rest;
    assert s[0] == a[0];
    SkipSeparator(sep, rest);
  }

  lemma {:induction false} ParseTokensCons(token: string, c: Check, tokens: seq<string>, cs: seq<Check>)
    requires ParseToken(token) == Ok(c) && ParseTokens(tokens) == Ok(cs)
    ensures ParseTokens([token] + tokens) == Ok([c] + cs)
  {
    assert ([token] + tokens)[1..] == tokens;
  }

  /** Rendering plain checks and parsing the text gives the checks back. */
  lemma {:induction false} RenderRoundTrip(checks: seq<Check>, sep: string)
    requires PlainChecks(checks) && Separator(sep)
    ensures ParseTokens(Tokens(Render(checks, sep))) == Ok(checks)
  {
    if checks != [] {
      RenderRoundTrip(checks[1..], sep);
      RenderStep(checks, sep);
    }
  }

  lemma {:induction false} RenderTokens(checks: seq<Check>, sep: string)
    requires checks != [] && Plain(checks[0].text) && Separator(sep)
    ensures Tokens(Render(checks, sep)) == [OpText(checks[0].op) + checks[0].text] + Tokens(Render(checks[1..], sep))
  {
    var token := OpText(checks[0].op) + checks[0].text;
    PlainHasNoSep(checks[0].op, checks[0].text);
    TokensCons(token, sep, Render(checks[1..], sep));
    if |checks| == 1 {
      assert Render(checks, sep) == token && Render(checks[1..], sep) == "";
    } else {
      assert Render(checks, sep) == token + sep + Render(checks[1..], sep);
    }
  }

  lemma {:induction false} RenderStep(checks: seq<Check>, sep: string)
    requires checks != [] && Plain(checks[0].text) && Separator(sep)
    requires ParseTokens(Tokens(Render(checks[1..], sep))) == Ok(checks[1..])
    ensures ParseTokens(Tokens(Render(checks, sep))) == Ok(checks)
  {
    var head, rest := checks[0], checks[1..];
    RenderTokens(checks, sep);
    TokenOfPlain(head.op, head.text);
    ParseTokensCons(OpText(head.op) + head.text, head, Tokens(Render(rest, sep)), rest);
    assert checks == [head] + rest;
  }

  // ---------- What an operator means ----------

  /** `a` stands in the relation to `v`. */
  ghost predicate Relates(op: Op, a: Version, v: Version) {
    match op
    case EQ => a == v
    case NE => a != v
    case GT => Less(v, a)
    case LT => Less(a, v)
    case GE => !Less(a, v)
    case LE => !Less(v, a)
  }

  /** Versions compare like the numbers they would be in a base above all their minor and patch parts. */
  lemma {:induction false} LessIsNumeric(a: Version, b: Version, base: nat)
    requires a.minor < base && a.patch < base && b.minor < base && b.patch < base
    ensures Less(a, b) <==>
            (a.major * base + a.minor) * base + a.patch < (b.major * base + b.minor) * base + b.patch
  {
    DigitsCompare(a.major, a.minor, b.major, b.minor, base);
    DigitsCompare(a.major * base + a.minor, a.patch, b.major * base + b.minor, b.patch, base);
  }

  lemma {:induction false} DigitsCompare(x: nat, p: nat, y: nat, q: nat, base: nat)
    requires p < base && q < base
    ensures x * base + p < y * base + q <==> x < y || (x == y && p < q)
    ensures x * base + p == y * base + q <==> x == y && p == q
  {
    if x < y { DigitAbove(x, y, base); }
    if y < x { DigitAbove(y, x, base); }
  }

  lemma {:induction false} DigitAbove(x: nat, y: nat, base: nat)
    requires x < y
    ensures x * base + base <= y * base
  {
    assert y * base == (y - 1) * base + base;
    if x < y - 1 { DigitAbove(x, y - 1, base); }
  }

  lemma {:induction false} ComparePasses(op: Op, a: Version, v: Version)
    ensures Passes(op, Compare(a, v)) <==> Relates(op, a, v)
    ensures -1 <= Compare(a, v) <= 1
  {
  }

  ghost predicate Holds(a: Version, c: Check) {
    Plain(c.text) && Relates(c.op, a, PlainVersion(c.text))
  }

  ghost predicate AllHold(a: Version, checks: seq<Check>) {
    checks == [] || (Holds(a, checks[0]) && AllHold(a, checks[1..]))
  }

  lemma {:induction false} AllPassIffAllHold(actual: string, a: Version, checks: seq<Check>)
    requires ParseVersion(actual) == Ok(a) && PlainChecks(checks)
    ensures AllPass(actual, checks) == Ok(AllHold(a, checks))
  {
    if checks != [] {
      var c, rest := checks[0], checks[1..];
      AllPassIffAllHold(actual, a, rest);
      AllPassCons(actual, c, rest);
      PlainCompares(actual, a, c.text);
      ComparePasses(c.op, a, PlainVersion(c.text));
      AllHoldCons(a, c, rest);
      assert checks == [c] + rest;
    }
  }

  lemma {:induction false} AllHoldCons(a: Version, c: Check, rest: seq<Check>)
    ensures AllHold(a, [c] + rest) <==> Holds(a, c) && AllHold(a, rest)
  {
    assert ([c] + rest)[1..] == rest;
  }

  /** The text does not start like a range, and there is nothing to strip. */
  ghost predicate Bare(text: string) {
    text != "" && text[0] != '^' && text[0] != '~' && !IsSpace(text[0]) && !IsSpace(text[|text| - 1])
  }

  lemma {:induction false} BareIsKept(text: string)
    requires Bare(text)
    ensures Strip(text) == text && ExpandRange(text) == Ok(text)
  {
  }

  lemma {:induction false} BareConcat(a: string, b: string, c: string)
    requires a != "" && b != "" && Bare([a[0]]) && !IsSpace(b[|b| - 1]) && (c == "" || !IsSpace(c[|c| - 1]))
    ensures Bare(a + b + c)
  {
    var text := a + b + c;
    assert text[0] == a[0] == [a[0]][0];
    if c == "" { assert text[|text| - 1] == b[|b| - 1]; } else { assert text[|text| - 1] == c[|c| - 1]; }
  }

  lemma {:induction false} TokenIsBare(op: Op, s: string, more: string)
    requires Plain(s) && (more == "" || !IsSpace(more[|more| - 1]))
    ensures Bare(OpText(op) + s + more)
  {
    PlainIsDigitsAndDots(s);
    assert !IsSpace(s[|s| - 1]);
    assert Bare([OpText(op)[0]]);
    BareConcat(OpText(op), s, more);
  }

  lemma {:induction false} RenderCons(checks: seq<Check>, sep: string)
    requires checks != []
    ensures var more := if |checks| == 1 then "" else sep + Render(checks[1..], sep);
            Render(checks, sep) == OpText(checks[0].op) + checks[0].text + more
  {
    var token := OpText(checks[0].op) + checks[0].text;
    if |checks| == 1 {
      assert token + "" == token;
    } else {
      assert token + (sep + Render(checks[1..], sep)) == token + sep + Render(checks[1..], sep);
    }
  }

  lemma {:induction false} RenderIsBare(checks: seq<Check>, sep: string)
    requires PlainChecks(checks) && checks != []
    ensures Bare(Render(checks, sep))
  {
    RenderCons(checks, sep);
    if |checks| == 1 {
      TokenIsBare(checks[0].op, checks[0].text, "");
    } else {
      RenderIsBare(checks[1..], sep);
      EndsLike(sep, Render(checks[1..], sep));
      TokenIsBare(checks[0].op, checks[0].text, sep + Render(checks[1..], sep));
    }
  }

  lemma {:induction false} EndsLike(a: string, b: string)
    requires b != ""
    ensures (a + b)[|a + b| - 1] == b[|b| - 1]
  {
  }

  /** Plain checks joined by commas or white space are satisfied iff the version stands in every one of the
      relations: the whole way from the text to the answer. */
  lemma {:induction false} PlainConstraintIsExact(actual: string, a: Version, expr: string, checks: seq<Check>,
                                                  sep: string)
    requires ParseVersion(actual) == Ok(a) && PlainChecks(checks) && Separator(sep)
    requires Strip(expr) == Render(checks, sep)
    ensures Satisfies(actual, expr) == Ok(AllHold(a, checks))
  {
    var text := Render(checks, sep);
    if checks != [] { RenderIsBare(checks, sep); }
    assert ExpandRange(text) == Ok(text) by { if checks != [] { BareIsKept(text); } }
    RenderRoundTrip(checks, sep);
    AllPassIffAllHold(actual, a, checks);
  }

  /** How the operators are written; without one, equality is meant. */
  ghost predicate Written(op: Op, sign: string) {
    match op
    case EQ => sign == "==" || sign == ""
    case NE => sign == "!="
    case GT => sign == ">"
    case LT => sign == "<"
    case GE => sign == ">="
    case LE => sign == "<="
  }

  /** One operator and a plain version. */
  lemma {:induction false} OperatorIsExact(actual: string, a: Version, op: Op, sign: string, s: string)
    requires ParseVersion(actual) == Ok(a) && Plain(s) && Written(op, sign)
    ensures Satisfies(actual, sign + s) == Ok(Relates(op, a, PlainVersion(s)))
  {
    if sign == "" {
      assert sign + s == s;
      StripPlain(s);
      PlainIsOneToken(s);
      BareVersionIsEquality(actual, a, s, PlainVersion(s));
    } else {
      assert sign == OpText(op);
      SignedCheck(actual, a, Check(op, s));
    }
  }

  lemma {:induction false} SignedCheck(actual: string, a: Version, c: Check)
    requires ParseVersion(actual) == Ok(a) && Plain(c.text)
    ensures Satisfies(actual, OpText(c.op) + c.text) == Ok(Relates(c.op, a, PlainVersion(c.text)))
  {
    var checks, text := [c], OpText(c.op) + c.text;
    assert Render(checks, ",") == text;
    RenderIsBare(checks, ",");
    BareIsKept(text);
    PlainConstraintIsExact(actual, a, text, checks, ",");
    AllHoldCons(a, c, []);
    assert [c] + [] == checks;
  }

  /** A bare version asks for equality; a suffix on either side is ignored. */
  lemma {:induction false} BareVersionIsEquality(actual: string, a: Version, s: string, v: Version)
    requires ParseVersion(actual) == Ok(a) && ParseVersion(s) == Ok(v) && NoSep(s)
    ensures Satisfies(actual, s) == Ok(a == v)
  {
    BareVersionParses(s);
    AllPassCons(actual, Check(EQ, s), []);
    assert [Check(EQ, s)] + [] == [Check(EQ, s)];
    ComparePasses(EQ, a, v);
  }

  lemma {:induction false} BareVersionParses(s: string)
    requires ParseVersion(s).Ok? && NoSep(s)
    ensures Parsed(s) == Ok([Check(EQ, s)])
  {
    assert s != "" by { if s == "" { NoVersionInNothing(); } }
    assert !IsSpace(s[0]) && !IsSpace(s[|s| - 1]);
    assert Strip(s) == s;
    assert IsDigit(s[0]) by { if !IsDigit(s[0]) { NoVersionWithoutDigit(s); } }
    BareIsKept(s);
    BareTokenParses(s);
    TokensCons(s, ",", "");
    ParseTokensCons(s, Check(EQ, s), [], []);
    assert [s] + [] == [s] && [Check(EQ, s)] + [] == [Check(EQ, s)];
  }

  lemma {:induction false} BareTokenParses(s: string)
    requires s != "" && IsDigit(s[0]) && MatchVersion(s).Some?
    ensures ParseToken(s) == Ok(Check(EQ, s))
  {
    SplitOpOf(EQ, s);
  }

  lemma {:induction false} NoVersionInNothing()
    ensures ParseVersion("") == Invalid
  {
    assert Span("") == 0;
  }

  /** An unreadable version raises as soon as there is anything to check. */
  lemma {:induction false} UnreadableVersionRaises(actual: string, expr: string, checks: seq<Check>)
    requires ParseVersion(actual) == Invalid && Parsed(expr) == Ok(checks)
    ensures Satisfies(actual, expr) == if checks == [] then Ok(true) else Invalid
  {
  }

  // ---------- Which texts are versions ----------

  ghost predicate Blank(s: string) {
    forall i | 0 <= i < |s| :: s[i] in {' ', '\t', '\n', '\r', '\U{0b}', '\U{0c}'}
  }

  lemma {:induction false} StripLeftPads(l: string, s: string)
    requires Blank(l) && (s == "" || s[0] !in {' ', '\t', '\n', '\r', '\U{0b}', '\U{0c}'})
    ensures StripLeft(l + s) == s
  {
    if l == "" {
      assert l + s == s;
    } else {
      assert (l + s)[1..] == l[1..] + s && (l + s)[0] == l[0];
      StripLeftPads(l[1..], s);
    }
  }

  lemma {:induction false} StripRightPads(s: string, r: string)
    requires Blank(r) && (s == "" || s[|s| - 1] !in {' ', '\t', '\n', '\r', '\U{0b}', '\U{0c}'})
    ensures StripRight(s + r) == s
  {
    if r == "" {
      assert s + r == s;
    } else {
      var t := s + r;
      assert t[..|t| - 1] == s + r[..|r| - 1] && t[|t| - 1] == r[|r| - 1];
      StripRightPads(s, r[..|r| - 1]);
    }
  }

  /** White space around a text is dropped, and nothing else. */
  lemma {:induction false} StripIsExact(l: string, s: string, r: string)
    requires Blank(l) && Blank(r)
    requires s != "" ==> Blank([s[0]]) == Blank([s[|s| - 1]]) == false
    ensures Strip(l + s + r) == s
  {
    if s == "" {
      assert l + s + r == (l + r) + "";
      StripLeftPads(l + r, "");
    } else {
      assert [s[0]][0] == s[0] && [s[|s| - 1]][0] == s[|s| - 1];
      assert l + s + r == l + (s + r) && (s + r)[0] == s[0];
      StripLeftPads(l, s + r);
      StripRightPads(s, r);
    }
  }

  /** A text is a version iff, white space around it aside, it is three numbers with dots between them, and
      nothing or a sign and the rest of the line after them; it has these three numbers. */
  lemma {:induction false} VersionReadableIff(s: string, v: Version)
    ensures ParseVersion(s) == Ok(v) <==> exists a, b, c, rest ::
              NumberText(a, v.major) && NumberText(b, v.minor) && NumberText(c, v.patch) &&
              Strip(s) == Dotted(a, b, c) + rest && (rest == "" || rest[0] == '-' || rest[0] == '+') && '\n' !in rest
  {
    if ParseVersion(s) == Ok(v) { var a, b, c, rest := VersionPieces(s, v); }
    if a, b, c, rest :|
      NumberText(a, v.major) && NumberText(b, v.minor) && NumberText(c, v.patch) &&
      Strip(s) == Dotted(a, b, c) + rest && (rest == "" || rest[0] == '-' || rest[0] == '+') && '\n' !in rest
    {
      CoreOfDotted(a, b, c, rest);
    }
  }

  lemma {:induction false} VersionPieces(s: string, v: Version) returns (a: string, b: string, c: string, rest: string)
    requires ParseVersion(s) == Ok(v)
    ensures NumberText(a, v.major) && NumberText(b, v.minor) && NumberText(c, v.patch)
    ensures Strip(s) == Dotted(a, b, c) + rest && (rest == "" || rest[0] == '-' || rest[0] == '+') && '\n' !in rest
  {
    a, b, c, rest := CorePieces(Strip(s));
  }

  /** Decimal digits that read `n`. */
  ghost predicate NumberText(s: string, n: nat) {
    s != "" && AllDigits(s) && Value(s) == n
  }

  /** Digits count from '0' and weigh ten times as much one place further left; leading zeros do not matter. */
  lemma {:induction false} ValueIsDecimal(s: string, c: char)
    requires AllDigits(s) && c in "0123456789"
    ensures AllDigits(s + [c]) && Value(s + [c]) == 10 * Value(s) + (c as int - '0' as int)
    ensures AllDigits("0" + s) && Value("0" + s) == Value(s)
  {
    var t := s + [c];
    assert t[..|t| - 1] == s;
    if s == "" {
      assert "0" + s == "0" && "0"[..0] == "";
    } else {
      ValueIsDecimal(s[..|s| - 1], s[|s| - 1]);
      assert ("0" + s)[..|s|] == "0" + s[..|s| - 1];
    }
  }

  // ---------- Caret and tilde ----------

  /** At least `v`, and equal to it up to and including its first non-zero component. */
  predicate CaretHolds(a: Version, v: Version) {
    !Less(a, v) &&
    (if v.major > 0 then a.major == v.major
     else if v.minor > 0 then a.major == 0 && a.minor == v.minor
     else a == v)
  }

  /** Same major and minor, patch at least `v`'s. */
  predicate TildeHolds(a: Version, v: Version) {
    a.major == v.major && a.minor == v.minor && a.patch >= v.patch
  }

  lemma {:induction false} StripPlain(s: string)
    requires Plain(s)
    ensures Strip(s) == s && ParseVersion(s) == Ok(PlainVersion(s))
  {
    PlainIsDigitsAndDots(s);
    assert !IsSpace(s[0]) && !IsSpace(s[|s| - 1]);
  }

  lemma {:induction false} PrintIsPlain(v: Version)
    ensures Plain(PrintVersion(v)) && PlainVersion(PrintVersion(v)) == v
  {
    CoreOfPrint(v);
  }

  /** The text of a range, lower bound first, parses to its two checks. */
  lemma {:induction false} RangeParses(low: string, high: string)
    requires Plain(low) && Plain(high)
    ensures ParseTokens(Tokens(">=" + low + "," + "<" + high)) == Ok([Check(GE, low), Check(LT, high)])
  {
    var checks := [Check(GE, low), Check(LT, high)];
    RenderRoundTrip(checks, ",");
    assert checks[1..] == [Check(LT, high)];
    assert Render(checks, ",") == ">=" + low + "," + "<" + high by {
      assert Render(checks[1..], ",") == "<" + high;
      assert ">=" + low + "," + ("<" + high) == ">=" + low + "," + "<" + high;
    }
  }

  lemma {:induction false} PlainCompares(actual: string, a: Version, text: string)
    requires ParseVersion(actual) == Ok(a) && Plain(text)
    ensures CompareVersions(actual, text) == Ok(Compare(a, PlainVersion(text)))
  {
    StripPlain(text);
  }

  /** Both checks pass iff the version lies in the half-open range. */
  lemma {:induction false} RangeDecides(actual: string, a: Version, low: Check, high: Check)
    requires ParseVersion(actual) == Ok(a) && Plain(low.text) && Plain(high.text) && low.op == GE && high.op == LT
    ensures AllPass(actual, [low, high]) ==
            Ok(!Less(a, PlainVersion(low.text)) && Less(a, PlainVersion(high.text)))
  {
    TwoChecks(actual, a, low, high);
  }

  lemma {:induction false} TwoChecks(actual: string, a: Version, c: Check, d: Check)
    requires ParseVersion(actual) == Ok(a) && Plain(c.text) && Plain(d.text)
    ensures AllPass(actual, [c, d]) == Ok(Holds(a, c) && Holds(a, d))
  {
    AllPassIffAllHold(actual, a, [c, d]);
    AllHoldCons(a, c, [d]);
    AllHoldCons(a, d, []);
    assert [c] + [d] == [c, d] && [d] + [] == [d];
  }

  lemma {:induction false} AllPassCons(actual: string, c: Check, rest: seq<Check>)
    ensures AllPass(actual, [c] + rest) ==
            match CompareVersions(actual, c.text)
            case Invalid => Invalid
            case Ok(cmp) => if Passes(c.op, cmp) then AllPass(actual, rest) else Ok(false)
  {
    assert ([c] + rest)[1..] == rest;
  }

  lemma {:induction false} CaretExpands(expr: string, rest: string)
    requires expr == "^" + rest && Plain(Strip(rest))
    ensures ExpandRange(expr) ==
            Ok(">=" + Strip(rest) + "," + "<" + PrintVersion(CaretUpper(PlainVersion(Strip(rest)))))
  {
    assert expr[1..] == rest && expr[..1] == "^";
    StripPlain(Strip(rest));
  }

  lemma {:induction false} TildeExpands(expr: string, rest: string)
    requires expr == "~" + rest && ParseVersion(Strip(rest)).Ok?
    ensures var v := ParseVersion(Strip(rest)).value;
            ExpandRange(expr) ==
            Ok(">=" + PrintVersion(v) + "," + "<" + PrintVersion(Version(v.major, v.minor + 1, 0)))
  {
    assert expr[1..] == rest && expr[..1] == "~";
  }

  /** An expression that expands to a half-open range of plain versions is satisfied by what lies in the range. */
  lemma {:induction false} RangeIsExact(actual: string, a: Version, expr: string, low: string, high: string)
    requires ParseVersion(actual) == Ok(a) && Plain(low) && Plain(high)
    requires ExpandRange(Strip(expr)) == Ok(">=" + low + "," + "<" + high)
    ensures Satisfies(actual, expr) == Ok(!Less(a, PlainVersion(low)) && Less(a, PlainVersion(high)))
  {
    RangeParses(low, high);
    RangeDecides(actual, a, Check(GE, low), Check(LT, high));
  }

  /** `^v` is satisfied exactly by the versions it is meant to admit, through expansion and reparsing. */
  lemma {:induction false} CaretIsExact(actual: string, a: Version, expr: string, rest: string)
    requires ParseVersion(actual) == Ok(a) && Strip(expr) == "^" + rest && Plain(Strip(rest))
    ensures Satisfies(actual, expr) == Ok(CaretHolds(a, PlainVersion(Strip(rest))))
  {
    var low := Strip(rest);
    var upper := CaretUpper(PlainVersion(low));
    CaretExpands(Strip(expr), rest);
    PrintIsPlain(upper);
    RangeIsExact(actual, a, expr, low, PrintVersion(upper));
    BelowCaretUpper(a, PlainVersion(low));
  }

  lemma {:induction false} BelowCaretUpper(a: Version, v: Version)
    ensures CaretHolds(a, v) <==> !Less(a, v) && Less(a, CaretUpper(v))
  {
  }

  /** `~v` is satisfied exactly by the versions it is meant to admit; a suffix of `v` is ignored. */
  lemma {:induction false} TildeIsExact(actual: string, a: Version, expr: string, rest: string, v: Version)
    requires ParseVersion(actual) == Ok(a) && Strip(expr) == "~" + rest && ParseVersion(Strip(rest)) == Ok(v)
    ensures Satisfies(actual, expr) == Ok(TildeHolds(a, v))
  {
    TildeExpands(Strip(expr), rest);
    TildeDecides(actual, a, expr, v);
  }

  lemma {:induction false} TildeDecides(actual: string, a: Version, expr: string, v: Version)
    requires ParseVersion(actual) == Ok(a)
    requires ExpandRange(Strip(expr)) ==
             Ok(">=" + PrintVersion(v) + "," + "<" + PrintVersion(Version(v.major, v.minor + 1, 0)))
    ensures Satisfies(actual, expr) == Ok(TildeHolds(a, v))
  {
    var upper := Version(v.major, v.minor + 1, 0);
    PrintIsPlain(v);
    PrintIsPlain(upper);
    RangeIsExact(actual, a, expr, PrintVersion(v), PrintVersion(upper));
    BelowTildeUpper(a, v);
  }

  lemma {:induction false} BelowTildeUpper(a: Version, v: Version)
    ensures TildeHolds(a, v) <==> !Less(a, v) && Less(a, Version(v.major, v.minor + 1, 0))
  {
  }

  // ---------- A suffix after a caret ----------

  function Dotted(a: string, b: string, c: string): string {
    a + ("." + (b + ("." + c)))
  }

  lemma {:induction false} NumberOf(d: string, rest: string)
    requires d != "" && AllDigits(d) && (rest == "" || !IsDigit(rest[0]))
    ensures Number(d + rest) == Some((Value(d), rest))
  {
    SpanOfPrefix(d, rest);
    assert (d + rest)[..|d|] == d && (d + rest)[|d|..] == rest;
  }

  lemma {:induction false} NumberDotOf(d: string, rest: string)
    requires d != "" && AllDigits(d)
    ensures NumberDot(d + ("." + rest)) == Some((Value(d), rest))
  {
    NumberOf(d, "." + rest);
    assert ("." + rest)[1..] == rest;
  }

  lemma {:induction false} DottedAppend(a: string, b: string, c: string, rest: string)
    ensures Dotted(a, b, c) + rest == a + ("." + (b + ("." + (c + rest))))
  {
    assert a + ("." + (b + ("." + c))) + rest == a + ("." + (b + ("." + c)) + rest);
    assert "." + (b + ("." + c)) + rest == "." + (b + ("." + c) + rest);
    assert b + ("." + c) + rest == b + ("." + c + rest);
    assert "." + c + rest == "." + (c + rest);
  }

  lemma {:induction false} CoreOfDotted(a: string, b: string, c: string, rest: string)
    requires a != "" && AllDigits(a) && b != "" && AllDigits(b) && c != "" && AllDigits(c)
    requires rest == "" || !IsDigit(rest[0])
    ensures Core(Dotted(a, b, c) + rest) == Some((Version(Value(a), Value(b), Value(c)), rest))
  {
    DottedAppend(a, b, c, rest);
    NumberDotOf(a, b + ("." + (c + rest)));
    NumberDotOf(b, c + rest);
    NumberOf(c, rest);
  }

  lemma {:induction false} NumberPieces(s: string) returns (d: string, rest: string)
    requires Number(s).Some?
    ensures s == d + rest && d != "" && AllDigits(d) && Number(s) == Some((Value(d), rest))
    ensures rest == "" || !IsDigit(rest[0])
  {
    d, rest := s[..Span(s)], s[Span(s)..];
  }

  lemma {:induction false} NumberDotPieces(s: string) returns (d: string, rest: string)
    requires NumberDot(s).Some?
    ensures s == d + ("." + rest) && d != "" && AllDigits(d) && NumberDot(s) == Some((Value(d), rest))
  {
    var r;
    d, r := NumberPieces(s);
    rest := r[1..];
    assert r == "." + rest;
  }

  lemma {:induction false} CorePieces(s: string) returns (a: string, b: string, c: string, rest: string)
    requires Core(s).Some?
    ensures a != "" && AllDigits(a) && b != "" && AllDigits(b) && c != "" && AllDigits(c)
    ensures s == Dotted(a, b, c) + rest && Core(s) == Some((Version(Value(a), Value(b), Value(c)), rest))
  {
    var s1, s2;
    a, s1 := NumberDotPieces(s);
    b, s2 := NumberDotPieces(s1);
    c, rest := NumberPieces(s2);
    DottedAppend(a, b, c, rest);
  }

  /** Whatever non-digit text follows `d`, its core is `v`. */
  ghost predicate Cores(d: string, v: Version) {
    forall rest | rest == "" || !IsDigit(rest[0]) :: Core(d + rest) == Some((v, rest))
  }

  /** A text with a version core is a plain version followed by the rest. */
  lemma {:induction false} CoreSplits(s: string) returns (d: string)
    requires Core(s).Some?
    ensures Plain(d) && s == d + Core(s).value.1 && Cores(d, Core(s).value.0)
  {
    var a, b, c, rest := CorePieces(s);
    d := Dotted(a, b, c);
    DottedCores(a, b, c);
  }

  lemma {:induction false} DottedCores(a: string, b: string, c: string)
    requires a != "" && AllDigits(a) && b != "" && AllDigits(b) && c != "" && AllDigits(c)
    ensures Plain(Dotted(a, b, c)) && Cores(Dotted(a, b, c), Version(Value(a), Value(b), Value(c)))
  {
    forall r | r == "" || !IsDigit(r[0])
      ensures Core(Dotted(a, b, c) + r) == Some((Version(Value(a), Value(b), Value(c)), r))
    {
      CoreOfDotted(a, b, c, r);
    }
    CoreOfDotted(a, b, c, "");
    assert Dotted(a, b, c) + "" == Dotted(a, b, c);
  }

  lemma {:induction false} TokenEndAtLeast(a: string, rest: string)
    requires NoSep(a)
    ensures TokenEnd(a + rest) >= |a|
  {
    if a != "" {
      assert (a + rest)[1..] == a[1..] + rest;
      TokenEndAtLeast(a[1..], rest);
    }
  }

  lemma {:induction false} NoVersionWithoutDigit(s: string)
    requires s != "" && !IsDigit(s[0])
    ensures MatchVersion(s) == None
  {
    assert Span(s) == 0;
  }

  lemma {:induction false} SplitGe(v: string)
    ensures SplitOp(">=" + v) == (Some(GE), v)
  {
    assert (">=" + v)[..2] == ">=" && (">=" + v)[2..] == v;
  }

  /** A token that starts with `>=`, a plain version and a sign is not readable. */
  lemma {:induction false} SignedTokenIsInvalid(d: string, v: Version, suffix: string)
    requires Cores(d, v) && suffix != "" && !IsDigit(suffix[0])
    ensures ParseToken(">=" + (d + suffix)) == Invalid
  {
    var t := ">=" + (d + suffix);
    SplitGe(d + suffix);
    assert t[0] == '>';
    NoVersionWithoutDigit(t);
    assert Core(d + suffix) == Some((v, suffix));
  }

  lemma {:induction false} SignedHeadHasNoSep(d: string, sign: char)
    requires Plain(d) && (sign == '-' || sign == '+')
    ensures NoSep(">=" + (d + [sign]))
  {
    PlainHasNoSep(GE, d);
    var head := ">=" + (d + [sign]);
    forall i | 0 <= i < |head| ensures !IsSep(head[i]) {
      if i < |head| - 1 { assert head[i] == (">=" + d)[i]; }
    }
  }

  /** The first token runs at least to the sign. */
  lemma {:induction false} TokenCut(d: string, suffix: string, more: string) returns (cut: string)
    requires Plain(d) && suffix != "" && (suffix[0] == '-' || suffix[0] == '+')
    ensures var s := ">=" + (d + suffix) + more;
            s != "" && !IsSep(s[0]) && s[..TokenEnd(s)] == ">=" + (d + cut) && cut != "" && cut[0] == suffix[0]
  {
    var s := ">=" + (d + suffix) + more;
    var head, tail := ">=" + (d + [suffix[0]]), suffix[1..] + more;
    assert s == head + tail;
    SignedHeadHasNoSep(d, suffix[0]);
    TokenEndAtLeast(head, tail);
    cut := s[2 + |d|..TokenEnd(s)];
    CutAfter(s, d, suffix, more, TokenEnd(s));
    assert head[0] == '>' && s[0] == head[0];
  }

  lemma {:induction false} CutAfter(s: string, d: string, suffix: string, more: string, end: nat)
    requires s == ">=" + (d + suffix) + more && suffix != "" && 2 + |d| < end <= |s|
    ensures s[..end] == ">=" + (d + s[2 + |d|..end]) && s[2 + |d|] == suffix[0]
  {
    var cut := s[2 + |d|..end];
    assert s[..2 + |d|] == ">=" + d;
    assert s[..end] == s[..2 + |d|] + cut;
    assert ">=" + d + cut == ">=" + (d + cut);
  }

  lemma {:induction false} FirstTokenInvalid(d: string, v: Version, suffix: string, more: string)
    requires Plain(d) && Cores(d, v) && suffix != "" && (suffix[0] == '-' || suffix[0] == '+')
    ensures ParseTokens(Tokens(">=" + (d + suffix) + more)) == Invalid
  {
    var s := ">=" + (d + suffix) + more;
    var cut := TokenCut(d, suffix, more);
    SignedTokenIsInvalid(d, v, cut);
    assert Tokens(s)[0] == s[..TokenEnd(s)];
  }

  lemma {:induction false} StripRightKeeps(s: string)
    ensures StripRight(s) == "" || (!IsSpace(StripRight(s)[|StripRight(s)| - 1]) && s != "" && StripRight(s)[0] == s[0])
  {
    if s != "" && IsSpace(s[|s| - 1]) { StripRightKeeps(s[..|s| - 1]); }
  }

  lemma {:induction false} StripLeftStops(s: string)
    ensures StripLeft(s) == "" || !IsSpace(StripLeft(s)[0])
  {
    if s != "" && IsSpace(s[0]) { StripLeftStops(s[1..]); }
  }

  lemma {:induction false} StripTwice(s: string)
    ensures Strip(Strip(s)) == Strip(s)
  {
    StripLeftStops(s);
    StripRightKeeps(StripLeft(s));
  }

  /** `^v` is readable exactly when `v` carries no suffix, although a suffix is otherwise ignored. */
  lemma {:induction false} CaretReadableIff(expr: string, rest: string)
    requires Strip(expr) == "^" + rest && ParseVersion(Strip(rest)).Ok?
    ensures Parsed(expr).Ok? <==> Plain(Strip(rest))
  {
    var t := Strip(rest);
    StripTwice(rest);
    var upper := PrintVersion(CaretUpper(ParseVersion(t).value));
    if Plain(t) {
      CaretExpands(Strip(expr), rest);
      PrintIsPlain(CaretUpper(PlainVersion(t)));
      StripPlain(t);
      RangeParses(t, upper);
    } else {
      var d := CoreSplits(t);
      FirstTokenInvalid(d, Core(t).value.0, Core(t).value.1, "," + "<" + upper);
      SuffixedExpands(Strip(expr), rest, "," + "<" + upper);
    }
  }

  /** So it is with every operator: what follows it must be a plain version. */
  lemma {:induction false} OperatorReadableIff(op: Op, s: string)
    requires s != "" && IsDigit(s[0])
    ensures ParseToken(OpText(op) + s).Ok? <==> Plain(s)
  {
    var t := OpText(op) + s;
    SplitOpOf(op, s);
    assert t[0] == OpText(op)[0];
    NoVersionWithoutDigit(t);
  }

  lemma {:induction false} SuffixedExpands(expr: string, rest: string, more: string)
    requires expr == "^" + rest && ParseVersion(Strip(rest)).Ok?
    requires more == "," + "<" + PrintVersion(CaretUpper(ParseVersion(Strip(rest)).value))
    ensures ExpandRange(expr) == Ok(">=" + Strip(rest) + more)
  {
    assert expr[1..] == rest && expr[..1] == "^";
    var t := Strip(rest);
    assert ">=" + t + "," + "<" + PrintVersion(CaretUpper(ParseVersion(t).value)) == ">=" + t + more;
  }
}
