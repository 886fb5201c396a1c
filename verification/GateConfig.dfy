/** The gate's configuration document: the bounds its writer enforces, the compact
    text it stores, and reading that text back. */
module GateConfig {
  import opened Common

  const U8_MAX: nat := 255

  type u8 = n: nat | n <= U8_MAX

  datatype ProtectionRule =
    | PathPrefix(prefix: string)
    | Header(name: string, value: string)
    | Cookie(name: string)
    | UserAgent(needle: string)

  datatype GateConfig = GateConfig(v: u8, enforceFrom: u64, failOpenUntil: u64, rules: seq<ProtectionRule>, bindIp: bool)

  datatype RuleFieldError =
    | TooLong(ruleIndex: nat, field: string, limit: nat, actual: nat)
    | NotAscii(ruleIndex: nat, field: string)

  datatype GateConfigError = TooManyRules(actual: nat, max: nat) | TooLarge(actual: nat, max: nat) | Field(e: RuleFieldError)

  const MAX_RULES: nat := 35
  const MAX_CONFIG_BYTES: nat := 950
  const RULES_WRITE_CEILING: nat := MAX_CONFIG_BYTES - 20
  const MAX_PATH_PREFIX_BYTES: nat := 128
  const MAX_HEADER_NAME_BYTES: nat := 64
  const MAX_HEADER_VALUE_BYTES: nat := 128
  const MAX_COOKIE_NAME_BYTES: nat := 64
  const MAX_USER_AGENT_BYTES: nat := 64

  // ---- Field validation ----------------------------------------------------------

  predicate PrintableAscii(s: string)
  {
    forall i :: 0 <= i < |s| ==> ' ' <= s[i] <= '~'
  }

  function CheckField(ruleIndex: nat, field: string, value: string, limit: nat): Option<RuleFieldError>
  {
    if !PrintableAscii(value) then Some(NotAscii(ruleIndex, field))
    else if |value| > limit then Some(TooLong(ruleIndex, field, limit, |value|))
    else None
  }

  function CheckRule(i: nat, rule: ProtectionRule): Option<RuleFieldError>
  {
    match rule
    case PathPrefix(p) => CheckField(i, "path prefix", p, MAX_PATH_PREFIX_BYTES)
    case Cookie(name) => CheckField(i, "cookie name", name, MAX_COOKIE_NAME_BYTES)
    case UserAgent(ua) => CheckField(i, "user agent substring", ua, MAX_USER_AGENT_BYTES)
    case Header(name, value) =>
      var e := CheckField(i, "header name", name, MAX_HEADER_NAME_BYTES);
      if e.Some? then e else CheckField(i, "header value", value, MAX_HEADER_VALUE_BYTES)
  }

  /** The first field error, in rule order. */
  function ValidateRuleFields(rules: seq<ProtectionRule>): (e: Option<RuleFieldError>)
    ensures e.None? <==> forall i :: 0 <= i < |rules| ==> CheckRule(i, rules[i]).None?
    ensures e.Some? ==> e.value.ruleIndex < |rules| && CheckRule(e.value.ruleIndex, rules[e.value.ruleIndex]) == e
    ensures e.Some? ==> forall i :: 0 <= i < e.value.ruleIndex ==> CheckRule(i, rules[i]).None?
  {
    if rules == [] then None
    else
      var n := |rules| - 1;
      var earlier := ValidateRuleFields(rules[..n]);
      if earlier.Some? then earlier else CheckRule(n, rules[n])
  }

  // ---- The text -------------------------------------------------------------------

  predicate IsDigit(c: char) { '0' <= c <= '9' }

  function Digit(d: nat): char
    requires d < 10
  {
    '0' + d as char
  }

  function Digits(n: nat): (s: string)
    ensures |s| > 0 && forall i :: 0 <= i < |s| ==> IsDigit(s[i])
  {
    if n < 10 then [Digit(n)] else Digits(n / 10) + [Digit(n % 10)]
  }

  function Escaped(s: string): string
  {
    if s == [] then []
    else EscapedChar(s[0]) + Escaped(s[1..])
  }

  function EscapedChar(c: char): string { if c == '"' || c == '\\' then ['\\', c] else [c] }

  function Quoted(s: string): string { "\"" + Escaped(s) + "\"" }

  function RuleText(rule: ProtectionRule): string
  {
    match rule
    case PathPrefix(p) => "[\"p\"," + Quoted(p) + "]"
    case Cookie(name) => "[\"c\"," + Quoted(name) + "]"
    case UserAgent(ua) => "[\"u\"," + Quoted(ua) + "]"
    case Header(name, value) => "[\"h\"," + Quoted(name) + "," + Quoted(value) + "]"
  }

  /** The rules after the first, each behind a comma, and the closing bracket. */
  function MoreRules(rules: seq<ProtectionRule>): string
  {
    if rules == [] then "]" else "," + RuleText(rules[0]) + MoreRules(rules[1..])
  }

  function RulesText(rules: seq<ProtectionRule>): string
  {
    if rules == [] then "[]" else "[" + RuleText(rules[0]) + MoreRules(rules[1..])
  }

  function Text(c: GateConfig): string
  {
    "{\"v\":" + Digits(c.v) + ",\"s\":" + Digits(c.enforceFrom) + ",\"f\":" + Digits(c.failOpenUntil)
    + ",\"r\":" + RulesText(c.rules) + (if c.bindIp then ",\"b\":true}" else "}")
  }

  /** The text a document is stored as, or why it is not stored at all. */
  function EncodeGateConfig(c: GateConfig): Result<string, GateConfigError>
  {
    if |c.rules| > MAX_RULES then Err(TooManyRules(|c.rules|, MAX_RULES))
    else
      var bad := ValidateRuleFields(c.rules);
      if bad.Some? then Err(Field(bad.value))
      else if |Text(c)| > MAX_CONFIG_BYTES then Err(TooLarge(|Text(c)|, MAX_CONFIG_BYTES))
      else Ok(Text(c))
  }

  // ---- Reading it back ----------------------------------------------------------------

  /** What is left after an expected token. */
  function After(s: string, token: string): Option<string>
  {
    if token <= s then Some(s[|token|..]) else None
  }

  /** The number at the head of `s`, continuing from `n`. */
  function NumberFrom(s: string, n: nat): (nat, string)
  {
    if s != [] && IsDigit(s[0]) then NumberFrom(s[1..], 10 * n + (s[0] - '0') as nat) else (n, s)
  }

  function ReadNumber(s: string, max: nat): Option<(nat, string)>
  {
    if s == [] || !IsDigit(s[0]) then None
    else
      var (n, rest) := NumberFrom(s, 0);
      if n <= max then Some((n, rest)) else None
  }

  /** The string whose opening quote is behind us. */
  function StringTail(s: string): (r: Option<(string, string)>)
    ensures r.Some? ==> |r.value.1| < |s|
  {
    if s == [] then None
    else if s[0] == '"' then Some(([], s[1..]))
    else if s[0] == '\\' then
      if |s| < 2 || (s[1] != '"' && s[1] != '\\') then None
      else
        match StringTail(s[2..])
        case None => None
        case Some((text, rest)) => Some(([s[1]] + text, rest))
    else
      match StringTail(s[1..])
      case None => None
      case Some((text, rest)) => Some(([s[0]] + text, rest))
  }

  function ReadString(s: string): (r: Option<(string, string)>)
    ensures r.Some? ==> |r.value.1| < |s|
  {
    match After(s, "\"")
    case None => None
    case Some(tail) => StringTail(tail)
  }

  /** A rule with one field after its tag. */
  function ReadField(s: string, rule: string -> ProtectionRule): (r: Option<(ProtectionRule, string)>)
    ensures r.Some? ==> |r.value.1| < |s|
  {
    match ReadString(s)
    case None => None
    case Some((text, rest)) =>
      match After(rest, "]")
      case None => None
      case Some(end) => Some((rule(text), end))
  }

  function ReadHeader(s: string): (r: Option<(ProtectionRule, string)>)
    ensures r.Some? ==> |r.value.1| < |s|
  {
    match ReadString(s)
    case None => None
    case Some((name, rest)) =>
      match After(rest, ",")
      case None => None
      case Some(more) => ReadField(more, value => Header(name, value))
  }

  function ReadRule(s: string): (r: Option<(ProtectionRule, string)>)
    ensures r.Some? ==> |r.value.1| < |s|
  {
    if After(s, "[\"p\",").Some? then ReadField(s[5..], p => PathPrefix(p))
    else if After(s, "[\"c\",").Some? then ReadField(s[5..], name => Cookie(name))
    else if After(s, "[\"u\",").Some? then ReadField(s[5..], ua => UserAgent(ua))
    else if After(s, "[\"h\",").Some? then ReadHeader(s[5..])
    else None
  }

  function ReadMoreRules(s: string): Option<(seq<ProtectionRule>, string)>
    decreases |s|
  {
    if After(s, "]").Some? then Some(([], s[1..]))
    else if After(s, ",").None? then None
    else
      match ReadRule(s[1..])
      case None => None
      case Some((rule, rest)) =>
        match ReadMoreRules(rest)
        case None => None
        case Some((rules, end)) => Some(([rule] + rules, end))
  }

  function ReadRules(s: string): Option<(seq<ProtectionRule>, string)>
  {
    if After(s, "[]").Some? then Some(([], s[2..]))
    else if After(s, "[").None? then None
    else
      match ReadRule(s[1..])
      case None => None
      case Some((rule, rest)) =>
        match ReadMoreRules(rest)
        case None => None
        case Some((rules, end)) => Some(([rule] + rules, end))
  }

  function ReadNamed(s: string, name: string, max: nat): Option<(nat, string)>
  {
    match After(s, name)
    case None => None
    case Some(rest) => ReadNumber(rest, max)
  }

  function ReadTail(v: u8, enforceFrom: u64, failOpenUntil: u64, s: string): Option<GateConfig>
  {
    match After(s, ",\"r\":")
    case None => None
    case Some(list) =>
      match ReadRules(list)
      case None => None
      case Some((rules, end)) =>
        if end == "}" then Some(GateConfig(v, enforceFrom, failOpenUntil, rules, false))
        else if end == ",\"b\":true}" then Some(GateConfig(v, enforceFrom, failOpenUntil, rules, true))
        else if end == ",\"b\":false}" then Some(GateConfig(v, enforceFrom, failOpenUntil, rules, false))
        else None
  }

  /** Reads a stored document. Only the compact form, with its fields in the order
      the writers emit them, is read. */
  function DecodeGateConfig(s: string): Option<GateConfig>
  {
    match ReadNamed(s, "{\"v\":", U8_MAX)
    case None => None
    case Some((v, s1)) =>
      match ReadNamed(s1, ",\"s\":", U64_MAX)
      case None => None
      case Some((enforceFrom, s2)) =>
        match ReadNamed(s2, ",\"f\":", U64_MAX)
        case None => None
        case Some((failOpenUntil, s3)) => ReadTail(v, enforceFrom, failOpenUntil, s3)
  }

  // ---- The round trip -------------------------------------------------------------------

  lemma AfterToken(token: string, rest: string)
    ensures After(token + rest, token) == Some(rest)
  {
    assert (token + rest)[|token|..] == rest;
  }

  lemma {:induction false} ReadsString(s: string, rest: string)
    ensures StringTail(Escaped(s) + "\"" + rest) == Some((s, rest))
  {
    hide StringTail, Escaped, EscapedChar;
    EscapedHead(s, rest);
    if s == [] {
      ReadsEnd(rest);
    } else {
      ReadsString(s[1..], rest);
      ReadsChar(s[0], Escaped(s[1..]) + "\"" + rest, s[1..], rest);
      assert [s[0]] + s[1..] == s;
    }
  }

  lemma EscapedHead(s: string, rest: string)
    ensures Escaped(s) + "\"" + rest ==
            if s == [] then "\"" + rest else EscapedChar(s[0]) + (Escaped(s[1..]) + "\"" + rest)
  {
    hide EscapedChar;
    if s != [] {
      var more := Escaped(s[1..]);
      assert Escaped(s) == EscapedChar(s[0]) + more;
      assert (EscapedChar(s[0]) + more) + "\"" + rest == EscapedChar(s[0]) + (more + "\"" + rest);
    }
  }

  lemma ReadsEnd(rest: string)
    ensures StringTail("\"" + rest) == Some(([], rest))
  {
    assert ("\"" + rest)[1..] == rest;
  }

  lemma ReadsChar(c: char, tail: string, s: string, rest: string)
    requires StringTail(tail) == Some((s, rest))
    ensures StringTail(EscapedChar(c) + tail) == Some(([c] + s, rest))
  {
    var text := EscapedChar(c) + tail;
    assert text[|EscapedChar(c)|..] == tail;
  }

  lemma ReadsQuoted(s: string, rest: string)
    ensures ReadString(Quoted(s) + rest) == Some((s, rest))
  {
    ReadsString(s, rest);
    assert Quoted(s) + rest == "\"" + (Escaped(s) + "\"" + rest);
    AfterToken("\"", Escaped(s) + "\"" + rest);
  }

  /** Reading past the digits of `n` leaves `n` read. */
  lemma {:induction false} DigitsThen(n: nat, rest: string)
    ensures NumberFrom(Digits(n) + rest, 0) == NumberFrom(rest, n)
    decreases n
  {
    if n < 10 {
      assert (Digits(n) + rest)[1..] == rest;
      assert (Digit(n) - '0') as nat == n;
    } else {
      var last := [Digit(n % 10)];
      DigitsThen(n / 10, last + rest);
      assert Digits(n) + rest == Digits(n / 10) + (last + rest);
      assert (last + rest)[1..] == rest;
      assert (last[0] - '0') as nat == n % 10;
    }
  }

  lemma ReadsNamed(name: string, n: nat, max: nat, rest: string)
    requires n <= max && rest != [] && !IsDigit(rest[0])
    ensures ReadNamed(name + Digits(n) + rest, name, max) == Some((n, rest))
  {
    assert name + Digits(n) + rest == name + (Digits(n) + rest);
    AfterToken(name, Digits(n) + rest);
    DigitsThen(n, rest);
  }

  lemma ReadsField(text: string, rule: string -> ProtectionRule, rest: string)
    ensures ReadField(Quoted(text) + "]" + rest, rule) == Some((rule(text), rest))
  {
    assert Quoted(text) + "]" + rest == Quoted(text) + ("]" + rest);
    ReadsQuoted(text, "]" + rest);
    AfterToken("]", rest);
  }

  lemma ReadsHeader(name: string, value: string, rest: string)
    ensures ReadHeader(Quoted(name) + "," + Quoted(value) + "]" + rest) == Some((Header(name, value), rest))
  {
    hide Quoted, ReadString, ReadField, After;
    var more := Quoted(value) + "]" + rest;
    assert Quoted(name) + "," + Quoted(value) + "]" + rest == Quoted(name) + ("," + more);
    ReadsQuoted(name, "," + more);
    AfterToken(",", more);
    ReadsField(value, v => Header(name, v), rest);
  }

  /** What follows a rule's tag. */
  function FieldsText(rule: ProtectionRule): string
  {
    match rule
    case PathPrefix(p) => Quoted(p) + "]"
    case Cookie(name) => Quoted(name) + "]"
    case UserAgent(ua) => Quoted(ua) + "]"
    case Header(name, value) => Quoted(name) + "," + Quoted(value) + "]"
  }

  function Tag(rule: ProtectionRule): string
  {
    match rule
    case PathPrefix(_) => "[\"p\","
    case Cookie(_) => "[\"c\","
    case UserAgent(_) => "[\"u\","
    case Header(_, _) => "[\"h\","
  }

  lemma RuleTextSplits(rule: ProtectionRule)
    ensures RuleText(rule) == Tag(rule) + FieldsText(rule)
  {
    hide Quoted;
    match rule
    case PathPrefix(_) =>
    case Cookie(_) =>
    case UserAgent(_) =>
    case Header(name, value) =>
      var tail := Quoted(value) + "]";
      assert RuleText(rule) == Tag(rule) + (Quoted(name) + "," + tail);
  }

  lemma TagFirst(rule: ProtectionRule, rest: string)
    ensures RuleText(rule) + rest == Tag(rule) + (FieldsText(rule) + rest)
    ensures var s := RuleText(rule) + rest;
            |s| >= 5 && s[0] == '[' && s[2] == Tag(rule)[2] && s[5..] == FieldsText(rule) + rest && Tag(rule) <= s
  {
    hide RuleText, FieldsText;
    RuleTextSplits(rule);
    var s := RuleText(rule) + rest;
    assert s == Tag(rule) + (FieldsText(rule) + rest);
    assert |Tag(rule)| == 5;
  }

  lemma ReadsRule(rule: ProtectionRule, rest: string)
    ensures ReadRule(RuleText(rule) + rest) == Some((rule, rest))
  {
    hide Quoted;
    var s := RuleText(rule) + rest;
    TagFirst(rule, rest);
    match rule
    case PathPrefix(p) => ReadsField(p, x => PathPrefix(x), rest);
    case Cookie(name) => ReadsField(name, x => Cookie(x), rest);
    case UserAgent(ua) => ReadsField(ua, x => UserAgent(x), rest);
    case Header(name, value) => ReadsHeader(name, value, rest);
  }

  lemma MoreRulesOpen(rules: seq<ProtectionRule>, rest: string)
    ensures var s := MoreRules(rules) + rest;
            if rules == [] then s == "]" + rest
            else s[0] == ',' && s[1..] == RuleText(rules[0]) + (MoreRules(rules[1..]) + rest)
  {
    if rules != [] {
      assert MoreRules(rules) + rest == "," + (RuleText(rules[0]) + (MoreRules(rules[1..]) + rest));
    }
  }

  lemma {:induction false} ReadsMoreRules(rules: seq<ProtectionRule>, rest: string)
    ensures ReadMoreRules(MoreRules(rules) + rest) == Some((rules, rest))
  {
    hide ReadRule, RuleText;
    MoreRulesOpen(rules, rest);
    if rules != [] {
      ReadsMoreRules(rules[1..], rest);
      ReadsRule(rules[0], MoreRules(rules[1..]) + rest);
      assert [rules[0]] + rules[1..] == rules;
    }
  }

  lemma RulesOpen(rules: seq<ProtectionRule>, rest: string)
    requires rules != []
    ensures var s := RulesText(rules) + rest;
            && After(s, "[]").None? && After(s, "[").Some?
            && s[1..] == RuleText(rules[0]) + (MoreRules(rules[1..]) + rest)
  {
    hide RuleText, MoreRules;
    var more := RuleText(rules[0]) + (MoreRules(rules[1..]) + rest);
    var s := RulesText(rules) + rest;
    assert s == "[" + more;
    assert s[1] == '[' by {
      TagFirst(rules[0], MoreRules(rules[1..]) + rest);
      assert s[1] == more[0];
    }
  }

  lemma ReadsRules(rules: seq<ProtectionRule>, rest: string)
    ensures ReadRules(RulesText(rules) + rest) == Some((rules, rest))
  {
    hide ReadRule, RulesText, RuleText, MoreRules, ReadMoreRules, After;
    if rules != [] {
      RulesOpen(rules, rest);
      ReadsRule(rules[0], MoreRules(rules[1..]) + rest);
      ReadsMoreRules(rules[1..], rest);
      assert [rules[0]] + rules[1..] == rules;
    } else {
      NoRules(rest);
    }
  }

  lemma NoRules(rest: string)
    ensures ReadRules(RulesText([]) + rest) == Some(([], rest))
  {
    AfterToken("[]", rest);
  }

  /** From the ruleset's name to the end. */
  function TailText(c: GateConfig): string
  {
    ",\"r\":" + RulesText(c.rules) + (if c.bindIp then ",\"b\":true}" else "}")
  }

  lemma ReadsTail(c: GateConfig)
    ensures ReadTail(c.v, c.enforceFrom, c.failOpenUntil, TailText(c)) == Some(c)
  {
    hide ReadRules, RulesText;
    var end := if c.bindIp then ",\"b\":true}" else "}";
    assert TailText(c) == ",\"r\":" + (RulesText(c.rules) + end);
    AfterToken(",\"r\":", RulesText(c.rules) + end);
    ReadsRules(c.rules, end);
  }

  /** What is read back is what was stored, whatever the rules contain. */
  lemma StoredIsRead(c: GateConfig)
    ensures DecodeGateConfig(Text(c)) == Some(c)
  {
    hide ReadNamed, ReadTail, TailText, Digits;
    var tail := TailText(c);
    var fromF := ",\"f\":" + Digits(c.failOpenUntil) + tail;
    var fromS := ",\"s\":" + Digits(c.enforceFrom) + fromF;
    TextSplits(c);
    ReadsNamed("{\"v\":", c.v, U8_MAX, fromS);
    ReadsNamed(",\"s\":", c.enforceFrom, U64_MAX, fromF);
    ReadsNamed(",\"f\":", c.failOpenUntil, U64_MAX, tail);
    ReadsTail(c);
  }

  lemma TextSplits(c: GateConfig)
    ensures TailText(c) != [] && TailText(c)[0] == ','
    ensures Text(c) == "{\"v\":" + Digits(c.v) + (",\"s\":" + Digits(c.enforceFrom)
                       + (",\"f\":" + Digits(c.failOpenUntil) + TailText(c)))
  {
    hide RulesText, Digits;
  }

  // ---- How large it is -----------------------------------------------------------------

  /** The size of a document without its deadline's digits and without the binding
      flag: what only the ruleset, the version and `enforceFrom` decide. */
  function BaseSize(c: GateConfig): int
  {
    |Text(c.(failOpenUntil := 0, bindIp := false))| - 1
  }

  lemma TextSize(c: GateConfig)
    ensures |Text(c)| == BaseSize(c) + |Digits(c.failOpenUntil)| + (if c.bindIp then 9 else 0)
  {
    hide RulesText;
    assert Digits(0) == [Digit(0)];
  }

  lemma {:induction false} DigitsSize(n: nat, k: nat)
    requires k > 0
    ensures |Digits(n)| <= k <==> n < Power10(k)
    decreases k
  {
    if k == 1 {
      assert Power10(1) == 10;
    } else if n >= 10 {
      DigitsSize(n / 10, k - 1);
      assert n / 10 < Power10(k - 1) <==> n < 10 * Power10(k - 1);
    } else {
      PowerAtLeast(k);
    }
  }

  function Power10(k: nat): nat { if k == 0 then 1 else 10 * Power10(k - 1) }

  lemma {:induction false} PowerAtLeast(k: nat)
    requires k > 0
    ensures Power10(k) >= 10
  {
    if k > 1 {
      PowerAtLeast(k - 1);
    }
  }

  /** A deadline never takes more than twenty digits. */
  lemma DeadlineDigits(until: u64)
    ensures |Digits(until)| <= 20
  {
    TwelveDigits();
    assert Power10(16) == 10000 * Power10(12);
    assert Power10(20) == 10000 * Power10(16);
    DigitsSize(until, 20);
  }

  predicate RulesValid(rules: seq<ProtectionRule>)
  {
    |rules| <= MAX_RULES && ValidateRuleFields(rules).None?
  }

  /** A field of printable characters, within a cap. */
  predicate Fits(s: string, cap: nat)
  {
    |s| <= cap && forall i :: 0 <= i < |s| ==> 32 <= s[i] as int <= 126
  }

  predicate RuleFits(rule: ProtectionRule)
  {
    match rule
    case PathPrefix(prefix) => Fits(prefix, 128)
    case Header(name, value) => Fits(name, 64) && Fits(value, 128)
    case Cookie(name) => Fits(name, 64)
    case UserAgent(needle) => Fits(needle, 64)
  }

  /** What the encoder accepts: at most 35 rules, every field printable and within the
      cap of its kind, and a text of at most 950 bytes. */
  lemma EncodesExactly(c: GateConfig)
    ensures RulesValid(c.rules) <==> |c.rules| <= 35 && forall i :: 0 <= i < |c.rules| ==> RuleFits(c.rules[i])
    ensures EncodeGateConfig(c).Ok? <==> RulesValid(c.rules) && |Text(c)| <= 950
    ensures EncodeGateConfig(c).Ok? ==> EncodeGateConfig(c).value == Text(c)
  {
    hide Text, RuleFits, CheckRule;
    forall i: nat, rule
      ensures CheckRule(i, rule).None? <==> RuleFits(rule)
    {
      RuleCheckedExactly(i, rule);
    }
  }

  lemma RuleCheckedExactly(i: nat, rule: ProtectionRule)
    ensures CheckRule(i, rule).None? <==> RuleFits(rule)
  {
    if rule.Header? {
      FieldCheckedExactly(i, "header name", rule.name, 64);
      FieldCheckedExactly(i, "header value", rule.value, 128);
    }
  }

  /** What is said of a field: that it has an unprintable character, or how far over
      its cap it is, in that order. */
  lemma FieldCheckedExactly(i: nat, field: string, s: string, cap: nat)
    ensures var e := CheckField(i, field, s, cap);
            && (e.None? <==> Fits(s, cap))
            && (e == Some(NotAscii(i, field)) <==> !Fits(s, |s|))
            && (e == Some(TooLong(i, field, cap, |s|)) <==> Fits(s, |s|) && |s| > cap)
  {
  }

  /** Every deadline of at most `digits` digits, with the binding on or off, fits. */
  ghost predicate FitsDeadlines(c: GateConfig, digits: nat)
  {
    forall until: u64, on :: until < Power10(digits) ==> EncodeGateConfig(c.(failOpenUntil := until, bindIp := on)).Ok?
  }

  lemma TwelveDigits()
    ensures Power10(11) < Power10(12) == 1_000_000_000_000 <= U64_MAX
  {
    assert Power10(4) == 10000;
    assert Power10(8) == 10000 * 10000;
    assert Power10(11) == 1000 * 10000 * 10000;
  }

  /** The headroom a ruleset must leave, exactly. */
  lemma HeadroomExact(c: GateConfig)
    requires RulesValid(c.rules)
    ensures FitsDeadlines(c, 12) <==> BaseSize(c) <= RULES_WRITE_CEILING - 1
  {
    hide ValidateRuleFields, Text;
    TwelveDigits();
    if BaseSize(c) <= RULES_WRITE_CEILING - 1 {
      forall until: u64, on | until < Power10(12)
        ensures EncodeGateConfig(c.(failOpenUntil := until, bindIp := on)).Ok?
      {
        TextSize(c.(failOpenUntil := until, bindIp := on));
        DigitsSize(until, 12);
      }
    } else {
      var widest := c.(failOpenUntil := Power10(11), bindIp := true);
      TextSize(widest);
      DigitsSize(Power10(11), 11);
      assert !EncodeGateConfig(widest).Ok?;
    }
  }

  /** A document within the rules-write ceiling leaves the headroom, whatever
      deadline and binding it was measured with. */
  lemma CeilingLeavesHeadroom(c: GateConfig)
    requires EncodeGateConfig(c).Ok? && |EncodeGateConfig(c).value| <= RULES_WRITE_CEILING
    ensures RulesValid(c.rules) && BaseSize(c) <= RULES_WRITE_CEILING - 1
  {
    TextSize(c);
  }

  lemma {:induction false} PlainIsItself(s: string)
    requires forall i :: 0 <= i < |s| ==> s[i] != '"' && s[i] != '\\'
    ensures Escaped(s) == s
  {
    if s != [] {
      PlainIsItself(s[1..]);
      assert s == [s[0]] + s[1..];
    }
  }

  /** A ruleset that spends the ceiling to the last byte. */
  function LargestRules(): seq<ProtectionRule>
  {
    seq(6, _ => PathPrefix(seq(128, _ => 'a'))) + [PathPrefix(seq(74, _ => 'a'))]
  }

  lemma PrefixSize(n: nat)
    ensures |RuleText(PathPrefix(seq(n, _ => 'a')))| == n + 8
  {
    PlainIsItself(seq(n, _ => 'a'));
  }

  lemma {:induction false} PrefixesSize(k: nat, n: nat, rest: seq<ProtectionRule>)
    ensures |MoreRules(seq(k, _ => PathPrefix(seq(n, _ => 'a'))) + rest)| == k * (n + 9) + |MoreRules(rest)|
  {
    hide RuleText;
    var rule := PathPrefix(seq(n, _ => 'a'));
    var rules := seq(k, _ => rule) + rest;
    if k == 0 {
      assert rules == rest;
    } else {
      assert rules[0] == rule && rules[1..] == seq(k - 1, _ => rule) + rest;
      PrefixSize(n);
      PrefixesSize(k - 1, n, rest);
    }
  }

  lemma LargestRulesSize()
    ensures |RulesText(LargestRules())| == 906
  {
    hide RuleText;
    var full, last := PathPrefix(seq(128, _ => 'a')), [PathPrefix(seq(74, _ => 'a'))];
    var rules := LargestRules();
    assert rules[0] == full && rules[1..] == seq(5, _ => full) + last;
    PrefixSize(128);
    PrefixSize(74);
    PrefixesSize(5, 128, last);
    assert last[1..] == [];
  }

  /** The headroom is not generous: some ruleset is accepted at the ceiling, and a
      deadline of thirteen digits no longer fits it with the binding on. */
  lemma TwelveIsTight()
    ensures var c := GateConfig(1, 0, 0, LargestRules(), false);
            && EncodeGateConfig(c).Ok? && |EncodeGateConfig(c).value| == RULES_WRITE_CEILING
            && EncodeGateConfig(c.(failOpenUntil := 1_000_000_000_000, bindIp := true)) == Err(TooLarge(951, MAX_CONFIG_BYTES))
  {
    hide RulesText, LargestRules;
    var c := GateConfig(1, 0, 0, LargestRules(), false);
    var over := c.(failOpenUntil := 1_000_000_000_000, bindIp := true);
    LargestRulesSize();
    LargestRulesValid();
    assert Digits(0) == [Digit(0)] && Digits(1) == [Digit(1)];
    assert |Text(c)| == 930;
    TwelveDigits();
    DigitsSize(1_000_000_000_000, 12);
    DigitsSize(1_000_000_000_000, 13);
    assert Power10(13) == 10 * Power10(12);
    TextSize(over);
    TextSize(c);
  }

  lemma LargestRulesValid()
    ensures RulesValid(LargestRules())
  {
    var rules := LargestRules();
    forall i | 0 <= i < |rules|
      ensures CheckRule(i, rules[i]).None?
    {
    }
  }
}
