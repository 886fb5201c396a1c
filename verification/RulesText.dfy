/** The operator's ruleset text: one rule a line, read by `ParseRules` and written
    back by `FormatRules` to pre-fill the form. */
module RulesText {
  import opened Common
  import opened GateConfig

  datatype BadLine = NoValue | NoHeaderValue | UnknownTag

  /** The offending line, numbered from one as the operator sees it. */
  datatype ParseError = ParseError(line: nat, why: BadLine)

  // ---- Text ------------------------------------------------------------------------

  /** The characters with the Unicode property `White_Space`. */
  predicate IsWhitespace(c: char)
  {
    || '\U{0009}' <= c <= '\U{000D}' || c == ' ' || c == '\U{0085}' || c == '\U{00A0}' || c == '\U{1680}'
    || '\U{2000}' <= c <= '\U{200A}' || c == '\U{2028}' || c == '\U{2029}' || c == '\U{202F}' || c == '\U{205F}'
    || c == '\U{3000}'
  }

  /** No white space at either end. */
  predicate Trimmed(s: string)
  {
    s == [] || (!IsWhitespace(s[0]) && !IsWhitespace(s[|s| - 1]))
  }

  function TrimStart(s: string): (r: string)
    ensures |r| <= |s| && r == s[|s| - |r|..]
    ensures r == [] || !IsWhitespace(r[0])
  {
    if s != [] && IsWhitespace(s[0]) then TrimStart(s[1..]) else s
  }

  function TrimEnd(s: string): (r: string)
    ensures |r| <= |s| && r == s[..|r|]
    ensures r == [] || !IsWhitespace(r[|r| - 1])
  {
    if s != [] && IsWhitespace(s[|s| - 1]) then TrimEnd(s[..|s| - 1]) else s
  }

  function Trim(s: string): (r: string)
    ensures Trimmed(r)
    ensures forall c :: c in r ==> c in s
  {
    TrimEnd(TrimStart(s))
  }

  lemma TrimmedStays(s: string)
    requires Trimmed(s)
    ensures Trim(s) == s
  {
  }

  lemma {:induction false} EndKeepsStart(s: string)
    requires s != [] && !IsWhitespace(s[|s| - 1])
    ensures TrimStart(s) != [] && TrimEnd(TrimStart(s)) == TrimStart(s)
  {
    if IsWhitespace(s[0]) {
      EndKeepsStart(s[1..]);
    }
  }

  /** Where the first white space is, or the length without any. */
  function FirstSpace(s: string): (k: nat)
    ensures k <= |s| && (forall i :: 0 <= i < k ==> !IsWhitespace(s[i])) && (k < |s| ==> IsWhitespace(s[k]))
  {
    if s == [] || IsWhitespace(s[0]) then 0 else 1 + FirstSpace(s[1..])
  }

  /** The text before and after the first white space. */
  function SplitOnce(s: string): Option<(string, string)>
  {
    var k := FirstSpace(s);
    if k < |s| then Some((s[..k], s[k + 1..])) else None
  }

  lemma SplitAt(a: string, b: string)
    requires forall c :: c in a ==> !IsWhitespace(c)
    ensures SplitOnce(a + " " + b) == Some((a, b))
  {
    hide IsWhitespace;
    var s := a + " " + b;
    assert s[|a|] == ' ' && IsWhitespace(' ') by { SpaceIsSpace(); }
    forall i | 0 <= i < |a|
      ensures !IsWhitespace(s[i])
    {
      assert s[i] in a;
    }
    assert s[..|a|] == a && s[|a| + 1..] == b;
  }

  lemma SpaceIsSpace()
    ensures IsWhitespace(' ') && IsWhitespace('\r') && IsWhitespace('\n')
  {
  }

  function StripCr(line: string): string
  {
    if line != [] && line[|line| - 1] == '\r' then line[..|line| - 1] else line
  }

  /** Where the first line feed is, or the length without one. */
  function LineEnd(text: string): (k: nat)
    ensures k <= |text| && '\n' !in text[..k] && (k < |text| ==> text[k] == '\n')
  {
    if text == [] || text[0] == '\n' then 0 else 1 + LineEnd(text[1..])
  }

  /** The lines of a text; a carriage return goes with the line feed it precedes. */
  function Lines(text: string): (lines: seq<string>)
    ensures forall i :: 0 <= i < |lines| ==> '\n' !in lines[i]
  {
    if text == [] then []
    else
      var k := LineEnd(text);
      if k == |text| then [text] else [StripCr(text[..k])] + Lines(text[k + 1..])
  }

  lemma {:induction false} LineEndIs(text: string, k: nat)
    requires k < |text| && text[k] == '\n' && '\n' !in text[..k]
    ensures LineEnd(text) == k
  {
    if k > 0 {
      assert text[0] == text[..k][0];
      assert text[..k][1..] == text[1..][..k - 1];
      LineEndIs(text[1..], k - 1);
    }
  }

  lemma FirstLine(line: string, rest: string)
    requires '\n' !in line
    ensures Lines(line + "\n" + rest) == [StripCr(line)] + Lines(rest)
  {
    hide StripCr;
    var text := line + "\n" + rest;
    assert text[..|line|] == line && text[|line| + 1..] == rest;
    LineEndIs(text, |line|);
  }

  // ---- The parser --------------------------------------------------------------------

  datatype LineResult = Skip | Parsed(rule: ProtectionRule) | Bad(why: BadLine)

  function ParseHeader(rest: string): LineResult
  {
    match SplitOnce(rest)
    case None => Bad(NoHeaderValue)
    case Some((name, value)) => Parsed(Header(name, Trim(value)))
  }

  function ParseTagged(tag: string, rest: string): LineResult
  {
    if tag == "p" then Parsed(PathPrefix(rest))
    else if tag == "c" then Parsed(Cookie(rest))
    else if tag == "u" then Parsed(UserAgent(rest))
    else if tag == "h" then ParseHeader(rest)
    else Bad(UnknownTag)
  }

  function ParseLine(raw: string): LineResult
  {
    var line := Trim(raw);
    if line == [] || line[0] == '#' then Skip
    else
      match SplitOnce(line)
      case None => Bad(NoValue)
      case Some((tag, rest)) => ParseTagged(tag, Trim(rest))
  }

  /** The rules on the lines from `i` on, or the first line that would not parse. */
  function Parse(lines: seq<string>, i: nat): Result<seq<ProtectionRule>, ParseError>
    decreases |lines| - i
  {
    if i >= |lines| then Ok([])
    else
      match ParseLine(lines[i])
      case Skip => Parse(lines, i + 1)
      case Bad(why) => Err(ParseError(i + 1, why))
      case Parsed(rule) =>
        match Parse(lines, i + 1)
        case Err(e) => Err(e)
        case Ok(rules) => Ok([rule] + rules)
  }

  function Ahead(rules: seq<ProtectionRule>, r: Result<seq<ProtectionRule>, ParseError>): Result<seq<ProtectionRule>, ParseError>
  {
    match r
    case Err(e) => Err(e)
    case Ok(more) => Ok(rules + more)
  }

  method ParseRules(text: string) returns (r: Result<seq<ProtectionRule>, ParseError>)
    ensures r == Parse(Lines(text), 0)
  {
    hide ParseLine, Lines;
    var lines := Lines(text);
    var rules: seq<ProtectionRule> := [];
    AheadNone(Parse(lines, 0));
    for i := 0 to |lines|
      invariant Parse(lines, 0) == Ahead(rules, Parse(lines, i))
    {
      match ParseLine(lines[i])
      case Skip =>
      case Bad(why) => return Err(ParseError(i + 1, why));
      case Parsed(rule) =>
        AheadOne(rules, rule, Parse(lines, i + 1));
        rules := rules + [rule];
    }
    assert rules + [] == rules;
    r := Ok(rules);
  }

  lemma AheadNone(r: Result<seq<ProtectionRule>, ParseError>)
    ensures Ahead([], r) == r
  {
    if r.Ok? {
      assert [] + r.value == r.value;
    }
  }

  lemma AheadOne(rules: seq<ProtectionRule>, rule: ProtectionRule, r: Result<seq<ProtectionRule>, ParseError>)
    ensures Ahead(rules, Ahead([rule], r)) == Ahead(rules + [rule], r)
  {
    if r.Ok? {
      assert rules + ([rule] + r.value) == rules + [rule] + r.value;
    }
  }

  // ---- The printer -------------------------------------------------------------------

  function RuleLine(rule: ProtectionRule): string
  {
    match rule
    case PathPrefix(p) => "p " + p
    case Cookie(name) => "c " + name
    case UserAgent(ua) => "u " + ua
    case Header(name, value) => "h " + name + " " + value
  }

  function Format(rules: seq<ProtectionRule>): string
  {
    if rules == [] then "" else RuleLine(rules[0]) + "\n" + Format(rules[1..])
  }

  method FormatRules(rules: seq<ProtectionRule>) returns (out: string)
    ensures out == Format(rules)
  {
    out := "";
    for i := 0 to |rules|
      invariant out + Format(rules[i..]) == Format(rules)
    {
      assert rules[i..][1..] == rules[i + 1..];
      assert out + (RuleLine(rules[i]) + "\n" + Format(rules[i + 1..])) == out + RuleLine(rules[i]) + "\n" + Format(rules[i + 1..]);
      out := out + RuleLine(rules[i]) + "\n";
    }
    assert rules[|rules|..] == [];
  }

  // ---- The round trip ------------------------------------------------------------------

  /** A value a line can carry to the parser unchanged. */
  predicate Printable(s: string) { s != [] && Trimmed(s) && '\n' !in s }

  /** A rule the printer writes so that the parser reads it back. */
  predicate WellFormed(rule: ProtectionRule)
  {
    match rule
    case PathPrefix(p) => Printable(p)
    case Cookie(name) => Printable(name)
    case UserAgent(ua) => Printable(ua)
    case Header(name, value) => name != [] && (forall c :: c in name ==> !IsWhitespace(c)) && Printable(value)
  }

  predicate AllWellFormed(rules: seq<ProtectionRule>)
  {
    forall i :: 0 <= i < |rules| ==> WellFormed(rules[i])
  }

  lemma BlankEndsOnly(s: string)
    requires s != [] && !IsWhitespace(s[|s| - 1]) && '\n' !in s
    ensures Printable(Trim(s))
  {
    hide IsWhitespace;
    EndKeepsStart(s);
  }

  /** What precedes the first white space of a trimmed text has none, and what
      follows it is not blank. */
  lemma RestIsPrintable(s: string)
    requires Trimmed(s) && '\n' !in s && SplitOnce(s).Some?
    ensures SplitOnce(s).value.0 != [] && forall c :: c in SplitOnce(s).value.0 ==> !IsWhitespace(c)
    ensures Printable(Trim(SplitOnce(s).value.1))
  {
    hide IsWhitespace, Trim, Printable;
    var k := FirstSpace(s);
    var after := s[k + 1..];
    assert after != [] && after[|after| - 1] == s[|s| - 1];
    assert forall i :: 0 <= i < |after| ==> after[i] == s[k + 1 + i];
    BlankEndsOnly(after);
  }

  lemma HeaderIsWellFormed(rest: string)
    requires Printable(rest) && ParseHeader(rest).Parsed?
    ensures WellFormed(ParseHeader(rest).rule)
  {
    hide Trim, SplitOnce, IsWhitespace;
    RestIsPrintable(rest);
  }

  /** Every rule the parser takes from a line is well formed. */
  lemma ParsedIsWellFormed(raw: string)
    requires '\n' !in raw && ParseLine(raw).Parsed?
    ensures WellFormed(ParseLine(raw).rule)
  {
    hide Trim, SplitOnce, IsWhitespace, Printable;
    var line := Trim(raw);
    RestIsPrintable(line);
    var rest := Trim(SplitOnce(line).value.1);
    if ParseLine(raw).rule.Header? {
      HeaderIsWellFormed(rest);
    }
  }

  lemma {:induction false} ParseIsWellFormed(lines: seq<string>, i: nat)
    requires forall k :: 0 <= k < |lines| ==> '\n' !in lines[k]
    requires Parse(lines, i).Ok?
    ensures AllWellFormed(Parse(lines, i).value)
    decreases |lines| - i
  {
    hide WellFormed, ParseLine;
    if i < |lines| {
      ParseIsWellFormed(lines, i + 1);
      if ParseLine(lines[i]).Parsed? {
        ParsedIsWellFormed(lines[i]);
      }
    }
  }

  /** A tag and a printable value on a line. */
  lemma TaggedLine(tag: string, value: string)
    requires |tag| == 1 && !IsWhitespace(tag[0]) && tag[0] != '#' && Printable(value)
    ensures var line := tag + " " + value;
            && '\n' !in line
            && ParseLine(line) == ParseTagged(tag, value) && StripCr(line) == line
  {
    var line := tag + " " + value;
    assert line[0] == tag[0] && line[|line| - 1] == value[|value| - 1];
    TrimmedStays(line);
    TrimmedStays(value);
    SplitAt(tag, value);
  }

  lemma HeaderLine(name: string, value: string)
    requires WellFormed(Header(name, value))
    ensures Printable(name + " " + value)
    ensures ParseHeader(name + " " + value) == Parsed(Header(name, value))
  {
    hide IsWhitespace, Trim, SplitOnce;
    SpaceIsSpace();
    var rest := name + " " + value;
    assert rest[0] == name[0] && rest[|rest| - 1] == value[|value| - 1];
    assert '\n' !in name;
    SplitAt(name, value);
    TrimmedStays(value);
  }

  lemma LineRoundTrip(rule: ProtectionRule)
    requires WellFormed(rule)
    ensures ParseLine(RuleLine(rule)) == Parsed(rule) && '\n' !in RuleLine(rule) && StripCr(RuleLine(rule)) == RuleLine(rule)
  {
    hide ParseLine, Printable, StripCr, IsWhitespace, ParseHeader;
    NoTagIsSpace();
    match rule
    case PathPrefix(p) =>
      TaggedLine("p", p);
      assert RuleLine(rule) == "p" + " " + p;
    case Cookie(name) =>
      TaggedLine("c", name);
      assert RuleLine(rule) == "c" + " " + name;
    case UserAgent(ua) =>
      TaggedLine("u", ua);
      assert RuleLine(rule) == "u" + " " + ua;
    case Header(name, value) =>
      HeaderRoundTrip(name, value);
  }

  lemma HeaderRoundTrip(name: string, value: string)
    requires WellFormed(Header(name, value))
    ensures var line := "h " + name + " " + value;
            ParseLine(line) == Parsed(Header(name, value)) && '\n' !in line && StripCr(line) == line
  {
    hide ParseLine, Printable, StripCr, IsWhitespace, ParseHeader;
    NoTagIsSpace();
    var rest := name + " " + value;
    HeaderLine(name, value);
    TaggedLine("h", rest);
    assert "h " + name + " " + value == "h" + " " + rest;
  }

  lemma NoTagIsSpace()
    ensures forall c :: c in "pcuh" ==> !IsWhitespace(c)
    ensures !IsWhitespace('p') && !IsWhitespace('c') && !IsWhitespace('u') && !IsWhitespace('h')
  {
  }

  lemma {:induction false} ParseSuffix(first: string, lines: seq<string>, i: nat)
    ensures Parse([first] + lines, i + 1) ==
            match Parse(lines, i) { case Ok(rules) => Ok(rules) case Err(e) => Err(ParseError(e.line + 1, e.why)) }
    decreases |lines| - i
  {
    hide ParseLine;
    if i < |lines| {
      ParseSuffix(first, lines, i + 1);
      assert ([first] + lines)[i + 1] == lines[i];
    }
  }

  lemma {:induction false} FormatIsRead(rules: seq<ProtectionRule>)
    requires AllWellFormed(rules)
    ensures Parse(Lines(Format(rules)), 0) == Ok(rules)
  {
    hide ParseLine, RuleLine, StripCr, WellFormed, Lines;
    if rules == [] {
      assert Lines("") == [] by { NoLines(); }
    } else {
      var line, rest := RuleLine(rules[0]), Format(rules[1..]);
      LineRoundTrip(rules[0]);
      FormatIsRead(rules[1..]);
      FirstLine(line, rest);
      ParseSuffix(line, Lines(rest), 0);
      assert [rules[0]] + rules[1..] == rules;
    }
  }

  lemma NoLines()
    ensures Lines("") == []
  {
  }

  /** Printing what the parser read and parsing it again gives the same rules,
      whatever the text: comments, blank lines, any white space around values, and
      header values with spaces in them. */
  lemma PrintedIsReread(text: string)
    requires Parse(Lines(text), 0).Ok?
    ensures Parse(Lines(Format(Parse(Lines(text), 0).value)), 0) == Parse(Lines(text), 0)
  {
    hide Lines, Parse;
    ParseIsWellFormed(Lines(text), 0);
    FormatIsRead(Parse(Lines(text), 0).value);
  }

  /** The rule lists that survive printing are exactly the ones the parser makes. */
  lemma SurvivesExactly(rules: seq<ProtectionRule>)
    ensures Parse(Lines(Format(rules)), 0) == Ok(rules) <==> AllWellFormed(rules)
    ensures AllWellFormed(rules) <==> exists text :: Parse(Lines(text), 0) == Ok(rules)
  {
    hide Lines, Parse;
    if AllWellFormed(rules) {
      FormatIsRead(rules);
    }
    if text :| Parse(Lines(text), 0) == Ok(rules) {
      ParseIsWellFormed(Lines(text), 0);
    }
  }

  // ---- What a line means ------------------------------------------------------------------

  /** The characters with the Unicode property `White_Space`, in order. */
  const WHITE_SPACE: string :=
    "\U{0009}\U{000A}\U{000B}\U{000C}\U{000D}\U{0020}\U{0085}\U{00A0}\U{1680}\U{2000}\U{2001}\U{2002}\U{2003}"
    + "\U{2004}\U{2005}\U{2006}\U{2007}\U{2008}\U{2009}\U{200A}\U{2028}\U{2029}\U{202F}\U{205F}\U{3000}"

  predicate Blank(s: string) { forall i :: 0 <= i < |s| ==> s[i] in WHITE_SPACE }

  /** A run of characters with no white space in it. */
  predicate Word(s: string) { s != [] && forall i :: 0 <= i < |s| ==> s[i] !in WHITE_SPACE }

  /** A text with no white space at either end. */
  predicate Value(s: string) { s != [] && s[0] !in WHITE_SPACE && s[|s| - 1] !in WHITE_SPACE }

  lemma WhiteSpaceExactly(c: char)
    ensures IsWhitespace(c) <==> c in WHITE_SPACE
  {
    var w := WHITE_SPACE;
    if '\U{0009}' <= c <= '\U{000D}' {
      assert w[c as int - 9] == c;
    } else if '\U{2000}' <= c <= '\U{200A}' {
      assert w[9 + c as int - 0x2000] == c;
    } else {
      assert w[5] == ' ' && w[6] == '\U{0085}' && w[7] == '\U{00A0}' && w[8] == '\U{1680}';
      assert w[20] == '\U{2028}' && w[21] == '\U{2029}' && w[22] == '\U{202F}' && w[23] == '\U{205F}' && w[24] == '\U{3000}';
    }
  }

  lemma {:induction false} StartBlank(a: string, m: string)
    requires Blank(a) && (m == [] || m[0] !in WHITE_SPACE)
    ensures TrimStart(a + m) == m
  {
    hide IsWhitespace;
    if a == [] {
      assert a + m == m;
      if m != [] {
        WhiteSpaceExactly(m[0]);
      }
    } else {
      WhiteSpaceExactly(a[0]);
      assert (a + m)[1..] == a[1..] + m;
      StartBlank(a[1..], m);
    }
  }

  lemma {:induction false} EndBlank(m: string, b: string)
    requires Blank(b) && (m == [] || m[|m| - 1] !in WHITE_SPACE)
    ensures TrimEnd(m + b) == m
  {
    hide IsWhitespace;
    if b == [] {
      assert m + b == m;
      if m != [] {
        WhiteSpaceExactly(m[|m| - 1]);
      }
    } else {
      WhiteSpaceExactly(b[|b| - 1]);
      assert (m + b)[..|m + b| - 1] == m + b[..|b| - 1];
      EndBlank(m, b[..|b| - 1]);
    }
  }

  /** Trimming takes off exactly the white space around a value. */
  lemma TrimIs(a: string, m: string, b: string)
    requires Blank(a) && Blank(b) && Value(m)
    ensures Trim(a + m + b) == m
  {
    hide IsWhitespace, TrimStart, TrimEnd;
    assert a + m + b == a + (m + b);
    StartBlank(a, m + b);
    EndBlank(m, b);
  }

  lemma TrimBlank(s: string)
    requires Blank(s)
    ensures Trim(s) == []
  {
    assert s + [] == s;
    StartBlank(s, []);
  }

  lemma SplitWord(word: string, gap: string, rest: string)
    requires Word(word) && gap != [] && Blank(gap)
    ensures SplitOnce(word + gap + rest) == Some((word, gap[1..] + rest))
  {
    hide IsWhitespace;
    var s := word + gap + rest;
    assert s[|word|] == gap[0];
    WhiteSpaceExactly(gap[0]);
    forall i | 0 <= i < |word|
      ensures !IsWhitespace(s[i])
    {
      WhiteSpaceExactly(word[i]);
    }
    assert s[..|word|] == word && s[|word| + 1..] == gap[1..] + rest;
  }

  lemma SplitNone(word: string)
    requires Word(word)
    ensures SplitOnce(word) == None
  {
    hide IsWhitespace;
    var k := FirstSpace(word);
    if k < |word| {
      WhiteSpaceExactly(word[k]);
    }
  }

  /** Nothing but white space is skipped; so is a lone word that starts a comment,
      and any other has no value. */
  lemma ShortLineMeans(before: string, word: string, after: string)
    requires Blank(before) && Blank(after) && Word(word)
    ensures ParseLine(before) == Skip
    ensures ParseLine(before + word + after) == if word[0] == '#' then Skip else Bad(NoValue)
  {
    hide IsWhitespace, Trim, SplitOnce;
    TrimBlank(before);
    TrimIs(before, word, after);
    SplitNone(word);
  }

  /** A tag, some white space and a value, with any white space around them. */
  lemma TaggedLineMeans(before: string, tag: string, gap: string, value: string, after: string)
    requires Blank(before) && Word(tag) && gap != [] && Blank(gap) && Value(value) && Blank(after)
    ensures var r := ParseLine(before + tag + gap + value + after);
            && (tag[0] == '#' ==> r == Skip)
            && (tag == "p" ==> r == Parsed(PathPrefix(value)))
            && (tag == "c" ==> r == Parsed(Cookie(value)))
            && (tag == "u" ==> r == Parsed(UserAgent(value)))
            && (tag == "h" && Word(value) ==> r == Bad(NoHeaderValue))
            && (tag[0] != '#' && tag !in {"p", "c", "u", "h"} ==> r == Bad(UnknownTag))
  {
    hide IsWhitespace, Trim, SplitOnce;
    var line := tag + gap + value;
    assert before + tag + gap + value + after == before + line + after;
    assert line[0] == tag[0] && line[|line| - 1] == value[|value| - 1];
    TrimIs(before, line, after);
    SplitWord(tag, gap, value);
    assert gap[1..] + value + [] == gap[1..] + value;
    TrimIs(gap[1..], value, []);
    if Word(value) {
      SplitNone(value);
    }
  }

  /** A header's value starts after the white space that ends its name. */
  lemma HeaderLineMeans(before: string, gap: string, name: string, between: string, value: string, after: string)
    requires Blank(before) && gap != [] && Blank(gap) && Word(name) && between != [] && Blank(between)
    requires Value(value) && Blank(after)
    ensures ParseLine(before + "h" + gap + (name + between + value) + after) == Parsed(Header(name, value))
  {
    hide IsWhitespace, Trim, SplitOnce;
    var rest := name + between + value;
    var line := "h" + gap + rest;
    assert before + "h" + gap + rest + after == before + line + after;
    assert line[0] == 'h' && line[|line| - 1] == value[|value| - 1];
    assert rest[0] == name[0] && rest[|rest| - 1] == value[|value| - 1];
    TrimIs(before, line, after);
    SplitWord("h", gap, rest);
    assert gap[1..] + rest + [] == gap[1..] + rest;
    TrimIs(gap[1..], rest, []);
    SplitWord(name, between, value);
    assert between[1..] + value + [] == between[1..] + value;
    TrimIs(between[1..], value, []);
  }

  /** The white space at the two ends of a text, and what is between. */
  lemma {:induction false} Ends(s: string) returns (a: string, m: string, b: string)
    ensures s == a + m + b && Blank(a) && Blank(b) && (m == [] || Value(m))
    decreases |s|
  {
    if s == [] {
      a, m, b := [], [], [];
    } else if s[0] in WHITE_SPACE {
      a, m, b := Ends(s[1..]);
      assert s == [s[0]] + s[1..];
      a := [s[0]] + a;
    } else if s[|s| - 1] in WHITE_SPACE {
      a, m, b := Ends(s[..|s| - 1]);
      assert s == s[..|s| - 1] + [s[|s| - 1]];
      b := b + [s[|s| - 1]];
    } else {
      a, m, b := [], s, [];
    }
  }

  /** A value is one word, or a word, white space and a value. */
  lemma {:induction false} ValueShapes(v: string, k: nat) returns (word: string, gap: string, rest: string)
    requires Value(v) && k <= |v| && forall i :: 0 <= i < k ==> v[i] !in WHITE_SPACE
    ensures if gap == [] then word == v && Word(v) && rest == []
            else v == word + gap + rest && Word(word) && Blank(gap) && Value(rest)
    decreases |v| - k
  {
    if k == |v| {
      word, gap, rest := v, [], [];
    } else if v[k] !in WHITE_SPACE {
      word, gap, rest := ValueShapes(v, k + 1);
    } else {
      var a, m, b := Ends(v[k..]);
      assert v == v[..k] + (a + m + b);
      NoBlankEnd(v, v[..k] + a + m, b);
      assert b == [] && v[k..] == a + m;
      NotAllBlank(v, v[..k], a, m);
      word, gap, rest := v[..k], a, m;
    }
  }

  lemma NoBlankEnd(v: string, most: string, b: string)
    requires Value(v) && v == most + b && Blank(b)
    ensures b == []
  {
  }

  lemma NotAllBlank(v: string, word: string, a: string, m: string)
    requires Value(v) && v == word + (a + m) && Blank(a) && (m == [] || Value(m)) && a + m != [] && (a + m)[0] in WHITE_SPACE
    ensures m != [] && a != []
  {
  }

  /** The three shapes of a line: every line has one, so what the three lemmas say of
      each is all the parser does. */
  lemma LineShapes(raw: string) returns (before: string, word: string, gap: string, value: string, after: string)
    ensures Blank(before) && Blank(after) && Blank(gap) && raw == before + word + gap + value + after
    ensures if word == [] then gap == value == after == []
            else Word(word) && if gap == [] then value == [] else Value(value)
  {
    var m;
    before, m, after := Ends(raw);
    if m == [] {
      before, word, gap, value, after := before + after, [], [], [], [];
    } else {
      word, gap, value := ValueShapes(m, 0);
    }
  }

  // ---- What a text means --------------------------------------------------------------------

  /** The rules are those of the lines `at`, in order, which are all that carry one. */
  ghost predicate TakenFrom(lines: seq<string>, rules: seq<ProtectionRule>, at: seq<nat>)
  {
    && |at| == |rules|
    && (forall k :: 0 <= k < |at| ==> at[k] < |lines| && ParseLine(lines[at[k]]) == Parsed(rules[k]))
    && (forall j, k :: 0 <= j < k < |at| ==> at[j] < at[k])
    && (forall i :: 0 <= i < |lines| && ParseLine(lines[i]).Parsed? ==> i in at)
  }

  /** A text is refused exactly for its first bad line, under its number and for its
      reason; otherwise its rules are those of its lines, in order. */
  lemma TextMeans(text: string) returns (at: seq<nat>)
    ensures forall n: nat, why: BadLine :: Parse(Lines(text), 0) == Err(ParseError(n, why)) <==>
              && 1 <= n <= |Lines(text)| && ParseLine(Lines(text)[n - 1]) == Bad(why)
              && forall k :: 0 <= k < n - 1 ==> !ParseLine(Lines(text)[k]).Bad?
    ensures Parse(Lines(text), 0).Ok? ==> TakenFrom(Lines(text), Parse(Lines(text), 0).value, at)
  {
    hide Lines, ParseLine;
    at := TakenOnwards(Lines(text), 0);
    FirstBad(Lines(text), 0);
  }

  lemma {:induction false} FirstBad(lines: seq<string>, i: nat)
    requires i <= |lines|
    ensures forall n: nat, why: BadLine :: Parse(lines, i) == Err(ParseError(n, why)) <==>
              && i < n <= |lines| && ParseLine(lines[n - 1]) == Bad(why)
              && forall k :: i <= k < n - 1 ==> !ParseLine(lines[k]).Bad?
    decreases |lines| - i
  {
    hide ParseLine;
    if i < |lines| {
      FirstBad(lines, i + 1);
    }
  }

  lemma {:induction false} TakenOnwards(lines: seq<string>, i: nat) returns (at: seq<nat>)
    requires i <= |lines|
    ensures Parse(lines, i).Ok? ==>
              var rules := Parse(lines, i).value;
              && |at| == |rules|
              && (forall k :: 0 <= k < |at| ==> i <= at[k] < |lines| && ParseLine(lines[at[k]]) == Parsed(rules[k]))
              && (forall j, k :: 0 <= j < k < |at| ==> at[j] < at[k])
              && (forall j :: i <= j < |lines| && ParseLine(lines[j]).Parsed? ==> j in at)
    decreases |lines| - i
  {
    hide ParseLine;
    at := [];
    if i < |lines| {
      at := TakenOnwards(lines, i + 1);
      if ParseLine(lines[i]).Parsed? {
        at := [i] + at;
      }
    }
  }

  /** A text's lines: what a line feed ends, without the carriage return it may
      follow, and whatever is after the last. */
  lemma LinesExactly(line: string, rest: string)
    requires '\n' !in line
    ensures Lines("") == [] && (line != "" ==> Lines(line) == [line])
    ensures (line == "" || line[|line| - 1] != '\r') ==> Lines(line + "\n" + rest) == [line] + Lines(rest)
    ensures Lines(line + "\r\n" + rest) == [line] + Lines(rest)
  {
    hide Lines, StripCr;
    NoLines();
    if line != "" {
      LastLine(line);
    }
    if line == "" || line[|line| - 1] != '\r' {
      FirstLine(line, rest);
      NoCr(line);
    }
    WithCr(line, rest);
    FirstLine(line + "\r", rest);
  }

  lemma NoCr(line: string)
    ensures line == "" || line[|line| - 1] != '\r' ==> StripCr(line) == line
  {
  }

  lemma WithCr(line: string, rest: string)
    ensures line + "\r\n" + rest == (line + "\r") + "\n" + rest && StripCr(line + "\r") == line
  {
    assert "\r\n" == "\r" + "\n";
    Regroup(line, "\r", "\n");
    assert (line + "\r")[..|line|] == line;
  }

  lemma LastLine(line: string)
    requires '\n' !in line && line != ""
    ensures Lines(line) == [line]
  {
  }

  /** What is printed: one line a rule, in order. */
  lemma PrintedExactly(rules: seq<ProtectionRule>, more: seq<ProtectionRule>, rule: ProtectionRule)
    ensures Format([]) == "" && Format(rules + more) == Format(rules) + Format(more)
    ensures Format([rule]) ==
            match rule {
              case PathPrefix(prefix) => "p " + prefix + "\n"
              case Cookie(name) => "c " + name + "\n"
              case UserAgent(needle) => "u " + needle + "\n"
              case Header(name, value) => "h " + name + " " + value + "\n"
            }
  {
    PrintedAppend(rules, more);
    assert [rule][1..] == [] && Format([]) == "";
    assert RuleLine(rule) + "\n" + "" == RuleLine(rule) + "\n";
  }

  lemma {:induction false} PrintedAppend(rules: seq<ProtectionRule>, more: seq<ProtectionRule>)
    ensures Format(rules + more) == Format(rules) + Format(more)
  {
    hide RuleLine;
    if rules == [] {
      assert rules + more == more && Format(rules) == "";
      assert "" + Format(more) == Format(more);
    } else {
      PrintedAppend(rules[1..], more);
      assert (rules + more)[1..] == rules[1..] + more;
      Regroup(RuleLine(rules[0]) + "\n", Format(rules[1..]), Format(more));
    }
  }

  lemma Regroup(a: string, b: string, c: string)
    ensures a + (b + c) == (a + b) + c
  {
  }
}
