/**
  The redaction config: entries separated by newlines or commas, each `pattern:replacement` or a
  bare pattern, and the engine built from them.
 */
module PiiConfig {
  import opened Bytes
  import opened Utf8
  import opened Scalars
  import opened Matching
  import opened Redactor

  const DEFAULT_REPLACEMENT: string := "[REDACTED]"

  /** The Unicode White_Space property, which `str::trim` strips. */
  predicate IsWhitespace(c: char) {
    var n := c as int;
    || 0x9 <= n <= 0xD || n == 0x20 || n == 0x85 || n == 0xA0 || n == 0x1680
    || 0x2000 <= n <= 0x200A || n == 0x2028 || n == 0x2029 || n == 0x202F || n == 0x205F || n == 0x3000
  }

  predicate IsSeparator(c: char) {
    c == '\n' || c == ','
  }

  function TrimStart(s: string): string {
    if s != [] && IsWhitespace(s[0]) then TrimStart(s[1..]) else s
  }

  function TrimEnd(s: string): string {
    if s != [] && IsWhitespace(s[|s| - 1]) then TrimEnd(s[..|s| - 1]) else s
  }

  function Trim(s: string): string {
    TrimEnd(TrimStart(s))
  }

  predicate IsTrimmed(s: string) {
    s == [] || (!IsWhitespace(s[0]) && !IsWhitespace(s[|s| - 1]))
  }

  lemma {:induction false} TrimStartSpec(s: string)
    ensures var r := TrimStart(s);
            |r| <= |s| && r == s[|s| - |r|..] && (r == [] || !IsWhitespace(r[0]))
  {
    if s != [] && IsWhitespace(s[0]) {
      TrimStartSpec(s[1..]);
    }
  }

  lemma {:induction false} TrimEndSpec(s: string)
    ensures var r := TrimEnd(s);
            r <= s && (r == [] || !IsWhitespace(r[|r| - 1]))
  {
    if s != [] && IsWhitespace(s[|s| - 1]) {
      TrimEndSpec(s[..|s| - 1]);
    }
  }

  /** Trimming leaves nothing to trim, and never lengthens. */
  lemma TrimSpec(s: string)
    ensures IsTrimmed(Trim(s)) && |Trim(s)| <= |s|
  {
    TrimStartSpec(s);
    TrimEndSpec(TrimStart(s));
  }

  /** `source.split(['\n', ','])`. */
  function Entries(s: string): (r: seq<string>)
    ensures |r| > 0
  {
    if s == [] then [[]]
    else if IsSeparator(s[0]) then [[]] + Entries(s[1..])
    else
      var rest := Entries(s[1..]);
      [[s[0]] + rest[0]] + rest[1..]
  }

  /** `entry.split_once(':')`: the position of the first colon. */
  function Colon(s: string): (r: Option<nat>)
    ensures r.Some? ==> r.value < |s|
  {
    if s == [] then None
    else if s[0] == ':' then Some(0)
    else match Colon(s[1..])
      case None => None
      case Some(i) => Some(i + 1)
  }

  datatype Rule = Rule(pattern: string, replacement: string)

  /** A trimmed, nonempty entry: `pattern:replacement`, or a pattern by itself. */
  function Split(entry: string): (r: Rule)
    requires entry != []
    ensures r.pattern != [] && r.replacement != []
  {
    match Colon(entry)
    case Some(i) =>
      var pattern, replacement := Trim(entry[..i]), Trim(entry[i + 1..]);
      if pattern != [] && replacement != [] then Rule(pattern, replacement)
      else Rule(entry, DEFAULT_REPLACEMENT)
    case None => Rule(entry, DEFAULT_REPLACEMENT)
  }

  function RuleOf(raw: string): Option<Rule> {
    var entry := Trim(raw);
    if entry == [] then None else Some(Split(entry))
  }

  function RulesOf(entries: seq<string>): seq<Rule> {
    if entries == [] then []
    else match RuleOf(entries[0])
      case None => RulesOf(entries[1..])
      case Some(rule) => [rule] + RulesOf(entries[1..])
  }

  function Parse(source: string): seq<Rule> {
    RulesOf(Entries(source))
  }

  predicate Complete(rule: Rule) {
    rule.pattern != [] && rule.replacement != []
  }

  /** No parsed rule has an empty pattern or an empty replacement. */
  lemma {:induction false} RulesComplete(entries: seq<string>)
    ensures forall i | 0 <= i < |RulesOf(entries)| :: Complete(RulesOf(entries)[i])
  {
    if entries != [] {
      RulesComplete(entries[1..]);
      var first := RuleOf(entries[0]);
      assert first.Some? ==> Complete(first.value);
    }
  }

  function PatternsOf(rules: seq<Rule>): (r: seq<string>)
    ensures |r| == |rules| && forall i | 0 <= i < |r| :: r[i] == rules[i].pattern
  {
    seq(|rules|, i requires 0 <= i < |rules| => rules[i].pattern)
  }

  function ReplacementsOf(rules: seq<Rule>): (r: seq<string>)
    ensures |r| == |rules| && forall i | 0 <= i < |r| :: r[i] == rules[i].replacement
  {
    seq(|rules|, i requires 0 <= i < |rules| => rules[i].replacement)
  }

  lemma RulesStep(entries: seq<string>, i: nat, done: seq<Rule>)
    requires i < |entries|
    ensures done + RulesOf(entries[i..])
         == match RuleOf(entries[i])
            case None => done + RulesOf(entries[i + 1..])
            case Some(rule) => (done + [rule]) + RulesOf(entries[i + 1..])
  {
    assert entries[i..][0] == entries[i] && entries[i..][1..] == entries[i + 1..];
  }

  /** The body of the loop: what one raw entry contributes. */
  method ParseEntry(raw: string) returns (rule: Option<Rule>)
    ensures rule == RuleOf(raw)
  {
    var entry := Trim(raw);
    if entry == [] {
      return None;
    }
    var colon := Colon(entry);
    if colon.Some? {
      var pattern, replacement := Trim(entry[..colon.value]), Trim(entry[colon.value + 1..]);
      if pattern != [] && replacement != [] {
        return Some(Rule(pattern, replacement));
      }
    }
    return Some(Rule(entry, DEFAULT_REPLACEMENT));
  }

  lemma ListsGrow(rules: seq<Rule>, rule: Rule)
    ensures PatternsOf(rules + [rule]) == PatternsOf(rules) + [rule.pattern]
    ensures ReplacementsOf(rules + [rule]) == ReplacementsOf(rules) + [rule.replacement]
  {
  }

  /** The parser fills two lists in step. */
  method ParsePiiConfig(source: string) returns (patterns: seq<string>, replacements: seq<string>)
    ensures |patterns| == |replacements|
    ensures patterns == PatternsOf(Parse(source)) && replacements == ReplacementsOf(Parse(source))
  {
    patterns, replacements := [], [];
    var entries := Entries(source);
    ghost var done: seq<Rule> := [];
    assert entries[0..] == entries;
    for i := 0 to |entries|
      invariant done + RulesOf(entries[i..]) == Parse(source)
      invariant patterns == PatternsOf(done) && replacements == ReplacementsOf(done)
    {
      RulesStep(entries, i, done);
      var rule := ParseEntry(entries[i]);
      if rule.Some? {
        ListsGrow(done, rule.value);
        patterns := patterns + [rule.value.pattern];
        replacements := replacements + [rule.value.replacement];
        done := done + [rule.value];
      }
    }
    assert entries[|entries|..] == [];
  }

  // ---- Printing and parsing back -------------------------------------------------------------

  function Line(rule: Rule): string {
    rule.pattern + ":" + rule.replacement
  }

  function Print(rules: seq<Rule>): string {
    if rules == [] then [] else Line(rules[0]) + "\n" + Print(rules[1..])
  }

  predicate SeparatorFree(s: string) {
    forall i | 0 <= i < |s| :: !IsSeparator(s[i])
  }

  /** Trimmed, nonempty and free of entry separators. */
  predicate Printable(rule: Rule) {
    && rule.pattern != [] && IsTrimmed(rule.pattern) && SeparatorFree(rule.pattern)
    && rule.replacement != [] && IsTrimmed(rule.replacement) && SeparatorFree(rule.replacement)
  }

  lemma TrimTrimmed(s: string)
    requires IsTrimmed(s)
    ensures Trim(s) == s
  {
  }

  lemma {:induction false} ColonAt(s: string, k: nat)
    requires k < |s| && s[k] == ':'
    ensures Colon(s).Some? && Colon(s).value <= k
    ensures (forall j | 0 <= j < k :: s[j] != ':') ==> Colon(s).value == k
  {
    if k > 0 && s[0] != ':' {
      ColonAt(s[1..], k - 1);
    }
  }

  lemma ColonFirst(a: string, b: string)
    requires ':' !in a
    ensures Colon(a + ":" + b) == Some(|a|)
  {
    var s := a + ":" + b;
    assert s[|a|] == ':';
    forall j | 0 <= j < |a| ensures s[j] != ':' {
      assert s[j] == a[j];
    }
    ColonAt(s, |a|);
  }

  lemma LineParses(rule: Rule)
    requires Printable(rule) && ':' !in rule.pattern
    ensures RuleOf(Line(rule)) == Some(rule)
  {
    var s := Line(rule);
    assert s[0] == rule.pattern[0] && s[|s| - 1] == rule.replacement[|rule.replacement| - 1];
    TrimTrimmed(s);
    ColonFirst(rule.pattern, rule.replacement);
    assert s[..|rule.pattern|] == rule.pattern && s[|rule.pattern| + 1..] == rule.replacement;
    TrimTrimmed(rule.pattern);
    TrimTrimmed(rule.replacement);
  }

  /** A pattern holding a colon never comes back: the entry is split inside it. */
  lemma ColonSplitsPattern(rule: Rule)
    requires Printable(rule) && ':' in rule.pattern
    ensures RuleOf(Line(rule)).Some? && RuleOf(Line(rule)).value.pattern != rule.pattern
  {
    var s := Line(rule);
    assert s[0] == rule.pattern[0] && s[|s| - 1] == rule.replacement[|rule.replacement| - 1];
    TrimTrimmed(s);
    var k :| 0 <= k < |rule.pattern| && rule.pattern[k] == ':';
    ColonAt(s, k);
    SplitIsOther(s, |rule.pattern|);
  }

  /** Split at a colon before position `n`: the pattern is shorter than `n` or the whole entry. */
  lemma SplitIsOther(entry: string, n: nat)
    requires n < |entry| && Colon(entry).Some? && Colon(entry).value < n
    ensures |Split(entry).pattern| != n
  {
    TrimSpec(entry[..Colon(entry).value]);
  }

  /** One printed rule parses back to itself if and only if its pattern has no colon. */
  lemma RuleRoundTripIff(rule: Rule)
    requires Printable(rule)
    ensures RuleOf(Line(rule)) == Some(rule) <==> ':' !in rule.pattern
  {
    if ':' in rule.pattern {
      ColonSplitsPattern(rule);
    } else {
      LineParses(rule);
    }
  }

  lemma SplitsInTwo(line: string, left: string, right: string)
    requires line == left + ":" + right && ':' !in left && IsTrimmed(line)
    requires left != [] && IsTrimmed(left) && right != [] && IsTrimmed(right)
    ensures RuleOf(line) == Some(Rule(left, right))
  {
    TrimTrimmed(line);
    ColonFirst(left, right);
    assert line[..|left|] == left && line[|left| + 1..] == right;
    TrimTrimmed(left);
    TrimTrimmed(right);
  }

  /** The rule for `a:b` with replacement `c` comes back as the rule for `a` with replacement `b:c`. */
  lemma ColonInPatternExample()
    ensures RuleOf(Line(Rule("a:b", "c"))) == Some(Rule("a", "b:c"))
    ensures Rule("a", "b:c") != Rule("a:b", "c")
  {
    assert Line(Rule("a:b", "c")) == "a" + ":" + "b:c";
    SplitsInTwo(Line(Rule("a:b", "c")), "a", "b:c");
    assert |Rule("a", "b:c").pattern| == 1 && |Rule("a:b", "c").pattern| == 3;
  }

  lemma SeparatorFreeLine(rule: Rule)
    requires Printable(rule)
    ensures SeparatorFree(Line(rule))
  {
    assert !IsSeparator(':');
  }

  lemma ParseFirst(rules: seq<Rule>)
    requires rules != [] && Printable(rules[0])
    ensures Parse(Print(rules)) == match RuleOf(Line(rules[0]))
                                   case None => Parse(Print(rules[1..]))
                                   case Some(rule) => [rule] + Parse(Print(rules[1..]))
  {
    var line := Line(rules[0]);
    SeparatorFreeLine(rules[0]);
    EntriesUpTo(line, '\n', Print(rules[1..]));
    assert "\n" == ['\n'];
    assert ([line] + Entries(Print(rules[1..])))[1..] == Entries(Print(rules[1..]));
  }

  lemma HeadLost(rules: seq<Rule>)
    requires rules != [] && Printable(rules[0]) && ':' in rules[0].pattern
    ensures Parse(Print(rules)) != rules
  {
    ParseFirst(rules);
    ColonSplitsPattern(rules[0]);
  }

  lemma HeadKept(rules: seq<Rule>)
    requires rules != [] && Printable(rules[0]) && ':' !in rules[0].pattern
    ensures Parse(Print(rules)) == rules <==> Parse(Print(rules[1..])) == rules[1..]
  {
    ParseFirst(rules);
    LineParses(rules[0]);
    SameHead(rules, Parse(Print(rules[1..])));
  }

  lemma SameHead(rules: seq<Rule>, rest: seq<Rule>)
    requires rules != []
    ensures [rules[0]] + rest == rules <==> rest == rules[1..]
  {
    assert ([rules[0]] + rest)[1..] == rest && [rules[0]] + rules[1..] == rules;
  }

  predicate ColonFree(rules: seq<Rule>) {
    forall i | 0 <= i < |rules| :: ':' !in rules[i].pattern
  }

  /** Printed and parsed again, printable rules come back the same iff no pattern among them has a colon. */
  lemma {:induction false} ConfigRoundTripIff(rules: seq<Rule>)
    requires forall i | 0 <= i < |rules| :: Printable(rules[i])
    ensures Parse(Print(rules)) == rules <==> ColonFree(rules)
  {
    if rules == [] {
      var nothing: seq<string> := [[]];
      assert Entries([]) == nothing && RuleOf([]) == None && nothing[1..] == [];
    } else if ':' in rules[0].pattern {
      HeadLost(rules);
    } else {
      HeadKept(rules);
      ConfigRoundTripIff(rules[1..]);
      assert ColonFree(rules) <==> ColonFree(rules[1..]) by {
        assert rules == [rules[0]] + rules[1..];
      }
    }
  }

  // ---- The engine built from a config --------------------------------------------------------

  function EncodeAll(ss: seq<string>): (r: seq<ByteString>)
    ensures |r| == |ss| && forall i | 0 <= i < |r| :: r[i] == Encode(ss[i])
  {
    seq(|ss|, i requires 0 <= i < |ss| => Encode(ss[i]))
  }

  function EngineOf(patterns: seq<string>, replacements: seq<string>): Engine {
    Engine(EncodeAll(patterns), EncodeAll(replacements))
  }

  /**
    Every config text yields an engine that scans: equal list lengths, no empty pattern, and a
    replacement for every match the scan of any text can report.
   */
  lemma ConfigIsSound(source: string)
    ensures var e := EngineOf(PatternsOf(Parse(source)), ReplacementsOf(Parse(source)));
            && Sound(e) && Usable(e)
            && forall w: ByteString, from: nat | from <= |w| && Next(e.patterns, w, from).Some? ::
                 Next(e.patterns, w, from).value.pattern < |e.replacements|
  {
    var rules := Parse(source);
    RulesComplete(Entries(source));
    var e := EngineOf(PatternsOf(rules), ReplacementsOf(rules));
    forall k | 0 <= k < |e.patterns| ensures e.patterns[k] != [] && WellFormed(e.patterns[k]) {
      assert Complete(rules[k]);
      EncodeWellFormed(rules[k].pattern);
    }
  }

  // ---- Every kind of entry ---------------------------------------------------------------------

  /** Nothing but whitespace. */
  predicate Blank(s: string) {
    forall i | 0 <= i < |s| :: IsWhitespace(s[i])
  }

  lemma {:induction false} TrimStartPast(a: string, u: string)
    requires Blank(a)
    ensures TrimStart(a + u) == TrimStart(u)
  {
    if a == [] {
      assert a + u == u;
    } else {
      assert (a + u)[1..] == a[1..] + u;
      TrimStartPast(a[1..], u);
    }
  }

  lemma {:induction false} TrimEndPast(u: string, b: string)
    requires Blank(b)
    ensures TrimEnd(u + b) == TrimEnd(u)
  {
    if b == [] {
      assert u + b == u;
    } else {
      var n := |b| - 1;
      assert (u + b)[..|u + b| - 1] == u + b[..n];
      TrimEndPast(u, b[..n]);
    }
  }

  /** Whitespace around a trimmed text goes, the text stays. */
  lemma TrimPads(a: string, t: string, b: string)
    requires Blank(a) && Blank(b) && IsTrimmed(t)
    ensures Trim(a + t + b) == t
  {
    assert a + t + b == a + (t + b);
    TrimStartPast(a, t + b);
    if t == [] {
      assert t + b == b && b + [] == b;
      TrimStartPast(b, []);
    } else {
      assert (t + b)[0] == t[0];
      TrimEndPast(t, b);
    }
  }

  lemma {:induction false} TrimmedAway(s: string)
    ensures Trim(s) == [] <==> Blank(s)
  {
    if Blank(s) {
      assert s + [] + [] == s;
      TrimPads(s, [], []);
    } else {
      var i :| 0 <= i < |s| && !IsWhitespace(s[i]);
      TrimStartKeeps(s, i);
      TrimEndKeeps(TrimStart(s));
    }
  }

  lemma {:induction false} TrimStartKeeps(s: string, i: nat)
    requires i < |s| && !IsWhitespace(s[i])
    ensures TrimStart(s) != [] && !IsWhitespace(TrimStart(s)[0])
  {
    if IsWhitespace(s[0]) {
      TrimStartKeeps(s[1..], i - 1);
    }
  }

  lemma {:induction false} TrimEndKeeps(s: string)
    requires s != [] && !IsWhitespace(s[0])
    ensures TrimEnd(s) != []
  {
    if IsWhitespace(s[|s| - 1]) {
      TrimEndKeeps(s[..|s| - 1]);
    }
  }

  /** An entry ends at the first newline or comma. */
  lemma {:induction false} EntriesUpTo(entry: string, separator: char, rest: string)
    requires SeparatorFree(entry) && IsSeparator(separator)
    ensures Entries(entry + [separator] + rest) == [entry] + Entries(rest)
    decreases |entry|
  {
    var s := entry + [separator] + rest;
    if entry == [] {
      assert s[1..] == rest;
    } else {
      assert s[1..] == entry[1..] + [separator] + rest;
      EntriesUpTo(entry[1..], separator, rest);
      assert [entry[0]] + entry[1..] == entry;
    }
  }

  lemma ParseUpTo(entry: string, separator: char, rest: string)
    requires SeparatorFree(entry) && IsSeparator(separator)
    ensures Parse(entry + [separator] + rest)
         == match RuleOf(entry)
            case None => Parse(rest)
            case Some(rule) => [rule] + Parse(rest)
  {
    EntriesUpTo(entry, separator, rest);
    assert ([entry] + Entries(rest))[1..] == Entries(rest);
  }

  /** A bare pattern, with any whitespace around it, is replaced by `[REDACTED]`. */
  lemma BarePattern(a: string, s: string, b: string, separator: char, rest: string)
    requires Blank(a) && Blank(b) && s != [] && IsTrimmed(s) && ':' !in s
    requires SeparatorFree(a + s + b) && IsSeparator(separator)
    ensures Parse(a + s + b + [separator] + rest) == [Rule(s, "[REDACTED]")] + Parse(rest)
  {
    TrimPads(a, s, b);
    NoColon(s);
    ParseUpTo(a + s + b, separator, rest);
  }

  lemma {:induction false} NoColon(s: string)
    requires ':' !in s
    ensures Colon(s).None?
  {
    if s != [] {
      NoColon(s[1..]);
    }
  }

  lemma RuleOfSides(a: string, left: string, right: string, d: string, s: string, t: string)
    requires Blank(a) && Blank(d) && ':' !in left && IsTrimmed(left + ":" + right)
    requires Trim(left) == s != [] && Trim(right) == t != []
    ensures RuleOf(a + (left + ":" + right) + d) == Some(Rule(s, t))
  {
    var entry := left + ":" + right;
    TrimPads(a, entry, d);
    ColonFirst(left, right);
    assert entry[..|left|] == left && entry[|left| + 1..] == right;
  }

  lemma NoColonInPadded(s: string, b: string)
    requires ':' !in s && Blank(b)
    ensures ':' !in s + b
  {
    assert !IsWhitespace(':');
  }

  /** A pattern and its replacement, with any whitespace around either. */
  lemma PatternWithReplacement(a: string, s: string, b: string, c: string, t: string, d: string, separator: char, rest: string)
    requires Blank(a) && Blank(b) && Blank(c) && Blank(d) && s != [] && IsTrimmed(s) && ':' !in s && t != [] && IsTrimmed(t)
    requires SeparatorFree(a + (s + b + ":" + (c + t)) + d) && IsSeparator(separator)
    ensures Parse(a + (s + b + ":" + (c + t)) + d + [separator] + rest) == [Rule(s, t)] + Parse(rest)
  {
    var entry := s + b + ":" + (c + t);
    assert entry[0] == s[0] && entry[|entry| - 1] == t[|t| - 1];
    NoColonInPadded(s, b);
    assert [] + s + b == s + b && c + t + [] == c + t;
    TrimPads([], s, b);
    TrimPads(c, t, []);
    RuleOfSides(a, s + b, c + t, d, s, t);
    ParseUpTo(a + entry + d, separator, rest);
  }

  /** Nothing before or nothing behind the first colon: the whole entry is the pattern. */
  lemma HalfEmptyEntry(a: string, left: string, right: string, b: string, separator: char, rest: string)
    requires Blank(a) && Blank(b) && ':' !in left && (Blank(left) || Blank(right))
    requires IsTrimmed(left + ":" + right) && SeparatorFree(a + (left + ":" + right) + b) && IsSeparator(separator)
    ensures Parse(a + (left + ":" + right) + b + [separator] + rest) == [Rule(left + ":" + right, "[REDACTED]")] + Parse(rest)
  {
    var entry := left + ":" + right;
    TrimPads(a, entry, b);
    ColonFirst(left, right);
    assert entry[..|left|] == left && entry[|left| + 1..] == right;
    TrimmedAway(left);
    TrimmedAway(right);
    ParseUpTo(a + entry + b, separator, rest);
  }

  /** A blank entry adds nothing. */
  lemma BlankEntry(entry: string, separator: char, rest: string)
    requires Blank(entry) && SeparatorFree(entry) && IsSeparator(separator)
    ensures Parse(entry + [separator] + rest) == Parse(rest)
  {
    TrimmedAway(entry);
    ParseUpTo(entry, separator, rest);
  }

  /** The last entry needs no separator. */
  lemma LastEntry(entry: string)
    requires SeparatorFree(entry)
    ensures Parse(entry) == Parse(entry + ['\n'] + [])
  {
    EntriesUpTo(entry, '\n', []);
    OnlyEntry(entry);
    var nothing: seq<string> := [[]];
    assert Entries([]) == nothing && nothing[1..] == [] && RuleOf([]) == None;
    assert RulesOf(nothing) == [];
    assert ([entry] + nothing)[0] == entry && ([entry] + nothing)[1..] == nothing && [entry][1..] == [];
    assert entry + ['\n'] + [] == entry + ['\n'];
  }

  lemma {:induction false} OnlyEntry(entry: string)
    requires SeparatorFree(entry)
    ensures Entries(entry) == [entry]
  {
    if entry != [] {
      OnlyEntry(entry[1..]);
      assert [entry[0]] + entry[1..] == entry;
    }
  }

  /** Stretches between separators that hold something visible; `seen` says whether the first already does. */
  function Visible(s: string, seen: bool): nat {
    if s == [] then if seen then 1 else 0
    else if IsSeparator(s[0]) then (if seen then 1 else 0) + Visible(s[1..], false)
    else Visible(s[1..], seen || !IsWhitespace(s[0]))
  }

  lemma {:induction false} VisibleEntries(s: string, seen: bool)
    ensures Visible(s, seen) == (if seen || !Blank(Entries(s)[0]) then 1 else 0) + |RulesOf(Entries(s)[1..])|
  {
    if s != [] {
      var tail := Entries(s[1..]);
      if IsSeparator(s[0]) {
        VisibleEntries(s[1..], false);
        assert Entries(s)[1..] == tail && Entries(s)[0] == [];
        TrimmedAway(tail[0]);
      } else {
        VisibleEntries(s[1..], seen || !IsWhitespace(s[0]));
        assert Entries(s)[1..] == tail[1..] && Entries(s)[0] == [s[0]] + tail[0];
        assert Blank([s[0]] + tail[0]) <==> IsWhitespace(s[0]) && Blank(tail[0]) by {
          assert ([s[0]] + tail[0])[0] == s[0] && ([s[0]] + tail[0])[1..] == tail[0];
        }
      }
    }
  }

  /** There is one rule for every entry that is not blank. */
  lemma RuleCount(source: string)
    ensures |Parse(source)| == Visible(source, false)
  {
    VisibleEntries(source, false);
    TrimmedAway(Entries(source)[0]);
  }

  // ---- From the config to the redacted text ---------------------------------------------------------

  /** A pattern read from a config is redacted to the replacement read with it. */
  lemma ConfigRedacts(rule: Rule)
    requires rule.pattern != []
    ensures var e := EngineOf(PatternsOf([rule]), ReplacementsOf([rule]));
            Usable(e) && OneShot(e, Encode(rule.pattern), 0) == Encode(rule.replacement)
  {
    var e := EngineOf(PatternsOf([rule]), ReplacementsOf([rule]));
    OnePatternReplaced(e, Encode(rule.pattern));
  }

  lemma OnePatternReplaced(e: Engine, text: ByteString)
    requires e.patterns == [text] && |e.replacements| == 1 && text != []
    ensures Usable(e) && OneShot(e, text, 0) == e.replacements[0]
  {
    assert Usable(e);
    var hit := Match(0, 0, |text|);
    assert text[0..|text|] == text;
    NextIs(e.patterns, text, 0, hit);
    NextSpec(e.patterns, text, |text|);
    assert OneShot(e, text, |text|) == [];
    assert text[0..0] == [] && [] + e.replacements[0] + [] == e.replacements[0];
  }
}
