/** The log preprocessor (src/preprocessing.rs): a rule file of
    `pattern :: replacement` lines becomes an ordered rule list, and a
    message is normalised by applying every rule's replace-all in turn.
    Regular expressions are not modelled: whether a pattern compiles and what
    replacing all its matches yields are given as functions. */
module Preprocessing {
  import opened Common

  /** The text that separates a rule's pattern from its replacement. */
  const SEPARATOR: string := " :: "

  datatype Rule = Rule(pattern: string, replacement: string)

  /** The preprocessor holds its rules in file order and never changes them. */
  datatype LogPreprocessor = LogPreprocessor(patterns: seq<Rule>)

  /** `replaceAll(pattern, replacement, message)`: every match of `pattern`
      in `message` replaced, as the regex engine's `replace_all` does. */
  type ReplaceAll = (string, string, string) -> string

  /** Whether a pattern is accepted by the regex compiler. */
  type PatternCheck = string -> bool

  /** The characters Unicode gives the White_Space property, which is what
      `str::trim` strips. */
  predicate IsWhitespace(c: char)
  {
    ('\t' <= c <= '\r') || c == ' ' || c == '\U{85}' || c == '\U{A0}' || c == '\U{1680}'
    || ('\U{2000}' <= c <= '\U{200A}') || c == '\U{2028}' || c == '\U{2029}'
    || c == '\U{202F}' || c == '\U{205F}' || c == '\U{3000}'
  }

  /** The line trims to nothing: it is empty or all white space. */
  predicate IsBlank(line: string)
  {
    forall i :: 0 <= i < |line| ==> IsWhitespace(line[i])
  }

  /** A comment is a line whose very first character is `#`; leading white
      space makes it an ordinary line. */
  predicate IsComment(line: string)
  {
    |line| > 0 && line[0] == '#'
  }

  predicate SeparatorAt(s: string, i: nat)
  {
    i + |SEPARATOR| <= |s| && s[i..i + |SEPARATOR|] == SEPARATOR
  }

  /** The first position at or after `from` where the separator starts. */
  function FindSeparator(s: string, from: nat): (r: Option<nat>)
    decreases |s| - from
    ensures r.Some? ==> from <= r.value && SeparatorAt(s, r.value)
    ensures r.Some? ==> forall j :: from <= j < r.value ==> !SeparatorAt(s, j)
    ensures r.None? ==> forall j :: from <= j ==> !SeparatorAt(s, j)
  {
    if |s| < from + |SEPARATOR| then None
    else if SeparatorAt(s, from) then Some(from)
    else FindSeparator(s, from + 1)
  }

  /** `splitn(2, " :: ")`: the text before the first separator and all the
      text after it, or nothing when the line has no separator. */
  function SplitRule(line: string): Option<Rule>
  {
    match FindSeparator(line, 0)
    case None => None
    case Some(i) => Some(Rule(line[..i], line[i + |SEPARATOR|..]))
  }

  /** The rule a line of the rule file contributes, if any. */
  function ParseLine(line: string): Option<Rule>
  {
    if IsComment(line) || IsBlank(line) then None else SplitRule(line)
  }

  /** The rules of a rule file, in file order, or the first pattern that does
      not compile. */
  function ParseRules(lines: seq<string>, compiles: PatternCheck): Result<seq<Rule>>
    decreases |lines|
  {
    if |lines| == 0 then Ok([])
    else
      match ParseRules(lines[..|lines| - 1], compiles)
      case Err(e) => Err(e)
      case Ok(rules) =>
        match ParseLine(lines[|lines| - 1])
        case None => Ok(rules)
        case Some(rule) =>
          if compiles(rule.pattern) then Ok(rules + [rule]) else Err(InvalidPattern(rule.pattern))
  }

  /** The rules of the accepted lines, in file order, ignoring compilation. */
  function Accepted(lines: seq<string>): (rules: seq<Rule>)
    ensures |rules| <= |lines|
  {
    if |lines| == 0 then []
    else
      Accepted(lines[..|lines| - 1]) +
        match ParseLine(lines[|lines| - 1]) case None => [] case Some(rule) => [rule]
  }

  /** The first rule whose pattern does not compile. */
  function FirstInvalid(rules: seq<Rule>, compiles: PatternCheck): (r: Option<Rule>)
    ensures r.None? <==> forall i :: 0 <= i < |rules| ==> compiles(rules[i].pattern)
    ensures r.Some? ==> exists i :: 0 <= i < |rules| && rules[i] == r.value && !compiles(r.value.pattern)
                                    && forall j :: 0 <= j < i ==> compiles(rules[j].pattern)
  {
    if |rules| == 0 then None
    else if !compiles(rules[0].pattern) then Some(rules[0])
    else
      var r := FirstInvalid(rules[1..], compiles);
      assert r.Some? ==> exists i :: 0 <= i < |rules[1..]| && rules[1..][i] == r.value && !compiles(r.value.pattern)
                                    && forall j :: 0 <= j < i ==> compiles(rules[1..][j].pattern);
      if r.Some? then
        var i :| 0 <= i < |rules[1..]| && rules[1..][i] == r.value && !compiles(r.value.pattern)
                  && forall j :: 0 <= j < i ==> compiles(rules[1..][j].pattern);
        assert rules[i + 1] == r.value;
        r
      else r
  }

  /** The message after every rule has been applied, first rule first. */
  function Apply(rules: seq<Rule>, message: string, replaceAll: ReplaceAll): string
    decreases |rules|
  {
    if |rules| == 0 then message
    else Apply(rules[1..], replaceAll(rules[0].pattern, rules[0].replacement, message), replaceAll)
  }

  /** The preprocessed form of every line, in order. */
  function Preprocessed(pre: LogPreprocessor, lines: seq<string>, replaceAll: ReplaceAll): (messages: seq<string>)
    ensures |messages| == |lines|
  {
    seq(|lines|, i requires 0 <= i < |lines| => Apply(pre.patterns, lines[i], replaceAll))
  }

  /** `LogPreprocessor::new`: read the rule file line by line; skip comments,
      blank lines and lines without a separator; stop at the first pattern
      that does not compile. */
  method New(lines: seq<string>, compiles: PatternCheck) returns (r: Result<LogPreprocessor>)
    ensures ParseRules(lines, compiles).Ok? ==> r == Ok(LogPreprocessor(ParseRules(lines, compiles).value))
    ensures ParseRules(lines, compiles).Err? ==> r == Err(ParseRules(lines, compiles).error)
  {
    var patterns: seq<Rule> := [];
    for i := 0 to |lines|
      invariant ParseRules(lines[..i], compiles) == Ok(patterns)
    {
      var line := lines[i];
      assert lines[..i + 1][..i] == lines[..i];
      if IsComment(line) || IsBlank(line) {
        continue;
      }
      var parts := SplitRule(line);
      if parts.Some? {
        if !compiles(parts.value.pattern) {
          ParseRulesErrorSticks(lines, compiles, i + 1);
          return Err(InvalidPattern(parts.value.pattern));
        }
        patterns := patterns + [parts.value];
      }
    }
    assert lines[..|lines|] == lines;
    return Ok(LogPreprocessor(patterns));
  }

  /** `LogPreprocessor::preprocess`: each rule rewrites the output of the
      rule before it. */
  method Preprocess(pre: LogPreprocessor, message: string, replaceAll: ReplaceAll)
    returns (processed: string)
    ensures processed == Apply(pre.patterns, message, replaceAll)
    ensures pre.patterns == [] ==> processed == message
  {
    processed := message;
    for i := 0 to |pre.patterns|
      invariant Apply(pre.patterns, message, replaceAll) == Apply(pre.patterns[i..], processed, replaceAll)
    {
      assert pre.patterns[i..][1..] == pre.patterns[i + 1..];
      processed := replaceAll(pre.patterns[i].pattern, pre.patterns[i].replacement, processed);
    }
  }

  /** The preprocessed form of every line, in order. */
  method PreprocessAll(pre: LogPreprocessor, lines: seq<string>, replaceAll: ReplaceAll)
    returns (messages: seq<string>)
    ensures |messages| == |lines|
    ensures forall i :: 0 <= i < |lines| ==> messages[i] == Apply(pre.patterns, lines[i], replaceAll)
    ensures messages == Preprocessed(pre, lines, replaceAll)
  {
    messages := [];
    for i := 0 to |lines|
      invariant |messages| == i
      invariant forall k :: 0 <= k < i ==> messages[k] == Apply(pre.patterns, lines[k], replaceAll)
    {
      var m := Preprocess(pre, lines[i], replaceAll);
      messages := messages + [m];
    }
  }

  // ----- Properties -----

  /** Once a prefix of the file has failed, the file fails with the same error. */
  lemma {:induction false} ParseRulesErrorSticks(lines: seq<string>, compiles: PatternCheck, k: nat)
    requires k <= |lines|
    requires ParseRules(lines[..k], compiles).Err?
    ensures ParseRules(lines, compiles) == ParseRules(lines[..k], compiles)
    decreases |lines|
  {
    if k < |lines| {
      var init := lines[..|lines| - 1];
      assert init[..k] == lines[..k];
      ParseRulesErrorSticks(init, compiles, k);
    } else {
      assert lines[..k] == lines;
    }
  }

  /** A line yields a rule exactly when it is neither a comment nor blank and
      the rule's pattern is the text before the line's first separator and its
      replacement all the text after that separator. */
  lemma ParseLineSpec(line: string, rule: Rule)
    ensures ParseLine(line) == Some(rule) <==>
              && !IsComment(line) && !IsBlank(line)
              && line == rule.pattern + SEPARATOR + rule.replacement
              && forall j :: 0 <= j < |rule.pattern| ==> !SeparatorAt(line, j)
    ensures ParseLine(line) == None <==>
              IsComment(line) || IsBlank(line) || forall j :: 0 <= j < |line| ==> !SeparatorAt(line, j)
  {
    var p, q := rule.pattern, rule.replacement;
    if ParseLine(line) == Some(rule) {
      var i := FindSeparator(line, 0).value;
      assert line == line[..i] + line[i..i + |SEPARATOR|] + line[i + |SEPARATOR|..];
    }
    if && !IsComment(line) && !IsBlank(line) && line == p + SEPARATOR + q
       && forall j :: 0 <= j < |p| ==> !SeparatorAt(line, j)
    {
      assert line[|p|..|p| + |SEPARATOR|] == SEPARATOR;
      assert SeparatorAt(line, |p|);
      assert FindSeparator(line, 0) == Some(|p|);
      assert line[..|p|] == p;
      assert line[|p| + |SEPARATOR|..] == q;
    }
  }

  /** The characters a separator occupies. */
  lemma SeparatorChars(s: string, i: nat)
    ensures SeparatorAt(s, i) ==> s[i] == ' ' && s[i + 1] == ':' && s[i + 2] == ':' && s[i + 3] == ' '
  {
  }

  /** A separator can only start at a space. */
  lemma NoSeparatorBeforeSpace(line: string, prefix: string)
    requires prefix <= line
    requires ' ' !in prefix
    ensures forall j :: 0 <= j < |prefix| ==> !SeparatorAt(line, j)
  {
    forall j | 0 <= j < |prefix| ensures !SeparatorAt(line, j) {
      SeparatorChars(line, j);
      assert line[j] == prefix[j];
    }
  }

  /** Only a `#` in the first column makes a comment. */
  lemma CommentExamples()
    ensures ParseLine("# a :: b") == None
    ensures ParseLine(" # a :: b") == Some(Rule(" # a", "b"))
  {
    var line := " # a :: b";
    assert !IsBlank(line) by { assert !IsWhitespace(line[1]); }
    assert line == " # a" + SEPARATOR + "b";
    forall j | 0 <= j < 4 ensures !SeparatorAt(line, j) {
      SeparatorChars(line, j);
      assert line[j + 1] != ':';
    }
    ParseLineSpec(line, Rule(" # a", "b"));
  }

  /** A line is split at its first separator, so the replacement keeps any
      later one. */
  lemma SplitExample()
    ensures ParseLine("a :: b :: c") == Some(Rule("a", "b :: c"))
  {
    var line := "a :: b :: c";
    assert !IsBlank(line) by { assert !IsWhitespace(line[0]); }
    assert line == "a" + SEPARATOR + "b :: c";
    NoSeparatorBeforeSpace(line, "a");
    ParseLineSpec(line, Rule("a", "b :: c"));
  }

  /** A line without a separator, or made of white space, is dropped without
      an error. */
  lemma DroppedExamples()
    ensures ParseLine("a => b") == None
    ensures ParseLine(" \t ") == None
  {
    var line := "a => b";
    forall j | 0 <= j < |line| ensures !SeparatorAt(line, j) {
      SeparatorChars(line, j);
      assert j + 1 < |line| ==> line[j + 1] != ':';
    }
    ParseLineSpec(line, Rule("", ""));
  }

  /** Accepting lines commutes with splitting the file: the rules of a file
      are the rules of its lines, one per accepted line, in file order. */
  lemma {:induction false} AcceptedAppend(a: seq<string>, b: seq<string>)
    ensures Accepted(a + b) == Accepted(a) + Accepted(b)
    decreases |b|
  {
    if |b| == 0 {
      assert a + b == a;
    } else {
      var init := b[..|b| - 1];
      assert (a + b)[..|a + b| - 1] == a + init;
      assert (a + b)[|a + b| - 1] == b[|b| - 1];
      AcceptedAppend(a, init);
    }
  }

  lemma {:induction false} FirstInvalidAppend(a: seq<Rule>, b: seq<Rule>, compiles: PatternCheck)
    ensures FirstInvalid(a + b, compiles) ==
              if FirstInvalid(a, compiles).Some? then FirstInvalid(a, compiles) else FirstInvalid(b, compiles)
    decreases |a|
  {
    if |a| == 0 {
      assert a + b == b;
    } else {
      assert (a + b)[0] == a[0];
      assert (a + b)[1..] == a[1..] + b;
      FirstInvalidAppend(a[1..], b, compiles);
    }
  }

  /** The parser returns exactly the accepted rules when all their patterns
      compile, and otherwise fails on the first accepted pattern that does
      not. */
  lemma {:induction false} ParseRulesSpec(lines: seq<string>, compiles: PatternCheck)
    ensures FirstInvalid(Accepted(lines), compiles).None? ==>
              ParseRules(lines, compiles) == Ok(Accepted(lines))
    ensures FirstInvalid(Accepted(lines), compiles).Some? ==>
              ParseRules(lines, compiles) == Err(InvalidPattern(FirstInvalid(Accepted(lines), compiles).value.pattern))
    decreases |lines|
  {
    if |lines| > 0 {
      var init := lines[..|lines| - 1];
      ParseRulesSpec(init, compiles);
      var last := lines[|lines| - 1];
      var tail := match ParseLine(last) case None => [] case Some(rule) => [rule];
      assert Accepted(lines) == Accepted(init) + tail;
      FirstInvalidAppend(Accepted(init), tail, compiles);
      if ParseLine(last).Some? {
        var rule := ParseLine(last).value;
        assert tail == [rule] && tail[0] == rule;
        if FirstInvalid(Accepted(lines), compiles).None? {
          assert compiles(rule.pattern);
          assert ParseRules(lines, compiles) == Ok(Accepted(init) + [rule]);
        }
      } else {
        assert tail == [];
        assert Accepted(lines) == Accepted(init);
      }
    }
  }

  /** Applying a concatenated rule list is applying the first list and then
      the second to its output. */
  lemma {:induction false} ApplyAppend(first: seq<Rule>, second: seq<Rule>, message: string, replaceAll: ReplaceAll)
    ensures Apply(first + second, message, replaceAll) == Apply(second, Apply(first, message, replaceAll), replaceAll)
    decreases |first|
  {
    if |first| == 0 {
      assert first + second == second;
    } else {
      assert (first + second)[0] == first[0];
      assert (first + second)[1..] == first[1..] + second;
      ApplyAppend(first[1..], second,
                  replaceAll(first[0].pattern, first[0].replacement, message), replaceAll);
    }
  }

  const PID_PATTERN: string := @"\[\d+\]:"
  const IP_PATTERN: string := @"\b(?:\d{1,3}\.){3}\d{1,3}\b"

  const UNIT_TEST_RULE_FILE: seq<string> := [PID_PATTERN + " :: [<PID>]:", IP_PATTERN + " :: <IP>"]
  const UNIT_TEST_RULES: seq<Rule> := [Rule(PID_PATTERN, "[<PID>]:"), Rule(IP_PATTERN, "<IP>")]

  /** A line whose pattern has no space contributes that pattern as a rule. */
  lemma RuleLine(pattern: string, replacement: string)
    requires |pattern| > 0 && pattern[0] != '#' && !IsWhitespace(pattern[0])
    requires ' ' !in pattern
    ensures ParseLine(pattern + SEPARATOR + replacement) == Some(Rule(pattern, replacement))
  {
    var line := pattern + SEPARATOR + replacement;
    assert line[0] == pattern[0];
    assert !IsBlank(line);
    NoSeparatorBeforeSpace(line, pattern);
    ParseLineSpec(line, Rule(pattern, replacement));
  }

  lemma PidRuleLine()
    ensures ParseLine(UNIT_TEST_RULE_FILE[0]) == Some(UNIT_TEST_RULES[0])
  {
    assert UNIT_TEST_RULE_FILE[0] == PID_PATTERN + SEPARATOR + "[<PID>]:";
    assert ' ' !in PID_PATTERN;
    RuleLine(PID_PATTERN, "[<PID>]:");
  }

  lemma IpRuleLine()
    ensures ParseLine(UNIT_TEST_RULE_FILE[1]) == Some(UNIT_TEST_RULES[1])
  {
    assert UNIT_TEST_RULE_FILE[1] == IP_PATTERN + SEPARATOR + "<IP>";
    assert ' ' !in IP_PATTERN;
    RuleLine(IP_PATTERN, "<IP>");
  }

  /** A file of two rule lines whose patterns compile. */
  lemma ParseTwoLines(lines: seq<string>, first: Rule, second: Rule, compiles: PatternCheck)
    requires |lines| == 2
    requires ParseLine(lines[0]) == Some(first) && ParseLine(lines[1]) == Some(second)
    requires compiles(first.pattern) && compiles(second.pattern)
    ensures ParseRules(lines, compiles) == Ok([first, second])
  {
    var one := lines[..1];
    assert one[..|one| - 1] == [] && one[|one| - 1] == lines[0];
    assert ParseRules(one[..|one| - 1], compiles) == Ok([]);
    assert ParseRules(one, compiles) == Ok([] + [first]);
    assert [] + [first] == [first] && [first] + [second] == [first, second];
    assert lines[..|lines| - 1] == one && lines[|lines| - 1] == lines[1];
    assert ParseRules(lines[..|lines| - 1], compiles) == Ok([first]);
    assert ParseLine(lines[|lines| - 1]) == Some(second);
    assert ParseRules(lines, compiles) == Ok([first] + [second]);
  }

  /** The rule file of the preprocessor's unit test parses to its two rules,
      in file order. */
  lemma UnitTestRuleFile(compiles: PatternCheck)
    requires compiles(PID_PATTERN) && compiles(IP_PATTERN)
    ensures ParseRules(UNIT_TEST_RULE_FILE, compiles) == Ok(UNIT_TEST_RULES)
  {
    PidRuleLine();
    IpRuleLine();
    ParseTwoLines(UNIT_TEST_RULE_FILE, UNIT_TEST_RULES[0], UNIT_TEST_RULES[1], compiles);
  }

  /** The two messages of the preprocessor's unit test, with the regex
      engine given only through the replacements that test relies on: the
      pid rule runs first and the address rule sees its output. */
  lemma UnitTestMessages(replaceAll: ReplaceAll)
    requires replaceAll(PID_PATTERN, "[<PID>]:", "sshd[12345]: Accepted publickey for user from 192.168.1.1 port 22")
             == "sshd[<PID>]: Accepted publickey for user from 192.168.1.1 port 22"
    requires replaceAll(IP_PATTERN, "<IP>", "sshd[<PID>]: Accepted publickey for user from 192.168.1.1 port 22")
             == "sshd[<PID>]: Accepted publickey for user from <IP> port 22"
    requires replaceAll(PID_PATTERN, "[<PID>]:", "kernel: [67890]: a message") == "kernel: [<PID>]: a message"
    requires replaceAll(IP_PATTERN, "<IP>", "kernel: [<PID>]: a message") == "kernel: [<PID>]: a message"
    ensures Apply(UNIT_TEST_RULES, "sshd[12345]: Accepted publickey for user from 192.168.1.1 port 22", replaceAll)
            == "sshd[<PID>]: Accepted publickey for user from <IP> port 22"
    ensures Apply(UNIT_TEST_RULES, "kernel: [67890]: a message", replaceAll) == "kernel: [<PID>]: a message"
  {
    ApplyTwo(UNIT_TEST_RULES[0], UNIT_TEST_RULES[1],
             "sshd[12345]: Accepted publickey for user from 192.168.1.1 port 22", replaceAll);
    ApplyTwo(UNIT_TEST_RULES[0], UNIT_TEST_RULES[1], "kernel: [67890]: a message", replaceAll);
  }

  lemma ApplyTwo(first: Rule, second: Rule, message: string, replaceAll: ReplaceAll)
    ensures Apply([first, second], message, replaceAll) ==
            replaceAll(second.pattern, second.replacement,
                       replaceAll(first.pattern, first.replacement, message))
  {
    var middle := replaceAll(first.pattern, first.replacement, message);
    assert [first, second][1..] == [second] && [second][1..] == [];
    assert Apply([first, second], message, replaceAll) == Apply([second], middle, replaceAll);
  }
}
