/**
 * `humanize_string`: the fixed, ordered rule table, each enabled rule
 * applied to the previous rule's output while the count grows by the total
 * length of the rule's matches, then the optional keyboard-only filter.
 */
module Humanizer {
  import opened Strings
  import opened Settings
  import opened Patterns
  import opened Keyboard
  import opened TrailingWhitespace

  /** One row of the rule table: what to match, what to put in its place, and which switch gates it. */
  datatype Rule = Rule(pattern: Pattern, replacement: string, gate: Gate)

  /** The result of humanizing a string: the new text and the number of characters affected. */
  datatype Outcome = Outcome(text: string, count: nat)

  /**
   * `IGNORABLE_SYMBOLS`: soft hyphen, Mongolian vowel separator, U+200B to
   * U+200F, U+202A to U+202E, word joiner, U+2066 to U+2069 and the byte
   * order mark.
   */
  const IgnorableSymbols: CharClass := [
    ('\U{00AD}', '\U{00AD}'), ('\U{180E}', '\U{180E}'), ('\U{200B}', '\U{200F}'),
    ('\U{202A}', '\U{202E}'), ('\U{2060}', '\U{2060}'), ('\U{2066}', '\U{2069}'),
    ('\U{FEFF}', '\U{FEFF}')]

  predicate IsIgnorable(c: char)
  {
    InClass(IgnorableSymbols, c)
  }

  /**
   * The rule table, in the order the rules run. The classes are the ones
   * the patterns spell out: the dash class lists U+2014 twice and U+2013
   * once; the double-quote class holds the straight quote (twice), the two
   * guillemets and the low double quote; the single-quote class, after
   * string-literal concatenation, holds only U+02BC.
   */
  const Rules: seq<Rule> := [
    Rule(AnyOf(IgnorableSymbols), "", TransformHidden),
    Rule(TrailingBlanks, "", TransformTrailingWhitespace),
    Rule(AnyOf([('\U{00A0}', '\U{00A0}')]), " ", TransformNbs),
    Rule(AnyOf([('\U{2014}', '\U{2014}'), ('\U{2013}', '\U{2013}'), ('\U{2014}', '\U{2014}')]), "-", TransformDashes),
    Rule(AnyOf([('"', '"'), ('"', '"'), ('\U{00AB}', '\U{00AB}'), ('\U{00BB}', '\U{00BB}'), ('\U{201E}', '\U{201E}')]), "\"", TransformQuotes),
    Rule(AnyOf([('\U{02BC}', '\U{02BC}')]), "'", TransformQuotes),
    Rule(AnyOf([('\U{2026}', '\U{2026}')]), "...", TransformOther)
  ]

  /** One pass of the loop over the table: a disabled rule leaves text and count alone. */
  function ApplyRule(rule: Rule, o: Options, acc: Outcome): (r: Outcome)
    ensures acc.count <= r.count
  {
    if Enabled(o, rule.gate) then
      Outcome(Sub(rule.pattern, rule.replacement, acc.text),
              acc.count + TotalLen(Findall(rule.pattern, acc.text)))
    else acc
  }

  /** The rules of `rules` applied in order, each to the previous one's output. */
  function ApplyRules(rules: seq<Rule>, o: Options, start: Outcome): (r: Outcome)
  {
    if rules == [] then start
    else ApplyRule(rules[|rules| - 1], o, ApplyRules(rules[..|rules| - 1], o, start))
  }

  /** `humanize_string(text, options)` with `options` already resolved. */
  function Humanize(text: string, o: Options, tables: UnicodeTables): (r: Outcome)
  {
    var ruled := ApplyRules(Rules, o, Outcome(text, 0));
    if o.keyboardOnly then
      Outcome(KeepAllowed(tables, ruled.text), ruled.count + CountDisallowed(tables, ruled.text))
    else ruled
  }

  /** The loop `for match in matches: count += len(match)`: the total length of the matches. */
  method CountMatched(matches: seq<string>) returns (total: nat)
    ensures total == TotalLen(matches)
  {
    total := 0;
    for j := 0 to |matches|
      invariant total == TotalLen(matches[..j])
    {
      assert matches[..j + 1][..j] == matches[..j];
      total := total + |matches[j]|;
    }
    assert matches[..|matches|] == matches;
  }

  /**
   * The keyboard-only loop: each allowed code point is appended to the new
   * text, each other one counted.
   */
  method FilterKeyboard(t: string, tables: UnicodeTables) returns (newText: string, dropped: nat)
    ensures newText == KeepAllowed(tables, t)
    ensures dropped == CountDisallowed(tables, t)
  {
    newText, dropped := "", 0;
    for i := 0 to |t|
      invariant newText == KeepAllowed(tables, t[..i])
      invariant dropped == CountDisallowed(tables, t[..i])
    {
      assert t[..i + 1][..i] == t[..i];
      if Allowed(tables, t[i]) {
        newText := newText + [t[i]];
      } else {
        dropped := dropped + 1;
      }
    }
    assert t[..|t|] == t;
  }

  /**
   * The loop over the rule table: each enabled rule adds the length of its
   * matches to the count, then substitutes.
   */
  method RunRules(text: string, o: Options) returns (r: Outcome)
    ensures r == ApplyRules(Rules, o, Outcome(text, 0))
  {
    var count: nat := 0;
    var t := text;
    for i := 0 to |Rules|
      invariant Outcome(t, count) == ApplyRules(Rules[..i], o, Outcome(text, 0))
    {
      assert Rules[..i + 1][..i] == Rules[..i];
      var rule := Rules[i];
      if Enabled(o, rule.gate) {
        var matched := CountMatched(Findall(rule.pattern, t));
        count := count + matched;
        t := Sub(rule.pattern, rule.replacement, t);
      }
    }
    assert Rules[..|Rules|] == Rules;
    r := Outcome(t, count);
  }

  /** `humanize_string`: the defaults when no options are given, the rule table, then the keyboard filter. */
  method HumanizeString(text: string, options: Option<Options>, tables: UnicodeTables) returns (r: Outcome)
    ensures r == Humanize(text, Resolve(options), tables)
  {
    var o := Resolve(options);
    r := RunRules(text, o);
    if o.keyboardOnly {
      var newText, dropped := FilterKeyboard(r.text, tables);
      r := Outcome(newText, r.count + dropped);
    }
  }

  /** Running `a` then `b` is running their concatenation. */
  lemma {:induction false} ApplyRulesConcat(a: seq<Rule>, b: seq<Rule>, o: Options, start: Outcome)
    ensures ApplyRules(a + b, o, start) == ApplyRules(b, o, ApplyRules(a, o, start))
    decreases |b|
  {
    if b == [] {
      assert a + b == a;
    } else {
      assert (a + b)[..|a + b| - 1] == a + b[..|b| - 1];
      ApplyRulesConcat(a, b[..|b| - 1], o, start);
    }
  }

  /** A rule whose switch is off has no effect: the table behaves as if that row were absent. */
  lemma GateOffSkipsRule(rules: seq<Rule>, i: nat, o: Options, start: Outcome)
    requires i < |rules| && !Enabled(o, rules[i].gate)
    ensures ApplyRules(rules, o, start) == ApplyRules(rules[..i] + rules[i + 1..], o, start)
  {
    var a, b := rules[..i], rules[i + 1..];
    assert rules == (a + [rules[i]]) + b;
    ApplyRulesConcat(a + [rules[i]], b, o, start);
    ApplyRulesConcat(a, [rules[i]], o, start);
    assert [rules[i]][..0] == [];
    ApplyRulesConcat(a, b, o, start);
  }

  /** With every switch off, nothing changes and the count is zero. */
  lemma {:induction false} AllOffChangesNothing(rules: seq<Rule>, o: Options, start: Outcome)
    requires forall i :: 0 <= i < |rules| ==> !Enabled(o, rules[i].gate)
    ensures ApplyRules(rules, o, start) == start
    decreases |rules|
  {
    if rules != [] {
      AllOffChangesNothing(rules[..|rules| - 1], o, start);
    }
  }

  lemma AllSwitchesOff(text: string, tables: UnicodeTables)
    ensures Humanize(text, Options(false, false, false, false, false, false, false), tables) == Outcome(text, 0)
  {
    var o := Options(false, false, false, false, false, false, false);
    AllOffChangesNothing(Rules, o, Outcome(text, 0));
  }

  /**
   * The count never goes down along the table, and when the table adds
   * nothing to it the text is unchanged.
   */
  lemma {:induction false} ZeroCountRulesChangeNothing(rules: seq<Rule>, o: Options, start: Outcome)
    ensures ApplyRules(rules, o, start).count >= start.count
    ensures ApplyRules(rules, o, start).count == start.count ==> ApplyRules(rules, o, start).text == start.text
    decreases |rules|
  {
    if rules != [] {
      var init := rules[..|rules| - 1];
      ZeroCountRulesChangeNothing(init, o, start);
      var mid := ApplyRules(init, o, start);
      var rule := rules[|rules| - 1];
      if Enabled(o, rule.gate) && TotalLen(Findall(rule.pattern, mid.text)) == 0 {
        NoMatchesNoChange(rule.pattern, rule.replacement, mid.text);
      }
    }
  }

  /** A zero count means `humanize_string` returned its input unchanged. */
  lemma ZeroCountChangesNothing(text: string, o: Options, tables: UnicodeTables)
    ensures Humanize(text, o, tables).count == 0 ==> Humanize(text, o, tables).text == text
  {
    var ruled := ApplyRules(Rules, o, Outcome(text, 0));
    ZeroCountRulesChangeNothing(Rules, o, Outcome(text, 0));
    if o.keyboardOnly {
      NothingDisallowedKeepsAll(tables, ruled.text);
    }
  }

  /** When `findall` reports nothing, `sub` changes nothing. */
  lemma NoMatchesNoChange(p: Pattern, rep: string, s: string)
    requires TotalLen(Findall(p, s)) == 0
    ensures Sub(p, rep, s) == s
  {
    NoMatchesNoChangeAux(p, rep, s);
  }

  lemma {:induction false} NoMatchesNoChangeAux(p: Pattern, rep: string, s: string)
    ensures Findall(p, s) == [] ==> Sub(p, rep, s) == s
    decreases |s|
  {
    if s != [] {
      match p
      case AnyOf(cls) =>
        NoMatchesNoChangeAux(p, rep, s[1..]);
        if Findall(p, s) == [] {
          assert s == [s[0]] + s[1..];
        }
      case TrailingBlanks =>
        var k := BlankRun(s);
        if k == 0 {
          NoMatchesNoChangeAux(p, rep, s[1..]);
          assert s == [s[0]] + s[1..];
        } else {
          NoMatchesNoChangeAux(p, rep, s[k..]);
          if Findall(p, s) == [] {
            assert s == s[..k] + s[k..];
          }
        }
    }
  }

  /** The table runs rule 1 first and rule 7 last, each on the previous rule's output. */
  lemma PipelineOrder(o: Options, start: Outcome)
    ensures ApplyRules(Rules, o, start) ==
      ApplyRule(Rules[6], o, ApplyRule(Rules[5], o, ApplyRule(Rules[4], o,
        ApplyRule(Rules[3], o, ApplyRule(Rules[2], o, ApplyRule(Rules[1], o,
          ApplyRule(Rules[0], o, start)))))))
  {
    SevenRulesInOrder(Rules, o, start);
  }

  lemma SevenRulesInOrder(rules: seq<Rule>, o: Options, start: Outcome)
    requires |rules| == 7
    ensures ApplyRules(rules, o, start) ==
      ApplyRule(rules[6], o, ApplyRule(rules[5], o, ApplyRule(rules[4], o,
        ApplyRule(rules[3], o, ApplyRule(rules[2], o, ApplyRule(rules[1], o,
          ApplyRule(rules[0], o, start)))))))
  {
    var r1 := ApplyRule(rules[0], o, start);
    var r2 := ApplyRule(rules[1], o, r1);
    var r3 := ApplyRule(rules[2], o, r2);
    var r4 := ApplyRule(rules[3], o, r3);
    var r5 := ApplyRule(rules[4], o, r4);
    var r6 := ApplyRule(rules[5], o, r5);
    assert rules[..0] == [];
    ApplyRulesPrefix(rules, 0, o, start);
    assert ApplyRules(rules[..1], o, start) == r1;
    ApplyRulesPrefix(rules, 1, o, start);
    assert ApplyRules(rules[..2], o, start) == r2;
    ApplyRulesPrefix(rules, 2, o, start);
    assert ApplyRules(rules[..3], o, start) == r3;
    ApplyRulesPrefix(rules, 3, o, start);
    assert ApplyRules(rules[..4], o, start) == r4;
    ApplyRulesPrefix(rules, 4, o, start);
    assert ApplyRules(rules[..5], o, start) == r5;
    ApplyRulesPrefix(rules, 5, o, start);
    assert ApplyRules(rules[..6], o, start) == r6;
    ApplyRulesPrefix(rules, 6, o, start);
    assert rules[..7] == rules;
  }

  lemma ApplyRulesPrefix(rules: seq<Rule>, k: nat, o: Options, start: Outcome)
    requires k < |rules|
    ensures ApplyRules(rules[..k + 1], o, start) == ApplyRule(rules[k], o, ApplyRules(rules[..k], o, start))
  {
    assert rules[..k + 1][..k] == rules[..k];
  }

  /**
   * Length accounting per rule: rules 1 and 2 shorten the text by what
   * they add to the count, rules 3 to 6 keep its length, rule 7 lengthens
   * it by two for every ellipsis it counts.
   */
  lemma RuleLengths(i: nat, o: Options, acc: Outcome)
    requires i < |Rules|
    ensures var next := ApplyRule(Rules[i], o, acc);
      next.count >= acc.count &&
      (i <= 1 ==> |next.text| == |acc.text| - (next.count - acc.count)) &&
      (2 <= i <= 5 ==> |next.text| == |acc.text|) &&
      (i == 6 ==> |next.text| == |acc.text| + 2 * (next.count - acc.count))
  {
    var rule := Rules[i];
    if Enabled(o, rule.gate) {
      SubLength(rule.pattern, rule.replacement, acc.text);
      if i != 1 {
        ClassMatchLength(rule.pattern.cls, acc.text);
      }
    }
  }

  /** Every character a replacement introduces is ASCII, so none is ignorable. */
  lemma ReplacementsNotIgnorable()
    ensures forall i, c :: 1 <= i < |Rules| && c in Rules[i].replacement ==> !IsIgnorable(c)
  {
    forall c | c < '\U{00AD}' ensures !IsIgnorable(c) {
      InClassAtLeast(IgnorableSymbols, '\U{00AD}', c);
    }
  }

  predicate NoIgnorable(s: string)
  {
    forall c :: c in s ==> !IsIgnorable(c)
  }

  /** Rules whose replacements hold no ignorable character never bring one back. */
  lemma {:induction false} RulesKeepIgnorableOut(rules: seq<Rule>, o: Options, start: Outcome)
    requires NoIgnorable(start.text)
    requires forall i :: 0 <= i < |rules| ==> NoIgnorable(rules[i].replacement)
    ensures NoIgnorable(ApplyRules(rules, o, start).text)
    decreases |rules|
  {
    if rules != [] {
      var init := rules[..|rules| - 1];
      RulesKeepIgnorableOut(init, o, start);
      var rule := rules[|rules| - 1];
      SubChars(rule.pattern, rule.replacement, ApplyRules(init, o, start).text);
    }
  }

  /** With `transform_hidden` on, no `IGNORABLE_SYMBOLS` character is left in the result. */
  lemma HiddenCharactersGone(text: string, o: Options, tables: UnicodeTables)
    requires o.transformHidden
    ensures NoIgnorable(Humanize(text, o, tables).text)
  {
    var start := Outcome(text, 0);
    ApplyRulesConcat(Rules[..1], Rules[1..], o, start);
    assert Rules[..1] + Rules[1..] == Rules;
    assert Rules[..1][..0] == [];
    var first := ApplyRules(Rules[..1], o, start);
    ClassSubClears(IgnorableSymbols, "", text);
    assert NoIgnorable(first.text);
    ReplacementsNotIgnorable();
    RulesKeepIgnorableOut(Rules[1..], o, first);
    var ruled := ApplyRules(Rules, o, start);
    if o.keyboardOnly {
      KeepAllowedSpec(tables, ruled.text);
      SubsequenceChars(KeepAllowed(tables, ruled.text), ruled.text);
    }
  }

  /**
   * What a character rule adds to the count: one for every character of
   * its class in the text it is given, when its switch is on.
   */
  lemma ClassRuleCount(i: nat, o: Options, acc: Outcome)
    requires i < |Rules| && i != 1
    ensures Rules[i].pattern.AnyOf?
    ensures ApplyRule(Rules[i], o, acc).count ==
      acc.count + if Enabled(o, Rules[i].gate) then CountIn(Rules[i].pattern.cls, acc.text) else 0
  {
    ClassFindallCount(Rules[i].pattern.cls, acc.text);
  }

  /**
   * Rule 1 exactly: with `transform_hidden` on, the text loses precisely
   * its `IGNORABLE_SYMBOLS` characters, every other one kept in order, and
   * the count grows by their number.
   */
  lemma HiddenRuleExact(o: Options, acc: Outcome)
    ensures ApplyRule(Rules[0], o, acc) ==
      if o.transformHidden
      then Outcome(Outside(IgnorableSymbols, acc.text), acc.count + CountIn(IgnorableSymbols, acc.text))
      else acc
  {
    ClassRuleCount(0, o, acc);
    ClassDeleteExact(IgnorableSymbols, acc.text);
  }

  /**
   * Rule 2 exactly: with `transform_trailing_whitespace` on, every line
   * loses its trailing blanks and the count grows by the number removed.
   */
  lemma TrailingRuleExact(o: Options, acc: Outcome)
    ensures ApplyRule(Rules[1], o, acc) ==
      if o.transformTrailingWhitespace
      then Outcome(PerLine(acc.text), acc.count + |acc.text| - |PerLine(acc.text)|)
      else acc
  {
    StripIsPerLine(acc.text);
    SubLength(TrailingBlanks, "", acc.text);
  }
}
