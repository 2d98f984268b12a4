/**
 * Worked cases of `humanize_string` and `humanize_json`, built from a few
 * lemmas that cut a text into pieces the character rules treat one by one.
 */
module Scenarios {
  import opened Strings
  import opened Settings
  import opened Patterns
  import opened Keyboard
  import opened Humanizer
  import opened TrailingWhitespace
  import opened JsonTraversal

  /**
   * A character no character rule touches: printable ASCII other than the
   * double quote, the blanks, and every code point above U+FEFF (emoji
   * among them).
   */
  predicate Plain(c: char)
  {
    (' ' <= c <= '~' && c != '"') || IsBlank(c) || '\U{FEFF}' < c
  }

  predicate AllPlain(s: string)
  {
    forall k :: 0 <= k < |s| ==> Plain(s[k])
  }

  lemma PlainNotInClass(i: nat, c: char)
    requires i < |Rules| && i != 1 && Plain(c)
    ensures Rules[i].pattern.AnyOf? && !InClass(Rules[i].pattern.cls, c)
  {
    if '\U{FEFF}' < c {
      InClassAtMost(Rules[i].pattern.cls, '\U{FEFF}', c);
    } else if i == 4 {
      var cls := Rules[4].pattern.cls;
      assert !InClass(cls[2..], c) by {
        InClassAtLeast(cls[2..], '\U{00AB}', c);
      }
    } else {
      InClassAtLeast(Rules[i].pattern.cls, '\U{00A0}', c);
    }
  }

  /** A character rule leaves a plain text and the count alone. */
  lemma PlainUntouched(i: nat, o: Options, s: string, n: nat)
    requires i < |Rules| && i != 1 && AllPlain(s)
    ensures ApplyRule(Rules[i], o, Outcome(s, n)) == Outcome(s, n)
  {
    var rule := Rules[i];
    PlainNotInClass(i, ' ');
    forall k | 0 <= k < |s|
      ensures !InClass(rule.pattern.cls, s[k])
    {
      PlainNotInClass(i, s[k]);
    }
    ClassNoMatch(rule.pattern.cls, rule.replacement, s);
  }

  /** A character rule on `a + b`: `a` first, then `b`, with the count carried along. */
  lemma ClassRuleConcat(i: nat, o: Options, a: string, b: string, n: nat)
    requires i < |Rules| && i != 1
    ensures var ra := ApplyRule(Rules[i], o, Outcome(a, n));
      var rb := ApplyRule(Rules[i], o, Outcome(b, ra.count));
      ApplyRule(Rules[i], o, Outcome(a + b, n)) == Outcome(ra.text + rb.text, rb.count)
  {
    var rule := Rules[i];
    PlainNotInClass(i, ' ');
    ClassConcat(rule.pattern.cls, rule.replacement, a, b);
    TotalLenConcat(Findall(rule.pattern, a), Findall(rule.pattern, b));
  }

  /** A character rule on plain text around a middle piece only acts on the middle piece. */
  lemma ClassRuleAround(i: nat, o: Options, a: string, mid: string, b: string, n: nat)
    requires i < |Rules| && i != 1 && AllPlain(a) && AllPlain(b)
    ensures var r := ApplyRule(Rules[i], o, Outcome(mid, n));
      ApplyRule(Rules[i], o, Outcome(a + mid + b, n)) == Outcome(a + r.text + b, r.count)
  {
    ClassRuleConcat(i, o, a + mid, b, n);
    ClassRuleConcat(i, o, a, mid, n);
    PlainUntouched(i, o, a, n);
    PlainUntouched(i, o, b, ApplyRule(Rules[i], o, Outcome(mid, n)).count);
  }

  /** Rule 2 on a single line strips its trailing blanks and counts them. */
  lemma TrailingOnLine(o: Options, line: string, n: nat)
    requires '\n' !in line
    ensures ApplyRule(Rules[1], o, Outcome(line, n)) ==
      if o.transformTrailingWhitespace then Outcome(RStrip(line), n + |line| - |RStrip(line)|)
      else Outcome(line, n)
  {
    assert line + [] == line;
    StripLine(line, []);
    SubLength(TrailingBlanks, "", line);
  }

  /**
   * The characters of the whitespace cases: plain ones and the two space
   * marks, the no-break space and the zero-width space.
   */
  predicate PlainOrSpaceMark(c: char)
  {
    Plain(c) || c == '\U{00A0}' || c == '\U{200B}'
  }

  /** Rules 4 to 7 leave a text of such characters and the count alone. */
  lemma SpaceMarkTail(o: Options, s: string, n: nat)
    requires forall k :: 0 <= k < |s| ==> PlainOrSpaceMark(s[k])
    ensures ApplyRule(Rules[6], o, ApplyRule(Rules[5], o, ApplyRule(Rules[4], o,
      ApplyRule(Rules[3], o, Outcome(s, n))))) == Outcome(s, n)
  {
    SpaceMarkUntouched(3, o, s, n);
    SpaceMarkUntouched(4, o, s, n);
    SpaceMarkUntouched(5, o, s, n);
    SpaceMarkUntouched(6, o, s, n);
  }

  lemma SpaceMarkUntouched(i: nat, o: Options, s: string, n: nat)
    requires 3 <= i < |Rules| && forall k :: 0 <= k < |s| ==> PlainOrSpaceMark(s[k])
    ensures ApplyRule(Rules[i], o, Outcome(s, n)) == Outcome(s, n)
  {
    var rule := Rules[i];
    PlainNotInClass(i, ' ');
    forall k | 0 <= k < |s|
      ensures !InClass(rule.pattern.cls, s[k])
    {
      if Plain(s[k]) {
        PlainNotInClass(i, s[k]);
      } else {
        SpacesNotInLaterClass(i, s[k]);
      }
    }
    ClassNoMatch(rule.pattern.cls, rule.replacement, s);
  }

  lemma SpacesNotInLaterClass(i: nat, c: char)
    requires 3 <= i < |Rules| && (c == '\U{00A0}' || c == '\U{200B}')
    ensures Rules[i].pattern.AnyOf? && !InClass(Rules[i].pattern.cls, c)
  {
    if i == 3 {
      assert !InClass(Rules[3].pattern.cls, c);
    } else if i == 4 {
      assert !InClass(Rules[4].pattern.cls, c);
    } else if i == 5 {
      assert !InClass(Rules[5].pattern.cls, c);
    } else {
      assert !InClass(Rules[6].pattern.cls, c);
    }
  }

  lemma HiddenOnPair(o: Options, n: nat)
    ensures ApplyRule(Rules[0], o, Outcome("\U{200B}\U{00A0}", n)) ==
      if o.transformHidden then Outcome("\U{00A0}", n + 1) else Outcome("\U{200B}\U{00A0}", n)
  {
  }

  lemma HiddenOnSingle(o: Options, n: nat)
    ensures ApplyRule(Rules[0], o, Outcome("\U{200B}", n)) ==
      if o.transformHidden then Outcome("", n + 1) else Outcome("\U{200B}", n)
  {
  }

  lemma NbsOnSingle(o: Options, n: nat)
    ensures ApplyRule(Rules[2], o, Outcome("\U{00A0}", n)) ==
      if o.transformNbs then Outcome(" ", n + 1) else Outcome("\U{00A0}", n)
  {
  }

  lemma NbsOnPair(o: Options, n: nat)
    ensures ApplyRule(Rules[2], o, Outcome("\U{200B}\U{00A0}", n)) ==
      if o.transformNbs then Outcome("\U{200B} ", n + 1) else Outcome("\U{200B}\U{00A0}", n)
  {
  }

  predicate AllPlainOrSpaceMark(s: string)
  {
    forall k :: 0 <= k < |s| ==> PlainOrSpaceMark(s[k])
  }

  lemma AllPlainOrSpaceMarkConcat(a: string, b: string)
    requires AllPlainOrSpaceMark(a) && AllPlainOrSpaceMark(b)
    ensures AllPlainOrSpaceMark(a + b)
  {
    forall k | 0 <= k < |a + b|
      ensures PlainOrSpaceMark((a + b)[k])
    {
      if k >= |a| {
        assert (a + b)[k] == b[k - |a|];
      }
    }
  }

  /** Rule 1 on the whitespace line: the zero-width space goes when the switch is on. */
  lemma WhitespaceRule1(o: Options, a: string, w: string, sp: string)
    requires AllPlain(a) && AllPlain(w) && AllPlain(sp)
    ensures ApplyRule(Rules[0], o, Outcome(a + "\U{200B}\U{00A0}" + w + sp, 0)) ==
      Outcome(a + (if o.transformHidden then "\U{00A0}" else "\U{200B}\U{00A0}") + w + sp,
              if o.transformHidden then 1 else 0)
  {
    var m: string := if o.transformHidden then "\U{00A0}" else "\U{200B}\U{00A0}";
    assert AllPlain(w + sp);
    assert a + "\U{200B}\U{00A0}" + w + sp == a + "\U{200B}\U{00A0}" + (w + sp);
    assert a + m + w + sp == a + m + (w + sp);
    ClassRuleAround(0, o, a, "\U{200B}\U{00A0}", w + sp, 0);
    HiddenOnPair(o, 0);
  }

  /** Rule 2 on a line of such characters that ends in blanks after a non-blank. */
  lemma TrailingStep(o: Options, u: string, sp: string, n: nat)
    requires AllPlainOrSpaceMark(u) && AllPlain(sp) && AllBlank(sp) && u != [] && !IsBlank(u[|u| - 1])
    ensures ApplyRule(Rules[1], o, Outcome(u + sp, n)) ==
      Outcome(u + (if o.transformTrailingWhitespace then "" else sp),
              n + if o.transformTrailingWhitespace then |sp| else 0)
  {
    assert '\n' !in u + sp by {
      AllPlainOrSpaceMarkConcat(u, sp);
      assert forall k :: 0 <= k < |u + sp| ==> (u + sp)[k] != '\n';
    }
    RStripBlankSuffix(u, sp);
    TrailingOnLine(o, u + sp, n);
    assert u + "" == u;
  }

  lemma LineShape(a: string, m: string, w: string)
    requires AllPlain(a) && AllPlainOrSpaceMark(m) && AllPlain(w) && w != []
    ensures AllPlainOrSpaceMark(a + m + w) && (a + m + w)[|a + m + w| - 1] == w[|w| - 1]
  {
    AllPlainOrSpaceMarkConcat(a, m);
    AllPlainOrSpaceMarkConcat(a + m, w);
  }

  /** Rule 2 on the whitespace line: the trailing blanks go when the switch is on. */
  lemma WhitespaceRule2(o: Options, a: string, w: string, sp: string, n: nat)
    requires AllPlain(a) && AllPlain(w) && AllPlain(sp) && AllBlank(sp)
    requires w != [] && !IsBlank(w[|w| - 1])
    ensures var m: string := if o.transformHidden then "\U{00A0}" else "\U{200B}\U{00A0}";
      ApplyRule(Rules[1], o, Outcome(a + m + w + sp, n)) ==
      Outcome(a + m + w + (if o.transformTrailingWhitespace then "" else sp),
              n + if o.transformTrailingWhitespace then |sp| else 0)
  {
    var m: string := if o.transformHidden then "\U{00A0}" else "\U{200B}\U{00A0}";
    LineShape(a, m, w);
    TrailingStep(o, a + m + w, sp, n);
  }

  /** Rule 3 on the whitespace line: the no-break space becomes a space when the switch is on. */
  lemma WhitespaceRule3(o: Options, a: string, w: string, t: string, n: nat)
    requires AllPlain(a) && AllPlain(w) && AllPlain(t)
    ensures var m: string := if o.transformHidden then "\U{00A0}" else "\U{200B}\U{00A0}";
      ApplyRule(Rules[2], o, Outcome(a + m + w + t, n)) ==
      Outcome(a + (if o.transformHidden then "" else "\U{200B}") + (if o.transformNbs then " " else "\U{00A0}") + w + t,
              n + if o.transformNbs then 1 else 0)
  {
    var m: string := if o.transformHidden then "\U{00A0}" else "\U{200B}\U{00A0}";
    var h: string := if o.transformHidden then "" else "\U{200B}";
    var b: string := if o.transformNbs then " " else "\U{00A0}";
    assert AllPlain(w + t);
    assert a + m + w + t == a + m + (w + t);
    assert a + h + b + w + t == a + (h + b) + (w + t);
    ClassRuleAround(2, o, a, m, w + t, n);
    if o.transformHidden {
      NbsOnSingle(o, n);
    } else {
      NbsOnPair(o, n);
    }
  }

  /** Rules 4 to 7 on the whitespace line: nothing left for them. */
  lemma WhitespaceTail(o: Options, a: string, w: string, t: string, n: nat)
    requires AllPlain(a) && AllPlain(w) && AllPlain(t)
    ensures var s := a + (if o.transformHidden then "" else "\U{200B}") + (if o.transformNbs then " " else "\U{00A0}") + w + t;
      ApplyRule(Rules[6], o, ApplyRule(Rules[5], o, ApplyRule(Rules[4], o,
        ApplyRule(Rules[3], o, Outcome(s, n))))) == Outcome(s, n)
  {
    var h: string := if o.transformHidden then "" else "\U{200B}";
    var b: string := if o.transformNbs then " " else "\U{00A0}";
    assert AllPlainOrSpaceMark(a + h + b + w + t) by {
      assert AllPlainOrSpaceMark(h) && AllPlainOrSpaceMark(b);
      AllPlainOrSpaceMarkConcat(a, h);
      AllPlainOrSpaceMarkConcat(a + h, b);
      AllPlainOrSpaceMarkConcat(a + h + b, w);
      AllPlainOrSpaceMarkConcat(a + h + b + w, t);
    }
    SpaceMarkTail(o, a + h + b + w + t, n);
  }

  /** The table applied as its first three rules one at a time, followed by the last four, which together leave their input alone. */
  lemma TableInSteps(o: Options, start: Outcome, r1: Outcome, r2: Outcome, r3: Outcome)
    requires ApplyRule(Rules[0], o, start) == r1
    requires ApplyRule(Rules[1], o, r1) == r2
    requires ApplyRule(Rules[2], o, r2) == r3
    requires ApplyRule(Rules[6], o, ApplyRule(Rules[5], o, ApplyRule(Rules[4], o,
      ApplyRule(Rules[3], o, r3)))) == r3
    ensures ApplyRules(Rules, o, start) == r3
  {
    PipelineOrder(o, start);
  }

  /**
   * A line made of plain text `a`, a zero-width space, a no-break space,
   * plain text `w` ending in a non-blank, and trailing blanks `sp`: each of
   * the three switches involved fixes its own part and counts it, whatever
   * the other two say.
   */
  lemma WhitespaceLine(o: Options, a: string, w: string, sp: string, tables: UnicodeTables)
    requires AllPlain(a) && AllPlain(w) && AllBlank(sp)
    requires w != [] && !IsBlank(w[|w| - 1]) && !o.keyboardOnly
    ensures Humanize(a + "\U{200B}\U{00A0}" + w + sp, o, tables) ==
      Outcome(a + (if o.transformHidden then "" else "\U{200B}")
                + (if o.transformNbs then " " else "\U{00A0}")
                + w + (if o.transformTrailingWhitespace then "" else sp),
              (if o.transformHidden then 1 else 0)
                + (if o.transformTrailingWhitespace then |sp| else 0)
                + (if o.transformNbs then 1 else 0))
  {
    var t: string := if o.transformTrailingWhitespace then "" else sp;
    var c1: nat := if o.transformHidden then 1 else 0;
    var c2: nat := c1 + if o.transformTrailingWhitespace then |sp| else 0;
    AllBlankAt(sp);
    assert AllPlain(sp);
    WhitespaceRule1(o, a, w, sp);
    WhitespaceRule2(o, a, w, sp, c1);
    assert AllPlain(t);
    WhitespaceRule3(o, a, w, t, c2);
    WhitespaceTail(o, a, w, t, c2 + if o.transformNbs then 1 else 0);
    TableInSteps(o, Outcome(a + "\U{200B}\U{00A0}" + w + sp, 0),
      Outcome(a + (if o.transformHidden then "\U{00A0}" else "\U{200B}\U{00A0}") + w + sp, c1),
      Outcome(a + (if o.transformHidden then "\U{00A0}" else "\U{200B}\U{00A0}") + w + t, c2),
      Outcome(a + (if o.transformHidden then "" else "\U{200B}") + (if o.transformNbs then " " else "\U{00A0}") + w + t,
              c2 + if o.transformNbs then 1 else 0));
  }

  /** Rules 4 to 7 leave a plain text and the count alone. */
  lemma PlainTail(o: Options, s: string, n: nat)
    requires AllPlain(s)
    ensures ApplyRule(Rules[6], o, ApplyRule(Rules[5], o, ApplyRule(Rules[4], o,
      ApplyRule(Rules[3], o, Outcome(s, n))))) == Outcome(s, n)
  {
    PlainUntouched(3, o, s, n);
    PlainUntouched(4, o, s, n);
    PlainUntouched(5, o, s, n);
    PlainUntouched(6, o, s, n);
  }

  /** The sample text of the whitespace cases. */
  const Sample: string := "Hello\U{200B}\U{00A0}World!  "

  /** The sample under any switches, with the keyboard filter off. */
  lemma SampleLine(o: Options, tables: UnicodeTables)
    requires !o.keyboardOnly
    ensures Humanize(Sample, o, tables) ==
      Outcome("Hello" + (if o.transformHidden then "" else "\U{200B}")
                + (if o.transformNbs then " " else "\U{00A0}")
                + "World!" + (if o.transformTrailingWhitespace then "" else "  "),
              (if o.transformHidden then 1 else 0)
                + (if o.transformTrailingWhitespace then 2 else 0)
                + (if o.transformNbs then 1 else 0))
  {
    assert Sample == "Hello" + "\U{200B}\U{00A0}" + "World!" + "  ";
    assert AllPlain("Hello") && AllPlain("World!") && AllPlain("  ") && AllBlank("  ") && !IsBlank('!');
    WhitespaceLine(o, "Hello", "World!", "  ", tables);
  }

  /** The sample under the defaults: the three kinds of whitespace are fixed and four characters counted. */
  lemma SampleDefaults(tables: UnicodeTables)
    ensures Humanize(Sample, Defaults(), tables) == Outcome("Hello World!", 4)
  {
    SampleLine(Defaults(), tables);
  }

  /** With `transform_trailing_whitespace` off, the trailing spaces stay and are not counted. */
  lemma SampleKeepsTrailing(tables: UnicodeTables)
    ensures Humanize(Sample, Options(true, false, true, true, true, true, false), tables) ==
      Outcome("Hello World!  ", 2)
  {
    SampleLine(Options(true, false, true, true, true, true, false), tables);
  }

  /** With `transform_hidden` off, the zero-width space stays and is not counted. */
  lemma SampleKeepsHidden(tables: UnicodeTables)
    ensures Humanize(Sample, Options(false, true, true, true, true, true, false), tables) ==
      Outcome("Hello\U{200B} World!", 3)
  {
    SampleLine(Options(false, true, true, true, true, true, false), tables);
  }

  /** With `transform_nbs` off, the no-break space stays and is not counted. */
  lemma SampleKeepsNbs(tables: UnicodeTables)
    ensures Humanize(Sample, Options(true, true, false, true, true, true, false), tables) ==
      Outcome("Hello\U{00A0}World!", 3)
  {
    SampleLine(Options(true, true, false, true, true, true, false), tables);
  }

  lemma NbsPairHidden(o: Options, n: nat)
    ensures ApplyRule(Rules[0], o, Outcome("\U{00A0}\U{00A0}", n)) == Outcome("\U{00A0}\U{00A0}", n)
  {
    assert !InClass(IgnorableSymbols, '\U{00A0}');
    ClassNoMatch(IgnorableSymbols, "", "\U{00A0}\U{00A0}");
  }

  lemma NbsPairRules(o: Options, n: nat)
    ensures ApplyRule(Rules[2], o, Outcome("\U{00A0}\U{00A0}", n)) ==
      if o.transformNbs then Outcome("  ", n + 2) else Outcome("\U{00A0}\U{00A0}", n)
  {
    assert "\U{00A0}\U{00A0}" == "\U{00A0}" + "\U{00A0}";
    ClassRuleConcat(2, o, "\U{00A0}", "\U{00A0}", n);
    NbsOnSingle(o, n);
    NbsOnSingle(o, if o.transformNbs then n + 1 else n);
  }

  /** First pass over `a`, a zero-width space, `w` and two no-break spaces: rule 1. */
  lemma FirstPassHidden(o: Options, a: string, w: string)
    requires AllPlain(a) && AllPlain(w) && o.transformHidden
    ensures ApplyRule(Rules[0], o, Outcome(a + "\U{200B}" + w + "\U{00A0}\U{00A0}", 0)) ==
      Outcome(a + w + "\U{00A0}\U{00A0}", 1)
  {
    var nb := "\U{00A0}\U{00A0}";
    assert ApplyRule(Rules[0], o, Outcome(a + "\U{200B}" + w, 0)) == Outcome(a + w, 1) by {
      ClassRuleAround(0, o, a, "\U{200B}", w, 0);
      HiddenOnSingle(o, 0);
      assert a + "" + w == a + w;
    }
    NbsPairHidden(o, 1);
    ClassRuleConcat(0, o, a + "\U{200B}" + w, nb, 0);
  }

  /** Rule 2: a line that ends in no-break spaces has no trailing blanks. */
  lemma FirstPassTrailing(o: Options, a: string, w: string)
    requires AllPlain(a) && AllPlain(w)
    ensures ApplyRule(Rules[1], o, Outcome(a + w + "\U{00A0}\U{00A0}", 1)) ==
      Outcome(a + w + "\U{00A0}\U{00A0}", 1)
  {
    var nb := "\U{00A0}\U{00A0}";
    assert AllPlain(a + w);
    AllPlainOrSpaceMarkConcat(a + w, nb);
    TrailingStep(o, a + w + nb, "", 1);
    assert a + w + nb + "" == a + w + nb;
  }

  /** Rule 3: the no-break spaces become spaces. */
  lemma FirstPassNbs(o: Options, a: string, w: string)
    requires AllPlain(a) && AllPlain(w) && o.transformNbs
    ensures ApplyRule(Rules[2], o, Outcome(a + w + "\U{00A0}\U{00A0}", 1)) ==
      Outcome(a + w + "  ", 3)
  {
    var nb := "\U{00A0}\U{00A0}";
    assert AllPlain(a + w);
    ClassRuleConcat(2, o, a + w, nb, 1);
    PlainUntouched(2, o, a + w, 1);
    NbsPairRules(o, 1);
  }

  /**
   * Rule 3 runs after rule 2, so no-break spaces at the end of a line come
   * out as trailing spaces.
   */
  lemma TrailingNbsSurvives(o: Options, a: string, w: string, tables: UnicodeTables)
    requires AllPlain(a) && AllPlain(w) && o.transformHidden && o.transformNbs && !o.keyboardOnly
    ensures Humanize(a + "\U{200B}" + w + "\U{00A0}\U{00A0}", o, tables) == Outcome(a + w + "  ", 3)
  {
    var nb := "\U{00A0}\U{00A0}";
    FirstPassHidden(o, a, w);
    FirstPassTrailing(o, a, w);
    FirstPassNbs(o, a, w);
    assert AllPlain(a + w + "  ");
    PlainTail(o, a + w + "  ", 3);
    TableInSteps(o, Outcome(a + "\U{200B}" + w + nb, 0), Outcome(a + w + nb, 1),
      Outcome(a + w + nb, 1), Outcome(a + w + "  ", 3));
  }

  /** Plain text followed by blanks is plain. */
  lemma PlainThenBlanks(u: string, sp: string)
    requires AllPlain(u) && AllBlank(sp)
    ensures AllPlain(u + sp)
  {
    AllBlankAt(sp);
  }

  /** Rule 2 on one line of plain text and trailing blanks drops the blanks and counts them. */
  lemma TrailingBlanksDropped(o: Options, u: string, sp: string)
    requires AllPlain(u) && u != [] && !IsBlank(u[|u| - 1]) && AllBlank(sp)
    requires o.transformTrailingWhitespace
    ensures ApplyRule(Rules[1], o, Outcome(u + sp, 0)) == Outcome(u, |sp|)
  {
    AllBlankAt(sp);
    TrailingStep(o, u, sp, 0);
    assert u + "" == u;
  }

  /**
   * Plain text on one line that ends in blanks comes out of the whole
   * pipeline without those blanks, and they are counted.
   */
  lemma TrailingRunStripped(o: Options, u: string, sp: string, tables: UnicodeTables)
    requires AllPlain(u) && u != [] && !IsBlank(u[|u| - 1]) && AllBlank(sp)
    requires o.transformTrailingWhitespace && !o.keyboardOnly
    ensures Humanize(u + sp, o, tables) == Outcome(u, |sp|)
  {
    PlainThenBlanks(u, sp);
    PlainUntouched(0, o, u + sp, 0);
    TrailingBlanksDropped(o, u, sp);
    PlainUntouched(2, o, u, |sp|);
    PlainTail(o, u, |sp|);
    TableInSteps(o, Outcome(u + sp, 0), Outcome(u + sp, 0), Outcome(u, |sp|), Outcome(u, |sp|));
  }


  /** The string value of the flat-dict case. */
  const FlatValue: string := "Hello\U{200B} World!\U{00A0}\U{00A0}"

  /**
   * Running `humanize_string` twice is not the same as running it once: the
   * string of the flat-dict case comes back with two trailing spaces, which a
   * second pass removes and counts.
   */
  lemma NotIdempotent(tables: UnicodeTables)
    ensures var first := Humanize(FlatValue, Defaults(), tables);
      first == Outcome("Hello World!  ", 3) &&
      Humanize(first.text, Defaults(), tables) == Outcome("Hello World!", 2)
  {
    FlatValueFirstPass(tables);
    FlatValueTrailingRun(tables);
  }

  lemma FlatValueFirstPass(tables: UnicodeTables)
    ensures Humanize(FlatValue, Defaults(), tables) == Outcome("Hello World!  ", 3)
  {
    assert FlatValue == "Hello" + "\U{200B}" + " World!" + "\U{00A0}\U{00A0}";
    assert AllPlain("Hello") && AllPlain(" World!");
    TrailingNbsSurvives(Defaults(), "Hello", " World!", tables);
    assert "Hello" + " World!" + "  " == "Hello World!  ";
  }

  lemma FlatValueTrailingRun(tables: UnicodeTables)
    ensures Humanize("Hello World!  ", Defaults(), tables) == Outcome("Hello World!", 2)
  {
    assert AllPlain("Hello World!");
    assert AllBlank("  ");
    TrailingRunStripped(Defaults(), "Hello World!", "  ", tables);
    assert "Hello World!" + "  " == "Hello World!  ";
  }

  lemma QuoteOnlyInQuoteClass(i: nat)
    requires i < |Rules| && i != 1 && i != 4
    ensures Rules[i].pattern.AnyOf? && !InClass(Rules[i].pattern.cls, '"')
  {
    InClassAtLeast(Rules[i].pattern.cls, '\U{00A0}', '"');
  }

  /** Every rule but the double-quote one leaves a lone straight quote alone. */
  lemma QuoteUntouched(i: nat, o: Options, n: nat)
    requires i < |Rules| && i != 4
    ensures ApplyRule(Rules[i], o, Outcome("\"", n)) == Outcome("\"", n)
  {
    if i == 1 {
      assert RStrip("\"") == "\"";
      TrailingOnLine(o, "\"", n);
    } else {
      QuoteOnlyInQuoteClass(i);
      ClassNoMatch(Rules[i].pattern.cls, Rules[i].replacement, "\"");
    }
  }

  lemma QuoteReplaced(o: Options, n: nat)
    requires o.transformQuotes
    ensures ApplyRule(Rules[4], o, Outcome("\"", n)) == Outcome("\"", n + 1)
  {
    assert InClass(Rules[4].pattern.cls, '"');
    assert Findall(Rules[4].pattern, "\"") == ["\""];
  }

  /** A straight quote on its own. */
  const StraightQuote: string := "\""

  /**
   * The double-quote class holds the straight quote itself, so a straight
   * quote is "replaced" by itself and counted on every pass.
   */
  lemma StraightQuoteCounted(tables: UnicodeTables)
    ensures Humanize(StraightQuote, Defaults(), tables) == Outcome(StraightQuote, 1)
  {
    QuoteThroughTable(Defaults());
  }

  lemma QuoteThroughTable(o: Options)
    requires o.transformQuotes
    ensures ApplyRules(Rules, o, Outcome("\"", 0)) == Outcome("\"", 1)
  {
    QuoteUntouched(0, o, 0);
    QuoteUntouched(1, o, 0);
    QuoteUntouched(2, o, 0);
    QuoteUntouched(3, o, 0);
    QuoteReplaced(o, 0);
    QuoteUntouched(5, o, 1);
    QuoteUntouched(6, o, 1);
    PipelineOrder(o, Outcome("\"", 0));
  }

  /** Every character of `s` is plain or in the class of rule `i`. */
  predicate PlainOrInClass(i: nat, s: string)
    requires i < |Rules| && Rules[i].pattern.AnyOf?
  {
    forall k :: 0 <= k < |s| ==> Plain(s[k]) || InClass(Rules[i].pattern.cls, s[k])
  }

  /** Every character of `r` is plain or comes from the replacement of rule `i`. */
  predicate PlainOrInReplacement(i: nat, r: string)
    requires i < |Rules|
  {
    forall k :: 0 <= k < |r| ==> Plain(r[k]) || r[k] in Rules[i].replacement
  }

  /** `s` is a line that does not end in a blank. */
  predicate EndsLine(s: string)
  {
    s != [] && Plain(s[|s| - 1]) && !IsBlank(s[|s| - 1])
  }

  /** The character classes of the rule table do not overlap. */
  lemma ClassesDisjoint(i: nat, j: nat, c: char)
    requires i < |Rules| && j < |Rules| && i != 1 && j != 1 && i != j
    requires InClass(Rules[i].pattern.cls, c)
    ensures !InClass(Rules[j].pattern.cls, c)
  {
    ClassIs(i, c);
    ClassIs(j, c);
  }

  /** The characters of the class of rule `i`, written out one by one or range by range. */
  predicate Members(i: nat, c: char)
  {
    match i
    case 0 => c == '\U{00AD}' || c == '\U{180E}' || '\U{200B}' <= c <= '\U{200F}' || '\U{202A}' <= c <= '\U{202E}'
              || c == '\U{2060}' || '\U{2066}' <= c <= '\U{2069}' || c == '\U{FEFF}'
    case 2 => c == '\U{00A0}'
    case 3 => c == '\U{2014}' || c == '\U{2013}'
    case 4 => c == '"' || c == '\U{00AB}' || c == '\U{00BB}' || c == '\U{201E}'
    case 5 => c == '\U{02BC}'
    case 6 => c == '\U{2026}'
    case _ => false
  }

  lemma ClassIs(i: nat, c: char)
    requires i < |Rules| && i != 1
    ensures InClass(Rules[i].pattern.cls, c) <==> Members(i, c)
  {
    if i == 0 {
      HiddenClassIs(c);
    }
  }

  lemma HiddenClassIs(c: char)
    ensures InClass(Rules[0].pattern.cls, c) <==> Members(0, c)
  {
    var cls := IgnorableSymbols;
    assert cls[1..][1..] == cls[2..] && cls[2..][1..] == cls[3..] && cls[3..][1..] == cls[4..];
    assert cls[4..][1..] == cls[5..] && cls[5..][1..] == cls[6..] && cls[6..][1..] == cls[7..];
  }

  lemma ReplacementNotLater(i: nat, j: nat, c: char)
    requires i < j < |Rules| && i != 1 && j != 1 && c in Rules[i].replacement
    ensures !InClass(Rules[j].pattern.cls, c)
  {
    if i == 4 {
      InClassAtLeast(Rules[j].pattern.cls, '\U{00A0}', c);
    } else {
      PlainNotInClass(j, c);
    }
  }

  lemma NewlineInNoClass(i: nat)
    requires i < |Rules| && i != 1
    ensures !InClass(Rules[i].pattern.cls, '\n')
  {
    if i == 4 {
      assert !InClass(Rules[4].pattern.cls[2..], '\n') by {
        InClassAtLeast(Rules[4].pattern.cls[2..], '\U{00AB}', '\n');
      }
    } else {
      InClassAtLeast(Rules[i].pattern.cls, '\U{00A0}', '\n');
    }
  }

  /** Rule 2 leaves a line that does not end in a blank as it is. */
  lemma TrailingKeepsLine(o: Options, s: string, n: nat)
    requires '\n' !in s && s != [] && !IsBlank(s[|s| - 1])
    ensures ApplyRule(Rules[1], o, Outcome(s, n)) == Outcome(s, n)
  {
    TrailingOnLine(o, s, n);
  }

  /** Where the text stands before rule `j` of a line only rule `i` changes. */
  function BeforeRule(i: nat, j: nat, s: string, r: string, n: nat): (acc: Outcome)
  {
    if j <= i then Outcome(s, 0) else Outcome(r, n)
  }

  /** A rule before rule `i` finds nothing in a text that only rule `i` acts on. */
  lemma EarlierRuleSkips(i: nat, j: nat, o: Options, s: string)
    requires j < i < |Rules| && i != 1 && j != 1 && PlainOrInClass(i, s)
    ensures ApplyRule(Rules[j], o, Outcome(s, 0)) == Outcome(s, 0)
  {
    forall k | 0 <= k < |s|
      ensures !InClass(Rules[j].pattern.cls, s[k])
    {
      if Plain(s[k]) {
        PlainNotInClass(j, s[k]);
      } else {
        ClassesDisjoint(i, j, s[k]);
      }
    }
    ClassNoMatch(Rules[j].pattern.cls, Rules[j].replacement, s);
  }

  /** A rule after rule `i` finds nothing in what rule `i` left. */
  lemma LaterRuleSkips(i: nat, j: nat, o: Options, r: string, n: nat)
    requires i < j < |Rules| && i != 1 && j != 1 && PlainOrInReplacement(i, r)
    ensures ApplyRule(Rules[j], o, Outcome(r, n)) == Outcome(r, n)
  {
    forall k | 0 <= k < |r|
      ensures !InClass(Rules[j].pattern.cls, r[k])
    {
      if Plain(r[k]) {
        PlainNotInClass(j, r[k]);
      } else {
        ReplacementNotLater(i, j, r[k]);
      }
    }
    ClassNoMatch(Rules[j].pattern.cls, Rules[j].replacement, r);
  }

  lemma BeforeRuleStep(i: nat, j: nat, o: Options, s: string, r: string, n: nat)
    requires i < |Rules| && i != 1 && j < |Rules|
    requires PlainOrInClass(i, s) && PlainOrInReplacement(i, r) && EndsLine(s) && EndsLine(r) && '\n' !in s && '\n' !in r
    requires ApplyRule(Rules[i], o, Outcome(s, 0)) == Outcome(r, n)
    ensures ApplyRule(Rules[j], o, BeforeRule(i, j, s, r, n)) == BeforeRule(i, j + 1, s, r, n)
  {
    if j == 1 {
      if j < i {
        TrailingKeepsLine(o, s, 0);
      } else {
        TrailingKeepsLine(o, r, n);
      }
    } else if j < i {
      EarlierRuleSkips(i, j, o, s);
    } else if i < j {
      LaterRuleSkips(i, j, o, r, n);
    }
  }

  /**
   * A line whose characters are plain or in the class of rule `i` is
   * changed only by rule `i`: the rules before it find nothing, and the
   * rules after it find nothing in what rule `i` made of it.
   */
  lemma OneClassLine(i: nat, o: Options, s: string, r: string, n: nat, tables: UnicodeTables)
    requires i < |Rules| && i != 1 && !o.keyboardOnly
    requires PlainOrInClass(i, s) && EndsLine(s) && PlainOrInReplacement(i, r) && EndsLine(r)
    requires ApplyRule(Rules[i], o, Outcome(s, 0)) == Outcome(r, n)
    ensures Humanize(s, o, tables) == Outcome(r, n)
  {
    assert '\n' !in s by {
      NewlineInNoClass(i);
      assert forall k :: 0 <= k < |s| ==> s[k] != '\n';
    }
    assert '\n' !in r by {
      assert forall k :: 0 <= k < |r| ==> r[k] != '\n';
    }
    BeforeRuleStep(i, 0, o, s, r, n);
    BeforeRuleStep(i, 1, o, s, r, n);
    BeforeRuleStep(i, 2, o, s, r, n);
    BeforeRuleStep(i, 3, o, s, r, n);
    BeforeRuleStep(i, 4, o, s, r, n);
    BeforeRuleStep(i, 5, o, s, r, n);
    BeforeRuleStep(i, 6, o, s, r, n);
    PipelineOrder(o, Outcome(s, 0));
  }

  /** One more separator and piece: the separator is replaced and counted, the piece kept. */
  lemma ClassStep(i: nat, o: Options, x: string, c: char, y: string, rx: string, n: nat)
    requires i < |Rules| && i != 1 && Enabled(o, Rules[i].gate)
    requires InClass(Rules[i].pattern.cls, c) && AllPlain(y)
    requires ApplyRule(Rules[i], o, Outcome(x, 0)) == Outcome(rx, n)
    ensures ApplyRule(Rules[i], o, Outcome(x + [c] + y, 0)) == Outcome(rx + Rules[i].replacement + y, n + 1)
  {
    var rep := Rules[i].replacement;
    ClassRuleConcat(i, o, x + [c], y, 0);
    ClassRuleConcat(i, o, x, [c], 0);
    assert Findall(Rules[i].pattern, [c]) == [[c]] by {
      assert [c][1..] == [];
    }
    assert Sub(Rules[i].pattern, rep, [c]) == rep by {
      assert [c][1..] == [];
    }
    PlainUntouched(i, o, y, n + 1);
  }

  /** A plain piece: rule `i` leaves it alone. */
  lemma ClassStart(i: nat, o: Options, x: string)
    requires i < |Rules| && i != 1 && AllPlain(x)
    ensures ApplyRule(Rules[i], o, Outcome(x, 0)) == Outcome(x, 0)
  {
    PlainUntouched(i, o, x, 0);
  }

  /** A separator of class `i` and a plain piece keep a text within what rule `i` acts on. */
  lemma PlainOrInClassStep(i: nat, x: string, c: char, y: string)
    requires i < |Rules| && Rules[i].pattern.AnyOf?
    requires PlainOrInClass(i, x) && InClass(Rules[i].pattern.cls, c) && AllPlain(y)
    ensures PlainOrInClass(i, x + [c] + y)
  {
    var u := x + [c] + y;
    forall k | 0 <= k < |u|
      ensures Plain(u[k]) || InClass(Rules[i].pattern.cls, u[k])
    {
      if k < |x| {
        assert u[k] == x[k];
      } else if k > |x| {
        assert u[k] == y[k - |x| - 1];
      }
    }
  }

  /** The replacement of rule `i` and a plain piece keep a text settled for rule `i`. */
  lemma PlainOrInReplacementStep(i: nat, rx: string, y: string)
    requires i < |Rules| && PlainOrInReplacement(i, rx) && AllPlain(y)
    ensures PlainOrInReplacement(i, rx + Rules[i].replacement + y)
  {
    var rep := Rules[i].replacement;
    var t := rx + rep + y;
    forall k | 0 <= k < |t|
      ensures Plain(t[k]) || t[k] in rep
    {
      if k < |rx| {
        assert t[k] == rx[k];
      } else if k < |rx| + |rep| {
        assert t[k] == rep[k - |rx|];
      } else {
        assert t[k] == y[k - |rx| - |rep|];
      }
    }
  }

  const DashEm: char := '\U{2014}'
  const DashEn: char := '\U{2013}'

  /** The input of the dash case. */
  const Dashes: string := "I " + [DashEm] + " super " + [DashEm] + " man " + [DashEn] + " \U{1F4AA}"

  /** The expected output of the dash case. */
  const DashesOut: string := "I " + "-" + " super " + "-" + " man " + "-" + " \U{1F4AA}"

  /** Rule 4 on plain pieces joined by two em dashes and an en dash. */
  lemma DashRule(o: Options, x0: string, x1: string, x2: string, x3: string)
    requires o.transformDashes && AllPlain(x0) && AllPlain(x1) && AllPlain(x2) && AllPlain(x3)
    ensures var s := x0 + [DashEm] + x1 + [DashEm] + x2 + [DashEn] + x3;
            var r := x0 + "-" + x1 + "-" + x2 + "-" + x3;
            PlainOrInClass(3, s) && PlainOrInReplacement(3, r) && ApplyRule(Rules[3], o, Outcome(s, 0)) == Outcome(r, 3)
  {
    ClassStart(3, o, x0);
    ClassStep(3, o, x0, DashEm, x1, x0, 0);
    ClassStep(3, o, x0 + [DashEm] + x1, DashEm, x2, x0 + "-" + x1, 1);
    ClassStep(3, o, x0 + [DashEm] + x1 + [DashEm] + x2, DashEn, x3, x0 + "-" + x1 + "-" + x2, 2);
    PlainOrInClassStep(3, x0, DashEm, x1);
    PlainOrInClassStep(3, x0 + [DashEm] + x1, DashEm, x2);
    PlainOrInClassStep(3, x0 + [DashEm] + x1 + [DashEm] + x2, DashEn, x3);
    PlainOrInReplacementStep(3, x0, x1);
    PlainOrInReplacementStep(3, x0 + "-" + x1, x2);
    PlainOrInReplacementStep(3, x0 + "-" + x1 + "-" + x2, x3);
  }

  /** Both kinds of dash become hyphens and are counted; the emoji stays. */
  lemma DashLine(o: Options, tables: UnicodeTables)
    requires o.transformDashes && !o.keyboardOnly
    ensures Humanize(Dashes, o, tables) == Outcome(DashesOut, 3)
  {
    assert Dashes[|Dashes| - 1] == DashesOut[|DashesOut| - 1] == '\U{1F4AA}';
    assert AllPlain("I ") && AllPlain(" super ") && AllPlain(" man ") && AllPlain(" \U{1F4AA}");
    DashRule(o, "I ", " super ", " man ", " \U{1F4AA}");
    OneClassLine(3, o, Dashes, DashesOut, 3, tables);
  }

  lemma DashesCounted(tables: UnicodeTables)
    ensures Humanize(Dashes, Defaults(), tables) == Outcome(DashesOut, 3)
  {
    DashLine(Defaults(), tables);
  }

  /** The input of the quote case. */
  const Quotes: string :=
    "Angular " + ['"'] + "quote" + ['"'] + " " + [LeftAngle] + "marks" + [RightAngle]
    + " looks" + [LowQuote] + " like Christmas " + [LeftAngle] + "" + [LeftAngle] + " tree"

  /** The expected output: every quotation mark straight. */
  const QuotesOut: string :=
    "Angular " + "\"" + "quote" + "\"" + " " + "\"" + "marks" + "\""
    + " looks" + "\"" + " like Christmas " + "\"" + "" + "\"" + " tree"

  const LeftAngle: char := '\U{00AB}'
  const RightAngle: char := '\U{00BB}'
  const LowQuote: char := '\U{201E}'

  /** Rule 5 on plain pieces joined by the quotation marks of the quote case. */
  lemma QuoteRule(o: Options, x: seq<string>)
    requires o.transformQuotes && |x| == 8
    requires forall k :: 0 <= k < 8 ==> AllPlain(x[k])
    ensures var s := x[0] + ['"'] + x[1] + ['"'] + x[2] + [LeftAngle] + x[3] + [RightAngle]
                     + x[4] + [LowQuote] + x[5] + [LeftAngle] + x[6] + [LeftAngle] + x[7];
            var r := x[0] + "\"" + x[1] + "\"" + x[2] + "\"" + x[3] + "\""
                     + x[4] + "\"" + x[5] + "\"" + x[6] + "\"" + x[7];
            ApplyRule(Rules[4], o, Outcome(s, 0)) == Outcome(r, 7)
  {
    var q := "\"";
    var x0, x1, x2, x3, x4, x5, x6, x7 := x[0], x[1], x[2], x[3], x[4], x[5], x[6], x[7];
    assert AllPlain(x0) && AllPlain(x1) && AllPlain(x2) && AllPlain(x3);
    assert AllPlain(x4) && AllPlain(x5) && AllPlain(x6) && AllPlain(x7);
    ClassStart(4, o, x0);
    ClassStep(4, o, x0, '"', x1, x0, 0);
    var s1, r1 := x0 + ['"'] + x1, x0 + q + x1;
    ClassStep(4, o, s1, '"', x2, r1, 1);
    var s2, r2 := s1 + ['"'] + x2, r1 + q + x2;
    ClassStep(4, o, s2, LeftAngle, x3, r2, 2);
    var s3, r3 := s2 + [LeftAngle] + x3, r2 + q + x3;
    ClassStep(4, o, s3, RightAngle, x4, r3, 3);
    var s4, r4 := s3 + [RightAngle] + x4, r3 + q + x4;
    ClassStep(4, o, s4, LowQuote, x5, r4, 4);
    var s5, r5 := s4 + [LowQuote] + x5, r4 + q + x5;
    ClassStep(4, o, s5, LeftAngle, x6, r5, 5);
    var s6, r6 := s5 + [LeftAngle] + x6, r5 + q + x6;
    ClassStep(4, o, s6, LeftAngle, x7, r6, 6);
  }

  /** The same text holds only plain characters and quotation marks, and its image only plain ones. */
  lemma QuoteChars(x: seq<string>)
    requires |x| == 8
    requires forall k :: 0 <= k < 8 ==> AllPlain(x[k])
    ensures var s := x[0] + ['"'] + x[1] + ['"'] + x[2] + [LeftAngle] + x[3] + [RightAngle]
                     + x[4] + [LowQuote] + x[5] + [LeftAngle] + x[6] + [LeftAngle] + x[7];
            var r := x[0] + "\"" + x[1] + "\"" + x[2] + "\"" + x[3] + "\""
                     + x[4] + "\"" + x[5] + "\"" + x[6] + "\"" + x[7];
            PlainOrInClass(4, s) && PlainOrInReplacement(4, r)
  {
    var q := "\"";
    var x0, x1, x2, x3, x4, x5, x6, x7 := x[0], x[1], x[2], x[3], x[4], x[5], x[6], x[7];
    assert AllPlain(x0) && AllPlain(x1) && AllPlain(x2) && AllPlain(x3);
    assert AllPlain(x4) && AllPlain(x5) && AllPlain(x6) && AllPlain(x7);
    PlainOrInClassStep(4, x0, '"', x1);
    var s1 := x0 + ['"'] + x1;
    PlainOrInClassStep(4, s1, '"', x2);
    var s2 := s1 + ['"'] + x2;
    PlainOrInClassStep(4, s2, LeftAngle, x3);
    var s3 := s2 + [LeftAngle] + x3;
    PlainOrInClassStep(4, s3, RightAngle, x4);
    var s4 := s3 + [RightAngle] + x4;
    PlainOrInClassStep(4, s4, LowQuote, x5);
    var s5 := s4 + [LowQuote] + x5;
    PlainOrInClassStep(4, s5, LeftAngle, x6);
    var s6 := s5 + [LeftAngle] + x6;
    PlainOrInClassStep(4, s6, LeftAngle, x7);
    PlainOrInReplacementStep(4, x0, x1);
    var r1 := x0 + q + x1;
    PlainOrInReplacementStep(4, r1, x2);
    var r2 := r1 + q + x2;
    PlainOrInReplacementStep(4, r2, x3);
    var r3 := r2 + q + x3;
    PlainOrInReplacementStep(4, r3, x4);
    var r4 := r3 + q + x4;
    PlainOrInReplacementStep(4, r4, x5);
    var r5 := r4 + q + x5;
    PlainOrInReplacementStep(4, r5, x6);
    var r6 := r5 + q + x6;
    PlainOrInReplacementStep(4, r6, x7);
  }

  /** The pieces of the quote case between its quotation marks. */
  const QuotePieces: seq<string> := ["Angular ", "quote", " ", "marks", " looks", " like Christmas ", "", " tree"]

  lemma QuotePiecesPlain()
    ensures |QuotePieces| == 8 && forall k :: 0 <= k < 8 ==> AllPlain(QuotePieces[k])
  {
  }

  lemma QuoteLine(o: Options, tables: UnicodeTables)
    requires o.transformQuotes && !o.keyboardOnly
    ensures Humanize(Quotes, o, tables) == Outcome(QuotesOut, 7)
  {
    assert Quotes[|Quotes| - 1] == QuotesOut[|QuotesOut| - 1] == 'e';
    QuotePiecesPlain();
    QuoteRule(o, QuotePieces);
    QuoteChars(QuotePieces);
    OneClassLine(4, o, Quotes, QuotesOut, 7, tables);
  }

  /**
   * Guillemets and the low double quote become straight quotes, and the
   * straight quotes already there are counted as well: seven in all.
   */
  lemma QuotesCounted(tables: UnicodeTables)
    ensures Humanize(Quotes, Defaults(), tables) == Outcome(QuotesOut, 7)
  {
    QuoteLine(Defaults(), tables);
  }

  /** The second string value of the flat-dict case. */
  const FoxValue: string :=
    "The" + ['\U{200C}'] + " quick" + ['\U{200D}'] + " brown" + ['\U{200E}'] + " fox" + ['\U{200F}'] + " jumps"

  /** The fox value once cleaned: the words with single spaces between them. */
  const FoxOut: string := "The" + " quick" + " brown" + " fox" + " jumps"

  /** U+200B to U+200F, zero-width space to right-to-left mark, are in the class of rule 1. */
  lemma ZeroWidthHidden(c: char)
    requires '\U{200B}' <= c <= '\U{200F}'
    ensures InClass(Rules[0].pattern.cls, c)
  {
    var cls := IgnorableSymbols;
    assert cls[2..][0] == ('\U{200B}', '\U{200F}');
    assert InClass(cls[2..], c);
    assert cls[1..][1..] == cls[2..];
  }

  /** One more hidden character and plain piece: the character is deleted and counted. */
  lemma HiddenStep(o: Options, x: string, c: char, y: string, rx: string, n: nat)
    requires o.transformHidden && '\U{200B}' <= c <= '\U{200F}' && AllPlain(y)
    requires ApplyRule(Rules[0], o, Outcome(x, 0)) == Outcome(rx, n)
    ensures ApplyRule(Rules[0], o, Outcome(x + [c] + y, 0)) == Outcome(rx + y, n + 1)
  {
    ZeroWidthHidden(c);
    ClassStep(0, o, x, c, y, rx, n);
    assert rx + Rules[0].replacement + y == rx + y;
  }

  /** Rule 1 on plain pieces joined by the four hidden characters of the fox value. */
  lemma FoxRule(o: Options, x0: string, x1: string, x2: string, x3: string, x4: string)
    requires o.transformHidden
    requires AllPlain(x0) && AllPlain(x1) && AllPlain(x2) && AllPlain(x3) && AllPlain(x4)
    ensures var s := x0 + ['\U{200C}'] + x1 + ['\U{200D}'] + x2 + ['\U{200E}'] + x3 + ['\U{200F}'] + x4;
            ApplyRule(Rules[0], o, Outcome(s, 0)) == Outcome(x0 + x1 + x2 + x3 + x4, 4)
  {
    ClassStart(0, o, x0);
    HiddenStep(o, x0, '\U{200C}', x1, x0, 0);
    var s1 := x0 + ['\U{200C}'] + x1;
    HiddenStep(o, s1, '\U{200D}', x2, x0 + x1, 1);
    var s2 := s1 + ['\U{200D}'] + x2;
    HiddenStep(o, s2, '\U{200E}', x3, x0 + x1 + x2, 2);
    var s3 := s2 + ['\U{200E}'] + x3;
    HiddenStep(o, s3, '\U{200F}', x4, x0 + x1 + x2 + x3, 3);
  }

  /** The same text holds only plain and hidden characters, and its image only plain ones. */
  lemma FoxChars(x0: string, x1: string, x2: string, x3: string, x4: string)
    requires AllPlain(x0) && AllPlain(x1) && AllPlain(x2) && AllPlain(x3) && AllPlain(x4)
    ensures PlainOrInClass(0, x0 + ['\U{200C}'] + x1 + ['\U{200D}'] + x2 + ['\U{200E}'] + x3 + ['\U{200F}'] + x4)
    ensures PlainOrInReplacement(0, x0 + x1 + x2 + x3 + x4)
  {
    ZeroWidthHidden('\U{200C}');
    ZeroWidthHidden('\U{200D}');
    ZeroWidthHidden('\U{200E}');
    ZeroWidthHidden('\U{200F}');
    PlainOrInClassStep(0, x0, '\U{200C}', x1);
    var s1 := x0 + ['\U{200C}'] + x1;
    PlainOrInClassStep(0, s1, '\U{200D}', x2);
    var s2 := s1 + ['\U{200D}'] + x2;
    PlainOrInClassStep(0, s2, '\U{200E}', x3);
    var s3 := s2 + ['\U{200E}'] + x3;
    PlainOrInClassStep(0, s3, '\U{200F}', x4);
    assert Rules[0].replacement == "";
    PlainOrInReplacementStep(0, x0, x1);
    assert x0 + "" + x1 == x0 + x1;
    PlainOrInReplacementStep(0, x0 + x1, x2);
    assert x0 + x1 + "" + x2 == x0 + x1 + x2;
    PlainOrInReplacementStep(0, x0 + x1 + x2, x3);
    assert x0 + x1 + x2 + "" + x3 == x0 + x1 + x2 + x3;
    PlainOrInReplacementStep(0, x0 + x1 + x2 + x3, x4);
    assert x0 + x1 + x2 + x3 + "" + x4 == x0 + x1 + x2 + x3 + x4;
  }

  /** The words of the fox value are plain, and neither it nor its cleaned form ends in a blank. */
  lemma FoxPieces()
    ensures AllPlain("The") && AllPlain(" quick") && AllPlain(" brown") && AllPlain(" fox") && AllPlain(" jumps")
    ensures EndsLine(FoxValue) && EndsLine(FoxOut)
  {
    assert FoxValue[|FoxValue| - 1] == FoxOut[|FoxOut| - 1] == 's';
  }

  lemma FoxLine(o: Options, tables: UnicodeTables)
    requires o.transformHidden && !o.keyboardOnly
    ensures Humanize(FoxValue, o, tables) == Outcome(FoxOut, 4)
  {
    FoxPieces();
    FoxRule(o, "The", " quick", " brown", " fox", " jumps");
    FoxChars("The", " quick", " brown", " fox", " jumps");
    OneClassLine(0, o, FoxValue, FoxOut, 4, tables);
  }

  /** Four zero-width characters between the words are removed and counted. */
  lemma FoxValueCleaned(tables: UnicodeTables)
    ensures Humanize(FoxValue, Defaults(), tables) == Outcome(FoxOut, 4)
  {
    FoxLine(Defaults(), tables);
  }

  /** Cleaning a dict with one more entry appends that entry, cleaned, and adds its count. */
  lemma CleanEntriesSnoc(es: seq<Entry>, e: Entry, o: Options, tables: UnicodeTables)
    ensures var before := CleanEntries(es, o, tables);
      var last := Clean(e.value, o, tables);
      CleanEntries(es + [e], o, tables) == (before.0 + [Entry(e.key, last.0)], before.1 + last.1)
  {
    assert (es + [e])[..|es|] == es;
  }

  /**
   * The shape of the flat-dict case: the two string values are humanized,
   * the number and `None` come back as they were, the keys and their order
   * are kept, and the count is the sum of the two strings' counts.
   */
  lemma FlatDictShape(v1: string, v4: string, o: Options, tables: UnicodeTables)
    ensures var r1 := Humanize(v1, o, tables);
      var r4 := Humanize(v4, o, tables);
      Clean(Obj([Entry("a", Str(v1)), Entry("b", Leaf(Number(123))), Entry("c", Leaf(Null)), Entry("d", Str(v4))]), o, tables) ==
      (Obj([Entry("a", Str(r1.text)), Entry("b", Leaf(Number(123))), Entry("c", Leaf(Null)), Entry("d", Str(r4.text))]),
       r1.count + r4.count)
  {
    var r1, r4 := Humanize(v1, o, tables), Humanize(v4, o, tables);
    var e1, e2, e3, e4 := Entry("a", Str(v1)), Entry("b", Leaf(Number(123))), Entry("c", Leaf(Null)), Entry("d", Str(v4));
    var c1, c2, c3, c4 := Entry("a", Str(r1.text)), e2, e3, Entry("d", Str(r4.text));
    assert CleanEntries([], o, tables) == ([], 0);
    CleanEntriesSnoc([], e1, o, tables);
    assert [] + [e1] == [e1] && [] + [c1] == [c1];
    CleanEntriesSnoc([e1], e2, o, tables);
    assert [e1] + [e2] == [e1, e2] && [c1] + [c2] == [c1, c2];
    CleanEntriesSnoc([e1, e2], e3, o, tables);
    assert [e1, e2] + [e3] == [e1, e2, e3] && [c1, c2] + [c3] == [c1, c2, c3];
    CleanEntriesSnoc([e1, e2, e3], e4, o, tables);
    assert [e1, e2, e3] + [e4] == [e1, e2, e3, e4] && [c1, c2, c3] + [c4] == [c1, c2, c3, c4];
  }

  /**
   * The flat-dict case: `"a"` becomes `"Hello World!  "`, `"d"` becomes
   * `"The quick brown fox jumps"`, `"b"` and `"c"` are unchanged, and the
   * count is 3 + 4.
   */
  lemma FlatDictCleaned(tables: UnicodeTables)
    ensures Clean(Obj([Entry("a", Str(FlatValue)), Entry("b", Leaf(Number(123))), Entry("c", Leaf(Null)), Entry("d", Str(FoxValue))]),
                  Defaults(), tables) ==
      (Obj([Entry("a", Str("Hello World!  ")), Entry("b", Leaf(Number(123))), Entry("c", Leaf(Null)), Entry("d", Str(FoxOut))]), 7)
  {
    FlatDictShape(FlatValue, FoxValue, Defaults(), tables);
    FlatValueFirstPass(tables);
    FoxValueCleaned(tables);
  }

  /** A plain line that does not end in a blank comes back unchanged, with count 0. */
  lemma PlainLine(o: Options, v: string, tables: UnicodeTables)
    requires AllPlain(v) && EndsLine(v) && !o.keyboardOnly
    ensures Humanize(v, o, tables) == Outcome(v, 0)
  {
    ClassStart(0, o, v);
    OneClassLine(0, o, v, v, 0, tables);
  }

  /** The first key of the key case, and the watermarked value of its last entry. */
  const KeyWithSpace: string := "hello" + ['\U{200B}'] + " world"
  const ValueWithSpace: string := "test" + ['\U{200B}'] + " value"

  /** Rule 1 on one zero-width space between two plain pieces. */
  lemma OneHiddenRule(o: Options, x0: string, x1: string)
    requires o.transformHidden && AllPlain(x0) && AllPlain(x1)
    ensures var s := x0 + ['\U{200B}'] + x1;
      PlainOrInClass(0, s) && PlainOrInReplacement(0, x0 + x1) && ApplyRule(Rules[0], o, Outcome(s, 0)) == Outcome(x0 + x1, 1)
  {
    ClassStart(0, o, x0);
    HiddenStep(o, x0, '\U{200B}', x1, x0, 0);
    ZeroWidthHidden('\U{200B}');
    PlainOrInClassStep(0, x0, '\U{200B}', x1);
    assert Rules[0].replacement == "";
    PlainOrInReplacementStep(0, x0, x1);
    assert x0 + "" + x1 == x0 + x1;
  }

  /** One zero-width space between two plain pieces is removed and counted. */
  lemma OneHiddenInLine(o: Options, x0: string, x1: string, tables: UnicodeTables)
    requires o.transformHidden && !o.keyboardOnly
    requires AllPlain(x0) && AllPlain(x1) && EndsLine(x1)
    ensures Humanize(x0 + ['\U{200B}'] + x1, o, tables) == Outcome(x0 + x1, 1)
  {
    var s := x0 + ['\U{200B}'] + x1;
    assert s[|s| - 1] == x1[|x1| - 1];
    assert (x0 + x1)[|x0 + x1| - 1] == x1[|x1| - 1];
    OneHiddenRule(o, x0, x1);
    OneClassLine(0, o, s, x0 + x1, 1, tables);
  }

  /** Two dict entries with string values: both values humanized, keys kept, counts added. */
  lemma TwoStrings(k1: string, v1: string, k2: string, v2: string, o: Options, tables: UnicodeTables)
    ensures var r1 := Humanize(v1, o, tables);
      var r2 := Humanize(v2, o, tables);
      Clean(Obj([Entry(k1, Str(v1)), Entry(k2, Str(v2))]), o, tables) ==
      (Obj([Entry(k1, Str(r1.text)), Entry(k2, Str(r2.text))]), r1.count + r2.count)
  {
    var r1, r2 := Humanize(v1, o, tables), Humanize(v2, o, tables);
    var e1, e2 := Entry(k1, Str(v1)), Entry(k2, Str(v2));
    var c1, c2 := Entry(k1, Str(r1.text)), Entry(k2, Str(r2.text));
    assert CleanEntries([], o, tables) == ([], 0);
    CleanEntriesSnoc([], e1, o, tables);
    assert [] + [e1] == [e1] && [] + [c1] == [c1];
    CleanEntriesSnoc([e1], e2, o, tables);
    assert [e1] + [e2] == [e1, e2] && [c1] + [c2] == [c1, c2];
  }

  /**
   * Two entries of the key case: the key with a zero-width space comes back
   * as it was (so `"hello world"` is not a key of the result), while the
   * zero-width space in the value of `"normal"` is removed and counted.
   */
  lemma KeysCopied(tables: UnicodeTables)
    ensures var cleaned := Clean(Obj([Entry(KeyWithSpace, Str("value1")), Entry("normal", Str(ValueWithSpace))]), Defaults(), tables);
      cleaned == (Obj([Entry(KeyWithSpace, Str("value1")), Entry("normal", Str("test value"))]), 1) &&
      forall e :: e in cleaned.0.entries ==> e.key != "hello world"
  {
    var o := Defaults();
    assert AllPlain("value1") && EndsLine("value1");
    PlainLine(o, "value1", tables);
    assert AllPlain("test") && AllPlain(" value") && EndsLine(" value");
    OneHiddenInLine(o, "test", " value", tables);
    assert "test" + " value" == "test value";
    TwoStrings(KeyWithSpace, "value1", "normal", ValueWithSpace, o, tables);
    assert KeyWithSpace[5] != "hello world"[5];
  }
}
