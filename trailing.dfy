/**
 * What the trailing-whitespace rule (`[ \t\v\f]+$` under MULTILINE,
 * replaced by nothing) does to a text, stated without reference to how
 * the scan proceeds: every line loses its longest blank suffix, and
 * nothing else changes.
 */
module TrailingWhitespace {
  import opened Strings
  import opened Patterns

  /** The rule's effect on a text. */
  function Strip(s: string): (r: string)
  {
    Sub(TrailingBlanks, "", s)
  }

  /** A line with its longest suffix of blanks removed. */
  function RStrip(line: string): (r: string)
    ensures |r| <= |line|
    decreases |line|
  {
    if line != [] && IsBlank(line[|line| - 1]) then RStrip(line[..|line| - 1]) else line
  }

  /**
   * `RStrip` removes exactly the longest blank suffix: what it keeps is a
   * prefix of the line, what it drops is all blank, and what it keeps does
   * not end in a blank.
   */
  lemma {:induction false} RStripSpec(line: string)
    ensures RStrip(line) <= line
    ensures AllBlank(line[|RStrip(line)|..])
    ensures RStrip(line) == [] || !IsBlank(RStrip(line)[|RStrip(line)| - 1])
    decreases |line|
  {
    if line != [] && IsBlank(line[|line| - 1]) {
      var init := line[..|line| - 1];
      RStripSpec(init);
      var r := RStrip(init);
      assert r <= line by {
        assert init <= line;
      }
      assert AllBlank(line[|r|..]) by {
        AllBlankAt(init[|r|..]);
        AllBlankAt(line[|r|..]);
        assert forall k :: 0 <= k < |line[|r|..]| - 1 ==> line[|r|..][k] == init[|r|..][k];
      }
    } else {
      assert line[|line|..] == [];
    }
  }

  /** An all-blank line strips to nothing. */
  lemma {:induction false} RStripAllBlank(s: string)
    requires AllBlank(s)
    ensures RStrip(s) == []
    decreases |s|
  {
    if s != [] {
      AllBlankAt(s);
      AllBlankAt(s[..|s| - 1]);
      RStripAllBlank(s[..|s| - 1]);
    }
  }

  /** A line that ends in a non-blank followed by blanks loses exactly those blanks. */
  lemma {:induction false} RStripBlankSuffix(u: string, sp: string)
    requires u != [] && !IsBlank(u[|u| - 1]) && AllBlank(sp)
    ensures RStrip(u + sp) == u
    decreases |sp|
  {
    if sp == [] {
      assert u + sp == u;
    } else {
      var init := sp[..|sp| - 1];
      AllBlankAt(sp);
      AllBlankAt(init);
      RStripBlankSuffix(u, init);
      var us := u + sp;
      assert us[|us| - 1] == sp[|sp| - 1];
      assert us[..|us| - 1] == u + init;
    }
  }
  /** The index of the first '\n', or the length when there is none. */
  function NewlineIndex(s: string): (i: nat)
    ensures i <= |s|
  {
    if s == [] || s[0] == '\n' then 0 else 1 + NewlineIndex(s[1..])
  }

  lemma {:induction false} NewlineIndexSpec(s: string)
    ensures '\n' !in s[..NewlineIndex(s)]
    ensures NewlineIndex(s) < |s| ==> s[NewlineIndex(s)] == '\n'
    decreases |s|
  {
    if s != [] && s[0] != '\n' {
      NewlineIndexSpec(s[1..]);
      assert s[..NewlineIndex(s)] == [s[0]] + s[1..][..NewlineIndex(s[1..])];
    }
  }

  /** The reference reading: split at '\n', strip each line's trailing blanks, join again. */
  function PerLine(s: string): (r: string)
    ensures |r| <= |s|
    decreases |s|
  {
    var i := NewlineIndex(s);
    if i == |s| then RStrip(s) else RStrip(s[..i]) + "\n" + PerLine(s[i + 1..])
  }

  /** No line of `r` ends in a blank: no blank stands at the end of the text or before a '\n'. */
  predicate NoTrailingBlanks(r: string)
  {
    forall k :: 0 < k <= |r| && AtLineEnd(r, k) ==> !IsBlank(r[k - 1])
  }

  lemma {:induction false} AllBlankSuffix(s: string, i: nat)
    requires i <= |s|
    ensures AllBlank(s) ==> AllBlank(s[i..])
    decreases i
  {
    if 0 < i {
      AllBlankSuffix(s[1..], i - 1);
      assert s[1..][i - 1..] == s[i..];
    }
  }

  lemma {:induction false} RStripAfterPrefix(u: string, w: string)
    requires !AllBlank(w)
    ensures RStrip(u + w) == u + RStrip(w)
    decreases |w|
  {
    var uw := u + w;
    assert w != [];
    assert uw[|uw| - 1] == w[|w| - 1];
    if IsBlank(w[|w| - 1]) {
      var init := w[..|w| - 1];
      assert !AllBlank(init) by {
        AllBlankAt(w);
        AllBlankAt(init);
      }
      RStripAfterPrefix(u, init);
      assert uw[..|uw| - 1] == u + init;
    }
  }

  /** Stripping a line that starts with a non-blank keeps that first character. */
  lemma RStripFront(line: string)
    requires line != [] && !IsBlank(line[0])
    ensures RStrip(line) == [line[0]] + RStrip(line[1..])
  {
    assert line == [line[0]] + line[1..];
    if AllBlank(line[1..]) {
      RStripBlankSuffix([line[0]], line[1..]);
      RStripAllBlank(line[1..]);
    } else {
      RStripAfterPrefix([line[0]], line[1..]);
    }
  }

  /** The three steps of the rule's scan: a non-blank is kept, a run that ends a line is dropped, another run is kept. */
  lemma StripKeepsChar(s: string)
    requires s != [] && !IsBlank(s[0])
    ensures Strip(s) == [s[0]] + Strip(s[1..])
  {
  }

  lemma StripDropsRun(s: string, k: nat)
    requires 0 < k == BlankRun(s) && AtLineEnd(s, k)
    ensures Strip(s) == Strip(s[k..])
  {
  }

  lemma StripKeepsRun(s: string, k: nat)
    requires 0 < k == BlankRun(s) && !AtLineEnd(s, k)
    ensures Strip(s) == s[..k] + Strip(s[k..])
  {
  }

  /** Text after a blank run that already stops inside `a` does not change the run. */
  lemma {:induction false} BlankRunConcat(a: string, b: string)
    requires BlankRun(a) < |a| || b == [] || !IsBlank(b[0])
    ensures BlankRun(a + b) == BlankRun(a)
    decreases |a|
  {
    if a == [] {
      assert a + b == b;
    } else if IsBlank(a[0]) {
      assert (a + b)[1..] == a[1..] + b;
      BlankRunConcat(a[1..], b);
    }
  }

  /** The rule treats a line (with no '\n') followed by a line break or the end as `RStrip`. */
  lemma {:induction false} StripLine(line: string, t: string)
    requires '\n' !in line
    requires t == [] || t[0] == '\n'
    ensures Strip(line + t) == RStrip(line) + Strip(t)
    decreases |line|
  {
    if line == [] {
      assert line + t == t;
    } else {
      var k := BlankRun(line);
      BlankRunConcat(line, t);
      if k == 0 {
        StripLineKeepsChar(line, t);
      } else if k == |line| {
        StripLineAllBlank(line, t);
      } else {
        StripLineAfterRun(line, t, k);
      }
    }
  }

  lemma {:induction false} StripLineKeepsChar(line: string, t: string)
    requires '\n' !in line
    requires t == [] || t[0] == '\n'
    requires line != [] && !IsBlank(line[0])
    ensures Strip(line + t) == RStrip(line) + Strip(t)
    decreases |line|, 0
  {
    var s := line + t;
    assert s[0] == line[0];
    StripKeepsChar(s);
    assert s[1..] == line[1..] + t;
    assert '\n' !in line[1..] by { assert line == [line[0]] + line[1..]; }
    StripLine(line[1..], t);
    RStripFront(line);
  }

  lemma StripLineAllBlank(line: string, t: string)
    requires t == [] || t[0] == '\n'
    requires 0 < |line| == BlankRun(line) == BlankRun(line + t)
    ensures Strip(line + t) == RStrip(line) + Strip(t)
  {
    var s := line + t;
    var k := |line|;
    assert AtLineEnd(s, k);
    StripDropsRun(s, k);
    assert s[k..] == t;
    BlankRunSpec(line);
    assert AllBlank(line) by { assert line[..k] == line; }
    RStripAllBlank(line);
  }

  /** The case of `StripLine` where the line starts with blanks that do not end it. */
  lemma {:induction false} StripLineAfterRun(line: string, t: string, k: nat)
    requires '\n' !in line
    requires t == [] || t[0] == '\n'
    requires 0 < k < |line| && k == BlankRun(line) && k == BlankRun(line + t)
    ensures Strip(line + t) == RStrip(line) + Strip(t)
    decreases |line|, 0
  {
    var s := line + t;
    BlankRunSpec(line);
    assert s[..k] == line[..k];
    assert s[k..] == line[k..] + t;
    assert !AtLineEnd(s, k) by { assert s[k] == line[k]; }
    StripKeepsRun(s, k);
    assert '\n' !in line[k..] by { assert line == line[..k] + line[k..]; }
    StripLine(line[k..], t);
    assert !AllBlank(line[k..]) by { assert line[k..][0] == line[k]; }
    RStripAfterPrefix(line[..k], line[k..]);
    assert line == line[..k] + line[k..];
  }

  /** Rule 2 is exactly "strip the trailing blanks of every line". */
  lemma {:induction false} StripIsPerLine(s: string)
    ensures Strip(s) == PerLine(s)
    decreases |s|
  {
    var i := NewlineIndex(s);
    if i == |s| {
      LastLine(s);
    } else {
      StripIsPerLine(s[i + 1..]);
      FirstLine(s, i);
    }
  }

  lemma LastLine(s: string)
    requires NewlineIndex(s) == |s|
    ensures Strip(s) == RStrip(s)
  {
    assert s + [] == s;
    NewlineIndexSpec(s);
    assert s[..|s|] == s;
    StripLine(s, []);
  }

  lemma FirstLine(s: string, i: nat)
    requires i == NewlineIndex(s) < |s|
    ensures Strip(s) == RStrip(s[..i]) + "\n" + Strip(s[i + 1..])
  {
    NewlineIndexSpec(s);
    assert s == s[..i] + s[i..];
    assert s[i..][1..] == s[i + 1..];
    LineThenBreak(s[..i], s[i..]);
  }

  /** A line followed by a line break and more text. */
  lemma LineThenBreak(line: string, rest: string)
    requires '\n' !in line && rest != [] && rest[0] == '\n'
    ensures Strip(line + rest) == RStrip(line) + "\n" + Strip(rest[1..])
  {
    StripLine(line, rest);
    StripKeepsChar(rest);
    assert [rest[0]] == "\n";
  }

  /** After rule 2 no line ends in a blank. */
  lemma {:induction false} StripLeavesNoTrailingBlanks(s: string)
    ensures NoTrailingBlanks(Strip(s))
    decreases |s|
  {
    if s != [] {
      var k := BlankRun(s);
      BlankRunSpec(s);
      var r := Strip(s);
      if k == 0 {
        StripLeavesNoTrailingBlanks(s[1..]);
        var tail := Strip(s[1..]);
        assert r == [s[0]] + tail;
        forall j | 0 < j <= |r| && AtLineEnd(r, j)
          ensures !IsBlank(r[j - 1])
        {
          if j > 1 {
            assert AtLineEnd(tail, j - 1);
          }
        }
      } else if AtLineEnd(s, k) {
        StripLeavesNoTrailingBlanks(s[k..]);
        StripDropsRun(s, k);
      } else {
        StripLeavesNoTrailingBlanks(s[k..]);
        var tail := Strip(s[k..]);
        StripKeepsChar(s[k..]);
        assert tail[0] == s[k];
        assert r == s[..k] + tail;
        AllBlankAt(s[..k]);
        forall j | 0 < j <= |r| && AtLineEnd(r, j)
          ensures !IsBlank(r[j - 1])
        {
          if j > k {
            assert AtLineEnd(tail, j - k);
          } else {
            assert false;
          }
        }
      }
    }
  }

  /** Rule 2 only deletes blanks: with blanks left out, the text is unchanged. */
  function NonBlanks(s: string): (r: string)
  {
    if s == [] then [] else (if IsBlank(s[0]) then [] else [s[0]]) + NonBlanks(s[1..])
  }

  lemma {:induction false} NonBlanksConcat(a: string, b: string)
    ensures NonBlanks(a + b) == NonBlanks(a) + NonBlanks(b)
    decreases |a|
  {
    if a == [] {
      assert a + b == b;
    } else {
      assert (a + b)[1..] == a[1..] + b;
      NonBlanksConcat(a[1..], b);
    }
  }

  lemma {:induction false} NonBlanksOfBlanks(a: string)
    requires AllBlank(a)
    ensures NonBlanks(a) == []
    decreases |a|
  {
    if a != [] {
      NonBlanksOfBlanks(a[1..]);
    }
  }

  lemma {:induction false} StripKeepsNonBlanks(s: string)
    ensures NonBlanks(Strip(s)) == NonBlanks(s)
    decreases |s|
  {
    if s != [] {
      var k := BlankRun(s);
      if k == 0 {
        StripKeepsNonBlanks(s[1..]);
        NonBlanksConcat([s[0]], Strip(s[1..]));
        assert [s[0]][1..] == [];
      } else {
        StripKeepsNonBlanks(s[k..]);
        BlankRunSpec(s);
        var head: string := if AtLineEnd(s, k) then "" else s[..k];
        assert Strip(s) == head + Strip(s[k..]);
        NonBlanksConcat(head, Strip(s[k..]));
        NonBlanksOfBlanks(s[..k]);
        assert s == s[..k] + s[k..];
        NonBlanksConcat(s[..k], s[k..]);
      }
    }
  }
}
