/**
 * The two shapes of pattern used by the rule table, each given by what
 * `findall` returns (the list of matched spans, left to right, not
 * overlapping) and what `sub` returns (every matched span replaced).
 *
 * - `AnyOf(cls)` is a bracket class `[...]` of single code points and
 *   ranges; every match is one character.
 * - `TrailingBlanks` is `[ \t\v\f]+$` under MULTILINE: a run of blanks
 *   that ends at a '\n' or at the end of the text.
 */
module Patterns {
  import opened Strings

  /** A bracket class as written: a list of inclusive code-point ranges. */
  type CharClass = seq<(char, char)>

  predicate InClass(cls: CharClass, c: char)
    decreases |cls|
  {
    |cls| > 0 && ((cls[0].0 <= c <= cls[0].1) || InClass(cls[1..], c))
  }

  datatype Pattern = AnyOf(cls: CharClass) | TrailingBlanks

  /** The class `[ \t\v\f]`; carriage return is not in it. */
  predicate IsBlank(c: char)
  {
    c == ' ' || c == '\t' || c == '\U{000B}' || c == '\U{000C}'
  }

  predicate AllBlank(s: string)
  {
    s == [] || (IsBlank(s[0]) && AllBlank(s[1..]))
  }

  /** `AllBlank` holds exactly when every character is a blank. */
  lemma {:induction false} AllBlankAt(s: string)
    ensures AllBlank(s) <==> forall i :: 0 <= i < |s| ==> IsBlank(s[i])
    decreases |s|
  {
    if s != [] {
      AllBlankAt(s[1..]);
      assert forall i :: 0 < i < |s| ==> s[1..][i - 1] == s[i];
    }
  }

  /** Where `$` matches under MULTILINE: at the end of the text or just before a '\n'. */
  predicate AtLineEnd(s: string, k: nat)
    requires k <= |s|
  {
    k == |s| || s[k] == '\n'
  }

  /** The length of the longest run of blanks at the front of `s`. */
  function BlankRun(s: string): (k: nat)
    ensures k <= |s|
  {
    if s == [] || !IsBlank(s[0]) then 0 else 1 + BlankRun(s[1..])
  }

  /** `BlankRun` is the longest blank prefix: all of it is blank and the next character is not. */
  lemma {:induction false} BlankRunSpec(s: string)
    ensures AllBlank(s[..BlankRun(s)])
    ensures BlankRun(s) < |s| ==> !IsBlank(s[BlankRun(s)])
    decreases |s|
  {
    if s != [] && IsBlank(s[0]) {
      BlankRunSpec(s[1..]);
      var k := BlankRun(s);
      assert s[..k] == [s[0]] + s[1..][..k - 1];
    }
  }

  /** What one match looks like: one class character, or a non-empty run of blanks. */
  predicate MatchShape(p: Pattern, m: string)
  {
    match p
    case AnyOf(cls) => |m| == 1 && InClass(cls, m[0])
    case TrailingBlanks => |m| > 0 && AllBlank(m)
  }

  /**
   * `pattern.findall(s)`. The scan tries each position in turn; a blank run
   * that does not end a line cannot match at any of its positions (the
   * greedy run stops at the same non-blank), so the scan moves past it.
   */
  function Findall(p: Pattern, s: string): (ms: seq<string>)
    ensures forall i :: 0 <= i < |ms| ==> MatchShape(p, ms[i])
    ensures TotalLen(ms) <= |s|
    decreases |s|
  {
    if s == [] then []
    else
      match p
      case AnyOf(cls) =>
        var rest := Findall(p, s[1..]);
        if InClass(cls, s[0]) then
          TotalLenConcat([[s[0]]], rest);
          assert TotalLen([[s[0]]]) == 1 by { assert [[s[0]]][..0] == []; }
          [[s[0]]] + rest
        else rest
      case TrailingBlanks =>
        var k := BlankRun(s);
        if k == 0 then Findall(p, s[1..])
        else if AtLineEnd(s, k) then
          var rest := Findall(p, s[k..]);
          BlankRunSpec(s);
          TotalLenConcat([s[..k]], rest);
          assert TotalLen([s[..k]]) == k by { assert [s[..k]][..0] == []; }
          [s[..k]] + rest
        else Findall(p, s[k..])
  }

  /** `pattern.sub(rep, s)`: every span `findall` reports is replaced by `rep`. */
  function Sub(p: Pattern, rep: string, s: string): (r: string)
    decreases |s|
  {
    if s == [] then []
    else
      match p
      case AnyOf(cls) => (if InClass(cls, s[0]) then rep else [s[0]]) + Sub(p, rep, s[1..])
      case TrailingBlanks =>
        var k := BlankRun(s);
        if k == 0 then [s[0]] + Sub(p, rep, s[1..])
        else (if AtLineEnd(s, k) then rep else s[..k]) + Sub(p, rep, s[k..])
  }

  /**
   * Length accounting for `sub`: the text loses every matched character and
   * gains one copy of the replacement per match.
   */
  lemma SubLength(p: Pattern, rep: string, s: string)
    ensures var ms := Findall(p, s);
      |Sub(p, rep, s)| == |s| - TotalLen(ms) + |ms| * |rep|
  {
    match p
    case AnyOf(cls) => ClassSubLength(cls, rep, s);
    case TrailingBlanks => TrailingSubLength(rep, s);
  }

  lemma {:induction false} ClassSubLength(cls: CharClass, rep: string, s: string)
    ensures var ms := Findall(AnyOf(cls), s);
      |Sub(AnyOf(cls), rep, s)| == |s| - TotalLen(ms) + |ms| * |rep|
    decreases |s|
  {
    if s != [] {
      var p := AnyOf(cls);
      ClassSubLength(cls, rep, s[1..]);
      var rest := Findall(p, s[1..]);
      var tail := Sub(p, rep, s[1..]);
      if InClass(cls, s[0]) {
        var ms := [[s[0]]] + rest;
        assert Findall(p, s) == ms;
        assert Sub(p, rep, s) == rep + tail;
        TotalLenConcat([[s[0]]], rest);
        assert TotalLen([[s[0]]]) == 1 by { assert [[s[0]]][..0] == []; }
        MulSucc(|rest|, |rep|);
      } else {
        assert Findall(p, s) == rest;
        assert Sub(p, rep, s) == [s[0]] + tail;
      }
    }
  }

  lemma {:induction false} TrailingSubLength(rep: string, s: string)
    ensures var ms := Findall(TrailingBlanks, s);
      |Sub(TrailingBlanks, rep, s)| == |s| - TotalLen(ms) + |ms| * |rep|
    decreases |s|
  {
    if s != [] {
      var k := BlankRun(s);
      if k == 0 {
        TrailingSubLength(rep, s[1..]);
      } else {
        TrailingSubLength(rep, s[k..]);
        if AtLineEnd(s, k) {
          var rest := Findall(TrailingBlanks, s[k..]);
          var ms := [s[..k]] + rest;
          assert Findall(TrailingBlanks, s) == ms;
          TotalLenConcat([s[..k]], rest);
          assert TotalLen([s[..k]]) == k by { assert [s[..k]][..0] == []; }
          MulSucc(|rest|, |rep|);
        }
      }
    }
  }

  lemma MulSucc(n: nat, r: nat)
    ensures (n + 1) * r == n * r + r
  {
  }

  /** `sub` introduces no character that is neither in its input nor in the replacement. */
  lemma {:induction false} SubChars(p: Pattern, rep: string, s: string)
    ensures forall c :: c in Sub(p, rep, s) ==> c in s || c in rep
    decreases |s|
  {
    if s != [] {
      match p
      case AnyOf(cls) =>
        SubChars(p, rep, s[1..]);
        assert s == [s[0]] + s[1..];
      case TrailingBlanks =>
        var k := BlankRun(s);
        if k == 0 {
          SubChars(p, rep, s[1..]);
          assert s == [s[0]] + s[1..];
        } else {
          SubChars(p, rep, s[k..]);
          assert s == s[..k] + s[k..];
        }
    }
  }

  /** After a class substitution, a class character can only come from the replacement. */
  lemma {:induction false} ClassSubClears(cls: CharClass, rep: string, s: string)
    ensures forall c :: c in Sub(AnyOf(cls), rep, s) && InClass(cls, c) ==> c in rep
    decreases |s|
  {
    if s != [] {
      ClassSubClears(cls, rep, s[1..]);
    }
  }

  /**
   * A one-character replacement is a position-wise substitution: the length
   * is kept and each class character is replaced where it stands.
   */
  lemma {:induction false} ClassSubAt(cls: CharClass, rep: string, s: string)
    requires |rep| == 1
    ensures |Sub(AnyOf(cls), rep, s)| == |s|
    ensures forall i :: 0 <= i < |s| ==>
      Sub(AnyOf(cls), rep, s)[i] == if InClass(cls, s[i]) then rep[0] else s[i]
    decreases |s|
  {
    if s != [] {
      ClassSubAt(cls, rep, s[1..]);
      var r := Sub(AnyOf(cls), rep, s);
      forall i | 0 < i < |s|
        ensures r[i] == if InClass(cls, s[i]) then rep[0] else s[i]
      {
        assert r[i] == Sub(AnyOf(cls), rep, s[1..])[i - 1];
        assert s[1..][i - 1] == s[i];
      }
    }
  }

  /** A deletion (empty replacement) only removes characters. */
  lemma {:induction false} DeletionIsSubsequence(p: Pattern, s: string)
    ensures IsSubsequence(Sub(p, "", s), s)
    decreases |s|
  {
    if s != [] {
      match p
      case AnyOf(cls) =>
        DeletionIsSubsequence(p, s[1..]);
        var head: string := if InClass(cls, s[0]) then "" else [s[0]];
        if InClass(cls, s[0]) {
          EmptyIsSubsequence([s[0]]);
        } else {
          SubsequenceOfItself([s[0]]);
        }
        SubsequenceConcat(head, [s[0]], Sub(p, "", s[1..]), s[1..]);
        assert s == [s[0]] + s[1..];
      case TrailingBlanks =>
        var k := BlankRun(s);
        if k == 0 {
          DeletionIsSubsequence(p, s[1..]);
          SubsequenceOfItself([s[0]]);
          SubsequenceConcat([s[0]], [s[0]], Sub(p, "", s[1..]), s[1..]);
          assert s == [s[0]] + s[1..];
        } else {
          DeletionIsSubsequence(p, s[k..]);
          var head: string := if AtLineEnd(s, k) then "" else s[..k];
          if AtLineEnd(s, k) {
            EmptyIsSubsequence(s[..k]);
          } else {
            SubsequenceOfItself(s[..k]);
          }
          SubsequenceConcat(head, s[..k], Sub(p, "", s[k..]), s[k..]);
          assert s == s[..k] + s[k..];
        }
    }
  }

  /** Every match of a class is one character long, so the matched length is the number of matches. */
  lemma {:induction false} ClassMatchLength(cls: CharClass, s: string)
    ensures TotalLen(Findall(AnyOf(cls), s)) == |Findall(AnyOf(cls), s)|
  {
    SinglesLength(Findall(AnyOf(cls), s));
  }

  lemma {:induction false} SinglesLength(ms: seq<string>)
    requires forall i :: 0 <= i < |ms| ==> |ms[i]| == 1
    ensures TotalLen(ms) == |ms|
    decreases |ms|
  {
    if ms != [] {
      SinglesLength(ms[..|ms| - 1]);
    }
  }

  /** A class no character of which is below `lo` holds no character below `lo`. */
  lemma {:induction false} InClassAtLeast(cls: CharClass, lo: char, c: char)
    requires forall i :: 0 <= i < |cls| ==> lo <= cls[i].0
    requires c < lo
    ensures !InClass(cls, c)
    decreases |cls|
  {
    if cls != [] {
      InClassAtLeast(cls[1..], lo, c);
    }
  }

  /** A class no character of which is above `hi` holds no character above `hi`. */
  lemma {:induction false} InClassAtMost(cls: CharClass, hi: char, c: char)
    requires forall i :: 0 <= i < |cls| ==> cls[i].1 <= hi
    requires hi < c
    ensures !InClass(cls, c)
    decreases |cls|
  {
    if cls != [] {
      InClassAtMost(cls[1..], hi, c);
    }
  }

  /** A class pattern works one character at a time: `findall` and `sub` distribute over concatenation. */
  lemma ClassConcat(cls: CharClass, rep: string, a: string, b: string)
    ensures Findall(AnyOf(cls), a + b) == Findall(AnyOf(cls), a) + Findall(AnyOf(cls), b)
    ensures Sub(AnyOf(cls), rep, a + b) == Sub(AnyOf(cls), rep, a) + Sub(AnyOf(cls), rep, b)
  {
    ClassFindallConcat(cls, a, b);
    ClassSubConcat(cls, rep, a, b);
  }

  lemma {:induction false} ClassFindallConcat(cls: CharClass, a: string, b: string)
    ensures Findall(AnyOf(cls), a + b) == Findall(AnyOf(cls), a) + Findall(AnyOf(cls), b)
    decreases |a|
  {
    var p := AnyOf(cls);
    if a == [] {
      assert a + b == b;
    } else {
      var ab := a + b;
      assert ab[0] == a[0] && ab[1..] == a[1..] + b;
      ClassFindallConcat(cls, a[1..], b);
      var head: seq<string> := if InClass(cls, a[0]) then [[a[0]]] else [];
      assert Findall(p, ab) == head + Findall(p, a[1..] + b);
      assert Findall(p, a) == head + Findall(p, a[1..]);
    }
  }

  lemma {:induction false} ClassSubConcat(cls: CharClass, rep: string, a: string, b: string)
    ensures Sub(AnyOf(cls), rep, a + b) == Sub(AnyOf(cls), rep, a) + Sub(AnyOf(cls), rep, b)
    decreases |a|
  {
    var p := AnyOf(cls);
    if a == [] {
      assert a + b == b;
    } else {
      var ab := a + b;
      assert ab[0] == a[0] && ab[1..] == a[1..] + b;
      ClassSubConcat(cls, rep, a[1..], b);
      var head: string := if InClass(cls, a[0]) then rep else [a[0]];
      assert Sub(p, rep, ab) == head + Sub(p, rep, a[1..] + b);
      assert Sub(p, rep, a) == head + Sub(p, rep, a[1..]);
    }
  }

  /** A text with no character of the class has no match and is left as it is. */
  lemma {:induction false} ClassNoMatch(cls: CharClass, rep: string, s: string)
    requires forall i :: 0 <= i < |s| ==> !InClass(cls, s[i])
    ensures Findall(AnyOf(cls), s) == []
    ensures Sub(AnyOf(cls), rep, s) == s
    decreases |s|
  {
    if s != [] {
      ClassNoMatch(cls, rep, s[1..]);
      assert s == [s[0]] + s[1..];
    }
  }

  /** How many characters of `s` are in the class. */
  function CountIn(cls: CharClass, s: string): (n: nat)
    ensures n <= |s|
  {
    if s == [] then 0
    else CountIn(cls, s[..|s| - 1]) + if InClass(cls, s[|s| - 1]) then 1 else 0
  }

  /** The characters of `s` outside the class, in order. */
  function Outside(cls: CharClass, s: string): (r: string)
    ensures |r| <= |s|
  {
    if s == [] then []
    else
      var last := s[|s| - 1];
      Outside(cls, s[..|s| - 1]) + if InClass(cls, last) then [] else [last]
  }

  lemma {:induction false} CountInConcat(cls: CharClass, a: string, b: string)
    ensures CountIn(cls, a + b) == CountIn(cls, a) + CountIn(cls, b)
    ensures Outside(cls, a + b) == Outside(cls, a) + Outside(cls, b)
    decreases |b|
  {
    if b == [] {
      assert a + b == a;
    } else {
      var init := b[..|b| - 1];
      CountInConcat(cls, a, init);
      assert (a + b)[..|a + b| - 1] == a + init;
    }
  }

  /**
   * A class is matched at every one of its characters and nowhere else:
   * `findall` of a class pattern returns as many one-character matches as
   * the text has class characters.
   */
  lemma {:induction false} ClassFindallCount(cls: CharClass, s: string)
    ensures |Findall(AnyOf(cls), s)| == CountIn(cls, s)
    ensures TotalLen(Findall(AnyOf(cls), s)) == CountIn(cls, s)
    decreases |s|
  {
    ClassMatchLength(cls, s);
    if s != [] {
      var init, last := s[..|s| - 1], s[|s| - 1];
      ClassFindallCount(cls, init);
      assert s == init + [last];
      ClassFindallConcat(cls, init, [last]);
      assert Findall(AnyOf(cls), [last][1..]) == [] by { assert [last][1..] == []; }
    }
  }

  /** There is a class character in `s` exactly when the count is positive. */
  lemma {:induction false} CountInPositive(cls: CharClass, s: string)
    ensures CountIn(cls, s) > 0 <==> exists i :: 0 <= i < |s| && InClass(cls, s[i])
    decreases |s|
  {
    if s != [] {
      var init := s[..|s| - 1];
      CountInPositive(cls, init);
      assert forall i :: 0 <= i < |init| ==> init[i] == s[i];
    }
  }

  /** Deleting a class deletes exactly its characters and keeps all the others in order. */
  lemma {:induction false} ClassDeleteExact(cls: CharClass, s: string)
    ensures Sub(AnyOf(cls), "", s) == Outside(cls, s)
    decreases |s|
  {
    if s != [] {
      var init, last := s[..|s| - 1], s[|s| - 1];
      ClassDeleteExact(cls, init);
      assert s == init + [last];
      ClassSubConcat(cls, "", init, [last]);
      assert Sub(AnyOf(cls), "", [last][1..]) == [] by { assert [last][1..] == []; }
    }
  }

  /**
   * `Outside` is the text with the class characters taken out: a
   * subsequence with no class character, shorter by the class count, that
   * still holds every character outside the class.
   */
  lemma {:induction false} OutsideSpec(cls: CharClass, s: string)
    ensures IsSubsequence(Outside(cls, s), s)
    ensures forall c :: c in Outside(cls, s) ==> !InClass(cls, c)
    ensures forall c :: c in s && !InClass(cls, c) ==> c in Outside(cls, s)
    ensures |Outside(cls, s)| == |s| - CountIn(cls, s)
    decreases |s|
  {
    if s != [] {
      var init, last := s[..|s| - 1], s[|s| - 1];
      OutsideSpec(cls, init);
      var piece: string := if InClass(cls, last) then [] else [last];
      if InClass(cls, last) {
        EmptyIsSubsequence([last]);
      } else {
        SubsequenceOfItself([last]);
      }
      SubsequenceConcat(Outside(cls, init), init, piece, [last]);
      assert s == init + [last];
      forall c | c in s && !InClass(cls, c)
        ensures c in Outside(cls, s)
      {
        if c != last {
          assert c in init;
        }
      }
    }
  }

  /** A text with no class character is its own `Outside` and counts nothing. */
  lemma {:induction false} OutsideOfFree(cls: CharClass, s: string)
    requires forall i :: 0 <= i < |s| ==> !InClass(cls, s[i])
    ensures Outside(cls, s) == s && CountIn(cls, s) == 0
    decreases |s|
  {
    if s != [] {
      OutsideOfFree(cls, s[..|s| - 1]);
    }
  }
}
