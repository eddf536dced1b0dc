/**
 * String predicates with Python's `str` semantics: `startswith`, `endswith`,
 * `sub in s`, and the ASCII part of `lower()` and `title()`.
 */
module Text {

  type String = seq<char>

  /** `s.startswith(p)` */
  predicate StartsWith(s: String, p: String) {
    |p| <= |s| && s[..|p|] == p
  }

  /** `s.endswith(p)` */
  predicate EndsWith(s: String, p: String) {
    |p| <= |s| && s[|s| - |p|..] == p
  }

  /** `p in s` for strings: `p` occurs in `s` at some offset, scanned from the left. */
  predicate Contains(s: String, p: String)
    decreases |s|
  {
    StartsWith(s, p) || (|s| > 0 && Contains(s[1..], p))
  }

  /** `p` occurs in `s` at offset `i`. */
  predicate OccursAt(s: String, p: String, i: int) {
    0 <= i && i + |p| <= |s| && s[i..i + |p|] == p
  }

  /** A successful scan yields the offset it stopped at. */
  lemma {:induction false} ContainsWitness(s: String, p: String) returns (i: int)
    requires Contains(s, p)
    ensures OccursAt(s, p, i)
    decreases |s|
  {
    if StartsWith(s, p) {
      i := 0;
    } else {
      var j := ContainsWitness(s[1..], p);
      assert s[j + 1..j + 1 + |p|] == s[1..][j..j + |p|];
      i := j + 1;
    }
  }

  /** An occurrence at any offset is found by the scan. */
  lemma {:induction false} OccursContains(s: String, p: String, i: int)
    requires OccursAt(s, p, i)
    ensures Contains(s, p)
    decreases i
  {
    if i == 0 {
      assert s[..|p|] == s[0..|p|];
    } else {
      assert s[1..][i - 1..i - 1 + |p|] == s[i..i + |p|];
      OccursContains(s[1..], p, i - 1);
    }
  }

  /** The recursive scan agrees with the positional definition of a substring. */
  lemma ContainsIffOccurs(s: String, p: String)
    ensures Contains(s, p) <==> exists i :: OccursAt(s, p, i)
  {
    if Contains(s, p) {
      var i := ContainsWitness(s, p);
    }
    forall i | OccursAt(s, p, i) ensures Contains(s, p) {
      OccursContains(s, p, i);
    }
  }

  /** Every prefix of `s` occurs in it; in particular `s` contains itself. */
  lemma ContainsPrefix(s: String, p: String)
    requires StartsWith(s, p)
    ensures Contains(s, p)
  {
  }

  /** An occurrence of `p` supplies an occurrence of each of its infixes. */
  lemma {:induction false} ContainsInfix(s: String, p: String, q: String)
    requires Contains(s, p) && Contains(p, q)
    ensures Contains(s, q)
  {
    var i := ContainsWitness(s, p);
    var j := ContainsWitness(p, q);
    forall k | 0 <= k < |q|
      ensures s[i + j..i + j + |q|][k] == q[k]
    {
      assert s[i + j + k] == s[i..i + |p|][j + k];
      assert q[k] == p[j..j + |q|][k];
    }
    OccursContains(s, q, i + j);
  }

  /** Each character of `p` appears in any string containing `p`; used to refute substrings. */
  lemma {:induction false} ContainsChars(s: String, p: String, k: int)
    requires Contains(s, p) && 0 <= k < |p|
    ensures p[k] in s
    decreases |s|
  {
    if StartsWith(s, p) {
      assert s[k] == p[k];
    } else {
      ContainsChars(s[1..], p, k);
    }
  }

  /** `c in s` is false when `c` is absent, whatever the first index of `p` it witnesses. */
  lemma NotContainsByChar(s: String, p: String, k: int)
    requires 0 <= k < |p| && p[k] !in s
    ensures !Contains(s, p)
  {
    if Contains(s, p) {
      ContainsChars(s, p, k);
    }
  }

  /** `str.lower()` on one character, for the ASCII range. */
  function LowerChar(c: char): char {
    if 'A' <= c <= 'Z' then (c as int + 32) as char else c
  }

  /** `str.upper()` on one character, for the ASCII range. */
  function UpperChar(c: char): char {
    if 'a' <= c <= 'z' then (c as int - 32) as char else c
  }

  predicate IsLetter(c: char) {
    'a' <= c <= 'z' || 'A' <= c <= 'Z'
  }

  /** `s.lower()` for the ASCII range. */
  function Lower(s: String): (r: String)
    ensures |r| == |s|
    ensures forall i :: 0 <= i < |s| ==> r[i] == LowerChar(s[i])
  {
    seq(|s|, i requires 0 <= i < |s| => LowerChar(s[i]))
  }

  /** `s.replace(a, b)` for single characters. */
  function ReplaceChar(s: String, a: char, b: char): (r: String)
    ensures |r| == |s|
    ensures forall i :: 0 <= i < |s| ==> r[i] == (if s[i] == a then b else s[i])
  {
    seq(|s|, i requires 0 <= i < |s| => if s[i] == a then b else s[i])
  }

  /** Upper- or lower-casing a character leaves its case-folded form unchanged. */
  lemma CaseFold(c: char)
    ensures LowerChar(UpperChar(c)) == LowerChar(c)
    ensures LowerChar(LowerChar(c)) == LowerChar(c)
  {
  }

  /** Index `i` of `s` holds a letter with no letter right before it: `title` upper-cases it. */
  predicate StartsWord(s: String, i: int)
    requires 0 <= i < |s|
  {
    IsLetter(s[i]) && (i == 0 || !IsLetter(s[i - 1]))
  }

  /** Index `i` of `s` holds a letter right after another letter: `title` lower-cases it. */
  predicate InWord(s: String, i: int)
    requires 0 <= i < |s|
  {
    IsLetter(s[i]) && i > 0 && IsLetter(s[i - 1])
  }

  /** The character `s.title()` puts at index `i`. */
  function TitleAt(s: String, i: int): (c: char)
    requires 0 <= i < |s|
    ensures LowerChar(c) == LowerChar(s[i])
    ensures !IsLetter(s[i]) ==> c == s[i]
    ensures StartsWord(s, i) ==> 'A' <= c <= 'Z'
    ensures InWord(s, i) ==> 'a' <= c <= 'z'
  {
    CaseFold(s[i]);
    if i == 0 || !IsLetter(s[i - 1]) then UpperChar(s[i]) else LowerChar(s[i])
  }

  /**
   * `s.title()` for the ASCII range: a letter is upper-cased when it starts a
   * word (no letter right before it) and lower-cased otherwise.
   */
  function Title(s: String): (r: String)
    ensures |r| == |s|
    ensures forall i :: 0 <= i < |s| ==> LowerChar(r[i]) == LowerChar(s[i])
    ensures forall i :: 0 <= i < |s| && !IsLetter(s[i]) ==> r[i] == s[i]
    ensures forall i :: 0 <= i < |s| && StartsWord(s, i) ==> 'A' <= r[i] <= 'Z'
    ensures forall i :: 0 <= i < |s| && InWord(s, i) ==> 'a' <= r[i] <= 'z'
  {
    seq(|s|, i requires 0 <= i < |s| => TitleAt(s, i))
  }

  /** Title-casing is decided by the rules above: a string that obeys them all is `Title(s)`. */
  lemma TitleUnique(s: String, t: String)
    requires |t| == |s|
    requires forall i :: 0 <= i < |s| ==> LowerChar(t[i]) == LowerChar(s[i])
    requires forall i :: 0 <= i < |s| && !IsLetter(s[i]) ==> t[i] == s[i]
    requires forall i :: 0 <= i < |s| && StartsWord(s, i) ==> 'A' <= t[i] <= 'Z'
    requires forall i :: 0 <= i < |s| && InWord(s, i) ==> 'a' <= t[i] <= 'z'
    ensures t == Title(s)
  {
    var r := Title(s);
    forall i | 0 <= i < |s|
      ensures t[i] == r[i]
    {
      if IsLetter(s[i]) {
        assert StartsWord(s, i) || InWord(s, i);
        SameFoldSameCase(t[i], r[i]);
      }
    }
  }

  /** Two letters of the same case that fold to the same letter are equal. */
  lemma SameFoldSameCase(a: char, b: char)
    requires LowerChar(a) == LowerChar(b)
    requires ('A' <= a <= 'Z' && 'A' <= b <= 'Z') || ('a' <= a <= 'z' && 'a' <= b <= 'z')
    ensures a == b
  {
  }

  /** The report's type label for a Node.js and Python project. */
  lemma TitleExample()
    ensures Title("node, python") == "Node, Python"
  {
    TitleOfLabel("node, python");
  }

  /** Letters inside a word are lower-cased, so the case of the input does not matter. */
  lemma TitleExampleUpper()
    ensures Title("NODE, PYTHON") == "Node, Python"
  {
    TitleOfLabel("NODE, PYTHON");
  }

  /** Any casing of `node, python` title-cases to `Node, Python`. */
  lemma TitleOfLabel(s: String)
    requires |s| == 12 && s[4] == ',' && s[5] == ' '
    requires forall i :: 0 <= i < 12 && i != 4 && i != 5 ==> IsLetter(s[i]) && LowerChar(s[i]) == "node, python"[i]
    ensures Title(s) == "Node, Python"
  {
    var e := "Node, Python";
    forall i | 0 <= i < |s|
      ensures LowerChar(e[i]) == LowerChar(s[i])
      ensures !IsLetter(s[i]) ==> e[i] == s[i]
      ensures StartsWord(s, i) ==> 'A' <= e[i] <= 'Z'
      ensures InWord(s, i) ==> 'a' <= e[i] <= 'z'
    {
      if i == 4 || i == 5 {
      } else {
        assert IsLetter(s[i]);
        assert i == 0 || i == 6 || IsLetter(s[i - 1]);
      }
    }
    TitleUnique(s, e);
  }

  /** `sep.join(parts)`. */
  function JoinWith(sep: String, parts: seq<String>): (r: String)
    ensures |parts| == 0 ==> r == ""
    ensures |parts| > 0 ==> StartsWith(r, parts[0])
    ensures |parts| > 1 ==> Contains(r, sep)
  {
    if |parts| == 0 then ""
    else if |parts| == 1 then parts[0]
    else
      var r := parts[0] + sep + JoinWith(sep, parts[1..]);
      assert OccursAt(r, sep, |parts[0]|) by {
        assert r[|parts[0]|..|parts[0]| + |sep|] == sep;
      }
      OccursContains(r, sep, |parts[0]|);
      assert r[..|parts[0]|] == parts[0];
      r
  }
  /** The combined length of the parts. */
  function TotalLength(parts: seq<String>): nat {
    if |parts| == 0 then 0 else |parts[0]| + TotalLength(parts[1..])
  }

  /** Where part `i` starts in `sep.join(parts)`: after the `i` earlier parts and one separator each. */
  function PartOffset(sep: String, parts: seq<String>, i: nat): nat
    requires i <= |parts|
  {
    TotalLength(parts[..i]) + i * |sep|
  }

  /** Consecutive offsets are one part and one separator apart. */
  lemma {:induction false} PartOffsetStep(sep: String, parts: seq<String>, i: nat)
    requires i < |parts|
    ensures PartOffset(sep, parts, i + 1) == PartOffset(sep, parts, i) + |parts[i]| + |sep|
    decreases i
  {
    if i == 0 {
      assert parts[..1][1..] == [];
    } else {
      PartOffsetStep(sep, parts[1..], i - 1);
      PartOffsetShift(sep, parts, i);
      PartOffsetShift(sep, parts, i + 1);
    }
  }

  /** An offset in `parts` is the head and a separator plus the offset in the tail. */
  lemma PartOffsetShift(sep: String, parts: seq<String>, i: nat)
    requires 0 < i <= |parts|
    ensures PartOffset(sep, parts, i) == |parts[0]| + |sep| + PartOffset(sep, parts[1..], i - 1)
  {
    assert parts[..i][0] == parts[0] && parts[..i][1..] == parts[1..][..i - 1];
  }

  /** An occurrence in `s` is an occurrence in `a + s`, shifted by `|a|`. */
  lemma OccursShift(a: String, s: String, p: String, o: int)
    requires OccursAt(s, p, o)
    ensures OccursAt(a + s, p, |a| + o)
  {
    assert (a + s)[|a| + o..|a| + o + |p|] == s[o..o + |p|];
  }

  /** A join of two or more parts is the head, a separator, and the join of the tail. */
  lemma JoinWithUnfold(sep: String, parts: seq<String>)
    requires |parts| > 1
    ensures JoinWith(sep, parts) == (parts[0] + sep) + JoinWith(sep, parts[1..])
  {
  }

  /** `sep.join(parts)` is as long as the parts plus one separator between each pair of neighbours. */
  lemma {:induction false} JoinWithLength(sep: String, parts: seq<String>)
    requires |parts| > 0
    ensures |JoinWith(sep, parts)| == TotalLength(parts) + (|parts| - 1) * |sep|
    decreases |parts|
  {
    if |parts| == 1 {
      assert parts[1..] == [];
    } else {
      JoinWithUnfold(sep, parts);
      JoinWithLength(sep, parts[1..]);
    }
  }

  /** Part `i` of `sep.join(parts)` sits at `PartOffset(sep, parts, i)`. */
  lemma {:induction false} JoinWithParts(sep: String, parts: seq<String>)
    requires |parts| > 0
    ensures forall i :: 0 <= i < |parts| ==> OccursAt(JoinWith(sep, parts), parts[i], PartOffset(sep, parts, i))
    decreases |parts|
  {
    var r := JoinWith(sep, parts);
    assert PartOffset(sep, parts, 0) == 0 by {
      assert parts[..0] == [];
    }
    if |parts| == 1 {
      assert r[0..|parts[0]|] == parts[0];
    } else {
      var tail, head := parts[1..], parts[0] + sep;
      JoinWithUnfold(sep, parts);
      JoinWithParts(sep, tail);
      assert r[0..|parts[0]|] == parts[0];
      forall i | 1 <= i < |parts|
        ensures OccursAt(r, parts[i], PartOffset(sep, parts, i))
      {
        PartOffsetShift(sep, parts, i);
        OccursShift(head, JoinWith(sep, tail), tail[i - 1], PartOffset(sep, tail, i - 1));
      }
    }
  }

  /** A separator follows each part of `sep.join(parts)` but the last. */
  lemma {:induction false} JoinWithSeparators(sep: String, parts: seq<String>)
    requires |parts| > 0
    ensures forall i :: 0 <= i < |parts| - 1 ==> OccursAt(JoinWith(sep, parts), sep, PartOffset(sep, parts, i) + |parts[i]|)
    decreases |parts|
  {
    if |parts| > 1 {
      JoinWithSeparators(sep, parts[1..]);
      forall i | 0 <= i < |parts| - 1
        ensures OccursAt(JoinWith(sep, parts), sep, PartOffset(sep, parts, i) + |parts[i]|)
      {
        if i == 0 {
          JoinWithFirstSeparator(sep, parts);
        } else {
          JoinWithLaterSeparator(sep, parts, i);
        }
      }
    }
  }

  /** The first separator directly follows the first part. */
  lemma JoinWithFirstSeparator(sep: String, parts: seq<String>)
    requires |parts| > 1
    ensures OccursAt(JoinWith(sep, parts), sep, PartOffset(sep, parts, 0) + |parts[0]|)
  {
    JoinWithUnfold(sep, parts);
    assert PartOffset(sep, parts, 0) == 0 by {
      assert parts[..0] == [];
    }
    assert JoinWith(sep, parts)[|parts[0]|..|parts[0]| + |sep|] == sep;
  }

  /** A later separator is the tail's separator, shifted past the head and the first separator. */
  lemma JoinWithLaterSeparator(sep: String, parts: seq<String>, i: nat)
    requires 1 <= i < |parts| - 1
    requires OccursAt(JoinWith(sep, parts[1..]), sep, PartOffset(sep, parts[1..], i - 1) + |parts[1..][i - 1]|)
    ensures OccursAt(JoinWith(sep, parts), sep, PartOffset(sep, parts, i) + |parts[i]|)
  {
    JoinWithUnfold(sep, parts);
    PartOffsetShift(sep, parts, i);
    OccursShift(parts[0] + sep, JoinWith(sep, parts[1..]), sep, PartOffset(sep, parts[1..], i - 1) + |parts[1..][i - 1]|);
  }

  /** Concatenation regroups freely; stated once so that filter proofs need not rediscover it. */
  lemma ConcatAssoc<T>(h: seq<T>, p: seq<T>, q: seq<T>)
    ensures h + (p + q) == (h + p) + q
  {
  }
}
