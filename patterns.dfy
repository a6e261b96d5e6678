/** Weak-pattern detection over a password: runs of one repeated character,
    runs of three consecutive code points, and keyboard-row substrings.
    Each check is a method with a loop, proved against a predicate that
    characterises it; the lemmas below state what the predicates imply. */
module Patterns {

  // ---------------------------------------------------------------------
  // Repetition
  // ---------------------------------------------------------------------

  /** Some character occurs three times in a row at positions i, i+1, i+2. */
  ghost predicate HasTriple(p: string) {
    exists i :: 0 <= i && i + 2 < |p| && p[i] == p[i + 1] && p[i + 1] == p[i + 2]
  }

  /** Length of the maximal run of identical characters that ends at index j. */
  ghost function RunLength(p: string, j: nat): (n: nat)
    requires j < |p|
    ensures 1 <= n <= j + 1
    ensures forall k :: j - n < k <= j ==> p[k] == p[j]
    ensures n <= j ==> p[j - n] != p[j]
    decreases j
  {
    if j == 0 || p[j] != p[j - 1] then 1 else RunLength(p, j - 1) + 1
  }

  /** The scan keeps the length of the current run; a run longer than two
      characters answers true at once, a change of character restarts it. */
  method HasRepetition(password: string) returns (found: bool)
    ensures found <==> HasTriple(password)
    ensures |password| < 3 ==> !found
  {
    if |password| < 3 {
      return false;
    }
    var count := 1;
    for i := 1 to |password|
      invariant count == RunLength(password, i - 1)
      invariant count <= 2
      invariant forall k :: 0 <= k && k + 2 < i ==> !(password[k] == password[k + 1] && password[k + 1] == password[k + 2])
    {
      if password[i] == password[i - 1] {
        count := count + 1;
        if count > 2 {
          assert password[i - 2] == password[i - 1];
          return true;
        }
      } else {
        count := 1;
      }
    }
    return false;
  }

  // ---------------------------------------------------------------------
  // Sequence
  // ---------------------------------------------------------------------

  /** The code point of a character, as Python's ord gives it. */
  function Ord(c: char): int {
    c as int
  }

  /** Three characters starting at i step up by one code point each. */
  predicate AscendingAt(p: string, i: nat)
    requires i + 2 < |p|
  {
    Ord(p[i]) + 1 == Ord(p[i + 1]) && Ord(p[i + 1]) + 1 == Ord(p[i + 2])
  }

  /** Three characters starting at i step down by one code point each. */
  predicate DescendingAt(p: string, i: nat)
    requires i + 2 < |p|
  {
    Ord(p[i + 2]) + 1 == Ord(p[i + 1]) && Ord(p[i + 1]) + 1 == Ord(p[i])
  }

  ghost predicate HasRun(p: string) {
    exists i: nat :: i + 2 < |p| && (AscendingAt(p, i) || DescendingAt(p, i))
  }

  /** Every offset is tested for an ascending and a descending triple; the
      first one found answers true. */
  method HasSequence(password: string) returns (found: bool)
    ensures found <==> HasRun(password)
    ensures |password| < 3 ==> !found
  {
    if |password| < 3 {
      return false;
    }
    for i := 0 to |password| - 2
      invariant forall k: nat :: k < i ==> !AscendingAt(password, k) && !DescendingAt(password, k)
    {
      var a, b, c := password[i], password[i + 1], password[i + 2];
      if Ord(a) + 1 == Ord(b) && Ord(b) + 1 == Ord(c) {
        assert AscendingAt(password, i);
        return true;
      }
      if Ord(c) + 1 == Ord(b) && Ord(b) + 1 == Ord(a) {
        assert DescendingAt(password, i);
        return true;
      }
    }
    return false;
  }

  /** The password read backwards. */
  function Reverse(s: string): (r: string)
    ensures |r| == |s|
    ensures forall k :: 0 <= k < |s| ==> r[k] == s[|s| - 1 - k]
  {
    seq(|s|, k requires 0 <= k < |s| => s[|s| - 1 - k])
  }

  /** An ascending triple read backwards is a descending one, and the other
      way round; so reversing a password never changes the verdict. */
  lemma {:induction false} HasRunReverse(p: string)
    ensures HasRun(Reverse(p)) <==> HasRun(p)
  {
    var q := Reverse(p);
    if HasRun(p) {
      var i: nat :| i + 2 < |p| && (AscendingAt(p, i) || DescendingAt(p, i));
      var j: nat := |p| - 3 - i;
      assert q[j] == p[i + 2] && q[j + 1] == p[i + 1] && q[j + 2] == p[i];
      assert AscendingAt(q, j) || DescendingAt(q, j);
    }
    if HasRun(q) {
      var j: nat :| j + 2 < |q| && (AscendingAt(q, j) || DescendingAt(q, j));
      var i: nat := |p| - 3 - j;
      assert q[j] == p[i + 2] && q[j + 1] == p[i + 1] && q[j + 2] == p[i];
      assert AscendingAt(p, i) || DescendingAt(p, i);
    }
  }

  /** The test is arithmetic on code points, not on an alphabet: the digit 9
      followed by the next two code points ':' and ';' is a sequence. */
  lemma CrossClassSequence()
    ensures HasRun("9:;")
    ensures HasRun("cba")
    ensures !HasRun("ab")
  {
    assert AscendingAt("9:;", 0);
    assert DescendingAt("cba", 0);
  }

  // ---------------------------------------------------------------------
  // Keyboard patterns
  // ---------------------------------------------------------------------

  const WeakPatterns: seq<string> := ["qwerty", "asdfg", "asdf", "qwer", "qwert", "hjkl", "zxcv"]

  /** The four patterns every other weak pattern starts with. */
  const CorePatterns: seq<string> := ["asdf", "qwer", "hjkl", "zxcv"]

  /** ASCII lower-casing of one character. */
  function LowerChar(c: char): (l: char)
    ensures 'A' <= c <= 'Z' ==> l as int == c as int + 32
    ensures !('A' <= c <= 'Z') ==> l == c
    ensures !('A' <= l <= 'Z')
  {
    if 'A' <= c <= 'Z' then (c as int + 32) as char else c
  }

  /** ASCII lower-casing of a string: no upper-case letter is left, and
      every other character stays where it was. */
  function Lower(s: string): (r: string)
    ensures |r| == |s|
    ensures forall k :: 0 <= k < |s| ==> r[k] == LowerChar(s[k])
    ensures forall k :: 0 <= k < |r| ==> !('A' <= r[k] <= 'Z')
    ensures forall k :: 0 <= k < |r| && !('A' <= s[k] <= 'Z') ==> r[k] == s[k]
  {
    seq(|s|, k requires 0 <= k < |s| => LowerChar(s[k]))
  }

  /** Substring test, as Python's `pat in s` for strings. */
  predicate Occurs(pat: string, s: string)
    decreases |s|
  {
    pat <= s || (s != [] && Occurs(pat, s[1..]))
  }

  /** pat sits in s at offset i. */
  predicate OccursAtOffset(pat: string, s: string, i: int) {
    0 <= i && i + |pat| <= |s| && s[i..i + |pat|] == pat
  }

  /** `Occurs` holds exactly when pat sits at some offset of s. */
  lemma {:induction false} OccursAt(pat: string, s: string)
    ensures Occurs(pat, s) <==> exists i :: OccursAtOffset(pat, s, i)
    decreases |s|
  {
    if pat <= s {
      assert OccursAtOffset(pat, s, 0);
    }
    if s != [] {
      OccursAt(pat, s[1..]);
      if Occurs(pat, s[1..]) {
        var i :| OccursAtOffset(pat, s[1..], i);
        assert OccursAtOffset(pat, s, i + 1);
      }
      if exists i :: OccursAtOffset(pat, s, i) {
        var i :| OccursAtOffset(pat, s, i);
        if i > 0 {
          assert OccursAtOffset(pat, s[1..], i - 1);
        } else {
          assert pat <= s;
        }
      }
    } else {
      if exists i :: OccursAtOffset(pat, s, i) {
        assert pat == [];
      }
    }
  }

  /** A pattern that occurs is never longer than the text. */
  lemma {:induction false} OccursLength(pat: string, s: string)
    requires Occurs(pat, s)
    ensures |pat| <= |s|
    decreases |s|
  {
    if !(pat <= s) {
      OccursLength(pat, s[1..]);
    }
  }

  /** Wherever a string occurs, each of its prefixes occurs too. */
  lemma {:induction false} PrefixOccurs(short: string, long: string, s: string)
    requires short <= long && Occurs(long, s)
    ensures Occurs(short, s)
    decreases |s|
  {
    if !(long <= s) {
      PrefixOccurs(short, long, s[1..]);
    }
  }

  ghost predicate HasKeyboardRow(p: string) {
    exists k :: 0 <= k < |WeakPatterns| && Occurs(WeakPatterns[k], Lower(p))
  }

  /** The patterns are tried in their listed order on the lower-cased
      password; the first one found answers true. */
  method HasKeyboardPattern(password: string) returns (found: bool)
    ensures found <==> HasKeyboardRow(password)
    ensures |password| < 4 ==> !found
  {
    if |password| < 4 {
      KeyboardRowShort(password);
    }
    var pwLower := Lower(password);
    for k := 0 to |WeakPatterns|
      invariant forall m :: 0 <= m < k ==> !Occurs(WeakPatterns[m], pwLower)
    {
      if Occurs(WeakPatterns[k], pwLower) {
        return true;
      }
    }
    return false;
  }

  /** Three listed patterns extend others ("qwerty", "qwert" and "asdfg"),
      so the check is the same as looking for one of the four core rows. */
  lemma KeyboardRowCore(p: string)
    ensures HasKeyboardRow(p) <==> exists k :: 0 <= k < |CorePatterns| && Occurs(CorePatterns[k], Lower(p))
  {
    var s := Lower(p);
    if HasKeyboardRow(p) {
      var k :| 0 <= k < |WeakPatterns| && Occurs(WeakPatterns[k], s);
      if k == 0 || k == 4 {
        PrefixOccurs("qwer", WeakPatterns[k], s);
        assert Occurs(CorePatterns[1], s);
      } else if k == 1 {
        PrefixOccurs("asdf", WeakPatterns[k], s);
        assert Occurs(CorePatterns[0], s);
      } else if k == 2 {
        assert Occurs(CorePatterns[0], s);
      } else if k == 3 {
        assert Occurs(CorePatterns[1], s);
      } else if k == 5 {
        assert Occurs(CorePatterns[2], s);
      } else {
        assert Occurs(CorePatterns[3], s);
      }
    }
    if exists k :: 0 <= k < |CorePatterns| && Occurs(CorePatterns[k], s) {
      var k :| 0 <= k < |CorePatterns| && Occurs(CorePatterns[k], s);
      var w := if k == 0 then 2 else if k == 1 then 3 else if k == 2 then 5 else 6;
      assert WeakPatterns[w] == CorePatterns[k];
    }
  }

  /** Every listed pattern has at least four characters. */
  lemma KeyboardRowShort(p: string)
    requires |p| < 4
    ensures !HasKeyboardRow(p)
  {
    if HasKeyboardRow(p) {
      var k :| 0 <= k < |WeakPatterns| && Occurs(WeakPatterns[k], Lower(p));
      OccursLength(WeakPatterns[k], Lower(p));
    }
  }

  lemma LowerIdempotent(s: string)
    ensures Lower(Lower(s)) == Lower(s)
  {
  }

  /** Upper-case letters never change the verdict. */
  lemma KeyboardRowCaseInsensitive(p: string)
    ensures HasKeyboardRow(Lower(p)) <==> HasKeyboardRow(p)
  {
    LowerIdempotent(p);
  }
}
