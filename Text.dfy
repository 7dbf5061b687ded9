/**
 * The three pieces of JavaScript string behaviour the front end relies on:
 * `String.prototype.toLowerCase`, `String.prototype.replace` with a string
 * pattern (which rewrites the FIRST occurrence only), and the decimal
 * rendering of an integer inside a template literal (`${id}`).
 */
module Text {

  /** The pattern `p` occurs in `s` starting at index `j`. */
  predicate OccursAt(s: string, p: string, j: int) {
    0 <= j && j + |p| <= |s| && s[j..j + |p|] == p
  }

  /** `j` is the first index at which `p` occurs in `s`. */
  predicate FirstOccurrence(s: string, p: string, j: int) {
    OccursAt(s, p, j) && forall k :: 0 <= k < j ==> !OccursAt(s, p, k)
  }

  /** Shifting a string by one character shifts every occurrence by one. */
  lemma OccursAtTail(s: string, p: string, j: int)
    requires |s| > 0 && 0 <= j
    ensures OccursAt(s, p, j + 1) <==> OccursAt(s[1..], p, j)
  {
    if j + 1 + |p| <= |s| {
      assert s[j + 1..j + 1 + |p|] == s[1..][j..j + |p|];
    }
  }

  /** The search `replace` performs: the first index of `p` in `s`, or -1 (see IndexOfSpec). */
  function IndexOf(s: string, p: string): int
    decreases |s|
  {
    if p <= s then 0
    else if |s| == 0 then -1
    else
      var k := IndexOf(s[1..], p);
      if k < 0 then -1 else k + 1
  }

  /** IndexOf finds the first occurrence, and answers -1 exactly when there is none. */
  lemma {:induction false} IndexOfSpec(s: string, p: string)
    ensures IndexOf(s, p) == -1 || FirstOccurrence(s, p, IndexOf(s, p))
    ensures IndexOf(s, p) == -1 <==> forall k :: !OccursAt(s, p, k)
    decreases |s|
  {
    if p <= s {
      assert OccursAt(s, p, 0);
    } else if |s| > 0 {
      var k := IndexOf(s[1..], p);
      IndexOfSpec(s[1..], p);
      assert !OccursAt(s, p, 0);
      if k < 0 {
        forall j ensures !OccursAt(s, p, j) {
          if j > 0 { OccursAtTail(s, p, j - 1); }
        }
      } else {
        OccursAtTail(s, p, k);
        forall j | 0 <= j < k + 1 ensures !OccursAt(s, p, j) {
          if j > 0 { OccursAtTail(s, p, j - 1); }
        }
      }
    }
  }

  /** An occurrence is first in at most one place. */
  lemma FirstOccurrenceUnique(s: string, p: string, i: int, j: int)
    requires FirstOccurrence(s, p, i) && FirstOccurrence(s, p, j)
    ensures i == j
  {
  }

  /** A pattern holding a character that `s` lacks does not occur in `s`. */
  lemma AbsentChar(s: string, p: string, c: char)
    requires c in p && c !in s
    ensures IndexOf(s, p) == -1
  {
    var m :| 0 <= m < |p| && p[m] == c;
    forall k | 0 <= k && k + |p| <= |s| ensures !OccursAt(s, p, k) {
      assert s[k..k + |p|][m] == s[k + m];
    }
    IndexOfSpec(s, p);
  }

  /** An occurrence at `j` is the first when the pattern's first character is absent before `j`. */
  lemma FoundAt(s: string, p: string, j: int)
    requires |p| > 0 && OccursAt(s, p, j) && p[0] !in s[..j]
    ensures IndexOf(s, p) == j
  {
    forall k | 0 <= k < j && k + |p| <= |s| ensures !OccursAt(s, p, k) {
      assert s[..j][k] == s[k];
      assert s[k..k + |p|][0] == s[k];
    }
    IndexOfSpec(s, p);
    FirstOccurrenceUnique(s, p, IndexOf(s, p), j);
  }

  /**
   * `s.replace(p, rep)` for a string pattern: the first occurrence of `p`
   * is replaced by `rep` (see ReplaceFirstSpec).
   */
  function ReplaceFirst(s: string, p: string, rep: string): string
  {
    IndexOfSpec(s, p);
    var i := IndexOf(s, p);
    if i < 0 then s else s[..i] + rep + s[i + |p|..]
  }

  /**
   * ReplaceFirst rewrites the first occurrence of `p` and leaves the text
   * before and after it alone; without an occurrence `s` comes back unchanged.
   */
  lemma ReplaceFirstSpec(s: string, p: string, rep: string)
    ensures (forall k :: !OccursAt(s, p, k)) ==> ReplaceFirst(s, p, rep) == s
    ensures forall j :: FirstOccurrence(s, p, j) ==> ReplaceFirst(s, p, rep) == s[..j] + rep + s[j + |p|..]
  {
    IndexOfSpec(s, p);
    var i := IndexOf(s, p);
    forall j | FirstOccurrence(s, p, j) ensures j == i {
      FirstOccurrenceUnique(s, p, i, j);
    }
  }

  /** ReplaceFirst with a pattern holding a character that `s` lacks returns `s`. */
  lemma ReplaceAbsent(s: string, p: string, rep: string, c: char)
    requires c in p && c !in s
    ensures ReplaceFirst(s, p, rep) == s
  {
    AbsentChar(s, p, c);
  }

  /** ReplaceFirst at an occurrence whose first character appears nowhere before it. */
  lemma ReplaceAt(s: string, p: string, rep: string, j: int)
    requires |p| > 0 && OccursAt(s, p, j) && p[0] !in s[..j]
    ensures ReplaceFirst(s, p, rep) == s[..j] + rep + s[j + |p|..]
  {
    FoundAt(s, p, j);
  }

  /** Replacing with a text free of upper-case letters keeps a string free of them. */
  lemma ReplaceFirstNoUpper(s: string, p: string, rep: string)
    requires NoUpper(s) && NoUpper(rep)
    ensures NoUpper(ReplaceFirst(s, p, rep))
  {
    var i := IndexOf(s, p);
    if i >= 0 {
      IndexOfSpec(s, p);
      var a, b := s[..i], s[i + |p|..];
      assert forall c :: c in a ==> c in s;
      assert forall c :: c in b ==> c in s;
      assert ReplaceFirst(s, p, rep) == a + rep + b;
    }
  }

  /** The length after one replacement: grows by |rep| - |p| exactly when `p` occurs. */
  lemma ReplaceFirstLength(s: string, p: string, rep: string)
    ensures |ReplaceFirst(s, p, rep)| == if IndexOf(s, p) < 0 then |s| else |s| - |p| + |rep|
  {
    IndexOfSpec(s, p);
  }

  predicate IsUpper(c: char) { 'A' <= c <= 'Z' }

  /** `toLowerCase` on one character, for the ASCII letters. */
  function LowerChar(c: char): (r: char)
    ensures !IsUpper(r)
    ensures !IsUpper(c) ==> r == c
    ensures IsUpper(c) ==> 'a' <= r <= 'z' && r as int - c as int == 'a' as int - 'A' as int
  {
    if IsUpper(c) then (c as int - 'A' as int + 'a' as int) as char else c
  }

  /** `String.prototype.toLowerCase`, character by character. */
  function ToLower(s: string): (r: string)
    ensures |r| == |s|
    ensures forall i :: 0 <= i < |s| ==> r[i] == LowerChar(s[i])
  {
    if s == [] then [] else [LowerChar(s[0])] + ToLower(s[1..])
  }

  /** No ASCII upper-case letter occurs in `s`. */
  predicate NoUpper(s: string) {
    forall c :: c in s ==> !IsUpper(c)
  }

  lemma ToLowerNoUpper(s: string)
    ensures NoUpper(ToLower(s))
  {
    var r := ToLower(s);
    forall c | c in r ensures !IsUpper(c) {
      var k :| 0 <= k < |r| && r[k] == c;
    }
  }

  /** Lower-casing twice is lower-casing once. */
  lemma {:induction false} ToLowerIdempotent(s: string)
    ensures ToLower(ToLower(s)) == ToLower(s)
  {
    if s != [] {
      ToLowerIdempotent(s[1..]);
      assert ToLower(s)[1..] == ToLower(s[1..]);
    }
  }

  /** The decimal digit `d` as a character. */
  function DigitChar(d: nat): (c: char)
    requires d < 10
    ensures '0' <= c <= '9' && c as int - '0' as int == d
  {
    ('0' as int + d) as char
  }

  /** The decimal rendering of a natural number, most significant digit first. */
  function NatToString(n: nat): (r: string)
    ensures 1 <= |r| && (|r| == 1) == (n < 10)
    ensures forall i :: 0 <= i < |r| ==> '0' <= r[i] <= '9'
    ensures r[|r| - 1] == DigitChar(n % 10)
  {
    if n < 10 then [DigitChar(n)] else NatToString(n / 10) + [DigitChar(n % 10)]
  }

  /** The decimal rendering of an integer in a template literal (`${n}`). */
  function IntToString(n: int): (r: string)
    ensures 1 <= |r|
    ensures (r[0] == '-') <==> n < 0
  {
    if n < 0 then "-" + NatToString(-n) else NatToString(n)
  }

  /** Distinct natural numbers render differently. */
  lemma {:induction false} NatToStringInjective(a: nat, b: nat)
    requires NatToString(a) == NatToString(b)
    ensures a == b
  {
    var ra, rb := NatToString(a), NatToString(b);
    assert a % 10 == b % 10 by {
      assert ra[|ra| - 1] == rb[|rb| - 1];
    }
    assert (a < 10) == (b < 10) by {
      assert |ra| == |rb|;
    }
    if a >= 10 {
      assert NatToString(a / 10) == ra[..|ra| - 1];
      assert NatToString(b / 10) == rb[..|rb| - 1];
      NatToStringInjective(a / 10, b / 10);
    }
  }

  /** Distinct integers render differently, so a message naming an id names exactly one id. */
  lemma IntToStringInjective(a: int, b: int)
    requires IntToString(a) == IntToString(b)
    ensures a == b
  {
    assert (a < 0) == (b < 0) by {
      assert IntToString(a)[0] == IntToString(b)[0];
    }
    if a < 0 {
      assert NatToString(-a) == IntToString(a)[1..];
      assert NatToString(-b) == IntToString(b)[1..];
      NatToStringInjective(-a, -b);
    } else {
      NatToStringInjective(a, b);
    }
  }
}
