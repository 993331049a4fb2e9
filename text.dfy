/** String helpers the forms and search boxes rely on: JavaScript's
    `String.prototype.trim`, `toLowerCase` (ASCII letters only) and
    `includes`. */
module Text {

  /** The characters `trim` removes: ECMAScript WhiteSpace and LineTerminator. */
  predicate IsSpace(c: char) {
    c == '\t' || c == '\n' || c == '\U{000B}' || c == '\U{000C}' || c == '\r' || c == ' '
    || c == '\U{00A0}' || c == '\U{1680}' || ('\U{2000}' <= c <= '\U{200A}')
    || c == '\U{2028}' || c == '\U{2029}' || c == '\U{202F}' || c == '\U{205F}'
    || c == '\U{3000}' || c == '\U{FEFF}'
  }

  predicate AllSpace(s: string) {
    forall i :: 0 <= i < |s| ==> IsSpace(s[i])
  }

  /** A string with no whitespace at either end. */
  ghost predicate IsTrimmed(s: string) {
    s == [] || (!IsSpace(s[0]) && !IsSpace(s[|s| - 1]))
  }

  /** Number of whitespace characters at the start of s. */
  function LeadingSpaces(s: string): (k: nat)
    ensures k <= |s|
    ensures AllSpace(s[..k])
    ensures k < |s| ==> !IsSpace(s[k])
    ensures AllSpace(s) ==> k == |s|
  {
    if |s| > 0 && IsSpace(s[0]) then 1 + LeadingSpaces(s[1..]) else 0
  }

  /** Number of whitespace characters at the end of s. */
  function TrailingSpaces(s: string): (k: nat)
    ensures k <= |s|
    ensures AllSpace(s[|s| - k..])
    ensures k < |s| ==> !IsSpace(s[|s| - 1 - k])
    ensures |s| > 0 && !IsSpace(s[0]) ==> k < |s|
  {
    if |s| > 0 && IsSpace(s[|s| - 1]) then 1 + TrailingSpaces(s[..|s| - 1]) else 0
  }

  lemma AllSpaceConcat(a: string, b: string)
    requires AllSpace(a) && AllSpace(b)
    ensures AllSpace(a + b)
  {
    forall i | 0 <= i < |a + b| ensures IsSpace((a + b)[i]) {
      if i < |a| { assert (a + b)[i] == a[i]; } else { assert (a + b)[i] == b[i - |a|]; }
    }
  }

  /** The pieces Trim cuts s into: leading white space, the kept middle and
      trailing white space. */
  lemma TrimPieces(s: string, k: nat, m: nat)
    requires k <= |s| && m <= |s| - k
    ensures s == s[..k] + s[k..][..|s[k..]| - m] + s[k..][|s[k..]| - m..]
  {
    var t := s[k..];
    assert s == s[..k] + t;
    assert t == t[..|t| - m] + t[|t| - m..];
  }

  /** The kept middle starts and ends with a character that is not white space. */
  lemma TrimEnds(s: string, k: nat, m: nat)
    requires k == LeadingSpaces(s) && m == TrailingSpaces(s[k..])
    ensures IsTrimmed(s[k..][..|s[k..]| - m])
  {
    var t := s[k..];
    if m < |t| {
      assert !IsSpace(t[|t| - 1 - m]);
      assert !IsSpace(t[0]);
    }
  }

  /** The kept middle is empty exactly when s is all white space. */
  lemma TrimEmpty(s: string, k: nat, m: nat)
    requires k == LeadingSpaces(s) && m == TrailingSpaces(s[k..])
    ensures s[k..][..|s[k..]| - m] == [] <==> AllSpace(s)
  {
    var t := s[k..];
    if t[..|t| - m] == [] {
      TrimPieces(s, k, m);
      assert s == s[..k] + t[|t| - m..];
      AllSpaceConcat(s[..k], t[|t| - m..]);
    }
  }

  /** The kept middle is s less white space at both ends. */
  lemma TrimWitness(s: string, k: nat, m: nat)
    requires k == LeadingSpaces(s) && m == TrailingSpaces(s[k..])
    ensures exists a, b :: s == a + s[k..][..|s[k..]| - m] + b && AllSpace(a) && AllSpace(b)
  {
    TrimPieces(s, k, m);
    var a, b := s[..k], s[k..][|s[k..]| - m..];
    assert AllSpace(a) && AllSpace(b);
  }

  /** `s.trim()`: s without its leading and trailing whitespace. */
  function Trim(s: string): (r: string)
    ensures IsTrimmed(r)
    ensures exists a, b :: s == a + r + b && AllSpace(a) && AllSpace(b)
    ensures r == [] <==> AllSpace(s)
  {
    var k := LeadingSpaces(s);
    var m := TrailingSpaces(s[k..]);
    TrimWitness(s, k, m);
    TrimEnds(s, k, m);
    TrimEmpty(s, k, m);
    s[k..][..|s[k..]| - m]
  }

  /** Trimming is idempotent: an already trimmed string is left alone. */
  lemma TrimIdempotent(s: string)
    ensures Trim(Trim(s)) == Trim(s)
  {
    var r := Trim(s);
    var t := r[LeadingSpaces(r)..];
    assert LeadingSpaces(r) == 0;
    assert TrailingSpaces(t) == 0;
  }

  function LowerChar(c: char): (d: char)
    ensures 'A' <= c <= 'Z' ==> d as int == c as int + 32
    ensures !('A' <= c <= 'Z') ==> d == c
  {
    if 'A' <= c <= 'Z' then (c as int + 32) as char else c
  }

  /** `s.toLowerCase()`, restricted to the ASCII letters. */
  function Lower(s: string): (r: string)
    ensures |r| == |s|
    ensures forall i :: 0 <= i < |s| ==> r[i] == LowerChar(s[i])
  {
    seq(|s|, i requires 0 <= i < |s| => LowerChar(s[i]))
  }

  /** No upper-case ASCII letter is left after lowering, so lowering twice changes nothing. */
  lemma LowerIdempotent(s: string)
    ensures Lower(Lower(s)) == Lower(s)
  {
    var once := Lower(s);
    forall i | 0 <= i < |s| ensures Lower(once)[i] == once[i] {
      assert !('A' <= once[i] <= 'Z');
    }
  }

  ghost predicate OccursAt(s: string, t: string, i: int) {
    0 <= i && i + |t| <= |s| && s[i..i + |t|] == t
  }

  /** `s.includes(t)`: t occurs as a contiguous piece of s. */
  function Includes(s: string, t: string): (r: bool)
    ensures r <==> exists i :: OccursAt(s, t, i)
    decreases |s|
  {
    if |t| > |s| then false
    else if s[..|t|] == t then assert OccursAt(s, t, 0); true
    else
      var r := Includes(s[1..], t);
      assert r ==> exists i :: OccursAt(s, t, i) by {
        if r {
          var i :| OccursAt(s[1..], t, i);
          assert s[1..][i..i + |t|] == s[i + 1..i + 1 + |t|];
          assert OccursAt(s, t, i + 1);
        }
      }
      assert (exists i :: OccursAt(s, t, i)) ==> r by {
        if exists i :: OccursAt(s, t, i) {
          var i :| OccursAt(s, t, i);
          assert i != 0;
          assert s[1..][i - 1..i - 1 + |t|] == s[i..i + |t|];
          assert OccursAt(s[1..], t, i - 1);
        }
      }
      r
  }

  /** The empty search term occurs in every string. */
  lemma IncludesEmpty(s: string)
    ensures Includes(s, "")
  {
    assert OccursAt(s, "", 0);
  }
}
