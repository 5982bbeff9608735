/** The two JavaScript string methods the theme handler relies on:
    `String.prototype.includes` and `String.prototype.toLowerCase`. */
module Strings {

  /** `p` is a prefix of `s`. */
  predicate IsPrefix(p: string, s: string) {
    |p| <= |s| && s[..|p|] == p
  }

  /** `s.includes(p)`: `p` starts at the first position of `s` or somewhere in its tail. */
  predicate Contains(s: string, p: string)
    decreases |s|
  {
    IsPrefix(p, s) || (|s| > 0 && Contains(s[1..], p))
  }

  /** Reference definition of an occurrence: `p` is the slice of `s` that starts at `i`. */
  ghost predicate OccursAt(s: string, p: string, i: int) {
    0 <= i && i + |p| <= |s| && s[i..i + |p|] == p
  }

  /** `Contains` finds a substring anywhere, not only at the start. */
  lemma {:induction false} ContainsIffOccurs(s: string, p: string)
    ensures Contains(s, p) <==> exists i :: OccursAt(s, p, i)
    decreases |s|
  {
    if IsPrefix(p, s) {
      assert OccursAt(s, p, 0);
    } else if |s| > 0 {
      ContainsIffOccurs(s[1..], p);
      if Contains(s[1..], p) {
        var i :| OccursAt(s[1..], p, i);
        assert s[1..][i..i + |p|] == s[i + 1..i + 1 + |p|];
        assert OccursAt(s, p, i + 1);
      }
      if i :| OccursAt(s, p, i) {
        assert i != 0;
        assert s[1..][i - 1..i - 1 + |p|] == s[i..i + |p|];
        assert OccursAt(s[1..], p, i - 1);
      }
    }
  }

  /** The ASCII part of `toLowerCase`: 'A'..'Z' become 'a'..'z', every other character stays. */
  function LowerChar(c: char): char {
    if 'A' <= c <= 'Z' then (c as int + ('a' as int - 'A' as int)) as char else c
  }

  /** `s.toLowerCase()`, character by character. */
  function ToLower(s: string): (r: string)
    ensures |r| == |s|
    ensures forall i :: 0 <= i < |s| ==> r[i] == LowerChar(s[i])
  {
    if s == [] then [] else [LowerChar(s[0])] + ToLower(s[1..])
  }

  /** A character that is not an ASCII letter: lower-casing neither produces nor changes it. */
  predicate CaseFree(c: char) {
    !('A' <= c <= 'Z') && !('a' <= c <= 'z')
  }

  lemma LowerCharCaseFree(x: char, c: char)
    requires CaseFree(c)
    ensures LowerChar(x) == c <==> x == c
  {
  }

  /** Searching for a pattern without letters gives the same answer before and after lower-casing. */
  lemma {:induction false} ContainsToLower(s: string, p: string)
    requires forall k :: 0 <= k < |p| ==> CaseFree(p[k])
    ensures Contains(ToLower(s), p) <==> Contains(s, p)
    decreases |s|
  {
    var l := ToLower(s);
    assert IsPrefix(p, l) <==> IsPrefix(p, s) by {
      if |p| <= |s| {
        forall k | 0 <= k < |p|
          ensures l[k] == p[k] <==> s[k] == p[k]
        {
          LowerCharCaseFree(s[k], p[k]);
        }
        if IsPrefix(p, s) {
          assert l[..|p|] == p;
        }
        if IsPrefix(p, l) {
          assert s[..|p|] == p;
        }
      }
    }
    if |s| > 0 {
      assert l[1..] == ToLower(s[1..]);
      ContainsToLower(s[1..], p);
    }
  }
}
