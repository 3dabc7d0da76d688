/** The string operations the service relies on, with Python's meaning:
    `str.lower`, `str.replace(" ", "_")`, `str.startswith` and the
    substring test `key in s`. */
module Text {

  /** Python's lower case of one character, for every character whose lower
      case contains an ASCII letter: the ASCII capitals, LATIN CAPITAL LETTER
      I WITH DOT ABOVE (lowered to "i" + COMBINING DOT ABOVE) and KELVIN SIGN
      (lowered to "k"). Any other character is kept as it is. */
  function LowerChar(c: char): (r: seq<char>)
    ensures |r| >= 1
    ensures 'A' <= c <= 'Z' ==> r == [(c as int + 32) as char]
    ensures c == '\U{0130}' ==> r == ['i', '\U{0307}']
    ensures c == '\U{212A}' ==> r == ['k']
    ensures !('A' <= c <= 'Z') && c != '\U{0130}' && c != '\U{212A}' ==> r == [c]
    ensures forall j :: 0 <= j < |r| ==> !('A' <= r[j] <= 'Z')
  {
    if 'A' <= c <= 'Z' then [(c as int + 32) as char]
    else if c == '\U{0130}' then ['i', '\U{0307}']
    else if c == '\U{212A}' then ['k']
    else [c]
  }

  /** `s.lower()`: each character replaced by its lower case. */
  function Lower(s: string): (r: string)
  {
    if s == [] then [] else LowerChar(s[0]) + Lower(s[1..])
  }

  /** Lower-casing a string is lower-casing its first character followed by
      lower-casing the rest, whatever the first character expands to. */
  lemma LowerCons(c: char, t: string)
    ensures Lower([c] + t) == LowerChar(c) + Lower(t)
  {
    assert ([c] + t)[1..] == t;
  }

  /** A string that lower-casing leaves alone, character by character. */
  ghost predicate IsLowered(t: string)
  {
    forall i :: 0 <= i < |t| ==> LowerChar(t[i]) == [t[i]]
  }

  /** Everything `lower` produces is already in lower case. */
  lemma {:induction false} LowerIsLowered(s: string)
    ensures IsLowered(Lower(s))
    decreases |s|
  {
    if s != [] {
      LowerIsLowered(s[1..]);
      var h := LowerChar(s[0]);
      var t := Lower(s[1..]);
      assert Lower(s) == h + t;
      forall i | 0 <= i < |h + t|
        ensures LowerChar((h + t)[i]) == [(h + t)[i]]
      {
        if i < |h| {
          assert (h + t)[i] == h[i];
        } else {
          assert (h + t)[i] == t[i - |h|];
        }
      }
    }
  }

  /** On a string that is already in lower case, `lower` is the identity. */
  lemma {:induction false} LowerOfLowered(t: string)
    requires IsLowered(t)
    ensures Lower(t) == t
    decreases |t|
  {
    if t != [] {
      assert IsLowered(t[1..]) by {
        forall i | 0 <= i < |t[1..]|
          ensures LowerChar(t[1..][i]) == [t[1..][i]]
        {
          assert t[1..][i] == t[i + 1];
        }
      }
      LowerOfLowered(t[1..]);
      assert t == [t[0]] + t[1..];
    }
  }

  /** Lower-casing never shortens a string. */
  lemma {:induction false} LowerLength(s: string)
    ensures |Lower(s)| >= |s|
    decreases |s|
  {
    if s != [] {
      LowerLength(s[1..]);
    }
  }

  /** Lower-casing a string whose every character lowers to one character
      acts position by position. */
  lemma {:induction false} LowerPointwise(s: string)
    requires forall i :: 0 <= i < |s| ==> |LowerChar(s[i])| == 1
    ensures |Lower(s)| == |s|
    ensures forall i :: 0 <= i < |s| ==> Lower(s)[i] == LowerChar(s[i])[0]
    decreases |s|
  {
    if s != [] {
      LowerPointwise(s[1..]);
      forall i | 0 <= i < |s|
        ensures Lower(s)[i] == LowerChar(s[i])[0]
      {
        if i > 0 {
          assert s[1..][i - 1] == s[i];
        }
      }
    }
  }

  /** `s.lower().lower() == s.lower()`. */
  lemma LowerIdempotent(s: string)
    ensures Lower(Lower(s)) == Lower(s)
  {
    LowerIsLowered(s);
    LowerOfLowered(Lower(s));
  }

  /** `s.replace(" ", "_")`. */
  function ReplaceSpaces(s: string): (r: string)
    ensures |r| == |s|
    ensures forall i :: 0 <= i < |s| ==> r[i] != ' '
    ensures forall i :: 0 <= i < |s| && s[i] != ' ' ==> r[i] == s[i]
    ensures forall i :: 0 <= i < |s| && s[i] == ' ' ==> r[i] == '_'
  {
    seq(|s|, i requires 0 <= i < |s| => if s[i] == ' ' then '_' else s[i])
  }

  /** `replace(" ", "_")` works piece by piece. */
  lemma ReplaceSpacesAppend(a: string, b: string)
    ensures ReplaceSpaces(a + b) == ReplaceSpaces(a) + ReplaceSpaces(b)
  {
    var l := ReplaceSpaces(a + b);
    var r := ReplaceSpaces(a) + ReplaceSpaces(b);
    forall i | 0 <= i < |l|
      ensures l[i] == r[i]
    {
      if i < |a| {
        assert (a + b)[i] == a[i];
      } else {
        assert (a + b)[i] == b[i - |a|];
      }
    }
  }

  /** A string without spaces is left alone by `replace(" ", "_")`. */
  lemma ReplaceSpacesOfSpaceless(s: string)
    requires forall i :: 0 <= i < |s| ==> s[i] != ' '
    ensures ReplaceSpaces(s) == s
  {
  }

  /** `s.startswith(p)`. */
  predicate StartsWith(s: string, p: string)
  {
    |p| <= |s| && s[..|p|] == p
  }

  /** `k in s` for strings: does `k` occur in `s` as a contiguous block,
      checked from the left. The empty string occurs in every string. */
  function Contains(s: string, k: string): bool
    decreases |s|
  {
    if |k| > |s| then false
    else if StartsWith(s, k) then true
    else Contains(s[1..], k)
  }

  /** `k` sits in `s` starting at position `i`. */
  ghost predicate OccursAt(s: string, k: string, i: int)
  {
    0 <= i && i + |k| <= |s| && s[i..i + |k|] == k
  }

  /** The declarative meaning of Python's `k in s`. */
  ghost predicate OccursIn(s: string, k: string)
  {
    exists i :: OccursAt(s, k, i)
  }

  /** The left-to-right scan decides exactly the declarative substring
      relation. */
  lemma {:induction false} ContainsIff(s: string, k: string)
    ensures Contains(s, k) <==> OccursIn(s, k)
    decreases |s|
  {
    if |k| > |s| {
    } else if StartsWith(s, k) {
      assert OccursAt(s, k, 0);
    } else {
      ContainsIff(s[1..], k);
      if OccursIn(s, k) {
        var i :| OccursAt(s, k, i);
        assert i != 0;
        assert s[1..][i - 1..i - 1 + |k|] == s[i..i + |k|];
        assert OccursAt(s[1..], k, i - 1);
      }
      if OccursIn(s[1..], k) {
        var j :| OccursAt(s[1..], k, j);
        assert s[1..][j..j + |k|] == s[j + 1..j + 1 + |k|];
        assert OccursAt(s, k, j + 1);
      }
    }
  }

  /** `ContainsIff` for every key at once. */
  lemma ContainsIffAll(s: string)
    ensures forall k :: Contains(s, k) <==> OccursIn(s, k)
  {
    forall k
      ensures Contains(s, k) <==> OccursIn(s, k)
    {
      ContainsIff(s, k);
    }
  }
}
