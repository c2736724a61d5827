/**
 * String helpers with the JavaScript behaviour the dispute code relies on:
 * `trim`, `toLowerCase`, `includes`, `join`, decimal rendering of integers
 * and global removal of a literal pattern (`replace(/p/g, '')`).
 * Case folding and whitespace are the ASCII versions (plus NBSP and BOM).
 */
module Text {

  /** The characters JavaScript's `trim` removes, restricted to ASCII, NBSP and BOM. */
  predicate IsSpace(c: char) {
    c == ' ' || c == '\t' || c == '\n' || c == '\r' || c == '\U{B}' || c == '\U{C}'
    || c == '\U{A0}' || c == '\U{FEFF}'
  }

  function TrimStart(s: string): (r: string)
    ensures |r| <= |s| && r == s[|s| - |r|..]
    ensures r == [] || !IsSpace(r[0])
    ensures forall i :: 0 <= i < |s| - |r| ==> IsSpace(s[i])
  {
    if |s| > 0 && IsSpace(s[0]) then TrimStart(s[1..]) else s
  }

  function TrimEnd(s: string): (r: string)
    ensures |r| <= |s| && r == s[..|r|]
    ensures r == [] || !IsSpace(r[|r| - 1])
    ensures forall i :: |r| <= i < |s| ==> IsSpace(s[i])
  {
    if |s| > 0 && IsSpace(s[|s| - 1]) then TrimEnd(s[..|s| - 1]) else s
  }

  /** `s.trim()`: the longest slice of `s` that neither starts nor ends with whitespace. */
  function Trim(s: string): (r: string)
    ensures exists a, b :: 0 <= a <= b <= |s| && r == s[a..b]
    ensures r == [] || (!IsSpace(r[0]) && !IsSpace(r[|r| - 1]))
    ensures (forall i :: 0 <= i < |s| ==> !IsSpace(s[i])) ==> r == s
  {
    var t := TrimStart(s);
    var r := TrimEnd(t);
    assert r == s[|s| - |t|..][..|r|] == s[|s| - |t|..|s| - |t| + |r|];
    r
  }

  /** ASCII `toLowerCase` of one character. */
  function LowerChar(c: char): (d: char)
    ensures 'A' <= c <= 'Z' ==> d as int == c as int + 32
    ensures !('A' <= c <= 'Z') ==> d == c
  {
    if 'A' <= c <= 'Z' then (c as int + 32) as char else c
  }

  /** ASCII `toLowerCase`. */
  function Lower(s: string): (r: string)
    ensures |r| == |s|
    ensures forall i :: 0 <= i < |s| ==> r[i] == LowerChar(s[i])
  {
    if s == [] then [] else [LowerChar(s[0])] + Lower(s[1..])
  }

  lemma {:induction false} LowerIdempotent(s: string)
    ensures Lower(Lower(s)) == Lower(s)
  {
    if s != [] {
      LowerIdempotent(s[1..]);
      assert Lower(s)[1..] == Lower(s[1..]);
    }
  }

  lemma {:induction false} LowerAppend(a: string, b: string)
    ensures Lower(a + b) == Lower(a) + Lower(b)
  {
    if a == [] {
      assert a + b == b;
    } else {
      assert (a + b)[1..] == a[1..] + b;
      LowerAppend(a[1..], b);
    }
  }

  /** `sub` occurs in `s` at position `i`. */
  ghost predicate OccursAt(s: string, sub: string, i: int) {
    0 <= i && i + |sub| <= |s| && s[i..i + |sub|] == sub
  }

  /** `s.includes(sub)`. */
  function Contains(s: string, sub: string): (b: bool)
    ensures b <==> exists i :: OccursAt(s, sub, i)
  {
    if |sub| > |s| then false
    else if s[..|sub|] == sub then (assert OccursAt(s, sub, 0); true)
    else
      var b := Contains(s[1..], sub);
      assert forall i :: OccursAt(s[1..], sub, i) ==> OccursAt(s, sub, i + 1);
      assert forall i :: 1 <= i && OccursAt(s, sub, i) ==> OccursAt(s[1..], sub, i - 1) by {
        forall i | 1 <= i && OccursAt(s, sub, i) ensures OccursAt(s[1..], sub, i - 1) {
          assert s[1..][i - 1..i - 1 + |sub|] == s[i..i + |sub|];
        }
      }
      b
  }

  /** An occurrence inside a slice is an occurrence in the whole string. */
  lemma ContainsInSlice(s: string, a: int, b: int, sub: string)
    requires 0 <= a <= b <= |s|
    ensures Contains(s[a..b], sub) ==> Contains(s, sub)
  {
    forall i | OccursAt(s[a..b], sub, i) ensures OccursAt(s, sub, a + i) {
      var t, u := s[a..b], s[a + i..a + i + |sub|];
      forall j | 0 <= j < |sub| ensures u[j] == sub[j] {
        assert t[i..i + |sub|][j] == t[i + j] == s[a + i + j];
      }
    }
  }

  /** A string without some character of `sub` cannot contain `sub`. */
  lemma MissingCharNotContained(s: string, sub: string, k: int)
    requires 0 <= k < |sub|
    requires forall i :: 0 <= i < |s| ==> s[i] != sub[k]
    ensures !Contains(s, sub)
  {
    forall i | 0 <= i && i + |sub| <= |s| ensures !OccursAt(s, sub, i) {
      assert s[i..i + |sub|][k] == s[i + k];
    }
  }

  /** An occurrence survives wrapping the string in more text. */
  lemma ContainsExtend(a: string, s: string, b: string, sub: string)
    ensures Contains(s, sub) ==> Contains(a + s + b, sub)
  {
    forall i | OccursAt(s, sub, i) ensures OccursAt(a + s + b, sub, |a| + i) {
      assert (a + s + b)[|a| + i..|a| + i + |sub|] == s[i..i + |sub|];
    }
  }

  predicate IsDigit(c: char) { '0' <= c <= '9' }

  function DigitChar(d: nat): (c: char)
    requires d < 10
    ensures IsDigit(c) && c as int - '0' as int == d
  {
    ('0' as int + d) as char
  }

  /** The value of a string of decimal digits. */
  function DigitsValue(s: string): nat
    requires forall i :: 0 <= i < |s| ==> IsDigit(s[i])
  {
    if s == [] then 0
    else
      assert IsDigit(s[|s| - 1]);
      DigitsValue(s[..|s| - 1]) * 10 + (s[|s| - 1] as int - '0' as int)
  }

  /** The decimal rendering of a natural number, as JavaScript's template literals print it. */
  function NatToString(n: nat): (r: string)
    ensures |r| > 0
    ensures forall i :: 0 <= i < |r| ==> IsDigit(r[i])
    ensures DigitsValue(r) == n
  {
    if n < 10 then [DigitChar(n)]
    else
      var r := NatToString(n / 10) + [DigitChar(n % 10)];
      assert r[..|r| - 1] == NatToString(n / 10);
      r
  }

  lemma NatToStringInjective(m: nat, n: nat)
    ensures NatToString(m) == NatToString(n) ==> m == n
  {
  }

  /** `String(i)` for an integer. */
  function IntToString(i: int): (r: string)
    ensures i >= 0 ==> r == NatToString(i)
    ensures i < 0 ==> r == "-" + NatToString(-i)
  {
    if i >= 0 then NatToString(i) else "-" + NatToString(-i)
  }

  /**
   * When two strings end in `sep` followed by a separator-free tail, the tails
   * agree: the last separator splits both at the same place.
   */
  lemma {:induction false} LastSeparatorSplit(p1: string, t1: string, p2: string, t2: string, sep: char)
    requires forall i :: 0 <= i < |t1| ==> t1[i] != sep
    requires forall i :: 0 <= i < |t2| ==> t2[i] != sep
    requires p1 + [sep] + t1 == p2 + [sep] + t2
    ensures t1 == t2
  {
    var s := p1 + [sep] + t1;
    var k1, k2 := |s| - 1 - |t1|, |s| - 1 - |t2|;
    assert s[k1] == sep && forall j :: k1 < j < |s| ==> s[j] == t1[j - k1 - 1];
    assert s[k2] == sep && forall j :: k2 < j < |s| ==> s[j] == t2[j - k2 - 1];
    assert k1 == k2;
    assert t1 == s[k1 + 1..] == t2;
  }

  /** `parts.join(sep)`. */
  function Join(parts: seq<string>, sep: string): string {
    if parts == [] then ""
    else if |parts| == 1 then parts[0]
    else parts[0] + sep + Join(parts[1..], sep)
  }

  lemma {:induction false} JoinSnoc(parts: seq<string>, x: string, sep: string)
    requires parts != []
    ensures Join(parts + [x], sep) == Join(parts, sep) + sep + x
  {
    if |parts| > 1 {
      assert (parts + [x])[1..] == parts[1..] + [x];
      JoinSnoc(parts[1..], x, sep);
    } else {
      assert (parts + [x])[1..] == [x];
    }
  }

  /** Each part occurs in the joined text, with the parts before it to its left. */
  lemma {:induction false} JoinHasPart(parts: seq<string>, sep: string, k: nat)
    requires k < |parts|
    ensures Contains(Join(parts, sep), parts[k])
  {
    if k == 0 {
      var rest := if |parts| == 1 then "" else sep + Join(parts[1..], sep);
      assert Join(parts, sep) == [] + parts[0] + rest;
      assert OccursAt(parts[0], parts[0], 0);
      ContainsExtend([], parts[0], rest, parts[0]);
    } else {
      JoinHasPart(parts[1..], sep, k - 1);
      assert Join(parts, sep) == parts[0] + sep + Join(parts[1..], sep) + [];
      ContainsExtend(parts[0] + sep, Join(parts[1..], sep), [], parts[k]);
    }
  }

  /** `s.replace(/pat/g, '')` for a literal pattern: occurrences are removed left to right. */
  function RemoveAll(s: string, pat: string): (r: string)
    requires pat != []
    ensures |r| <= |s|
    decreases |s|
  {
    if |s| < |pat| then s
    else if s[..|pat|] == pat then RemoveAll(s[|pat|..], pat)
    else [s[0]] + RemoveAll(s[1..], pat)
  }

  /** Removing a pattern whose first character does not occur in `s` leaves `s` unchanged. */
  lemma {:induction false} RemoveAllAbsent(s: string, pat: string)
    requires pat != []
    requires forall i :: 0 <= i < |s| ==> s[i] != pat[0]
    ensures RemoveAll(s, pat) == s
    decreases |s|
  {
    if |s| >= |pat| {
      assert s[..|pat|][0] == s[0];
      RemoveAllAbsent(s[1..], pat);
    }
  }

  const Fence := "```"

  /** After removing every "```" the result starts with a backtick only if `s` does. */
  lemma {:induction false} FenceFreeHead(s: string)
    ensures |RemoveAll(s, Fence)| > 0 && RemoveAll(s, Fence)[0] == '`' ==> |s| > 0 && s[0] == '`'
    ensures |RemoveAll(s, Fence)| > 1 && RemoveAll(s, Fence)[..2] == "``" ==> |s| > 1 && s[..2] == "``"
    decreases |s|
  {
    if |s| >= 3 {
      if s[..3] == Fence {
        FenceFreeHead(s[3..]);
      } else {
        FenceFreeHead(s[1..]);
      }
    }
  }

  /** Removing every "```" left to right leaves no "```" behind. */
  lemma {:induction false} RemoveFenceComplete(s: string)
    ensures !Contains(RemoveAll(s, Fence), Fence)
    decreases |s|
  {
    var r := RemoveAll(s, Fence);
    if |s| < 3 {
      assert |r| < 3;
    } else if s[..3] == Fence {
      RemoveFenceComplete(s[3..]);
    } else {
      var t := RemoveAll(s[1..], Fence);
      RemoveFenceComplete(s[1..]);
      FenceFreeHead(s[1..]);
      assert r == [s[0]] + t;
      forall i | 0 <= i && i + 3 <= |r| ensures !OccursAt(r, Fence, i) {
        if i == 0 {
          assert s[..3] == [s[0]] + s[1..][..2];
          assert r[..3] == [s[0]] + t[..2];
        } else {
          assert r[i..i + 3] == t[i - 1..i + 2];
          assert !OccursAt(t, Fence, i - 1);
        }
      }
    }
  }
}
