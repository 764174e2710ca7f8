/**
 * String helpers standing in for the Python string operations the scorer
 * uses: `lower()`/`upper()`, the `in` substring test, `replace`, slicing,
 * `", ".join(...)` and `str(int)`.
 */
module TextOps {

  datatype Option<+T> = None | Some(value: T)

  /** Python's `lower()` restricted to ASCII letters. */
  function LowerChar(c: char): char {
    if 'A' <= c <= 'Z' then (c as int + 32) as char else c
  }

  /** Python's `upper()` restricted to ASCII letters. */
  function UpperChar(c: char): char {
    if 'a' <= c <= 'z' then (c as int - 32) as char else c
  }

  function Lower(s: string): (r: string)
    ensures |r| == |s|
  {
    seq(|s|, i requires 0 <= i < |s| => LowerChar(s[i]))
  }

  function Upper(s: string): (r: string)
    ensures |r| == |s|
  {
    seq(|s|, i requires 0 <= i < |s| => UpperChar(s[i]))
  }

  /** Python's `p in s` on strings: `p` occurs as a contiguous block of `s`. */
  predicate Contains(s: string, p: string) {
    p <= s || (|s| > 0 && Contains(s[1..], p))
  }

  /** `p` occurs in `s` starting at index `i`. */
  predicate OccursAt(s: string, p: string, i: int) {
    0 <= i <= |s| - |p| && s[i..i + |p|] == p
  }

  /** `Contains` finds exactly the positions at which `p` occurs. */
  lemma {:induction false} ContainsIff(s: string, p: string)
    ensures Contains(s, p) <==> exists i :: OccursAt(s, p, i)
  {
    if p <= s {
      assert OccursAt(s, p, 0);
    } else if |s| == 0 {
    } else {
      ContainsIff(s[1..], p);
      forall i | OccursAt(s[1..], p, i) ensures OccursAt(s, p, i + 1) {
        assert s[i + 1..i + 1 + |p|] == s[1..][i..i + |p|];
      }
      assert !OccursAt(s, p, 0);
      forall i | 1 <= i && OccursAt(s, p, i) ensures OccursAt(s[1..], p, i - 1) {
        assert s[1..][i - 1..i - 1 + |p|] == s[i..i + |p|];
      }
    }
  }

  /** A one-character pattern is contained exactly when the character occurs. */
  lemma {:induction false} ContainsChar(s: string, c: char)
    ensures Contains(s, [c]) <==> c in s
  {
    if |s| > 0 {
      ContainsChar(s[1..], c);
      assert [c] <= s <==> s[0] == c;
      assert c in s <==> s[0] == c || c in s[1..];
    }
  }

  /** `s.replace(c, "")` for a one-character pattern. */
  function RemoveChar(s: string, c: char): (r: string)
    ensures c !in r
    ensures forall x :: x in r ==> x in s
  {
    if |s| == 0 then ""
    else if s[0] == c then RemoveChar(s[1..], c)
    else [s[0]] + RemoveChar(s[1..], c)
  }

  /** Removal keeps every other character with its multiplicity and drops every `c`. */
  lemma {:induction false} RemoveCharMultiset(s: string, c: char)
    ensures multiset(RemoveChar(s, c)) == multiset(s)[c := 0]
  {
    if |s| > 0 {
      RemoveCharMultiset(s[1..], c);
      assert s == [s[0]] + s[1..];
    }
  }

  /** Removing a character from a concatenation removes it from each part, in order. */
  lemma {:induction false} RemoveCharConcat(a: string, b: string, c: char)
    ensures RemoveChar(a + b, c) == RemoveChar(a, c) + RemoveChar(b, c)
  {
    if |a| == 0 {
      assert a + b == b;
    } else {
      var t := a[1..];
      var h: string := if a[0] == c then "" else [a[0]];
      RemoveCharConcat(t, b, c);
      assert (a + b)[0] == a[0] && (a + b)[1..] == t + b;
      calc {
        RemoveChar(a + b, c);
        h + RemoveChar(t + b, c);
        h + (RemoveChar(t, c) + RemoveChar(b, c));
        (h + RemoveChar(t, c)) + RemoveChar(b, c);
        RemoveChar(a, c) + RemoveChar(b, c);
      }
    }
  }

  /** `s.replace(a, b)` for one-character patterns. */
  function ReplaceChar(s: string, a: char, b: char): (r: string)
    ensures |r| == |s|
  {
    seq(|s|, i requires 0 <= i < |s| => if s[i] == a then b else s[i])
  }

  /** Python's `s[off : off + len]` for non-negative bounds, which clamps to `|s|`. */
  function Slice(s: string, off: nat, len: nat): (r: string)
    ensures |r| <= len
    ensures off + len <= |s| ==> r == s[off..off + len]
    ensures off >= |s| ==> r == ""
    ensures off < |s| < off + len ==> r == s[off..]
  {
    if off >= |s| then ""
    else if off + len <= |s| then s[off..off + len]
    else s[off..]
  }

  /** `sep.join(parts)`. */
  function Join(parts: seq<string>, sep: string): string {
    if |parts| == 0 then ""
    else if |parts| == 1 then parts[0]
    else parts[0] + sep + Join(parts[1..], sep)
  }

  function DigitChar(d: nat): char
    requires d < 10
  {
    "0123456789"[d]
  }

  /** `str(n)` for a non-negative integer. */
  function NatToString(n: nat): (r: string)
    ensures |r| >= 1
  {
    if n < 10 then [DigitChar(n)]
    else NatToString(n / 10) + [DigitChar(n % 10)]
  }

  /** `str(i)` for any integer. */
  function IntToString(i: int): (r: string)
    ensures |r| >= 1
  {
    if i < 0 then "-" + NatToString(-i) else NatToString(i)
  }
}
