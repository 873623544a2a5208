/**
 * String primitives the endpoints and the form validators rely on: trimming
 * by a whitespace class, PHP's `trim`, `empty`, `implode`, `explode` with a
 * one-character delimiter and `str_replace` of one character by nothing.
 */
module Strings {

  /** The characters PHP's `trim()` strips by default: space, tab, newline, carriage return, NUL, vertical tab. */
  predicate IsPhpTrimSpace(c: char) {
    c == ' ' || c == '\t' || c == '\n' || c == '\r' || c == '\0' || c == '\U{B}'
  }

  /** PHP `empty($s)` for a string: true for "" and for "0". */
  predicate PhpEmpty(s: string) {
    s == "" || s == "0"
  }

  /** Number of leading characters of `s` in the class `sp`. */
  function TrimStartIndex(s: string, sp: char -> bool): (i: nat)
    ensures i <= |s|
    ensures forall k :: 0 <= k < i ==> sp(s[k])
    ensures i == |s| || !sp(s[i])
  {
    if s == [] || !sp(s[0]) then 0 else 1 + TrimStartIndex(s[1..], sp)
  }

  /** Length of `s` once its trailing characters in the class `sp` are cut off. */
  function TrimEndIndex(s: string, sp: char -> bool): (j: nat)
    ensures j <= |s|
    ensures forall k :: j <= k < |s| ==> sp(s[k])
    ensures j == 0 || !sp(s[j - 1])
  {
    if s == [] || !sp(s[|s| - 1]) then |s| else TrimEndIndex(s[..|s| - 1], sp)
  }

  /** `s` without its leading and trailing characters of the class `sp`. */
  function TrimWith(s: string, sp: char -> bool): (r: string)
    ensures |r| <= |s|
    ensures r == "" || (!sp(r[0]) && !sp(r[|r| - 1]))
    ensures r == "" <==> forall k :: 0 <= k < |s| ==> sp(s[k])
    ensures forall k :: 0 <= k < |r| ==> r[k] in s
  {
    var i := TrimStartIndex(s, sp);
    var j := TrimEndIndex(s[i..], sp);
    s[i..][..j]
  }

  /** Trimming an already trimmed string changes nothing. */
  lemma TrimIdempotent(s: string, sp: char -> bool)
    ensures TrimWith(TrimWith(s, sp), sp) == TrimWith(s, sp)
  {
    var t := TrimWith(s, sp);
    assert TrimStartIndex(t, sp) == 0;
    assert TrimEndIndex(t, sp) == |t|;
  }

  /** PHP `trim($s)`. */
  function PhpTrim(s: string): string
  {
    TrimWith(s, IsPhpTrimSpace)
  }

  /** Number of occurrences of `c` in `s`. */
  function Occurrences(c: char, s: string): nat
  {
    if s == [] then 0 else (if s[0] == c then 1 else 0) + Occurrences(c, s[1..])
  }

  /** PHP `implode($sep, $parts)`. */
  function Implode(sep: string, parts: seq<string>): string
  {
    if |parts| == 0 then ""
    else if |parts| == 1 then parts[0]
    else parts[0] + sep + Implode(sep, parts[1..])
  }

  /** PHP `explode($d, $s)` for a one-character delimiter: the pieces between occurrences of `d`. */
  function Explode(d: char, s: string): (r: seq<string>)
    ensures |r| == Occurrences(d, s) + 1
    ensures forall i :: 0 <= i < |r| ==> d !in r[i]
  {
    if s == [] then [""]
    else
      var rest := Explode(d, s[1..]);
      if s[0] == d then [""] + rest
      else [[s[0]] + rest[0]] + rest[1..]
  }

  /** Joining the pieces of `explode` with the delimiter gives back the string. */
  lemma {:induction false} ImplodeExplode(d: char, s: string)
    ensures Implode([d], Explode(d, s)) == s
  {
    if s != [] {
      var rest := Explode(d, s[1..]);
      ImplodeExplode(d, s[1..]);
      if s[0] == d {
        assert Explode(d, s) == [""] + rest;
        assert ([""] + rest)[1..] == rest;
      } else {
        var parts := [[s[0]] + rest[0]] + rest[1..];
        assert Explode(d, s) == parts;
        if |rest| == 1 {
          assert parts == [[s[0]] + rest[0]];
        } else {
          assert parts[1..] == rest[1..];
          assert Implode([d], rest) == rest[0] + [d] + Implode([d], rest[1..]);
          assert s == [s[0]] + s[1..];
        }
      }
    }
  }

  /** Exploding a join of delimiter-free pieces gives back the pieces. */
  lemma {:induction false} ExplodeImplode(d: char, parts: seq<string>)
    requires |parts| >= 1
    requires forall i :: 0 <= i < |parts| ==> d !in parts[i]
    ensures Explode(d, Implode([d], parts)) == parts
  {
    if |parts| == 1 {
      ExplodeFree(d, parts[0]);
    } else {
      ExplodeImplode(d, parts[1..]);
      var tail := Implode([d], parts[1..]);
      ExplodeAppend(d, parts[0], tail);
      assert parts == [parts[0]] + parts[1..];
    }
  }

  /** A delimiter-free string explodes into itself. */
  lemma {:induction false} ExplodeFree(d: char, s: string)
    requires d !in s
    ensures Explode(d, s) == [s]
  {
    if s != [] {
      ExplodeFree(d, s[1..]);
      assert s == [s[0]] + s[1..];
    }
  }

  /** Exploding `p + d + t` for a delimiter-free `p` puts `p` in front of the pieces of `t`. */
  lemma {:induction false} ExplodeAppend(d: char, p: string, t: string)
    requires d !in p
    ensures Explode(d, p + [d] + t) == [p] + Explode(d, t)
  {
    if p == [] {
      assert [d] + t == p + [d] + t;
      assert ([d] + t)[1..] == t;
    } else {
      ExplodeAppend(d, p[1..], t);
      var s := p + [d] + t;
      assert s[0] == p[0];
      assert s[1..] == p[1..] + [d] + t;
      assert [p[0]] + p[1..] == p;
    }
  }

  /** PHP `str_replace($c, '', $s)` for one character `c`: `s` with every `c` removed. */
  function RemoveChar(c: char, s: string): (r: string)
    ensures c !in r
    ensures |r| == |s| - Occurrences(c, s)
    ensures forall x :: x != c ==> (x in r <==> x in s)
  {
    if s == [] then ""
    else if s[0] == c then RemoveChar(c, s[1..])
    else [s[0]] + RemoveChar(c, s[1..])
  }

  /** Removing a character from a concatenation removes it from each side. */
  lemma {:induction false} RemoveCharAppend(c: char, a: string, b: string)
    ensures RemoveChar(c, a + b) == RemoveChar(c, a) + RemoveChar(c, b)
  {
    if a != [] {
      RemoveCharAppend(c, a[1..], b);
      assert (a + b)[1..] == a[1..] + b;
    } else {
      assert a + b == b;
    }
  }

  /** A string without `c` is left as it is. */
  lemma {:induction false} RemoveCharAbsent(c: char, s: string)
    requires c !in s
    ensures RemoveChar(c, s) == s
  {
    if s != [] {
      RemoveCharAbsent(c, s[1..]);
      assert s == [s[0]] + s[1..];
    }
  }
}
