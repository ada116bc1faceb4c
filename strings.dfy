/**
 * The few JavaScript string operations the form engine relies on:
 * `includes`, `replace` with a string pattern (first occurrence only),
 * `Array.prototype.join`, ASCII `toUpperCase`, and string ordering on Unicode
 * scalar values (which agrees with code-unit order within the Basic
 * Multilingual Plane).
 */
module Strings {
  import opened Wrappers

  /** `t` occurs in `s` starting at index `i`. */
  predicate OccursAt(s: string, t: string, i: nat) {
    i + |t| <= |s| && s[i..i + |t|] == t
  }

  /** The leftmost index at or after `from` where `t` occurs in `s`. */
  function IndexOfFrom(s: string, t: string, from: nat): (r: Option<nat>)
    ensures r.Some? ==> from <= r.value && OccursAt(s, t, r.value)
    ensures r.Some? ==> forall j: nat :: from <= j < r.value ==> !OccursAt(s, t, j)
    ensures r.None? ==> forall j: nat :: from <= j ==> !OccursAt(s, t, j)
    decreases |s| - from
  {
    if from + |t| > |s| then None
    else if s[from..from + |t|] == t then Some(from)
    else IndexOfFrom(s, t, from + 1)
  }

  /** `s.indexOf(t)` as an option. */
  function IndexOf(s: string, t: string): (r: Option<nat>)
    ensures r.Some? ==> OccursAt(s, t, r.value) && forall j: nat :: j < r.value ==> !OccursAt(s, t, j)
    ensures r.None? ==> forall j: nat :: !OccursAt(s, t, j)
  {
    IndexOfFrom(s, t, 0)
  }

  /** `s.includes(t)`. */
  function Contains(s: string, t: string): (b: bool)
    ensures b <==> exists i: nat :: OccursAt(s, t, i)
  {
    IndexOf(s, t).Some?
  }

  /** `s.replace(t, '')`: the leftmost occurrence of `t` is cut out, and nothing happens without one. */
  function RemoveFirst(s: string, t: string): (r: string)
    ensures !Contains(s, t) ==> r == s
    ensures Contains(s, t) ==> |r| == |s| - |t|
    ensures Contains(s, t) ==>
      exists i: nat :: OccursAt(s, t, i) && (forall j: nat :: j < i ==> !OccursAt(s, t, j)) &&
                       r == s[..i] + s[i + |t|..]
  {
    match IndexOf(s, t)
    case None => s
    case Some(i) => s[..i] + s[i + |t|..]
  }

  /** `parts.join(sep)`. */
  function Join(parts: seq<string>, sep: string): (r: string)
    ensures parts == [] ==> r == ""
    ensures |parts| == 1 ==> r == parts[0]
    decreases |parts|
  {
    if |parts| == 0 then ""
    else if |parts| == 1 then parts[0]
    else Join(parts[..|parts| - 1], sep) + sep + parts[|parts| - 1]
  }

  /** A join of two or more parts is the first part, the separator, and the join of the rest. */
  lemma {:induction false} JoinCons(parts: seq<string>, sep: string)
    requires |parts| >= 2
    ensures Join(parts, sep) == parts[0] + sep + Join(parts[1..], sep)
    decreases |parts|
  {
    var n := |parts|;
    if n == 2 {
      assert parts[..1] == [parts[0]];
      assert parts[1..] == [parts[1]];
    } else {
      var init := parts[..n - 1];
      JoinCons(init, sep);
      assert init[1..] == parts[1..][..n - 2];
      assert parts[1..][n - 2] == parts[n - 1];
      assert init[0] == parts[0];
    }
  }

  /** Every part occurs in the joined text: a message pushed for the dialog is shown in it. */
  lemma {:induction false} JoinContainsPart(parts: seq<string>, sep: string, k: nat)
    requires k < |parts|
    ensures Contains(Join(parts, sep), parts[k])
  {
    var text := Join(parts, sep);
    if |parts| == 1 {
      assert OccursAt(text, parts[k], 0);
    } else if k == |parts| - 1 {
      var i := |text| - |parts[k]|;
      assert text == (Join(parts[..k], sep) + sep) + parts[k];
      assert text[i..i + |parts[k]|] == parts[k];
      assert OccursAt(text, parts[k], i);
    } else {
      var init := parts[..|parts| - 1];
      assert init[k] == parts[k];
      JoinContainsPart(init, sep, k);
      var i: nat :| OccursAt(Join(init, sep), parts[k], i);
      var prefix := Join(init, sep);
      assert text == prefix + (sep + parts[|parts| - 1]);
      assert text[i..i + |parts[k]|] == prefix[i..i + |parts[k]|];
      assert OccursAt(text, parts[k], i);
    }
  }

  /** ASCII upper-casing of one character; other characters are left alone. */
  function UpperChar(c: char): char {
    if 'a' <= c <= 'z' then (c as int - 32) as char else c
  }

  /** `c` is a lower-case ASCII letter and `d` the same letter in upper case. */
  predicate UpperOf(c: char, d: char) {
    'a' <= c <= 'z' && d as int == c as int - 32
  }

  /** Two strings that differ at most in the case of their ASCII letters. */
  predicate SameUpToCase(a: string, b: string) {
    |a| == |b| && forall i :: 0 <= i < |a| ==> a[i] == b[i] || UpperOf(a[i], b[i]) || UpperOf(b[i], a[i])
  }

  /** Two characters upper-case alike iff they are equal up to ASCII letter case. */
  lemma {:induction false} UpperCharCaseless(c: char, d: char)
    ensures UpperChar(c) == UpperChar(d) <==> c == d || UpperOf(c, d) || UpperOf(d, c)
  {
  }

  /** Upper-casing makes two strings equal iff they differ at most in the case of ASCII letters. */
  lemma {:induction false} ToUpperCaseless(a: string, b: string)
    ensures ToUpper(a) == ToUpper(b) <==> SameUpToCase(a, b)
  {
    if ToUpper(a) == ToUpper(b) {
      forall i | 0 <= i < |a| ensures a[i] == b[i] || UpperOf(a[i], b[i]) || UpperOf(b[i], a[i]) {
        assert ToUpper(a)[i] == ToUpper(b)[i];
        UpperCharCaseless(a[i], b[i]);
      }
    }
    if SameUpToCase(a, b) {
      forall i | 0 <= i < |a| ensures ToUpper(a)[i] == ToUpper(b)[i] {
        UpperCharCaseless(a[i], b[i]);
      }
    }
  }

  /** `s.toUpperCase()` restricted to ASCII letters. */
  function ToUpper(s: string): (r: string)
    ensures |r| == |s|
    ensures forall i :: 0 <= i < |s| ==> r[i] == UpperChar(s[i])
  {
    seq(|s|, i requires 0 <= i < |s| => UpperChar(s[i]))
  }

  /**
   * Lexicographic order on Unicode scalar values. It agrees with JavaScript's
   * `<` on strings (UTF-16 code-unit order) for strings within the Basic
   * Multilingual Plane.
   */
  predicate Below(a: string, b: string) {
    if a == [] then true
    else if b == [] then false
    else a[0] < b[0] || (a[0] == b[0] && Below(a[1..], b[1..]))
  }

  lemma {:induction false} BelowTotal(a: string, b: string)
    ensures Below(a, b) || Below(b, a)
  {
    if a != [] && b != [] && a[0] == b[0] {
      BelowTotal(a[1..], b[1..]);
    }
  }

  lemma {:induction false} BelowAntisymmetric(a: string, b: string)
    requires Below(a, b) && Below(b, a)
    ensures a == b
  {
    if a != [] && b != [] {
      BelowAntisymmetric(a[1..], b[1..]);
      assert a == [a[0]] + a[1..] && b == [b[0]] + b[1..];
    }
  }

  lemma {:induction false} BelowTransitive(a: string, b: string, c: string)
    requires Below(a, b) && Below(b, c)
    ensures Below(a, c)
  {
    if a != [] && b != [] && c != [] && a[0] == b[0] && b[0] == c[0] {
      BelowTransitive(a[1..], b[1..], c[1..]);
    }
  }
}
