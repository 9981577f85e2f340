/**
 * The string built-ins the core relies on: `indexOf` for one character,
 * `split` on a one-character separator, `startsWith` and `toLowerCase`.
 */
module JsString {

  /** Position of the first `c` in `s`, or `|s|` when `s` has none. */
  function IndexOf(s: string, c: char): (i: nat)
    ensures i <= |s|
    ensures forall j :: 0 <= j < i ==> s[j] != c
    ensures i < |s| ==> s[i] == c
    ensures i == |s| <==> c !in s
  {
    if |s| == 0 then 0
    else if s[0] == c then 0
    else 1 + IndexOf(s[1..], c)
  }

  /**
   * `s.split(sep)`: the separator-free runs of `s`, in order. There is always
   * at least one part, and more than one exactly when `sep` occurs in `s`.
   */
  function Split(s: string, sep: char): (parts: seq<string>)
    ensures |parts| >= 1
    ensures |parts| > 1 <==> sep in s
    ensures forall k :: 0 <= k < |parts| ==> sep !in parts[k]
    decreases |s|
  {
    var i := IndexOf(s, sep);
    if i == |s| then [s] else [s[..i]] + Split(s[i + 1..], sep)
  }

  /** `parts.join(sep)`, the inverse of `Split`. */
  function Join(parts: seq<string>, sep: char): string
  {
    if |parts| == 0 then ""
    else if |parts| == 1 then parts[0]
    else parts[0] + [sep] + Join(parts[1..], sep)
  }

  /** Splitting loses nothing: joining the parts back gives the original string. */
  lemma {:induction false} JoinSplit(s: string, sep: char)
    ensures Join(Split(s, sep), sep) == s
    decreases |s|
  {
    var i := IndexOf(s, sep);
    if i < |s| {
      var rest := s[i + 1..];
      var parts := Split(rest, sep);
      JoinSplit(rest, sep);
      var all := [s[..i]] + parts;
      assert Split(s, sep) == all;
      assert all[1..] == parts;
      assert Join(all, sep) == s[..i] + [sep] + Join(parts, sep);
      assert s == s[..i] + [sep] + rest;
    }
  }

  /** In `p + sep + t` with no separator in `p`, the part after the first separator is the first part of `t`. */
  lemma SplitAfterFirstSeparator(p: string, t: string, sep: char)
    requires sep !in p
    ensures |Split(p + [sep] + t, sep)| >= 2
    ensures Split(p + [sep] + t, sep)[0] == p
    ensures Split(p + [sep] + t, sep)[1] == Split(t, sep)[0]
  {
    var s := p + [sep] + t;
    IndexOfAfterPrefix(p, t, sep);
    assert s[..|p|] == p;
    assert s[|p| + 1..] == t;
  }

  /** The first separator of `p + sep + t` is the one right after `p`. */
  lemma {:induction false} IndexOfAfterPrefix(p: string, t: string, sep: char)
    requires sep !in p
    ensures IndexOf(p + [sep] + t, sep) == |p|
    decreases |p|
  {
    if |p| > 0 {
      IndexOfAfterPrefix(p[1..], t, sep);
      assert (p + [sep] + t)[1..] == p[1..] + [sep] + t;
    }
  }

  /** `s.startsWith(prefix)`. */
  predicate StartsWith(s: string, prefix: string)
  {
    |prefix| <= |s| && s[..|prefix|] == prefix
  }

  predicate IsUpperAscii(c: char)
  {
    'A' <= c <= 'Z'
  }

  /** `toLowerCase` on one character, for the ASCII letters. */
  function LowerChar(c: char): (d: char)
    ensures !IsUpperAscii(d)
    ensures !IsUpperAscii(c) ==> d == c
  {
    if IsUpperAscii(c) then (c as int + 32) as char else c
  }

  /**
   * `s.toLowerCase()` folding the ASCII letters only: same length, no ASCII
   * upper-case letter left, every other character kept in place. JavaScript
   * also lowers the non-ASCII cased letters, some of them into two code units;
   * on text with such letters the two differ.
   */
  function ToLowerCase(s: string): (r: string)
    ensures |r| == |s|
    ensures forall i :: 0 <= i < |r| ==> !IsUpperAscii(r[i])
    ensures forall i :: 0 <= i < |s| && !IsUpperAscii(s[i]) ==> r[i] == s[i]
  {
    seq(|s|, i requires 0 <= i < |s| => LowerChar(s[i]))
  }

  /** Lower-casing twice is lower-casing once, so lower-cased keys look themselves up. */
  lemma ToLowerCaseIdempotent(s: string)
    ensures ToLowerCase(ToLowerCase(s)) == ToLowerCase(s)
  {
  }

  /** Lower-casing ignores the case of ASCII letters: "Pistol", "PISTOL" and "pistol" coincide. */
  lemma ToLowerCaseFoldsCase(s: string, t: string)
    requires |s| == |t|
    requires forall i :: 0 <= i < |s| ==> LowerChar(s[i]) == LowerChar(t[i])
    ensures ToLowerCase(s) == ToLowerCase(t)
  {
  }
}
