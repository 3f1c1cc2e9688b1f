/**
 * The few pieces of JavaScript string semantics the handlers rely on:
 * truthiness of an optional string, `split` on one character, `includes`,
 * `endsWith`, `replace` with a string pattern (first occurrence only) and an
 * ASCII `toLowerCase`.
 */
module JsString {
  import opened Wrappers

  /** `!!v` for a value that is a string or missing: `undefined`, `null` and `""` are falsy. */
  predicate Truthy(v: Option<string>) {
    v.Some? && v.value != ""
  }

  predicate IsPrefix(p: string, s: string) {
    |p| <= |s| && s[..|p|] == p
  }

  /** `s.includes(sub)` */
  predicate Includes(s: string, sub: string)
    decreases |s|
  {
    IsPrefix(sub, s) || (s != [] && Includes(s[1..], sub))
  }

  /** `s.endsWith(suffix)` */
  predicate EndsWith(s: string, suffix: string) {
    |suffix| <= |s| && s[|s| - |suffix|..] == suffix
  }

  /** `s.replace(pat, rep)` with a string pattern: only the first occurrence is replaced. */
  function ReplaceFirst(s: string, pat: string, rep: string): string
    decreases |s|
  {
    if IsPrefix(pat, s) then rep + s[|pat|..]
    else if s == [] then []
    else [s[0]] + ReplaceFirst(s[1..], pat, rep)
  }

  function LowerChar(c: char): char {
    if 'A' <= c <= 'Z' then (c as int + 32) as char else c
  }

  /** `s.toLowerCase()`, restricted to ASCII letters. */
  function ToLower(s: string): (r: string)
    ensures |r| == |s|
    ensures forall i :: 0 <= i < |s| ==> r[i] == LowerChar(s[i])
  {
    seq(|s|, i requires 0 <= i < |s| => LowerChar(s[i]))
  }

  /** `s.split(sep)` for a one-character separator: never empty, `"".split(" ")` is `[""]`. */
  function Split(s: string, sep: char): (parts: seq<string>)
    ensures |parts| >= 1
    decreases |s|
  {
    if s == [] then [[]]
    else
      var rest := Split(s[1..], sep);
      if s[0] == sep then [[]] + rest
      else [[s[0]] + rest[0]] + rest[1..]
  }

  /** `parts.join(sep)`, the inverse of `Split`. */
  function Join(parts: seq<string>, sep: char): string
    requires |parts| >= 1
  {
    if |parts| == 1 then parts[0] else parts[0] + [sep] + Join(parts[1..], sep)
  }

  /** Splitting and joining again gives back the string, and no part holds the separator. */
  lemma {:induction false} SplitJoin(s: string, sep: char)
    ensures Join(Split(s, sep), sep) == s
    ensures forall i :: 0 <= i < |Split(s, sep)| ==> sep !in Split(s, sep)[i]
    decreases |s|
  {
    if s != [] {
      var rest := Split(s[1..], sep);
      SplitJoin(s[1..], sep);
      if s[0] == sep {
        assert Split(s, sep) == [[]] + rest;
        assert Join(Split(s, sep), sep) == [] + [sep] + Join(rest, sep);
        assert s == [s[0]] + s[1..];
      } else {
        var parts := Split(s, sep);
        assert parts == [[s[0]] + rest[0]] + rest[1..];
        if |rest| == 1 {
          assert Join(parts, sep) == [s[0]] + rest[0];
        } else {
          assert parts[1..] == rest[1..];
          assert Join(rest, sep) == rest[0] + [sep] + Join(rest[1..], sep);
          assert Join(parts, sep) == [s[0]] + rest[0] + [sep] + Join(rest[1..], sep);
        }
        assert s == [s[0]] + s[1..];
        forall i | 0 <= i < |parts| ensures sep !in parts[i] {
          if i > 0 { assert parts[i] == rest[i]; }
        }
      }
    }
  }

  /** A string without the separator is a single part. */
  lemma {:induction false} SplitWithoutSeparator(s: string, sep: char)
    requires sep !in s
    ensures Split(s, sep) == [s]
    decreases |s|
  {
    if s != [] {
      SplitWithoutSeparator(s[1..], sep);
      assert [s[0]] + s[1..] == s;
    }
  }

  /** A leading word without the separator becomes the first part; the rest is split on its own. */
  lemma {:induction false} SplitLeadingWord(w: string, sep: char, tail: string)
    requires sep !in w
    ensures Split(w + [sep] + tail, sep) == [w] + Split(tail, sep)
    decreases |w|
  {
    if w == [] {
      assert w + [sep] + tail == [sep] + tail;
      assert ([sep] + tail)[1..] == tail;
    } else {
      var s := w + [sep] + tail;
      assert s[0] == w[0] && s[1..] == w[1..] + [sep] + tail;
      SplitLeadingWord(w[1..], sep, tail);
      assert [w[0]] + w[1..] == w;
    }
  }

  /** `replace` brings in no character that is neither in the string nor in the replacement. */
  lemma {:induction false} ReplaceFirstNoNewChars(s: string, pat: string, rep: string)
    ensures forall x :: x in ReplaceFirst(s, pat, rep) ==> x in s || x in rep
    decreases |s|
  {
    if IsPrefix(pat, s) {
      assert forall x :: x in s[|pat|..] ==> x in s;
    } else if s != [] {
      ReplaceFirstNoNewChars(s[1..], pat, rep);
      assert forall x :: x in s[1..] ==> x in s;
    }
  }

  /** A pattern found only at the end is cut off: `(w + ".mjs").replace(".mjs", "")` is `w`. */
  lemma {:induction false} ReplaceFirstSuffix(w: string, pat: string)
    requires pat != [] && pat[0] !in w
    ensures ReplaceFirst(w + pat, pat, []) == w
    decreases |w|
  {
    if w == [] {
      assert w + pat == pat;
    } else {
      var s := w + pat;
      assert s[0] == w[0] && s[1..] == w[1..] + pat;
      ReplaceFirstSuffix(w[1..], pat);
      assert [w[0]] + w[1..] == w;
    }
  }

  /** Whatever comes before, a string includes its own suffix. */
  lemma {:induction false} IncludesSuffix(a: string, b: string)
    ensures Includes(a + b, b)
    decreases |a|
  {
    if a == [] {
      assert a + b == b;
      assert IsPrefix(b, b);
    } else {
      assert (a + b)[1..] == a[1..] + b;
      IncludesSuffix(a[1..], b);
    }
  }

  /** Appending text keeps every occurrence already there. */
  lemma {:induction false} IncludesExtend(a: string, sub: string, b: string)
    requires Includes(a, sub)
    ensures Includes(a + b, sub)
    decreases |a|
  {
    if IsPrefix(sub, a) {
      assert (a + b)[..|sub|] == a[..|sub|];
    } else {
      assert (a + b)[1..] == a[1..] + b;
      IncludesExtend(a[1..], sub, b);
    }
  }

  lemma {:induction false} ToLowerIdempotent(s: string)
    ensures ToLower(ToLower(s)) == ToLower(s)
  {
    assert forall i :: 0 <= i < |s| ==> LowerChar(LowerChar(s[i])) == LowerChar(s[i]);
  }
}
