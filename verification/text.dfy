/**
 * The JavaScript string operations the backend relies on:
 * `String.prototype.trim`, `split` on a one-character separator and
 * `startsWith`.
 */
module Text {

  /**
   * ECMAScript WhiteSpace and LineTerminator code points, the set that
   * `trim()` strips from both ends.
   */
  predicate IsJsWhitespace(c: char) {
    || c in {'\t', '\n', '\U{000B}', '\U{000C}', '\r', ' ', '\U{00A0}', '\U{1680}',
             '\U{2028}', '\U{2029}', '\U{202F}', '\U{205F}', '\U{3000}', '\U{FEFF}'}
    || ('\U{2000}' <= c <= '\U{200A}')
  }

  predicate AllWhitespace(s: string) {
    forall i :: 0 <= i < |s| ==> IsJsWhitespace(s[i])
  }

  /** Drops the longest all-whitespace prefix. */
  function TrimStart(s: string): string {
    if s != [] && IsJsWhitespace(s[0]) then TrimStart(s[1..]) else s
  }

  /** Drops the longest all-whitespace suffix. */
  function TrimEnd(s: string): string {
    if s != [] && IsJsWhitespace(s[|s| - 1]) then TrimEnd(s[..|s| - 1]) else s
  }

  /** `s.trim()` */
  function Trim(s: string): string {
    TrimEnd(TrimStart(s))
  }

  /** TrimStart keeps a suffix of `s` that starts with a non-blank, and drops only whitespace. */
  lemma {:induction false} TrimStartFacts(s: string)
    ensures var r := TrimStart(s);
            && |r| <= |s| && r == s[|s| - |r|..]
            && (r == [] || !IsJsWhitespace(r[0]))
            && AllWhitespace(s[..|s| - |r|])
  {
    if s != [] && IsJsWhitespace(s[0]) {
      TrimStartFacts(s[1..]);
      var r := TrimStart(s);
      assert s[1..][|s| - 1 - |r|..] == s[|s| - |r|..];
      assert s[..|s| - |r|] == [s[0]] + s[1..][..|s| - 1 - |r|];
    }
  }

  /** TrimEnd keeps a prefix of `s` that ends with a non-blank, and drops only whitespace. */
  lemma {:induction false} TrimEndFacts(s: string)
    ensures var r := TrimEnd(s);
            && |r| <= |s| && r == s[..|r|]
            && (r == [] || !IsJsWhitespace(r[|r| - 1]))
            && AllWhitespace(s[|r|..])
  {
    if s != [] && IsJsWhitespace(s[|s| - 1]) {
      var p := s[..|s| - 1];
      TrimEndFacts(p);
      var r := TrimEnd(s);
      assert p[..|r|] == s[..|r|];
      assert s[|r|..] == p[|r|..] + [s[|s| - 1]];
    }
  }

  /** Trimming only removes characters: every character of `s.trim()` occurs in `s`. */
  lemma TrimChars(s: string)
    ensures forall i :: 0 <= i < |Trim(s)| ==> Trim(s)[i] in s
  {
    var u := TrimStart(s);
    TrimStartFacts(s);
    TrimEndFacts(u);
    forall i | 0 <= i < |Trim(s)|
      ensures Trim(s)[i] in s
    {
      assert Trim(s)[i] == u[i];
      assert u[i] == s[|s| - |u| + i];
    }
  }

  /** A trimmed string neither starts nor ends with whitespace, so trimming again changes nothing. */
  lemma TrimIdempotent(s: string)
    ensures Trim(Trim(s)) == Trim(s)
    ensures Trim(s) == [] || (!IsJsWhitespace(Trim(s)[0]) && !IsJsWhitespace(Trim(s)[|Trim(s)| - 1]))
  {
    var u := TrimStart(s);
    var t := TrimEnd(u);
    TrimStartFacts(s);
    TrimEndFacts(u);
    TrimStartFacts(t);
    TrimEndFacts(TrimStart(t));
    assert t == u[..|t|];
    if t != [] {
      assert t[0] == u[0];
    }
  }

  /** `s.trim()` is falsy exactly when `s` holds nothing but whitespace. */
  lemma TrimEmptyIff(s: string)
    ensures Trim(s) == [] <==> AllWhitespace(s)
  {
    var u := TrimStart(s);
    TrimStartFacts(s);
    TrimEndFacts(u);
    if Trim(s) == [] {
      assert AllWhitespace(u[0..]);
      assert s == s[..|s| - |u|] + u;
      assert AllWhitespace(s);
    }
  }

  /** `s.split(sep)` for a one-character separator; `"".split(",")` is `[""]`. */
  function Split(s: string, sep: char): (parts: seq<string>)
    ensures |parts| >= 1
    ensures forall i :: 0 <= i < |parts| ==> sep !in parts[i]
  {
    if s == [] then [""]
    else
      var rest := Split(s[1..], sep);
      if s[0] == sep then [""] + rest
      else [[s[0]] + rest[0]] + rest[1..]
  }

  /** `parts.join(sep)` */
  function Join(parts: seq<string>, sep: char): string
    requires |parts| >= 1
  {
    if |parts| == 1 then parts[0] else parts[0] + [sep] + Join(parts[1..], sep)
  }

  /** Joining the pieces of a split gives back the original string. */
  lemma {:induction false} SplitThenJoin(s: string, sep: char)
    ensures Join(Split(s, sep), sep) == s
  {
    if s != [] {
      var rest := Split(s[1..], sep);
      SplitThenJoin(s[1..], sep);
      if s[0] == sep {
        assert Split(s, sep)[1..] == rest;
      } else {
        var parts := Split(s, sep);
        assert parts[1..] == rest[1..];
        if |rest| > 1 {
          assert Join(rest, sep) == rest[0] + [sep] + Join(rest[1..], sep);
        }
      }
    }
  }

  lemma {:induction false} SplitAtSeparator(p: string, sep: char, tail: string)
    requires sep !in p
    ensures Split(p + [sep] + tail, sep) == [p] + Split(tail, sep)
  {
    if p != [] {
      SplitAtSeparator(p[1..], sep, tail);
      var s := p + [sep] + tail;
      assert s[0] == p[0] && s[1..] == p[1..] + [sep] + tail;
      var rest := Split(s[1..], sep);
      assert rest[0] == p[1..] && rest[1..] == Split(tail, sep);
      assert [p[0]] + p[1..] == p;
    } else {
      assert ([sep] + tail)[1..] == tail;
    }
  }

  lemma {:induction false} SplitWithoutSeparator(p: string, sep: char)
    requires sep !in p
    ensures Split(p, sep) == [p]
  {
    if p != [] {
      SplitWithoutSeparator(p[1..], sep);
      assert [p[0]] + p[1..] == p;
    }
  }

  /** Splitting a join of separator-free pieces gives back the pieces. */
  lemma {:induction false} JoinThenSplit(parts: seq<string>, sep: char)
    requires |parts| >= 1
    requires forall i :: 0 <= i < |parts| ==> sep !in parts[i]
    ensures Split(Join(parts, sep), sep) == parts
  {
    if |parts| == 1 {
      SplitWithoutSeparator(parts[0], sep);
    } else {
      JoinThenSplit(parts[1..], sep);
      SplitAtSeparator(parts[0], sep, Join(parts[1..], sep));
    }
  }

  /** `s.startsWith(prefix)` */
  predicate StartsWith(s: string, prefix: string) {
    |prefix| <= |s| && s[..|prefix|] == prefix
  }
}
