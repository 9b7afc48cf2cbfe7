/**
 * The Ruby String and Array operations the tool relies on (`strip`, `split`,
 * `include?`, `tr`, `gsub` with a one-character pattern, `reverse`,
 * `File.basename`), written on `seq<char>`.
 */
module Text {

  /** Ruby's whitespace for `String#strip`: NUL, tab, line feed, vertical tab,
      form feed, carriage return and space. */
  predicate IsSpace(c: char) {
    c == ' ' || c == '\t' || c == '\n' || c == '\r' || c == '\U{0B}' || c == '\U{0C}' || c == '\0'
  }

  predicate AllSpace(s: string) {
    forall i :: 0 <= i < |s| ==> IsSpace(s[i])
  }

  /** Number of whitespace characters at the front of `s`. */
  function LeadingSpaces(s: string): (n: nat)
    ensures n <= |s|
    ensures forall i :: 0 <= i < n ==> IsSpace(s[i])
    ensures n < |s| ==> !IsSpace(s[n])
  {
    if s == [] || !IsSpace(s[0]) then 0 else 1 + LeadingSpaces(s[1..])
  }

  /** Number of whitespace characters at the end of `s`. */
  function TrailingSpaces(s: string): (n: nat)
    ensures n <= |s|
    ensures forall i :: |s| - n <= i < |s| ==> IsSpace(s[i])
    ensures n < |s| ==> !IsSpace(s[|s| - 1 - n])
  {
    if s == [] || !IsSpace(s[|s| - 1]) then 0 else 1 + TrailingSpaces(s[..|s| - 1])
  }

  /** `String#strip`: `s` without its leading and trailing whitespace. */
  function Strip(s: string): (r: string)
    ensures |r| <= |s|
    ensures r == [] <==> AllSpace(s)
    ensures r != [] ==> !IsSpace(r[0]) && !IsSpace(r[|r| - 1])
  {
    var a := LeadingSpaces(s);
    var b := TrailingSpaces(s[a..]);
    s[a..|s| - b]
  }

  /** Whitespace around a word is exactly what `Strip` removes. */
  lemma StripSurrounded(p: string, m: string, q: string)
    requires AllSpace(p) && AllSpace(q)
    requires m != [] && !IsSpace(m[0]) && !IsSpace(m[|m| - 1])
    ensures Strip(p + m + q) == m
  {
    var s := p + m + q;
    LeadingSpacesOf(p, m + q);
    assert s == p + (m + q);
    assert s[|p|..] == m + q;
    TrailingSpacesOf(m, q);
  }

  lemma {:induction false} LeadingSpacesOf(p: string, t: string)
    requires AllSpace(p) && t != [] && !IsSpace(t[0])
    ensures LeadingSpaces(p + t) == |p|
  {
    if p != [] {
      assert (p + t)[1..] == p[1..] + t;
      LeadingSpacesOf(p[1..], t);
    } else {
      assert p + t == t;
    }
  }

  lemma {:induction false} TrailingSpacesOf(t: string, q: string)
    requires AllSpace(q) && t != [] && !IsSpace(t[|t| - 1])
    ensures TrailingSpaces(t + q) == |q|
  {
    if q != [] {
      assert (t + q)[..|t + q| - 1] == t + q[..|q| - 1];
      TrailingSpacesOf(t, q[..|q| - 1]);
    } else {
      assert t + q == t;
    }
  }

  /** Splitting at every `sep`, keeping empty fields (Ruby's `split` with a
      limit of -1). */
  function SplitAll(s: string, sep: char): (fields: seq<string>)
    ensures |fields| >= 1
    ensures forall i :: 0 <= i < |fields| ==> sep !in fields[i]
  {
    if s == [] then [[]]
    else
      var rest := SplitAll(s[1..], sep);
      if s[0] == sep then [[]] + rest else [[s[0]] + rest[0]] + rest[1..]
  }

  /** `Array#join(sep)` on one-character separators. */
  function Join(fields: seq<string>, sep: char): string
    requires |fields| >= 1
  {
    if |fields| == 1 then fields[0] else fields[0] + [sep] + Join(fields[1..], sep)
  }

  /** Splitting loses nothing: joining the fields back gives the input. */
  lemma {:induction false} SplitJoin(s: string, sep: char)
    ensures Join(SplitAll(s, sep), sep) == s
  {
    if s != [] {
      var rest := SplitAll(s[1..], sep);
      SplitJoin(s[1..], sep);
      if s[0] == sep {
        assert SplitAll(s, sep)[1..] == rest;
        assert s == [sep] + s[1..];
      } else {
        var fs := SplitAll(s, sep);
        if |rest| > 1 {
          assert fs[1..] == rest[1..];
        }
        assert s == [s[0]] + s[1..];
      }
    }
  }

  /** A string without the separator is a single field. */
  lemma {:induction false} SplitWithoutSeparator(s: string, sep: char)
    requires sep !in s
    ensures SplitAll(s, sep) == [s]
  {
    if s != [] {
      SplitWithoutSeparator(s[1..], sep);
      assert [s[0]] + s[1..] == s;
    }
  }

  /** Ruby's `String#split(sep)`: like `SplitAll`, then empty fields at the end
      are dropped (so `"".split("\n") == []`). */
  function Split(s: string, sep: char): seq<string> {
    DropTrailingEmpty(SplitAll(s, sep))
  }

  function DropTrailingEmpty(fields: seq<string>): (r: seq<string>)
    ensures |r| <= |fields| && r == fields[..|r|]
    ensures r == [] || r[|r| - 1] != []
    ensures forall i :: |r| <= i < |fields| ==> fields[i] == []
  {
    if fields == [] || fields[|fields| - 1] != [] then fields
    else DropTrailingEmpty(fields[..|fields| - 1])
  }

  /** `reject(&:empty?)`. */
  function NonEmpty(xs: seq<string>): (r: seq<string>)
    ensures forall i :: 0 <= i < |r| ==> r[i] != [] && r[i] in xs
  {
    if xs == [] then []
    else if xs[0] == [] then NonEmpty(xs[1..])
    else [xs[0]] + NonEmpty(xs[1..])
  }

  /** Empty fields at the end make no difference once empty fields are
      rejected, so Ruby's `split` and `SplitAll` agree after `reject(&:empty?)`. */
  lemma {:induction false} NonEmptyIgnoresTrailingEmpty(xs: seq<string>, n: nat)
    requires n <= |xs|
    requires forall i :: n <= i < |xs| ==> xs[i] == []
    ensures NonEmpty(xs[..n]) == NonEmpty(xs)
  {
    if xs != [] {
      if n == 0 {
        NonEmptyOfEmpties(xs);
      } else {
        assert xs[..n][1..] == xs[1..][..n - 1];
        NonEmptyIgnoresTrailingEmpty(xs[1..], n - 1);
      }
    }
  }

  lemma {:induction false} NonEmptyOfEmpties(xs: seq<string>)
    requires forall i :: 0 <= i < |xs| ==> xs[i] == []
    ensures NonEmpty(xs) == []
  {
    if xs != [] {
      NonEmptyOfEmpties(xs[1..]);
    }
  }

  lemma SplitThenReject(s: string, sep: char)
    ensures NonEmpty(Split(s, sep)) == NonEmpty(SplitAll(s, sep))
  {
    var fs := SplitAll(s, sep);
    NonEmptyIgnoresTrailingEmpty(fs, |DropTrailingEmpty(fs)|);
  }

  /** `sub` occurs in `s` starting at index `i`. */
  predicate OccursAt(s: string, sub: string, i: int) {
    0 <= i <= |s| - |sub| && s[i..i + |sub|] == sub
  }

  /** `String#include?(sub)`. */
  predicate Contains(s: string, sub: string) {
    exists i | 0 <= i <= |s| - |sub| :: OccursAt(s, sub, i)
  }

  /** `String#tr(from, to)` with one-character arguments. */
  function Tr(s: string, from: char, to: char): (r: string)
    ensures |r| == |s|
    ensures forall i :: 0 <= i < |s| ==> r[i] == (if s[i] == from then to else s[i])
  {
    seq(|s|, i requires 0 <= i < |s| => if s[i] == from then to else s[i])
  }

  /** `tr` works character by character, so it distributes over concatenation. */
  lemma TrAppend(x: string, y: string, from: char, to: char)
    ensures Tr(x + y, from, to) == Tr(x, from, to) + Tr(y, from, to)
  {
    assert forall i :: 0 <= i < |y| ==> (x + y)[|x| + i] == y[i];
  }

  /** `tr` leaves a string without the replaced character as it is. */
  lemma TrAbsent(s: string, from: char, to: char)
    requires from !in s
    ensures Tr(s, from, to) == s
  {
  }

  /** Number of occurrences of `c` in `s`. */
  function Count(s: string, c: char): nat {
    if s == [] then 0 else (if s[0] == c then 1 else 0) + Count(s[1..], c)
  }

  lemma {:induction false} CountZero(s: string, c: char)
    ensures Count(s, c) == 0 <==> c !in s
  {
    if s != [] {
      CountZero(s[1..], c);
      assert c in s <==> s[0] == c || c in s[1..];
    }
  }

  /** `String#gsub(c, rep)` with a one-character pattern and a replacement
      that holds no back-reference. Ruby reads `\&`, `\0`-`\9`, the
      pre-match `` \` ``, the post-match `\'` and `\\` in a String
      replacement; any other backslash pair, such as `\n`, stays as it is. */
  function Gsub(s: string, c: char, rep: string): string {
    if s == [] then []
    else (if s[0] == c then rep else [s[0]]) + Gsub(s[1..], c, rep)
  }

  /** Each occurrence of `c` is traded for `rep`; nothing else changes length. */
  lemma {:induction false} GsubLength(s: string, c: char, rep: string)
    ensures |Gsub(s, c, rep)| == |s| + Count(s, c) * |rep| - Count(s, c)
  {
    if s != [] {
      GsubLength(s[1..], c, rep);
      var n := Count(s[1..], c);
      if s[0] == c {
        assert Count(s, c) == n + 1;
        assert (n + 1) * |rep| == n * |rep| + |rep|;
      } else {
        assert Count(s, c) == n;
      }
    }
  }

  /** After `gsub`, the pattern only survives where `rep` brings it back. */
  lemma {:induction false} GsubCount(s: string, c: char, rep: string, d: char)
    ensures Count(Gsub(s, c, rep), d) ==
            (if d == c then 0 else Count(s, d)) + Count(s, c) * Count(rep, d)
  {
    if s != [] {
      var head := if s[0] == c then rep else [s[0]];
      GsubCount(s[1..], c, rep, d);
      CountAppend(head, Gsub(s[1..], c, rep), d);
      var n := Count(s[1..], c);
      if s[0] == c {
        assert Count(s, c) == n + 1;
        assert (n + 1) * Count(rep, d) == n * Count(rep, d) + Count(rep, d);
      } else {
        assert Count(s, c) == n;
        assert Count(head, d) == (if s[0] == d then 1 else 0) by {
          assert head[1..] == [];
        }
      }
    }
  }

  lemma {:induction false} CountAppend(a: string, b: string, d: char)
    ensures Count(a + b, d) == Count(a, d) + Count(b, d)
  {
    if a != [] {
      assert (a + b)[1..] == a[1..] + b;
      CountAppend(a[1..], b, d);
    } else {
      assert a + b == b;
    }
  }

  /** A string without the pattern comes out of `gsub` unchanged. */
  lemma {:induction false} GsubAbsent(s: string, c: char, rep: string)
    requires c !in s
    ensures Gsub(s, c, rep) == s
  {
    if s != [] {
      GsubAbsent(s[1..], c, rep);
      assert [s[0]] + s[1..] == s;
    }
  }

  lemma {:induction false} GsubAppend(a: string, b: string, c: char, rep: string)
    ensures Gsub(a + b, c, rep) == Gsub(a, c, rep) + Gsub(b, c, rep)
  {
    if a != [] {
      assert (a + b)[1..] == a[1..] + b;
      GsubAppend(a[1..], b, c, rep);
    } else {
      assert a + b == b;
    }
  }

  /** `String#gsub(c, open + "\\'" + close)`: Ruby reads `\\'` in the
      replacement as the post-match, so each `c` becomes `open`, then all of
      the text after it, then `close`. */
  function GsubPostMatch(s: string, c: char, open: string, close: string): string {
    if s == [] then []
    else (if s[0] == c then open + s[1..] + close else [s[0]]) + GsubPostMatch(s[1..], c, open, close)
  }

  /** The total length of the text after each occurrence of `c`. */
  function After(s: string, c: char): nat {
    if s == [] then 0 else (if s[0] == c then |s| - 1 else 0) + After(s[1..], c)
  }

  /** Each occurrence of `c` is traded for `open` and `close` around all of
      the text after it. */
  lemma {:induction false} GsubPostMatchLength(s: string, c: char, open: string, close: string)
    ensures |GsubPostMatch(s, c, open, close)| == |s| + Count(s, c) * (|open| + |close| - 1) + After(s, c)
  {
    if s != [] {
      GsubPostMatchLength(s[1..], c, open, close);
      var n := Count(s[1..], c);
      if s[0] == c {
        assert Count(s, c) == n + 1;
        assert (n + 1) * (|open| + |close| - 1) == n * (|open| + |close| - 1) + |open| + |close| - 1;
      } else {
        assert Count(s, c) == n;
      }
    }
  }

  /** A string without the pattern comes out unchanged. */
  lemma {:induction false} GsubPostMatchAbsent(s: string, c: char, open: string, close: string)
    requires c !in s
    ensures GsubPostMatch(s, c, open, close) == s
  {
    if s != [] {
      GsubPostMatchAbsent(s[1..], c, open, close);
      assert [s[0]] + s[1..] == s;
    }
  }

  /** `Array#reverse`. */
  function Reverse<T>(xs: seq<T>): (r: seq<T>)
    ensures |r| == |xs|
    ensures forall i :: 0 <= i < |xs| ==> r[i] == xs[|xs| - 1 - i]
  {
    seq(|xs|, i requires 0 <= i < |xs| => xs[|xs| - 1 - i])
  }

  /** The part of `p` after its last `/` (all of `p` when it has none). */
  function AfterLastSlash(p: string): (r: string)
    ensures '/' !in r
    ensures |r| <= |p| && r == p[|p| - |r|..]
    ensures |r| < |p| ==> p[|p| - |r| - 1] == '/'
  {
    if p == [] then []
    else if p[|p| - 1] == '/' then []
    else AfterLastSlash(p[..|p| - 1]) + [p[|p| - 1]]
  }

  /** `p` without the slashes at its end. */
  function DropTrailingSlashes(p: string): (r: string)
    ensures |r| <= |p| && r == p[..|r|]
    ensures r == [] || r[|r| - 1] != '/'
    ensures forall i :: |r| <= i < |p| ==> p[i] == '/'
  {
    if p == [] || p[|p| - 1] != '/' then p else DropTrailingSlashes(p[..|p| - 1])
  }

  predicate EndsWith(s: string, suffix: string) {
    |suffix| <= |s| && s[|s| - |suffix|..] == suffix
  }

  /** `File.basename(p, ext)` on POSIX paths: the last path component, without
      `ext` when it ends with `ext` and is longer than it. */
  function Basename(p: string, ext: string): (r: string)
  {
    var q := DropTrailingSlashes(p);
    if q == [] then (if p == [] then [] else "/")
    else
      var base := AfterLastSlash(q);
      if |ext| < |base| && EndsWith(base, ext) then base[..|base| - |ext|] else base
  }

  /** The name of a file in a directory comes back from `Basename` without
      its directory and without the extension. */
  lemma BasenameOfFile(dir: string, name: string, ext: string)
    requires '/' !in name && '/' !in ext && name != []
    ensures Basename(dir + "/" + name + ext, ext) == name
  {
    var p := dir + "/" + name + ext;
    var base := name + ext;
    assert p == (dir + "/") + base;
    assert p[|p| - 1] == base[|base| - 1];
    assert '/' !in base;
    assert DropTrailingSlashes(p) == p;
    AfterLastSlashOf(dir + "/", base);
    assert EndsWith(base, ext) by {
      assert base[|base| - |ext|..] == ext;
    }
    assert base[..|base| - |ext|] == name;
  }

  lemma {:induction false} AfterLastSlashOf(a: string, b: string)
    requires a != [] && a[|a| - 1] == '/' && '/' !in b
    ensures AfterLastSlash(a + b) == b
  {
    if b == [] {
      assert a + b == a;
    } else {
      var s := a + b;
      assert s[..|s| - 1] == a + b[..|b| - 1];
      AfterLastSlashOf(a, b[..|b| - 1]);
      assert b[..|b| - 1] + [b[|b| - 1]] == b;
    }
  }

  /** A first field without the separator splits off on its own. */
  lemma {:induction false} SplitAllField(a: string, sep: char, rest: string)
    requires sep !in a
    ensures SplitAll(a + [sep] + rest, sep) == [a] + SplitAll(rest, sep)
  {
    if a == [] {
      assert a + [sep] + rest == [sep] + rest;
      assert ([sep] + rest)[1..] == rest;
    } else {
      var s := a + [sep] + rest;
      assert s[1..] == a[1..] + [sep] + rest;
      SplitAllField(a[1..], sep, rest);
      assert [a[0]] + a[1..] == a;
    }
  }

  /** `reject(&:empty?)` keeps every non-empty element. */
  lemma {:induction false} NonEmptyKeeps(xs: seq<string>, x: string)
    requires x in xs && x != []
    ensures x in NonEmpty(xs)
  {
    if xs[0] != x {
      NonEmptyKeeps(xs[1..], x);
    }
  }

  /** The reversal holds the same elements. */
  lemma ReversedHas<T>(xs: seq<T>, x: T)
    requires x in Reverse(xs)
    ensures x in xs
  {
    var i :| 0 <= i < |xs| && Reverse(xs)[i] == x;
    assert xs[|xs| - 1 - i] == x;
  }

  lemma HasReversed<T>(xs: seq<T>, x: T)
    requires x in xs
    ensures x in Reverse(xs)
  {
    var j :| 0 <= j < |xs| && xs[j] == x;
    assert Reverse(xs)[|xs| - 1 - j] == x;
  }

  /** `reject(&:empty?)` keeps the order of its input: it distributes over
      concatenation. */
  lemma {:induction false} NonEmptyKeepsOrder(a: seq<string>, b: seq<string>)
    ensures NonEmpty(a + b) == NonEmpty(a) + NonEmpty(b)
  {
    if a == [] {
      assert a + b == b;
    } else {
      assert (a + b)[1..] == a[1..] + b;
      NonEmptyKeepsOrder(a[1..], b);
    }
  }
}
