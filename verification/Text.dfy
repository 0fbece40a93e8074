/**
 The string operations of Go's standard library that the repository relies on:
 trimming of white space, upper-casing, and splitting and joining on a separator.
 */
module Text {

  /** The Unicode White_Space property, which `strings.TrimSpace` trims. */
  predicate IsSpace(c: char) {
    || '\t' <= c <= '\r'
    || c == ' ' || c == '\U{85}' || c == '\U{A0}' || c == '\U{1680}'
    || '\U{2000}' <= c <= '\U{200A}'
    || c == '\U{2028}' || c == '\U{2029}' || c == '\U{202F}' || c == '\U{205F}' || c == '\U{3000}'
  }

  predicate AllSpace(s: string) {
    forall i :: 0 <= i < |s| ==> IsSpace(s[i])
  }

  function TrimLeft(s: string): string {
    if s != "" && IsSpace(s[0]) then TrimLeft(s[1..]) else s
  }

  function TrimRight(s: string): string {
    if s != "" && IsSpace(s[|s| - 1]) then TrimRight(s[..|s| - 1]) else s
  }

  function TrimSpace(s: string): string {
    TrimRight(TrimLeft(s))
  }

  predicate Blank(s: string) {
    TrimSpace(s) == ""
  }

  /** `TrimLeft` cuts off white space and leaves nothing that starts with white space. */
  lemma TrimLeftParts(s: string) returns (a: string)
    ensures s == a + TrimLeft(s) && AllSpace(a)
    ensures TrimLeft(s) != "" ==> !IsSpace(TrimLeft(s)[0])
  {
    if s != "" && IsSpace(s[0]) {
      var a' := TrimLeftParts(s[1..]);
      a := [s[0]] + a';
    } else {
      a := "";
    }
  }

  lemma TrimRightParts(s: string) returns (b: string)
    ensures s == TrimRight(s) + b && AllSpace(b)
    ensures var r := TrimRight(s); r != "" ==> !IsSpace(r[|r| - 1])
  {
    if s != "" && IsSpace(s[|s| - 1]) {
      var b' := TrimRightParts(s[..|s| - 1]);
      b := b' + [s[|s| - 1]];
    } else {
      b := "";
    }
  }

  lemma TrimLeftSkips(a: string, t: string)
    requires AllSpace(a)
    ensures TrimLeft(a + t) == TrimLeft(t)
  {
    if a == "" {
      assert a + t == t;
    } else {
      assert (a + t)[1..] == a[1..] + t;
      TrimLeftSkips(a[1..], t);
    }
  }

  lemma TrimRightSkips(t: string, b: string)
    requires AllSpace(b)
    ensures TrimRight(t + b) == TrimRight(t)
    decreases |b|
  {
    if b == "" {
      assert t + b == t;
    } else {
      var b' := b[..|b| - 1];
      assert (t + b)[..|t + b| - 1] == t + b';
      TrimRightSkips(t, b');
    }
  }

  /** If `s` is a core without outer space between two stretches of space, the core is its trim. */
  lemma TrimUnique(a: string, r: string, b: string)
    requires AllSpace(a) && AllSpace(b)
    requires r != "" ==> !IsSpace(r[0]) && !IsSpace(r[|r| - 1])
    ensures TrimSpace(a + r + b) == r
  {
    assert a + r + b == a + (r + b);
    TrimLeftSkips(a, r + b);
    if r == "" {
      TrimLeftSkips(b, "");
      assert r + b == b == b + "";
    } else {
      TrimRightSkips(r, b);
    }
  }

  /** What `TrimSpace` returns is a middle part of its argument, bounded by white space. */
  lemma TrimParts(s: string) returns (a: string, b: string)
    ensures s == a + TrimSpace(s) + b && AllSpace(a) && AllSpace(b)
    ensures var r := TrimSpace(s); r != "" ==> !IsSpace(r[0]) && !IsSpace(r[|r| - 1])
  {
    a := TrimLeftParts(s);
    b := TrimRightParts(TrimLeft(s));
    assert a + TrimSpace(s) + b == a + (TrimSpace(s) + b);
  }

  lemma TrimIdempotent(s: string)
    ensures TrimSpace(TrimSpace(s)) == TrimSpace(s)
  {
    var a, b := TrimParts(s);
    TrimUnique("", TrimSpace(s), "");
    assert "" + TrimSpace(s) + "" == TrimSpace(s);
  }

  lemma BlankIffAllSpace(s: string)
    ensures Blank(s) <==> AllSpace(s)
  {
    var a, b := TrimParts(s);
    if AllSpace(s) {
      TrimUnique(s, "", "");
      assert s + "" + "" == s;
    }
    if Blank(s) {
      assert s == a + b;
    }
  }

  lemma TrimLeftExtends(s: string, t: string)
    requires !AllSpace(s)
    ensures TrimLeft(s + t) == TrimLeft(s) + t
  {
    if IsSpace(s[0]) {
      assert (s + t)[1..] == s[1..] + t;
      TrimLeftExtends(s[1..], t);
    }
  }

  lemma TrimRightExtends(t: string, s: string)
    requires !AllSpace(s)
    ensures TrimRight(t + s) == t + TrimRight(s)
    decreases |s|
  {
    if IsSpace(s[|s| - 1]) {
      assert (t + s)[..|t + s| - 1] == t + s[..|s| - 1];
      TrimRightExtends(t, s[..|s| - 1]);
    } else {
      assert (t + s)[|t + s| - 1] == s[|s| - 1];
    }
  }

  /** Trimming only one side first makes no difference to the trim of both sides. */
  lemma TrimAfterTrimLeft(s: string)
    ensures TrimSpace(TrimLeft(s)) == TrimSpace(s)
  {
    var a := TrimLeftParts(s);
  }

  lemma TrimAfterTrimRight(s: string)
    ensures TrimSpace(TrimRight(s)) == TrimSpace(s)
  {
    var v := TrimRight(s);
    var w := TrimRightParts(s);
    if AllSpace(v) {
      assert AllSpace(s);
      BlankIffAllSpace(v);
      BlankIffAllSpace(s);
    } else {
      TrimLeftExtends(v, w);
      TrimRightSkips(TrimLeft(v), w);
    }
  }

  /**
   Upper-casing of one character, exact for ASCII and for the two other characters whose
   upper case is ASCII (dotless i and long s). Every other character stays outside ASCII in
   Go as it does here, so comparisons with ASCII words come out the same.
   */
  function UpperChar(c: char): char {
    if 'a' <= c <= 'z' then c - 'a' + 'A'
    else if c == '\U{131}' then 'I'
    else if c == '\U{17F}' then 'S'
    else c
  }

  function ToUpper(s: string): (r: string)
    ensures |r| == |s| && forall i :: 0 <= i < |s| ==> r[i] == UpperChar(s[i])
  {
    seq(|s|, i requires 0 <= i < |s| => UpperChar(s[i]))
  }

  /** The characters whose upper case is this letter. */
  predicate SameLetter(c: char, letter: char) {
    || c == letter
    || ('A' <= letter <= 'Z' && c == letter - 'A' + 'a')
    || (letter == 'I' && c == '\U{131}') || (letter == 'S' && c == '\U{17F}')
  }

  /** A text starts with a word of capital letters, in any mixture of cases. */
  predicate StartsFold(s: string, word: string) {
    |word| <= |s| && forall i :: 0 <= i < |word| ==> SameLetter(s[i], word[i])
  }

  lemma PrefixFolds(s: string, word: string)
    requires forall i :: 0 <= i < |word| ==> 'A' <= word[i] <= 'Z'
    ensures HasPrefix(ToUpper(s), word) <==> StartsFold(s, word)
  {
    var upper := ToUpper(s);
    if HasPrefix(upper, word) {
      forall i | 0 <= i < |word| ensures SameLetter(s[i], word[i]) {
        assert upper[i] == word[i] == UpperChar(s[i]);
      }
    }
    if StartsFold(s, word) {
      forall i | 0 <= i < |word| ensures upper[i] == word[i] {
        assert SameLetter(s[i], word[i]) && upper[i] == UpperChar(s[i]);
      }
      assert upper[..|word|] == word;
    }
  }

  predicate HasPrefix(s: string, prefix: string) {
    prefix <= s
  }

  predicate HasSuffix(s: string, suffix: string) {
    |suffix| <= |s| && s[|s| - |suffix|..] == suffix
  }

  /** Does `pattern` occur in `s`? */
  predicate Contains(s: string, pattern: string) {
    HasPrefix(s, pattern) || (s != "" && Contains(s[1..], pattern))
  }

  lemma {:induction false} ContainsMeansOccurs(s: string, pattern: string)
    ensures Contains(s, pattern) <==> exists i :: 0 <= i <= |s| && pattern <= s[i..]
  {
    assert s[0..] == s;
    if s != "" {
      ContainsMeansOccurs(s[1..], pattern);
      assert forall i :: 0 < i <= |s| ==> s[i..] == s[1..][i - 1..];
      if i :| 0 <= i <= |s| && pattern <= s[i..] {
        if i > 0 { assert pattern <= s[1..][i - 1..]; }
      }
      if Contains(s[1..], pattern) {
        var j :| 0 <= j <= |s[1..]| && pattern <= s[1..][j..];
        assert pattern <= s[j + 1..];
      }
    }
  }

  /** `strings.Split` with a one-character separator. */
  function Split(s: string, sep: char): (parts: seq<string>)
    ensures parts != []
    ensures forall p :: p in parts ==> sep !in p
  {
    if s == "" then [""]
    else
      var rest := Split(s[1..], sep);
      if s[0] == sep then [""] + rest else [[s[0]] + rest[0]] + rest[1..]
  }

  function Occurrences(s: string, ch: char): nat {
    if s == "" then 0 else Occurrences(s[1..], ch) + if s[0] == ch then 1 else 0
  }

  lemma {:induction false} SplitCounts(s: string, sep: char)
    ensures |Split(s, sep)| == Occurrences(s, sep) + 1
  {
    if s != "" {
      SplitCounts(s[1..], sep);
    }
  }

  /** `strings.Join`. */
  function Join(parts: seq<string>, sep: string): string {
    if parts == [] then ""
    else if |parts| == 1 then parts[0]
    else parts[0] + sep + Join(parts[1..], sep)
  }

  lemma {:induction false} SplitOne(p: string, sep: char)
    requires sep !in p
    ensures Split(p, sep) == [p]
  {
    if p != "" {
      assert p[0] != sep;
      SplitOne(p[1..], sep);
      assert [p[0]] + p[1..] == p;
    }
  }

  lemma {:induction false} SplitCons(p: string, sep: char, rest: string)
    requires sep !in p
    ensures Split(p + [sep] + rest, sep) == [p] + Split(rest, sep)
  {
    var s := p + [sep] + rest;
    if p == "" {
      assert s[1..] == rest;
    } else {
      assert s[1..] == p[1..] + [sep] + rest;
      assert s[0] == p[0] != sep;
      SplitCons(p[1..], sep, rest);
      assert [p[0]] + p[1..] == p;
    }
  }

  /** Joining parts that do not contain the separator and splitting again gives the parts back. */
  lemma {:induction false} SplitJoin(parts: seq<string>, sep: char)
    requires parts != []
    requires forall p :: p in parts ==> sep !in p
    ensures Split(Join(parts, [sep]), sep) == parts
  {
    assert parts[0] in parts;
    if |parts| == 1 {
      SplitOne(parts[0], sep);
    } else {
      var first, rest := parts[0], parts[1..];
      assert forall p :: p in rest ==> p in parts;
      SplitJoin(rest, sep);
      SplitCons(first, sep, Join(rest, [sep]));
      assert parts == [first] + rest;
    }
  }

  lemma {:induction false} JoinAppend(a: seq<string>, b: seq<string>, sep: string)
    requires a != [] && b != []
    ensures Join(a + b, sep) == Join(a, sep) + sep + Join(b, sep)
  {
    if |a| == 1 {
      assert (a + b)[1..] == b;
    } else {
      assert (a + b)[1..] == a[1..] + b;
      JoinAppend(a[1..], b, sep);
      assert a[0] + sep + (Join(a[1..], sep) + sep + Join(b, sep))
          == (a[0] + sep + Join(a[1..], sep)) + sep + Join(b, sep);
    }
  }
}
