/** The Python string and list operations the research pipeline relies on, each with the
    meaning CPython gives it. Strings are sequences of Unicode scalar values: the lone
    surrogate code points a Python `str` can also hold are left out. */
module PyStr {

  /** `c.isspace()`: the characters that `str.split()` and `str.strip()` treat as whitespace. */
  predicate IsSpace(c: char) {
    ('\t' <= c <= '\r') || ('\U{1C}' <= c <= ' ') || c == '\U{85}' || c == '\U{A0}'
    || c == '\U{1680}' || ('\U{2000}' <= c <= '\U{200A}') || c == '\U{2028}' || c == '\U{2029}'
    || c == '\U{202F}' || c == '\U{205F}' || c == '\U{3000}'
  }

  /** `c.lower()` on the ASCII letters; every other character is left as it is. */
  function LowerChar(c: char): char {
    if 'A' <= c <= 'Z' then (c as int + 32) as char else c
  }

  /** `s.lower()`, character by character. */
  function Lower(s: string): (t: string)
    ensures |t| == |s|
    ensures forall i :: 0 <= i < |s| ==> t[i] == if 'A' <= s[i] <= 'Z' then (s[i] as int + 32) as char else s[i]
  {
    seq(|s|, i requires 0 <= i < |s| => LowerChar(s[i]))
  }

  /** Drops the leading characters that satisfy `drop`. */
  function TrimLeftBy(s: string, drop: char -> bool): (t: string)
    ensures |t| <= |s| && t == s[|s| - |t|..]
    ensures t != [] ==> !drop(t[0])
    ensures forall i :: 0 <= i < |s| - |t| ==> drop(s[i])
    decreases |s|
  {
    if s != [] && drop(s[0]) then TrimLeftBy(s[1..], drop) else s
  }

  /** Drops the trailing characters that satisfy `drop`. */
  function TrimRightBy(s: string, drop: char -> bool): (t: string)
    ensures |t| <= |s| && t == s[..|t|]
    ensures t != [] ==> !drop(t[|t| - 1])
    ensures forall i :: |t| <= i < |s| ==> drop(s[i])
    decreases |s|
  {
    if s != [] && drop(s[|s| - 1]) then TrimRightBy(s[..|s| - 1], drop) else s
  }

  /** `t` is `s[i..i + |t|]`, and every character of `s` outside that slice satisfies `drop`. */
  ghost predicate TrimmedAt(s: string, t: string, i: int, drop: char -> bool) {
    0 <= i && i + |t| <= |s| && t == s[i..i + |t|]
    && (forall j :: 0 <= j < i ==> drop(s[j]))
    && (forall j :: i + |t| <= j < |s| ==> drop(s[j]))
  }

  /** `t` is what trimming `drop` from both ends of `s` leaves: a slice of `s` with only
      dropped characters around it, that neither starts nor ends with one. */
  ghost predicate TrimmedFrom(s: string, t: string, drop: char -> bool) {
    (t != [] ==> !drop(t[0]) && !drop(t[|t| - 1])) && exists i :: TrimmedAt(s, t, i, drop)
  }

  /** There is only one such slice. */
  lemma TrimmedUnique(s: string, u: string, v: string, drop: char -> bool)
    requires TrimmedFrom(s, u, drop) && TrimmedFrom(s, v, drop)
    ensures u == v
  {
    var i :| TrimmedAt(s, u, i, drop);
    var k :| TrimmedAt(s, v, k, drop);
    if u != [] && v != [] {
      assert u[0] == s[i] && v[0] == s[k];
      assert i == k;
      assert u[|u| - 1] == s[i + |u| - 1] && v[|v| - 1] == s[k + |v| - 1];
      assert |u| == |v|;
    }
  }

  /** Trimming both ends by `drop` leaves a slice of `s` with only dropped characters around it. */
  lemma TrimBothAt(s: string, drop: char -> bool)
    ensures TrimmedAt(s, TrimRightBy(TrimLeftBy(s, drop), drop), |s| - |TrimLeftBy(s, drop)|, drop)
  {
    var left := TrimLeftBy(s, drop);
    var t := TrimRightBy(left, drop);
    assert |left| <= |s| && left == s[|s| - |left|..];
    assert |t| <= |left| && t == left[..|t|];
    TrimmedInTwoSteps(s, left, t, drop);
  }

  /** Dropping a prefix of dropped characters, then a suffix of dropped characters, leaves
      a slice with only dropped characters around it. */
  lemma TrimmedInTwoSteps(s: string, left: string, t: string, drop: char -> bool)
    requires |left| <= |s| && left == s[|s| - |left|..]
    requires forall j :: 0 <= j < |s| - |left| ==> drop(s[j])
    requires |t| <= |left| && t == left[..|t|]
    requires forall j :: |t| <= j < |left| ==> drop(left[j])
    ensures TrimmedAt(s, t, |s| - |left|, drop)
  {
    var i := |s| - |left|;
    assert t == s[i..i + |t|];
    forall j | i + |t| <= j < |s| ensures drop(s[j]) {
      assert s[j] == left[j - i];
    }
  }

  /** What trimming both ends by `drop` leaves occurs in `s`. */
  lemma TrimBothContained(s: string, drop: char -> bool)
    ensures Contains(s, TrimRightBy(TrimLeftBy(s, drop), drop))
  {
    var t := TrimRightBy(TrimLeftBy(s, drop), drop);
    var i := |s| - |TrimLeftBy(s, drop)|;
    TrimBothAt(s, drop);
    assert s == s[..i] + t + s[i + |t|..];
    ContainsMiddle(s[..i], t, s[i + |t|..]);
  }

  /** Trimming both ends by `drop` is the one slice `TrimmedFrom` describes. */
  lemma TrimBothFrom(s: string, drop: char -> bool)
    ensures TrimmedFrom(s, TrimRightBy(TrimLeftBy(s, drop), drop), drop)
  {
    var t := TrimRightBy(TrimLeftBy(s, drop), drop);
    var i := |s| - |TrimLeftBy(s, drop)|;
    TrimBothAt(s, drop);
    assert TrimmedAt(s, t, i, drop);
  }

  /** `s.strip()`: the slice of `s` left after removing whitespace at both ends. The slice
      neither starts nor ends with whitespace and everything around it is whitespace, which
      determines it. */
  function Strip(s: string): (t: string)
    ensures |t| <= |s|
    ensures Contains(s, t)
    ensures t != [] ==> !IsSpace(t[0]) && !IsSpace(t[|t| - 1])
    ensures (forall i :: 0 <= i < |s| ==> IsSpace(s[i])) <==> t == []
    ensures TrimmedFrom(s, t, IsSpace)
  {
    TrimBothContained(s, IsSpace);
    TrimBothFrom(s, IsSpace);
    TrimRightBy(TrimLeftBy(s, IsSpace), IsSpace)
  }

  /** `s.strip(c)`: the slice of `s` left after removing the copies of `c` at both ends. */
  function StripChar(s: string, c: char): (t: string)
    ensures |t| <= |s|
    ensures t != [] ==> t[0] != c && t[|t| - 1] != c
    ensures (forall i :: 0 <= i < |s| ==> s[i] != c) ==> t == s
    ensures TrimmedFrom(s, t, x => x == c)
  {
    TrimBothFrom(s, x => x == c);
    TrimRightBy(TrimLeftBy(s, x => x == c), x => x == c)
  }

  /** `t` is a prefix of `s`: `s.startswith(t)`. */
  predicate IsPrefixOf(t: string, s: string) {
    |t| <= |s| && s[..|t|] == t
  }

  /** `t in s` for strings: `t` occurs in `s` as a contiguous substring. */
  predicate Contains(s: string, t: string)
    decreases |s|
  {
    IsPrefixOf(t, s) || (s != [] && Contains(s[1..], t))
  }

  /** Whatever `a` and `c` are, `b` occurs in `a + b + c`. */
  lemma {:induction false} ContainsMiddle(a: string, b: string, c: string)
    ensures Contains(a + b + c, b)
    decreases |a|
  {
    if a == [] {
      assert a + b + c == b + c;
      assert (b + c)[..|b|] == b;
    } else {
      assert (a + b + c)[1..] == a[1..] + b + c;
      ContainsMiddle(a[1..], b, c);
    }
  }

  /** A word of `str.split()`: a non-empty run of non-whitespace characters. */
  predicate IsWord(w: string) {
    w != [] && forall j :: 0 <= j < |w| ==> !IsSpace(w[j])
  }

  /** The length of the run of non-whitespace characters that starts `t`. */
  function WordLength(t: string): (n: nat)
    ensures n <= |t|
    ensures forall j :: 0 <= j < n ==> !IsSpace(t[j])
    ensures n < |t| ==> IsSpace(t[n])
    decreases |t|
  {
    if t == [] || IsSpace(t[0]) then 0 else 1 + WordLength(t[1..])
  }

  /** A string that starts with a non-whitespace character starts with a word. */
  lemma LeadingWord(t: string)
    requires t != [] && !IsSpace(t[0])
    ensures 1 <= WordLength(t) && IsWord(t[..WordLength(t)])
  {
    var w := t[..WordLength(t)];
    assert forall j :: 0 <= j < |w| ==> w[j] == t[j];
  }

  lemma ConsWords(w: string, ws: seq<string>)
    requires IsWord(w) && forall k :: 0 <= k < |ws| ==> IsWord(ws[k])
    ensures forall k :: 0 <= k < |[w] + ws| ==> IsWord(([w] + ws)[k])
  {
    forall k | 0 <= k < |[w] + ws| ensures IsWord(([w] + ws)[k]) {
      if k > 0 {
        assert ([w] + ws)[k] == ws[k - 1];
      }
    }
  }

  /** The words of `s`: `s.split()` with no argument, the maximal runs of non-whitespace. */
  function Words(s: string): (ws: seq<string>)
    ensures forall k :: 0 <= k < |ws| ==> IsWord(ws[k])
    decreases |s|
  {
    var t := TrimLeftBy(s, IsSpace);
    if t == [] then []
    else
      var n := WordLength(t);
      LeadingWord(t);
      ConsWords(t[..n], Words(t[n..]));
      [t[..n]] + Words(t[n..])
  }

  /** A word followed by whitespace, or by nothing, is measured exactly. */
  lemma {:induction false} WordLengthOfWord(w: string, s: string)
    requires IsWord(w) && (s == [] || IsSpace(s[0]))
    ensures WordLength(w + s) == |w|
    decreases |w|
  {
    assert (w + s)[0] == w[0];
    assert (w + s)[1..] == w[1..] + s;
    if |w| > 1 {
      assert forall j :: 0 <= j < |w[1..]| ==> w[1..][j] == w[j + 1];
      WordLengthOfWord(w[1..], s);
    } else {
      assert w[1..] + s == s;
    }
  }

  /** Leading whitespace does not change the words. */
  lemma WordsLeadingSpace(sp: char, s: string)
    requires IsSpace(sp)
    ensures Words([sp] + s) == Words(s)
  {
    assert ([sp] + s)[1..] == s;
    assert TrimLeftBy([sp] + s, IsSpace) == TrimLeftBy(s, IsSpace);
  }

  /** A word at the start, ended by whitespace or by the end, is the first word. */
  lemma WordsOfWordThen(w: string, s: string)
    requires IsWord(w) && (s == [] || IsSpace(s[0]))
    ensures Words(w + s) == [w] + Words(s)
  {
    assert (w + s)[0] == w[0];
    assert TrimLeftBy(w + s, IsSpace) == w + s;
    WordLengthOfWord(w, s);
    assert (w + s)[..|w|] == w && (w + s)[|w|..] == s;
  }

  /** A single word splits into itself. */
  lemma WordsOfWord(w: string)
    requires IsWord(w)
    ensures Words(w) == [w]
  {
    WordsOfWordThen(w, []);
    assert w + [] == w;
  }

  /** Splitting at a whitespace character splits the two sides independently. */
  lemma {:induction false} WordsSplitAtSpace(a: string, sp: char, b: string)
    requires IsSpace(sp)
    ensures Words(a + [sp] + b) == Words(a) + Words(b)
    decreases |a|, 1
  {
    if a == [] {
      WordsSplitEmpty(sp, b);
    } else if IsSpace(a[0]) {
      WordsSplitAfterSpace(a, sp, b);
    } else {
      WordsSplitAfterWord(a, sp, b);
    }
  }

  lemma WordsSplitEmpty(sp: char, b: string)
    requires IsSpace(sp)
    ensures Words([] + [sp] + b) == Words([]) + Words(b)
  {
    assert [] + [sp] + b == [sp] + b;
    WordsLeadingSpace(sp, b);
  }

  lemma {:induction false} WordsSplitAfterSpace(a: string, sp: char, b: string)
    requires IsSpace(sp) && a != [] && IsSpace(a[0])
    ensures Words(a + [sp] + b) == Words(a) + Words(b)
    decreases |a|, 0
  {
    assert a + [sp] + b == [a[0]] + (a[1..] + [sp] + b);
    assert a == [a[0]] + a[1..];
    WordsLeadingSpace(a[0], a[1..] + [sp] + b);
    WordsLeadingSpace(a[0], a[1..]);
    WordsSplitAtSpace(a[1..], sp, b);
  }

  lemma {:induction false} WordsSplitAfterWord(a: string, sp: char, b: string)
    requires IsSpace(sp) && a != [] && !IsSpace(a[0])
    ensures Words(a + [sp] + b) == Words(a) + Words(b)
    decreases |a|, 0
  {
    LeadingWord(a);
    var n := WordLength(a);
    if n == |a| {
      assert a[..n] == a;
      WordsSplitWholeWord(a, sp, b);
    } else {
      var w, rest := a[..n], a[n..];
      assert a == w + rest && rest[0] == a[n];
      WordsSplitAtSpace(rest, sp, b);
      WordsSplitWordThenRest(w, rest, sp, b);
    }
  }

  lemma WordsSplitWordThenRest(w: string, rest: string, sp: char, b: string)
    requires IsSpace(sp) && IsWord(w) && rest != [] && IsSpace(rest[0])
    requires Words(rest + [sp] + b) == Words(rest) + Words(b)
    ensures Words(w + rest + [sp] + b) == Words(w + rest) + Words(b)
  {
    var tail := rest + [sp] + b;
    ConcatAssoc(w, rest + [sp], b);
    ConcatAssoc(w, rest, [sp]);
    assert tail[0] == rest[0];
    calc {
      Words(w + tail);
      { WordsOfWordThen(w, tail); }
      [w] + Words(tail);
      [w] + (Words(rest) + Words(b));
      { ConcatAssoc([w], Words(rest), Words(b)); }
      [w] + Words(rest) + Words(b);
      { WordsOfWordThen(w, rest); }
      Words(w + rest) + Words(b);
    }
  }

  lemma ConcatAssoc<T>(x: seq<T>, y: seq<T>, z: seq<T>)
    ensures x + (y + z) == x + y + z
  {
  }

  lemma WordsSplitWholeWord(w: string, sp: char, b: string)
    requires IsSpace(sp) && IsWord(w)
    ensures Words(w + [sp] + b) == Words(w) + Words(b)
  {
    assert w + [sp] + b == w + ([sp] + b);
    WordsOfWordThen(w, [sp] + b);
    WordsLeadingSpace(sp, b);
    WordsOfWord(w);
  }

  /** `s.split()` is empty exactly when `s` is empty or all whitespace. */
  lemma WordsEmptyIff(s: string)
    ensures Words(s) == [] <==> forall i :: 0 <= i < |s| ==> IsSpace(s[i])
  {
    var t := TrimLeftBy(s, IsSpace);
    if t != [] {
      assert t[0] == s[|s| - |t|];
    }
  }

  /** `xs[:n]` for a Python slice with a possibly negative stop index. */
  function PyPrefix<T>(xs: seq<T>, n: int): (p: seq<T>)
    ensures |p| <= |xs| && p == xs[..|p|]
    ensures n >= 0 ==> |p| == if n < |xs| then n else |xs|
    ensures n < 0 ==> |p| == if |xs| + n > 0 then |xs| + n else 0
  {
    if n >= 0 then (if n < |xs| then xs[..n] else xs)
    else if |xs| + n > 0 then xs[..|xs| + n] else []
  }

  /** `sep.join(xs)`. */
  function Join(xs: seq<string>, sep: string): string
    decreases |xs|
  {
    if xs == [] then ""
    else if |xs| == 1 then xs[0]
    else Join(xs[..|xs| - 1], sep) + sep + xs[|xs| - 1]
  }

  /** `b` occurs in `a + b`. */
  lemma ContainsSuffix(a: string, b: string)
    ensures Contains(a + b, b)
  {
    ContainsMiddle(a, b, "");
    assert a + b + "" == a + b;
  }

  /** An occurrence in `a` is still an occurrence once text is appended to `a`. */
  lemma {:induction false} ContainsExtend(a: string, b: string, t: string)
    requires Contains(a, t)
    ensures Contains(a + b, t)
    decreases |a|
  {
    if IsPrefixOf(t, a) {
      assert (a + b)[..|t|] == a[..|t|];
    } else {
      assert (a + b)[1..] == a[1..] + b;
      ContainsExtend(a[1..], b, t);
    }
  }

  /** Each joined item occurs in the joined string. */
  lemma {:induction false} JoinContainsEach(xs: seq<string>, sep: string, i: int)
    requires 0 <= i < |xs|
    ensures Contains(Join(xs, sep), xs[i])
    decreases |xs|
  {
    if |xs| == 1 {
      ContainsMiddle([], xs[0], []);
      assert [] + xs[0] + [] == xs[0];
    } else {
      var init := xs[..|xs| - 1];
      if i == |xs| - 1 {
        ContainsMiddle(Join(init, sep) + sep, xs[i], []);
        assert Join(init, sep) + sep + xs[i] + [] == Join(xs, sep);
      } else {
        JoinContainsEach(init, sep, i);
        ContainsExtend(Join(init, sep), sep + xs[|xs| - 1], xs[i]);
        assert Join(init, sep) + (sep + xs[|xs| - 1]) == Join(xs, sep);
      }
    }
  }

  /** The string that `acc += x` for each `x` of `xs`, in order, appends to `acc`. */
  function Concat(xs: seq<string>): string
    decreases |xs|
  {
    if xs == [] then "" else Concat(xs[..|xs| - 1]) + xs[|xs| - 1]
  }

  lemma ConcatSnoc(xs: seq<string>, x: string)
    ensures Concat(xs + [x]) == Concat(xs) + x
  {
    assert (xs + [x])[..|xs|] == xs;
  }

  /** `str(n)` for a natural number: its decimal digits, without leading zeros. */
  function NatToString(n: nat): (s: string)
    ensures |s| >= 1 && forall i :: 0 <= i < |s| ==> '0' <= s[i] <= '9'
    ensures s[0] == '0' ==> n == 0
    ensures s[0] == '0' ==> s == "0"
    ensures DecimalValue(s) == n
    decreases n
  {
    if n < 10 then [Digit(n)]
    else
      var p := NatToString(n / 10);
      assert (p + [Digit(n % 10)])[..|p|] == p;
      p + [Digit(n % 10)]
  }

  /** The decimal digit character for `d`. */
  function Digit(d: nat): char
    requires d < 10
  {
    ('0' as int + d) as char
  }

  /** The number a string of decimal digits denotes, most significant digit first. */
  function DecimalValue(s: string): int
    decreases |s|
  {
    if s == [] then 0 else 10 * DecimalValue(s[..|s| - 1]) + (s[|s| - 1] as int - '0' as int)
  }

  /** The number of occurrences of `c` in `s`. */
  function Count(s: string, c: char): nat
    decreases |s|
  {
    if s == [] then 0 else (if s[0] == c then 1 else 0) + Count(s[1..], c)
  }

  /** `s.split(c)` for a one-character separator. */
  function SplitOn(s: string, c: char): (parts: seq<string>)
    ensures |parts| == Count(s, c) + 1
    ensures forall k, j :: 0 <= k < |parts| && 0 <= j < |parts[k]| ==> parts[k][j] != c
    decreases |s|
  {
    if s == [] then [""]
    else
      var rest := SplitOn(s[1..], c);
      if s[0] == c then [""] + rest
      else [[s[0]] + rest[0]] + rest[1..]
  }

  /** Splitting at one occurrence of the separator splits the two sides independently. */
  lemma {:induction false} SplitOnAppend(a: string, b: string, c: char)
    ensures SplitOn(a + [c] + b, c) == SplitOn(a, c) + SplitOn(b, c)
    decreases |a|
  {
    if a == [] {
      assert a + [c] + b == [c] + b;
      assert ([c] + b)[1..] == b;
    } else {
      assert (a + [c] + b)[1..] == a[1..] + [c] + b;
      SplitOnAppend(a[1..], b, c);
    }
  }

  /** A string without the separator splits into itself alone. */
  lemma {:induction false} SplitOnNoSeparator(s: string, c: char)
    requires forall i :: 0 <= i < |s| ==> s[i] != c
    ensures SplitOn(s, c) == [s]
    decreases |s|
  {
    if s != [] {
      SplitOnNoSeparator(s[1..], c);
      assert [s[0]] + s[1..] == s;
    }
  }

  /** A leading separator yields an empty first segment. */
  lemma SplitOnLeadingSeparator(b: string, c: char)
    ensures SplitOn([c] + b, c) == [""] + SplitOn(b, c)
  {
    assert ([c] + b)[1..] == b;
  }

  /** For a URL `scheme://host`, the third `/`-segment is the host. */
  lemma HostIsThirdSegment(scheme: string, host: string)
    requires forall i :: 0 <= i < |scheme| ==> scheme[i] != '/'
    requires forall i :: 0 <= i < |host| ==> host[i] != '/'
    ensures SplitOn(scheme + "//" + host, '/') == [scheme, "", host]
  {
    SplitOnNoSeparator(scheme, '/');
    SplitOnNoSeparator(host, '/');
    SplitOnLeadingSeparator(host, '/');
    assert scheme + "//" + host == scheme + ['/'] + (['/'] + host);
    SplitOnAppend(scheme, ['/'] + host, '/');
  }

  /** The `/`-segments of `/host/path` are an empty one, the host, then those of the path. */
  lemma SplitOnHostPath(host: string, path: string)
    requires forall i :: 0 <= i < |host| ==> host[i] != '/'
    ensures SplitOn("/" + host + "/" + path, '/') == ["", host] + SplitOn(path, '/')
  {
    SplitOnNoSeparator(host, '/');
    var rest := host + ['/'] + path;
    SplitOnAppend(host, path, '/');
    SplitOnLeadingSeparator(rest, '/');
    SlashHostPath(host, path);
  }

  lemma SlashHostPath(host: string, path: string)
    ensures ['/'] + (host + ['/'] + path) == "/" + host + "/" + path
  {
    var a := ['/'] + (host + ['/'] + path);
    var b := "/" + host + "/" + path;
    assert |a| == |b|;
    forall i | 0 <= i < |a| ensures a[i] == b[i] {
      if 1 <= i <= |host| {
        assert a[i] == host[i - 1] == b[i];
      }
    }
  }

  lemma UrlSplitsAtFirstSlash(scheme: string, host: string, path: string)
    ensures scheme + "//" + host + "/" + path == scheme + ['/'] + ("/" + host + "/" + path)
  {
    var tail := "/" + host + "/" + path;
    var url := scheme + "//" + host + "/" + path;
    assert |url| == |scheme| + 1 + |tail|;
    forall i | 0 <= i < |url| ensures url[i] == (scheme + ['/'] + tail)[i] {
      if i >= |scheme| + 1 {
        assert url[i] == tail[i - |scheme| - 1];
      }
    }
  }

  /** For a URL `scheme://host/path`, the third `/`-segment is still the host. */
  lemma HostIsThirdSegmentWithPath(scheme: string, host: string, path: string)
    requires forall i :: 0 <= i < |scheme| ==> scheme[i] != '/'
    requires forall i :: 0 <= i < |host| ==> host[i] != '/'
    ensures SplitOn(scheme + "//" + host + "/" + path, '/') == [scheme, "", host] + SplitOn(path, '/')
  {
    SplitOnNoSeparator(scheme, '/');
    SplitOnHostPath(host, path);
    var tail := "/" + host + "/" + path;
    SplitOnAppend(scheme, tail, '/');
    UrlSplitsAtFirstSlash(scheme, host, path);
    assert [scheme] + (["", host] + SplitOn(path, '/')) == [scheme, "", host] + SplitOn(path, '/');
  }
}
