/** The Python `str` built-ins the status board relies on, over `string`
    (a sequence of Unicode code points, as a Python `str` is). */
module PyStr {

  /** The characters Python's `str.split()` and `str.strip()` (no argument)
      treat as whitespace. */
  const Whitespace: set<char> := {
    '\t', '\n', '\U{0B}', '\U{0C}', '\r', '\U{1C}', '\U{1D}', '\U{1E}', '\U{1F}', ' ',
    '\U{85}', '\U{A0}', '\U{1680}',
    '\U{2000}', '\U{2001}', '\U{2002}', '\U{2003}', '\U{2004}', '\U{2005}',
    '\U{2006}', '\U{2007}', '\U{2008}', '\U{2009}', '\U{200A}',
    '\U{2028}', '\U{2029}', '\U{202F}', '\U{205F}', '\U{3000}'
  }

  /** `s.startswith(p)` */
  predicate StartsWith(s: string, p: string)
    ensures StartsWith(s, p) <==> |p| <= |s| && forall i :: 0 <= i < |p| ==> s[i] == p[i]
  {
    |p| <= |s| && s[..|p|] == p
  }

  /** Strings whose first characters differ do not start with one another. */
  lemma FirstCharDiffers(s: string, p: string)
    requires s != [] && p != [] && s[0] != p[0]
    ensures !StartsWith(s, p)
  {
    if |p| <= |s| {
      assert s[..|p|][0] != p[0];
    }
  }

  /** `c * n` for a one-character string `c` */
  function Repeat(c: char, n: nat): (r: string)
    ensures |r| == n && forall i :: 0 <= i < n ==> r[i] == c
  {
    seq(n, _ => c)
  }

  /** `f"{s: <n}"`: `s` left-aligned in a field of `n` characters. */
  function PadRight(s: string, n: nat): (r: string)
    ensures |r| == if |s| < n then n else |s|
    ensures r[..|s|] == s
    ensures forall i :: |s| <= i < |r| ==> r[i] == ' '
  {
    if |s| < n then s + Repeat(' ', n - |s|) else s
  }

  /** `s.lstrip(cs)`: the longest suffix of `s` that does not start with a character of `cs`. */
  function LStrip(s: string, cs: set<char>): (r: string)
    ensures |r| <= |s| && r == s[|s| - |r|..]
    ensures forall i :: 0 <= i < |s| - |r| ==> s[i] in cs
    ensures r == [] || r[0] !in cs
  {
    if s != [] && s[0] in cs then
      var r := LStrip(s[1..], cs);
      assert forall i :: 0 < i < |s| - |r| ==> s[i] == s[1..][i - 1];
      r
    else s
  }

  /** `s.rstrip(cs)`: the longest prefix of `s` that does not end with a character of `cs`. */
  function RStrip(s: string, cs: set<char>): (r: string)
    ensures |r| <= |s| && r == s[..|r|]
    ensures forall i :: |r| <= i < |s| ==> s[i] in cs
    ensures r == [] || r[|r| - 1] !in cs
  {
    if s != [] && s[|s| - 1] in cs then RStrip(s[..|s| - 1], cs) else s
  }

  /** `r` occurs in `s` at `i` with only whitespace before and after it. */
  predicate Padded(s: string, i: int, r: string) {
    && 0 <= i && i + |r| <= |s| && s[i..i + |r|] == r
    && (forall j :: 0 <= j < i ==> s[j] in Whitespace)
    && (forall j :: i + |r| <= j < |s| ==> s[j] in Whitespace)
  }

  /** `s.strip()` */
  function Strip(s: string): (r: string)
    ensures Stripped(r) && exists i :: Padded(s, i, r)
  {
    var t := LStrip(s, Whitespace);
    var r := RStrip(t, Whitespace);
    assert Padded(s, |s| - |t|, r) by {
      assert s[|s| - |t|..|s| - |t| + |r|] == t[..|r|];
      forall j | |s| - |t| + |r| <= j < |s| ensures s[j] in Whitespace {
        assert s[j] == t[j - (|s| - |t|)];
      }
    }
    r
  }

  /** No whitespace at either end: `Strip` leaves such a string alone. */
  predicate Stripped(s: string) {
    s == [] || (s[0] !in Whitespace && s[|s| - 1] !in Whitespace)
  }

  /** `s.split(sep)` for a one-character separator. */
  function Split(s: string, sep: char): (r: seq<string>)
    ensures |r| >= 1
    decreases |s|
  {
    if s == [] then [""]
    else if s[0] == sep then [""] + Split(s[1..], sep)
    else
      var t := Split(s[1..], sep);
      [[s[0]] + t[0]] + t[1..]
  }

  /** `sep.join(l)` */
  function Join(l: seq<string>, sep: string): (r: string)
    ensures forall c :: c in r ==> c in sep || exists i :: 0 <= i < |l| && c in l[i]
  {
    if l == [] then ""
    else if |l| == 1 then l[0]
    else
      var rest := Join(l[1..], sep);
      assert forall i :: 0 <= i < |l| - 1 ==> l[1..][i] == l[i + 1];
      l[0] + sep + rest
  }

  /** `[x.strip() for x in l]` */
  function StripAll(l: seq<string>): (r: seq<string>)
    ensures |r| == |l| && forall i :: 0 <= i < |l| ==> r[i] == Strip(l[i])
  {
    if l == [] then [] else [Strip(l[0])] + StripAll(l[1..])
  }

  /** The characters up to the first whitespace character. */
  function TakeWord(s: string): (r: string)
    ensures |r| <= |s| && r == s[..|r|]
    ensures forall c :: c in r ==> c !in Whitespace
    ensures |r| == |s| || s[|r|] in Whitespace
  {
    if s == [] || s[0] in Whitespace then [] else [s[0]] + TakeWord(s[1..])
  }

  datatype Option<+T> = None | Some(value: T)

  /** `w` occurs in `s` at `i` as a whole word: whitespace or the end of `s` follows it. */
  predicate WordAt(s: string, i: int, w: string) {
    0 <= i && i + |w| <= |s| && s[i..i + |w|] == w && (i + |w| == |s| || s[i + |w|] in Whitespace)
  }

  /** `s.split()[0]`, or `None` where that raises `IndexError` (`s` is all whitespace). */
  function FirstWord(s: string): (r: Option<string>)
    ensures r.None? <==> forall c :: c in s ==> c in Whitespace
    ensures r.Some? ==> r.value != [] && forall c :: c in r.value ==> c !in Whitespace
    ensures r.Some? ==> exists i :: WordAt(s, i, r.value) && forall j :: 0 <= j < i ==> s[j] in Whitespace
  {
    var t := LStrip(s, Whitespace);
    if t == [] then None
    else
      var w := TakeWord(t);
      assert WordAt(s, |s| - |t|, w) by {
        assert s[|s| - |t|..][..|w|] == s[|s| - |t|..|s| - |t| + |w|];
        assert |w| < |t| ==> s[|s| - |t| + |w|] == t[|w|];
      }
      Some(w)
  }

  /** `str.upper()` and `str.lower()` on one character, for the ASCII letters only. */
  function UpperChar(c: char): char {
    if 'a' <= c <= 'z' then (c as int - 32) as char else c
  }

  function LowerChar(c: char): char {
    if 'A' <= c <= 'Z' then (c as int + 32) as char else c
  }

  function Upper(s: string): (r: string)
    ensures |r| == |s|
  {
    seq(|s|, i requires 0 <= i < |s| => UpperChar(s[i]))
  }

  function Lower(s: string): (r: string)
    ensures |r| == |s| && NoCapitals(r)
  {
    seq(|s|, i requires 0 <= i < |s| => LowerChar(s[i]))
  }

  /** A string with no ASCII capital letter. */
  predicate NoCapitals(s: string) {
    forall i :: 0 <= i < |s| ==> !('A' <= s[i] <= 'Z')
  }

  /** `Lower` undoes `Upper` exactly on strings without capitals. */
  lemma LowerUpper(s: string)
    ensures Lower(Upper(s)) == s <==> NoCapitals(s)
  {
    if NoCapitals(s) {
      assert forall i :: 0 <= i < |s| ==> LowerChar(UpperChar(s[i])) == s[i];
    } else {
      var i :| 0 <= i < |s| && 'A' <= s[i] <= 'Z';
      assert Lower(Upper(s))[i] != s[i];
    }
  }

  /** `s.split(sep)` on a string without `sep` is `[s]`. */
  lemma {:induction false} SplitNoSep(s: string, sep: char)
    requires sep !in s
    ensures Split(s, sep) == [s]
    decreases |s|
  {
    if s != [] {
      assert sep !in s[1..];
      SplitNoSep(s[1..], sep);
      assert [s[0]] + s[1..] == s;
    }
  }

  /** The first field of `s.split(sep)` ends at the first `sep`. */
  lemma {:induction false} SplitAt(a: string, sep: char, b: string)
    requires sep !in a
    ensures Split(a + [sep] + b, sep) == [a] + Split(b, sep)
    decreases |a|
  {
    if a == [] {
      assert a + [sep] + b == [sep] + b;
      assert ([sep] + b)[1..] == b;
    } else {
      assert (a + [sep] + b)[1..] == a[1..] + [sep] + b;
      assert sep !in a[1..];
      SplitAt(a[1..], sep, b);
      assert [a[0]] + a[1..] == a;
    }
  }

  /** Two separator-free pieces around one separator split into exactly those two. */
  lemma SplitTwo(a: string, sep: char, b: string)
    requires sep !in a && sep !in b
    ensures Split(a + [sep] + b, sep) == [a, b]
  {
    SplitNoSep(b, sep);
    SplitAt(a, sep, b);
  }

  lemma SplitSep(s: string, sep: char)
    requires s != [] && s[0] == sep
    ensures Split(s, sep) == [""] + Split(s[1..], sep)
  {
  }

  /** The step of `JoinSplit` when `s` starts with the separator. */
  lemma JoinSplitAtSep(s: string, sep: char)
    requires s != [] && s[0] == sep && Join(Split(s[1..], sep), [sep]) == s[1..]
    ensures Join(Split(s, sep), [sep]) == s
  {
    var t := Split(s[1..], sep);
    SplitSep(s, sep);
    HeadTail("", t);
    JoinCons([""] + t, [sep]);
    HeadTail(s[0], s[1..]);
    assert "" + [sep] + s[1..] == [s[0]] + s[1..];
  }

  lemma SplitOther(s: string, sep: char)
    requires s != [] && s[0] != sep
    ensures var t := Split(s[1..], sep);
      Split(s, sep) == [[s[0]] + t[0]] + t[1..]
  {
  }

  lemma JoinCons(l: seq<string>, sep: string)
    requires |l| > 1
    ensures Join(l, sep) == l[0] + sep + Join(l[1..], sep)
  {
  }

  lemma HeadTail<T>(a: T, t: seq<T>)
    ensures ([a] + t)[0] == a && ([a] + t)[1..] == t && |[a] + t| == |t| + 1
  {
  }

  lemma Assoc4<T>(a: seq<T>, b: seq<T>, c: seq<T>, d: seq<T>)
    ensures a + b + c + d == a + (b + c + d)
  {
  }

  /** The step of `JoinSplit` when `s` starts with another character. */
  lemma JoinSplitOther(s: string, sep: char)
    requires s != [] && s[0] != sep && Join(Split(s[1..], sep), [sep]) == s[1..]
    ensures Join(Split(s, sep), [sep]) == s
  {
    var t := Split(s[1..], sep);
    var r := Split(s, sep);
    SplitOther(s, sep);
    HeadTail([s[0]] + t[0], t[1..]);
    if |t| == 1 {
      assert r == [[s[0]] + t[0]];
    } else {
      JoinCons(r, [sep]);
      JoinCons(t, [sep]);
      Assoc4([s[0]], t[0], [sep], Join(t[1..], [sep]));
    }
    HeadTail(s[0], s[1..]);
    assert [s[0]] + s[1..] == s;
  }

  lemma {:induction false} JoinSplit(s: string, sep: char)
    ensures Join(Split(s, sep), [sep]) == s
    decreases |s|
  {
    if s != [] {
      JoinSplit(s[1..], sep);
      if s[0] == sep {
        JoinSplitAtSep(s, sep);
      } else {
        JoinSplitOther(s, sep);
      }
    }
  }

  /** Splitting a join of fields without the separator gives back the fields. */
  lemma {:induction false} SplitJoin(l: seq<string>, sep: char)
    requires l != []
    requires forall i :: 0 <= i < |l| ==> sep !in l[i]
    ensures Split(Join(l, [sep]), sep) == l
    decreases |l|
  {
    if |l| == 1 {
      SplitNoSep(l[0], sep);
    } else {
      SplitJoin(l[1..], sep);
      SplitAt(l[0], sep, Join(l[1..], [sep]));
      assert [l[0]] + l[1..] == l;
    }
  }

  /** Stripping characters of `cs` from the left removes a prefix made of them, and no more. */
  lemma {:induction false} LStripPrefix(p: string, u: string, cs: set<char>)
    requires forall c :: c in p ==> c in cs
    requires u == [] || u[0] !in cs
    ensures LStrip(p + u, cs) == u
    decreases |p|
  {
    if p == [] {
      assert p + u == u;
      if u != [] { assert LStrip(u, cs) == u; }
    } else {
      assert (p + u)[1..] == p[1..] + u;
      LStripPrefix(p[1..], u, cs);
    }
  }

  /** Stripping characters of `cs` from the right removes a suffix made of them, and no more. */
  lemma {:induction false} RStripSuffix(u: string, p: string, cs: set<char>)
    requires forall c :: c in p ==> c in cs
    requires u == [] || u[|u| - 1] !in cs
    ensures RStrip(u + p, cs) == u
    decreases |p|
  {
    if p == [] {
      assert u + p == u;
      if u != [] { assert RStrip(u, cs) == u; }
    } else {
      assert (u + p)[..|u + p| - 1] == u + p[..|p| - 1];
      assert p[|p| - 1] in p;
      RStripSuffix(u, p[..|p| - 1], cs);
    }
  }

  /** A run of spaces is whitespace. */
  lemma SpacesWhite(s: string)
    requires forall i :: 0 <= i < |s| ==> s[i] == ' '
    ensures forall c :: c in s ==> c in Whitespace
  {
    assert ' ' in Whitespace;
    forall c | c in s ensures c in Whitespace {
      var i :| 0 <= i < |s| && s[i] == c;
    }
  }

  /** `(p + x + q).strip() == x` when `p` and `q` are whitespace and `x` is stripped. */
  lemma StripPadded(p: string, x: string, q: string)
    requires forall c :: c in p ==> c in Whitespace
    requires forall c :: c in q ==> c in Whitespace
    requires Stripped(x)
    ensures Strip(p + x + q) == x
  {
    assert p + x + q == p + (x + q);
    if x == [] {
      assert x + q == q;
      LStripPrefix(p + q, [], Whitespace);
      assert p + q + [] == p + q;
      RStripSuffix([], [], Whitespace);
    } else {
      LStripPrefix(p, x + q, Whitespace);
      RStripSuffix(x, q, Whitespace);
    }
  }

  /** The first word of `w + rest` is `w` when `w` has no whitespace and `rest` starts with some. */
  lemma {:induction false} TakeWordPrefix(w: string, rest: string)
    requires forall c :: c in w ==> c !in Whitespace
    requires rest != [] && rest[0] in Whitespace
    ensures TakeWord(w + rest) == w
    decreases |w|
  {
    if w == [] {
      assert w + rest == rest;
    } else {
      assert (w + rest)[1..] == w[1..] + rest;
      TakeWordPrefix(w[1..], rest);
      assert [w[0]] + w[1..] == w;
    }
  }

  /** `"\n".join(ls) + "\n"`: each line followed by a line break. */
  function Unlines(ls: seq<string>): string {
    if ls == [] then "" else ls[0] + "\n" + Unlines(ls[1..])
  }

  lemma {:induction false} UnlinesAppend(a: seq<string>, b: seq<string>)
    ensures Unlines(a + b) == Unlines(a) + Unlines(b)
    decreases |a|
  {
    if a == [] {
      assert a + b == b;
    } else {
      assert (a + b)[1..] == a[1..] + b;
      UnlinesAppend(a[1..], b);
    }
  }

  lemma SplitLineCons(head: string, mid: string, rest: string)
    requires '\n' !in head
    ensures Split(head + "\n" + mid + rest, '\n') == [head] + Split(mid + rest, '\n')
  {
    assert head + "\n" + mid + rest == head + ['\n'] + (mid + rest);
    SplitAt(head, '\n', mid + rest);
  }

  lemma SplitFirstLine(ls: seq<string>, rest: string)
    requires ls != [] && '\n' !in ls[0]
    ensures Split(Unlines(ls) + rest, '\n') == [ls[0]] + Split(Unlines(ls[1..]) + rest, '\n')
  {
    assert Unlines(ls) + rest == ls[0] + "\n" + Unlines(ls[1..]) + rest;
    SplitLineCons(ls[0], Unlines(ls[1..]), rest);
  }

  lemma ConsAssoc<T>(a: T, t: seq<T>, u: seq<T>)
    ensures [a] + (t + u) == ([a] + t) + u
  {
  }

  lemma LinesTail(ls: seq<string>)
    requires ls != [] && forall i :: 0 <= i < |ls| ==> '\n' !in ls[i]
    ensures '\n' !in ls[0] && forall i :: 0 <= i < |ls[1..]| ==> '\n' !in ls[1..][i]
    ensures ls == [ls[0]] + ls[1..]
  {
    forall i | 0 <= i < |ls[1..]| ensures '\n' !in ls[1..][i] {
      assert ls[1..][i] == ls[i + 1];
    }
  }

  /** Splitting text on line breaks recovers the lines it was built from. */
  lemma {:induction false} SplitUnlines(ls: seq<string>, rest: string)
    requires forall i :: 0 <= i < |ls| ==> '\n' !in ls[i]
    ensures Split(Unlines(ls) + rest, '\n') == ls + Split(rest, '\n')
    decreases |ls|
  {
    if ls == [] {
      assert Unlines(ls) + rest == rest;
    } else {
      LinesTail(ls);
      SplitUnlines(ls[1..], rest);
      SplitFirstLine(ls, rest);
      ConsAssoc(ls[0], ls[1..], Split(rest, '\n'));
    }
  }
}
