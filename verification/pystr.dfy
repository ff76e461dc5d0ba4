/** The slice of Python's `str` behaviour the views and the worker rely on:
    `isspace`, argument-less `strip`, `split` and `join` on a one-character
    separator, and one-character `replace`. */
module PyStr {

  /** Python's `str.isspace` for a single character: exactly the characters an
      argument-less `strip()` removes. */
  predicate IsSpace(c: char)
  {
    || ('\t' <= c <= '\r')             // tab, line feed, vertical tab, form feed, carriage return
    || ('\U{1c}' <= c <= '\U{1f}')      // file, group, record and unit separators
    || c == ' '
    || c == '\U{85}' || c == '\U{a0}' || c == '\U{1680}'
    || ('\U{2000}' <= c <= '\U{200a}')
    || c == '\U{2028}' || c == '\U{2029}' || c == '\U{202f}' || c == '\U{205f}' || c == '\U{3000}'
  }

  /** True when every character of `s` is whitespace (vacuously for ""). */
  predicate AllSpace(s: string)
  {
    forall i :: 0 <= i < |s| ==> IsSpace(s[i])
  }

  /** `s.lstrip()`: what is left after dropping the leading whitespace. */
  function TrimLeft(s: string): (r: string)
    ensures |r| <= |s|
    ensures r == [] || !IsSpace(r[0])
    decreases |s|
  {
    if |s| > 0 && IsSpace(s[0]) then TrimLeft(s[1..]) else s
  }

  /** `lstrip()` removes a prefix, and only whitespace. */
  lemma {:induction false} TrimLeftSuffix(s: string)
    ensures var r := TrimLeft(s);
            r == s[|s| - |r|..] && AllSpace(s[..|s| - |r|])
    decreases |s|
  {
    if |s| > 0 && IsSpace(s[0]) {
      TrimLeftSuffix(s[1..]);
      var r := TrimLeft(s);
      var n := |s| - |r|;
      assert s[1..][n - 1..] == s[n..];
      assert forall i :: 0 <= i < n ==> s[..n][i] == s[i];
      assert forall i :: 1 <= i < n ==> s[i] == s[1..][..n - 1][i - 1];
    }
  }

  /** `s.rstrip()`: what is left after dropping the trailing whitespace. */
  function TrimRight(s: string): (r: string)
    ensures |r| <= |s|
    ensures r == [] || !IsSpace(r[|r| - 1])
    decreases |s|
  {
    if |s| > 0 && IsSpace(s[|s| - 1]) then TrimRight(s[..|s| - 1]) else s
  }

  /** `rstrip()` removes a suffix, and only whitespace. */
  lemma {:induction false} TrimRightPrefix(s: string)
    ensures var r := TrimRight(s);
            r == s[..|r|] && AllSpace(s[|r|..])
    decreases |s|
  {
    if |s| > 0 && IsSpace(s[|s| - 1]) {
      var init := s[..|s| - 1];
      TrimRightPrefix(init);
      var r := TrimRight(s);
      var n := |r|;
      assert r == TrimRight(init);
      assert init[..n] == s[..n];
      assert s[n..] == init[n..] + [s[|s| - 1]];
      AllSpaceAppend(init[n..], [s[|s| - 1]]);
    }
  }

  /** Whitespace followed by whitespace is whitespace. */
  lemma AllSpaceAppend(x: string, y: string)
    requires AllSpace(x) && AllSpace(y)
    ensures AllSpace(x + y)
  {
  }

  /** Neither end of `s` is whitespace. */
  predicate IsStripped(s: string)
  {
    s == [] || (!IsSpace(s[0]) && !IsSpace(s[|s| - 1]))
  }

  /** `s.strip()`: the middle of `s` once whitespace is removed at both ends. */
  function Strip(s: string): (r: string)
    ensures IsStripped(r)
    ensures |r| <= |s|
    ensures r == [] <==> AllSpace(s)
  {
    StripFacts(s);
    TrimRight(TrimLeft(s))
  }

  /** The facts behind Strip's contract and the lemmas below. */
  lemma StripFacts(s: string)
    ensures var t := TrimLeft(s);
            var r := TrimRight(t);
            && (forall i :: 0 <= i < |r| ==> r[i] in s)
            && (r == [] <==> AllSpace(s))
            && (!AllSpace(s) ==> r[0] == t[0])
  {
    var t := TrimLeft(s);
    var r := TrimRight(t);
    TrimLeftSuffix(s);
    TrimRightPrefix(t);
    var lead := |s| - |t|;
    forall i | 0 <= i < |r|
      ensures r[i] in s
    {
      assert r[i] == t[i] == s[lead + i];
    }
    if t == [] {
      assert s == s[..lead];
      assert r == [];
    } else {
      assert !IsSpace(t[0]);
      assert !IsSpace(s[lead]);
      assert !AllSpace(s);
      if r == [] {
        assert false;
      }
      assert r[0] == t[0];
    }
  }

  /** `strip()` only removes characters: none appears that `s` lacks. */
  lemma StripKeepsOut(s: string, c: char)
    requires c !in s
    ensures c !in Strip(s)
  {
    StripFacts(s);
  }

  /** A text that is not all whitespace strips to one that starts with its
      first non-whitespace character. */
  lemma StripFirst(s: string)
    requires !AllSpace(s)
    ensures Strip(s) != [] && Strip(s)[0] == TrimLeft(s)[0]
  {
    StripFacts(s);
  }

  /** Text without whitespace at either end is its own `strip()`. */
  lemma StripStripped(s: string)
    requires IsStripped(s)
    ensures Strip(s) == s
  {
    assert TrimLeft(s) == s;
  }

  /** Dropping one leading whitespace character does not change `strip()`. */
  lemma StripConsSpace(c: char, s: string)
    requires IsSpace(c)
    ensures Strip([c] + s) == Strip(s)
  {
    assert ([c] + s)[1..] == s;
  }

  /** `lstrip()` of a concatenation: the second part is untouched unless the
      first part is all whitespace. */
  lemma {:induction false} TrimLeftAppend(x: string, y: string)
    ensures TrimLeft(x + y) == if TrimLeft(x) == [] then TrimLeft(y) else TrimLeft(x) + y
    decreases |x|
  {
    if |x| == 0 {
      assert x + y == y;
    } else if IsSpace(x[0]) {
      assert (x + y)[1..] == x[1..] + y;
      TrimLeftAppend(x[1..], y);
    } else {
      assert (x + y)[0] == x[0];
    }
  }

  /** Dropping one trailing whitespace character does not change `strip()`. */
  lemma StripSnocSpace(s: string, c: char)
    requires IsSpace(c)
    ensures Strip(s + [c]) == Strip(s)
  {
    TrimLeftAppend(s, [c]);
    var t := TrimLeft(s);
    if t != [] {
      assert (t + [c])[..|t|] == t;
    }
  }

  /** Leading whitespace never survives `lstrip()`. */
  lemma {:induction false} TrimLeftSpaces(a: string, y: string)
    requires AllSpace(a)
    ensures TrimLeft(a + y) == TrimLeft(y)
    decreases |a|
  {
    if |a| == 0 {
      assert a + y == y;
    } else {
      assert (a + y)[0] == a[0];
      assert (a + y)[1..] == a[1..] + y;
      TrimLeftSpaces(a[1..], y);
    }
  }

  /** Trailing whitespace never survives `rstrip()`. */
  lemma {:induction false} TrimRightSpaces(m: string, b: string)
    requires AllSpace(b)
    ensures TrimRight(m + b) == TrimRight(m)
    decreases |b|
  {
    if |b| == 0 {
      assert m + b == m;
    } else {
      var mb := m + b;
      assert mb[|mb| - 1] == b[|b| - 1];
      assert mb[..|mb| - 1] == m + b[..|b| - 1];
      TrimRightSpaces(m, b[..|b| - 1]);
    }
  }

  /** `strip()` is determined by its result's shape: whatever text without
      whitespace at either end sits between two runs of whitespace is what
      `strip()` returns. */
  lemma StripUnique(a: string, m: string, b: string)
    requires AllSpace(a) && AllSpace(b) && IsStripped(m)
    ensures Strip(a + m + b) == m
  {
    assert a + m + b == a + (m + b);
    TrimLeftSpaces(a, m + b);
    if m == [] {
      assert m + b == b;
      TrimLeftSpaces(b, []);
      assert b + [] == b;
    } else {
      assert (m + b)[0] == m[0];
      TrimRightSpaces(m, b);
    }
  }

  /** `s.split(sep)` for a one-character separator: the pieces between
      separators, always at least one (`"".split(",") == [""]`). */
  function Split(s: string, sep: char): (r: seq<string>)
    ensures |r| >= 1
    ensures forall k :: 0 <= k < |r| ==> sep !in r[k]
    decreases |s|
  {
    if |s| == 0 then [""]
    else
      var rest := Split(s[1..], sep);
      if s[0] == sep then [""] + rest
      else [[s[0]] + rest[0]] + rest[1..]
  }

  /** How `Split` of a non-empty text is built from `Split` of its tail. */
  lemma SplitCons(s: string, sep: char)
    requires |s| > 0
    ensures var q := Split(s[1..], sep);
            Split(s, sep) == if s[0] == sep then [""] + q else [[s[0]] + q[0]] + q[1..]
  {
  }

  /** Text without the separator is a single piece. */
  lemma {:induction false} SplitNoSep(s: string, sep: char)
    requires sep !in s
    ensures Split(s, sep) == [s]
    decreases |s|
  {
    if |s| > 0 {
      SplitNoSep(s[1..], sep);
      SplitCons(s, sep);
      assert [s[0]] + s[1..] == s;
    }
  }

  /** The first piece starts with the first character, unless that is the
      separator. */
  lemma SplitFirst(s: string, sep: char)
    requires |s| > 0 && s[0] != sep
    ensures |Split(s, sep)[0]| > 0 && Split(s, sep)[0][0] == s[0]
  {
    SplitCons(s, sep);
  }

  /** `sep.join(parts)`. */
  function Join(parts: seq<string>, sep: char): (r: string)
    ensures |parts| > 0 ==> |r| >= |parts[0]| && r[..|parts[0]|] == parts[0]
    decreases |parts|
  {
    if |parts| == 0 then ""
    else if |parts| == 1 then parts[0]
    else parts[0] + [sep] + Join(parts[1..], sep)
  }

  /** Splitting at a separator splits the text on either side independently. */
  lemma {:induction false} SplitAppend(a: string, b: string, sep: char)
    ensures Split(a + [sep] + b, sep) == Split(a, sep) + Split(b, sep)
    decreases |a|
  {
    if |a| == 0 {
      var s := a + [sep] + b;
      assert s == [sep] + b;
      assert s[1..] == b;
      SplitCons(s, sep);
    } else {
      SplitAppend(a[1..], b, sep);
      SplitAppendStep(a, b, sep);
    }
  }

  lemma SplitAppendStep(a: string, b: string, sep: char)
    requires |a| > 0
    requires Split(a[1..] + [sep] + b, sep) == Split(a[1..], sep) + Split(b, sep)
    ensures Split(a + [sep] + b, sep) == Split(a, sep) + Split(b, sep)
  {
    var s := a + [sep] + b;
    assert s[1..] == a[1..] + [sep] + b;
    assert s[0] == a[0];
    SplitCons(s, sep);
    SplitCons(a, sep);
    PiecesCons(a[0], sep, Split(a[1..], sep), Split(b, sep));
  }

  /** The list manipulation behind SplitAppendStep, on plain lists. */
  lemma PiecesCons(c: char, sep: char, left: seq<string>, right: seq<string>)
    requires |left| >= 1
    ensures var rest := left + right;
            var whole := if c == sep then [""] + rest else [[c] + rest[0]] + rest[1..];
            var first := if c == sep then [""] + left else [[c] + left[0]] + left[1..];
            whole == first + right
  {
    var rest := left + right;
    if c != sep {
      assert rest[0] == left[0];
      assert rest[1..] == left[1..] + right;
    }
  }

  /** Appending separator-free text only extends the last piece. */
  lemma {:induction false} SplitAppendPlain(s: string, t: string, sep: char)
    requires sep !in t
    ensures var p := Split(s, sep);
            Split(s + t, sep) == p[..|p| - 1] + [p[|p| - 1] + t]
    decreases |s|
  {
    if |s| == 0 {
      assert s + t == t;
      SplitNoSep(t, sep);
    } else {
      assert (s + t)[1..] == s[1..] + t;
      SplitAppendPlain(s[1..], t, sep);
      SplitCons(s + t, sep);
      SplitCons(s, sep);
      if s[0] != sep {
        ExtendFirstOfLast([s[0]], Split(s[1..], sep), t);
      }
    }
  }

  lemma ExtendFirstOfLast(x: string, q: seq<string>, t: string)
    requires |q| >= 1
    ensures var rest := q[..|q| - 1] + [q[|q| - 1] + t];
            var p := [x + q[0]] + q[1..];
            [x + rest[0]] + rest[1..] == p[..|p| - 1] + [p[|p| - 1] + t]
  {
    var n := |q|;
    var rest := q[..n - 1] + [q[n - 1] + t];
    var p := [x + q[0]] + q[1..];
    if n == 1 {
      assert rest == [q[0] + t];
      assert p == [x + q[0]];
      assert x + (q[0] + t) == (x + q[0]) + t;
    } else {
      assert rest[0] == q[0];
      assert rest[1..] == q[1..n - 1] + [q[n - 1] + t];
      assert p[..|p| - 1] == [x + q[0]] + q[1..n - 1];
      assert p[|p| - 1] == q[n - 1];
    }
  }

  /** Joining separator-free pieces and splitting again gives the pieces back. */
  lemma {:induction false} SplitJoin(parts: seq<string>, sep: char)
    requires |parts| >= 1
    requires forall k :: 0 <= k < |parts| ==> sep !in parts[k]
    ensures Split(Join(parts, sep), sep) == parts
    decreases |parts|
  {
    if |parts| == 1 {
      SplitNoSep(parts[0], sep);
    } else {
      SplitJoin(parts[1..], sep);
      SplitAppend(parts[0], Join(parts[1..], sep), sep);
      SplitNoSep(parts[0], sep);
      assert Join(parts, sep) == parts[0] + [sep] + Join(parts[1..], sep);
      assert parts == [parts[0]] + parts[1..];
    }
  }

  /** Prepending text to the first piece prepends it to the joined text. */
  lemma JoinExtendFirst(x: string, ps: seq<string>, sep: char)
    requires |ps| >= 1
    ensures Join([x + ps[0]] + ps[1..], sep) == x + Join(ps, sep)
  {
    var qs := [x + ps[0]] + ps[1..];
    if |ps| > 1 {
      assert qs[1..] == ps[1..];
    }
  }

  /** Splitting and joining again gives any text back. */
  lemma {:induction false} JoinSplit(s: string, sep: char)
    ensures Join(Split(s, sep), sep) == s
    decreases |s|
  {
    if |s| > 0 {
      JoinSplit(s[1..], sep);
      SplitCons(s, sep);
      var rest := Split(s[1..], sep);
      if s[0] == sep {
        assert ([""] + rest)[1..] == rest;
      } else {
        JoinExtendFirst([s[0]], rest, sep);
      }
      assert s == [s[0]] + s[1..];
    }
  }

  /** `s.replace(target, replacement)` for one-character arguments. */
  function Replace(s: string, target: char, replacement: char): (r: string)
    ensures |r| == |s|
    ensures forall i :: 0 <= i < |s| ==> r[i] == if s[i] == target then replacement else s[i]
    decreases |s|
  {
    if |s| == 0 then ""
    else [if s[0] == target then replacement else s[0]] + Replace(s[1..], target, replacement)
  }
}
