/** Normalisation of the multi-line prompt field of the batch form
    (views.py, `generate_images_in_parallel`): the whole text is stripped,
    split on line feeds, every line is stripped and blank lines are dropped. */
module Prompts {
  import opened PyStr

  /** A line with nothing but whitespace in it. */
  predicate Blank(line: string)
  {
    Strip(line) == []
  }

  /** What a normalised prompt looks like: non-empty, no whitespace at either
      end, and on a single line. */
  predicate IsPrompt(p: string)
  {
    p != [] && IsStripped(p) && '\n' !in p
  }

  /** No piece contains `c`. */
  predicate NoneContains(lines: seq<string>, c: char)
  {
    forall k :: 0 <= k < |lines| ==> c !in lines[k]
  }

  /** The list comprehension over the lines: each line stripped, blank lines
      dropped, order kept. */
  function CleanLines(lines: seq<string>): (r: seq<string>)
    ensures |r| <= |lines|
    ensures forall k :: 0 <= k < |r| ==> r[k] != [] && IsStripped(r[k])
    ensures forall c :: NoneContains(lines, c) ==> NoneContains(r, c)
    decreases |lines|
  {
    if |lines| == 0 then []
    else
      var rest := CleanLines(lines[1..]);
      assert forall c :: NoneContains(lines, c) ==> NoneContains(lines[1..], c) && c !in Strip(lines[0]) by {
        forall c | NoneContains(lines, c)
          ensures NoneContains(lines[1..], c) && c !in Strip(lines[0])
        {
          StripKeepsOut(lines[0], c);
        }
      }
      if Blank(lines[0]) then rest else [Strip(lines[0])] + rest
  }

  /** The prompts one form submission yields. */
  function NormalisePrompts(raw: string): (prompts: seq<string>)
    ensures forall k :: 0 <= k < |prompts| ==> IsPrompt(prompts[k])
  {
    var lines := Split(Strip(raw), '\n');
    assert NoneContains(lines, '\n');
    CleanLines(lines)
  }

  /** Cleaning a concatenation cleans each part. */
  lemma {:induction false} CleanLinesAppend(a: seq<string>, b: seq<string>)
    ensures CleanLines(a + b) == CleanLines(a) + CleanLines(b)
    decreases |a|
  {
    if |a| == 0 {
      assert a + b == b;
    } else {
      assert (a + b)[1..] == a[1..] + b;
      CleanLinesAppend(a[1..], b);
    }
  }

  /** Leading whitespace of the whole text never changes the cleaned lines. */
  lemma {:induction false} CleanLinesTrimLeft(s: string)
    ensures CleanLines(Split(TrimLeft(s), '\n')) == CleanLines(Split(s, '\n'))
    decreases |s|
  {
    if |s| > 0 && IsSpace(s[0]) {
      CleanLinesTrimLeft(s[1..]);
      CleanLinesDropFirstSpace(s);
    }
  }

  /** One leading whitespace character never changes the cleaned lines: a
      leading line feed only adds a blank line, any other whitespace is
      stripped from the first line. */
  lemma CleanLinesDropFirstSpace(s: string)
    requires |s| > 0 && IsSpace(s[0])
    ensures CleanLines(Split(s, '\n')) == CleanLines(Split(s[1..], '\n'))
  {
    var rest := Split(s[1..], '\n');
    SplitCons(s, '\n');
    if s[0] == '\n' {
      assert Split(s, '\n') == [""] + rest;
      assert Blank("");
      assert ([""] + rest)[1..] == rest;
    } else {
      var first := [s[0]] + rest[0];
      assert Split(s, '\n') == [first] + rest[1..];
      StripConsSpace(s[0], rest[0]);
      assert ([first] + rest[1..])[1..] == rest[1..];
      assert rest == [rest[0]] + rest[1..];
      CleanLinesAppend([rest[0]], rest[1..]);
      CleanLinesAppend([first], rest[1..]);
    }
  }

  /** Trailing whitespace of the whole text never changes the cleaned lines. */
  lemma {:induction false} CleanLinesTrimRight(s: string)
    ensures CleanLines(Split(TrimRight(s), '\n')) == CleanLines(Split(s, '\n'))
    decreases |s|
  {
    if |s| > 0 && IsSpace(s[|s| - 1]) {
      var init := s[..|s| - 1];
      var c := s[|s| - 1];
      assert s == init + [c];
      assert TrimRight(s) == TrimRight(init);
      CleanLinesDropLastSpace(init, c);
      CleanLinesTrimRight(init);
    }
  }

  /** One trailing whitespace character never changes the cleaned lines: a
      trailing line feed only adds a blank line, any other whitespace is
      stripped from the last line. */
  lemma CleanLinesDropLastSpace(s: string, c: char)
    requires IsSpace(c)
    ensures CleanLines(Split(s + [c], '\n')) == CleanLines(Split(s, '\n'))
  {
    if c == '\n' {
      CleanLinesDropLastNewline(s);
    } else {
      CleanLinesDropLastPlainSpace(s, c);
    }
  }

  lemma CleanLinesSingle(x: string)
    ensures CleanLines([x]) == if Blank(x) then [] else [Strip(x)]
  {
    assert [x][1..] == [];
  }

  lemma CleanLinesDropLastNewline(s: string)
    ensures CleanLines(Split(s + ['\n'], '\n')) == CleanLines(Split(s, '\n'))
  {
    var p := Split(s, '\n');
    SplitAppend(s, "", '\n');
    assert s + ['\n'] + "" == s + ['\n'];
    assert Split("", '\n') == [""];
    assert Split(s + ['\n'], '\n') == p + [""];
    CleanLinesAppend(p, [""]);
    CleanLinesSingle("");
  }

  lemma CleanLinesDropLastPlainSpace(s: string, c: char)
    requires IsSpace(c) && c != '\n'
    ensures CleanLines(Split(s + [c], '\n')) == CleanLines(Split(s, '\n'))
  {
    var p := Split(s, '\n');
    var init := p[..|p| - 1];
    var last := p[|p| - 1];
    assert p == init + [last];
    SplitAppendPlain(s, [c], '\n');
    assert Split(s + [c], '\n') == init + [last + [c]];
    CleanLinesAppend(init, [last + [c]]);
    CleanLinesAppend(init, [last]);
    StripSnocSpace(last, c);
    CleanLinesSingle(last + [c]);
    CleanLinesSingle(last);
  }

  /** The outer strip is redundant: the prompts are the non-blank stripped
      lines of the raw text itself. */
  lemma LineWise(raw: string)
    ensures NormalisePrompts(raw) == CleanLines(Split(raw, '\n'))
  {
    CleanLinesTrimRight(TrimLeft(raw));
    CleanLinesTrimLeft(raw);
  }

  /** Two texts joined by a line feed yield the prompts of the first followed
      by those of the second. */
  lemma NormaliseConcat(a: string, b: string)
    ensures NormalisePrompts(a + "\n" + b) == NormalisePrompts(a) + NormalisePrompts(b)
  {
    LineWise(a + "\n" + b);
    LineWise(a);
    LineWise(b);
    SplitAppend(a, b, '\n');
    CleanLinesAppend(Split(a, '\n'), Split(b, '\n'));
  }

  /** A single line yields its stripped self, or nothing when it is blank.
      With NormaliseConcat this determines NormalisePrompts on every text. */
  lemma NormaliseOneLine(line: string)
    requires '\n' !in line
    ensures NormalisePrompts(line) == if Blank(line) then [] else [Strip(line)]
  {
    LineWise(line);
    SplitNoSep(line, '\n');
    CleanLinesSingle(line);
  }

  /** The submission is rejected exactly when the text is all whitespace. */
  lemma NormaliseEmptyIffBlank(raw: string)
    ensures NormalisePrompts(raw) == [] <==> AllSpace(raw)
  {
    var t := Strip(raw);
    var lines := Split(t, '\n');
    if AllSpace(raw) {
      assert t == [];
    } else {
      StripFirst(raw);
      assert t != [] && !IsSpace(t[0]);
      SplitFirst(t, '\n');
      assert lines[0][0] == t[0];
      assert !Blank(lines[0]);
    }
  }

  /** Every position moved one place on. */
  function Shift(xs: seq<nat>): (ys: seq<nat>)
    ensures |ys| == |xs|
    ensures forall k :: 0 <= k < |xs| ==> ys[k] == xs[k] + 1
    ensures forall i :: i in ys <==> 1 <= i && i - 1 in xs
  {
    var ys := seq(|xs|, k requires 0 <= k < |xs| => xs[k] + 1);
    assert forall i :: i in ys ==> 1 <= i && i - 1 in xs by {
      forall i | i in ys
        ensures 1 <= i && i - 1 in xs
      {
        var k :| 0 <= k < |ys| && ys[k] == i;
        assert xs[k] == i - 1;
      }
    }
    assert forall i :: 1 <= i && i - 1 in xs ==> i in ys by {
      forall i | 1 <= i && i - 1 in xs
        ensures i in ys
      {
        var k :| 0 <= k < |xs| && xs[k] == i - 1;
        assert ys[k] == i;
      }
    }
    ys
  }

  /** The positions whose flag is set, in increasing order. */
  function Positions(flags: seq<bool>): (idx: seq<nat>)
    ensures forall k :: 0 <= k < |idx| ==> idx[k] < |flags|
    ensures forall k, m :: 0 <= k < m < |idx| ==> idx[k] < idx[m]
    ensures forall i :: 0 <= i < |flags| ==> (i in idx <==> flags[i])
    decreases |flags|
  {
    if |flags| == 0 then []
    else
      var tail := flags[1..];
      var rest := Positions(tail);
      var shifted := Shift(rest);
      var idx := if flags[0] then [0] + shifted else shifted;
      assert forall i :: 0 <= i < |flags| ==> (i in idx <==> flags[i]) by {
        forall i | 0 <= i < |flags|
          ensures i in idx <==> flags[i]
        {
          if i > 0 {
            assert flags[i] == tail[i - 1];
            assert i in shifted <==> i - 1 in rest;
          }
        }
      }
      idx
  }

  /** Which lines are non-blank. */
  function NonBlankFlags(lines: seq<string>): (flags: seq<bool>)
    ensures |flags| == |lines|
    ensures forall i :: 0 <= i < |lines| ==> flags[i] == !Blank(lines[i])
  {
    seq(|lines|, i requires 0 <= i < |lines| => !Blank(lines[i]))
  }

  /** A blank first line contributes nothing. */
  lemma NormaliseBlankThen(w: string, rest: string)
    requires '\n' !in w && AllSpace(w)
    ensures NormalisePrompts(w + "\n" + rest) == NormalisePrompts(rest)
  {
    NormaliseConcat(w, rest);
    NormaliseOneLine(w);
  }

  /** A first line that is already a prompt is the first prompt. */
  lemma NormalisePromptThen(p: string, rest: string)
    requires IsPrompt(p)
    ensures NormalisePrompts(p + "\n" + rest) == [p] + NormalisePrompts(rest)
  {
    NormaliseConcat(p, rest);
    NormaliseOneLine(p);
    StripStripped(p);
  }

  /** Two prompts around two blank lines yield just the two prompts. */
  lemma NormaliseSkipsBlankLines(p: string, w1: string, w2: string, q: string)
    requires IsPrompt(p) && IsPrompt(q)
    requires '\n' !in w1 && AllSpace(w1)
    requires '\n' !in w2 && AllSpace(w2)
    ensures NormalisePrompts(p + "\n" + w1 + "\n" + w2 + "\n" + q) == [p, q]
  {
    var tail := w2 + "\n" + q;
    var mid := w1 + "\n" + tail;
    assert p + "\n" + w1 + "\n" + w2 + "\n" + q == p + "\n" + mid;
    calc {
      NormalisePrompts(p + "\n" + mid);
      { NormalisePromptThen(p, mid); }
      [p] + NormalisePrompts(mid);
      { NormaliseBlankThen(w1, tail); }
      [p] + NormalisePrompts(tail);
      { NormaliseBlankThen(w2, q); }
      [p] + NormalisePrompts(q);
      { NormaliseOneLine(q); StripStripped(q); }
      [p, q];
    }
  }

  /** Positions (in the line list) of the non-blank lines, in increasing
      order: one position per non-blank line and no other. */
  function NonBlankIndices(lines: seq<string>): (idx: seq<nat>)
    ensures forall k :: 0 <= k < |idx| ==> idx[k] < |lines|
    ensures forall k, m :: 0 <= k < m < |idx| ==> idx[k] < idx[m]
    ensures forall i :: 0 <= i < |lines| ==> (i in idx <==> !Blank(lines[i]))
  {
    Positions(NonBlankFlags(lines))
  }

  /** The lines at the given positions, stripped, in the order of the positions. */
  function StrippedAt(lines: seq<string>, idx: seq<nat>): (r: seq<string>)
    requires forall k :: 0 <= k < |idx| ==> idx[k] < |lines|
    ensures |r| == |idx|
    ensures forall k :: 0 <= k < |idx| ==> r[k] == Strip(lines[idx[k]])
  {
    seq(|idx|, k requires 0 <= k < |idx| => Strip(lines[idx[k]]))
  }

  lemma StrippedAtShift(lines: seq<string>, rest: seq<nat>)
    requires |lines| > 0
    requires forall k :: 0 <= k < |rest| ==> rest[k] < |lines| - 1
    ensures StrippedAt(lines, Shift(rest)) == StrippedAt(lines[1..], rest)
  {
    var a := StrippedAt(lines, Shift(rest));
    var b := StrippedAt(lines[1..], rest);
    forall k | 0 <= k < |rest|
      ensures a[k] == b[k]
    {
      assert lines[rest[k] + 1] == lines[1..][rest[k]];
    }
  }

  lemma StrippedAtCons(lines: seq<string>, xs: seq<nat>)
    requires |lines| > 0
    requires forall k :: 0 <= k < |xs| ==> xs[k] < |lines|
    ensures StrippedAt(lines, [0] + xs) == [Strip(lines[0])] + StrippedAt(lines, xs)
  {
  }

  lemma NonBlankIndicesCons(lines: seq<string>)
    requires |lines| > 0
    ensures NonBlankIndices(lines)
         == (if Blank(lines[0]) then [] else [0]) + Shift(NonBlankIndices(lines[1..]))
  {
    assert NonBlankFlags(lines)[1..] == NonBlankFlags(lines[1..]);
  }

  /** The cleaned lines are exactly the non-blank lines, stripped, in their
      original order: the k-th prompt comes from the k-th non-blank line, so
      there are as many prompts as non-blank lines. */
  lemma {:induction false} CleanLinesIndexed(lines: seq<string>)
    ensures CleanLines(lines) == StrippedAt(lines, NonBlankIndices(lines))
    decreases |lines|
  {
    if |lines| > 0 {
      var tail := lines[1..];
      var rest := NonBlankIndices(tail);
      CleanLinesIndexed(tail);
      NonBlankIndicesCons(lines);
      StrippedAtShift(lines, rest);
      assert CleanLines(tail) == StrippedAt(lines, Shift(rest));
      if Blank(lines[0]) {
        assert CleanLines(lines) == CleanLines(tail);
        assert NonBlankIndices(lines) == Shift(rest);
      } else {
        assert CleanLines(lines) == [Strip(lines[0])] + CleanLines(tail);
        assert NonBlankIndices(lines) == [0] + Shift(rest);
        StrippedAtCons(lines, Shift(rest));
      }
    }
  }

  /** The prompts of a text, indexed against its lines: NormalisePrompts(raw)
      lists the non-blank lines of `raw`, stripped, in order, one each (the
      positions are exactly the non-blank lines, increasing, by the contract
      of NonBlankIndices). */
  lemma NormaliseIndexed(raw: string)
    ensures var lines := Split(raw, '\n');
            NormalisePrompts(raw) == StrippedAt(lines, NonBlankIndices(lines))
  {
    LineWise(raw);
    CleanLinesIndexed(Split(raw, '\n'));
  }

  /** Whitespace at the very end of the text never changes the prompts. */
  lemma NormaliseDropTrailingSpace(a: string, c: char)
    requires IsSpace(c)
    ensures NormalisePrompts(a + [c]) == NormalisePrompts(a)
  {
    LineWise(a + [c]);
    LineWise(a);
    CleanLinesDropLastSpace(a, c);
  }

  /** Carriage returns left by browsers that submit CRLF line ends disappear
      with the rest of the per-line whitespace. */
  lemma CarriageReturnsIgnored(a: string, b: string)
    ensures NormalisePrompts(a + "\r\n" + b) == NormalisePrompts(a + "\n" + b)
  {
    var ar := a + "\r";
    assert a + "\r\n" + b == ar + "\n" + b;
    calc {
      NormalisePrompts(ar + "\n" + b);
      { NormaliseConcat(ar, b); }
      NormalisePrompts(ar) + NormalisePrompts(b);
      { NormaliseDropTrailingSpace(a, '\r'); }
      NormalisePrompts(a) + NormalisePrompts(b);
      { NormaliseConcat(a, b); }
      NormalisePrompts(a + "\n" + b);
    }
  }
}
