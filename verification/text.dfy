/**
 * The few Python string operations the bot relies on: `str.split()` (on runs of
 * whitespace), `str.split(sep)` and `str.split(sep, 1)`, `sep.join(...)`,
 * `str.strip()`, `str.replace(old, new)` and `str.startswith(prefix)`.
 */
module Text {
  import opened Wrappers

  /** Python's `str.isspace()` on one character: the separators of `split()` and `strip()`. */
  predicate IsSpace(ch: char) {
    || ch == ' '
    || '\t' <= ch <= '\r'
    || '\U{1C}' <= ch <= '\U{1F}'
    || ch == '\U{85}' || ch == '\U{A0}' || ch == '\U{1680}'
    || '\U{2000}' <= ch <= '\U{200A}'
    || ch == '\U{2028}' || ch == '\U{2029}' || ch == '\U{202F}' || ch == '\U{205F}' || ch == '\U{3000}'
  }

  predicate NoSpace(s: string) {
    forall i :: 0 <= i < |s| ==> !IsSpace(s[i])
  }

  /** The first index from `i` on that does not hold whitespace, or `|s|` when there is none. */
  function SkipSpace(s: string, i: nat): (j: nat)
    requires i <= |s|
    ensures i <= j <= |s|
    ensures forall k :: i <= k < j ==> IsSpace(s[k])
    ensures j == |s| || !IsSpace(s[j])
    decreases |s| - i
  {
    if i == |s| || !IsSpace(s[i]) then i else SkipSpace(s, i + 1)
  }

  /** The first index from `i` on that holds whitespace, or `|s|` when there is none. */
  function SkipWord(s: string, i: nat): (j: nat)
    requires i <= |s|
    ensures i <= j <= |s|
    ensures forall k :: i <= k < j ==> !IsSpace(s[k])
    ensures j == |s| || IsSpace(s[j])
    decreases |s| - i
  {
    if i == |s| || IsSpace(s[i]) then i else SkipWord(s, i + 1)
  }

  /** The end of `s[..j]` once its trailing whitespace is cut: everything from there to `j` is whitespace. */
  function SkipTrailingSpace(s: string, j: nat): (i: nat)
    requires j <= |s|
    ensures i <= j
    ensures forall k :: i <= k < j ==> IsSpace(s[k])
    ensures i == 0 || !IsSpace(s[i - 1])
  {
    if j == 0 || !IsSpace(s[j - 1]) then j else SkipTrailingSpace(s, j - 1)
  }

  /** Python's `s.split()`: the maximal runs of non-whitespace characters, in order. */
  function Words(s: string): (r: seq<string>)
    ensures forall i :: 0 <= i < |r| ==> r[i] != [] && NoSpace(r[i])
    decreases |s|
  {
    var a := SkipSpace(s, 0);
    if a == |s| then []
    else
      var b := SkipWord(s, a);
      var rest := Words(s[b..]);
      PieceIsWord(s, a, b);
      WordsCons(s[a..b], rest);
      [s[a..b]] + rest
  }

  /** A non-empty stretch of `s` without whitespace is a word. */
  lemma PieceIsWord(s: string, a: nat, b: nat)
    requires a < b <= |s|
    requires forall k :: a <= k < b ==> !IsSpace(s[k])
    ensures s[a..b] != [] && NoSpace(s[a..b])
  {
    forall k | 0 <= k < b - a ensures !IsSpace(s[a..b][k]) {
      assert s[a..b][k] == s[a + k];
    }
  }

  /** A word put in front of a list of words gives a list of words. */
  lemma WordsCons(w: string, ws: seq<string>)
    requires w != [] && NoSpace(w)
    requires forall i :: 0 <= i < |ws| ==> ws[i] != [] && NoSpace(ws[i])
    ensures forall i :: 0 <= i < |[w] + ws| ==> ([w] + ws)[i] != [] && NoSpace(([w] + ws)[i])
  {
    forall i | 0 <= i < |[w] + ws| ensures ([w] + ws)[i] != [] && NoSpace(([w] + ws)[i]) {
      if i > 0 {
        assert ([w] + ws)[i] == ws[i - 1];
      }
    }
  }

  /** A stretch without whitespace from `i` to `n`, ended by whitespace or the end of `s`, is where the scan stops. */
  lemma {:induction false} SkipWordTo(s: string, i: nat, n: nat)
    requires i <= n <= |s|
    requires forall k :: i <= k < n ==> !IsSpace(s[k])
    requires n == |s| || IsSpace(s[n])
    ensures SkipWord(s, i) == n
    decreases n - i
  {
    if i < n {
      SkipWordTo(s, i + 1, n);
    }
  }

  /** Scanning whitespace behind a prefix `p` is scanning it in the rest, shifted by `|p|`. */
  lemma {:induction false} SkipSpaceShift(p: string, s: string, i: nat)
    requires i <= |s|
    ensures SkipSpace(p + s, |p| + i) == |p| + SkipSpace(s, i)
    decreases |s| - i
  {
    if i < |s| {
      assert (p + s)[|p| + i] == s[i];
      if IsSpace(s[i]) {
        SkipSpaceShift(p, s, i + 1);
      }
    }
  }

  /** Scanning a word behind a prefix `p` is scanning it in the rest, shifted by `|p|`. */
  lemma {:induction false} SkipWordShift(p: string, s: string, i: nat)
    requires i <= |s|
    ensures SkipWord(p + s, |p| + i) == |p| + SkipWord(s, i)
    decreases |s| - i
  {
    if i < |s| {
      assert (p + s)[|p| + i] == s[i];
      if !IsSpace(s[i]) {
        SkipWordShift(p, s, i + 1);
      }
    }
  }

  /** Text that starts with a word, then ends or continues with whitespace, splits at the end of that word. */
  lemma WordsOfWordThen(w: string, tail: string)
    requires w != [] && NoSpace(w)
    requires tail == [] || IsSpace(tail[0])
    ensures Words(w + tail) == [w] + Words(tail)
  {
    var s := w + tail;
    assert s[0] == w[0];
    assert SkipSpace(s, 0) == 0;
    forall k | 0 <= k < |w| ensures !IsSpace(s[k]) {
      assert s[k] == w[k];
    }
    if tail != [] {
      assert s[|w|] == tail[0];
    }
    SkipWordTo(s, 0, |w|);
    assert s[0..|w|] == w && s[|w|..] == tail;
  }

  /** The first word of `s` runs from `a` to `b`; the words of the rest follow it. */
  lemma WordsStep(s: string, a: nat, b: nat)
    requires a == SkipSpace(s, 0) && a < |s| && b == SkipWord(s, a)
    ensures Words(s) == [s[a..b]] + Words(s[b..])
  {
  }

  /** Text that is whitespace only has no words. */
  lemma WordsNone(s: string)
    requires SkipSpace(s, 0) == |s|
    ensures Words(s) == []
  {
  }

  lemma SkipSpaceCons(ch: char, s: string)
    requires IsSpace(ch)
    ensures SkipSpace([ch] + s, 0) == 1 + SkipSpace(s, 0)
  {
    assert ([ch] + s)[0] == ch;
    SkipSpaceShift([ch], s, 0);
  }

  lemma SliceCons(ch: char, s: string, a: nat, b: nat)
    requires a <= b <= |s|
    ensures ([ch] + s)[1 + a..1 + b] == s[a..b] && ([ch] + s)[1 + b..] == s[b..]
  {
  }

  /** Leading whitespace does not change the words. */
  lemma WordsSkipSpace(ch: char, s: string)
    requires IsSpace(ch)
    ensures Words([ch] + s) == Words(s)
  {
    var t := [ch] + s;
    SkipSpaceCons(ch, s);
    var a := SkipSpace(s, 0);
    if a < |s| {
      var b := SkipWord(s, a);
      SkipWordShift([ch], s, a);
      WordsStep(t, 1 + a, 1 + b);
      WordsStep(s, a, b);
      SliceCons(ch, s, a, b);
    } else {
      WordsNone(t);
      WordsNone(s);
    }
  }

  /** A single word splits into itself. */
  lemma WordsOfOne(w: string)
    requires w != [] && NoSpace(w)
    ensures Words(w) == [w]
  {
    WordsOfWordThen(w, []);
    assert w + [] == w;
    assert Words([]) == [];
  }

  lemma JoinCons(xs: seq<string>)
    requires |xs| > 1
    ensures JoinWith(xs, ' ') == xs[0] + ([' '] + JoinWith(xs[1..], ' '))
  {
  }

  /** A word, a blank and more text: the word, then the words of the rest. */
  lemma WordsOfWordBlank(w: string, rest: string, ws: seq<string>)
    requires w != [] && NoSpace(w) && Words(rest) == ws
    ensures Words(w + ([' '] + rest)) == [w] + ws
  {
    assert IsSpace(' ');
    WordsOfWordThen(w, [' '] + rest);
    WordsSkipSpace(' ', rest);
  }

  lemma WordsOfJoinMany(xs: seq<string>)
    requires |xs| > 1
    requires xs[0] != [] && NoSpace(xs[0])
    requires Words(JoinWith(xs[1..], ' ')) == xs[1..]
    ensures Words(JoinWith(xs, ' ')) == xs
  {
    var joined := JoinWith(xs[1..], ' ');
    JoinCons(xs);
    WordsOfWordBlank(xs[0], joined, xs[1..]);
    assert [xs[0]] + xs[1..] == xs;
  }

  /** `split()` undoes `' '.join(xs)` when every piece is a non-empty word. */
  lemma {:induction false} WordsOfJoin(xs: seq<string>)
    requires forall i :: 0 <= i < |xs| ==> xs[i] != [] && NoSpace(xs[i])
    ensures Words(JoinWith(xs, ' ')) == xs
  {
    if |xs| == 1 {
      WordsOfOne(xs[0]);
      assert xs == [xs[0]];
    } else if |xs| > 1 {
      WordsOfJoin(xs[1..]);
      WordsOfJoinMany(xs);
    } else {
      assert Words([]) == [];
    }
  }

  /** The concatenation of a list of strings (Python's `''.join(xs)`). */
  function Concat(xs: seq<string>): string {
    if xs == [] then [] else xs[0] + Concat(xs[1..])
  }

  /** The characters of `s` that are not whitespace, in order. */
  function Visible(s: string): string {
    if s == [] then [] else (if IsSpace(s[0]) then [] else [s[0]]) + Visible(s[1..])
  }

  lemma {:induction false} VisibleAppend(a: string, b: string)
    ensures Visible(a + b) == Visible(a) + Visible(b)
  {
    if a != [] {
      var head := if IsSpace(a[0]) then [] else [a[0]];
      assert (a + b)[0] == a[0] && (a + b)[1..] == a[1..] + b;
      VisibleAppend(a[1..], b);
      calc {
        Visible(a + b);
        head + Visible(a[1..] + b);
        head + (Visible(a[1..]) + Visible(b));
        (head + Visible(a[1..])) + Visible(b);
        Visible(a) + Visible(b);
      }
    } else {
      assert a + b == b;
    }
  }

  lemma {:induction false} VisibleOfSpaces(s: string)
    requires forall i :: 0 <= i < |s| ==> IsSpace(s[i])
    ensures Visible(s) == []
  {
    if s != [] {
      VisibleOfSpaces(s[1..]);
    }
  }

  lemma {:induction false} VisibleOfWord(s: string)
    requires NoSpace(s)
    ensures Visible(s) == s
  {
    if s != [] {
      VisibleOfWord(s[1..]);
    }
  }

  /** A stretch of whitespace is invisible. */
  lemma SkipInvisible(s: string, i: nat, j: nat)
    requires i <= j <= |s|
    requires forall k :: i <= k < j ==> IsSpace(s[k])
    ensures Visible(s[i..]) == Visible(s[j..])
  {
    assert s[i..] == s[i..j] + s[j..];
    VisibleAppend(s[i..j], s[j..]);
    forall k | 0 <= k < j - i ensures IsSpace(s[i..j][k]) {
      assert s[i..j][k] == s[i + k];
    }
    VisibleOfSpaces(s[i..j]);
    assert [] + Visible(s[j..]) == Visible(s[j..]);
  }

  /** A stretch without whitespace is visible as it is. */
  lemma WordVisible(s: string, i: nat, j: nat)
    requires i <= j <= |s|
    requires forall k :: i <= k < j ==> !IsSpace(s[k])
    ensures Visible(s[i..]) == s[i..j] + Visible(s[j..])
  {
    assert s[i..] == s[i..j] + s[j..];
    VisibleAppend(s[i..j], s[j..]);
    forall k | 0 <= k < j - i ensures !IsSpace(s[i..j][k]) {
      assert s[i..j][k] == s[i + k];
    }
    VisibleOfWord(s[i..j]);
  }

  /** Splitting on whitespace loses nothing but the whitespace itself. */
  lemma {:induction false} WordsKeepText(s: string)
    ensures Concat(Words(s)) == Visible(s)
    decreases |s|
  {
    var a := SkipSpace(s, 0);
    SkipInvisible(s, 0, a);
    assert s[0..] == s;
    if a < |s| {
      var b := SkipWord(s, a);
      WordVisible(s, a, b);
      WordsKeepText(s[b..]);
      assert Words(s) == [s[a..b]] + Words(s[b..]);
      assert Concat([s[a..b]] + Words(s[b..])) == s[a..b] + Concat(Words(s[b..]));
    } else {
      assert s[a..] == [];
    }
  }

  lemma {:induction false} VisibleOmits(s: string, c: char)
    requires c !in s
    ensures c !in Visible(s)
  {
    if s != [] {
      assert c !in s[1..];
      VisibleOmits(s[1..], c);
    }
  }

  lemma {:induction false} ConcatOmits(xs: seq<string>, c: char)
    requires c !in Concat(xs)
    ensures forall i :: 0 <= i < |xs| ==> c !in xs[i]
  {
    if xs != [] {
      ConcatOmits(xs[1..], c);
      forall i | 0 <= i < |xs| ensures c !in xs[i] {
        if i > 0 {
          assert xs[i] == xs[1..][i - 1];
        }
      }
    }
  }

  /** A character absent from `s` is absent from every word of `s`. */
  lemma WordsOmit(s: string, c: char)
    requires c !in s
    ensures forall i :: 0 <= i < |Words(s)| ==> c !in Words(s)[i]
  {
    VisibleOmits(s, c);
    WordsKeepText(s);
    ConcatOmits(Words(s), c);
  }

  /** Python's `sep.join(xs)` for a one-character separator. */
  function JoinWith(xs: seq<string>, sep: char): string {
    if xs == [] then []
    else if |xs| == 1 then xs[0]
    else xs[0] + [sep] + JoinWith(xs[1..], sep)
  }

  /** Python's `s.split(sep)` for a one-character separator: always at least one piece. */
  function SplitOn(s: string, sep: char): (r: seq<string>)
    ensures |r| >= 1
    ensures forall i :: 0 <= i < |r| ==> sep !in r[i]
  {
    if s == [] then [[]]
    else
      var rest := SplitOn(s[1..], sep);
      if s[0] == sep then [[]] + rest
      else [[s[0]] + rest[0]] + rest[1..]
  }

  /** A piece free of the separator merges into the first piece of what follows it. */
  lemma {:induction false} SplitOnPrefix(w: string, tail: string, sep: char)
    requires sep !in w
    ensures SplitOn(w + tail, sep) == [w + SplitOn(tail, sep)[0]] + SplitOn(tail, sep)[1..]
  {
    if w != [] {
      assert (w + tail)[0] == w[0] && (w + tail)[1..] == w[1..] + tail;
      SplitOnPrefix(w[1..], tail, sep);
      var pieces, later := SplitOn(tail, sep), SplitOn(w[1..] + tail, sep);
      assert w[0] != sep;
      assert SplitOn(w + tail, sep) == [[w[0]] + later[0]] + later[1..];
      assert [w[0]] + (w[1..] + pieces[0]) == w + pieces[0];
    } else {
      var pieces := SplitOn(tail, sep);
      assert w + tail == tail && w + pieces[0] == pieces[0];
      assert [pieces[0]] + pieces[1..] == pieces;
    }
  }

  /** Splitting what was joined gives back the pieces, provided none holds the separator. */
  lemma {:induction false} SplitJoin(xs: seq<string>, sep: char)
    requires |xs| >= 1
    requires forall i :: 0 <= i < |xs| ==> sep !in xs[i]
    ensures SplitOn(JoinWith(xs, sep), sep) == xs
  {
    if |xs| == 1 {
      SplitOnPrefix(xs[0], [], sep);
      assert xs[0] + [] == xs[0];
    } else {
      var tail := [sep] + JoinWith(xs[1..], sep);
      assert JoinWith(xs, sep) == xs[0] + tail;
      SplitOnPrefix(xs[0], tail, sep);
      assert tail[1..] == JoinWith(xs[1..], sep);
      SplitJoin(xs[1..], sep);
      assert SplitOn(tail, sep) == [[]] + xs[1..];
      assert xs[0] + [] == xs[0];
      assert [xs[0]] + xs[1..] == xs;
    }
  }

  /** Joining after gluing `a` onto the first piece is gluing `a` onto the join. */
  lemma JoinPrepend(a: string, xs: seq<string>, sep: char)
    requires |xs| >= 1
    ensures JoinWith([a + xs[0]] + xs[1..], sep) == a + JoinWith(xs, sep)
  {
    var ys := [a + xs[0]] + xs[1..];
    assert ys[0] == a + xs[0] && ys[1..] == xs[1..];
    if |xs| > 1 {
      assert JoinWith(ys, sep) == (a + xs[0]) + [sep] + JoinWith(xs[1..], sep);
      assert JoinWith(xs, sep) == xs[0] + [sep] + JoinWith(xs[1..], sep);
    }
  }

  /** Joining what was split gives back the string. */
  lemma {:induction false} JoinSplit(s: string, sep: char)
    ensures JoinWith(SplitOn(s, sep), sep) == s
  {
    if s != [] {
      var rest := SplitOn(s[1..], sep);
      JoinSplit(s[1..], sep);
      assert s == [s[0]] + s[1..];
      if s[0] == sep {
        assert SplitOn(s, sep) == [[]] + rest;
        assert JoinWith([[]] + rest, sep) == [] + [sep] + JoinWith(rest, sep);
      } else {
        assert SplitOn(s, sep) == [[s[0]] + rest[0]] + rest[1..];
        JoinPrepend([s[0]], rest, sep);
      }
    }
  }

  /**
   * Python's `s.strip()`: the slice of `s` left after removing whitespace from both
   * ends, which then neither starts nor ends with whitespace.
   */
  function Strip(s: string): (r: string)
    ensures TrimOf(r, s)
    ensures NoOuterSpace(r)
    ensures NoSpace(s) ==> r == s
  {
    var i := SkipSpace(s, 0);
    var j := SkipTrailingSpace(s, |s|);
    var r := if i < j then s[i..j] else [];
    StripOfNoSpace(s);
    StripFacts(s, i, j, r);
    r
  }

  /** Cutting the leading whitespace up to `i` and the trailing whitespace from `j` leaves a slice of `s` trimmed of whitespace. */
  lemma StripFacts(s: string, i: nat, j: nat, r: string)
    requires i <= |s| && j <= |s|
    requires forall k :: 0 <= k < i ==> IsSpace(s[k])
    requires forall k :: j <= k < |s| ==> IsSpace(s[k])
    requires i == |s| || !IsSpace(s[i])
    requires j == 0 || !IsSpace(s[j - 1])
    requires r == if i < j then s[i..j] else []
    requires NoSpace(s) ==> i == 0 && j == |s|
    ensures TrimOf(r, s)
    ensures NoOuterSpace(r)
    ensures NoSpace(s) ==> r == s
  {
    if i < j {
      assert Trimmed(s, i, j);
      assert r[0] == s[i] && r[|r| - 1] == s[j - 1];
    } else {
      assert Trimmed(s, i, i) && s[i..i] == [];
    }
    if NoSpace(s) && s != [] {
      assert s[0..|s|] == s;
    }
  }

  /** Text without whitespace has nothing to cut at either end. */
  lemma StripOfNoSpace(s: string)
    ensures NoSpace(s) ==> SkipSpace(s, 0) == 0 && SkipTrailingSpace(s, |s|) == |s|
  {
    if NoSpace(s) {
      SkipSpaceTo(s, 0, 0);
      SkipTrailingSpaceTo(s, |s|, |s|);
    }
  }

  /** A stretch of whitespace from `i` to `n`, ended by a visible character or the end of `s`, is where the scan stops. */
  lemma {:induction false} SkipSpaceTo(s: string, i: nat, n: nat)
    requires i <= n <= |s|
    requires forall k :: i <= k < n ==> IsSpace(s[k])
    requires n == |s| || !IsSpace(s[n])
    ensures SkipSpace(s, i) == n
    decreases n - i
  {
    if i < n {
      SkipSpaceTo(s, i + 1, n);
    }
  }

  /** A stretch of whitespace from `n` to `j`, preceded by a visible character or the start of `s`, is where the backward scan stops. */
  lemma {:induction false} SkipTrailingSpaceTo(s: string, j: nat, n: nat)
    requires n <= j <= |s|
    requires forall k :: n <= k < j ==> IsSpace(s[k])
    requires n == 0 || !IsSpace(s[n - 1])
    ensures SkipTrailingSpace(s, j) == n
    decreases j - n
  {
    if n < j {
      SkipTrailingSpaceTo(s, j - 1, n);
    }
  }

  /** `strip()` removes exactly the whitespace padding around text that starts and ends visibly. */
  lemma StripPadded(p: string, w: string, q: string)
    requires forall k :: 0 <= k < |p| ==> IsSpace(p[k])
    requires forall k :: 0 <= k < |q| ==> IsSpace(q[k])
    requires w != [] && !IsSpace(w[0]) && !IsSpace(w[|w| - 1])
    ensures Strip(p + w + q) == w
  {
    var s := p + w + q;
    var e := |p| + |w|;
    forall k | 0 <= k < |p| ensures IsSpace(s[k]) {
      assert s[k] == p[k];
    }
    forall k | e <= k < |s| ensures IsSpace(s[k]) {
      assert s[k] == q[k - e];
    }
    assert s[|p|] == w[0] && s[e - 1] == w[|w| - 1];
    SkipSpaceTo(s, 0, |p|);
    SkipTrailingSpaceTo(s, |s|, e);
    assert s[|p|..e] == w;
  }

  /** `r` neither starts nor ends with whitespace. */
  predicate NoOuterSpace(r: string) {
    r == [] || (!IsSpace(r[0]) && !IsSpace(r[|r| - 1]))
  }

  /** `r` is a slice of `s` with only whitespace before and after it. */
  predicate TrimOf(r: string, s: string) {
    exists i, j :: 0 <= i <= j <= |s| && r == s[i..j] && Trimmed(s, i, j)
  }

  /** Everything of `s` before index `i` and from index `j` on is whitespace. */
  predicate Trimmed(s: string, i: nat, j: nat)
    requires i <= j <= |s|
  {
    && (forall k :: 0 <= k < i ==> IsSpace(s[k]))
    && (forall k :: j <= k < |s| ==> IsSpace(s[k]))
  }

  /** Python's `s.replace(from, to)` for single characters. */
  function Replace(s: string, from: char, to: char): (r: string)
    ensures |r| == |s|
    ensures forall i :: 0 <= i < |s| ==> r[i] == (if s[i] == from then to else s[i])
  {
    if s == [] then [] else [if s[0] == from then to else s[0]] + Replace(s[1..], from, to)
  }

  lemma {:induction false} ReplaceAppend(a: string, b: string, from: char, to: char)
    ensures Replace(a + b, from, to) == Replace(a, from, to) + Replace(b, from, to)
  {
    if a == [] {
      assert a + b == b;
    } else {
      assert (a + b)[0] == a[0] && (a + b)[1..] == a[1..] + b;
      ReplaceAppend(a[1..], b, from, to);
    }
  }

  /** Replacing the separator of a join by another separator joins the same pieces by the other one. */
  lemma {:induction false} ReplaceJoin(xs: seq<string>, sep: char, other: char)
    requires forall i :: 0 <= i < |xs| ==> sep !in xs[i]
    ensures Replace(JoinWith(xs, sep), sep, other) == JoinWith(xs, other)
  {
    if |xs| >= 1 {
      var w := xs[0];
      assert Replace(w, sep, other) == w;
    }
    if |xs| > 1 {
      ReplaceJoin(xs[1..], sep, other);
      ReplaceAppend(xs[0] + [sep], JoinWith(xs[1..], sep), sep, other);
      ReplaceAppend(xs[0], [sep], sep, other);
    }
  }

  /** Python's `s.startswith(p)`. */
  predicate StartsWith(s: string, p: string) {
    |p| <= |s| && s[..|p|] == p
  }

  /** Python's `s.split(c, 1)[1]`: what follows the first `c`; `None` where Python raises `IndexError`. */
  function AfterFirst(s: string, c: char): (r: Option<string>)
    ensures r.Some? <==> c in s
    ensures r.Some? ==> |r.value| < |s| && r.value == s[|s| - |r.value|..]
    ensures r.Some? ==> s[|s| - |r.value| - 1] == c && c !in s[..|s| - |r.value| - 1]
  {
    if s == [] then None
    else if s[0] == c then Some(s[1..])
    else AfterFirst(s[1..], c)
  }

  /** The first `c` of `p + rest` is the last character of `p` when `p` holds no earlier `c`. */
  lemma {:induction false} AfterFirstOfPrefix(p: string, rest: string, c: char)
    requires |p| >= 1 && p[|p| - 1] == c && c !in p[..|p| - 1]
    ensures AfterFirst(p + rest, c) == Some(rest)
  {
    if |p| > 1 {
      assert p[0] in p[..|p| - 1];
      assert (p + rest)[1..] == p[1..] + rest;
      assert p[1..][..|p| - 2] == p[1..|p| - 1];
      AfterFirstOfPrefix(p[1..], rest, c);
    } else {
      assert p + rest == [c] + rest;
    }
  }
}
