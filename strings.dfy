/**
 * The Python string operations the share-link parser relies on:
 * `str.split(sep)` with a one-character separator and no limit, the
 * position of the first or last occurrence of a character (what
 * `str.partition` and `str.rpartition` cut at), `str.strip()` and the
 * trimming `int()` does, and `str.lower()` restricted to ASCII.
 */
module Strings {

  /** Index of the first `c` in `s`, or `|s|` when `s` has none. */
  function IndexOf(s: string, c: char): (i: nat)
    ensures i <= |s|
    ensures i < |s| ==> s[i] == c
    ensures forall k :: 0 <= k < i ==> s[k] != c
    decreases |s|
  {
    if s == [] then 0
    else if s[0] == c then 0
    else
      var i := 1 + IndexOf(s[1..], c);
      assert forall k :: 1 <= k < i ==> s[k] == s[1..][k - 1];
      i
  }

  /** Index of the last `c` in `s` (where `str.rpartition` cuts). */
  function LastIndexOf(s: string, c: char): (i: nat)
    requires c in s
    ensures i < |s| && s[i] == c
    ensures forall k :: i < k < |s| ==> s[k] != c
    decreases |s|
  {
    if s[|s| - 1] == c then |s| - 1
    else
      assert c in s[..|s| - 1] by {
        var k :| 0 <= k < |s| && s[k] == c;
        assert s[..|s| - 1][k] == c;
      }
      LastIndexOf(s[..|s| - 1], c)
  }

  /** `s.split(c)`: the pieces between the occurrences of `c`, in order. */
  function Split(s: string, c: char): (parts: seq<string>)
    ensures |parts| >= 1
    decreases |s|
  {
    var i := IndexOf(s, c);
    if i == |s| then [s] else [s[..i]] + Split(s[i + 1..], c)
  }

  /** The first piece is the text before the first `c`; it is the only piece exactly when `c` does not occur. */
  lemma {:induction false} SplitFirst(s: string, c: char)
    ensures Split(s, c)[0] == s[..IndexOf(s, c)]
    ensures |Split(s, c)| == 1 <==> c !in s
  {
    var i := IndexOf(s, c);
    if i == |s| {
      assert s[..i] == s;
    } else {
      assert Split(s, c) == [s[..i]] + Split(s[i + 1..], c);
    }
  }

  /** No piece of a split holds the separator. */
  lemma {:induction false} SplitPiecesFree(s: string, c: char)
    ensures forall k :: 0 <= k < |Split(s, c)| ==> c !in Split(s, c)[k]
    decreases |s|
  {
    var i := IndexOf(s, c);
    if i < |s| {
      var tail := Split(s[i + 1..], c);
      SplitPiecesFree(s[i + 1..], c);
      assert Split(s, c) == [s[..i]] + tail;
      forall k | 1 <= k < |Split(s, c)| ensures c !in Split(s, c)[k] {
        assert Split(s, c)[k] == tail[k - 1];
      }
    }
  }

  /** `c.join(parts)`: the inverse of `Split`. */
  function Join(parts: seq<string>, c: char): string
  {
    if parts == [] then ""
    else if |parts| == 1 then parts[0]
    else parts[0] + [c] + Join(parts[1..], c)
  }

  lemma {:induction false} JoinCons(head: string, parts: seq<string>, c: char)
    requires |parts| >= 1
    ensures Join([head] + parts, c) == head + [c] + Join(parts, c)
  {
    assert ([head] + parts)[1..] == parts;
  }

  /** The text around position `i`, put back together. */
  lemma {:induction false} Recompose(s: string, i: nat)
    requires i < |s|
    ensures s == s[..i] + [s[i]] + s[i + 1..]
  {
    assert s[i..] == [s[i]] + s[i + 1..];
    assert s == s[..i] + s[i..];
  }

  /** Splitting and joining again gives back the original text. */
  lemma {:induction false} JoinSplit(s: string, c: char)
    ensures Join(Split(s, c), c) == s
    decreases |s|
  {
    var i := IndexOf(s, c);
    if i < |s| {
      var rest := s[i + 1..];
      var tail := Split(rest, c);
      assert Split(s, c) == [s[..i]] + tail;
      JoinCons(s[..i], tail, c);
      JoinSplit(rest, c);
      Recompose(s, i);
    } else {
      assert Split(s, c) == [s];
    }
  }

  /** Joining pieces free of `c` and splitting again gives back the pieces. */
  lemma {:induction false} SplitJoin(parts: seq<string>, c: char)
    requires |parts| >= 1
    requires forall k :: 0 <= k < |parts| ==> c !in parts[k]
    ensures Split(Join(parts, c), c) == parts
    decreases |parts|
  {
    if |parts| > 1 {
      var head, tail := parts[0], Join(parts[1..], c);
      var s := head + [c] + tail;
      assert Join(parts, c) == s;
      SplitAfter(head, tail, c);
      SplitJoin(parts[1..], c);
      assert parts == [head] + parts[1..];
    }
  }

  /** Text free of `c`, then `c`, then more: the split takes the text as its first piece and splits the rest. */
  lemma {:induction false} SplitAfter(head: string, tail: string, c: char)
    requires c !in head
    ensures Split(head + [c] + tail, c) == [head] + Split(tail, c)
  {
    var s := head + [c] + tail;
    assert IndexOf(s, c) == |head| by {
      assert s[|head|] == c;
      assert forall k :: 0 <= k < |head| ==> s[k] == head[k];
    }
    assert s[..|head|] == head;
    assert s[|head| + 1..] == tail;
  }

  /** The second piece of `s.split(c)` is the text between the first and the second `c`. */
  lemma {:induction false} SplitSecond(s: string, c: char)
    requires c in s
    ensures |Split(s, c)| >= 2
    ensures Split(s, c)[1] == s[IndexOf(s, c) + 1..][..IndexOf(s[IndexOf(s, c) + 1..], c)]
  {
    var i := IndexOf(s, c);
    assert i < |s| by {
      assert s[..|s|] == s;
    }
    var tail := Split(s[i + 1..], c);
    assert Split(s, c) == [s[..i]] + tail;
  }

  /**
   * The second piece of `s.split(c)` sits right after the first `c` and runs
   * up to the next `c` or to the end, holding no `c` itself.
   */
  lemma {:induction false} SecondPiece(s: string, c: char)
    requires c in s
    ensures |Split(s, c)| >= 2
    ensures var start, p := IndexOf(s, c) + 1, Split(s, c)[1];
      && start + |p| <= |s| && p == s[start..start + |p|]
      && c !in p
      && (start + |p| < |s| ==> s[start + |p|] == c)
  {
    SplitSecond(s, c);
    var start := IndexOf(s, c) + 1;
    var rest := s[start..];
    var j := IndexOf(rest, c);
    assert Split(s, c)[1] == rest[..j];
    assert rest[..j] == s[start..start + j];
    assert j < |rest| ==> rest[j] == s[start + j];
  }

  /** Whose notion of whitespace a trim follows. */
  datatype Blanks =
    | StrBlanks  // `str.strip()`: every ASCII character `str.isspace()` accepts
    | IntBlanks  // `int()`: space, tab, line feed, vertical tab, form feed and carriage return

  /** The ASCII whitespace of `str.isspace()`, which `str.strip()` removes: it includes the separators 0x1C..0x1F. */
  predicate IsSpace(ch: char)
  {
    ch == ' ' || (9 <= ch as int <= 13) || (28 <= ch as int <= 31)
  }

  /** The whitespace `int()` skips around a number, which leaves out the separators 0x1C..0x1F. */
  predicate IsIntSpace(ch: char)
  {
    ch == ' ' || (9 <= ch as int <= 13)
  }

  predicate IsBlank(b: Blanks, ch: char)
  {
    if b.StrBlanks? then IsSpace(ch) else IsIntSpace(ch)
  }

  /** The index of the first character from `i` on that is not whitespace, or `|s|`. */
  function SkipBlanks(s: string, b: Blanks, i: nat): (j: nat)
    requires i <= |s|
    ensures i <= j <= |s|
    ensures forall k :: i <= k < j ==> IsBlank(b, s[k])
    ensures j < |s| ==> !IsBlank(b, s[j])
    decreases |s| - i
  {
    if i < |s| && IsBlank(b, s[i]) then SkipBlanks(s, b, i + 1) else i
  }

  /** The index just after the last character of `s[lo..j]` that is not whitespace, or `lo`. */
  function SkipBlanksBack(s: string, b: Blanks, lo: nat, j: nat): (i: nat)
    requires lo <= j <= |s|
    ensures lo <= i <= j
    ensures forall k :: i <= k < j ==> IsBlank(b, s[k])
    ensures i > lo ==> !IsBlank(b, s[i - 1])
    decreases j
  {
    if j > lo && IsBlank(b, s[j - 1]) then SkipBlanksBack(s, b, lo, j - 1) else j
  }

  /** The text with the whitespace at both ends removed: skip it from the front, then from the back. */
  function Trim(s: string, b: Blanks): string
  {
    var i := SkipBlanks(s, b, 0);
    s[i..SkipBlanksBack(s, b, i, |s|)]
  }

  /** `s.strip()`. */
  function Strip(s: string): string
  {
    Trim(s, StrBlanks)
  }

  /** `r` sits at index `i` of `s`, with nothing but whitespace around it. */
  ghost predicate PaddedBy(s: string, r: string, i: nat, b: Blanks)
  {
    && i + |r| <= |s|
    && s[i..i + |r|] == r
    && (forall k :: 0 <= k < i ==> IsBlank(b, s[k]))
    && (forall k :: i + |r| <= k < |s| ==> IsBlank(b, s[k]))
  }

  /**
   * Trimming removes nothing but the surrounding whitespace: the result sits
   * in `s` after the leading whitespace, and only whitespace follows it.
   */
  lemma {:induction false} TrimSlice(s: string, b: Blanks)
    ensures PaddedBy(s, Trim(s, b), SkipBlanks(s, b, 0), b)
  {
    var i := SkipBlanks(s, b, 0);
    var j := SkipBlanksBack(s, b, i, |s|);
    assert Trim(s, b) == s[i..j];
  }

  /** The text is the trimmed text framed by the whitespace trimming removed. */
  lemma {:induction false} TrimFrame(s: string, b: Blanks) returns (pre: string, post: string)
    ensures s == pre + Trim(s, b) + post
    ensures forall k :: 0 <= k < |pre| ==> IsBlank(b, pre[k])
    ensures forall k :: 0 <= k < |post| ==> IsBlank(b, post[k])
  {
    var t := Trim(s, b);
    var i := SkipBlanks(s, b, 0);
    TrimSlice(s, b);
    pre, post := s[..i], s[i + |t|..];
    forall k | 0 <= k < |pre| ensures IsBlank(b, pre[k]) {
      assert pre[k] == s[k];
    }
    forall k | 0 <= k < |post| ensures IsBlank(b, post[k]) {
      assert post[k] == s[i + |t| + k];
    }
    assert s == s[..i] + s[i..i + |t|] + s[i + |t|..];
  }

  /** Trimming removes all the surrounding whitespace: what is left neither begins nor ends with it. */
  lemma {:induction false} TrimEnds(s: string, b: Blanks)
    ensures var r := Trim(s, b); r == [] || (!IsBlank(b, r[0]) && !IsBlank(b, r[|r| - 1]))
  {
    var i := SkipBlanks(s, b, 0);
    var j := SkipBlanksBack(s, b, i, |s|);
    var r := s[i..j];
    if r != [] {
      assert r[0] == s[i];
      assert r[|r| - 1] == s[j - 1];
    }
  }

  /** Text that neither begins nor ends with whitespace is left alone by trimming. */
  lemma {:induction false} TrimUnchanged(s: string, b: Blanks)
    requires s == [] || (!IsBlank(b, s[0]) && !IsBlank(b, s[|s| - 1]))
    ensures Trim(s, b) == s
  {
    if s != [] {
      assert SkipBlanks(s, b, 0) == 0;
      assert SkipBlanksBack(s, b, 0, |s|) == |s|;
    }
  }

  /** Text framed only by whitespace, and neither beginning nor ending with it, is what trimming gives back. */
  lemma {:induction false} TrimPadded(pre: string, core: string, post: string, b: Blanks)
    requires forall k :: 0 <= k < |pre| ==> IsBlank(b, pre[k])
    requires forall k :: 0 <= k < |post| ==> IsBlank(b, post[k])
    requires core != [] && !IsBlank(b, core[0]) && !IsBlank(b, core[|core| - 1])
    ensures Trim(pre + core + post, b) == core
  {
    var s := pre + core + post;
    var i := SkipBlanks(s, b, 0);
    assert s[|pre|] == core[0];
    assert i == |pre|;
    var j := SkipBlanksBack(s, b, i, |s|);
    assert s[|pre| + |core| - 1] == core[|core| - 1];
    assert j == |pre| + |core|;
    assert s[i..j] == core;
  }

  /** `ch.lower()` for ASCII letters; every other character is kept. */
  function LowerChar(ch: char): char
  {
    if 'A' <= ch <= 'Z' then (ch as int + 32) as char else ch
  }

  /** `s.lower()` over ASCII, which covers every character a URI scheme may hold. */
  function Lower(s: string): string
  {
    seq(|s|, k requires 0 <= k < |s| => LowerChar(s[k]))
  }

  /**
   * The lower-cased text equals the lower-case word `w` exactly when each
   * character of the text is the matching character of `w` in either case.
   */
  lemma {:induction false} LowerMatches(s: string, w: string)
    requires forall k :: 0 <= k < |w| ==> 'a' <= w[k] <= 'z'
    ensures Lower(s) == w <==>
      |s| == |w| && forall k :: 0 <= k < |s| ==> s[k] == w[k] || s[k] as int == w[k] as int - 32
  {
    if Lower(s) == w {
      forall k | 0 <= k < |s| ensures s[k] == w[k] || s[k] as int == w[k] as int - 32 {
        assert LowerChar(s[k]) == w[k];
      }
    }
    if |s| == |w| && forall k :: 0 <= k < |s| ==> s[k] == w[k] || s[k] as int == w[k] as int - 32 {
      forall k | 0 <= k < |s| ensures Lower(s)[k] == w[k] {
        assert LowerChar(s[k]) == w[k];
      }
    }
  }

  /** Lower-casing twice gives what lower-casing once does. */
  lemma {:induction false} LowerTwice(s: string)
    ensures Lower(Lower(s)) == Lower(s)
  {
    forall k | 0 <= k < |s| ensures Lower(Lower(s))[k] == Lower(s)[k] {
      assert Lower(Lower(s))[k] == LowerChar(LowerChar(s[k]));
    }
  }
}
