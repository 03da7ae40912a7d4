/**
 * Python's `int(text)` in base 10 and `str(n)` for integers. `int` skips
 * surrounding whitespace (space and `\t\n\v\f\r` only, not the separators
 * 0x1C..0x1F that `str.strip()` also removes), takes one optional `+` or
 * `-`, then digits in which single underscores may separate two digits;
 * leading zeros are allowed. Anything else raises `ValueError`, modelled
 * here as `None`.
 */
module PyInt {
  import opened Outcomes
  import opened Strings

  predicate IsDigit(ch: char)
  {
    '0' <= ch <= '9'
  }

  /** Digits with single underscores between them, as `int()` accepts after the sign. */
  predicate GroupedDigits(s: string)
  {
    && |s| > 0
    && IsDigit(s[0])
    && IsDigit(s[|s| - 1])
    && (forall k :: 0 <= k < |s| ==> IsDigit(s[k]) || s[k] == '_')
    && (forall k :: 0 <= k < |s| - 1 ==> s[k] == '_' ==> s[k + 1] != '_')
  }

  /** The only characters text that `int()` accepts can hold. */
  predicate IntTextChar(ch: char)
  {
    IsDigit(ch) || IsIntSpace(ch) || ch == '_' || ch == '+' || ch == '-'
  }

  /** The number the digits of `s` spell, underscores ignored. */
  function DigitsValue(s: string): nat
    decreases |s|
  {
    if s == [] then 0
    else
      var last := s[|s| - 1];
      if IsDigit(last) then DigitsValue(s[..|s| - 1]) * 10 + (last as int - '0' as int)
      else DigitsValue(s[..|s| - 1])
  }

  /**
   * `int(s)`: `Some(n)` when Python returns `n`, `None` when it raises
   * `ValueError`. A number comes out negative only from text that starts
   * with `-`, and text that starts with `-` never reads as a positive number.
   */
  function ParseInt(s: string): (r: Option<int>)
    ensures r.Some? ==> Trim(s, IntBlanks) != ""
    ensures r.Some? && r.value < 0 ==> Trim(s, IntBlanks)[0] == '-'
    ensures r.Some? && Trim(s, IntBlanks)[0] == '-' ==> r.value <= 0
  {
    var t := Trim(s, IntBlanks);
    if |t| > 0 && (t[0] == '+' || t[0] == '-') then
      if GroupedDigits(t[1..]) then
        var v: int := DigitsValue(t[1..]);
        Some(if t[0] == '-' then -v else v)
      else None
    else if GroupedDigits(t) then Some(DigitsValue(t))
    else None
  }

  /** Text that `int()` accepts holds nothing but digits, whitespace, underscores and signs. */
  lemma {:induction false} ParseIntChars(s: string)
    requires ParseInt(s).Some?
    ensures forall k :: 0 <= k < |s| ==> IntTextChar(s[k])
  {
    var t := Trim(s, IntBlanks);
    var i := SkipBlanks(s, IntBlanks, 0);
    TrimSlice(s, IntBlanks);
    assert forall j :: 0 <= j < |t| ==> IntTextChar(t[j]) by {
      forall j | 0 <= j < |t| ensures IntTextChar(t[j]) {
        if j > 0 && (t[0] == '+' || t[0] == '-') {
          assert t[j] == t[1..][j - 1];
        }
      }
    }
    forall k | 0 <= k < |s| ensures IntTextChar(s[k]) {
      if i <= k < i + |t| {
        assert s[k] == s[i..i + |t|][k - i];
      }
    }
  }

  function DigitChar(d: nat): char
    requires d < 10
  {
    ('0' as int + d) as char
  }

  /** The decimal digits of `n`, most significant first, without leading zeros. */
  function NatDigits(n: nat): (s: string)
    ensures |s| >= 1
    ensures forall k :: 0 <= k < |s| ==> IsDigit(s[k])
    ensures s[0] == '0' ==> n == 0 && |s| == 1
    decreases n
  {
    if n < 10 then [DigitChar(n)] else NatDigits(n / 10) + [DigitChar(n % 10)]
  }

  /**
   * `str(n)`: a `-` exactly for a negative number, then at least one digit,
   * with no leading zero except in `0` itself.
   */
  function Decimal(n: int): (r: string)
    ensures |r| >= 1 && (r[0] == '-' <==> n < 0)
    ensures var ds := if n < 0 then r[1..] else r;
      && |ds| >= 1
      && (forall k :: 0 <= k < |ds| ==> IsDigit(ds[k]))
      && (ds[0] == '0' ==> ds == "0")
  {
    if n < 0 then "-" + NatDigits(-n) else NatDigits(n)
  }

  /** The digits `NatDigits` writes spell the number back. */
  lemma {:induction false} NatDigitsValue(n: nat)
    ensures DigitsValue(NatDigits(n)) == n
    decreases n
  {
    var s := NatDigits(n);
    if n >= 10 {
      NatDigitsValue(n / 10);
      assert s[..|s| - 1] == NatDigits(n / 10);
    }
  }

  /** `int(str(n)) == n` for every integer `n`. */
  lemma {:induction false} ParseDecimal(n: int)
    ensures ParseInt(Decimal(n)) == Some(n)
  {
    var s := Decimal(n);
    var m: nat := if n < 0 then -n else n;
    var ds := NatDigits(m);
    NatDigitsValue(m);
    assert GroupedDigits(ds);
    DecimalTrimmed(n, IntBlanks);
    if n < 0 {
      assert s[1..] == ds;
    } else {
      assert s == ds;
    }
  }

  /** `str(n)` is never blank and carries no surrounding whitespace of either kind. */
  lemma {:induction false} DecimalTrimmed(n: int, b: Blanks)
    ensures Decimal(n) != "" && Trim(Decimal(n), b) == Decimal(n)
  {
    var s := Decimal(n);
    var ds := NatDigits(if n < 0 then -n else n);
    assert s[|s| - 1] == ds[|ds| - 1];
    TrimUnchanged(s, b);
  }

  /** No sign, `+` or `-`, as `int()` accepts in front of the digits. */
  predicate IsSign(sign: string)
  {
    sign == "" || sign == "+" || sign == "-"
  }

  /** Whitespace `int()` skips, and nothing else. */
  predicate IntBlank(s: string)
  {
    forall k :: 0 <= k < |s| ==> IsIntSpace(s[k])
  }

  /** Nothing but `0` characters. */
  predicate Zeros(s: string)
  {
    forall k :: 0 <= k < |s| ==> s[k] == '0'
  }

  /** Trimmed text that is an optional sign and grouped digits reads as the number the digits spell, negated under `-`. */
  lemma {:induction false} ParseTrimmed(s: string, sign: string, g: string)
    requires IsSign(sign) && GroupedDigits(g) && Trim(s, IntBlanks) == sign + g
    ensures ParseInt(s) == Some(if sign == "-" then -(DigitsValue(g) as int) else DigitsValue(g) as int)
  {
    var t := Trim(s, IntBlanks);
    if sign != "" {
      assert t[1..] == g;
    } else {
      assert t == g && t[0] != '+' && t[0] != '-';
    }
  }

  /**
   * Grouped digits behind an optional sign, framed by whitespace `int()`
   * skips, read as the number the digits spell, negated under `-`.
   */
  lemma {:induction false} ParseSigned(pre: string, sign: string, g: string, post: string)
    requires IntBlank(pre) && IntBlank(post) && IsSign(sign) && GroupedDigits(g)
    ensures ParseInt(pre + (sign + g) + post) ==
      Some(if sign == "-" then -(DigitsValue(g) as int) else DigitsValue(g) as int)
  {
    var core := sign + g;
    assert core[|core| - 1] == g[|g| - 1];
    assert sign == "" ==> core[0] == g[0];
    TrimPadded(pre, core, post, IntBlanks);
    ParseTrimmed(pre + core + post, sign, g);
  }

  /** The five pieces of decorated text, grouped around the signed digits. */
  lemma {:induction false} GroupFive(pre: string, sign: string, x: string, y: string, post: string)
    ensures pre + sign + x + y + post == pre + (sign + (x + y)) + post
  {
  }

  /** The six pieces of decorated text with an underscore, grouped around the signed digits. */
  lemma {:induction false} GroupSix(pre: string, sign: string, x: string, y: string, post: string)
    ensures pre + sign + x + "_" + y + post == pre + (sign + (x + "_" + y)) + post
  {
  }

  /**
   * The converse of `ParseSigned`: `int()` accepts nothing else. Accepted text
   * is whitespace `int()` skips, an optional sign, grouped digits and more such
   * whitespace, and it reads as the number the digits spell, negated under `-`;
   * so `4-4`, `4__43`, `_443`, `443_` and `+-443` are all rejected.
   */
  lemma {:induction false} ParseIntShape(s: string)
    requires ParseInt(s).Some?
    ensures exists pre, sign, g, post ::
      && IntBlank(pre) && IntBlank(post) && IsSign(sign) && GroupedDigits(g)
      && s == pre + (sign + g) + post
      && ParseInt(s) == Some(if sign == "-" then -(DigitsValue(g) as int) else DigitsValue(g) as int)
  {
    var pre, post := TrimFrame(s, IntBlanks);
    var sign, g := SignedDigits(s);
    ParseTrimmed(s, sign, g);
    assert IntBlank(pre) && IntBlank(post);
    assert s == pre + (sign + g) + post;
  }

  /** The trimmed text `int()` accepts is an optional sign followed by grouped digits. */
  lemma {:induction false} SignedDigits(s: string) returns (sign: string, g: string)
    requires ParseInt(s).Some?
    ensures IsSign(sign) && GroupedDigits(g) && Trim(s, IntBlanks) == sign + g
  {
    var t := Trim(s, IntBlanks);
    sign := if |t| > 0 && (t[0] == '+' || t[0] == '-') then t[..1] else "";
    g := t[|sign|..];
    assert t == sign + g;
  }

  /** Zeros in front of the digits do not change the number they spell. */
  lemma {:induction false} LeadingZerosValue(zeros: string, ds: string)
    requires Zeros(zeros)
    ensures DigitsValue(zeros + ds) == DigitsValue(ds)
    decreases |zeros| + |ds|
  {
    var s := zeros + ds;
    if ds == [] {
      assert s == zeros;
      if zeros != [] {
        LeadingZerosValue(zeros[..|zeros| - 1], []);
        assert zeros[..|zeros| - 1] + [] == zeros[..|zeros| - 1];
      }
    } else {
      LeadingZerosValue(zeros, ds[..|ds| - 1]);
      assert s[..|s| - 1] == zeros + ds[..|ds| - 1];
      assert s[|s| - 1] == ds[|ds| - 1];
    }
  }

  /** An underscore between digits does not change the number they spell. */
  lemma {:induction false} UnderscoreValue(x: string, y: string)
    ensures DigitsValue(x + "_" + y) == DigitsValue(x + y)
    decreases |y|
  {
    var s := x + "_" + y;
    if y == [] {
      assert s[..|s| - 1] == x;
      assert x + y == x;
    } else {
      UnderscoreValue(x, y[..|y| - 1]);
      assert s[..|s| - 1] == x + "_" + y[..|y| - 1];
      assert (x + y)[..|x + y| - 1] == x + y[..|y| - 1];
      assert s[|s| - 1] == (x + y)[|x + y| - 1] == y[|y| - 1];
    }
  }

  /** Leading zeros, then the decimal digits of `m`: digits only, spelling `m`. */
  lemma {:induction false} PaddedDigits(zeros: string, m: nat)
    requires Zeros(zeros)
    ensures var g := zeros + NatDigits(m);
      && (forall k :: 0 <= k < |g| ==> IsDigit(g[k])) && GroupedDigits(g) && DigitsValue(g) == m
  {
    var ds := NatDigits(m);
    var g := zeros + ds;
    forall k | 0 <= k < |g| ensures IsDigit(g[k]) {
      if k >= |zeros| {
        assert g[k] == ds[k - |zeros|];
      }
    }
    assert g[|g| - 1] == ds[|ds| - 1];
    LeadingZerosValue(zeros, ds);
    NatDigitsValue(m);
  }

  /**
   * `int()` reads decorated decimal text as its number: surrounding
   * whitespace, a `+` or `-` sign and leading zeros are all accepted, so
   * ` 443 `, `+443`, `0443` and `-007` read as 443, 443, 443 and -7.
   */
  lemma {:induction false} ParseDecorated(pre: string, sign: string, zeros: string, m: nat, post: string)
    requires IntBlank(pre) && IntBlank(post) && IsSign(sign) && Zeros(zeros)
    ensures ParseInt(pre + sign + zeros + NatDigits(m) + post) ==
      Some(if sign == "-" then -(m as int) else m as int)
  {
    var ds := NatDigits(m);
    PaddedDigits(zeros, m);
    ParseSigned(pre, sign, zeros + ds, post);
    GroupFive(pre, sign, zeros, ds, post);
  }

  /** Digits with one underscore put between two of them are grouped digits spelling the same number. */
  lemma {:induction false} UnderscoreGrouped(g: string, i: nat)
    requires 0 < i < |g| && forall k :: 0 <= k < |g| ==> IsDigit(g[k])
    ensures GroupedDigits(g[..i] + "_" + g[i..])
    ensures DigitsValue(g[..i] + "_" + g[i..]) == DigitsValue(g)
  {
    var u := g[..i] + "_" + g[i..];
    forall k | 0 <= k < |u| ensures (IsDigit(u[k]) || u[k] == '_') && (u[k] == '_' <==> k == i) {
      if k < i {
        assert u[k] == g[k];
      } else if k > i {
        assert u[k] == g[k - 1];
      }
    }
    UnderscoreValue(g[..i], g[i..]);
    assert g[..i] + g[i..] == g;
  }

  /**
   * `int()` also accepts one underscore between two digits of such text, so
   * `4_43` and `+0_443` read as 443: the underscore leaves the number unchanged.
   */
  lemma {:induction false} ParseUnderscored(pre: string, sign: string, zeros: string, m: nat, i: nat, post: string)
    requires IntBlank(pre) && IntBlank(post) && IsSign(sign) && Zeros(zeros)
    requires 0 < i < |zeros + NatDigits(m)|
    ensures var g := zeros + NatDigits(m);
      ParseInt(pre + sign + g[..i] + "_" + g[i..] + post) == Some(if sign == "-" then -(m as int) else m as int)
  {
    var g := zeros + NatDigits(m);
    var u := g[..i] + "_" + g[i..];
    PaddedDigits(zeros, m);
    UnderscoreGrouped(g, i);
    ParseSigned(pre, sign, u, post);
    GroupSix(pre, sign, g[..i], g[i..], post);
  }

  /** Different integers have different decimal forms. */
  lemma {:induction false} DecimalInjective(a: int, b: int)
    requires Decimal(a) == Decimal(b)
    ensures a == b
  {
    ParseDecimal(a);
    ParseDecimal(b);
  }
}
