/** The string handling that Board.update_board relies on: str.split, int() and str(). */
module Text {
  import opened Wrappers
  import Enums

  /** str.split(c): the pieces between the occurrences of c; always at least one piece. */
  function Split(s: string, c: char): (r: seq<string>)
    ensures |r| >= 1
    ensures forall k :: 0 <= k < |r| ==> c !in r[k]
    ensures |r| - 1 == Occurrences(s, c)
    decreases |s|
  {
    if s == [] then [""]
    else
      var rest := Split(s[1..], c);
      if s[0] == c then [""] + rest
      else [[s[0]] + rest[0]] + rest[1..]
  }

  /** The number of occurrences of c in s. */
  function Occurrences(s: string, c: char): nat
  {
    if s == [] then 0 else (if s[0] == c then 1 else 0) + Occurrences(s[1..], c)
  }

  /** c.join(pieces) */
  function Join(pieces: seq<string>, c: char): string
    requires |pieces| >= 1
  {
    if |pieces| == 1 then pieces[0] else pieces[0] + [c] + Join(pieces[1..], c)
  }

  lemma {:induction false} SplitNoSeparator(x: string, c: char)
    requires c !in x
    ensures Split(x, c) == [x]
  {
    if x != [] {
      SplitNoSeparator(x[1..], c);
      assert [x[0]] + x[1..] == x;
    }
  }

  lemma {:induction false} SplitAtSeparator(x: string, c: char, y: string)
    requires c !in x
    ensures Split(x + [c] + y, c) == [x] + Split(y, c)
  {
    if x == [] {
      assert x + [c] + y == [c] + y;
      assert ([c] + y)[1..] == y;
    } else {
      var s := x + [c] + y;
      assert s[0] == x[0] && s[1..] == x[1..] + [c] + y;
      SplitAtSeparator(x[1..], c, y);
      assert [x[0]] + x[1..] == x;
    }
  }

  /** Splitting what was joined gives the pieces back, when no piece holds the separator. */
  lemma {:induction false} SplitJoin(pieces: seq<string>, c: char)
    requires |pieces| >= 1
    requires forall k :: 0 <= k < |pieces| ==> c !in pieces[k]
    ensures Split(Join(pieces, c), c) == pieces
  {
    if |pieces| == 1 {
      SplitNoSeparator(pieces[0], c);
    } else {
      SplitJoin(pieces[1..], c);
      SplitAtSeparator(pieces[0], c, Join(pieces[1..], c));
      assert [pieces[0]] + pieces[1..] == pieces;
    }
  }

  predicate IsDigit(ch: char) { '0' <= ch <= '9' }

  predicate AllDigits(s: string) { forall k :: 0 <= k < |s| ==> IsDigit(s[k]) }

  /** The value of a string of decimal digits, most significant first. */
  function DigitsValue(s: string): nat
    requires AllDigits(s)
  {
    if s == [] then 0
    else DigitsValue(s[..|s| - 1]) * 10 + (s[|s| - 1] as int - '0' as int)
  }

  /**
   * The ASCII whitespace int() strips from both ends: space, tab, line feed, vertical tab,
   * form feed and carriage return.  The separators 0x1c..0x1f, which str.isspace()
   * accepts, are not stripped by int(), which raises on them.
   */
  predicate IsSpace(ch: char)
  {
    ch == ' ' || '\t' <= ch <= '\r'
  }

  /** s without its leading whitespace. */
  function StripLeft(s: string): string
  {
    if s != [] && IsSpace(s[0]) then StripLeft(s[1..]) else s
  }

  /** s without its trailing whitespace. */
  function StripRight(s: string): string
  {
    if s != [] && IsSpace(s[|s| - 1]) then StripRight(s[..|s| - 1]) else s
  }

  /** s without leading and trailing whitespace, as int() strips it. */
  function Strip(s: string): string
  {
    StripRight(StripLeft(s))
  }

  /** lstrip() leaves a suffix of s that does not start with whitespace. */
  lemma {:induction false} StripLeftSuffix(s: string)
    ensures |StripLeft(s)| <= |s| && StripLeft(s) == s[|s| - |StripLeft(s)|..]
    ensures StripLeft(s) == [] || !IsSpace(StripLeft(s)[0])
  {
    if s != [] && IsSpace(s[0]) {
      StripLeftSuffix(s[1..]);
    }
  }

  /** rstrip() leaves a prefix of s that does not end with whitespace. */
  lemma {:induction false} StripRightPrefix(s: string)
    ensures |StripRight(s)| <= |s| && StripRight(s) == s[..|StripRight(s)|]
    ensures StripRight(s) == [] || !IsSpace(StripRight(s)[|StripRight(s)| - 1])
  {
    if s != [] && IsSpace(s[|s| - 1]) {
      StripRightPrefix(s[..|s| - 1]);
    }
  }

  /**
   * The numeral int() reads after the sign: decimal digits, where an underscore may stand
   * between two digits (Python's digit grouping, as in 1_000).
   */
  predicate Numeral(t: string)
  {
    |t| >= 1 && IsDigit(t[0]) && IsDigit(t[|t| - 1]) && Grouped(t) &&
    forall k :: 0 <= k < |t| - 1 ==> NotDoubled(t, k)
  }

  /** No second underscore follows an underscore at position k of t. */
  predicate NotDoubled(t: string, k: int)
    requires 0 <= k < |t| - 1
  {
    t[k] == '_' ==> t[k + 1] != '_'
  }

  /** Every character of t is a digit or an underscore. */
  predicate Grouped(t: string)
  {
    forall k :: 0 <= k < |t| ==> IsDigit(t[k]) || t[k] == '_'
  }

  /** The digits of t in order, its underscores dropped. */
  function DropUnderscores(t: string): (r: string)
    requires Grouped(t)
    ensures AllDigits(r) && |r| <= |t|
  {
    if t == [] then []
    else if t[0] == '_' then DropUnderscores(t[1..])
    else [t[0]] + DropUnderscores(t[1..])
  }

  /** Digits alone have no underscores to drop. */
  lemma {:induction false} DropNoUnderscores(t: string)
    requires AllDigits(t)
    ensures DropUnderscores(t) == t
  {
    if t != [] {
      DropNoUnderscores(t[1..]);
      assert [t[0]] + t[1..] == t;
    }
  }

  /**
   * What int() makes of already stripped text: an optional sign and a numeral, or None.
   * A number has a digit at its front or after its sign, and only '-' makes it negative.
   */
  function ParseNumber(t: string): (r: Option<int>)
    ensures r.Some? ==> (|t| >= 1 && IsDigit(t[0])) || (|t| >= 2 && IsDigit(t[1]))
    ensures r.Some? && r.value < 0 ==> |t| >= 1 && t[0] == '-'
    decreases |t|
  {
    if |t| >= 2 && (t[0] == '-' || t[0] == '+') && IsDigit(t[1]) then
      match ParseNumber(t[1..])
      case None => None
      case Some(v) => Some(if t[0] == '-' then -v else v)
    else if Numeral(t) then Some(DigitsValue(DropUnderscores(t)))
    else None
  }

  /**
   * int(s) on a str of ASCII characters, in base 10: leading whitespace is skipped, then
   * trailing whitespace, and the rest must be an optional sign and a numeral (digits with
   * single underscores between them); None where int() raises ValueError.
   */
  function ParseInt(s: string): Option<int>
    decreases |s|
  {
    if s != [] && IsSpace(s[0]) then ParseInt(s[1..]) else ParseNumber(StripRight(s))
  }

  /** int() reads what strip() leaves: ParseInt is ParseNumber after both ends are stripped. */
  lemma {:induction false} ParseIntStrip(s: string)
    ensures ParseInt(s) == ParseNumber(Strip(s))
    decreases |s|
  {
    if s != [] && IsSpace(s[0]) {
      ParseIntStrip(s[1..]);
    }
  }

  /** A number int() accepts has a digit, and only a minus sign makes it negative. */
  lemma ParseIntHasDigit(s: string)
    ensures ParseInt(s).Some? ==> exists k :: 0 <= k < |s| && IsDigit(s[k])
    ensures ParseInt(s).Some? && ParseInt(s).value < 0 ==> '-' in s
  {
    ParseIntStrip(s);
    var t := Strip(s);
    var off := |s| - |StripLeft(s)|;
    StripLeftSuffix(s);
    StripRightPrefix(StripLeft(s));
    if |t| >= 1 {
      assert t[0] == s[off];
    }
    if |t| >= 2 {
      assert t[1] == s[off + 1];
    }
  }

  /** Leading whitespace, before whatever follows, is stripped away. */
  lemma {:induction false} StripLeftSpaces(w: string, s: string)
    requires forall k :: 0 <= k < |w| ==> IsSpace(w[k])
    ensures StripLeft(w + s) == StripLeft(s)
  {
    if w == [] {
      assert w + s == s;
    } else {
      assert (w + s)[0] == w[0];
      assert (w + s)[1..] == w[1..] + s;
      StripLeftSpaces(w[1..], s);
    }
  }

  /** Trailing whitespace, after whatever precedes it, is stripped away. */
  lemma {:induction false} StripRightSpaces(s: string, w: string)
    requires forall k :: 0 <= k < |w| ==> IsSpace(w[k])
    ensures StripRight(s + w) == StripRight(s)
  {
    if w == [] {
      assert s + w == s;
    } else {
      assert (s + w)[|s + w| - 1] == w[|w| - 1];
      assert (s + w)[..|s + w| - 1] == s + w[..|w| - 1];
      StripRightSpaces(s, w[..|w| - 1]);
    }
  }

  /** Stripping the left end of s + w, where w is whitespace. */
  lemma {:induction false} StripLeftAppend(s: string, w: string)
    requires forall k :: 0 <= k < |w| ==> IsSpace(w[k])
    ensures StripLeft(s + w) == if StripLeft(s) == [] then [] else StripLeft(s) + w
  {
    if s == [] {
      assert [] + w == w + [];
      StripLeftSpaces(w, []);
    } else if IsSpace(s[0]) {
      assert (s + w)[1..] == s[1..] + w;
      StripLeftAppend(s[1..], w);
    }
  }

  /** int() ignores whitespace (ASCII) around the number, at either end. */
  lemma ParseIntIgnoresSpace(s: string, w: string)
    requires forall k :: 0 <= k < |w| ==> IsSpace(w[k])
    ensures ParseInt(w + s) == ParseInt(s)
    ensures ParseInt(s + w) == ParseInt(s)
  {
    StripLeftSpaces(w, s);
    StripLeftAppend(s, w);
    if StripLeft(s) != [] {
      StripRightSpaces(StripLeft(s), w);
    }
    assert Strip(s + w) == Strip(s);
    ParseIntStrip(w + s);
    ParseIntStrip(s);
    ParseIntStrip(s + w);
  }

  /** Text that neither starts nor ends with whitespace is its own strip(). */
  lemma StripTrimmed(s: string)
    requires |s| >= 1 && !IsSpace(s[0]) && !IsSpace(s[|s| - 1])
    ensures Strip(s) == s
  {
  }

  /** A minus sign before digits gives the negated value. */
  lemma ParseNegative(t: string)
    requires |t| >= 2 && t[0] == '-' && AllDigits(t[1..])
    ensures ParseNumber(t) == Some(-(DigitsValue(t[1..]) as int))
  {
    PlainNumeral(t[1..]);
    assert t[1..][0] == t[1];
  }

  /** Underscores go and digits stay, piece by piece. */
  lemma {:induction false} DropUnderscoresAppend(x: string, y: string)
    requires Grouped(x) && Grouped(y)
    ensures DropUnderscores(x + y) == DropUnderscores(x) + DropUnderscores(y)
  {
    if x == [] {
      assert x + y == y;
    } else {
      assert (x + y)[0] == x[0] && (x + y)[1..] == x[1..] + y;
      DropUnderscoresAppend(x[1..], y);
    }
  }

  /** An underscore between two runs of digits only groups them: d_e reads as de. */
  lemma ParseGrouped(d: string, e: string)
    requires |d| >= 1 && AllDigits(d) && |e| >= 1 && AllDigits(e)
    ensures ParseNumber(d + "_" + e) == Some(DigitsValue(d + e) as int)
  {
    var t := d + "_" + e;
    GroupedNumeral(d, e);
    assert t[0] == d[0];
  }

  /** d_e is a numeral whose digits are those of d and then those of e. */
  lemma GroupedNumeral(d: string, e: string)
    requires |d| >= 1 && AllDigits(d) && |e| >= 1 && AllDigits(e)
    ensures Numeral(d + "_" + e) && DropUnderscores(d + "_" + e) == d + e
  {
    GroupedIsNumeral(d, e);
    GroupedDigits(d, e);
  }

  lemma GroupedIsNumeral(d: string, e: string)
    requires |d| >= 1 && AllDigits(d) && |e| >= 1 && AllDigits(e)
    ensures Numeral(d + "_" + e)
  {
    var t := d + "_" + e;
    forall k | 0 <= k < |t| ensures (k == |d| ==> t[k] == '_') && (k != |d| ==> IsDigit(t[k])) {
      if k < |d| {
        assert t[k] == d[k];
      } else if k > |d| {
        assert t[k] == e[k - |d| - 1];
      }
    }
    assert t[|d| + 1] == e[0];
    assert t[|t| - 1] == e[|e| - 1];
  }

  lemma GroupedDigits(d: string, e: string)
    requires AllDigits(d) && AllDigits(e)
    ensures Grouped(d + "_" + e) && DropUnderscores(d + "_" + e) == d + e
  {
    assert Grouped("_");
    assert DropUnderscores("_") == [];
    DropUnderscoresAppend(d, "_");
    DropUnderscoresAppend(d + "_", e);
    DropNoUnderscores(d);
    DropNoUnderscores(e);
    assert d + [] == d;
  }

  /**
   * int() refuses an underscore that does not stand between two digits: one at either
   * end of the numeral, or two in a row.
   */
  lemma {:induction false} ParseStrayUnderscore(t: string, k: int)
    requires 0 <= k < |t| && t[k] == '_'
    requires k == 0 || k == |t| - 1 || (k + 1 < |t| && t[k + 1] == '_')
    ensures ParseNumber(t) == None
    decreases |t|
  {
    if k + 1 < |t| && t[k + 1] == '_' {
      assert !NotDoubled(t, k);
    }
    if |t| >= 2 && (t[0] == '-' || t[0] == '+') && IsDigit(t[1]) {
      var u := t[1..];
      assert u[k - 1] == '_';
      if k + 1 < |t| && t[k + 1] == '_' {
        assert u[k] == t[k + 1];
      }
      ParseStrayUnderscore(u, k - 1);
    }
  }

  /** A sign alone is not a number. */
  lemma ParseBareSign()
    ensures ParseNumber("+") == None && ParseNumber("-") == None
  {
  }

  /** int() refuses blank text. */
  lemma ParseIntBlank(s: string)
    requires forall k :: 0 <= k < |s| ==> IsSpace(s[k])
    ensures ParseInt(s) == None
  {
    StripLeftSpaces(s, []);
    assert s + [] == s;
    ParseIntStrip(s);
  }

  /** int() does not strip the separators 0x1c..0x1f: a number next to one raises. */
  lemma ParseIntSeparators()
    ensures ParseInt("\U{1c}7") == None && ParseInt("7\U{1f}") == None
  {
    assert "7\U{1f}"[1..] == "\U{1f}";
  }

  /** str(n) for a non-negative integer. */
  function NatToString(n: nat): (r: string)
    ensures |r| >= 1 && AllDigits(r)
  {
    if n < 10 then [Enums.Digit(n)] else NatToString(n / 10) + [Enums.Digit(n % 10)]
  }

  /** int(str(n)) == n */
  lemma {:induction false} ParseNatToString(n: nat)
    ensures ParseInt(NatToString(n)) == Some(n)
    ensures ',' !in NatToString(n) && ';' !in NatToString(n)
  {
    DigitsOfNatToString(n);
    var s := NatToString(n);
    PlainNumeral(s);
    StripTrimmed(s);
    ParseIntStrip(s);
  }

  /** A string of digits is a numeral with nothing to drop. */
  lemma PlainNumeral(s: string)
    requires |s| >= 1 && AllDigits(s)
    ensures Numeral(s) && DropUnderscores(s) == s
  {
    DropNoUnderscores(s);
  }

  lemma {:induction false} DigitsOfNatToString(n: nat)
    ensures DigitsValue(NatToString(n)) == n
  {
    var s := NatToString(n);
    if n < 10 {
      assert s[..0] == [];
    } else {
      DigitsOfNatToString(n / 10);
      assert s[..|s| - 1] == NatToString(n / 10);
    }
  }

  /** str(i) for any integer: a minus sign before the digits of a negative one. */
  function IntToString(i: int): (r: string)
    ensures |r| >= 1 && '\n' !in r && ';' !in r
  {
    ParseNatToString(if i < 0 then -i else i);
    if i < 0 then "-" + NatToString(-i) else NatToString(i)
  }

  /** int(str(i)) == i */
  lemma ParseIntToString(i: int)
    ensures ParseInt(IntToString(i)) == Some(i)
  {
    if i < 0 {
      ParseMinusNatToString(-i);
    } else {
      ParseNatToString(i);
    }
  }

  /** int("-" + str(n)) == -n */
  lemma ParseMinusNatToString(n: nat)
    ensures ParseInt("-" + NatToString(n)) == Some(-(n as int))
  {
    var d := NatToString(n);
    DigitsOfNatToString(n);
    var s := "-" + d;
    assert s[0] == '-' && s[1..] == d && s[|s| - 1] == d[|d| - 1];
    ParseNegative(s);
    StripTrimmed(s);
    ParseIntStrip(s);
  }
}
