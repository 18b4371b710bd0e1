/**
  * The few ECMAScript built-ins the hexite sources lean on, with the
  * semantics the language standard gives them: typed-array `slice` and
  * `subarray` index handling, `String.prototype.split` and
  * `Array.prototype.join` with a one-character separator, ASCII
  * `toLowerCase`, and `parseInt`.
  */
module JsBuiltins {
  import opened Prelude

  // ---------------------------------------------------------------------
  // Relative indices (`slice`, `subarray`, `substring`-like clamping)

  /**
    * How `slice(start, end)` and `subarray(start, end)` turn an argument
    * into a position: a negative index counts back from the end, and the
    * result is clamped to `[0, len]`.
    */
  function RelativeIndex(i: int, len: nat): (k: nat)
    ensures k <= len
    ensures 0 <= i <= len ==> k == i
    ensures i < 0 ==> k == Max(len + i, 0)
  {
    if i < 0 then (if len + i < 0 then 0 else len + i) else if i <= len then i else len
  }

  /** `s.slice(start, end)` (and `subarray`, which shares the index rules). */
  function Slice<T>(s: seq<T>, start: int, end: int): (r: seq<T>)
    ensures 0 <= start <= end <= |s| ==> r == s[start..end]
    ensures |r| == Max(RelativeIndex(end, |s|) - RelativeIndex(start, |s|), 0)
    ensures forall k :: 0 <= k < |r| ==> r[k] == s[RelativeIndex(start, |s|) + k]
  {
    var b := RelativeIndex(start, |s|);
    var e := RelativeIndex(end, |s|);
    if b < e then s[b..e] else []
  }

  // ---------------------------------------------------------------------
  // split / join on one separator character

  /** Index of the first `c` in `s`, or `|s|` when there is none. */
  function IndexOf(s: string, c: char): (i: nat)
    ensures i <= |s|
    ensures i < |s| ==> s[i] == c
    ensures forall k :: 0 <= k < i ==> s[k] != c
  {
    if s == [] then 0 else if s[0] == c then 0 else 1 + IndexOf(s[1..], c)
  }

  /**
    * `s.split(c)`: the pieces between occurrences of `c`; never empty, and
    * an empty string splits into one empty piece.
    */
  function Split(s: string, c: char): (pieces: seq<string>)
    ensures |pieces| >= 1
    ensures forall k :: 0 <= k < |pieces| ==> c !in pieces[k]
    decreases |s|
  {
    var i := IndexOf(s, c);
    if i == |s| then [s] else [s[..i]] + Split(s[i + 1..], c)
  }

  /** `pieces.join(c)`. */
  function Join(pieces: seq<string>, c: char): string
  {
    if pieces == [] then "" else if |pieces| == 1 then pieces[0] else pieces[0] + [c] + Join(pieces[1..], c)
  }

  /** Joining the pieces of a split gives the string back. */
  lemma {:induction false} JoinSplit(s: string, c: char)
    ensures Join(Split(s, c), c) == s
    decreases |s|
  {
    var i := IndexOf(s, c);
    if i < |s| {
      var rest := s[i + 1..];
      JoinSplit(rest, c);
      assert Split(s, c) == [s[..i]] + Split(rest, c);
      assert s == s[..i] + [c] + rest;
    }
  }

  /** Splitting a join of separator-free pieces gives the pieces back. */
  lemma {:induction false} SplitJoin(pieces: seq<string>, c: char)
    requires |pieces| >= 1
    requires forall k :: 0 <= k < |pieces| ==> c !in pieces[k]
    ensures Split(Join(pieces, c), c) == pieces
    decreases |pieces|
  {
    var p := pieces[0];
    if |pieces| == 1 {
      NoSeparator(p, c);
    } else {
      var s := Join(pieces, c);
      var rest := Join(pieces[1..], c);
      assert s == p + [c] + rest;
      FirstSeparator(p, c, rest);
      assert s[..|p|] == p && s[|p| + 1..] == rest;
      SplitJoin(pieces[1..], c);
    }
  }

  lemma {:induction false} NoSeparator(s: string, c: char)
    requires c !in s
    ensures IndexOf(s, c) == |s| && Split(s, c) == [s]
  {
    if s != [] {
      assert s[1..] == s[1..] && c !in s[1..];
      NoSeparator(s[1..], c);
    }
  }

  lemma {:induction false} FirstSeparator(p: string, c: char, rest: string)
    requires c !in p
    ensures IndexOf(p + [c] + rest, c) == |p|
  {
    var s := p + [c] + rest;
    if p != [] {
      assert s[1..] == p[1..] + [c] + rest;
      FirstSeparator(p[1..], c, rest);
    }
  }

  /**
    * The first piece of a split is the text before the first separator and
    * the rest, joined again, is the text after it.
    */
  lemma SplitFirst(s: string, c: char)
    ensures var i := IndexOf(s, c);
            Split(s, c)[0] == s[..i]
            && (i < |s| ==> Join(Split(s, c)[1..], c) == s[i + 1..])
            && (i == |s| ==> Split(s, c)[1..] == [])
  {
    var i := IndexOf(s, c);
    if i < |s| {
      assert Split(s, c) == [s[..i]] + Split(s[i + 1..], c);
      assert Split(s, c)[1..] == Split(s[i + 1..], c);
      JoinSplit(s[i + 1..], c);
    }
  }

  // ---------------------------------------------------------------------
  // toLowerCase

  /**
    * `toLowerCase` on ASCII letters. Other characters are left alone; what
    * full Unicode lower-casing does to them cannot turn them into hex
    * digits, `x` or white space, which is all `parseInt` looks at.
    */
  function ToLowerCase(s: string): (r: string)
    ensures |r| == |s|
    ensures forall k :: 0 <= k < |s| ==> r[k] == LowerChar(s[k])
  {
    if s == [] then [] else [LowerChar(s[0])] + ToLowerCase(s[1..])
  }

  function LowerChar(ch: char): char
  {
    if 'A' <= ch <= 'Z' then (ch as int + 32) as char else ch
  }

  // ---------------------------------------------------------------------
  // parseInt

  /** JavaScript `number` results of `parseInt`: an integer or `NaN`. */
  datatype Number = NaN | Int(value: int)

  /**
    * The white space and line terminators `parseInt` skips first: tab,
    * vertical tab, form feed, the byte-order mark, the space separators of
    * Unicode category Zs, and the four line terminators.
    */
  predicate IsSpace(ch: char)
  {
    || ch == '\t' || ch == '\n' || ch == '\r' || ch == '\U{000B}' || ch == '\U{000C}'
    || ch == ' ' || ch == '\U{00A0}' || ch == '\U{1680}' || '\U{2000}' <= ch <= '\U{200A}'
    || ch == '\U{2028}' || ch == '\U{2029}' || ch == '\U{202F}' || ch == '\U{205F}'
    || ch == '\U{3000}' || ch == '\U{FEFF}'
  }

  /** The value of `ch` as a digit, in any radix up to 36; 36 when it is not one. */
  function DigitValue(ch: char): (d: nat)
    ensures d <= 36
  {
    if '0' <= ch <= '9' then ch as int - '0' as int
    else if 'a' <= ch <= 'z' then ch as int - 'a' as int + 10
    else if 'A' <= ch <= 'Z' then ch as int - 'A' as int + 10
    else 36
  }

  predicate IsDigit(ch: char, radix: nat)
  {
    DigitValue(ch) < radix
  }

  /** Leading white space removed. */
  function TrimStart(s: string): (r: string)
    ensures r == [] || !IsSpace(r[0])
    ensures |r| <= |s| && r == s[|s| - |r|..]
  {
    if s != [] && IsSpace(s[0]) then TrimStart(s[1..]) else s
  }

  /** Number of leading characters of `s` that are digits in `radix`. */
  function DigitRun(s: string, radix: nat): (n: nat)
    ensures n <= |s|
    ensures forall k :: 0 <= k < n ==> IsDigit(s[k], radix)
    ensures n < |s| ==> !IsDigit(s[n], radix)
  {
    if s != [] && IsDigit(s[0], radix) then 1 + DigitRun(s[1..], radix) else 0
  }

  /** The value of a string of digits, most significant first. */
  function DigitsValue(s: string, radix: nat): (v: nat)
  {
    if s == [] then 0 else DigitsValue(s[..|s| - 1], radix) * radix + DigitValue(s[|s| - 1])
  }

  /**
    * `parseInt(s, radix)` for radix 10 or 16: skip white space, take an
    * optional sign, for radix 16 an optional `0x`/`0X`, then the longest run
    * of digits; `NaN` when that run is empty.
    */
  function ParseInt(s: string, radix: nat): (n: Number)
    requires radix == 10 || radix == 16
  {
    var t := TrimStart(s);
    var negative := t != [] && t[0] == '-';
    var unsigned := if t != [] && (t[0] == '-' || t[0] == '+') then t[1..] else t;
    var body := if radix == 16 && |unsigned| >= 2 && unsigned[0] == '0' && (unsigned[1] == 'x' || unsigned[1] == 'X')
                then unsigned[2..] else unsigned;
    var n := DigitRun(body, radix);
    if n == 0 then NaN
    else var v: int := DigitsValue(body[..n], radix); Int(if negative then -v else v)
  }

  /** The digit character for `d < 16`, lower case as `toString(16)` writes it. */
  function DigitChar(d: nat): (ch: char)
    requires d < 16
    ensures DigitValue(ch) == d
    ensures LowerDigit(ch)
  {
    if d < 10 then ('0' as int + d) as char else ('a' as int + d - 10) as char
  }

  /** A character `toString` writes: a decimal digit or a lower-case `a`-`f`. */
  predicate LowerDigit(ch: char)
  {
    '0' <= ch <= '9' || 'a' <= ch <= 'f'
  }

  /** `n.toString(radix)` for a natural number. */
  function Format(n: nat, radix: nat): (s: string)
    requires radix == 10 || radix == 16
    ensures |s| >= 1
    ensures forall k :: 0 <= k < |s| ==> IsDigit(s[k], radix) && LowerDigit(s[k])
    decreases n
  {
    if n < radix then [DigitChar(n)] else Format(n / radix, radix) + [DigitChar(n % radix)]
  }

  /** Digits written by `Format` read back as the same number. */
  lemma {:induction false} DigitsValueFormat(n: nat, radix: nat)
    requires radix == 10 || radix == 16
    ensures DigitsValue(Format(n, radix), radix) == n
    decreases n
  {
    var s := Format(n, radix);
    if n >= radix {
      var init := Format(n / radix, radix);
      DigitsValueFormat(n / radix, radix);
      assert s == init + [DigitChar(n % radix)];
      assert s[..|s| - 1] == init;
    }
  }

  /** `parseInt(n.toString(radix), radix) == n`. */
  lemma ParseIntFormat(n: nat, radix: nat)
    requires radix == 10 || radix == 16
    ensures ParseInt(Format(n, radix), radix) == Int(n)
  {
    ParseIntDigits(Format(n, radix), radix);
    DigitsValueFormat(n, radix);
  }

  /** A non-empty string of digits parses to its value. */
  lemma ParseIntDigits(s: string, radix: nat)
    requires radix == 10 || radix == 16
    requires |s| >= 1 && forall k :: 0 <= k < |s| ==> IsDigit(s[k], radix)
    ensures ParseInt(s, radix) == Int(DigitsValue(s, radix))
  {
    DigitIsPlain(s[0], radix);
    assert TrimStart(s) == s;
    if |s| >= 2 {
      DigitIsPlain(s[1], radix);
    }
    AllDigitsRun(s, radix);
    assert s[..|s|] == s;
  }

  /** A digit is not white space, a sign or the `x` of a hexadecimal prefix. */
  lemma DigitIsPlain(ch: char, radix: nat)
    requires radix == 10 || radix == 16
    requires IsDigit(ch, radix)
    ensures !IsSpace(ch) && ch != '-' && ch != '+' && ch != 'x' && ch != 'X'
  {
  }

  lemma {:induction false} AllDigitsRun(s: string, radix: nat)
    requires forall k :: 0 <= k < |s| ==> IsDigit(s[k], radix)
    ensures DigitRun(s, radix) == |s|
  {
    if s != [] {
      AllDigitsRun(s[1..], radix);
    }
  }
}
