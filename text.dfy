/** The JavaScript string and number primitives the game relies on:
    `String.prototype.split` and `Array.prototype.join` with a one-character
    separator, the conversion of an integer to its decimal numeral, and the
    global `parseInt` called without a radix. */
module Text {
  import opened Wrappers

  /** `parts.join(sep)`. */
  function Join(parts: seq<string>, sep: char): (joined: string)
    ensures |parts| == 0 ==> joined == ""
    ensures |parts| > 0 ==> parts[0] <= joined
  {
    if |parts| == 0 then ""
    else if |parts| == 1 then parts[0]
    else parts[0] + [sep] + Join(parts[1..], sep)
  }

  /** `s.split(sep)`: the maximal separator-free pieces of `s`, in order;
      there is one more piece than there are separators. */
  function Split(s: string, sep: char): (parts: seq<string>)
    ensures |parts| >= 1
    ensures |parts| >= 2 <==> sep in s
    ensures forall i :: 0 <= i < |parts| ==> sep !in parts[i]
  {
    if s == "" then [""]
    else
      var rest := Split(s[1..], sep);
      assert s == [s[0]] + s[1..];
      if s[0] == sep then [""] + rest
      else [[s[0]] + rest[0]] + rest[1..]
  }

  /** Joining the pieces with the separator gives the string back. */
  lemma {:induction false} JoinSplit(s: string, sep: char)
    ensures Join(Split(s, sep), sep) == s
  {
    if s != "" {
      var rest := Split(s[1..], sep);
      JoinSplit(s[1..], sep);
      if s[0] == sep {
        assert ([""] + rest)[1..] == rest;
      } else if |rest| > 1 {
        var parts := [[s[0]] + rest[0]] + rest[1..];
        assert parts[1..] == rest[1..];
      }
    }
  }

  /** A separator-free prefix glues onto the first piece of what follows. */
  lemma {:induction false} SplitPrefix(p: string, q: string, sep: char)
    requires sep !in p
    ensures Split(p + q, sep) == [p + Split(q, sep)[0]] + Split(q, sep)[1..]
  {
    if p == "" {
      var parts := Split(q, sep);
      assert p + q == q;
      assert p + parts[0] == parts[0];
      assert parts == [parts[0]] + parts[1..];
    } else {
      assert (p + q)[1..] == p[1..] + q;
      assert (p + q)[0] == p[0];
      SplitPrefix(p[1..], q, sep);
      assert [p[0]] + (p[1..] + Split(q, sep)[0]) == p + Split(q, sep)[0];
    }
  }

  /** Splitting undoes joining separator-free pieces: `split` is the unique
      decomposition of a string into separator-free pieces. */
  lemma {:induction false} SplitJoin(parts: seq<string>, sep: char)
    requires |parts| >= 1
    requires forall i :: 0 <= i < |parts| ==> sep !in parts[i]
    ensures Split(Join(parts, sep), sep) == parts
  {
    if |parts| == 1 {
      SplitPrefix(parts[0], "", sep);
      assert parts[0] + "" == parts[0];
    } else {
      var tail := Join(parts[1..], sep);
      SplitJoin(parts[1..], sep);
      assert Join(parts, sep) == parts[0] + ([sep] + tail);
      SplitPrefix(parts[0], [sep] + tail, sep);
      assert ([sep] + tail)[1..] == tail;
      assert ([sep] + tail)[0] == sep;
      assert Split([sep] + tail, sep) == [""] + parts[1..];
      assert ([""] + parts[1..])[0] == "";
      assert ([""] + parts[1..])[1..] == parts[1..];
      assert parts[0] + "" == parts[0];
      assert parts == [parts[0]] + parts[1..];
    }
  }

  /** Concatenation is associative. */
  lemma ConcatAssoc(a: string, b: string, c: string)
    ensures a + b + c == a + (b + c)
  {
  }

  /** Digit `d` as a character. */
  function DigitChar(d: nat): (c: char)
    requires d < 10
    ensures DigitValue(c) == Some(d)
  {
    ('0' as int + d) as char
  }

  /** The value of `c` as a digit in any radix up to 16, as `parseInt` reads it. */
  function DigitValue(c: char): Option<nat>
  {
    if '0' <= c <= '9' then Some(c as nat - '0' as nat)
    else if 'a' <= c <= 'f' then Some(c as nat - 'a' as nat + 10)
    else if 'A' <= c <= 'F' then Some(c as nat - 'A' as nat + 10)
    else None
  }

  predicate IsDigit(c: char, radix: nat)
  {
    DigitValue(c).Some? && DigitValue(c).value < radix
  }

  /** `${n}` for a non-negative integer: its decimal numeral without leading zeros. */
  function NatToString(n: nat): (s: string)
    ensures |s| >= 1
    ensures forall i :: 0 <= i < |s| ==> IsDigit(s[i], 10)
    ensures s[0] == '0' ==> n == 0
  {
    if n < 10 then [DigitChar(n)] else NatToString(n / 10) + [DigitChar(n % 10)]
  }

  /** `${k}` for any integer. */
  function IntToString(k: int): string
  {
    if k < 0 then "-" + NatToString(-k) else NatToString(k)
  }

  /** The characters `parseInt` skips before the number: white space and line
      terminators (ECMAScript StrWhiteSpaceChar). */
  predicate IsStrWhiteSpace(c: char)
  {
    c == ' ' || c == '\t' || c == '\n' || c == '\r' || c == '\U{000B}' || c == '\U{000C}'
    || c == '\U{00A0}' || c == '\U{1680}' || ('\U{2000}' <= c <= '\U{200A}')
    || c == '\U{2028}' || c == '\U{2029}' || c == '\U{202F}' || c == '\U{205F}'
    || c == '\U{3000}' || c == '\U{FEFF}'
  }

  /** `s` without its leading white space: what is dropped is all blank,
      and what is kept is empty or starts with a non-blank. */
  function TrimStart(s: string): (r: string)
    ensures |r| <= |s| && r == s[|s| - |r|..]
    ensures forall i :: 0 <= i < |s| - |r| ==> IsStrWhiteSpace(s[i])
    ensures r == "" || !IsStrWhiteSpace(r[0])
  {
    if s != "" && IsStrWhiteSpace(s[0]) then TrimStart(s[1..]) else s
  }

  /** The longest prefix of `s` made of digits of the radix. */
  function DigitPrefix(s: string, radix: nat): (ds: string)
    ensures ds <= s
    ensures forall i :: 0 <= i < |ds| ==> IsDigit(ds[i], radix)
    ensures |ds| < |s| ==> !IsDigit(s[|ds|], radix)
  {
    if s != "" && IsDigit(s[0], radix) then [s[0]] + DigitPrefix(s[1..], radix) else ""
  }

  /** The number a string of digits denotes, most significant digit first. */
  function DigitsValue(ds: string, radix: nat): nat
    requires forall i :: 0 <= i < |ds| ==> IsDigit(ds[i], radix)
  {
    if ds == "" then 0
    else
      var init, last := ds[..|ds| - 1], ds[|ds| - 1];
      assert IsDigit(last, radix);
      assert forall i :: 0 <= i < |init| ==> init[i] == ds[i];
      var high: nat := DigitsValue(init, radix);
      var low: nat := DigitValue(last).value;
      MulNat(high, radix);
      high * radix + low
  }

  lemma MulNat(a: nat, b: nat)
    ensures a * b >= 0
  {
  }

  /** The global `parseInt(s)` without a radix: leading white space is
      skipped, an optional sign read, a `0x`/`0X` prefix selects radix 16,
      and the longest run of digits that follows is the number; when there is
      no digit the result is NaN, here `None`. */
  function ParseInt(s: string): Option<int>
  {
    ParseSigned(TrimStart(s))
  }

  /** `parseInt` after the white space: an optional sign, then the numeral. */
  function ParseSigned(t: string): Option<int>
  {
    if t != "" && t[0] == '-' then
      match ParseNumeral(t[1..])
      case Some(v) => Some(-v)
      case None => None
    else if t != "" && t[0] == '+' then ParseNumeral(t[1..])
    else ParseNumeral(t)
  }

  /** `parseInt` after the sign: radix 16 behind a `0x`/`0X` prefix, 10 otherwise. */
  function ParseNumeral(u: string): Option<int>
  {
    var hex := |u| >= 2 && u[0] == '0' && (u[1] == 'x' || u[1] == 'X');
    var radix := if hex then 16 else 10;
    var ds := DigitPrefix(if hex then u[2..] else u, radix);
    if ds == "" then None else Some(DigitsValue(ds, radix))
  }

  lemma {:induction false} DigitPrefixOfDigits(ds: string, rest: string, radix: nat)
    requires forall i :: 0 <= i < |ds| ==> IsDigit(ds[i], radix)
    requires rest == "" || !IsDigit(rest[0], radix)
    ensures DigitPrefix(ds + rest, radix) == ds
  {
    if ds != "" {
      assert (ds + rest)[1..] == ds[1..] + rest;
      DigitPrefixOfDigits(ds[1..], rest, radix);
    } else {
      assert ds + rest == rest;
    }
  }

  /** Reading back a decimal numeral gives the number. */
  lemma {:induction false} NatToStringValue(n: nat)
    ensures DigitsValue(NatToString(n), 10) == n
  {
    var s := NatToString(n);
    if n >= 10 {
      var init := NatToString(n / 10);
      assert s == init + [DigitChar(n % 10)];
      assert s[..|s| - 1] == init;
      NatToStringValue(n / 10);
    } else {
      assert s[..|s| - 1] == "";
    }
  }

  /** The numeral of `n`, followed by anything that cannot extend it, reads back as `n`. */
  lemma ParseNumeralOf(n: nat, rest: string)
    requires rest == "" || !IsDigit(rest[0], 10)
    requires n == 0 && rest != "" ==> rest[0] != 'x' && rest[0] != 'X'
    ensures ParseNumeral(NatToString(n) + rest) == Some(n)
  {
    var digits := NatToString(n);
    var u := digits + rest;
    assert u[0] == digits[0];
    if |u| >= 2 && u[0] == '0' {
      assert n == 0 && |digits| == 1;
      assert u[1] == rest[0];
    }
    DigitPrefixOfDigits(digits, rest, 10);
    NatToStringValue(n);
  }

  /** White space is skipped only at the front. */
  lemma TrimStartNonBlank(s: string)
    requires s != "" && !IsStrWhiteSpace(s[0])
    ensures TrimStart(s) == s
  {
  }

  /** `parseInt` reads back the numeral of any integer, whatever follows it,
      as long as what follows cannot extend the numeral (a further digit, or
      an `x` turning a lone `0` into a hexadecimal prefix). */
  lemma ParseIntToString(k: int, rest: string)
    requires rest == "" || !IsDigit(rest[0], 10)
    requires k == 0 && rest != "" ==> rest[0] != 'x' && rest[0] != 'X'
    ensures ParseInt(IntToString(k) + rest) == Some(k)
  {
    var n: nat := if k < 0 then -k else k;
    var digits := NatToString(n);
    var u := digits + rest;
    ParseNumeralOf(n, rest);
    assert u[0] == digits[0];
    SignedNumeral(k, rest);
    ParseIntOfSigned(u, n, k < 0);
  }

  /** The numeral of `k` is the numeral of its magnitude behind a minus sign
      when `k` is negative. */
  lemma SignedNumeral(k: int, rest: string)
    ensures var u := NatToString(if k < 0 then -k else k) + rest;
      IntToString(k) + rest == if k < 0 then "-" + u else u
  {
    if k < 0 {
      assert IntToString(k) + rest == "-" + (NatToString(-k) + rest);
    }
  }

  /** `parseInt` of a numeral, with or without a minus sign in front. */
  lemma ParseIntOfSigned(u: string, v: nat, negative: bool)
    requires u != "" && IsDigit(u[0], 10) && ParseNumeral(u) == Some(v)
    ensures ParseInt(if negative then "-" + u else u) == Some(if negative then -(v as int) else v as int)
  {
    var s := if negative then "-" + u else u;
    DigitNotSign(u[0]);
    DigitNotSign(s[0]);
    TrimStartNonBlank(s);
    ParseSignedOf(u, negative);
  }

  /** The sign in front of a numeral. */
  lemma ParseSignedOf(u: string, negative: bool)
    requires u != "" && IsDigit(u[0], 10) && ParseNumeral(u).Some?
    ensures ParseSigned(if negative then "-" + u else u)
         == Some(if negative then -ParseNumeral(u).value else ParseNumeral(u).value)
  {
    if negative {
      assert ("-" + u)[1..] == u;
    } else {
      DigitNotSign(u[0]);
    }
  }

  /** A decimal digit or a minus sign is neither blank nor a plus sign. */
  lemma DigitNotSign(c: char)
    requires IsDigit(c, 10) || c == '-'
    ensures !IsStrWhiteSpace(c) && c != '+' && (c != '-' <== IsDigit(c, 10))
  {
  }

  /** `t` without the one sign `parseInt` accepts in front of the numeral. */
  function Unsigned(t: string): (u: string)
    ensures t == u || (t != "" && (t[0] == '-' || t[0] == '+') && u == t[1..])
  {
    if t != "" && (t[0] == '-' || t[0] == '+') then t[1..] else t
  }

  /** `u` has no numeral for `parseInt` to read: no decimal digit in front,
      or a `0x`/`0X` prefix with no hexadecimal digit behind it. */
  predicate NoNumeral(u: string)
  {
    || u == ""
    || !IsDigit(u[0], 10)
    || (|u| >= 2 && u[0] == '0' && (u[1] == 'x' || u[1] == 'X') && (|u| == 2 || !IsDigit(u[2], 16)))
  }

  /** `s` has no number for `parseInt` to read once the blanks and the
      optional sign are skipped. */
  predicate NoLeadingNumber(s: string)
  {
    NoNumeral(Unsigned(TrimStart(s)))
  }

  /** `parseInt` is NaN exactly when there is no number to read. */
  lemma ParseIntNaN(s: string)
    ensures ParseInt(s) == None <==> NoLeadingNumber(s)
  {
    var t := TrimStart(s);
    assert ParseSigned(t).None? <==> ParseNumeral(Unsigned(t)).None?;
    ParseNumeralNaN(Unsigned(t));
  }

  /** The numeral after the sign is missing exactly when `NoNumeral` says so. */
  lemma ParseNumeralNaN(u: string)
    ensures ParseNumeral(u) == None <==> NoNumeral(u)
  {
    if u != "" && IsDigit(u[0], 10) {
      if |u| >= 2 && u[0] == '0' && (u[1] == 'x' || u[1] == 'X') {
        assert DigitPrefix(u[2..], 16) == "" <==> |u| == 2 || !IsDigit(u[2], 16);
      } else {
        assert DigitPrefix(u, 10) != "";
      }
    }
  }

  /** The first two pieces of `a<sep>b` followed by nothing or by a further
      separator are `a` and `b`. */
  lemma SplitFirstTwo(a: string, b: string, rest: string, sep: char)
    requires sep !in a && sep !in b
    requires rest == "" || rest[0] == sep
    ensures |Split(a + [sep] + b + rest, sep)| >= 2
    ensures Split(a + [sep] + b + rest, sep)[0] == a
    ensures Split(a + [sep] + b + rest, sep)[1] == b
  {
    var tail := [sep] + b + rest;
    ConcatAssoc(a, [sep], b);
    ConcatAssoc(a, [sep] + b, rest);
    SplitPrefix(a, tail, sep);
    SplitAtSeparator(tail, sep);
    assert tail[1..] == b + rest;
    SplitPrefix(b, rest, sep);
    SplitStartsEmpty(rest, sep);
    assert b + "" == b && a + "" == a;
  }

  /** A string that starts with the separator splits into "" and the pieces of the rest. */
  lemma SplitAtSeparator(t: string, sep: char)
    requires t != "" && t[0] == sep
    ensures Split(t, sep) == [""] + Split(t[1..], sep)
  {
  }

  /** The first piece of a string that is empty or starts with the separator is "". */
  lemma SplitStartsEmpty(t: string, sep: char)
    requires t == "" || t[0] == sep
    ensures Split(t, sep)[0] == ""
  {
  }
}
