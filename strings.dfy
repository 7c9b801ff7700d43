/** The few string primitives of JavaScript the screens rely on: case folding,
    `includes`, `trim`, `split(" ")`, `parseInt` and number-to-string. */
module Strings {
  import opened Seqs

  // ---------------------------------------------------------------- case

  predicate IsUpper(c: char) { 'A' <= c <= 'Z' }

  /** `toLowerCase` on one character, restricted to ASCII letters. */
  function LowerChar(c: char): char
  {
    if IsUpper(c) then (c as int + 32) as char else c
  }

  /** `toLowerCase` (ASCII letters only). */
  function Lower(s: string): (r: string)
    ensures |r| == |s|
    ensures forall i {:trigger r[i]} :: 0 <= i < |s| ==> r[i] == LowerChar(s[i])
  {
    if s == [] then [] else [LowerChar(s[0])] + Lower(s[1..])
  }

  /** Two strings that are equal ignoring case. */
  predicate EqualsIgnoringCase(a: string, b: string)
  {
    Lower(a) == Lower(b)
  }

  // ------------------------------------------------------------ includes

  /** `q` occurs in `s` starting at index `i`. */
  predicate OccursAt(q: string, s: string, i: int)
  {
    0 <= i && i + |q| <= |s| && s[i..i + |q|] == q
  }

  /** `q` occurs somewhere in `s`. */
  ghost predicate Occurs(q: string, s: string)
  {
    exists i :: OccursAt(q, s, i)
  }

  /** `String.prototype.includes`. */
  function Includes(s: string, q: string): (b: bool)
    ensures b <==> Occurs(q, s)
    decreases |s|
  {
    if |q| > |s| then false
    else if s[..|q|] == q then
      assert OccursAt(q, s, 0);
      true
    else
      var b := Includes(s[1..], q);
      assert forall i :: OccursAt(q, s[1..], i) ==> OccursAt(q, s, i + 1);
      assert forall i :: OccursAt(q, s, i) ==> i > 0 && OccursAt(q, s[1..], i - 1);
      b
  }

  // ---------------------------------------------------------------- trim

  /** The characters JavaScript's `trim` removes (WhiteSpace and LineTerminator). */
  predicate IsSpace(c: char)
  {
    var n := c as int;
    n == 0x09 || n == 0x0A || n == 0x0B || n == 0x0C || n == 0x0D || n == 0x20 ||
    n == 0xA0 || n == 0x1680 || (0x2000 <= n <= 0x200A) || n == 0x2028 || n == 0x2029 ||
    n == 0x202F || n == 0x205F || n == 0x3000 || n == 0xFEFF
  }

  /** Only white space (the empty string included). */
  predicate IsBlank(s: string)
  {
    forall i :: 0 <= i < |s| ==> IsSpace(s[i])
  }

  /** `trimStart`: the longest suffix that does not start with white space. */
  function TrimStart(s: string): (r: string)
    ensures |r| <= |s| && r == s[|s| - |r|..]
    ensures IsBlank(s[..|s| - |r|])
    ensures r == [] || !IsSpace(r[0])
  {
    if s != [] && IsSpace(s[0]) then
      var r := TrimStart(s[1..]);
      assert s[..|s| - |r|] == [s[0]] + s[1..][..|s[1..]| - |r|];
      r
    else s
  }

  /** `trimEnd`: the longest prefix that does not end with white space. */
  function TrimEnd(s: string): (r: string)
    ensures |r| <= |s| && r == s[..|r|]
    ensures IsBlank(s[|r|..])
    ensures r == [] || !IsSpace(r[|r| - 1])
  {
    if s != [] && IsSpace(s[|s| - 1]) then
      var r := TrimEnd(s[..|s| - 1]);
      assert s[|r|..] == s[..|s| - 1][|r|..] + [s[|s| - 1]];
      r
    else s
  }

  /** `trim`: what is left starts and ends with a character that is not white space. */
  function Trim(s: string): (r: string)
    ensures |r| <= |s|
    ensures r == [] || (!IsSpace(r[0]) && !IsSpace(r[|r| - 1]))
  {
    TrimEnd(TrimStart(s))
  }

  /** What `trim` leaves is the input with a blank prefix and a blank suffix removed. */
  lemma TrimIsInfix(s: string)
    ensures var r := Trim(s);
            exists k :: 0 <= k <= |s| - |r| && r == s[k..k + |r|] && IsBlank(s[..k]) && IsBlank(s[k + |r|..])
  {
    var a := TrimStart(s);
    var r := TrimEnd(a);
    var k := |s| - |a|;
    assert r == s[k..k + |r|];
    assert IsBlank(s[..k]);
    assert s[k + |r|..] == a[|r|..];
    assert IsBlank(s[k + |r|..]);
  }

  /** Trimming leaves nothing exactly when the string is blank. */
  lemma TrimEmptyIffBlank(s: string)
    ensures Trim(s) == [] <==> IsBlank(s)
  {
    var t := TrimStart(s);
    if Trim(s) == [] {
      assert t == [] by {
        assert IsBlank(t) by { assert t[0..] == t; }
      }
      assert s[..|s| - |t|] == s;
    }
  }

  // -------------------------------------------------------------- digits

  predicate IsDigit(c: char) { '0' <= c <= '9' }

  predicate AllDigits(s: string)
  {
    forall i :: 0 <= i < |s| ==> IsDigit(s[i])
  }

  /** `text.replace(/\D/g, '')`: the decimal digits of `text`, in order. */
  function KeepDigits(text: string): (r: string)
    ensures AllDigits(r)
    ensures IsSubseq(r, text)
    ensures |r| == Count(text, IsDigit)
  {
    Filter(text, IsDigit)
  }

  lemma {:induction false} KeepDigitsAppend(a: string, b: string)
    ensures KeepDigits(a + b) == KeepDigits(a) + KeepDigits(b)
  {
    if a == [] {
      assert a + b == b;
    } else {
      assert (a + b)[1..] == a[1..] + b;
      KeepDigitsAppend(a[1..], b);
    }
  }

  /** A separator that is not a digit disappears from the digits. */
  lemma KeepDigitsSkip(a: string, separator: char, b: string)
    requires !IsDigit(separator)
    ensures KeepDigits(a + [separator] + b) == KeepDigits(a) + KeepDigits(b)
  {
    KeepDigitsAppend(a + [separator], b);
    KeepDigitsAppend(a, [separator]);
    assert [separator][1..] == [];
  }

  lemma KeepDigitsOfDigits(s: string)
    requires AllDigits(s)
    ensures KeepDigits(s) == s
  {
    FilterKeepsAll(s, IsDigit);
  }

  function DigitValue(c: char): nat
    requires IsDigit(c)
  {
    c as int - '0' as int
  }

  function DigitChar(d: nat): (c: char)
    requires d < 10
    ensures IsDigit(c) && DigitValue(c) == d
  {
    ('0' as int + d) as char
  }

  /** The number a string of decimal digits denotes. */
  function ValueOf(s: string): nat
    requires AllDigits(s)
  {
    if s == [] then 0 else 10 * ValueOf(s[..|s| - 1]) + DigitValue(s[|s| - 1])
  }

  /** `n.toString()` for a natural number. */
  function NatToString(n: nat): (s: string)
    ensures s != [] && AllDigits(s)
    ensures |s| > 1 ==> s[0] != '0'
  {
    if n < 10 then [DigitChar(n)] else NatToString(n / 10) + [DigitChar(n % 10)]
  }

  /** Reading back a number's decimal text gives the number. */
  lemma {:induction false} ValueOfNatToString(n: nat)
    ensures ValueOf(NatToString(n)) == n
  {
    if n >= 10 {
      var s := NatToString(n);
      assert s[..|s| - 1] == NatToString(n / 10);
      ValueOfNatToString(n / 10);
    }
  }

  /** A number below 10 has one digit, one from 10 to 99 two. */
  lemma NatToStringLength(n: nat)
    ensures n < 10 ==> |NatToString(n)| == 1
    ensures 10 <= n < 100 ==> |NatToString(n)| == 2
    ensures 1000 <= n < 10000 ==> |NatToString(n)| == 4
  {
    if n >= 10 {
      NatToStringLength(n / 10);
    }
  }

  /** `n.toString()` for any integer: the digits of its magnitude, after a
      minus sign when it is negative. */
  function IntToString(n: int): (s: string)
    ensures n >= 0 ==> AllDigits(s) && ValueOf(s) == n && s != [] && (|s| > 1 ==> s[0] != '0')
    ensures n < 0 ==> |s| > 1 && s[0] == '-' && AllDigits(s[1..]) && ValueOf(s[1..]) == -n && s[1] != '0'
  {
    ValueOfNatToString(if n < 0 then -n else n);
    assert n < 0 ==> ("-" + NatToString(-n))[1..] == NatToString(-n);
    if n < 0 then "-" + NatToString(-n) else NatToString(n)
  }

  // ------------------------------------------------------------ parseInt

  /** The longest prefix of `s` made of digits. */
  function DigitPrefix(s: string): (r: string)
    ensures |r| <= |s| && AllDigits(r) && r == s[..|r|]
    ensures |r| < |s| ==> !IsDigit(s[|r|])
  {
    if s != [] && IsDigit(s[0]) then [s[0]] + DigitPrefix(s[1..]) else []
  }

  /** `parseInt(s)` (radix 10): leading white space, an optional sign, then the
      longest run of digits; `None` stands for `NaN`. */
  function ParseInt(s: string): (r: Option<int>)
    ensures var t := SkipSign(TrimStart(s)); r.None? <==> t == [] || !IsDigit(t[0])
    ensures r.Some? && r.value < 0 ==> TrimStart(s)[0] == '-'
  {
    var t := TrimStart(s);
    var negative := t != [] && t[0] == '-';
    var digits := DigitPrefix(SkipSign(t));
    if digits == [] then None
    else if negative then Some(-(ValueOf(digits) as int))
    else Some(ValueOf(digits))
  }

  function SkipSign(t: string): string
  {
    if t != [] && (t[0] == '-' || t[0] == '+') then t[1..] else t
  }

  /** `parseInt` of a non-empty run of digits is the number they denote. */
  lemma ParseIntDigits(s: string)
    requires s != [] && AllDigits(s)
    ensures ParseInt(s) == Some(ValueOf(s))
  {
    assert !IsSpace(s[0]) && s[0] != '-' && s[0] != '+';
    assert TrimStart(s) == s;
    assert SkipSign(s) == s;
    DigitPrefixAll(s);
  }

  /** `parseInt` reads back what `toString` wrote. */
  lemma ParseIntNatToString(n: nat)
    ensures ParseInt(NatToString(n)) == Some(n)
  {
    ParseIntDigits(NatToString(n));
    ValueOfNatToString(n);
  }

  lemma {:induction false} DigitPrefixAll(s: string)
    requires AllDigits(s)
    ensures DigitPrefix(s) == s
  {
    if s != [] {
      DigitPrefixAll(s[1..]);
    }
  }

  /** `parseInt` skips leading white space, reads an optional sign, and stops
      at the first character after the digits that is not a digit. */
  lemma ParseIntLeading(ws: string, sign: string, digits: string, rest: string)
    requires IsBlank(ws) && (sign == "" || sign == "+" || sign == "-")
    requires digits != [] && AllDigits(digits) && (rest == [] || !IsDigit(rest[0]))
    ensures ParseInt(ws + sign + digits + rest) ==
            Some(if sign == "-" then -(ValueOf(digits) as int) else ValueOf(digits))
  {
    var u := digits + rest;
    var t := sign + u;
    assert ws + sign + digits + rest == ws + t;
    SignedDigits(sign, u);
    TrimStartAfterBlank(ws, t);
    DigitPrefixThenStop(digits, rest);
    ParseIntOfParts(ws + t, t, digits);
  }

  /** `parseInt` once the white space is skipped and the digits are found. */
  lemma ParseIntOfParts(s: string, t: string, digits: string)
    requires TrimStart(s) == t && t != [] && digits != [] && DigitPrefix(SkipSign(t)) == digits
    ensures ParseInt(s) == Some(if t[0] == '-' then -(ValueOf(digits) as int) else ValueOf(digits))
  {
  }

  /** A sign, or none, in front of a digit. */
  lemma SignedDigits(sign: string, u: string)
    requires sign == "" || sign == "+" || sign == "-"
    requires u != [] && IsDigit(u[0])
    ensures var t := sign + u;
            t != [] && !IsSpace(t[0]) && SkipSign(t) == u && (t[0] == '-' <==> sign == "-")
  {
    if sign == "" {
      assert sign + u == u;
    } else {
      assert (sign + u)[0] == sign[0] && (sign + u)[1..] == u;
    }
  }

  /** Trailing junk after the digits is ignored: `parseInt("5th")` is 5. */
  lemma ParseIntOrdinal()
    ensures ParseInt("5" + "th") == Some(5)
  {
    assert AllDigits("5") && ValueOf("5") == 5 by { assert "5"[..0] == ""; }
    ParseIntLeading("", "", "5", "th");
    assert "" + "" + "5" + "th" == "5" + "th";
  }

  lemma {:induction false} TrimStartAfterBlank(ws: string, t: string)
    requires IsBlank(ws) && (t == [] || !IsSpace(t[0]))
    ensures TrimStart(ws + t) == t
  {
    if ws != [] {
      assert (ws + t)[1..] == ws[1..] + t;
      TrimStartAfterBlank(ws[1..], t);
    } else {
      assert ws + t == t;
    }
  }

  lemma {:induction false} DigitPrefixThenStop(digits: string, rest: string)
    requires AllDigits(digits) && (rest == [] || !IsDigit(rest[0]))
    ensures DigitPrefix(digits + rest) == digits
  {
    if digits != [] {
      assert (digits + rest)[1..] == digits[1..] + rest;
      DigitPrefixThenStop(digits[1..], rest);
    } else {
      assert digits + rest == rest;
    }
  }

  // --------------------------------------------------------------- split

  /** `s.split(" ")`: the pieces between single spaces, empty ones included. */
  function Split(s: string): (parts: seq<string>)
    ensures |parts| >= 1
    ensures forall k :: 0 <= k < |parts| ==> ' ' !in parts[k]
  {
    if s == [] then [""]
    else
      var rest := Split(s[1..]);
      if s[0] == ' ' then [""] + rest
      else [[s[0]] + rest[0]] + rest[1..]
  }

  /** Joining pieces back with single spaces. */
  function JoinSpaces(parts: seq<string>): string
    requires |parts| >= 1
  {
    if |parts| == 1 then parts[0] else parts[0] + " " + JoinSpaces(parts[1..])
  }

  /** Splitting loses nothing: the pieces rejoin into the original text. */
  lemma {:induction false} SplitJoin(s: string)
    ensures JoinSpaces(Split(s)) == s
  {
    if s != [] {
      SplitJoin(s[1..]);
      var rest := Split(s[1..]);
      if s[0] == ' ' {
        assert Split(s)[1..] == rest;
      } else {
        var parts := Split(s);
        assert parts[1..] == rest[1..];
        if |rest| > 1 {
          assert JoinSpaces(rest) == rest[0] + " " + JoinSpaces(rest[1..]);
        }
      }
    }
  }

  /** A word without spaces is a single piece. */
  lemma {:induction false} SplitWord(w: string)
    requires ' ' !in w
    ensures Split(w) == [w]
  {
    if w != [] {
      assert w[0] in w && forall c :: c in w[1..] ==> c in w;
      SplitWord(w[1..]);
      assert [w[0]] + w[1..] == w;
    }
  }

  /** A word without spaces followed by a space is the first piece. */
  lemma {:induction false} SplitAfterWord(w: string, rest: string)
    requires ' ' !in w
    ensures Split(w + " " + rest) == [w] + Split(rest)
  {
    if w == [] {
      assert w + " " + rest == [' '] + rest;
    } else {
      var text := w + " " + rest;
      assert text[0] == w[0] && w[0] in w && w[0] != ' ';
      assert text[1..] == w[1..] + " " + rest;
      assert forall c :: c in w[1..] ==> c in w;
      SplitAfterWord(w[1..], rest);
      assert [w[0]] + w[1..] == w;
    }
  }
}
