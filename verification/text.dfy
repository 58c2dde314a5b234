/** Characters, decimal numbers and C strings, as the two text formats use them. A character stands for one byte,
    as `wc -c`, `fread` and the pointer arithmetic of the parsers count them. */
module Text {
  // isspace in the C locale.
  predicate IsSpace(c: char) { c == ' ' || '\t' <= c <= '\r' }

  predicate IsDigit(c: char) { '0' <= c <= '9' }

  function DigitValue(c: char): nat
    requires IsDigit(c)
  {
    c as int - '0' as int
  }

  function Digit(d: nat): (c: char)
    requires d < 10
    ensures IsDigit(c) && DigitValue(c) == d
  {
    ('0' as int + d) as char
  }

  predicate AllDigits(s: string) { forall i :: 0 <= i < |s| ==> IsDigit(s[i]) }

  // A number as the shell prints it.
  function Decimal(n: nat): (s: string)
    ensures |s| >= 1 && AllDigits(s)
  {
    if n < 10 then [Digit(n)] else Decimal(n / 10) + [Digit(n % 10)]
  }

  // atoi: white space, a sign, digits; whatever follows is ignored.
  function Digits(s: string, acc: nat): nat {
    if s == "" || !IsDigit(s[0]) then acc else Digits(s[1..], 10 * acc + DigitValue(s[0]))
  }

  function Atoi(s: string): int {
    if s == "" then 0
    else if IsSpace(s[0]) then Atoi(s[1..])
    else if s[0] == '-' then 0 - Digits(s[1..], 0)
    else if s[0] == '+' then Digits(s[1..], 0)
    else Digits(s, 0)
  }

  lemma {:induction false} DigitsOneMore(s: string, acc: nat, c: char)
    requires AllDigits(s) && IsDigit(c)
    ensures Digits(s + [c], acc) == 10 * Digits(s, acc) + DigitValue(c)
  {
    if s == "" {
      assert Digits([c], acc) == Digits([c][1..], 10 * acc + DigitValue(c));
    } else {
      assert (s + [c])[1..] == s[1..] + [c];
      DigitsOneMore(s[1..], 10 * acc + DigitValue(s[0]), c);
    }
  }

  // Reading back what was printed.
  lemma {:induction false} DigitsOfDecimal(n: nat)
    ensures Digits(Decimal(n), 0) == n
  {
    if n < 10 {
      assert Digits([Digit(n)], 0) == Digits([Digit(n)][1..], n);
    } else {
      DigitsOfDecimal(n / 10);
      DigitsOneMore(Decimal(n / 10), 0, Digit(n % 10));
    }
  }

  lemma AtoiOfDecimal(n: nat)
    ensures Atoi(Decimal(n)) == n
  {
    DigitsOfDecimal(n);
  }

  lemma {:induction false} DigitsStop(s: string, t: string, acc: nat)
    requires AllDigits(s) && (t == "" || !IsDigit(t[0]))
    ensures Digits(s + t, acc) == Digits(s, acc)
  {
    if s == "" {
      assert s + t == t;
    } else {
      assert (s + t)[1..] == s[1..] + t && (s + t)[0] == s[0];
      DigitsStop(s[1..], t, 10 * acc + DigitValue(s[0]));
    }
  }

  lemma {:induction false} AtoiSkips(w: string, t: string)
    requires forall i :: 0 <= i < |w| ==> IsSpace(w[i])
    ensures Atoi(w + t) == Atoi(t)
  {
    if w == "" {
      assert w + t == t;
    } else {
      assert (w + t)[1..] == w[1..] + t && (w + t)[0] == w[0];
      AtoiSkips(w[1..], t);
    }
  }

  // White space in front and one sign are read, and what follows the digits is ignored.
  lemma AtoiReads(w: string, sign: string, n: nat, t: string)
    requires (forall i :: 0 <= i < |w| ==> IsSpace(w[i])) && (sign == "" || sign == "+" || sign == "-") && (t == "" || !IsDigit(t[0]))
    ensures Atoi(w + (sign + (Decimal(n) + t))) == if sign == "-" then 0 - n else n
  {
    hide Decimal;
    var s := Decimal(n) + t;
    AtoiSkips(w, sign + s);
    DigitsStop(Decimal(n), t, 0);
    DigitsOfDecimal(n);
    assert IsDigit(s[0]) && Atoi(s) == Digits(s, 0);
    if sign == "" {
      assert sign + s == s;
    } else {
      assert (sign + s)[1..] == s;
    }
  }

  // Leading zeros do not count.
  lemma AtoiOfPadded(s: string)
    requires s != "" && AllDigits(s)
    ensures Atoi("0" + s) == Atoi(s)
  {
    assert ("0" + s)[1..] == s;
  }

  // The text up to the first NUL.
  function CString(s: string): (r: string)
    ensures r <= s && '\0' !in r && (|r| < |s| ==> s[|r|] == '\0')
  {
    if s == "" || s[0] == '\0' then "" else [s[0]] + CString(s[1..])
  }

  lemma CStringWhole(s: string)
    requires '\0' !in s
    ensures CString(s) == s
  {}

  lemma {:induction false} DecimalLength(n: nat)
    ensures n < 10000 ==> |Decimal(n)| <= 4
    ensures n >= 10000 ==> |Decimal(n)| >= 5
  {
    assert n < 10 ==> |Decimal(n)| == 1;
    assert 10 <= n < 100 ==> Decimal(n / 10) == [Digit(n / 10)];
    assert n >= 10 ==> |Decimal(n)| == |Decimal(n / 10)| + 1;
    assert n >= 100 ==> |Decimal(n / 10)| == |Decimal(n / 10 / 10)| + 1;
    assert n >= 1000 ==> |Decimal(n / 10 / 10)| == |Decimal(n / 10 / 10 / 10)| + 1;
    assert n >= 10000 ==> |Decimal(n / 10 / 10 / 10)| == |Decimal(n / 10 / 10 / 10 / 10)| + 1;
  }
}
