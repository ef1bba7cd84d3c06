/** The parts of Go's `strings` and `strconv` packages that the codecs rely on,
    written out over sequences of characters. */
module GoStrings {
  import opened Wrappers

  // The range of Go's `int` on a 64-bit platform.
  const MAX_INT := 0x7FFF_FFFF_FFFF_FFFF
  const MIN_INT := -0x8000_0000_0000_0000

  // ---------------------------------------------------------------- Split and Join

  /** `strings.Split(s, sep)` for a one-character separator. */
  function Split(s: string, sep: char): (parts: seq<string>)
    ensures |parts| > 0
    ensures forall i :: 0 <= i < |parts| ==> sep !in parts[i]
  {
    if s == "" then [""]
    else
      var rest := Split(s[1..], sep);
      if s[0] == sep then [""] + rest else [[s[0]] + rest[0]] + rest[1..]
  }

  /** `strings.Join(parts, sep)`. */
  function Join(parts: seq<string>, sep: char): string {
    if |parts| == 0 then ""
    else if |parts| == 1 then parts[0]
    else parts[0] + [sep] + Join(parts[1..], sep)
  }

  ghost predicate Lacks(parts: seq<string>, c: char) {
    forall i :: 0 <= i < |parts| ==> c !in parts[i]
  }

  lemma {:induction false} JoinSplit(s: string, sep: char)
    ensures Join(Split(s, sep), sep) == s
  {
    if s != "" {
      JoinSplit(s[1..], sep);
      var rest := Split(s[1..], sep);
      if s[0] == sep {
        assert Split(s, sep)[1..] == rest;
      } else {
        assert Split(s, sep)[1..] == rest[1..];
      }
    }
  }

  lemma {:induction false} SplitWithoutSeparator(s: string, sep: char)
    requires sep !in s
    ensures Split(s, sep) == [s]
  {
    if s != "" {
      assert s[0] in s;
      SplitWithoutSeparator(s[1..], sep);
      assert [s[0]] + s[1..] == s;
    }
  }

  /** Splitting distributes over a separator, whatever the two sides hold. */
  lemma {:induction false} SplitAppend(a: string, b: string, sep: char)
    ensures Split(a + [sep] + b, sep) == Split(a, sep) + Split(b, sep)
  {
    var s := a + [sep] + b;
    if a == "" {
      assert s[1..] == b;
    } else {
      assert s[1..] == a[1..] + [sep] + b && s[0] == a[0];
      SplitAppend(a[1..], b, sep);
      var x, y := Split(a[1..], sep), Split(b, sep);
      assert Split(s[1..], sep) == x + y;
      if a[0] == sep {
        assert [""] + (x + y) == ([""] + x) + y;
      } else {
        assert [[a[0]] + (x + y)[0]] + (x + y)[1..] == ([[a[0]] + x[0]] + x[1..]) + y;
      }
    }
  }

  lemma {:induction false} SplitJoin(parts: seq<string>, sep: char)
    requires |parts| > 0 && Lacks(parts, sep)
    ensures Split(Join(parts, sep), sep) == parts
  {
    SplitWithoutSeparator(parts[0], sep);
    if |parts| > 1 {
      SplitJoin(parts[1..], sep);
      SplitAppend(parts[0], Join(parts[1..], sep), sep);
    }
  }

  /** Exactly which lists survive being joined and split again. */
  lemma SplitJoinExactly(parts: seq<string>, sep: char)
    ensures Split(Join(parts, sep), sep) == parts <==> |parts| > 0 && Lacks(parts, sep)
  {
    if |parts| > 0 && Lacks(parts, sep) {
      SplitJoin(parts, sep);
    }
  }

  // ---------------------------------------------------------------- Replacer

  /** `strings.NewReplacer(from, to).Replace(s)` for one-character arguments. */
  function Replace(s: string, from: char, to: char): (r: string)
    ensures |r| == |s|
    ensures forall i :: 0 <= i < |s| ==> r[i] == if s[i] == from then to else s[i]
  {
    seq(|s|, i requires 0 <= i < |s| => if s[i] == from then to else s[i])
  }

  lemma ReplaceRemoves(s: string, from: char, to: char)
    requires from != to
    ensures from !in Replace(s, from, to)
  {
    var r := Replace(s, from, to);
    forall i | 0 <= i < |r| ensures r[i] != from { assert s[i] == s[i]; }
  }

  /** Replacing there and back again is the identity exactly on strings without the replacement. */
  lemma ReplaceBack(s: string, from: char, to: char)
    requires from != to
    ensures Replace(Replace(s, from, to), to, from) == s <==> to !in s
    ensures Replace(Replace(s, from, to), to, from) == Replace(s, to, from)
  {
    if to in s {
      var i :| 0 <= i < |s| && s[i] == to;
      assert Replace(Replace(s, from, to), to, from)[i] == from;
    }
  }

  lemma ReplaceNothing(s: string, from: char, to: char)
    requires from !in s
    ensures Replace(s, from, to) == s
  {
  }

  // ---------------------------------------------------------------- Itoa and Atoi

  predicate IsDigit(c: char) {
    '0' <= c <= '9'
  }

  function Digits(n: nat): (s: string)
    ensures s != "" && AllDigits(s)
  {
    var d := [('0' as int + n % 10) as char];
    if n < 10 then d else Digits(n / 10) + d
  }

  /** The decimal text that `%v` prints for an `int`. */
  function Itoa(n: int): string {
    if n < 0 then "-" + Digits(-n) else Digits(n)
  }

  predicate AllDigits(s: string) {
    forall i :: 0 <= i < |s| ==> IsDigit(s[i])
  }

  function DigitValue(c: char): nat
    requires IsDigit(c)
  {
    c as int - '0' as int
  }

  function DecimalValue(s: string): nat
    requires AllDigits(s)
  {
    if s == "" then 0 else DecimalValue(s[..|s| - 1]) * 10 + DigitValue(s[|s| - 1])
  }

  /** `strconv.Atoi`: an optional sign, at least one digit, nothing else, and in range. */
  function Atoi(s: string): Option<int> {
    var signed := s != "" && (s[0] == '-' || s[0] == '+');
    var body := if signed then s[1..] else s;
    if body == "" || !AllDigits(body) then None
    else
      var n: int := DecimalValue(body);
      var v := if signed && s[0] == '-' then -n else n;
      if MIN_INT <= v <= MAX_INT then Some(v) else None
  }

  lemma {:induction false} DigitsValue(n: nat)
    ensures DecimalValue(Digits(n)) == n
  {
    var s := Digits(n);
    var d := [('0' as int + n % 10) as char];
    if n < 10 {
      assert s == d && s[..0] == "";
    } else {
      DigitsValue(n / 10);
      assert s[..|s| - 1] == Digits(n / 10);
    }
  }

  lemma ItoaShape(n: int)
    ensures '.' !in Itoa(n) && '/' !in Itoa(n)
  {
    assert forall i :: 0 <= i < |Itoa(n)| ==> Itoa(n)[i] == '-' || IsDigit(Itoa(n)[i]);
  }

  /** Printing then parsing returns the number, exactly when it fits an `int`. */
  lemma AtoiItoa(n: int)
    ensures Atoi(Itoa(n)) == if MIN_INT <= n <= MAX_INT then Some(n) else None
  {
    var s, m := Itoa(n), if n < 0 then -n else n;
    DigitsValue(m);
    if n < 0 {
      assert s[1..] == Digits(m);
    } else {
      assert IsDigit(s[0]);
    }
  }

  lemma ItoaInjective(m: int, n: int)
    requires Itoa(m) == Itoa(n)
    ensures m == n
  {
    DigitsValue(if m < 0 then -m else m);
    DigitsValue(if n < 0 then -n else n);
    assert m >= 0 ==> IsDigit(Itoa(m)[0]);
    assert n >= 0 ==> IsDigit(Itoa(n)[0]);
    if m < 0 {
      assert Itoa(m)[1..] == Digits(-m) && Itoa(n)[1..] == Digits(-n);
    }
  }

  /** Parsing is not injective: a leading zero or a plus sign is dropped. */
  lemma AtoiMergesSpellings()
    ensures Atoi("1") == Some(1) && Atoi("01") == Some(1) && Atoi("+1") == Some(1)
  {
    assert DecimalValue("1") == 1;
    assert "01"[..1] == "0";
    assert DecimalValue("0") == 0;
    assert DecimalValue("01") == 1;
    assert "+1"[1..] == "1";
  }

  // ---------------------------------------------------------------- What Atoi and Itoa say about numbers

  /** Exactly the 64-bit integers are printed in a form that is read back. */
  lemma AtoiRangeExactly(n: int)
    ensures Atoi(Itoa(n)).Some? <==> -9_223_372_036_854_775_808 <= n <= 9_223_372_036_854_775_807
  {
    AtoiItoa(n);
  }

  /** Nothing but an optional sign and at least one digit is a number. */
  lemma AtoiRejects(s: string, i: nat)
    requires s == "" || s == "+" || s == "-" ||
             (i < |s| && !('0' <= s[i] <= '9') && (i == 0 ==> s[0] != '+' && s[0] != '-'))
    ensures Atoi(s).None?
  {
    if |s| > 1 || (s != "" && s[0] != '+' && s[0] != '-') {
      var signed := s[0] == '-' || s[0] == '+';
      var body := if signed then s[1..] else s;
      assert body[if signed then i - 1 else i] == s[i];
    }
  }

  /** A single digit is worth its distance from '0'. */
  lemma AtoiDigit(c: char)
    requires '0' <= c <= '9'
    ensures Atoi([c]) == Some(c as int - '0' as int)
  {
    assert AllDigits([c]);
    assert [c][..|[c]| - 1] == "";
    assert DecimalValue([c]) == DigitValue(c);
  }

  /** One more digit multiplies by ten and adds, away from zero, as long as the result is in range. */
  lemma AtoiOneMore(s: string, c: char)
    requires Atoi(s).Some? && '0' <= c <= '9'
    ensures var v, d := Atoi(s).value, c as int - '0' as int;
            var w := if s[0] == '-' then 10 * v - d else 10 * v + d;
            Atoi(s + [c]) == if -9_223_372_036_854_775_808 <= w <= 9_223_372_036_854_775_807 then Some(w) else None
  {
    var t := s + [c];
    var signed := s[0] == '-' || s[0] == '+';
    var before := if signed then s[1..] else s;
    var after := if signed then t[1..] else t;
    assert after == before + [c];
    assert after[..|after| - 1] == before;
    assert AllDigits(after);
  }

  /** A leading sign negates or does nothing. */
  lemma AtoiSigned(s: string)
    requires Atoi(s).Some? && s[0] != '-' && s[0] != '+'
    ensures Atoi(['+'] + s) == Atoi(s) && Atoi(['-'] + s) == Some(-Atoi(s).value)
  {
    assert (['+'] + s)[1..] == s && (['-'] + s)[1..] == s;
  }

  lemma {:induction false} DigitsOfValue(s: string)
    requires s != "" && AllDigits(s) && (|s| > 1 ==> s[0] != '0')
    ensures Digits(DecimalValue(s)) == s && (s[0] != '0' ==> DecimalValue(s) > 0)
  {
    var n := |s| - 1;
    var front := s[..n];
    assert s == front + [s[n]];
    if n > 0 {
      DigitsOfValue(front);
      assert DecimalValue(s) / 10 == DecimalValue(front) && DecimalValue(s) % 10 == DigitValue(s[n]);
    } else {
      assert front == "";
    }
  }

  lemma {:induction false} DigitsStart(n: nat)
    ensures Digits(n)[0] == '0' ==> n == 0
  {
    if n >= 10 {
      DigitsStart(n / 10);
    }
  }

  /** Among all spellings of a number, the printed one is that without a plus sign and leading zeros. */
  lemma PrintedSpellingExactly(s: string)
    requires Atoi(s).Some?
    ensures s == Itoa(Atoi(s).value) <==>
            s == "0" || '1' <= s[0] <= '9' || (|s| > 1 && s[0] == '-' && '1' <= s[1] <= '9')
  {
    var v := Atoi(s).value;
    DigitsStart(if v < 0 then -v else v);
    if '1' <= s[0] <= '9' || s == "0" {
      DigitsOfValue(s);
    } else if |s| > 1 && s[0] == '-' && '1' <= s[1] <= '9' {
      DigitsOfValue(s[1..]);
      assert s == "-" + s[1..];
    }
    assert Digits(0) == "0";
    assert v < 0 ==> Itoa(v)[1] == Digits(-v)[0];
  }
}
