/** Money as text in input fields: printing minor units and parsing what a user typed. */
module MoneyText {
  import opened Basics

  const MAX_SAFE_INTEGER: int := 9007199254740991

  // ---- Digits -----------------------------------------------------------------------------------

  function Pow10(n: nat): (p: nat)
    ensures p >= 1
  {
    if n == 0 then 1 else 10 * Pow10(n - 1)
  }

  function DigitChar(n: nat): char
    requires n < 10
  {
    "0123456789"[n]
  }

  predicate IsDigit(c: char) { '0' <= c <= '9' }

  predicate AllDigits(s: string) { forall i :: 0 <= i < |s| ==> IsDigit(s[i]) }

  /** String(n): decimal digits without leading zeros. */
  function Text(n: nat): string {
    if n < 10 then [DigitChar(n)] else Text(n / 10) + [DigitChar(n % 10)]
  }

  /** BigInt(s) of a string of digits. */
  function Value(s: string): nat
    requires AllDigits(s)
  {
    if s == "" then 0 else 10 * Value(s[..|s| - 1]) + (s[|s| - 1] as int - '0' as int)
  }

  function Zeros(n: nat): (s: string)
    ensures |s| == n && AllDigits(s)
  {
    if n == 0 then "" else Zeros(n - 1) + "0"
  }

  function PadStart(s: string, n: nat): string { Zeros(if |s| < n then n - |s| else 0) + s }

  function PadEnd(s: string, n: nat): string { s + Zeros(if |s| < n then n - |s| else 0) }

  /** Whole units and remaining minor units of an amount. */
  function Whole(amount: nat, scale: nat): nat
    requires scale >= 1
  {
    amount / scale
  }

  function Rest(amount: nat, scale: nat): nat
    requires scale >= 1
  {
    amount % scale
  }

  // ---- Printer and parser -----------------------------------------------------------------------

  /** minorMoneyInputValue for a currency with `digits` fraction digits; None is the type error. */
  function Print(amount: int, digits: nat): Option<string> {
    if amount < 0 || amount > MAX_SAFE_INTEGER then None
    else
      var scale := Pow10(digits);
      var whole := Whole(amount, scale);
      Some(if digits == 0 then Text(whole) else Text(whole) + "." + PadStart(Text(Rest(amount, scale)), digits))
  }

  /** The white space and line terminators that trimming removes. */
  predicate IsSpace(c: char) {
    c in "\t\n\U{000B}\U{000C}\r \U{00A0}\U{1680}\U{2028}\U{2029}\U{202F}\U{205F}\U{3000}\U{FEFF}"
    || '\U{2000}' <= c <= '\U{200A}'
  }

  function TrimStart(s: string): string {
    if s != "" && IsSpace(s[0]) then TrimStart(s[1..]) else s
  }

  function TrimEnd(s: string): string {
    if s != "" && IsSpace(s[|s| - 1]) then TrimEnd(s[..|s| - 1]) else s
  }

  function Trim(s: string): string { TrimEnd(TrimStart(s)) }

  /** Position of the first decimal point, or the length. */
  function PointAt(s: string): (i: nat)
    ensures i <= |s| && (i < |s| ==> s[i] == '.') && forall k :: 0 <= k < i ==> s[k] != '.'
  {
    if s == "" || s[0] == '.' then 0 else 1 + PointAt(s[1..])
  }

  /**
   The whole and fraction parts of digits with an optional decimal point and more digits; None if it is
   anything else.
   */
  function Parts(s: string): Option<(string, string)> {
    var i := PointAt(s);
    if i == 0 || !AllDigits(s[..i]) then None
    else if i == |s| then Some((s, ""))
    else if i + 1 == |s| || !AllDigits(s[i + 1..]) then None
    else Some((s[..i], s[i + 1..]))
  }

  /** majorMoneyInputToMinor; None is any of its range errors. */
  function Parse(value: string, digits: nat): Option<nat> {
    var parts := Parts(Trim(value));
    if parts.None? then None
    else
      var (whole, fraction) := parts.value;
      if |fraction| > digits then None
      else
        var padded := PadEnd(fraction, digits);
        var minor := Value(whole) * Pow10(digits) + if padded == "" then 0 else Value(padded);
        if minor > MAX_SAFE_INTEGER then None else Some(minor)
  }

  // ---- Digits and values ------------------------------------------------------------------------

  lemma {:induction false} TextValue(n: nat)
    ensures AllDigits(Text(n)) && Text(n) != "" && Value(Text(n)) == n
  {
    if n >= 10 {
      TextValue(n / 10);
      assert Text(n)[..|Text(n)| - 1] == Text(n / 10);
    } else {
      assert Text(n)[..0] == "";
    }
  }

  lemma {:induction false} TextLength(n: nat, digits: nat)
    requires digits >= 1 && n < Pow10(digits)
    ensures |Text(n)| <= digits
  {
    if n >= 10 {
      assert Pow10(1) == 10 * Pow10(0) == 10;
      assert digits != 1;
      TextLength(n / 10, digits - 1);
    }
  }

  lemma {:induction false} ValueConcat(a: string, b: string)
    requires AllDigits(a) && AllDigits(b)
    ensures AllDigits(a + b) && Value(a + b) == Value(a) * Pow10(|b|) + Value(b)
  {
    if b == "" {
      assert a + b == a;
    } else {
      var front := b[..|b| - 1];
      assert (a + b)[..|a + b| - 1] == a + front;
      ValueConcat(a, front);
      assert Value(a) * Pow10(|b|) == 10 * (Value(a) * Pow10(|front|));
    }
  }

  lemma {:induction false} ZerosValue(n: nat)
    ensures Value(Zeros(n)) == 0
  {
    if n > 0 {
      ZerosValue(n - 1);
      assert Zeros(n)[..n - 1] == Zeros(n - 1);
    }
  }

  lemma PadStartValue(s: string, n: nat)
    requires AllDigits(s) && |s| <= n
    ensures AllDigits(PadStart(s, n)) && |PadStart(s, n)| == n && Value(PadStart(s, n)) == Value(s)
  {
    hide Value, Pow10, AllDigits, Zeros;
    ZerosValue(n - |s|);
    ValueConcat(Zeros(n - |s|), s);
    assert 0 * Pow10(|s|) == 0;
  }

  lemma PadEndValue(s: string, n: nat)
    requires AllDigits(s) && |s| <= n
    ensures AllDigits(PadEnd(s, n)) && |PadEnd(s, n)| == n && Value(PadEnd(s, n)) == Value(s) * Pow10(n - |s|)
  {
    hide Value, Pow10, AllDigits, Zeros;
    ZerosValue(n - |s|);
    ValueConcat(s, Zeros(n - |s|));
  }

  // ---- What the parser accepts ------------------------------------------------------------------

  /** `s` spells the whole part, and after a point the fraction if there is one. */
  predicate Spells(s: string, whole: string, fraction: string) {
    && whole != "" && AllDigits(whole) && AllDigits(fraction)
    && s == if fraction == "" then whole else whole + "." + fraction
  }

  lemma {:induction false} PointAfter(whole: string, rest: string)
    requires AllDigits(whole) && (rest == "" || rest[0] == '.')
    ensures PointAt(whole + rest) == |whole|
  {
    if whole == "" {
      assert whole + rest == rest;
    } else {
      assert (whole + rest)[0] == whole[0] && IsDigit(whole[0]);
      assert (whole + rest)[1..] == whole[1..] + rest;
      PointAfter(whole[1..], rest);
    }
  }

  lemma PartsOfSpelled(s: string, whole: string, fraction: string)
    requires Spells(s, whole, fraction)
    ensures Parts(s) == Some((whole, fraction))
  {
    if fraction == "" {
      PointAfter(whole, "");
      assert whole + "" == whole && s[..|s|] == s;
    } else {
      PointAfter(whole, "." + fraction);
      assert s == whole + ("." + fraction);
      assert s[..|whole|] == whole && s[|whole| + 1..] == fraction;
    }
  }

  lemma PartsSpell(s: string)
    requires Parts(s).Some?
    ensures Spells(s, Parts(s).value.0, Parts(s).value.1)
  {
    var i := PointAt(s);
    if i < |s| {
      assert s == s[..i] + "." + s[i + 1..];
    } else {
      assert s[..i] == s;
    }
  }

  /** The amount that a text denotes: its whole part in minor units plus its fraction, scaled to `digits` places. */
  predicate Denotes(s: string, digits: nat, whole: string, fraction: string, amount: int) {
    && Spells(s, whole, fraction) && |fraction| <= digits
    && amount == Value(whole) * Pow10(digits) + Value(fraction) * Pow10(digits - |fraction|)
  }

  lemma Minor(whole: string, fraction: string, digits: nat)
    requires AllDigits(whole) && AllDigits(fraction) && |fraction| <= digits
    ensures var padded := PadEnd(fraction, digits);
      && AllDigits(padded)
      && (if padded == "" then 0 else Value(padded)) == Value(fraction) * Pow10(digits - |fraction|)
  {
    PadEndValue(fraction, digits);
  }

  /** The parser accepts exactly the texts that, trimmed, denote a safe amount, and returns that amount. */
  lemma ParseIff(value: string, digits: nat, amount: nat)
    ensures Parse(value, digits) == Some(amount) <==>
      amount <= MAX_SAFE_INTEGER && exists whole, fraction :: Denotes(Trim(value), digits, whole, fraction, amount)
  {
    hide Trim, Parts, AllDigits, Pow10;
    var s := Trim(value);
    if Parse(value, digits) == Some(amount) {
      PartsSpell(s);
      var (whole, fraction) := Parts(s).value;
      Minor(whole, fraction, digits);
      assert Denotes(s, digits, whole, fraction, amount);
    }
    if amount <= MAX_SAFE_INTEGER && exists whole, fraction :: Denotes(s, digits, whole, fraction, amount) {
      var whole, fraction :| Denotes(s, digits, whole, fraction, amount);
      PartsOfSpelled(s, whole, fraction);
      Minor(whole, fraction, digits);
    }
  }

  // ---- Round trip -------------------------------------------------------------------------------

  lemma NothingToTrim(s: string)
    requires s != "" && IsDigit(s[0]) && IsDigit(s[|s| - 1])
    ensures Trim(s) == s
  {
  }

  lemma WholeAndRest(amount: nat, scale: nat)
    requires scale > 0
    ensures amount == Whole(amount, scale) * scale + Rest(amount, scale) && Rest(amount, scale) < scale
  {
  }

  lemma SpellingDenotes(whole: string, fraction: string, digits: nat, amount: nat)
    requires whole != "" && AllDigits(whole) && AllDigits(fraction) && |fraction| == digits
    requires Value(whole) == Whole(amount, Pow10(digits))
    requires (digits > 0 ==> Value(fraction) == Rest(amount, Pow10(digits)))
    ensures var s := if digits == 0 then whole else whole + "." + fraction;
      Denotes(s, digits, whole, fraction, amount) && Trim(s) == s
  {
    hide Whole, Rest;
    var s := if digits == 0 then whole else whole + "." + fraction;
    WholeAndRest(amount, Pow10(digits));
    assert Pow10(0) == 1;
    assert digits == 0 ==> fraction == "" && Value(fraction) == 0;
    assert IsDigit(s[0]) && IsDigit(s[|s| - 1]);
    NothingToTrim(s);
  }

  /** What the printer writes denotes the amount. */
  lemma PrintDenotes(amount: int, digits: nat)
    requires 0 <= amount <= MAX_SAFE_INTEGER
    ensures Trim(Print(amount, digits).value) == Print(amount, digits).value
    ensures exists whole, fraction :: Denotes(Print(amount, digits).value, digits, whole, fraction, amount)
  {
    hide Text, Value, AllDigits, Denotes, Trim, Pow10, PadStart, Whole, Rest;
    var scale := Pow10(digits);
    TextValue(Whole(amount, scale));
    if digits == 0 {
      assert AllDigits("") by {
        ZerosValue(0);
        assert Zeros(0) == "";
      }
      SpellingDenotes(Text(Whole(amount, scale)), "", digits, amount);
    } else {
      WholeAndRest(amount, scale);
      TextValue(Rest(amount, scale));
      TextLength(Rest(amount, scale), digits);
      PadStartValue(Text(Rest(amount, scale)), digits);
      SpellingDenotes(Text(Whole(amount, scale)), PadStart(Text(Rest(amount, scale)), digits), digits, amount);
    }
  }

  /** Parsing what was printed gives the amount back, for every safe amount and number of fraction digits. */
  lemma RoundTrip(amount: int, digits: nat)
    requires 0 <= amount <= MAX_SAFE_INTEGER
    ensures Print(amount, digits).Some? && Parse(Print(amount, digits).value, digits) == Some(amount)
  {
    PrintDenotes(amount, digits);
    ParseIff(Print(amount, digits).value, digits, amount);
  }

  /** Every accepted input reprints to a text that parses to the same amount. */
  lemma Reprint(value: string, digits: nat)
    requires Parse(value, digits).Some?
    ensures var amount := Parse(value, digits).value;
      Print(amount, digits).Some? && Parse(Print(amount, digits).value, digits) == Some(amount)
  {
    RoundTrip(Parse(value, digits).value, digits);
  }

  /** Different amounts print differently. */
  lemma PrintInjective(a: int, b: int, digits: nat)
    requires Print(a, digits).Some? && Print(a, digits) == Print(b, digits)
    ensures a == b
  {
    RoundTrip(a, digits);
    RoundTrip(b, digits);
  }
}
