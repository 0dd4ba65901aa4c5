/** Amounts in hundredths of SOL: the withdrawal-amount draft filter, the
    conversion of drafts and offer prices to amounts, and the string the
    dashboard pre-fills into the draft. */
module Amounts {
  import opened Base

  predicate IsDigit(c: char)
  {
    '0' <= c <= '9'
  }

  predicate AllDigits(s: string)
  {
    forall i :: 0 <= i < |s| ==> IsDigit(s[i])
  }

  function DigitValue(c: char): (d: nat)
    requires IsDigit(c)
    ensures d < 10
  {
    (c as int) - ('0' as int)
  }

  function DigitChar(d: nat): (c: char)
    requires d < 10
    ensures IsDigit(c) && DigitValue(c) == d
  {
    (('0' as int) + d) as char
  }

  /** The value of a string of decimal digits, read most significant first. */
  function DigitsValue(s: string): nat
    requires AllDigits(s)
  {
    if s == [] then 0 else DigitsValue(s[..|s| - 1]) * 10 + DigitValue(s[|s| - 1])
  }

  /** The decimal digits of `n`, without leading zeros. */
  function NatToDigits(n: nat): (s: string)
    ensures s != [] && AllDigits(s)
  {
    if n < 10 then [DigitChar(n)] else NatToDigits(n / 10) + [DigitChar(n % 10)]
  }

  lemma {:induction false} DigitsRoundTrip(n: nat)
    ensures DigitsValue(NatToDigits(n)) == n
  {
    var s := NatToDigits(n);
    if n >= 10 {
      DigitsRoundTrip(n / 10);
      assert s[..|s| - 1] == NatToDigits(n / 10);
    }
  }

  /** The index of the first '.' in `s`, if any. */
  function FirstDot(s: string): (r: Option<nat>)
    ensures r == None <==> '.' !in s
    ensures r.Some? ==> r.value < |s| && s[r.value] == '.' && '.' !in s[..r.value]
  {
    if s == [] then None
    else if s[0] == '.' then Some(0)
    else match FirstDot(s[1..]) {
      case None => None
      case Some(k) => assert s[..k + 1] == [s[0]] + s[1..][..k]; Some(k + 1)
    }
  }

  /** The pattern `^\d*\.?\d{0,2}$` of the amount input: digits, then
      optionally one '.' followed by at most two digits. */
  predicate AmountPattern(s: string)
    ensures AllDigits(s) ==> AmountPattern(s)
    ensures AmountPattern(s) ==> ',' !in s
  {
    match FirstDot(s)
    case None => AllDigits(s)
    case Some(k) =>
      assert forall i :: 0 <= i < k ==> s[..k][i] == s[i];
      assert forall i :: k < i < |s| ==> s[k + 1..][i - k - 1] == s[i];
      AllDigits(s[..k]) && AllDigits(s[k + 1..]) && |s| - (k + 1) <= 2
  }

  /** `s.replace(a, b)` with a one-character search string: only the first
      occurrence of `a` is replaced. */
  function ReplaceFirst(s: string, a: char, b: char): (r: string)
    ensures |r| == |s|
    ensures a !in s ==> r == s
    ensures forall i :: 0 <= i < |s| ==> r[i] == s[i] || (s[i] == a && r[i] == b && a !in s[..i])
  {
    if s == [] then []
    else if s[0] == a then [b] + s[1..]
    else
      var t := ReplaceFirst(s[1..], a, b);
      assert forall i :: 1 <= i < |s| ==> s[..i] == [s[0]] + s[1..][..i - 1];
      [s[0]] + t
  }

  /** When `a` occurs and differs from `b`, exactly one `a` becomes a `b`. */
  lemma {:induction false} ReplaceFirstCount(s: string, a: char, b: char)
    requires a in s && a != b
    ensures b in ReplaceFirst(s, a, b)
    ensures multiset(ReplaceFirst(s, a, b))[a] == multiset(s)[a] - 1
  {
    var r := ReplaceFirst(s, a, b);
    assert s == [s[0]] + s[1..];
    if s[0] == a {
      assert r == [b] + s[1..];
      assert multiset(r) == multiset([b]) + multiset(s[1..]);
    } else {
      var t := ReplaceFirst(s[1..], a, b);
      assert r == [s[0]] + t;
      ReplaceFirstCount(s[1..], a, b);
      assert multiset(r) == multiset([s[0]]) + multiset(t);
    }
  }

  /** The amount input's change handler (App.tsx:1131-1136): the first comma
      becomes a dot, and the draft takes the new text only when it is empty
      or matches the amount pattern; `None` means the draft keeps its old
      value. */
  function FilterDraft(input: string): (r: Option<string>)
    ensures r.Some? ==> AmountPattern(r.value) && ',' !in r.value
    ensures r.Some? ==> |r.value| == |input|
    ensures ',' !in input && AmountPattern(input) ==> r == Some(input)
    ensures r.Some? ==> r.value == ReplaceFirst(input, ',', '.')
    ensures r.None? <==> !AmountPattern(ReplaceFirst(input, ',', '.'))
  {
    var raw := ReplaceFirst(input, ',', '.');
    if raw == "" || AmountPattern(raw) then Some(raw) else None
  }

  /** The value of the fractional digits of an amount, in hundredths. */
  function FracValue(b: string): (v: nat)
    requires AllDigits(b) && |b| <= 2
    ensures v < 100
  {
    if |b| == 0 then 0
    else if |b| == 1 then 10 * DigitValue(b[0])
    else 10 * DigitValue(b[0]) + DigitValue(b[1])
  }

  /** `Number(draft)` for the drafts the filter lets through: the empty
      string is 0, a lone "." is NaN, and any other pattern string is its
      decimal value. Text outside the pattern is NaN. */
  function ParseDraft(s: string): (r: Num)
    ensures s == "" ==> r == Val(0)
    ensures s == "." ==> r == NaN
    ensures AmountPattern(s) && s != "." ==> r.Val? && r.hundredths >= 0
    ensures !AmountPattern(s) ==> r == NaN
    ensures AllDigits(s) ==> r == Val(100 * DigitsValue(s))
  {
    match FirstDot(s)
    case None => if AllDigits(s) then Val(100 * DigitsValue(s)) else NaN
    case Some(k) =>
      if AllDigits(s[..k]) && AllDigits(s[k + 1..]) && |s| - (k + 1) <= 2 then
        if |s| == 1 then NaN
        else Val(100 * DigitsValue(s[..k]) + FracValue(s[k + 1..]))
      else NaN
  }

  /** `String(x)` for a non-negative amount `x` of at most two decimals, as
      JavaScript prints it: no trailing zeros and no dot for whole amounts. */
  function ShowAmount(n: nat): (s: string)
    ensures s != [] && s[0] != '.'
  {
    var whole := NatToDigits(n / 100);
    var cents := n % 100;
    if cents == 0 then whole
    else if cents % 10 == 0 then whole + "." + [DigitChar(cents / 10)]
    else whole + "." + [DigitChar(cents / 10), DigitChar(cents % 10)]
  }

  /** In a string of digits followed by a dot, the first dot is that one. */
  lemma FirstDotAfterDigits(w: string, t: string)
    requires AllDigits(w)
    ensures FirstDot(w + "." + t) == Some(|w|)
  {
    var s := w + "." + t;
    assert s[|w|] == '.';
    assert forall j :: 0 <= j < |w| ==> s[j] == w[j] && s[j] != '.';
    assert forall j :: |w| < j <= |s| ==> s[..j][|w|] == '.';
  }

  /** A whole part, a dot and at most two fractional digits parse to the
      amount they spell, either part possibly empty (`".5"` is 0.5, `"5."`
      is 5), as long as the draft is more than the lone dot. */
  lemma ParseWithFraction(w: string, frac: string)
    requires AllDigits(w) && AllDigits(frac) && |frac| <= 2
    requires w != [] || frac != []
    ensures AmountPattern(w + "." + frac)
    ensures ParseDraft(w + "." + frac) == Val(100 * DigitsValue(w) + FracValue(frac))
  {
    var s := w + "." + frac;
    FirstDotAfterDigits(w, frac);
    assert s[..|w|] == w && s[|w| + 1..] == frac;
  }

  /** The printed amount parses back to the same amount. */
  lemma ShowAmountParses(n: nat)
    ensures AmountPattern(ShowAmount(n))
    ensures ParseDraft(ShowAmount(n)) == Val(n)
  {
    var whole := NatToDigits(n / 100);
    var cents := n % 100;
    DigitsRoundTrip(n / 100);
    assert n == 100 * (n / 100) + cents;
    if cents == 0 {
      assert ShowAmount(n) == whole;
    } else if cents % 10 == 0 {
      var frac := [DigitChar(cents / 10)];
      assert ShowAmount(n) == whole + "." + frac;
      assert FracValue(frac) == cents;
      ParseWithFraction(whole, frac);
    } else {
      var frac := [DigitChar(cents / 10), DigitChar(cents % 10)];
      assert ShowAmount(n) == whole + "." + frac;
      assert FracValue(frac) == 10 * (cents / 10) + cents % 10 == cents;
      ParseWithFraction(whole, frac);
    }
  }

  /** The printed amount passes the draft filter unchanged and parses back
      to the same amount. */
  lemma ShowAmountRoundTrip(n: nat)
    ensures FilterDraft(ShowAmount(n)) == Some(ShowAmount(n))
    ensures ParseDraft(ShowAmount(n)) == Val(n)
  {
    ShowAmountParses(n);
  }

  /** The amount a withdrawal request uses (App.tsx:603):
      `Math.max(0.1, Number(draft) || 0)`. */
  function WithdrawAmount(draft: string): (r: int)
    ensures r >= 10
    ensures ParseDraft(draft).Val? && ParseDraft(draft).hundredths >= 10 ==> r == ParseDraft(draft).hundredths
    ensures ParseDraft(draft) == NaN || ParseDraft(draft).hundredths < 10 ==> r == 10
  {
    match ParseDraft(draft)
    case NaN => Max(10, 0)
    case Val(v) => Max(10, if v == 0 then 0 else v)
  }

  /** The price of a new offer (App.tsx:570): `Math.max(0.1, Number(p) || 1)`;
      a zero or NaN input counts as 1 SOL. */
  function OfferPrice(p: Num): (r: int)
    ensures r >= 10
    ensures p == NaN || p == Val(0) ==> r == 100
    ensures p.Val? && p.hundredths >= 10 ==> r == p.hundredths
    ensures p.Val? && p.hundredths != 0 && p.hundredths < 10 ==> r == 10
  {
    match p
    case NaN => Max(10, 100)
    case Val(v) => Max(10, if v == 0 then 100 else v)
  }

  /** The amount the dashboard's withdraw button pre-fills (App.tsx:1597):
      `Math.max(0.1, Math.min(balance, 5))`. */
  function PrefillAmount(balance: int): (r: int)
    ensures 10 <= r <= 500
    ensures 10 <= balance <= 500 ==> r == balance
    ensures balance > 500 ==> r == 500
    ensures balance < 10 ==> r == 10
  {
    Max(10, Min(balance, 500))
  }

  /** The pre-filled draft is one the withdrawal handler reads back as the
      pre-filled amount. */
  lemma PrefillDraftAmount(balance: int)
    ensures WithdrawAmount(ShowAmount(PrefillAmount(balance))) == PrefillAmount(balance)
  {
    ShowAmountRoundTrip(PrefillAmount(balance));
  }
}
