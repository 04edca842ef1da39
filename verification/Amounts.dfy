/**
 Exact decimal amounts: the printer of base units, the parser of typed amounts, the canonical form of requested amounts,
 the fee printer, and the exact arithmetic of multisig withdrawals, all compared on the inputs they share.
*/
module Amounts {
  import opened Options
  import opened Decimals

  // ----- text -----

  /** The characters that JavaScript's `trim` removes. */
  predicate IsBlank(c: char) {
    var n := c as int;
    || 0x9 <= n <= 0xD || n == 0x20 || n == 0xA0 || n == 0x1680 || 0x2000 <= n <= 0x200A
    || n == 0x2028 || n == 0x2029 || n == 0x202F || n == 0x205F || n == 0x3000 || n == 0xFEFF
  }

  function TrimStart(s: string): string {
    if s != "" && IsBlank(s[0]) then TrimStart(s[1..]) else s
  }

  function TrimEnd(s: string): string {
    if s != "" && IsBlank(s[|s| - 1]) then TrimEnd(s[..|s| - 1]) else s
  }

  function Trim(s: string): string { TrimEnd(TrimStart(s)) }

  function DotIndex(s: string): (i: nat)
    ensures i <= |s|
    ensures i < |s| ==> s[i] == '.'
    ensures forall j :: 0 <= j < i ==> s[j] != '.'
  {
    if s == "" || s[0] == '.' then 0 else 1 + DotIndex(s[1..])
  }

  /** Digits, perhaps a point and more digits: what every amount pattern of the source allows, each with its own
      limits. */
  datatype Parts = Parts(whole: string, dot: bool, fraction: string)

  function SplitAmount(s: string): (r: Option<Parts>)
    ensures r.Some? ==> AllDigits(r.value.whole) && AllDigits(r.value.fraction)
                        && (!r.value.dot ==> r.value.fraction == "")
  {
    var i := DotIndex(s);
    var p := Parts(s[..i], i < |s|, if i < |s| then s[i + 1..] else "");
    if AllDigits(p.whole) && AllDigits(p.fraction) then Some(p) else None
  }

  function PadEnd(s: string, n: nat): (r: string)
    ensures |r| == if |s| < n then n else |s|
    ensures AllDigits(s) ==> AllDigits(r)
  {
    if |s| < n then s + Zeros(n - |s|) else s
  }

  function PadStart(s: string, n: nat): (r: string)
    ensures |r| == if |s| < n then n else |s|
    ensures AllDigits(s) ==> AllDigits(r)
  {
    if |s| < n then Zeros(n - |s|) + s else s
  }

  function DropZerosEnd(s: string): (r: string)
    ensures |r| <= |s| && r == s[..|r|] && (r != "" ==> r[|r| - 1] != '0')
    ensures forall i :: |r| <= i < |s| ==> s[i] == '0'
  {
    if s != "" && s[|s| - 1] == '0' then DropZerosEnd(s[..|s| - 1]) else s
  }

  /** Drops leading zeros as long as a digit remains after them. */
  function DropZerosStart(s: string): (r: string)
    ensures |r| <= |s| && r == s[|s| - |r|..]
    ensures s != "" ==> r != ""
    ensures |r| > 1 ==> r[0] != '0'
    ensures forall i :: 0 <= i < |s| - |r| ==> s[i] == '0'
  {
    if |s| > 1 && s[0] == '0' then DropZerosStart(s[1..]) else s
  }

  // ----- the operations -----

  /** The digits of an amount, padded and cut before the last `decimals` of them. */
  function WholePart(digits: string, decimals: nat): (r: string)
    ensures AllDigits(digits) ==> AllDigits(r)
  {
    var padded := PadStart(digits, decimals + 1);
    padded[..|padded| - decimals]
  }

  function FractionPart(digits: string, decimals: nat): (r: string)
    ensures |r| == decimals && (AllDigits(digits) ==> AllDigits(r))
  {
    var padded := PadStart(digits, decimals + 1);
    padded[|padded| - decimals..]
  }

  function Shown(whole: string, fraction: string): string {
    if fraction != "" then whole + "." + fraction else whole
  }

  function FormatDigits(digits: string, decimals: nat): string {
    if decimals == 0 then digits else Shown(WholePart(digits, decimals), DropZerosEnd(FractionPart(digits, decimals)))
  }

  function FormatBaseUnits(amount: int, decimals: nat): string {
    if amount < 0 then "-" + FormatDigits(ToDecimal(-amount), decimals) else FormatDigits(ToDecimal(amount), decimals)
  }

  function ParsePositiveAmount(input: string, decimals: nat): Option<nat> {
    var p :- SplitAmount(Trim(input));
    if (p.whole == "" && p.fraction == "") || |p.fraction| > decimals then None else
    var raw := FromDecimal((if p.whole == "" then "0" else p.whole) + PadEnd(p.fraction, decimals));
    if raw == 0 then None else Some(raw)
  }

  function NormalizeRequestAmount(raw: string, decimals: nat): Option<string> {
    var p :- SplitAmount(Trim(raw));
    if (if p.dot then p.fraction == "" else p.whole == "") then None else
    var whole := DropZerosStart(if p.whole == "" then "0" else p.whole);
    var fraction := DropZerosEnd(p.fraction);
    if |fraction| > decimals || (whole == "0" && fraction == "") then None
    else Some(if fraction == "" then whole else whole + "." + fraction)
  }

  /** The number in a fee line; `atomicAmount` is text in the fee state, and an empty whole part would be shown as
      zero. */
  function FormatFee(atomicAmount: string, decimals: nat): string {
    if decimals == 0 then atomicAmount else
    var whole, fraction := WholePart(atomicAmount, decimals), DropZerosEnd(FractionPart(atomicAmount, decimals));
    Shown(if whole == "" then "0" else whole, fraction)
  }

  /** The exact amount of a multisig withdrawal, after the check on the count of decimal places. */
  function MultisigAmount(amount: string, decimals: nat): Option<nat> {
    var p :- SplitAmount(amount);
    if p.whole == "" || (p.dot && p.fraction == "") || |p.fraction| > decimals then None else
    var padded := PadEnd(p.fraction, decimals);
    Some(FromDecimal(p.whole) * Pow10(decimals) + FromDecimal(if padded == "" then "0" else padded))
  }

  // ----- what an amount is worth -----

  /** The base units that `whole.fraction` is worth with that many decimals. */
  function Worth(whole: string, fraction: string, decimals: nat): nat
    requires AllDigits(whole) && AllDigits(fraction) && |fraction| <= decimals
  {
    FromDecimal(whole) * Pow10(decimals) + FromDecimal(fraction) * Pow10(decimals - |fraction|)
  }

  lemma {:induction false} PaddedWorth(fraction: string, decimals: nat)
    requires AllDigits(fraction) && |fraction| <= decimals
    ensures FromDecimal(PadEnd(fraction, decimals)) == FromDecimal(fraction) * Pow10(decimals - |fraction|)
  {
    var zeros := Zeros(decimals - |fraction|);
    FromDecimalAppend(fraction, zeros);
    FromZeros(decimals - |fraction|);
    if |fraction| == decimals {
      assert fraction + zeros == fraction;
    }
  }

  /** The parser computes exactly what the text is worth, and refuses only bad shapes, extra places and zero. */
  lemma {:induction false} ParseIsWorth(input: string, decimals: nat)
    ensures var s := SplitAmount(Trim(input)); var r := ParsePositiveAmount(input, decimals);
      && (r.Some? <==> s.Some? && (s.value.whole != "" || s.value.fraction != "") && |s.value.fraction| <= decimals
                       && Worth(s.value.whole, s.value.fraction, decimals) > 0)
      && (r.Some? ==> r.value == Worth(s.value.whole, s.value.fraction, decimals))
  {
    var s := SplitAmount(Trim(input));
    if s.Some? && |s.value.fraction| <= decimals {
      var p := s.value;
      var whole := if p.whole == "" then "0" else p.whole;
      assert FromDecimal("0") == 0 && FromDecimal("") == 0;
      FromDecimalAppend(whole, PadEnd(p.fraction, decimals));
      PaddedWorth(p.fraction, decimals);
    }
  }

  lemma {:induction false} MultisigIsWorth(amount: string, decimals: nat)
    requires MultisigAmount(amount, decimals).Some?
    ensures var p := SplitAmount(amount).value;
      MultisigAmount(amount, decimals).value == Worth(p.whole, p.fraction, decimals)
  {
    var p := SplitAmount(amount).value;
    PaddedWorth(p.fraction, decimals);
    assert FromDecimal("0") == 0 && FromDecimal("") == 0;
  }

  lemma {:induction false} NoBlanks(s: string)
    requires SplitAmount(s).Some?
    ensures Trim(s) == s
  {
    var p := SplitAmount(s).value;
    var i := DotIndex(s);
    assert forall j :: 0 <= j < |s| ==> IsDigit(s[j]) || s[j] == '.' by {
      forall j | 0 <= j < |s| ensures IsDigit(s[j]) || s[j] == '.' {
        if j < i { assert s[j] == p.whole[j]; } else if j > i { assert s[j] == p.fraction[j - i - 1]; }
      }
    }
  }

  /** The multisig arithmetic agrees with the parser on every positive amount that it takes. */
  lemma {:induction false} MultisigAgrees(amount: string, decimals: nat)
    requires MultisigAmount(amount, decimals).Some?
    ensures MultisigAmount(amount, decimals).value > 0
        ==> ParsePositiveAmount(amount, decimals) == MultisigAmount(amount, decimals)
    ensures MultisigAmount(amount, decimals).value == 0 ==> ParsePositiveAmount(amount, decimals).None?
  {
    MultisigIsWorth(amount, decimals);
    ParseIsWorth(amount, decimals);
    NoBlanks(amount);
  }

  // ----- printing and parsing -----

  lemma {:induction false} LeadingZeros(zeros: string, s: string)
    requires AllDigits(s) && forall i :: 0 <= i < |zeros| ==> zeros[i] == '0'
    ensures AllDigits(zeros + s) && FromDecimal(zeros + s) == FromDecimal(s)
  {
    FromDecimalAppend(zeros, s);
    assert zeros == Zeros(|zeros|);
    FromZeros(|zeros|);
  }

  lemma {:induction false} TrailingZeros(s: string, r: string, decimals: nat)
    requires AllDigits(s) && r == DropZerosEnd(s) && |s| <= decimals
    ensures AllDigits(r) && FromDecimal(r) * Pow10(decimals - |r|) == FromDecimal(s) * Pow10(decimals - |s|)
  {
    var zeros := Zeros(|s| - |r|);
    assert s == r + zeros;
    FromDecimalAppend(r, zeros);
    FromZeros(|s| - |r|);
    PowersAdd(|s| - |r|, decimals - |s|);
    MulAssoc(FromDecimal(r), Pow10(|s| - |r|), Pow10(decimals - |s|));
  }

  lemma {:induction false} PowersAdd(a: nat, b: nat)
    ensures Pow10(a + b) == Pow10(a) * Pow10(b)
  {
    if a > 0 {
      PowersAdd(a - 1, b);
      MulAssoc(10, Pow10(a - 1), Pow10(b));
    }
  }

  lemma {:induction false} MulAssoc(a: nat, b: nat, c: nat)
    ensures a * b * c == a * (b * c)
  {
  }

  lemma {:induction false} DotAt(whole: string, fraction: string)
    requires AllDigits(whole)
    ensures DotIndex(whole + "." + fraction) == |whole|
    ensures DotIndex(whole) == |whole|
  {
    var s := whole + "." + fraction;
    assert s[|whole|] == '.' && forall i :: 0 <= i < |whole| ==> s[i] == whole[i] != '.';
  }

  lemma {:induction false} SplitPrinted(whole: string, fraction: string)
    requires AllDigits(whole) && AllDigits(fraction)
    ensures SplitAmount(whole) == Some(Parts(whole, false, ""))
    ensures SplitAmount(whole + "." + fraction) == Some(Parts(whole, true, fraction))
  {
    DotAt(whole, fraction);
    var s := whole + "." + fraction;
    assert whole[..|whole|] == whole;
    assert s[..|whole|] == whole && s[|whole| + 1..] == fraction;
  }

  lemma {:induction false} PartsWorth(digits: string, decimals: nat)
    requires Canonical(digits)
    ensures Canonical(WholePart(digits, decimals))
    ensures FromDecimal(digits)
         == FromDecimal(WholePart(digits, decimals)) * Pow10(decimals) + FromDecimal(FractionPart(digits, decimals))
  {
    var padded := PadStart(digits, decimals + 1);
    var whole, tail := WholePart(digits, decimals), FractionPart(digits, decimals);
    assert padded == whole + tail;
    FromDecimalAppend(whole, tail);
    if |digits| < decimals + 1 {
      LeadingZeros(Zeros(decimals + 1 - |digits|), digits);
    }
  }

  lemma {:induction false} FormatShown(digits: string, decimals: nat)
    requires digits != ""
    ensures FormatDigits(digits, decimals)
         == Shown(WholePart(digits, decimals), DropZerosEnd(FractionPart(digits, decimals)))
  {
    if decimals == 0 {
      assert DropZerosEnd(FractionPart(digits, 0)) == "";
      assert PadStart(digits, 1)[..|digits|] == digits;
    }
  }

  lemma {:induction false} SplitShown(whole: string, fraction: string)
    requires Canonical(whole) && AllDigits(fraction)
    ensures SplitAmount(Shown(whole, fraction)) == Some(Parts(whole, fraction != "", fraction))
    ensures Trim(Shown(whole, fraction)) == Shown(whole, fraction)
  {
    SplitPrinted(whole, fraction);
    NoBlanks(Shown(whole, fraction));
  }

  lemma {:induction false} PrintedWorth(digits: string, decimals: nat)
    requires Canonical(digits)
    ensures var fraction := DropZerosEnd(FractionPart(digits, decimals));
      AllDigits(fraction) && Worth(WholePart(digits, decimals), fraction, decimals) == FromDecimal(digits)
  {
    var tail := FractionPart(digits, decimals);
    PartsWorth(digits, decimals);
    FullFraction(WholePart(digits, decimals), tail, decimals);
  }

  /** A fraction with all its places, and the same without its trailing zeros. */
  lemma {:induction false} FullFraction(whole: string, tail: string, decimals: nat)
    requires AllDigits(whole) && AllDigits(tail) && |tail| == decimals
    ensures var fraction := DropZerosEnd(tail);
      AllDigits(fraction) && Worth(whole, fraction, decimals)
        == FromDecimal(whole) * Pow10(decimals) + FromDecimal(tail)
  {
    TrailingZeros(tail, DropZerosEnd(tail), decimals);
    assert Pow10(0) == 1;
  }

  /** Parsing the two parts of a printed amount gives what they are worth. */
  lemma {:induction false} ParseShown(whole: string, fraction: string, decimals: nat)
    requires Canonical(whole) && AllDigits(fraction) && |fraction| <= decimals
    requires Worth(whole, fraction, decimals) > 0
    ensures ParsePositiveAmount(Shown(whole, fraction), decimals) == Some(Worth(whole, fraction, decimals))
  {
    SplitShown(whole, fraction);
    ParseIsWorth(Shown(whole, fraction), decimals);
  }

  /** Printing a positive amount and parsing the text gives the amount back, for any number of decimals. */
  lemma {:induction false} ParseFormat(amount: nat, decimals: nat)
    requires amount > 0
    ensures ParsePositiveAmount(FormatBaseUnits(amount, decimals), decimals) == Some(amount)
  {
    var digits := ToDecimal(amount);
    FromToDecimal(amount);
    PrintedWorth(digits, decimals);
    FormatShown(digits, decimals);
    PartsWorth(digits, decimals);
    ParseShown(WholePart(digits, decimals), DropZerosEnd(FractionPart(digits, decimals)), decimals);
  }

  /** What a printed amount is worth, zero included. */
  lemma {:induction false} FormatWorth(amount: nat, decimals: nat)
    ensures var text := FormatBaseUnits(amount, decimals); var s := SplitAmount(text);
      && text != "" && text[0] != '-'
      && s.Some? && |s.value.fraction| <= decimals
      && Worth(s.value.whole, s.value.fraction, decimals) == amount
  {
    var digits := ToDecimal(amount);
    var whole := WholePart(digits, decimals);
    FromToDecimal(amount);
    PrintedWorth(digits, decimals);
    FormatShown(digits, decimals);
    PartsWorth(digits, decimals);
    SplitShown(whole, DropZerosEnd(FractionPart(digits, decimals)));
    assert IsDigit(whole[0]);
  }

  /** No two amounts print the same, negative ones and zero included. */
  lemma {:induction false} FormatInjective(a: int, b: int, decimals: nat)
    requires FormatBaseUnits(a, decimals) == FormatBaseUnits(b, decimals)
    ensures a == b
  {
    FormatWorth(if a < 0 then -a else a, decimals);
    FormatWorth(if b < 0 then -b else b, decimals);
    if a < 0 && b < 0 {
      assert FormatBaseUnits(a, decimals)[1..] == FormatBaseUnits(-a, decimals);
      assert FormatBaseUnits(b, decimals)[1..] == FormatBaseUnits(-b, decimals);
    }
  }

  // ----- the canonical form -----

  /** A canonical whole part, and a fraction that fits and has no trailing zeros. */
  predicate IsCanonicalParts(whole: string, fraction: string, decimals: nat) {
    && Canonical(whole) && AllDigits(fraction) && |fraction| <= decimals
    && (fraction != "" ==> fraction[|fraction| - 1] != '0')
  }

  lemma {:induction false} DropZerosEndOf(fraction: string, n: nat)
    requires fraction != "" ==> fraction[|fraction| - 1] != '0'
    ensures DropZerosEnd(fraction + Zeros(n)) == fraction
  {
    if n == 0 {
      assert fraction + Zeros(0) == fraction;
    } else {
      DropZerosEndOf(fraction, n - 1);
      assert (fraction + Zeros(n))[..|fraction| + n - 1] == fraction + Zeros(n - 1);
    }
  }

  lemma {:induction false} SameLengthSameDigits(s: string, t: string)
    requires AllDigits(s) && AllDigits(t) && |s| == |t| && FromDecimal(s) == FromDecimal(t)
    ensures s == t
  {
    if s != "" {
      var m := |s| - 1;
      assert FromDecimal(s[..m]) == FromDecimal(t[..m]) && s[m] == t[m];
      SameLengthSameDigits(s[..m], t[..m]);
      assert s == s[..m] + [s[m]] && t == t[..m] + [t[m]];
    }
  }

  lemma {:induction false} Multiples(a: nat, b: nat, p: nat)
    requires a < b
    ensures b * p >= a * p + p
  {
    MulSplit(a, b - a, p);
    MulSplit(1, b - a - 1, p);
  }

  lemma {:induction false} MulSplit(a: nat, c: nat, p: nat)
    ensures (a + c) * p == a * p + c * p
  {
  }

  /** Division by a power of ten separates the whole part from the fraction. */
  lemma {:induction false} QuotientUnique(a: nat, b: nat, x: nat, y: nat, p: nat)
    requires p > 0 && x < p && y < p && a * p + x == b * p + y
    ensures a == b && x == y
  {
    if a < b {
      Multiples(a, b, p);
    } else if b < a {
      Multiples(b, a, p);
    }
  }

  /** A whole part without leading zeros and a full fraction are determined by what they are worth. */
  lemma {:induction false} SameWorthSameParts(a: string, x: string, b: string, y: string, decimals: nat)
    requires Canonical(a) && Canonical(b) && AllDigits(x) && AllDigits(y) && |x| == |y| == decimals
    requires FromDecimal(a) * Pow10(decimals) + FromDecimal(x) == FromDecimal(b) * Pow10(decimals) + FromDecimal(y)
    ensures a == b && x == y
  {
    FromDecimalBound(x);
    FromDecimalBound(y);
    QuotientUnique(FromDecimal(a), FromDecimal(b), FromDecimal(x), FromDecimal(y), Pow10(decimals));
    ToFromDecimal(a);
    ToFromDecimal(b);
    SameLengthSameDigits(x, y);
  }

  /** The digits of what a canonical form is worth split into its parts. */
  lemma {:induction false} CanonicalSplits(whole: string, fraction: string, decimals: nat)
    requires IsCanonicalParts(whole, fraction, decimals)
    ensures var digits := ToDecimal(Worth(whole, fraction, decimals));
      WholePart(digits, decimals) == whole && FractionPart(digits, decimals) == PadEnd(fraction, decimals)
  {
    var amount := Worth(whole, fraction, decimals);
    var digits := ToDecimal(amount);
    FromToDecimal(amount);
    PartsWorth(digits, decimals);
    PaddedWorth(fraction, decimals);
    SameWorthSameParts(whole, PadEnd(fraction, decimals), WholePart(digits, decimals),
                       FractionPart(digits, decimals), decimals);
  }

  /** Printing what a canonical form is worth gives the same form. */
  lemma {:induction false} FormatOfCanonical(whole: string, fraction: string, decimals: nat)
    requires IsCanonicalParts(whole, fraction, decimals)
    ensures FormatBaseUnits(Worth(whole, fraction, decimals), decimals) == Shown(whole, fraction)
  {
    CanonicalSplits(whole, fraction, decimals);
    assert PadEnd(fraction, decimals) == fraction + Zeros(decimals - |fraction|);
    DropZerosEndOf(fraction, decimals - |fraction|);
    FormatShown(ToDecimal(Worth(whole, fraction, decimals)), decimals);
  }

  /** The parts of a typed amount in canonical form. */
  function NormalWhole(p: Parts): string { DropZerosStart(if p.whole == "" then "0" else p.whole) }

  function NormalFraction(p: Parts): string { DropZerosEnd(p.fraction) }

  lemma {:induction false} ZeroTexts()
    ensures FromDecimal("0") == 0 && FromDecimal("") == 0
  {
  }

  lemma {:induction false} DroppedWorth(given: string)
    requires AllDigits(given) && given != ""
    ensures var w := DropZerosStart(given); Canonical(w) && FromDecimal(w) == FromDecimal(given)
  {
    var w := DropZerosStart(given);
    var zeros := given[..|given| - |w|];
    assert given == zeros + w;
    LeadingZeros(zeros, w);
  }

  lemma {:induction false} CanonicalZero(w: string)
    requires Canonical(w)
    ensures w == "0" <==> FromDecimal(w) == 0
  {
    ZeroTexts();
    if w[0] != '0' {
      NonZeroIsPositive(w);
    } else {
      assert w == "0";
    }
  }

  lemma {:induction false} DroppedStart(given: string)
    requires AllDigits(given) && given != ""
    ensures var w := DropZerosStart(given);
      Canonical(w) && FromDecimal(w) == FromDecimal(given) && (w == "0" <==> FromDecimal(given) == 0)
  {
    var w := DropZerosStart(given);
    DroppedWorth(given);
    CanonicalZero(w);
  }

  lemma {:induction false} WholeNormalizes(whole: string)
    requires AllDigits(whole)
    ensures var w := DropZerosStart(if whole == "" then "0" else whole);
      Canonical(w) && FromDecimal(w) == FromDecimal(whole) && (w == "0" <==> FromDecimal(whole) == 0)
  {
    ZeroTexts();
    DroppedStart(if whole == "" then "0" else whole);
  }

  lemma {:induction false} FractionNormalizes(fraction: string)
    requires AllDigits(fraction)
    ensures var f := DropZerosEnd(fraction); AllDigits(f) && (f == "" <==> FromDecimal(fraction) == 0)
  {
    var f := DropZerosEnd(fraction);
    assert FromDecimal("") == 0;
    if f != "" {
      LastDigitPositive(f);
    }
    TrailingZeros(fraction, f, |fraction|);
    ProductPositive(FromDecimal(f), Pow10(|fraction| - |f|));
    assert Pow10(0) == 1;
  }

  /** What a normalised request looks like, and that it is worth what was typed. */
  lemma {:induction false} NormalizedParts(raw: string, decimals: nat)
    requires NormalizeRequestAmount(raw, decimals).Some?
    ensures var p := SplitAmount(Trim(raw)).value;
      && IsCanonicalParts(NormalWhole(p), NormalFraction(p), decimals)
      && NormalizeRequestAmount(raw, decimals) == Some(Shown(NormalWhole(p), NormalFraction(p)))
      && Worth(NormalWhole(p), NormalFraction(p), decimals) > 0
  {
    var p := SplitAmount(Trim(raw)).value;
    WholeNormalizes(p.whole);
    FractionNormalizes(p.fraction);
    if NormalFraction(p) != "" {
      LastDigitPositive(NormalFraction(p));
    }
    WorthPositive(NormalWhole(p), NormalFraction(p), decimals);
  }

  lemma {:induction false} LastDigitPositive(s: string)
    requires AllDigits(s) && s != "" && s[|s| - 1] != '0'
    ensures FromDecimal(s) > 0
  {
  }

  /** For every request that is accepted, parsing the normal form succeeds and printing that amount is the identity. */
  lemma {:induction false} NormalFormRoundTrip(raw: string, decimals: nat)
    requires NormalizeRequestAmount(raw, decimals).Some?
    ensures var s := NormalizeRequestAmount(raw, decimals).value; var r := ParsePositiveAmount(s, decimals);
      r.Some? && FormatBaseUnits(r.value, decimals) == s
  {
    NormalizedParts(raw, decimals);
    var p := SplitAmount(Trim(raw)).value;
    ParseShown(NormalWhole(p), NormalFraction(p), decimals);
    FormatOfCanonical(NormalWhole(p), NormalFraction(p), decimals);
  }

  lemma {:induction false} WorthPositive(whole: string, fraction: string, decimals: nat)
    requires AllDigits(whole) && AllDigits(fraction) && |fraction| <= decimals
    ensures Worth(whole, fraction, decimals) > 0 <==> FromDecimal(whole) > 0 || FromDecimal(fraction) > 0
  {
    ProductPositive(FromDecimal(whole), Pow10(decimals));
    ProductPositive(FromDecimal(fraction), Pow10(decimals - |fraction|));
  }

  lemma {:induction false} ProductPositive(a: nat, b: nat)
    requires b > 0
    ensures a * b > 0 <==> a > 0
  {
  }

  lemma {:induction false} NormalWorth(p: Parts, decimals: nat)
    requires AllDigits(p.whole) && AllDigits(p.fraction) && |p.fraction| <= decimals
    ensures AllDigits(NormalWhole(p)) && AllDigits(NormalFraction(p))
    ensures Worth(NormalWhole(p), NormalFraction(p), decimals) == Worth(p.whole, p.fraction, decimals)
  {
    assert AllDigits(NormalWhole(p)) && FromDecimal(NormalWhole(p)) == FromDecimal(p.whole) by {
      WholeNormalizes(p.whole);
    }
    FractionWorth(p.fraction, decimals);
    SameWorth(NormalWhole(p), p.whole, NormalFraction(p), p.fraction, decimals);
  }

  lemma {:induction false} FractionWorth(fraction: string, decimals: nat)
    requires AllDigits(fraction) && |fraction| <= decimals
    ensures var f := DropZerosEnd(fraction); AllDigits(f) && Worth("", f, decimals) == Worth("", fraction, decimals)
  {
    TrailingZeros(fraction, DropZerosEnd(fraction), decimals);
  }

  lemma {:induction false} SameWorth(w: string, w': string, f: string, f': string, decimals: nat)
    requires AllDigits(w) && AllDigits(w') && AllDigits(f) && AllDigits(f') && |f| <= decimals && |f'| <= decimals
    requires FromDecimal(w) == FromDecimal(w') && Worth("", f, decimals) == Worth("", f', decimals)
    ensures Worth(w, f, decimals) == Worth(w', f', decimals)
  {
    assert FromDecimal("") == 0;
  }

  /** When both take the typed text, normalising first does not change the amount. */
  lemma {:induction false} NormalizingKeepsWorth(raw: string, decimals: nat)
    requires NormalizeRequestAmount(raw, decimals).Some? && ParsePositiveAmount(raw, decimals).Some?
    ensures ParsePositiveAmount(NormalizeRequestAmount(raw, decimals).value, decimals)
         == ParsePositiveAmount(raw, decimals)
  {
    var p := SplitAmount(Trim(raw)).value;
    ParseIsWorth(raw, decimals);
    NormalizedParts(raw, decimals);
    NormalWorth(p, decimals);
    ParseShown(NormalWhole(p), NormalFraction(p), decimals);
  }

  /** Exactly what the parser takes: the right shape, few enough places, and a digit that is not zero. */
  lemma {:induction false} ParserTakes(raw: string, decimals: nat)
    ensures ParsePositiveAmount(raw, decimals).Some? <==>
      var s := SplitAmount(Trim(raw));
      && s.Some? && |s.value.fraction| <= decimals
      && (FromDecimal(s.value.whole) > 0 || FromDecimal(s.value.fraction) > 0)
  {
    ParseIsWorth(raw, decimals);
    var s := SplitAmount(Trim(raw));
    assert FromDecimal("") == 0;
    if s.Some? && |s.value.fraction| <= decimals {
      WorthPositive(s.value.whole, s.value.fraction, decimals);
    }
  }

  lemma {:induction false} NormalizerTakes(raw: string, decimals: nat)
    ensures NormalizeRequestAmount(raw, decimals).Some? <==>
      var s := SplitAmount(Trim(raw));
      && s.Some? && !(s.value.dot && s.value.fraction == "") && |NormalFraction(s.value)| <= decimals
      && (FromDecimal(s.value.whole) > 0 || FromDecimal(s.value.fraction) > 0)
  {
    var s := SplitAmount(Trim(raw));
    assert FromDecimal("") == 0;
    if s.Some? {
      WholeNormalizes(s.value.whole);
      FractionNormalizes(s.value.fraction);
    }
  }

  /** The two differ in what they take in exactly two ways: a final point, and trailing zeros beyond the places. */
  lemma {:induction false} AcceptanceDiffers(raw: string, decimals: nat)
    ensures var s := SplitAmount(Trim(raw));
      var parsed, normalized := ParsePositiveAmount(raw, decimals).Some?, NormalizeRequestAmount(raw, decimals).Some?;
      && (parsed && !normalized <==> parsed && s.value.dot && s.value.fraction == "")
      && (normalized && !parsed <==> normalized && |s.value.fraction| > decimals)
  {
    ParserTakes(raw, decimals);
    NormalizerTakes(raw, decimals);
  }

  lemma {:induction false} SplitsAtPoint(s: string, i: nat)
    requires i < |s| && s[i] == '.' && forall j :: 0 <= j < i ==> s[j] != '.'
    requires AllDigits(s[..i]) && AllDigits(s[i + 1..])
    ensures SplitAmount(s) == Some(Parts(s[..i], true, s[i + 1..]))
  {
    assert DotIndex(s) == i;
  }

  lemma {:induction false} PointTexts()
    ensures SplitAmount(Trim("1.")) == Some(Parts("1", true, ""))
    ensures SplitAmount(Trim("1.0")) == Some(Parts("1", true, "0"))
  {
    var a, b := "1.", "1.0";
    assert a[..1] == "1" && a[2..] == "" && b[..1] == "1" && b[2..] == "0";
    assert Trim(a) == a && Trim(b) == b;
    SplitsAtPoint(a, 1);
    SplitsAtPoint(b, 1);
  }

  /** "1." is an amount to the parser alone; "1.0" of a token without places is one to the normaliser alone. */
  lemma {:induction false} AcceptanceDiffersOn()
    ensures ParsePositiveAmount("1.", 0).Some? && NormalizeRequestAmount("1.", 0).None?
    ensures ParsePositiveAmount("1.0", 0).None? && NormalizeRequestAmount("1.0", 0).Some?
  {
    PointTexts();
    ParserTakes("1.", 0);
    NormalizerTakes("1.", 0);
    ParserTakes("1.0", 0);
    NormalizerTakes("1.0", 0);
    assert FromDecimal("1") == 1 && DropZerosEnd("0") == "";
  }

  /** The fee printer prints a canonical amount text as the amount printer prints that number. */
  lemma {:induction false} FeeAgrees(amount: nat, decimals: nat)
    ensures FormatFee(ToDecimal(amount), decimals) == FormatBaseUnits(amount, decimals)
  {
    assert |WholePart(ToDecimal(amount), decimals)| > 0;
  }
}
