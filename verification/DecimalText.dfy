/** Unsigned decimal numbers in UTF-16 texts. */
module DecimalText {
  import opened Options
  import opened Decimals
  import opened Utf16

  /** The characters of a text that is all decimal digits. */
  function DigitText(t: Text): Option<string> {
    if forall i :: 0 <= i < |t| ==> IsDigitUnit(t[i])
    then Some(seq(|t|, i requires 0 <= i < |t| && IsDigitUnit(t[i]) => t[i] as char))
    else None
  }

  /** The number of a canonical unsigned decimal. */
  function ReadUint(t: Text): Option<nat> {
    var s := DigitText(t);
    if s.Some? && Canonical(s.value) then Some(FromDecimal(s.value)) else None
  }

  function PrintUint(n: int): Text {
    if n < 0 then Ascii("-" + ToDecimal(-n)) else Ascii(ToDecimal(n))
  }

  lemma {:induction false} DigitsReadBack(s: string)
    requires AllDigits(s)
    ensures DigitText(Ascii(s)) == Some(s)
  {
    forall i | 0 <= i < |s| ensures IsDigitUnit(Ascii(s)[i]) && Ascii(s)[i] as char == s[i] {
      assert IsDigit(s[i]);
    }
    assert DigitText(Ascii(s)).value == s;
  }

  lemma {:induction false} NumberReadsBack(n: nat)
    ensures ReadUint(PrintUint(n)) == Some(n)
  {
    DigitsReadBack(ToDecimal(n));
    FromToDecimal(n);
  }

  lemma {:induction false} ReadUintPrints(t: Text)
    requires ReadUint(t).Some?
    ensures t == Ascii(ToDecimal(ReadUint(t).value))
  {
    var s := DigitText(t).value;
    ToFromDecimal(s);
    assert |s| == |t| && forall i :: 0 <= i < |t| ==> Ascii(s)[i] == t[i];
  }
}
