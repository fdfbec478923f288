/**
 * The amount field of the Pix modal (src/components/PixModal.tsx).  The input
 * keeps a formatted text such as "R$ 12,34"; every keystroke reformats it from
 * its digits alone, read as a number of cents.  Amounts are integers of cents
 * here: for amounts of at most 15 digits of cents, `parseFloat(digits) / 100`
 * followed by `toFixed(2)` gives back the same cents, since the quotient's
 * rounding error stays below half a cent.  Longer inputs are rounded by the
 * source and not by the model.
 */
module Currency {
  import opened Common

  /** `parseCurrency(value)`, in cents: the digits of `value`, or 0 when it has none. */
  function ParseCents(value: string): nat
  {
    DecValue(DigitsOnly(value))
  }

  /** `(cents / 100).toFixed(2)`: the whole part, a point and exactly two decimals. */
  function Fixed2(cents: nat): string
  {
    DecStr(cents / 100) + "." + Pad2(cents % 100)
  }

  /**
   * `formatCurrency(value)`: "" when the input has no digit, otherwise
   * "R$ " and the two-decimal amount with its point turned into a comma.
   */
  function FormatCurrency(value: string): string
  {
    var numbers := DigitsOnly(value);
    if numbers == [] then "" else "R$ " + ReplaceFirst(Fixed2(DecValue(numbers)), '.', ',')
  }

  /** A text without digits parses as zero. */
  lemma ParseCentsNoDigits(value: string)
    requires forall i :: 0 <= i < |value| ==> !IsDigit(value[i])
    ensures ParseCents(value) == 0
  {
    DigitsOnlyNoDigits(value);
  }

  /** The digits that `Fixed2` writes, in order: the whole part, then two decimals. */
  lemma Fixed2Digits(cents: nat)
    ensures DigitsOnly(Fixed2(cents)) == DecStr(cents / 100) + Pad2(cents % 100)
    ensures ParseCents(Fixed2(cents)) == cents
  {
    var w, f := DecStr(cents / 100), Pad2(cents % 100);
    Pad2RoundTrip(cents % 100);
    DigitsOnlyAppend(w + ".", f);
    DigitsOnlyAppend(w, ".");
    assert DigitsOnly(Fixed2(cents)) == w + f;
    DigitsChunks(cents);
  }

  /** The whole-part numeral followed by the two decimals reads as the amount. */
  lemma DigitsChunks(cents: nat)
    ensures AllDigits(DecStr(cents / 100) + Pad2(cents % 100))
    ensures DecValue(DecStr(cents / 100) + Pad2(cents % 100)) == cents
  {
    var w, f := DecStr(cents / 100), Pad2(cents % 100);
    Pad2RoundTrip(cents % 100);
    DecValueAppend(w, f);
    var q: int, r: int := cents / 100, cents % 100;
    assert DecValue(w + f) == q * 100 + r by {
      assert Pow10(|f|) == 100;
    }
    assert q * 100 + r == cents;
  }

  /** The toFixed(2) text of an amount reads back as the same number of cents. */
  lemma Fixed2Shape(cents: nat)
    ensures |Fixed2(cents)| >= 4
    ensures Fixed2(cents)[|Fixed2(cents)| - 3] == '.'
    ensures AllDigits(Fixed2(cents)[..|Fixed2(cents)| - 3])
    ensures AllDigits(Fixed2(cents)[|Fixed2(cents)| - 2..])
    ensures DecValue(Fixed2(cents)[..|Fixed2(cents)| - 3]) * 100
          + DecValue(Fixed2(cents)[|Fixed2(cents)| - 2..]) == cents
  {
    var w, f := DecStr(cents / 100), Pad2(cents % 100);
    Pad2RoundTrip(cents % 100);
    assert Fixed2(cents)[..|Fixed2(cents)| - 3] == w;
    assert Fixed2(cents)[|Fixed2(cents)| - 2..] == f;
  }

  /** The formatted text: "R$ ", the whole part, a comma and two decimals. */
  lemma FormatCurrencyShape(value: string)
    requires DigitsOnly(value) != []
    ensures FormatCurrency(value) ==
      "R$ " + DecStr(ParseCents(value) / 100) + "," + Pad2(ParseCents(value) % 100)
  {
    var c := ParseCents(value);
    ReplaceFirstAt(DecStr(c / 100), Pad2(c % 100), '.', ',');
  }

  /** The digits of a formatted amount are the whole part followed by the two decimals. */
  lemma FormattedDigits(value: string)
    requires DigitsOnly(value) != []
    ensures DigitsOnly(FormatCurrency(value)) ==
      DecStr(ParseCents(value) / 100) + Pad2(ParseCents(value) % 100)
  {
    var c := ParseCents(value);
    var w, f := DecStr(c / 100), Pad2(c % 100);
    assert FormatCurrency(value) == "R$ " + (w + ("," + f)) by {
      FormatCurrencyShape(value);
    }
    assert DigitsOnly(w + ("," + f)) == w + f by {
      Pad2RoundTrip(c % 100);
      DigitsOnlyAppend(w, "," + f);
      DigitsOnlyAppend(",", f);
    }
    assert DigitsOnly("R$ ") == [];
    DigitsOnlyAppend("R$ ", w + ("," + f));
  }

  /** Formatting keeps the amount: `parseCurrency(formatCurrency(s)) == parseCurrency(s)`. */
  lemma FormatThenParse(value: string)
    ensures ParseCents(FormatCurrency(value)) == ParseCents(value)
  {
    if DigitsOnly(value) != [] {
      FormattedDigits(value);
      DigitsChunks(ParseCents(value));
    }
  }

  /** Formatting an already formatted amount changes nothing. */
  lemma FormatIdempotent(value: string)
    ensures FormatCurrency(FormatCurrency(value)) == FormatCurrency(value)
  {
    if DigitsOnly(value) != [] {
      FormattedDigits(value);
      FormatThenParse(value);
    }
  }

  /**
   * Typing one more digit after a formatted amount shifts it in at the
   * right: "R$ 1,23" followed by "4" is worth 12,34.
   */
  lemma TypeDigit(value: string, d: char)
    requires IsDigit(d)
    ensures ParseCents(FormatCurrency(value) + [d]) == ParseCents(value) * 10 + DigitValue(d)
  {
    var f := FormatCurrency(value);
    DigitsOnlyAppend(f, [d]);
    FormatThenParse(value);
    var n := DigitsOnly(f);
    assert (n + [d])[..|n + [d]| - 1] == n;
  }

  /** Deleting the last character of a formatted amount drops its last digit. */
  lemma DeleteDigit(value: string)
    requires DigitsOnly(value) != []
    ensures |FormatCurrency(value)| >= 1
    ensures ParseCents(FormatCurrency(value)[..|FormatCurrency(value)| - 1]) == ParseCents(value) / 10
  {
    var text := FormatCurrency(value);
    var c := ParseCents(value);
    var w, f := DecStr(c / 100), Pad2(c % 100);
    assert text == ("R$ " + w + ",") + f by {
      FormatCurrencyShape(value);
    }
    assert IsDigit(text[|text| - 1]) by {
      Pad2RoundTrip(c % 100);
      assert text[|text| - 1] == f[1];
    }
    DeleteLast(text);
    FormatThenParse(value);
  }

  /** Dropping a final digit divides the value of the digits by ten. */
  lemma DeleteLast(text: string)
    requires |text| >= 1 && IsDigit(text[|text| - 1])
    ensures ParseCents(text[..|text| - 1]) == ParseCents(text) / 10
  {
    var last := text[|text| - 1];
    var prefix := text[..|text| - 1];
    assert text == prefix + [last];
    DigitsOnlyAppend(prefix, [last]);
    DropLastDigit(DigitsOnly(prefix), last);
  }

  lemma DropLastDigit(n: string, d: char)
    requires AllDigits(n) && IsDigit(d)
    ensures AllDigits(n + [d]) && DecValue(n) == DecValue(n + [d]) / 10
  {
    assert (n + [d])[..|n|] == n;
  }
}
