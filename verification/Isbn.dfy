/** ISBN-13 check digits: checksumISBN13 in app/internal/seeder/generator/common.go. */
module Isbn {
  import Decimal

  function Weight(position: nat): nat { if position % 2 == 0 then 1 else 3 }

  /** The weighted digit sum of ISO 2108: weights 1, 3, 1, 3, ... from the left. */
  function WeightedSum(s: string): nat
    requires Decimal.AllDigits(s)
  {
    if s == [] then 0
    else WeightedSum(s[..|s| - 1]) + Weight(|s| - 1) * Decimal.DigitValue(s[|s| - 1])
  }

  /** The independent validator of the generator's test. */
  predicate ValidChecksum(isbn: string) {
    Decimal.AllDigits(isbn) && WeightedSum(isbn) % 10 == 0
  }

  /** Appends the check digit. The result carries a valid checksum exactly when the prefix has even
      length or a weighted sum divisible by five. */
  method Checksum(prefix: string) returns (isbn: string)
    requires Decimal.AllDigits(prefix)
    ensures |isbn| == |prefix| + 1 && prefix <= isbn && Decimal.AllDigits(isbn)
    ensures ValidChecksum(isbn) <==> |prefix| % 2 == 0 || WeightedSum(prefix) % 5 == 0
  {
    var sum := 0;
    for idx := 0 to |prefix|
      invariant sum == WeightedSum(prefix[..idx])
    {
      assert prefix[..idx + 1][..idx] == prefix[..idx];
      var digit := Decimal.DigitValue(prefix[idx]);
      if idx % 2 == 0 {
        sum := sum + digit;
      } else {
        sum := sum + digit * 3;
      }
    }
    assert prefix[..|prefix|] == prefix;
    var checkDigit := (10 - (sum % 10)) % 10;
    isbn := prefix + Decimal.Digits(checkDigit);
    assert isbn == prefix + [Decimal.DigitChar(checkDigit)];
    AppendedSum(prefix, Decimal.DigitChar(checkDigit));
    CheckDigitArithmetic(sum, checkDigit);
  }

  /** Nothing but zeros weighs nothing; together with ChangedSum this fixes every sum. */
  lemma {:induction false} ZerosWeighNothing(n: nat)
    ensures WeightedSum(Decimal.Zeros(n)) == 0
  {
    if n > 0 {
      ZerosWeighNothing(n - 1);
      AppendedSum(Decimal.Zeros(n - 1), '0');
    }
  }

  lemma CheckDigitArithmetic(sum: nat, check: nat)
    requires check == (10 - sum % 10) % 10
    ensures (sum + check) % 10 == 0
    ensures (sum + 3 * check) % 10 == 0 <==> sum % 5 == 0
  {
    var q, r := sum / 10, sum % 10;
    assert sum == 10 * q + r;
    assert sum + check == 10 * (if r == 0 then q else q + 1);
    assert sum % 5 == r % 5;
    assert (sum + 3 * check) % 10 == (r + 3 * check) % 10;
  }

  lemma ChangeArithmetic(sum: nat, d: int, changed: nat)
    requires sum % 10 == 0 && -9 <= d <= 9
    requires changed as int == sum + d || changed as int == sum + 3 * d
    ensures changed % 10 == 0 <==> d == 0
  {
    var q := sum / 10;
    assert sum == 10 * q;
  }

  lemma SwapArithmetic(sum: nat, d: int, swapped: nat)
    requires sum % 10 == 0 && -9 <= d <= 9
    requires swapped as int == sum + 2 * d || swapped as int == sum - 2 * d
    ensures swapped % 10 == 0 <==> d == 0 || d == 5 || d == -5
  {
    var q := sum / 10;
    assert sum == 10 * q;
    if d == 0 || d == 5 || d == -5 {
      assert swapped == 10 * q || swapped == 10 * (q + 1) || swapped as int == 10 * (q - 1);
    }
  }

  /** The ISBN a book gets: 978, nine zero-padded random digits, and the check digit. */
  method BookIsbn(draw: nat) returns (isbn: string)
    requires draw < 1_000_000_000
    ensures |isbn| == 13 && "978" <= isbn && ValidChecksum(isbn)
    ensures Decimal.Value(isbn[3..12]) == draw
  {
    Decimal.PadProperties(draw, 9);
    var prefix := "978" + Decimal.Pad(draw, 9);
    isbn := Checksum(prefix);
    assert isbn[3..12] == prefix[3..] == Decimal.Pad(draw, 9);
  }

  lemma AppendedSum(s: string, c: char)
    requires Decimal.AllDigits(s) && Decimal.IsDigit(c)
    ensures Decimal.AllDigits(s + [c])
    ensures WeightedSum(s + [c]) == WeightedSum(s) + Weight(|s|) * Decimal.DigitValue(c)
  {
    assert (s + [c])[..|s|] == s;
  }

  /** Changing one digit moves the sum by that position's weight. */
  lemma {:induction false} ChangedSum(s: string, i: nat, c: char)
    requires Decimal.AllDigits(s) && i < |s| && Decimal.IsDigit(c)
    ensures Decimal.AllDigits(s[i := c])
    ensures var change := Decimal.DigitValue(c) as int - Decimal.DigitValue(s[i]);
            WeightedSum(s[i := c]) as int == WeightedSum(s) + (if i % 2 == 0 then change else 3 * change)
  {
    var n := |s| - 1;
    if i == n {
      assert s[i := c][..n] == s[..n];
    } else {
      ChangedSum(s[..n], i, c);
      assert s[i := c][..n] == s[..n][i := c];
    }
  }

  /** Every single-digit error is detected; in particular only one check digit fits a prefix. */
  lemma SingleErrorDetected(isbn: string, i: nat, c: char)
    requires ValidChecksum(isbn) && i < |isbn| && Decimal.IsDigit(c)
    ensures ValidChecksum(isbn[i := c]) <==> c == isbn[i]
  {
    ChangedSum(isbn, i, c);
    ChangeArithmetic(WeightedSum(isbn), Decimal.DigitValue(c) as int - Decimal.DigitValue(isbn[i]),
                     WeightedSum(isbn[i := c]));
    assert c == isbn[i] <==> Decimal.DigitValue(c) == Decimal.DigitValue(isbn[i]);
  }

  /** Swapping neighbours goes unnoticed exactly when they are equal or differ by five. */
  lemma AdjacentSwapDetected(isbn: string, i: nat)
    requires ValidChecksum(isbn) && i + 1 < |isbn|
    ensures var d := Decimal.DigitValue(isbn[i]) as int - Decimal.DigitValue(isbn[i + 1]);
            ValidChecksum(isbn[i := isbn[i + 1]][i + 1 := isbn[i]]) <==> d == 0 || d == 5 || d == -5
  {
    var a, b := isbn[i], isbn[i + 1];
    var d := Decimal.DigitValue(a) as int - Decimal.DigitValue(b);
    ChangedSum(isbn, i, b);
    ChangedSum(isbn[i := b], i + 1, a);
    assert isbn[i := b][i + 1] == b;
    assert (i + 1) % 2 == 0 <==> i % 2 != 0;
    SwapArithmetic(WeightedSum(isbn), d, WeightedSum(isbn[i := b][i + 1 := a]));
  }
}
