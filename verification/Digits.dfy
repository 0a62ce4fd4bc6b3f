/** Numbers written in decimal or lower-case hexadecimal, padded to a width or not. */
module Digits {
  import opened Common

  type Base = b: int | b == 10 || b == 16 witness 10

  function Pow(base: Base, width: nat): (p: nat)
    ensures p > 0
  {
    if width == 0 then 1 else base * Pow(base, width - 1)
  }

  function Digit(d: nat): char
    requires d < 16
  {
    if d < 10 then ('0' as int + d) as char else ('a' as int + d - 10) as char
  }

  predicate IsDecimal(c: char) { '0' <= c <= '9' }

  function DigitValue(c: char, base: Base): (r: Result<nat>)
    ensures r.Ok? ==> r.value < base
  {
    if IsDecimal(c) then Ok(c as int - '0' as int)
    else if base == 16 && 'a' <= c <= 'f' then Ok(c as int - 'a' as int + 10)
    else if base == 16 && 'A' <= c <= 'F' then Ok(c as int - 'A' as int + 10)
    else Malformed
  }

  /** The last `width` digits of n, padded with zeros on the left. */
  function Pad(n: nat, width: nat, base: Base): (s: string)
    ensures |s| == width
  {
    if width == 0 then "" else Pad(n / base, width - 1, base) + [Digit(n % base)]
  }

  /** n without padding, as str() writes it. */
  function Show(n: nat): (s: string)
    ensures s != ""
  {
    if n < 10 then [Digit(n)] else Show(n / 10) + [Digit(n % 10)]
  }

  function Value(s: string, base: Base): (r: Result<nat>)
    ensures r.Ok? ==> r.value < Pow(base, |s|)
  {
    if s == "" then Ok(0)
    else
      match (Value(Front(s), base), DigitValue(Last(s), base))
      case (Ok(v), Ok(d)) => Ok(v * base + d)
      case _ => Malformed
  }

  lemma DivideFits(n: nat, width: nat, base: Base)
    requires width > 0 && n < Pow(base, width)
    ensures n / base < Pow(base, width - 1) && n / base * base + n % base == n
  {
    var p := Pow(base, width - 1);
    assert if base == 10 then n < 10 * p else n < 16 * p;
  }

  lemma DigitOfValue(d: nat, base: Base)
    requires d < base
    ensures DigitValue(Digit(d), base) == Ok(d)
  {
  }

  lemma {:induction false} ValueOfPad(n: nat, width: nat, base: Base)
    requires n < Pow(base, width)
    ensures Value(Pad(n, width, base), base) == Ok(n)
  {
    if width > 0 {
      DivideFits(n, width, base);
      DigitOfValue(n % base, base);
      hide Pow, DigitValue, Digit;
      ValueOfPad(n / base, width - 1, base);
      assert Front(Pad(n, width, base)) == Pad(n / base, width - 1, base);
    }
  }

  lemma {:induction false} ValueOfShow(n: nat)
    ensures Value(Show(n), 10) == Ok(n)
  {
    if n < 10 {
      assert Front(Show(n)) == "";
    } else {
      ValueOfShow(n / 10);
      assert Front(Show(n)) == Show(n / 10);
    }
  }

  /** ASCII, and neither the cursor separator nor a hyphen. */
  predicate Plain(c: char) {
    c as int < 128 && c != '|' && c != '-'
  }

  lemma {:induction false} PadIsPlain(n: nat, width: nat, base: Base)
    ensures forall c | c in Pad(n, width, base) :: Plain(c)
  {
    if width > 0 {
      PadIsPlain(n / base, width - 1, base);
    }
  }

  lemma {:induction false} ShowIsDecimal(n: nat)
    ensures forall c | c in Show(n) :: IsDecimal(c)
  {
    if n >= 10 {
      ShowIsDecimal(n / 10);
    }
  }

  /** The digits, of which base 10 uses the first ten. */
  lemma DigitMeaning(d: nat)
    requires d < 16
    ensures Digit(d) == "0123456789abcdef"[d]
  {
  }

  /** Padded text, digit by digit from the right. */
  lemma PadMeaning(n: nat, width: nat, base: Base)
    ensures Pad(n, 0, base) == ""
    ensures Pad(n, width + 1, base) == Pad(n / base, width, base) + ["0123456789abcdef"[n % base]]
  {
    DigitMeaning(n % base);
  }

  /** Text without padding: padded to any width in which it fits without a leading zero. */
  lemma {:induction false} ShowMeaning(n: nat)
    ensures Show(n) == Pad(n, |Show(n)|, 10)
    ensures Show(n)[0] == '0' ==> n == 0
  {
    if n >= 10 {
      ShowMeaning(n / 10);
      assert Front(Show(n)) == Show(n / 10);
    } else {
      assert Pad(n, 1, 10) == Pad(n / 10, 0, 10) + [Digit(n)];
    }
  }
}
