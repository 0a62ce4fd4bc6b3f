/** base64url with padding (section 5 of RFC 4648). Octets are regrouped into six-bit symbols,
    three octets to four symbols, and each symbol is written as one character. */
module Base64Url {
  import opened Common

  type Octet = b: int | 0 <= b < 256
  type Six = v: int | 0 <= v < 64

  datatype Symbol = Bits(v: Six) | Pad

  // ---- symbols and characters ----

  /** The URL-safe alphabet: A-Z, a-z, 0-9, '-' and '_', with '=' for padding. */
  function Print(x: Symbol): char {
    match x
    case Pad => '='
    case Bits(v) =>
      if v < 26 then ('A' as int + v) as char
      else if v < 52 then ('a' as int + v - 26) as char
      else if v < 62 then ('0' as int + v - 52) as char
      else if v == 62 then '-'
      else '_'
  }

  function Read(c: char): (r: Result<Symbol>)
    ensures r.Ok? ==> Print(r.value) == c
  {
    if 'A' <= c <= 'Z' then Ok(Bits(c as int - 'A' as int))
    else if 'a' <= c <= 'z' then Ok(Bits(c as int - 'a' as int + 26))
    else if '0' <= c <= '9' then Ok(Bits(c as int - '0' as int + 52))
    else if c == '-' then Ok(Bits(62))
    else if c == '_' then Ok(Bits(63))
    else if c == '=' then Ok(Pad)
    else Malformed
  }

  lemma ReadPrint(x: Symbol)
    ensures Read(Print(x)) == Ok(x)
  {
  }

  function PrintAll(xs: seq<Symbol>): string {
    if xs == [] then "" else [Print(xs[0])] + PrintAll(xs[1..])
  }

  function ReadAll(s: string): Result<seq<Symbol>> {
    if s == "" then Ok([])
    else
      match (Read(s[0]), ReadAll(s[1..]))
      case (Ok(x), Ok(xs)) => Ok([x] + xs)
      case _ => Malformed
  }

  lemma {:induction false} ReadPrintAll(xs: seq<Symbol>)
    ensures ReadAll(PrintAll(xs)) == Ok(xs)
    ensures |PrintAll(xs)| == |xs|
  {
    if xs != [] {
      ReadPrint(xs[0]);
      ReadPrintAll(xs[1..]);
      assert PrintAll(xs)[1..] == PrintAll(xs[1..]);
      assert xs == [xs[0]] + xs[1..];
    }
  }

  // ---- octets and symbols ----

  function First(a: Octet): Six { a / 4 }
  function Second(a: Octet, b: Octet): Six { a % 4 * 16 + b / 16 }
  function Third(b: Octet, c: Octet): Six { b % 16 * 4 + c / 64 }
  function Fourth(c: Octet): Six { c % 64 }

  function Octet1(w: Six, x: Six): Octet { w * 4 + x / 16 }
  function Octet2(x: Six, y: Six): Octet { x % 16 * 16 + y / 4 }
  function Octet3(y: Six, z: Six): Octet { y % 4 * 64 + z }

  /** Splitting 24 bits into four sextets loses nothing. */
  lemma Regroup(a: Octet, b: Octet, c: Octet)
    ensures Octet1(First(a), Second(a, b)) == a
    ensures Octet2(Second(a, b), Third(b, c)) == b
    ensures Octet3(Third(b, c), Fourth(c)) == c
  {
  }

  function ToSymbols(s: seq<Octet>): seq<Symbol> {
    if |s| == 0 then []
    else if |s| == 1 then [Bits(First(s[0])), Bits(Second(s[0], 0)), Pad, Pad]
    else if |s| == 2 then [Bits(First(s[0])), Bits(Second(s[0], s[1])), Bits(Third(s[1], 0)), Pad]
    else
      var group := [Bits(First(s[0])), Bits(Second(s[0], s[1])), Bits(Third(s[1], s[2])), Bits(Fourth(s[2]))];
      group + ToSymbols(s[3..])
  }

  /** Padding may only end the last group of four. */
  function FromSymbols(xs: seq<Symbol>): Result<seq<Octet>> {
    if |xs| == 0 then Ok([])
    else if |xs| < 4 || xs[0].Pad? || xs[1].Pad? then Malformed
    else
      var a := Octet1(xs[0].v, xs[1].v);
      if xs[2].Pad? then (if xs[2..] == [Pad, Pad] then Ok([a]) else Malformed)
      else
        var b := Octet2(xs[1].v, xs[2].v);
        if xs[3].Pad? then (if |xs| == 4 then Ok([a, b]) else Malformed)
        else
          match FromSymbols(xs[4..])
          case Ok(tail) => Ok([a, b, Octet3(xs[2].v, xs[3].v)] + tail)
          case Malformed => Malformed
  }

  lemma FromFullGroup(w: Six, x: Six, y: Six, z: Six, rest: seq<Symbol>, tail: seq<Octet>)
    requires FromSymbols(rest) == Ok(tail)
    ensures FromSymbols([Bits(w), Bits(x), Bits(y), Bits(z)] + rest)
         == Ok([Octet1(w, x), Octet2(x, y), Octet3(y, z)] + tail)
  {
    assert ([Bits(w), Bits(x), Bits(y), Bits(z)] + rest)[4..] == rest;
  }

  lemma FromPaddedGroup(w: Six, x: Six, y: Six)
    ensures FromSymbols([Bits(w), Bits(x), Pad, Pad]) == Ok([Octet1(w, x)])
    ensures FromSymbols([Bits(w), Bits(x), Bits(y), Pad]) == Ok([Octet1(w, x), Octet2(x, y)])
  {
    assert [Bits(w), Bits(x), Pad, Pad][2..] == [Pad, Pad];
  }

  lemma FromToOne(a: Octet)
    ensures FromSymbols(ToSymbols([a])) == Ok([a])
  {
    FromPaddedGroup(First(a), Second(a, 0), 0);
    Regroup(a, 0, 0);
  }

  lemma FromToTwo(a: Octet, b: Octet)
    ensures FromSymbols(ToSymbols([a, b])) == Ok([a, b])
  {
    FromPaddedGroup(First(a), Second(a, b), Third(b, 0));
    Regroup(a, b, 0);
  }

  lemma {:induction false} FromToSymbols(s: seq<Octet>)
    ensures FromSymbols(ToSymbols(s)) == Ok(s)
    ensures s != [] ==> ToSymbols(s) != []
  {
    if s == [] {
    } else if |s| == 1 {
      FromToOne(s[0]);
      assert s == [s[0]];
    } else if |s| == 2 {
      FromToTwo(s[0], s[1]);
      assert s == [s[0], s[1]];
    } else {
      var w, x, y, z := First(s[0]), Second(s[0], s[1]), Third(s[1], s[2]), Fourth(s[2]);
      var tail := ToSymbols(s[3..]);
      FromToSymbols(s[3..]);
      assert ToSymbols(s) == [Bits(w), Bits(x), Bits(y), Bits(z)] + tail;
      FromFullGroup(w, x, y, z, tail, s[3..]);
      Regroup(s[0], s[1], s[2]);
      assert s == [s[0], s[1], s[2]] + s[3..];
    }
  }

  // ---- the codec ----

  function Encode(s: seq<Octet>): string {
    PrintAll(ToSymbols(s))
  }

  function Decode(s: string): Result<seq<Octet>> {
    match ReadAll(s)
    case Ok(xs) => FromSymbols(xs)
    case Malformed => Malformed
  }

  lemma RoundTrip(s: seq<Octet>)
    ensures Decode(Encode(s)) == Ok(s)
    ensures s != [] ==> Encode(s) != ""
  {
    FromToSymbols(s);
    ReadPrintAll(ToSymbols(s));
  }

  /** Table 2 of RFC 4648. */
  const UPPER := "ABCDEFGHIJKLMNOPQRSTUVWXYZ"
  const LOWER := "abcdefghijklmnopqrstuvwxyz"
  const OTHERS := "0123456789-_"
  const ALPHABET := UPPER + LOWER + OTHERS

  lemma Letters(v: nat)
    requires v < 26
    ensures UPPER[v] == ('A' as int + v) as char && LOWER[v] == ('a' as int + v) as char
  {
  }

  lemma Others(v: nat)
    requires v < 12
    ensures OTHERS[v] == if v < 10 then ('0' as int + v) as char else if v == 10 then '-' else '_'
  {
  }

  lemma InParts(a: string, b: string, c: string, v: nat)
    requires |a| == |b| == 26 && v < 52 + |c|
    ensures (a + b + c)[v] == if v < 26 then a[v] else if v < 52 then b[v - 26] else c[v - 52]
  {
  }

  lemma PrintPart(v: Six)
    ensures Print(Bits(v)) == if v < 26 then UPPER[v] else if v < 52 then LOWER[v - 26] else OTHERS[v - 52]
  {
    hide UPPER, LOWER, OTHERS;
    if v < 52 {
      Letters(v % 26);
    } else {
      Others(v - 52);
    }
  }

  lemma PrintFromAlphabet(v: Six)
    ensures Print(Bits(v)) == ALPHABET[v]
  {
    PrintPart(v);
    assert |UPPER| == |LOWER| == 26 && |OTHERS| == 12;
    hide UPPER, LOWER, OTHERS, Print;
    InParts(UPPER, LOWER, OTHERS, v);
  }

  /** Three octets are one 24-bit number, whose four base-64 digits are written from the alphabet. */
  lemma EncodeThree(a: Octet, b: Octet, c: Octet, rest: seq<Octet>) returns (w: Six, x: Six, y: Six, z: Six)
    ensures w * 262144 + x * 4096 + y * 64 + z == a * 65536 + b * 256 + c
    ensures Encode([a, b, c] + rest) == [ALPHABET[w], ALPHABET[x], ALPHABET[y], ALPHABET[z]] + Encode(rest)
  {
    w, x, y, z := First(a), Second(a, b), Third(b, c), Fourth(c);
    ThreeSymbols(a, b, c, rest);
    WrittenDigits(w, x, y, z);
    PrintFour(Bits(w), Bits(x), Bits(y), Bits(z), ToSymbols(rest));
    hide First, Second, Third, Fourth, PrintAll, Print, ALPHABET, ToSymbols;
  }

  /** One or two octets at the end are filled up with zero bits, and the text with '='. */
  lemma EncodeTwo(a: Octet, b: Octet) returns (w: Six, x: Six, y: Six)
    ensures w * 262144 + x * 4096 + y * 64 == a * 65536 + b * 256
    ensures Encode([a, b]) == [ALPHABET[w], ALPHABET[x], ALPHABET[y], '=']
  {
    w, x, y := First(a), Second(a, b), Third(b, 0);
    LastSymbols(a, b);
    WrittenDigits(w, x, y, 0);
    PrintFour(Bits(w), Bits(x), Bits(y), Pad, []);
    hide First, Second, Third, Fourth, PrintAll, Print, ALPHABET, ToSymbols, Encode;
  }

  lemma EncodeOne(a: Octet) returns (w: Six, x: Six)
    ensures w * 262144 + x * 4096 == a * 65536
    ensures Encode([a]) == [ALPHABET[w], ALPHABET[x], '=', '=']
  {
    w, x := First(a), Second(a, 0);
    LastSymbols(a, 0);
    WrittenDigits(w, x, 0, 0);
    PrintFour(Bits(w), Bits(x), Pad, Pad, []);
    hide First, Second, Third, Fourth, PrintAll, Print, ALPHABET, ToSymbols, Encode;
  }

  lemma WrittenDigits(w: Six, x: Six, y: Six, z: Six)
    ensures Print(Bits(w)) == ALPHABET[w] && Print(Bits(x)) == ALPHABET[x]
    ensures Print(Bits(y)) == ALPHABET[y] && Print(Bits(z)) == ALPHABET[z] && Print(Pad) == '='
  {
    PrintFromAlphabet(w);
    PrintFromAlphabet(x);
    PrintFromAlphabet(y);
    PrintFromAlphabet(z);
    assert Print(Pad) == '=';
    hide Print, UPPER, LOWER;
  }

  lemma ThreeSymbols(a: Octet, b: Octet, c: Octet, rest: seq<Octet>)
    ensures ToSymbols([a, b, c] + rest)
         == [Bits(First(a)), Bits(Second(a, b)), Bits(Third(b, c)), Bits(Fourth(c))] + ToSymbols(rest)
  {
    assert ([a, b, c] + rest)[3..] == rest;
    hide First, Second, Third, Fourth;
  }

  lemma LastSymbols(a: Octet, b: Octet)
    ensures Encode([a, b]) == PrintAll([Bits(First(a)), Bits(Second(a, b)), Bits(Third(b, 0)), Pad])
    ensures Encode([a]) == PrintAll([Bits(First(a)), Bits(Second(a, 0)), Pad, Pad])
  {
    hide First, Second, Third, PrintAll;
  }

  lemma PrintTwo(x: Symbol, y: Symbol, rest: seq<Symbol>)
    ensures PrintAll([x, y] + rest) == [Print(x), Print(y)] + PrintAll(rest)
  {
    hide Print;
    assert ([x, y] + rest)[1..] == [y] + rest && ([y] + rest)[1..] == rest;
  }

  lemma PrintFour(w: Symbol, x: Symbol, y: Symbol, z: Symbol, rest: seq<Symbol>)
    ensures PrintAll([w, x, y, z] + rest) == [Print(w), Print(x), Print(y), Print(z)] + PrintAll(rest)
    ensures rest == [] ==> PrintAll([w, x, y, z]) == [Print(w), Print(x), Print(y), Print(z)]
  {
    assert PrintAll([]) == "";
    hide Print, PrintAll;
    PrintTwo(w, x, [y, z] + rest);
    PrintTwo(y, z, rest);
    assert [w, x, y, z] + rest == [w, x] + ([y, z] + rest);
    assert rest == [] ==> [w, x, y, z] + rest == [w, x, y, z];
  }
}
