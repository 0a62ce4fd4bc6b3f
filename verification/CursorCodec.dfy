/** The pagination cursor: base64url of "<ISO timestamp>|<UUID>". */
module CursorCodec {
  import opened Common
  import opened Digits
  import Base64Url

  // ---- fixed-width templates ----

  /** A number of `width` digits after the separator `before`. */
  datatype Field = Field(before: string, width: nat)

  const STAMP := [Field("", 4), Field("-", 2), Field("-", 2),
                  Field("T", 2), Field(":", 2), Field(":", 2)]
  const FRACTION := [Field(".", 6)]
  const HOURS_MINUTES := [Field("", 2), Field(":", 2)]
  const SECONDS := [Field(":", 2)]

  predicate Fits(fields: seq<Field>, values: seq<nat>) {
    |values| == |fields| && forall i | 0 <= i < |fields| :: values[i] < Pow(10, fields[i].width)
  }

  function PrintField(f: Field, v: nat, rest: string): string {
    f.before + Pad(v, f.width, 10) + rest
  }

  /** The fields in turn, followed by `rest`. */
  function Print(fields: seq<Field>, values: seq<nat>, rest: string): string
    requires Fits(fields, values)
  {
    if fields == [] then rest else PrintField(fields[0], values[0], Print(fields[1..], values[1..], rest))
  }

  /** Reads one field from the front of s and returns the rest of s. */
  function ParseField(f: Field, s: string): Result<(nat, string)> {
    var k := |f.before|;
    if |s| < k + f.width || s[..k] != f.before then Malformed
    else
      match Value(s[k..k + f.width], 10)
      case Ok(v) => Ok((v, s[k + f.width..]))
      case Malformed => Malformed
  }

  function Parse(fields: seq<Field>, s: string): (r: Result<(seq<nat>, string)>)
    ensures r.Ok? ==> |r.value.0| == |fields|
  {
    if fields == [] then Ok(([], s))
    else
      match ParseField(fields[0], s)
      case Malformed => Malformed
      case Ok((v, rest)) =>
        match Parse(fields[1..], rest)
        case Malformed => Malformed
        case Ok((values, end)) => Ok(([v] + values, end))
  }

  lemma ParsePrintField(f: Field, v: nat, rest: string)
    requires v < Pow(10, f.width)
    ensures ParseField(f, PrintField(f, v, rest)) == Ok((v, rest))
  {
    var s, k := PrintField(f, v, rest), |f.before|;
    ValueOfPad(v, f.width, 10);
    assert s[..k] == f.before;
    assert s[k..k + f.width] == Pad(v, f.width, 10);
    assert s[k + f.width..] == rest;
  }

  lemma {:induction false} ParsePrint(fields: seq<Field>, values: seq<nat>, rest: string)
    requires Fits(fields, values)
    ensures Parse(fields, Print(fields, values, rest)) == Ok((values, rest))
  {
    if fields != [] {
      ParsePrintField(fields[0], values[0], Print(fields[1..], values[1..], rest));
      ParsePrint(fields[1..], values[1..], rest);
      assert values == [values[0]] + values[1..];
    }
  }

  /** Text free of '|' and of anything outside ASCII. */
  predicate Clean(s: string) {
    forall i | 0 <= i < |s| :: Plain(s[i]) || s[i] == '-'
  }

  lemma {:induction false} PrintIsClean(fields: seq<Field>, values: seq<nat>, rest: string)
    requires Fits(fields, values) && Clean(rest)
    requires forall f | f in fields :: Clean(f.before)
    ensures Clean(Print(fields, values, rest))
  {
    if fields != [] {
      PadIsPlain(values[0], fields[0].width, 10);
      PrintIsClean(fields[1..], values[1..], rest);
    }
  }

  // ---- timestamps ----

  /** A datetime; the UTC offset is in microseconds and absent on a naive datetime. */
  datatype Timestamp = Timestamp(year: nat, month: nat, day: nat, hour: nat, minute: nat,
                                 second: nat, micro: nat, offset: Option<int>)

  function DaysIn(year: nat, month: nat): nat {
    if month == 2 then
      if year % 4 == 0 && (year % 100 != 0 || year % 400 == 0) then 29 else 28
    else if month in {4, 6, 9, 11} then 30
    else 31
  }

  const DAY := 86_400_000_000

  /** What datetime itself guarantees of its fields. */
  predicate Valid(t: Timestamp) {
    && 1 <= t.year <= 9999 && 1 <= t.month <= 12 && 1 <= t.day <= DaysIn(t.year, t.month)
    && t.hour < 24 && t.minute < 60 && t.second < 60 && t.micro < 1_000_000
    && (t.offset.Some? ==> -DAY < t.offset.value < DAY)
  }

  lemma Powers()
    ensures Pow(10, 2) == 100 && Pow(10, 4) == 10_000 && Pow(10, 6) == 1_000_000
  {
    assert Pow(10, 2) == 100;
    assert Pow(10, 4) == 10_000;
  }

  function StampValues(t: Timestamp): (v: seq<nat>)
    requires Valid(t)
    ensures Fits(STAMP, v)
  {
    Powers();
    [t.year, t.month, t.day, t.hour, t.minute, t.second]
  }

  function Abs(i: int): nat { if i < 0 then -i else i }

  function FractionText(micro: nat, rest: string): string
    requires micro < 1_000_000
  {
    Powers();
    if micro == 0 then rest else Print(FRACTION, [micro], rest)
  }

  /** Seconds, with a fraction if there is one, unless the offset is in whole minutes. */
  function SecondsText(off: nat): string
    requires off < DAY
  {
    Powers();
    if off % 60_000_000 == 0 then ""
    else Print(SECONDS, [off / 1_000_000 % 60], FractionText(off % 1_000_000, ""))
  }

  function HoursMinutes(off: nat): (hm: seq<nat>)
    requires off < DAY
    ensures Fits(HOURS_MINUTES, hm) && off == hm[0] * 3_600_000_000 + hm[1] * 60_000_000 + off % 60_000_000
  {
    Powers();
    [off / 3_600_000_000, off / 60_000_000 % 60]
  }

  function OffsetText(offset: Option<int>): string
    requires offset.Some? ==> -DAY < offset.value < DAY
  {
    if offset.None? then ""
    else
      var off := Abs(offset.value);
      [if offset.value < 0 then '-' else '+'] + Print(HOURS_MINUTES, HoursMinutes(off), SecondsText(off))
  }

  /** datetime.isoformat: microseconds only when non-zero, the offset only when present. */
  function IsoFormat(t: Timestamp): string
    requires Valid(t)
  {
    Print(STAMP, StampValues(t), FractionText(t.micro, OffsetText(t.offset)))
  }

  function ParseFraction(s: string): Result<(nat, string)> {
    if s == "" || s[0] != '.' then Ok((0, s))
    else
      match Parse(FRACTION, s)
      case Ok((values, rest)) => Ok((values[0], rest))
      case Malformed => Malformed
  }

  /** The optional seconds of an offset, up to the end of the text, in microseconds. */
  function ParseSeconds(s: string): Result<nat> {
    if s == "" then Ok(0)
    else
      match Parse(SECONDS, s)
      case Malformed => Malformed
      case Ok((values, rest)) =>
        match ParseFraction(rest)
        case Malformed => Malformed
        case Ok((micro, end)) => if end == "" then Ok(values[0] * 1_000_000 + micro) else Malformed
  }

  function ParseOffset(s: string): Result<Option<int>> {
    if s == "" then Ok(None)
    else if s[0] != '+' && s[0] != '-' then Malformed
    else
      match Parse(HOURS_MINUTES, s[1..])
      case Malformed => Malformed
      case Ok((hm, rest)) =>
        match ParseSeconds(rest)
        case Malformed => Malformed
        case Ok(sec) => Ok(Some(Signed(s[0], hm[0] * 3_600_000_000 + hm[1] * 60_000_000 + sec)))
  }

  function Signed(sign: char, n: nat): int { if sign == '-' then 0 - n else n }

  /** datetime.fromisoformat on the forms isoformat writes. */
  function FromIsoFormat(s: string): (r: Result<Timestamp>)
    ensures r.Ok? ==> Valid(r.value)
  {
    match Parse(STAMP, s)
    case Malformed => Malformed
    case Ok((v, rest)) =>
      match ParseFraction(rest)
      case Malformed => Malformed
      case Ok((micro, rest')) =>
        match ParseOffset(rest')
        case Malformed => Malformed
        case Ok(offset) =>
          var t := Timestamp(v[0], v[1], v[2], v[3], v[4], v[5], micro, offset);
          if Valid(t) then Ok(t) else Malformed
  }

  lemma SecondsAndFraction(off: nat)
    ensures off % 60_000_000 == off / 1_000_000 % 60 * 1_000_000 + off % 1_000_000
  {
  }

  lemma ParseSecondsText(off: nat)
    requires off < DAY
    ensures ParseSeconds(SecondsText(off)) == Ok(off % 60_000_000)
    ensures Clean(SecondsText(off))
  {
    if off % 60_000_000 != 0 {
      var sec, micro := off / 1_000_000 % 60, off % 1_000_000;
      Powers();
      SecondsAndFraction(off);
      ParseFractionText(micro, "");
      hide FractionText, ParseFraction;
      ParsePrint(SECONDS, [sec], FractionText(micro, ""));
      PrintIsClean(SECONDS, [sec], FractionText(micro, ""));
    }
  }

  /** A sign, hours and minutes, and what is left. */
  lemma ParseSigned(sign: char, hm: seq<nat>, sec: nat, tail: string)
    requires Fits(HOURS_MINUTES, hm) && (sign == '+' || sign == '-') && ParseSeconds(tail) == Ok(sec) && Clean(tail)
    ensures var s := [sign] + Print(HOURS_MINUTES, hm, tail);
      ParseOffset(s) == Ok(Some(Signed(sign, hm[0] * 3_600_000_000 + hm[1] * 60_000_000 + sec))) && CleanButFirst(s)
  {
    ParsePrint(HOURS_MINUTES, hm, tail);
    HoursMinutesClean();
    PrintIsClean(HOURS_MINUTES, hm, tail);
    hide Print, Parse, ParseSeconds, Clean;
    var s := [sign] + Print(HOURS_MINUTES, hm, tail);
    assert s[1..] == Print(HOURS_MINUTES, hm, tail);
  }

  predicate CleanButFirst(s: string) { s != "" && Clean(s[1..]) }

  lemma HoursMinutesClean()
    ensures forall f | f in HOURS_MINUTES :: Clean(f.before)
  {
  }

  lemma ParseOffsetText(offset: Option<int>)
    requires offset.Some? ==> -DAY < offset.value < DAY
    ensures ParseOffset(OffsetText(offset)) == Ok(offset)
    ensures OffsetText(offset) != "" ==> OffsetText(offset)[0] != '.'
    ensures Clean(OffsetText(offset))
  {
    if offset.Some? {
      var off, sign := Abs(offset.value), if offset.value < 0 then '-' else '+';
      ParseSecondsText(off);
      hide SecondsText, ParseSeconds, HoursMinutes, Print, Parse, ParseOffset, Clean, CleanButFirst;
      ParseSigned(sign, HoursMinutes(off), off % 60_000_000, SecondsText(off));
      FirstIsClean(sign, Print(HOURS_MINUTES, HoursMinutes(off), SecondsText(off)));
    }
  }

  lemma FirstIsClean(sign: char, s: string)
    requires CleanButFirst([sign] + s) && (sign == '+' || sign == '-')
    ensures Clean([sign] + s)
  {
    var t := [sign] + s;
    assert forall i | 1 <= i < |t| :: t[i] == t[1..][i - 1];
  }

  lemma ParseFractionText(micro: nat, rest: string)
    requires micro < 1_000_000 && (rest != "" ==> rest[0] != '.') && Clean(rest)
    ensures ParseFraction(FractionText(micro, rest)) == Ok((micro, rest))
    ensures Clean(FractionText(micro, rest))
  {
    if micro != 0 {
      Powers();
      ParsePrint(FRACTION, [micro], rest);
      PrintIsClean(FRACTION, [micro], rest);
    }
  }

  lemma StampIsClean()
    ensures forall f | f in STAMP :: Clean(f.before)
  {
  }

  lemma IsoRoundTrip(t: Timestamp)
    requires Valid(t)
    ensures FromIsoFormat(IsoFormat(t)) == Ok(t)
    ensures Clean(IsoFormat(t))
  {
    var tail := FractionText(t.micro, OffsetText(t.offset));
    ParseOffsetText(t.offset);
    ParseFractionText(t.micro, OffsetText(t.offset));
    StampIsClean();
    hide Print, Parse, FractionText, OffsetText, ParseFraction, ParseOffset, Clean;
    ParsePrint(STAMP, StampValues(t), tail);
    PrintIsClean(STAMP, StampValues(t), tail);
  }

  /** YYYY-MM-DDTHH:MM:SS, then .ffffff unless the microseconds are zero, then the offset's text. */
  lemma IsoMeaning(t: Timestamp)
    requires Valid(t)
    ensures IsoFormat(t)
         == Pad(t.year, 4, 10) + "-" + Pad(t.month, 2, 10) + "-" + Pad(t.day, 2, 10) + "T"
            + Pad(t.hour, 2, 10) + ":" + Pad(t.minute, 2, 10) + ":" + Pad(t.second, 2, 10)
            + (if t.micro == 0 then "" else "." + Pad(t.micro, 6, 10))
            + OffsetText(t.offset)
  {
    var tail, v := FractionText(t.micro, OffsetText(t.offset)), StampValues(t);
    PrintSix(v, tail);
    PrintOne(FRACTION[0], t.micro, OffsetText(t.offset));
    hide Print, OffsetText, Pad;
  }

  lemma PrintOne(f: Field, v: nat, rest: string)
    requires v < Pow(10, f.width)
    ensures Print([f], [v], rest) == f.before + Pad(v, f.width, 10) + rest
  {
    hide Pad, Pow;
  }

  lemma PrintFrom(k: nat, front: string, v: seq<nat>, rest: string)
    requires Fits(STAMP, v) && k < 6
    ensures front + Print(STAMP[k..], v[k..], rest)
         == front + STAMP[k].before + Pad(v[k], STAMP[k].width, 10) + Print(STAMP[k + 1..], v[k + 1..], rest)
  {
    hide Pad, Pow;
    assert STAMP[k..][1..] == STAMP[k + 1..] && v[k..][1..] == v[k + 1..];
    Flat(front, STAMP[k].before, Pad(v[k], STAMP[k].width, 10), Print(STAMP[k + 1..], v[k + 1..], rest));
  }

  lemma Flat(front: string, before: string, digits: string, rest: string)
    ensures front + (before + digits + rest) == front + before + digits + rest
  {
  }

  lemma PrintSix(v: seq<nat>, rest: string)
    requires Fits(STAMP, v)
    ensures Print(STAMP, v, rest)
         == Pad(v[0], 4, 10) + "-" + Pad(v[1], 2, 10) + "-" + Pad(v[2], 2, 10) + "T"
            + Pad(v[3], 2, 10) + ":" + Pad(v[4], 2, 10) + ":" + Pad(v[5], 2, 10) + rest
  {
    PrintDate(v, rest);
    var date := Pad(v[0], 4, 10) + "-" + Pad(v[1], 2, 10) + "-" + Pad(v[2], 2, 10);
    hide Pad, Pow, Print;
    PrintTime(date, v, rest);
  }

  lemma PrintDate(v: seq<nat>, rest: string)
    requires Fits(STAMP, v)
    ensures Print(STAMP, v, rest)
         == Pad(v[0], 4, 10) + "-" + Pad(v[1], 2, 10) + "-" + Pad(v[2], 2, 10) + Print(STAMP[3..], v[3..], rest)
  {
    assert STAMP[0..] == STAMP && v[0..] == v;
    hide Pad, Pow, Print, Fits;
    PrintFrom(0, "", v, rest);
    var s := "" + STAMP[0].before + Pad(v[0], 4, 10);
    assert s == Pad(v[0], 4, 10);
    PrintFrom(1, s, v, rest);
    PrintFrom(2, s + "-" + Pad(v[1], 2, 10), v, rest);
  }

  lemma PrintTime(date: string, v: seq<nat>, rest: string)
    requires Fits(STAMP, v)
    ensures date + Print(STAMP[3..], v[3..], rest)
         == date + "T" + Pad(v[3], 2, 10) + ":" + Pad(v[4], 2, 10) + ":" + Pad(v[5], 2, 10) + rest
  {
    assert Print(STAMP[6..], v[6..], rest) == rest;
    hide Pad, Pow, Print, Fits;
    PrintFrom(3, date, v, rest);
    var s := date + "T" + Pad(v[3], 2, 10);
    PrintFrom(4, s, v, rest);
    PrintFrom(5, s + ":" + Pad(v[4], 2, 10), v, rest);
  }

  /** The offset's text: nothing for a naive datetime, else the sign, HH:MM and the seconds, which
      are left out of whole minutes. */
  lemma OffsetMeaning(o: int)
    requires -DAY < o < DAY
    ensures OffsetText(None) == ""
    ensures var off: nat := if o < 0 then -o else o;
      OffsetText(Some(o))
      == (if o < 0 then "-" else "+") + Pad(off / 3_600_000_000, 2, 10) + ":" + Pad(off / 60_000_000 % 60, 2, 10)
         + SecondsText(off)
  {
    var off, sign := Abs(o), if o < 0 then "-" else "+";
    var hm := HoursMinutes(off);
    assert hm == [off / 3_600_000_000, off / 60_000_000 % 60];
    assert OffsetText(Some(o)) == sign + Print(HOURS_MINUTES, hm, SecondsText(off));
    hide Print, Pad, HoursMinutes, SecondsText, OffsetText;
    PrintPair(hm, SecondsText(off));
    Flat(sign, Pad(hm[0], 2, 10), ":" + Pad(hm[1], 2, 10), SecondsText(off));
    assert Pad(hm[0], 2, 10) + ":" + Pad(hm[1], 2, 10) == Pad(hm[0], 2, 10) + (":" + Pad(hm[1], 2, 10));
  }

  lemma SecondsMeaning(off: nat)
    requires off < DAY
    ensures var (seconds, micro) := (off / 1_000_000 % 60, off % 1_000_000);
      SecondsText(off)
      == if off % 60_000_000 == 0 then ""
         else ":" + Pad(seconds, 2, 10) + (if micro == 0 then "" else "." + Pad(micro, 6, 10))
  {
    Powers();
    if off % 60_000_000 != 0 {
      var micro := off % 1_000_000;
      PrintOne(SECONDS[0], off / 1_000_000 % 60, FractionText(micro, ""));
      PrintOne(FRACTION[0], micro, "");
      hide Print, Pad;
    }
  }

  lemma PrintPair(hm: seq<nat>, rest: string)
    requires Fits(HOURS_MINUTES, hm)
    ensures Print(HOURS_MINUTES, hm, rest) == Pad(hm[0], 2, 10) + ":" + Pad(hm[1], 2, 10) + rest
  {
    hide Pad, Pow;
    assert HOURS_MINUTES[1..] == [Field(":", 2)] && hm[1..] == [hm[1]];
    PrintOne(Field(":", 2), hm[1], rest);
  }

  // ---- UUIDs ----

  /** A 128-bit number. */
  type Uuid = n: nat | n < Pow(16, 32)

  /** The groups separated by hyphens. */
  function Hyphenate(groups: seq<string>): string {
    if groups == [] then ""
    else if |groups| == 1 then groups[0]
    else groups[0] + ['-'] + Hyphenate(groups[1..])
  }

  function Concat(groups: seq<string>): string {
    if groups == [] then "" else groups[0] + Concat(groups[1..])
  }

  /** Groups of 8, 4, 4, 4 and 12 digits. */
  function UuidGroups(id: Uuid): seq<string> {
    var hex := Pad(id, 32, 16);
    [hex[..8], hex[8..12], hex[12..16], hex[16..20], hex[20..]]
  }

  function UuidText(id: Uuid): string {
    Hyphenate(UuidGroups(id))
  }

  function Without(s: string, c: char): string {
    if s == "" then "" else (if s[0] == c then "" else [s[0]]) + Without(s[1..], c)
  }

  /** The UUID constructor drops the hyphens and wants 32 hexadecimal digits. */
  function ParseUuid(s: string): Result<Uuid> {
    var hex := Without(s, '-');
    if |hex| != 32 then Malformed
    else
      match Value(hex, 16)
      case Ok(n) => Ok(n)
      case Malformed => Malformed
  }

  lemma {:induction false} WithoutJoin(a: string, b: string, c: char)
    requires c !in a
    ensures Without(a + [c] + b, c) == a + Without(b, c)
  {
    if a == "" {
      assert (a + [c] + b)[1..] == b;
    } else {
      WithoutJoin(a[1..], b, c);
      assert (a + [c] + b)[1..] == a[1..] + [c] + b;
    }
  }

  lemma {:induction false} WithoutNothing(a: string, c: char)
    requires c !in a
    ensures Without(a, c) == a
  {
    if a != "" {
      WithoutNothing(a[1..], c);
    }
  }

  lemma {:induction false} WithoutHyphens(groups: seq<string>)
    requires forall g | g in groups :: '-' !in g
    ensures Without(Hyphenate(groups), '-') == Concat(groups)
  {
    if |groups| == 1 {
      WithoutNothing(groups[0], '-');
      assert Concat(groups) == groups[0];
    } else if |groups| > 1 {
      WithoutHyphens(groups[1..]);
      WithoutJoin(groups[0], Hyphenate(groups[1..]), '-');
    }
  }

  lemma {:induction false} HyphenateIsClean(groups: seq<string>)
    requires forall g | g in groups :: Clean(g)
    ensures Clean(Hyphenate(groups))
  {
    if |groups| == 1 {
      assert groups[0] in groups;
    } else if |groups| > 1 {
      HyphenateIsClean(groups[1..]);
      assert Clean(groups[0]) && Clean(Hyphenate(groups[1..]));
    }
  }

  /** 32 hexadecimal digits, with a hyphen after the 8th, 12th, 16th and 20th. */
  lemma UuidMeaning(id: Uuid)
    ensures var hex := Pad(id, 32, 16);
      UuidText(id) == hex[..8] + "-" + hex[8..12] + "-" + hex[12..16] + "-" + hex[16..20] + "-" + hex[20..]
  {
    hide Pad, Pow;
    var g := UuidGroups(id);
    assert UuidText(id) == g[0] + "-" + Hyphenate(g[1..]) && Hyphenate([g[4]]) == g[4];
    assert g[1..][1..] == g[2..] && g[2..][1..] == g[3..] && g[3..][1..] == g[4..] && g[4..] == [g[4]];
    assert Hyphenate(g[3..]) == g[3] + "-" + Hyphenate(g[4..]);
    assert Hyphenate(g[2..]) == g[2] + "-" + Hyphenate(g[3..]);
    assert Hyphenate(g[1..]) == g[1] + "-" + Hyphenate(g[2..]);
    hide Hyphenate;
    var front := g[0] + "-";
    Flat(front, g[1], "-", Hyphenate(g[2..]));
    front := front + g[1] + "-";
    Flat(front, g[2], "-", Hyphenate(g[3..]));
    front := front + g[2] + "-";
    Flat(front, g[3], "-", g[4]);
  }

  lemma UuidGroupsJoin(id: Uuid)
    ensures Concat(UuidGroups(id)) == Pad(id, 32, 16)
  {
    var g := UuidGroups(id);
    assert g[1..][1..] == g[2..] && g[2..][1..] == g[3..] && g[3..][1..] == g[4..] && g[4..][1..] == [];
    assert Concat(g[4..]) == g[4];
    assert Concat(g[3..]) == g[3] + Concat(g[4..]);
    assert Concat(g[2..]) == g[2] + Concat(g[3..]);
    assert Concat(g[1..]) == g[1] + Concat(g[2..]);
  }

  lemma UuidRoundTrip(id: Uuid)
    ensures ParseUuid(UuidText(id)) == Ok(id)
    ensures Clean(UuidText(id))
  {
    var hex, groups := Pad(id, 32, 16), UuidGroups(id);
    PadIsPlain(id, 32, 16);
    assert forall i | 0 <= i < 32 :: Plain(hex[i]);
    forall g | g in groups ensures '-' !in g && Clean(g) {
    }
    WithoutHyphens(groups);
    HyphenateIsClean(groups);
    UuidGroupsJoin(id);
    ValueOfPad(id, 32, 16);
  }

  // ---- the cursor ----

  type Octet = Base64Url.Octet

  predicate Ascii(s: string) {
    forall i | 0 <= i < |s| :: s[i] as int < 128
  }

  function ToOctets(s: string): seq<Octet>
    requires Ascii(s)
  {
    if s == "" then []
    else
      var octet: Octet := s[0] as int;
      [octet] + ToOctets(s[1..])
  }

  /** UTF-8 decoding, of the single-octet characters. */
  function FromOctets(b: seq<Octet>): Result<string> {
    if b == [] then Ok("")
    else
      match FromOctets(b[1..])
      case Ok(tail) => if b[0] < 128 then Ok([b[0] as char] + tail) else Malformed
      case Malformed => Malformed
  }

  lemma {:induction false} FromToOctets(s: string)
    requires Ascii(s)
    ensures FromOctets(ToOctets(s)) == Ok(s)
    ensures |ToOctets(s)| == |s|
  {
    if s != "" {
      FromToOctets(s[1..]);
      assert s == [s[0]] + s[1..];
    }
  }

  function Split(s: string, sep: char): (parts: seq<string>)
    ensures parts != []
  {
    if s == "" then [""]
    else
      var rest := Split(s[1..], sep);
      if s[0] == sep then [""] + rest else [[s[0]] + rest[0]] + rest[1..]
  }

  lemma {:induction false} SplitClean(s: string, sep: char)
    requires sep !in s
    ensures Split(s, sep) == [s]
  {
    if s != "" {
      SplitClean(s[1..], sep);
      assert s == [s[0]] + s[1..];
    }
  }

  lemma {:induction false} SplitJoined(a: string, b: string, sep: char)
    requires sep !in a && sep !in b
    ensures Split(a + [sep] + b, sep) == [a, b]
  {
    if a == "" {
      assert (a + [sep] + b)[1..] == b;
      SplitClean(b, sep);
    } else {
      SplitJoined(a[1..], b, sep);
      assert (a + [sep] + b)[1..] == a[1..] + [sep] + b;
      assert a == [a[0]] + a[1..];
    }
  }

  function Raw(createdAt: Timestamp, id: Uuid): string
    requires Valid(createdAt)
  {
    IsoFormat(createdAt) + ['|'] + UuidText(id)
  }

  function EncodeCursor(createdAt: Timestamp, id: Uuid): string
    requires Valid(createdAt)
  {
    RawIsAscii(createdAt, id);
    Base64Url.Encode(ToOctets(Raw(createdAt, id)))
  }

  lemma RawIsAscii(createdAt: Timestamp, id: Uuid)
    requires Valid(createdAt)
    ensures Ascii(Raw(createdAt, id))
  {
    IsoRoundTrip(createdAt);
    UuidRoundTrip(id);
  }

  function ParseRaw(raw: string): (r: Result<(Timestamp, Uuid)>)
    ensures r.Ok? ==> Valid(r.value.0)
  {
    var parts := Split(raw, '|');
    if |parts| != 2 then Malformed
    else
      match (FromIsoFormat(parts[0]), ParseUuid(parts[1]))
      case (Ok(t), Ok(id)) => Ok((t, id))
      case _ => Malformed
  }

  /** Malformed stands for the ValueError that the original lets escape. */
  function DecodeCursor(cursor: string): (r: Result<(Timestamp, Uuid)>)
    ensures r.Ok? ==> Valid(r.value.0)
  {
    match Base64Url.Decode(cursor)
    case Malformed => Malformed
    case Ok(octets) =>
      match FromOctets(octets)
      case Malformed => Malformed
      case Ok(raw) => ParseRaw(raw)
  }

  /** Every cursor the service hands out is read back as the same pair, and is never the empty
      string, which list_tasks takes for "no cursor". */
  lemma CursorRoundTrip(createdAt: Timestamp, id: Uuid)
    requires Valid(createdAt)
    ensures DecodeCursor(EncodeCursor(createdAt, id)) == Ok((createdAt, id))
    ensures EncodeCursor(createdAt, id) != ""
  {
    var raw := Raw(createdAt, id);
    RawIsAscii(createdAt, id);
    FromToOctets(raw);
    Base64Url.RoundTrip(ToOctets(raw));
    IsoRoundTrip(createdAt);
    UuidRoundTrip(id);
    SplitJoined(IsoFormat(createdAt), UuidText(id), '|');
  }

  /** Two rows never share a cursor. */
  lemma CursorInjective(t1: Timestamp, id1: Uuid, t2: Timestamp, id2: Uuid)
    requires Valid(t1) && Valid(t2)
    ensures EncodeCursor(t1, id1) == EncodeCursor(t2, id2) <==> t1 == t2 && id1 == id2
  {
    CursorRoundTrip(t1, id1);
    CursorRoundTrip(t2, id2);
  }

  /** The octets of "<ISO text>|<UUID>", in base64url. */
  lemma CursorMeaning(createdAt: Timestamp, id: Uuid) returns (octets: seq<Octet>)
    requires Valid(createdAt)
    ensures var raw := IsoFormat(createdAt) + "|" + UuidText(id);
      |octets| == |raw| && forall i | 0 <= i < |raw| :: octets[i] == raw[i] as int
    ensures EncodeCursor(createdAt, id) == Base64Url.Encode(octets)
  {
    RawIsAscii(createdAt, id);
    octets := ToOctets(Raw(createdAt, id));
    OctetsMeaning(Raw(createdAt, id));
    hide IsoFormat, UuidText, ToOctets;
  }

  lemma {:induction false} OctetsMeaning(s: string)
    requires Ascii(s)
    ensures |ToOctets(s)| == |s| && forall i | 0 <= i < |s| :: ToOctets(s)[i] == s[i] as int
  {
    if s != "" {
      OctetsMeaning(s[1..]);
      assert forall i | 1 <= i < |s| :: s[i] == s[1..][i - 1];
    }
  }
}
