/**
 A paging cursor as a caller carries it: a timestamp and an id, joined, in unpadded URL-safe
 base64 (section 5 of RFC 4648), read back strictly.
 */
module Cursors {
  import opened Options
  import FetchKeys
  import opened Queries

  // ----- base64 ----------------------------------------------------------------------------------------

  predicate Bytes(b: string) { forall i :: 0 <= i < |b| ==> b[i] as int < 256 }

  function Letter(n: nat): (c: char)
    requires n < 64
    ensures Index(c) == Some(n)
  {
    if n < 26 then 'A' + n as char
    else if n < 52 then 'a' + (n - 26) as char
    else if n < 62 then '0' + (n - 52) as char
    else if n == 62 then '-' else '_'
  }

  function Index(c: char): (r: Option<nat>)
    ensures r.Some? ==> r.value < 64
  {
    if 'A' <= c <= 'Z' then Some(c as int - 'A' as int)
    else if 'a' <= c <= 'z' then Some(c as int - 'a' as int + 26)
    else if '0' <= c <= '9' then Some(c as int - '0' as int + 52)
    else if c == '-' then Some(62)
    else if c == '_' then Some(63)
    else None
  }

  function Encode64(b: string): string
    requires Bytes(b)
  {
    if b == "" then ""
    else
      var x := b[0] as int;
      if |b| == 1 then [Letter(x / 4), Letter(x % 4 * 16)]
      else
        var y := b[1] as int;
        if |b| == 2 then [Letter(x / 4), Letter(x % 4 * 16 + y / 16), Letter(y % 16 * 4)]
        else
          var z := b[2] as int;
          [Letter(x / 4), Letter(x % 4 * 16 + y / 16), Letter(y % 16 * 4 + z / 64), Letter(z % 64)] + Encode64(b[3..])
  }

  /** Four letters make three bytes; two or three at the end make one or two; anything else is not base64. */
  function Decode64(s: string): Option<string> {
    if s == "" then Some("")
    else if |s| == 1 then None
    else match (Index(s[0]), Index(s[1]))
      case (Some(a), Some(b)) =>
        var x := (a * 4 + b / 16) as char;
        if |s| == 2 then Some([x])
        else (match Index(s[2])
              case None => None
              case Some(c) =>
                var y := (b % 16 * 16 + c / 4) as char;
                if |s| == 3 then Some([x, y])
                else match (Index(s[3]), Decode64(s[4..]))
                  case (Some(d), Some(rest)) => Some([x, y, (c % 4 * 64 + d) as char] + rest)
                  case _ => None)
      case _ => None
  }

  lemma SplitByte(x: nat)
    requires x < 256
    ensures x / 4 < 64 && x % 4 * 16 < 64 && x / 4 * 4 + x % 4 * 16 / 16 == x
    ensures x % 16 * 4 < 64 && x / 16 < 16 && x / 16 * 16 + x % 16 == x && x % 64 < 64 && x / 64 * 64 + x % 64 == x
  {}

  lemma JoinBits(x: nat, y: nat, z: nat)
    requires x < 256 && y < 256 && z < 256
    ensures (x % 4 * 16 + y / 16) / 16 == x % 4 && (x % 4 * 16 + y / 16) % 16 == y / 16
    ensures (y % 16 * 4 + z / 64) / 4 == y % 16 && (y % 16 * 4 + z / 64) % 4 == z / 64
    ensures (y % 16 * 4) / 4 == y % 16 && x / 4 * 4 + x % 4 == x
  {}

  /** Four letters ahead of the rest read as three bytes ahead of what the rest reads as. */
  lemma DecodeQuad(a: nat, b: nat, c: nat, d: nat, rest: string)
    requires a < 64 && b < 64 && c < 64 && d < 64
    ensures Decode64([Letter(a), Letter(b), Letter(c), Letter(d)] + rest)
            == match Decode64(rest)
               case None => None
               case Some(r) =>
                 Some([(a * 4 + b / 16) as char, (b % 16 * 16 + c / 4) as char, (c % 4 * 64 + d) as char] + r)
  {
    hide Letter, Index;
    var s := [Letter(a), Letter(b), Letter(c), Letter(d)] + rest;
    assert s[4..] == rest;
  }

  lemma DecodeEnd(a: nat, b: nat, c: nat)
    requires a < 64 && b < 64 && c < 64
    ensures Decode64([Letter(a), Letter(b)]) == Some([(a * 4 + b / 16) as char])
    ensures Decode64([Letter(a), Letter(b), Letter(c)])
            == Some([(a * 4 + b / 16) as char, (b % 16 * 16 + c / 4) as char])
  {
    hide Letter, Index;
  }

  lemma OneByte(x: nat)
    requires x < 256
    ensures Decode64([Letter(x / 4), Letter(x % 4 * 16)]) == Some([x as char])
  {
    hide Decode64, Letter;
    SplitByte(x);
    DecodeEnd(x / 4, x % 4 * 16, 0);
  }

  lemma TwoBytes(x: nat, y: nat)
    requires x < 256 && y < 256
    ensures x % 4 * 16 + y / 16 < 64 && y % 16 * 4 < 64
    ensures Decode64([Letter(x / 4), Letter(x % 4 * 16 + y / 16), Letter(y % 16 * 4)]) == Some([x as char, y as char])
  {
    hide Decode64, Letter;
    SplitByte(x);
    SplitByte(y);
    JoinBits(x, y, 0);
    DecodeEnd(x / 4, x % 4 * 16 + y / 16, y % 16 * 4);
  }

  lemma ThreeBytes(x: nat, y: nat, z: nat, rest: string, tail: string)
    requires x < 256 && y < 256 && z < 256 && Decode64(rest) == Some(tail)
    ensures x % 4 * 16 + y / 16 < 64 && y % 16 * 4 + z / 64 < 64
    ensures Decode64([Letter(x / 4), Letter(x % 4 * 16 + y / 16), Letter(y % 16 * 4 + z / 64), Letter(z % 64)] + rest)
            == Some([x as char, y as char, z as char] + tail)
  {
    hide Decode64, Letter;
    SplitByte(x);
    SplitByte(y);
    SplitByte(z);
    JoinBits(x, y, z);
    DecodeQuad(x / 4, x % 4 * 16 + y / 16, y % 16 * 4 + z / 64, z % 64, rest);
  }

  lemma {:induction false} Base64RoundTrip(b: string)
    requires Bytes(b)
    ensures Decode64(Encode64(b)) == Some(b)
  {
    hide Decode64, Letter;
    if b == "" {
      DecodeNothing();
    } else if |b| == 1 {
      OneByte(b[0] as int);
      assert [(b[0] as int) as char] == b;
    } else if |b| == 2 {
      TwoBytes(b[0] as int, b[1] as int);
      assert [(b[0] as int) as char, (b[1] as int) as char] == b;
    } else {
      Base64RoundTrip(b[3..]);
      ThreeBytes(b[0] as int, b[1] as int, b[2] as int, Encode64(b[3..]), b[3..]);
      assert b == [b[0], b[1], b[2]] + b[3..];
    }
  }

  lemma DecodeNothing()
    ensures Decode64("") == Some("")
  {}

  // ----- timestamps --------------------------------------------------------------------------------------

  /** An instant in UTC, as its calendar fields. */
  datatype Instant = Instant(year: nat, month: nat, day: nat, hour: nat, minute: nat, second: nat, nanos: nat)

  function DaysIn(year: nat, month: nat): nat {
    if month == 2 then if year % 4 == 0 && (year % 100 != 0 || year % 400 == 0) then 29 else 28
    else if month == 4 || month == 6 || month == 9 || month == 11 then 30
    else 31
  }

  predicate Real(t: Instant) {
    && t.year < 10000 && 1 <= t.month <= 12 && 1 <= t.day <= DaysIn(t.year, t.month)
    && t.hour < 24 && t.minute < 60 && t.second < 60 && t.nanos < NANOS_PER_SECOND
  }

  /** n in exactly w digits. */
  function Padded(n: nat, w: nat): (s: string)
    ensures |s| == w && forall i :: 0 <= i < w ==> IsDigit(s[i])
  {
    if w == 0 then "" else Padded(n / 10, w - 1) + [FetchKeys.HexDigit(n % 10)]
  }

  function DigitValue(c: char): nat
    requires IsDigit(c)
  {
    c as int - '0' as int
  }

  predicate Digits(s: string) { forall i :: 0 <= i < |s| ==> IsDigit(s[i]) }

  function Number(s: string): nat
    requires Digits(s)
  {
    if s == "" then 0 else Number(s[..|s| - 1]) * 10 + DigitValue(s[|s| - 1])
  }

  lemma {:induction false} PaddedReads(n: nat, w: nat)
    requires n < FetchKeys.Pow(10, w)
    ensures Number(Padded(n, w)) == n
  {
    if w > 0 {
      var s := Padded(n, w);
      assert s[..w - 1] == Padded(n / 10, w - 1);
      PaddedReads(n / 10, w - 1);
    }
  }

  /** The value of a fraction's digits from the place p down; digits past nanoseconds are dropped. */
  function Fraction(s: string, p: nat): nat
    requires Digits(s)
  {
    if s == "" then 0 else DigitValue(s[0]) * p + Fraction(s[1..], p / 10)
  }

  lemma {:induction false} FractionReads(f: nat, p: nat)
    requires Place(p) && (f == 0 || f < 10 * p)
    ensures Digits(FracDigits(f, p)) && Fraction(FracDigits(f, p), p) == f
    decreases p
  {
    if f != 0 {
      var a, rest := FracDigitsUnfold(f, p);
      var tail := FracDigits(rest, p / 10);
      if p >= 10 { FractionReads(rest, p / 10); }
      assert ([FetchKeys.HexDigit(a)] + tail)[1..] == tail;
      assert DigitValue(FetchKeys.HexDigit(a)) == a;
      assert a * p == p * a;
    }
  }

  function Date(t: Instant): string {
    Padded(t.year, 4) + ("-" + (Padded(t.month, 2) + ("-" + Padded(t.day, 2))))
  }

  function Clock(t: Instant): string {
    Padded(t.hour, 2) + (":" + (Padded(t.minute, 2) + (":" + Padded(t.second, 2))))
  }

  /** RFC 3339 with as many fraction digits as it takes, in UTC. */
  function Timestamp(t: Instant): string
    requires t.nanos < NANOS_PER_SECOND
  {
    Date(t) + ("T" + (Clock(t) + (FracText(t.nanos) + "Z")))
  }

  /** The date and the time of day, at their fixed places. */
  predicate Shaped(s: string) {
    && |s| >= 20
    && Digits(s[0..4]) && s[4] == '-' && Digits(s[5..7]) && s[7] == '-' && Digits(s[8..10]) && s[10] == 'T'
    && Digits(s[11..13]) && s[13] == ':' && Digits(s[14..16]) && s[16] == ':' && Digits(s[17..19])
  }

  /** The fraction and the zone that end it. */
  function ReadEnd(s: string): Option<nat> {
    if s == "Z" then Some(0)
    else if |s| >= 3 && s[0] == '.' && s[|s| - 1] == 'Z' && Digits(s[1..|s| - 1]) then
      Some(Fraction(s[1..|s| - 1], TENTHS))
    else None
  }

  function ReadTimestamp(s: string): Option<Instant> {
    if !Shaped(s) then None
    else match ReadEnd(s[19..])
      case None => None
      case Some(nanos) =>
        var t := Instant(Number(s[0..4]), Number(s[5..7]), Number(s[8..10]),
                         Number(s[11..13]), Number(s[14..16]), Number(s[17..19]), nanos);
        if Real(t) then Some(t) else None
  }

  lemma EndReads(nanos: nat)
    requires nanos < NANOS_PER_SECOND
    ensures ReadEnd(FracText(nanos) + "Z") == Some(nanos)
  {
    TenthsIsAPlace();
    var s := FracText(nanos) + "Z";
    if nanos != 0 {
      FractionReads(nanos, TENTHS);
      assert s[1..|s| - 1] == FracDigits(nanos, TENTHS);
    } else {
      assert s == "Z";
    }
  }

  /** The fixed places of a timestamp hold its fields. */
  lemma FieldsShow(t: Instant)
    requires t.nanos < NANOS_PER_SECOND
    ensures var s := Timestamp(t);
            && |s| >= 20 && s[19..] == FracText(t.nanos) + "Z"
            && s[0..4] == Padded(t.year, 4) && s[5..7] == Padded(t.month, 2) && s[8..10] == Padded(t.day, 2)
            && s[11..13] == Padded(t.hour, 2) && s[14..16] == Padded(t.minute, 2) && s[17..19] == Padded(t.second, 2)
            && s[4] == '-' && s[7] == '-' && s[10] == 'T' && s[13] == ':' && s[16] == ':'
  {
    hide Padded, FracText;
    var s, d, c := Timestamp(t), Date(t), Clock(t);
    assert |d| == 10 && |c| == 8;
    assert s[0..10] == d && s[11..19] == c;
    assert d[0..4] == Padded(t.year, 4) && d[5..7] == Padded(t.month, 2) && d[8..10] == Padded(t.day, 2);
    assert c[0..2] == Padded(t.hour, 2) && c[3..5] == Padded(t.minute, 2) && c[6..8] == Padded(t.second, 2);
    assert s[0..10][0..4] == s[0..4] && s[0..10][5..7] == s[5..7] && s[0..10][8..10] == s[8..10];
    assert s[11..19][0..2] == s[11..13] && s[11..19][3..5] == s[14..16] && s[11..19][6..8] == s[17..19];
  }

  lemma TimestampRoundTrip(t: Instant)
    requires Real(t)
    ensures ReadTimestamp(Timestamp(t)) == Some(t)
  {
    hide Padded, Timestamp, FracText, Number, ReadEnd;
    FieldsShow(t);
    EndReads(t.nanos);
    assert FetchKeys.Pow(10, 2) == 100 && FetchKeys.Pow(10, 4) == 10000;
    PaddedReads(t.year, 4);
    PaddedReads(t.month, 2);
    PaddedReads(t.day, 2);
    PaddedReads(t.hour, 2);
    PaddedReads(t.minute, 2);
    PaddedReads(t.second, 2);
  }

  // ----- cursors -----------------------------------------------------------------------------------------

  predicate HexLetter(c: char) { IsDigit(c) || 'a' <= c <= 'f' || 'A' <= c <= 'F' }

  /** A UUID in its canonical text form (section 4 of RFC 9562). */
  predicate CanonicalUUID(id: string) {
    && |id| == 36
    && forall i :: 0 <= i < 36 ==> if i == 8 || i == 13 || i == 18 || i == 23 then id[i] == '-' else HexLetter(id[i])
  }

  datatype Spot = Start | Row(createdAt: Instant, id: string)

  datatype Unreadable = Unreadable

  function EncodeCursor(createdAt: Instant, id: string): string
    requires Real(createdAt) && CanonicalUUID(id)
  {
    CursorBytes(createdAt, id);
    Encode64(Timestamp(createdAt) + ("|" + id))
  }

  /** The text cut at its first bar, if it has one. */
  function Cut(s: string): Option<(string, string)> {
    if s == "" then None
    else if s[0] == '|' then Some(("", s[1..]))
    else match Cut(s[1..])
      case None => None
      case Some((before, after)) => Some(([s[0]] + before, after))
  }

  function DecodeCursor(cursor: string): Result<Spot, Unreadable> {
    if cursor == "" then Success(Start)
    else match Decode64(cursor)
      case None => Failure(Unreadable)
      case Some(raw) =>
        match Cut(raw)
        case None => Failure(Unreadable)
        case Some((at, id)) =>
          if id == "" then Failure(Unreadable)
          else match ReadTimestamp(at)
            case None => Failure(Unreadable)
            case Some(t) => if CanonicalUUID(id) then Success(Row(t, id)) else Failure(Unreadable)
  }

  predicate Plain(s: string) { forall i :: 0 <= i < |s| ==> s[i] as int < 128 && s[i] != '|' }

  lemma {:induction false} FractionIsPlain(f: nat, p: nat)
    requires Place(p) && (f == 0 || f < 10 * p)
    ensures Plain(FracDigits(f, p))
    decreases p
  {
    FractionReads(f, p);
  }

  lemma TimestampIsPlain(t: Instant)
    requires t.nanos < NANOS_PER_SECOND
    ensures Plain(Timestamp(t))
  {
    hide Padded;
    TenthsIsAPlace();
    FractionIsPlain(t.nanos, TENTHS);
    assert Plain(FracText(t.nanos) + "Z");
    assert Plain(Date(t)) && Plain(Clock(t));
  }

  lemma CursorBytes(createdAt: Instant, id: string)
    requires Real(createdAt) && CanonicalUUID(id)
    ensures Bytes(Timestamp(createdAt) + ("|" + id))
  {
    hide Timestamp;
    TimestampIsPlain(createdAt);
  }

  lemma {:induction false} CutsAtBar(a: string, b: string)
    requires Plain(a)
    ensures Cut(a + ("|" + b)) == Some((a, b))
  {
    if a == "" {
      assert a + ("|" + b) == "|" + b && ("|" + b)[1..] == b;
    } else {
      assert (a + ("|" + b))[1..] == a[1..] + ("|" + b);
      CutsAtBar(a[1..], b);
      assert [a[0]] + a[1..] == a;
    }
  }

  /** A cursor says again exactly where the page it came from ended. */
  lemma CursorRoundTrip(createdAt: Instant, id: string)
    requires Real(createdAt) && CanonicalUUID(id)
    ensures DecodeCursor(EncodeCursor(createdAt, id)) == Success(Row(createdAt, id))
  {
    hide Timestamp, Encode64, Decode64, Cut, ReadTimestamp;
    var raw := Timestamp(createdAt) + ("|" + id);
    CursorBytes(createdAt, id);
    Base64RoundTrip(raw);
    NotNothing(raw);
    TimestampIsPlain(createdAt);
    CutsAtBar(Timestamp(createdAt), id);
    TimestampRoundTrip(createdAt);
  }

  lemma NotNothing(b: string)
    requires Bytes(b) && b != ""
    ensures Encode64(b) != ""
  {}
}
