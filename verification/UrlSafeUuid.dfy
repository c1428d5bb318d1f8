/** base64url (section 5 of RFC 4648) as the ids of annotations use it. */
module Base64Url {
  import opened Options

  type Byte = x: int | 0 <= x < 256
  type Sextet = x: int | 0 <= x < 64

  function ToChar(v: Sextet): char {
    if v < 26 then 'A' + v as char
    else if v < 52 then 'a' + (v - 26) as char
    else if v < 62 then '0' + (v - 52) as char
    else if v == 62 then '-' else '_'
  }

  /** The decoder takes the characters of plain base64 as well. */
  function FromChar(c: char): Option<Sextet> {
    if 'A' <= c <= 'Z' then Some((c - 'A') as int)
    else if 'a' <= c <= 'z' then Some((c - 'a') as int + 26)
    else if '0' <= c <= '9' then Some((c - '0') as int + 52)
    else if c == '-' || c == '+' then Some(62)
    else if c == '_' || c == '/' then Some(63)
    else None
  }

  function ToText(sextets: seq<Sextet>): (text: string)
    ensures |text| == |sextets|
  {
    if sextets == [] then "" else [ToChar(sextets[0])] + ToText(sextets[1..])
  }

  /** Every character stands for a sextet. */
  predicate IsData(text: string) {
    forall i :: 0 <= i < |text| ==> FromChar(text[i]).Some?
  }

  predicate IsUrlSafe(text: string) {
    IsData(text) && '+' !in text && '/' !in text
  }

  function Values(text: string): (sextets: seq<Sextet>)
    requires IsData(text)
    ensures |sextets| == |text|
  {
    if text == "" then [] else [FromChar(text[0]).value] + Values(text[1..])
  }

  lemma {:induction false} ValuesOfText(sextets: seq<Sextet>)
    ensures IsUrlSafe(ToText(sextets)) && Values(ToText(sextets)) == sextets
  {
    if sextets != [] {
      ValuesOfText(sextets[1..]);
      assert FromChar(ToChar(sextets[0])) == Some(sextets[0]);
      assert ToText(sextets)[1..] == ToText(sextets[1..]);
    }
  }

  lemma {:induction false} TextOfValues(text: string)
    requires IsData(text)
    ensures ToText(Values(text)) == text <==> IsUrlSafe(text)
  {
    if text != "" {
      TextOfValues(text[1..]);
      assert text == [text[0]] + text[1..];
      assert ToChar(FromChar(text[0]).value) == text[0] <==> text[0] != '+' && text[0] != '/';
    }
  }

  // ----- Regrouping bits -----

  function Sextet0(x: Byte): Sextet { x / 4 }
  function Sextet1(x: Byte, y: Byte): Sextet { x % 4 * 16 + y / 16 }
  function Sextet2(y: Byte, z: Byte): Sextet { y % 16 * 4 + z / 64 }
  function Sextet3(z: Byte): Sextet { z % 64 }

  function Byte0(a: Sextet, b: Sextet): Byte { a * 4 + b / 16 }
  function Byte1(b: Sextet, c: Sextet): Byte { b % 16 * 16 + c / 4 }
  function Byte2(c: Sextet, d: Sextet): Byte { c % 4 * 64 + d }

  lemma ThreeBytes(x: Byte, y: Byte, z: Byte)
    ensures Byte0(Sextet0(x), Sextet1(x, y)) == x && Byte1(Sextet1(x, y), Sextet2(y, z)) == y
        && Byte2(Sextet2(y, z), Sextet3(z)) == z
  {
  }

  lemma FourSextets(a: Sextet, b: Sextet, c: Sextet, d: Sextet)
    ensures Sextet0(Byte0(a, b)) == a && Sextet1(Byte0(a, b), Byte1(b, c)) == b
    ensures Sextet2(Byte1(b, c), Byte2(c, d)) == c && Sextet3(Byte2(c, d)) == d
    ensures Sextet1(Byte0(a, b), 0) == b <==> b % 16 == 0
    ensures Sextet2(Byte1(b, c), 0) == c <==> c % 4 == 0
  {
  }

  /** Eight bits to six, the last sextet filled up with zeros; padding is stripped. */
  function Encode(bytes: seq<Byte>): seq<Sextet> {
    if |bytes| >= 3 then
      [Sextet0(bytes[0]), Sextet1(bytes[0], bytes[1]), Sextet2(bytes[1], bytes[2]), Sextet3(bytes[2])] + Encode(bytes[3..])
    else if |bytes| == 2 then
      [Sextet0(bytes[0]), Sextet1(bytes[0], bytes[1]), Sextet2(bytes[1], 0)]
    else if |bytes| == 1 then
      [Sextet0(bytes[0]), Sextet1(bytes[0], 0)]
    else
      []
  }

  /** Six bits to eight; bits that do not fill a byte are dropped. */
  function Decode(s: seq<Sextet>): seq<Byte> {
    if |s| >= 4 then
      [Byte0(s[0], s[1]), Byte1(s[1], s[2]), Byte2(s[2], s[3])] + Decode(s[4..])
    else if |s| == 3 then
      [Byte0(s[0], s[1]), Byte1(s[1], s[2])]
    else if |s| == 2 then
      [Byte0(s[0], s[1])]
    else
      []
  }

  /** No bits would be dropped. */
  predicate IsCanonical(s: seq<Sextet>) {
    match |s| % 4
    case 0 => true
    case 1 => false
    case 2 => s[|s| - 1] % 16 == 0
    case _ => s[|s| - 1] % 4 == 0
  }

  lemma {:induction false} DecodeEncode(bytes: seq<Byte>)
    ensures Decode(Encode(bytes)) == bytes
    ensures |Encode(bytes)| == (4 * |bytes| + 2) / 3
  {
    hide Sextet0, Sextet1, Sextet2, Sextet3, Byte0, Byte1, Byte2;
    if |bytes| >= 3 {
      DecodeEncode(bytes[3..]);
      ThreeBytes(bytes[0], bytes[1], bytes[2]);
      assert Encode(bytes)[4..] == Encode(bytes[3..]);
      assert bytes == bytes[..3] + bytes[3..];
    } else if |bytes| >= 1 {
      ThreeBytes(bytes[0], if |bytes| == 2 then bytes[1] else 0, 0);
    }
  }

  lemma EncodeDecodeGroup(s: seq<Sextet>)
    requires |s| >= 4
    ensures |Decode(s)| == 3 + |Decode(s[4..])|
    ensures Encode(Decode(s)) == s[..4] + Encode(Decode(s[4..]))
  {
    FourSextets(s[0], s[1], s[2], s[3]);
    EncodeThree(Byte0(s[0], s[1]), Byte1(s[1], s[2]), Byte2(s[2], s[3]), Decode(s[4..]));
    hide Sextet0, Sextet1, Sextet2, Sextet3, Byte0, Byte1, Byte2, Encode;
    assert s[..4] == [s[0], s[1], s[2], s[3]];
  }

  lemma EncodeThree(x: Byte, y: Byte, z: Byte, rest: seq<Byte>)
    ensures Encode([x, y, z] + rest) == [Sextet0(x), Sextet1(x, y), Sextet2(y, z), Sextet3(z)] + Encode(rest)
  {
    hide Sextet0, Sextet1, Sextet2, Sextet3;
    assert ([x, y, z] + rest)[3..] == rest;
  }

  lemma EncodeDecodeEnd(s: seq<Sextet>)
    requires |s| < 4
    ensures |Decode(s)| == 3 * |s| / 4
    ensures Encode(Decode(s)) == s <==> IsCanonical(s)
  {
    hide Sextet0, Sextet1, Sextet2, Sextet3, Byte0, Byte1, Byte2;
    var e := Encode(Decode(s));
    if |s| == 3 {
      FourSextets(s[0], s[1], s[2], 0);
      assert |e| == 3 && e[0] == s[0] && e[1] == s[1] && (e[2] == s[2] <==> s[2] % 4 == 0);
    } else if |s| == 2 {
      FourSextets(s[0], s[1], 0, 0);
      assert |e| == 2 && e[0] == s[0] && (e[1] == s[1] <==> s[1] % 16 == 0);
    }
  }

  lemma {:induction false} EncodeDecode(s: seq<Sextet>)
    ensures |Decode(s)| == 3 * |s| / 4
    ensures Encode(Decode(s)) == s <==> IsCanonical(s)
  {
    hide Encode, Decode, IsCanonical;
    if |s| >= 4 {
      var rest := s[4..];
      EncodeDecode(rest);
      EncodeDecodeGroup(s);
      CanonicalTail(s);
      assert s == s[..4] + rest;
      Cancel(s[..4], Encode(Decode(rest)), rest);
    } else {
      EncodeDecodeEnd(s);
    }
  }

  lemma CanonicalTail(s: seq<Sextet>)
    requires |s| >= 4
    ensures IsCanonical(s) <==> IsCanonical(s[4..])
    ensures 3 * |s| / 4 == 3 + 3 * |s[4..]| / 4
  {
    assert |s| > 4 ==> s[4..][|s| - 5] == s[|s| - 1];
  }

  lemma Cancel(a: seq<Sextet>, b: seq<Sextet>, c: seq<Sextet>)
    ensures a + b == a + c <==> b == c
  {
    if a + b == a + c {
      assert (a + b)[|a|..] == b && (a + c)[|a|..] == c;
    }
  }

  // ----- Scanning text -----

  /** The lenient scan of `binascii.a2b_base64`: other characters are skipped, a sufficiently
      padded group ends the data, and an unfinished group is an error. */
  function Scan(text: string, quad: nat, pads: nat, data: seq<Sextet>): Option<seq<Sextet>> {
    if text == "" then
      if quad == 0 then Some(data) else None
    else if text[0] == '=' then
      if quad >= 2 && quad + pads + 1 >= 4 then Some(data)
      else Scan(text[1..], quad, if quad >= 2 then pads + 1 else pads, data)
    else
      match FromChar(text[0])
      case None => Scan(text[1..], quad, pads, data)
      case Some(v) => Scan(text[1..], (quad + 1) % 4, 0, data + [v])
  }

  function CountData(text: string): nat {
    if text == "" then 0 else (if FromChar(text[0]).Some? then 1 else 0) + CountData(text[1..])
  }

  lemma {:induction false} CountDataShape(text: string, tail: string)
    ensures CountData(text + tail) == CountData(text) + CountData(tail)
    ensures CountData(text) <= |text|
    ensures CountData(text) == |text| <==> IsData(text)
  {
    if text == "" {
      assert text + tail == tail;
    } else {
      assert (text + tail)[1..] == text[1..] + tail;
      CountDataShape(text[1..], tail);
      assert text == [text[0]] + text[1..];
    }
  }

  lemma {:induction false} ScanTakesNoMore(text: string, quad: nat, pads: nat, data: seq<Sextet>)
    ensures var r := Scan(text, quad, pads, data);
            r.Some? ==> |r.value| <= |data| + CountData(text)
  {
    if text != "" {
      var v := FromChar(text[0]);
      if text[0] == '=' {
        ScanTakesNoMore(text[1..], quad, if quad >= 2 then pads + 1 else pads, data);
      } else if v.None? {
        ScanTakesNoMore(text[1..], quad, pads, data);
      } else {
        ScanTakesNoMore(text[1..], (quad + 1) % 4, 0, data + [v.value]);
      }
    }
  }

  lemma ScanOfPadding(quad: nat, data: seq<Sextet>)
    requires quad < 4
    ensures Scan("==", quad, 0, data) == if quad == 1 then None else Some(data)
  {
    assert "=="[1..] == "=" && "="[1..] == "";
    var pads := if quad >= 2 then 1 else 0;
    assert Scan("", quad, pads, data) == if quad == 0 then Some(data) else None;
    assert Scan("=", quad, pads, data) == if quad == 1 then None else Some(data);
  }

  lemma {:induction false} ScanOfData(text: string, quad: nat, data: seq<Sextet>)
    requires IsData(text) && quad < 4
    ensures Scan(text + "==", quad, 0, data) == if (quad + |text|) % 4 == 1 then None else Some(data + Values(text))
  {
    if text == "" {
      assert text + "==" == "==" && data + Values(text) == data;
      ScanOfPadding(quad, data);
    } else {
      assert (text + "==")[1..] == text[1..] + "==" && (text + "==")[0] == text[0];
      var v := FromChar(text[0]).value;
      ScanOfData(text[1..], (quad + 1) % 4, data + [v]);
      assert data + [v] + Values(text[1..]) == data + Values(text);
    }
  }

  /** `urlsafe_b64decode`; `None` stands for `binascii.Error`. */
  function B64Decode(text: string): Option<seq<Byte>> {
    match Scan(text, 0, 0, [])
    case None => None
    case Some(data) => Some(Decode(data))
  }
}

/** `URLSafeUUID`: hex ids of the database, URL-safe ids of the application. */
module UrlSafeUuid {
  import opened Options
  import opened Base64Url

  datatype Result<T> = Ok(value: T) | InvalidUuid

  type Nibble = x: int | 0 <= x < 16

  function HexDigit(n: Nibble): char {
    if n < 10 then '0' + n as char else 'a' + (n - 10) as char
  }

  function HexValue(c: char): Option<Nibble> {
    if '0' <= c <= '9' then Some((c - '0') as int)
    else if 'a' <= c <= 'f' then Some((c - 'a') as int + 10)
    else if 'A' <= c <= 'F' then Some((c - 'A') as int + 10)
    else None
  }

  /** Lower-case hexadecimal. */
  predicate IsHex(h: string) {
    forall i :: 0 <= i < |h| ==> '0' <= h[i] <= '9' || 'a' <= h[i] <= 'f'
  }

  function HexByte(high: char, low: char): Byte
    requires IsHex([high, low])
  {
    assert IsHex([high, low]) ==> HexValue([high, low][0]).Some? && HexValue([high, low][1]).Some?;
    HexValue(high).value * 16 + HexValue(low).value
  }

  lemma DigitReadsBack(n: Nibble)
    ensures IsHex([HexDigit(n)]) && HexValue(HexDigit(n)) == Some(n)
  {
  }

  lemma LowerCaseStays(c: char)
    requires '0' <= c <= '9' || 'a' <= c <= 'f'
    ensures c != '-' && HexValue(c).Some? && HexDigit(HexValue(c).value) == c
  {
  }

  lemma HighAndLow(high: Nibble, low: Nibble)
    ensures (high * 16 + low) / 16 == high && (high * 16 + low) % 16 == low
  {
  }

  lemma HexBytes(x: Byte, high: char, low: char)
    ensures IsHex([HexDigit(x / 16), HexDigit(x % 16)]) && HexByte(HexDigit(x / 16), HexDigit(x % 16)) == x
    ensures IsHex([high, low]) ==>
              HexDigit(HexByte(high, low) / 16) == high && HexDigit(HexByte(high, low) % 16) == low
  {
    DigitReadsBack(x / 16);
    DigitReadsBack(x % 16);
    TwoDigits(HexDigit(x / 16), HexDigit(x % 16));
    TwoDigits(high, low);
    if IsHex([high, low]) {
      LowerCaseStays(high);
      LowerCaseStays(low);
      HighAndLow(HexValue(high).value, HexValue(low).value);
    }
    hide HexDigit, HexValue, IsHex;
  }

  lemma TwoDigits(high: char, low: char)
    ensures IsHex([high, low]) <==> IsHex([high]) && IsHex([low])
    ensures IsHex([high]) <==> '0' <= high <= '9' || 'a' <= high <= 'f'
    ensures IsHex([low]) <==> '0' <= low <= '9' || 'a' <= low <= 'f'
  {
    var two := [high, low];
    assert two[0] == high && two[1] == low && [high][0] == high && [low][0] == low;
  }

  function Hexlify(bytes: seq<Byte>): (h: string)
    ensures |h| == 2 * |bytes| && IsHex(h)
  {
    if bytes == [] then "" else [HexDigit(bytes[0] / 16), HexDigit(bytes[0] % 16)] + Hexlify(bytes[1..])
  }

  function Unhexlify(h: string): (bytes: seq<Byte>)
    requires IsHex(h) && |h| % 2 == 0
    ensures 2 * |bytes| == |h|
  {
    if h == "" then [] else
    assert IsHex([h[0], h[1]]);
    [HexByte(h[0], h[1])] + Unhexlify(h[2..])
  }

  lemma {:induction false} UnhexlifyHexlify(bytes: seq<Byte>)
    ensures Unhexlify(Hexlify(bytes)) == bytes
  {
    if bytes != [] {
      UnhexlifyHexlify(bytes[1..]);
      HexBytes(bytes[0], '0', '0');
      hide HexByte, HexDigit, IsHex;
      assert Hexlify(bytes)[2..] == Hexlify(bytes[1..]);
    }
  }

  lemma {:induction false} HexlifyUnhexlify(h: string)
    requires IsHex(h) && |h| % 2 == 0
    ensures Hexlify(Unhexlify(h)) == h
  {
    if h != "" {
      HexlifyUnhexlify(h[2..]);
      assert IsHex([h[0], h[1]]);
      HexBytes(0, h[0], h[1]);
      hide HexByte, HexDigit;
      assert h == [h[0], h[1]] + h[2..];
      assert Unhexlify(h)[1..] == Unhexlify(h[2..]);
    }
  }

  // ----- The magic nibbles -----

  /** Values that the version and variant fields (section 4.1 of RFC 4122) never hold. */
  predicate HasMagicByte(h: string)
    requires |h| == 32
  {
    h[12] == 'e' && h[16] == '5'
  }

  function AddMagicByte(h: string): string
    requires |h| == 30
  {
    h[..12] + "e" + h[12..15] + "5" + h[15..]
  }

  function RemoveMagicByte(h: string): string
    requires |h| == 32
  {
    h[0..12] + h[13..16] + h[17..32]
  }

  lemma MagicByteRoundTrip(flake: string, h: string)
    requires |flake| == 30 && |h| == 32
    ensures |AddMagicByte(flake)| == 32 && HasMagicByte(AddMagicByte(flake)) && RemoveMagicByte(AddMagicByte(flake)) == flake
    ensures |RemoveMagicByte(h)| == 30 && (AddMagicByte(RemoveMagicByte(h)) == h <==> HasMagicByte(h))
    ensures IsHex(flake) ==> IsHex(AddMagicByte(flake))
    ensures IsHex(h) ==> IsHex(RemoveMagicByte(h))
  {
    AddThenRemove(flake);
    RemoveThenAdd(h);
  }

  lemma AddThenRemove(flake: string)
    requires |flake| == 30
    ensures var full := AddMagicByte(flake);
            |full| == 32 && HasMagicByte(full) && RemoveMagicByte(full) == flake && (IsHex(flake) ==> IsHex(full))
  {
    var full := AddMagicByte(flake);
    assert full[0..12] == flake[..12] && full[13..16] == flake[12..15] && full[17..32] == flake[15..];
    assert flake == flake[..12] + flake[12..15] + flake[15..];
  }

  lemma RemoveThenAdd(h: string)
    requires |h| == 32
    ensures var less := RemoveMagicByte(h);
            |less| == 30 && (AddMagicByte(less) == h <==> HasMagicByte(h)) && (IsHex(h) ==> IsHex(less))
  {
    var less := RemoveMagicByte(h);
    assert less[..12] == h[..12] && less[12..15] == h[13..16] && less[15..] == h[17..];
    assert h == h[..12] + [h[12]] + h[13..16] + [h[16]] + h[17..];
    var again := AddMagicByte(less);
    assert again[12] == 'e' && again[16] == '5';
  }

  // ----- The two conversions -----

  function UrlSafeToHex(value: Option<string>): Result<Option<string>> {
    match value
    case None => Ok(None)
    case Some(text) =>
      match B64Decode(text + "==")
      case None => InvalidUuid
      case Some(bytes) =>
        var h := Hexlify(bytes);
        if (|text|, |h|) == (22, 32) then Ok(Some(h))
        else if (|text|, |h|) == (20, 30) then Ok(Some(AddMagicByte(h)))
        else InvalidUuid
  }

  /** `uuid.UUID(hex=...)` on values made of hexadecimal digits and hyphens: hyphens are dropped
      and letters lowered; 32 digits must remain. */
  function Normalise(value: string): Result<string> {
    match Digits(value)
    case Some(h) => if |h| == 32 then Ok(h) else InvalidUuid
    case None => InvalidUuid
  }

  function Digits(value: string): (r: Option<string>)
    ensures r.Some? ==> IsHex(r.value)
  {
    if value == "" then Some("") else
    match Digits(value[1..])
    case None => None
    case Some(rest) =>
      if value[0] == '-' then Some(rest) else
      match HexValue(value[0])
      case None => None
      case Some(n) => Some([HexDigit(n)] + rest)
  }

  function Shorten(h: string): string
    requires |h| == 32
  {
    if HasMagicByte(h) then RemoveMagicByte(h) else h
  }

  function EncodeHex(h: string): string
    requires IsHex(h) && |h| == 32
  {
    MagicByteRoundTrip(h[2..], h);
    ToText(Encode(Unhexlify(Shorten(h))))
  }

  function HexToUrlSafe(value: Option<string>): Result<Option<string>> {
    match value
    case None => Ok(None)
    case Some(text) =>
      match Normalise(text)
      case InvalidUuid => InvalidUuid
      case Ok(h) => Ok(Some(EncodeHex(h)))
  }

  // ----- Which ids are accepted -----

  /** How many bytes any text can decode to. */
  lemma DecodedLength(text: string)
    ensures B64Decode(text + "==").Some? ==>
              exists n: nat :: n <= |text| && (n == |text| ==> IsData(text)) && |B64Decode(text + "==").value| == 3 * n / 4
  {
    hide Encode, Decode;
    CountDataShape(text, "==");
    assert CountData("==") == 0 by { assert "=="[1..] == "=" && "="[1..] == ""; }
    ScanTakesNoMore(text + "==", 0, 0, []);
    var data := Scan(text + "==", 0, 0, []);
    if data.Some? {
      EncodeDecode(data.value);
      var n: nat := |data.value|;
      assert n <= |text| && (n == |text| ==> IsData(text)) && |B64Decode(text + "==").value| == 3 * n / 4;
    }
  }

  lemma DecodedData(text: string)
    requires IsData(text)
    ensures B64Decode(text + "==") == if |text| % 4 == 1 then None else Some(Decode(Values(text)))
    ensures |Decode(Values(text))| == 3 * |text| / 4
  {
    hide Encode, Decode;
    hide IsCanonical, Values;
    ScanOfData(text, 0, []);
    EncodeDecode(Values(text));
    assert [] + Values(text) == Values(text);
  }

  /** Everything that is not 20 or 22 characters of base64 is refused, although the decoder
      itself skips stray characters. */
  lemma AcceptedIds(text: string)
    ensures UrlSafeToHex(Some(text)).Ok? <==> |text| in {20, 22} && IsData(text)
    ensures UrlSafeToHex(Some(text)).Ok? ==>
              UrlSafeToHex(Some(text)).value.Some? &&
              var h := UrlSafeToHex(Some(text)).value.value;
              && IsHex(h) && |h| == 32 && (|text| == 20 ==> HasMagicByte(h))
              && var decoded := Hexlify(Decode(Values(text)));
              && (|text| == 22 ==> h == decoded)
              && (|text| == 20 ==> |decoded| == 30 && h == AddMagicByte(decoded))
  {
    hide Encode, Decode, B64Decode, HasMagicByte, AddMagicByte;
    if IsData(text) {
      DecodedData(text);
      if |text| == 20 {
        var decoded := Hexlify(Decode(Values(text)));
        MagicByteRoundTrip(decoded, decoded + "00");
      }
    }
    DecodedLength(text);
  }

  // ----- Round trips -----

  lemma {:induction false} DigitsOfHex(h: string)
    requires IsHex(h)
    ensures Digits(h) == Some(h)
  {
    if h != "" {
      DigitsOfHex(h[1..]);
      LowerCaseStays(h[0]);
      hide HexDigit, HexValue;
      assert h == [h[0]] + h[1..];
    }
  }

  /** Ids of 20 characters are flake ids, those of 22 are ordinary UUIDs. */
  lemma EncodedShape(h: string)
    requires IsHex(h) && |h| == 32
    ensures var text := EncodeHex(h);
            && IsUrlSafe(text) && |text| == (if HasMagicByte(h) then 20 else 22)
            && Hexlify(Decode(Values(text))) == Shorten(h)
  {
    MagicByteRoundTrip(h[2..], h);
    var bytes := Unhexlify(Shorten(h));
    DecodeEncode(bytes);
    ValuesOfText(Encode(bytes));
    HexlifyUnhexlify(Shorten(h));
  }

  /** A UUID whose version or variant is one that the standard specifies is never taken for a
      flake id. */
  lemma SpecifiedUuidsAreNotFlakes(h: string, flake: string)
    requires IsHex(h) && |h| == 32 && (h[12] in "12345" || h[16] in "89ab")
    requires |flake| == 30 && IsHex(flake)
    ensures |EncodeHex(h)| == 22
    ensures IsHex(AddMagicByte(flake)) && |AddMagicByte(flake)| == 32 && |EncodeHex(AddMagicByte(flake))| == 20
  {
    MagicByteRoundTrip(flake, h);
    EncodedShape(h);
    EncodedShape(AddMagicByte(flake));
  }

  /** Every hex id, with or without the magic nibbles, survives the way out and back. */
  lemma HexRoundTrip(h: string)
    requires IsHex(h) && |h| == 32
    ensures HexToUrlSafe(Some(h)).Ok? && UrlSafeToHex(HexToUrlSafe(Some(h)).value) == Ok(Some(h))
  {
    hide Encode, Decode, B64Decode, UrlSafeToHex, EncodeHex, Digits, AddMagicByte, RemoveMagicByte;
    DigitsOfHex(h);
    EncodedShape(h);
    AcceptedIds(EncodeHex(h));
    MagicByteRoundTrip(h[2..], h);
  }

  lemma EncodingIsInjective(h: string, k: string)
    requires IsHex(h) && IsHex(k) && |h| == 32 && |k| == 32
    ensures HexToUrlSafe(Some(h)) == HexToUrlSafe(Some(k)) ==> h == k
  {
    hide HexToUrlSafe, UrlSafeToHex;
    HexRoundTrip(h);
    HexRoundTrip(k);
  }

  /** Made of hexadecimal digits, in either case, and hyphens. */
  predicate IsHyphenated(value: string) {
    forall i :: 0 <= i < |value| ==> value[i] == '-' || HexValue(value[i]).Some?
  }

  lemma {:induction false} HyphenatedHasDigits(value: string)
    ensures IsHyphenated(value) <==> Digits(value).Some?
  {
    hide HexValue, HexDigit;
    if value != "" {
      HyphenatedHasDigits(value[1..]);
      assert value == [value[0]] + value[1..];
    }
  }

  /** Hyphens and upper case do not matter: a value made of hexadecimal digits and hyphens is
      accepted exactly when it has 32 digits, and then nothing but the digits counts. */
  lemma SpellingIsIrrelevant(value: string, other: string)
    requires IsHyphenated(value) && IsHyphenated(other)
    ensures Digits(value).Some? && Digits(other).Some?
    ensures HexToUrlSafe(Some(value)).Ok? <==> |Digits(value).value| == 32
    ensures HexToUrlSafe(Some(value)).Ok? ==>
              && UrlSafeToHex(HexToUrlSafe(Some(value)).value) == Ok(Digits(value))
              && (HexToUrlSafe(Some(value)) == HexToUrlSafe(Some(other)) <==> Digits(value) == Digits(other))
  {
    HyphenatedHasDigits(value);
    HyphenatedHasDigits(other);
    if Normalise(other).Ok? {
      DigitsOfHex(Normalise(other).value);
      HexRoundTrip(Normalise(other).value);
    }
    if Normalise(value).Ok? {
      DigitsOfHex(Normalise(value).value);
      HexRoundTrip(Normalise(value).value);
    }
  }

  /** The last of 22 characters carries two bits only. */
  predicate LastIsCanonical(text: string) {
    text != "" && text[|text| - 1] in "AQgw"
  }

  /** Ids that survive the way in and out: all URL-safe ones of 20 characters; of those with
      22, the ones that drop no bits and do not decode to the magic nibbles. */
  lemma TextRoundTrip(text: string)
    requires UrlSafeToHex(Some(text)).Ok?
    ensures var h := UrlSafeToHex(Some(text)).value;
            h.Some? && (HexToUrlSafe(h) == Ok(Some(text)) <==>
              IsUrlSafe(text) && (|text| == 20 || (LastIsCanonical(text) && !HasMagicByte(h.value))))
  {
    hide Encode, Decode, B64Decode, UrlSafeToHex, Digits, AddMagicByte, RemoveMagicByte;
    AcceptedIds(text);
    var h := UrlSafeToHex(Some(text)).value.value;
    var s := Values(text);
    DigitsOfHex(h);
    EncodedShape(h);
    EncodeDecode(s);
    UnhexlifyHexlify(Decode(s));
    TextOfValues(text);
    if |text| == 20 {
      MagicByteRoundTrip(Hexlify(Decode(s)), h);
    } else if !HasMagicByte(h) {
      LastSextet(text);
      ValuesOfText(Encode(Decode(s)));
    }
  }

  lemma LastSextet(text: string)
    requires IsData(text) && |text| == 22
    ensures IsCanonical(Values(text)) <==> LastIsCanonical(text)
  {
    ValueAt(text, 21);
  }

  lemma {:induction false} ValueAt(text: string, i: nat)
    requires IsData(text) && i < |text|
    ensures Values(text)[i] == FromChar(text[i]).value
  {
    if i > 0 {
      ValueAt(text[1..], i - 1);
    }
  }
}
