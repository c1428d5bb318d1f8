/** Percent-encoding (section 2.1 of RFC 3986) over octets. */
module Percent {
  type Octet = x: int | 0 <= x < 256
  type Octets = seq<Octet>

  const PERCENT: Octet := 37
  const SLASH: Octet := 47

  function Ascii(text: string): Octets
    requires forall i :: 0 <= i < |text| ==> text[i] < 128 as char
  {
    seq(|text|, i requires 0 <= i < |text| => text[i] as int)
  }

  predicate IsAlphanumeric(o: Octet) {
    'A' <= o as char <= 'Z' || 'a' <= o as char <= 'z' || '0' <= o as char <= '9'
  }

  function HexDigit(n: int): Octet
    requires 0 <= n < 16
  {
    if n < 10 then 48 + n else 55 + n
  }

  /** 16 for anything but a hexadecimal digit. */
  function HexValue(o: Octet): (n: int)
    ensures 0 <= n <= 16
  {
    if 48 <= o < 58 then o - 48 else if 65 <= o < 71 then o - 55 else if 97 <= o < 103 then o - 87 else 16
  }

  /** `quote`: octets that are not safe become upper-case triplets. */
  function Quote(o: Octets, safe: Octet -> bool): Octets {
    if o == [] then [] else
    (if safe(o[0]) then [o[0]] else [PERCENT, HexDigit(o[0] / 16), HexDigit(o[0] % 16)]) + Quote(o[1..], safe)
  }

  predicate StartsWithTriplet(o: Octets) {
    |o| >= 3 && o[0] == PERCENT && HexValue(o[1]) < 16 && HexValue(o[2]) < 16
  }

  /** `unquote`: a percent sign without two hexadecimal digits stays as it is. */
  function Unquote(o: Octets): Octets {
    if o == [] then []
    else if StartsWithTriplet(o) then [HexValue(o[1]) * 16 + HexValue(o[2])] + Unquote(o[3..])
    else [o[0]] + Unquote(o[1..])
  }

  lemma DigitsRoundTrip(o: Octet)
    ensures HexValue(HexDigit(o / 16)) == o / 16 && HexValue(HexDigit(o % 16)) == o % 16
  {
  }

  lemma {:induction false} UnquoteQuote(o: Octets, safe: Octet -> bool)
    requires !safe(PERCENT)
    ensures Unquote(Quote(o, safe)) == o
  {
    if o != [] {
      UnquoteQuote(o[1..], safe);
      DigitsRoundTrip(o[0]);
      var q := Quote(o, safe);
      if safe(o[0]) {
        assert q[1..] == Quote(o[1..], safe);
      } else {
        assert q[3..] == Quote(o[1..], safe);
      }
    }
  }

  /** What quoted text can consist of. */
  predicate Plain(o: Octets, safe: Octet -> bool) {
    forall i :: 0 <= i < |o| ==> safe(o[i]) || o[i] == PERCENT || IsAlphanumeric(o[i])
  }

  lemma {:induction false} QuoteIsPlain(o: Octets, safe: Octet -> bool)
    ensures Plain(Quote(o, safe), safe) && (Quote(o, safe) == [] <==> o == [])
  {
    if o != [] {
      QuoteIsPlain(o[1..], safe);
    }
  }

  // ----- Separators -----

  function Split(o: Octets, separator: Octet): (parts: seq<Octets>)
    ensures |parts| >= 1
  {
    if o == [] then [[]] else
    var rest := Split(o[1..], separator);
    if o[0] == separator then [[]] + rest else [[o[0]] + rest[0]] + rest[1..]
  }

  function Join(parts: seq<Octets>, separator: Octet): Octets {
    if parts == [] then [] else if |parts| == 1 then parts[0] else parts[0] + [separator] + Join(parts[1..], separator)
  }

  predicate Free(parts: seq<Octets>, separator: Octet) {
    forall i :: 0 <= i < |parts| ==> separator !in parts[i]
  }

  lemma {:induction false} JoinSplit(o: Octets, separator: Octet)
    ensures Join(Split(o, separator), separator) == o && Free(Split(o, separator), separator)
  {
    if o != [] {
      var rest := Split(o[1..], separator);
      JoinSplit(o[1..], separator);
      assert o == [o[0]] + o[1..];
      if o[0] == separator {
        assert Split(o, separator)[1..] == rest;
      } else {
        assert Split(o, separator)[1..] == rest[1..];
        assert |rest| > 1 ==> Join(rest, separator) == rest[0] + [separator] + Join(rest[1..], separator);
      }
    }
  }

  lemma {:induction false} SplitPart(part: Octets, tail: Octets, separator: Octet)
    requires separator !in part
    ensures Split(part, separator) == [part]
    ensures Split(part + [separator] + tail, separator) == [part] + Split(tail, separator)
  {
    if part == [] {
      assert ([separator] + tail)[1..] == tail && part + [separator] + tail == [separator] + tail;
    } else {
      SplitPart(part[1..], tail, separator);
      assert part == [part[0]] + part[1..];
      assert (part + [separator] + tail)[1..] == part[1..] + [separator] + tail;
    }
  }

  lemma {:induction false} SplitJoin(parts: seq<Octets>, separator: Octet)
    requires parts != [] && Free(parts, separator)
    ensures Split(Join(parts, separator), separator) == parts
  {
    SplitPart(parts[0], if |parts| > 1 then Join(parts[1..], separator) else [], separator);
    if |parts| > 1 {
      SplitJoin(parts[1..], separator);
    }
  }
}

/** The canonical form of a URL path (sections 3.3 and 6.2.2 of RFC 3986). */
module UriPath {
  import opened Percent

  /** Everything a path segment may hold unencoded. */
  predicate Safe(o: Octet) {
    IsAlphanumeric(o) || o as char in "-._~:@!$&'()*+,;="
  }

  function NormalizeSegment(segment: Octets): Octets {
    Quote(Unquote(segment), Safe)
  }

  function Strip(path: Octets): Octets {
    if path != [] && path[|path| - 1] == SLASH then Strip(path[..|path| - 1]) else path
  }

  function NormalizeAll(segments: seq<Octets>): (r: seq<Octets>)
    ensures |r| == |segments| && forall i :: 0 <= i < |r| ==> r[i] == NormalizeSegment(segments[i])
  {
    if segments == [] then [] else [NormalizeSegment(segments[0])] + NormalizeAll(segments[1..])
  }

  function NormalPath(path: Octets): Octets {
    Join(NormalizeAll(Split(Strip(path), SLASH)), SLASH)
  }

  method NormalizePath(uriPath: Octets) returns (path: Octets)
    ensures path == NormalPath(uriPath)
  {
    path := uriPath;
    while path != [] && path[|path| - 1] == SLASH
      invariant Strip(path) == Strip(uriPath)
      decreases |path|
    {
      path := path[..|path| - 1];
    }
    var segments := Split(path, SLASH);
    var normalized := [];
    for i := 0 to |segments|
      invariant |normalized| == i && forall k :: 0 <= k < i ==> normalized[k] == NormalizeSegment(segments[k])
    {
      normalized := normalized + [NormalizeSegment(segments[i])];
    }
    assert normalized == NormalizeAll(segments);
    path := Join(normalized, SLASH);
  }

  /** The segments of a path as data: trailing slashes dropped, percent-encoding undone. */
  function DecodedSegments(path: Octets): (r: seq<Octets>) {
    DecodeAll(Split(Strip(path), SLASH))
  }

  function DecodeAll(segments: seq<Octets>): (r: seq<Octets>)
    ensures |r| == |segments| && forall i :: 0 <= i < |r| ==> r[i] == Unquote(segments[i])
  {
    if segments == [] then [] else [Unquote(segments[0])] + DecodeAll(segments[1..])
  }

  lemma DelimitersAreNotSafe()
    ensures !Safe(SLASH) && !Safe(PERCENT) && !IsAlphanumeric(SLASH)
  {
    assert SLASH as char == '/' && PERCENT as char == '%';
  }

  /** No segment gains a slash: an encoded slash stays encoded. */
  lemma SegmentIsNormal(segment: Octets)
    ensures SLASH !in NormalizeSegment(segment)
    ensures Unquote(NormalizeSegment(segment)) == Unquote(segment)
    ensures NormalizeSegment(NormalizeSegment(segment)) == NormalizeSegment(segment)
    ensures NormalizeSegment(segment) == [] <==> segment == []
  {
    DelimitersAreNotSafe();
    hide Safe, IsAlphanumeric, StartsWithTriplet;
    UnquoteQuote(Unquote(segment), Safe);
    QuoteIsPlain(Unquote(segment), Safe);
  }

  lemma {:induction false} StripEnds(path: Octets)
    ensures var r := Strip(path); r <= path && (r == [] || r[|r| - 1] != SLASH)
  {
    if path != [] && path[|path| - 1] == SLASH {
      StripEnds(path[..|path| - 1]);
    }
  }

  lemma {:induction false} LastPart(o: Octets)
    ensures var parts := Split(o, SLASH);
            parts[|parts| - 1] == [] <==> o == [] || o[|o| - 1] == SLASH
  {
    if o != [] {
      LastPart(o[1..]);
      assert |o| > 1 ==> o[1..][|o[1..]| - 1] == o[|o| - 1];
    }
  }

  /** Normalising keeps the segment boundaries, and leaves no trailing slash. */
  lemma NormalPathShape(path: Octets)
    ensures var n := NormalPath(path);
            && Split(n, SLASH) == NormalizeAll(Split(Strip(path), SLASH))
            && (n == [] || n[|n| - 1] != SLASH)
            && Strip(n) == n
  {
    var segments := Split(Strip(path), SLASH);
    var normal := NormalizeAll(segments);
    forall i | 0 <= i < |normal|
      ensures SLASH !in normal[i]
    {
      SegmentIsNormal(segments[i]);
    }
    SplitJoin(normal, SLASH);
    StripEnds(path);
    LastPart(Strip(path));
    LastPart(NormalPath(path));
    SegmentIsNormal(segments[|segments| - 1]);
    if Strip(path) == [] {
      assert segments == [[]] && normal == [[]];
    }
  }

  lemma NormalPathIsIdempotent(path: Octets)
    ensures NormalPath(NormalPath(path)) == NormalPath(path)
  {
    NormalPathShape(path);
    var segments := Split(Strip(path), SLASH);
    var normal := NormalizeAll(segments);
    forall i | 0 <= i < |normal|
      ensures NormalizeAll(normal)[i] == normal[i]
    {
      SegmentIsNormal(segments[i]);
    }
    assert NormalizeAll(normal) == normal;
  }

  lemma NormalPathKeepsTheData(path: Octets)
    ensures DecodedSegments(NormalPath(path)) == DecodedSegments(path)
  {
    NormalPathShape(path);
    var segments := Split(Strip(path), SLASH);
    forall i | 0 <= i < |segments|
      ensures DecodeAll(NormalizeAll(segments))[i] == DecodeAll(segments)[i]
    {
      SegmentIsNormal(segments[i]);
    }
    assert DecodeAll(NormalizeAll(segments)) == DecodeAll(segments);
  }

  /** Two paths share their canonical form exactly when their segments hold the same data. */
  lemma NormalPathsAgree(a: Octets, b: Octets)
    ensures NormalPath(a) == NormalPath(b) <==> DecodedSegments(a) == DecodedSegments(b)
  {
    NormalPathKeepsTheData(a);
    NormalPathKeepsTheData(b);
    if DecodedSegments(a) == DecodedSegments(b) {
      var s, t := Split(Strip(a), SLASH), Split(Strip(b), SLASH);
      assert |s| == |t|;
      forall i | 0 <= i < |s|
        ensures NormalizeAll(s)[i] == NormalizeAll(t)[i]
      {
        assert DecodedSegments(a)[i] == DecodedSegments(b)[i];
      }
      assert NormalizeAll(s) == NormalizeAll(t);
    }
  }
}
