/** The canonical form of a URL query: parsed, sorted, stripped of tracking parameters. */
module UriQuery {
  import opened Options
  import opened Percent
  import opened Sorting

  const AMPERSAND: Octet := 38
  const PLUS: Octet := 43
  const EQUALS: Octet := 61
  const SPACE: Octet := 32
  const NEWLINE: Octet := 10

  type Item = (Octets, Octets)

  // ----- Parsing -----

  /** `+` is a space, then percent-encoding is undone. */
  function UnquotePlus(o: Octets): Octets {
    Unquote(Spaced(o))
  }

  function Spaced(o: Octets): Octets {
    if o == [] then [] else [if o[0] == PLUS then SPACE else o[0]] + Spaced(o[1..])
  }

  /** One `name=value`; the name ends at the first `=`, and without one parsing fails. */
  function ParseField(field: Octets): Option<Item> {
    var parts := Split(field, EQUALS);
    if |parts| == 1 then None
    else Some((UnquotePlus(parts[0]), UnquotePlus(Join(parts[1..], EQUALS))))
  }

  function ParseFields(fields: seq<Octets>): Option<seq<Item>> {
    if fields == [] then Some([]) else
    match ParseField(fields[0])
    case None => None
    case Some(item) =>
      match ParseFields(fields[1..])
      case None => None
      case Some(rest) => Some([item] + rest)
  }

  /** `parse_qsl` with strict parsing; `None` stands for `ValueError`. */
  function Parse(query: Octets): Option<seq<Item>> {
    ParseFields(Split(query, AMPERSAND))
  }

  // ----- Tracking parameters -----

  /** `$` also matches before a final newline. */
  function WithoutFinalNewline(name: Octets): Octets {
    if name != [] && name[|name| - 1] == NEWLINE then name[..|name| - 1] else name
  }

  function Lower(o: Octets): Octets {
    if o == [] then [] else [if 65 <= o[0] <= 90 then o[0] + 32 else o[0]] + Lower(o[1..])
  }

  predicate IsTracking(name: Octets) {
    var n := WithoutFinalNewline(name);
    || n == Ascii("gclid")
    || n in {Ascii("utm_campaign"), Ascii("utm_content"), Ascii("utm_medium"), Ascii("utm_source"), Ascii("utm_term")}
    || (Ascii("WT.") < n && NEWLINE !in n[3..])
    || Lower(n) == Ascii("x-amz-security-token")
    || n == Ascii("resourcekey")
  }

  predicate IsKept(name: Octets) {
    !IsTracking(name)
  }

  // ----- The canonical form -----

  /** Names are compared by code point, which is the order of their octets. */
  predicate LexLe(a: Octets, b: Octets) {
    a == [] || (b != [] && (a[0] < b[0] || (a[0] == b[0] && LexLe(a[1..], b[1..]))))
  }

  predicate SafeInName(o: Octet) {
    IsAlphanumeric(o) || o as char in "-._~:@!$'()*,"
  }

  predicate SafeInValue(o: Octet) {
    IsAlphanumeric(o) || o as char in "-._~:@!$'()*,="
  }

  function QuotePlus(o: Octets, safe: Octet -> bool): Octets {
    Unspaced(Quote(o, OrSpace(safe)))
  }

  function OrSpace(safe: Octet -> bool): Octet -> bool {
    (o: Octet) => safe(o) || o == SPACE
  }

  function Unspaced(o: Octets): Octets {
    if o == [] then [] else [if o[0] == SPACE then PLUS else o[0]] + Unspaced(o[1..])
  }

  function NormalizeItem(item: Item): Octets {
    QuotePlus(UnquotePlus(item.0), SafeInName) + [EQUALS] + QuotePlus(UnquotePlus(item.1), SafeInValue)
  }

  function NormalizeItems(items: seq<Item>): (r: seq<Octets>)
    ensures |r| == |items| && forall i :: 0 <= i < |r| ==> r[i] == NormalizeItem(items[i])
  {
    if items == [] then [] else [NormalizeItem(items[0])] + NormalizeItems(items[1..])
  }

  /** Sorted by name, without tracking parameters. */
  function CanonicalItems(items: seq<Item>): seq<Item> {
    Keep(Sort(items, LexLe), IsKept)
  }

  function NormalizeQuery(query: Octets): Octets {
    match Parse(query)
    case None => query
    case Some(items) => Join(NormalizeItems(CanonicalItems(items)), AMPERSAND)
  }

  // ----- The order of names -----

  lemma {:induction false} LexTotal(a: Octets, b: Octets)
    ensures LexLe(a, b) || LexLe(b, a)
    ensures LexLe(a, b) && LexLe(b, a) ==> a == b
  {
    if a != [] && b != [] {
      LexTotal(a[1..], b[1..]);
      assert a == [a[0]] + a[1..] && b == [b[0]] + b[1..];
    }
  }

  lemma {:induction false} LexTransitive(a: Octets, b: Octets, c: Octets)
    requires LexLe(a, b) && LexLe(b, c)
    ensures LexLe(a, c)
  {
    if a != [] && a[0] == b[0] == c[0] {
      LexTransitive(a[1..], b[1..], c[1..]);
    }
  }

  lemma NamesAreOrdered()
    ensures TotalOrder(LexLe)
  {
    forall a, b
      ensures (LexLe(a, b) || LexLe(b, a)) && (LexLe(a, b) && LexLe(b, a) ==> a == b)
    {
      LexTotal(a, b);
    }
    forall a, b, c | LexLe(a, b) && LexLe(b, c)
      ensures LexLe(a, c)
    {
      LexTransitive(a, b, c);
    }
  }

  // ----- What the canonical form depends on -----

  /** The same values, in the same order, under every name that is kept. */
  ghost predicate SameContent(a: seq<Item>, b: seq<Item>) {
    forall name :: IsKept(name) ==> Group(a, name) == Group(b, name)
  }

  /** Canonical items are a complete invariant of the content. */
  lemma CanonicalItemsAgree(a: seq<Item>, b: seq<Item>)
    ensures CanonicalItems(a) == CanonicalItems(b) <==> SameContent(a, b)
  {
    NamesAreOrdered();
    hide IsKept, LexLe, Sort, Keep;
    forall name
      ensures Group(CanonicalItems(a), name) == if IsKept(name) then Group(a, name) else []
      ensures Group(CanonicalItems(b), name) == if IsKept(name) then Group(b, name) else []
    {
      GroupOfKeep(Sort(a, LexLe), IsKept, name);
      GroupOfKeep(Sort(b, LexLe), IsKept, name);
      SortIsStable(a, LexLe, name);
      SortIsStable(b, LexLe, name);
    }
    if SameContent(a, b) {
      SortSorts(a, LexLe);
      SortSorts(b, LexLe);
      KeepStaysSorted(Sort(a, LexLe), IsKept, LexLe);
      KeepStaysSorted(Sort(b, LexLe), IsKept, LexLe);
      SortedIsUnique(CanonicalItems(a), CanonicalItems(b), LexLe);
    }
  }

  lemma {:induction false} GroupSplits(a: seq<Item>, b: seq<Item>, name: Octets)
    ensures Group(a + b, name) == Group(a, name) + Group(b, name)
  {
    if a == [] {
      assert a + b == b;
    } else {
      assert (a + b)[1..] == a[1..] + b;
      GroupSplits(a[1..], b, name);
      var first: seq<Octets> := if a[0].0 == name then [a[0].1] else [];
      assert first + (Group(a[1..], name) + Group(b, name)) == (first + Group(a[1..], name)) + Group(b, name);
    }
  }

  lemma {:induction false} ParseSplits(a: seq<Octets>, b: seq<Octets>)
    requires ParseFields(a).Some? && ParseFields(b).Some?
    ensures ParseFields(a + b) == Some(ParseFields(a).value + ParseFields(b).value)
  {
    hide ParseField;
    if a == [] {
      assert a + b == b && ParseFields(a).value + ParseFields(b).value == ParseFields(b).value;
    } else {
      assert (a + b)[1..] == a[1..] + b;
      ParseSplits(a[1..], b);
      var item, rest := ParseField(a[0]).value, ParseFields(a[1..]).value;
      assert [item] + (rest + ParseFields(b).value) == ([item] + rest) + ParseFields(b).value;
    }
  }

  /** A query put together from its fields, of which there may be none. */
  lemma JoinedQuery(fields: seq<Octets>)
    requires Free(fields, AMPERSAND) && ParseFields(fields).Some?
    ensures NormalizeQuery(Join(fields, AMPERSAND)) == Join(NormalizeItems(CanonicalItems(ParseFields(fields).value)), AMPERSAND)
  {
    hide IsTracking;
    if fields == [] {
      EmptyQueryFails();
      var none: seq<Item> := [];
      assert Sort(none, LexLe) == [] && CanonicalItems(none) == [];
    } else {
      SplitJoin(fields, AMPERSAND);
    }
  }

  lemma EmptyQueryFails()
    ensures Parse([]) == None
  {
    assert Split([], AMPERSAND) == [[]] && Split([], EQUALS) == [[]];
  }

  predicate OnlyTracking(items: seq<Item>) {
    forall i :: 0 <= i < |items| ==> IsTracking(items[i].0)
  }

  lemma {:induction false} TrackingHasNoContent(items: seq<Item>, name: Octets)
    requires OnlyTracking(items) && IsKept(name)
    ensures Group(items, name) == []
  {
    if items != [] {
      TrackingHasNoContent(items[1..], name);
    }
  }

  /** Tracking parameters change nothing, wherever they are inserted. */
  lemma TrackingIsIgnored(left: seq<Octets>, tracking: seq<Octets>, right: seq<Octets>)
    requires Free(left, AMPERSAND) && Free(tracking, AMPERSAND) && Free(right, AMPERSAND)
    requires ParseFields(left).Some? && ParseFields(right).Some?
    requires ParseFields(tracking).Some? && OnlyTracking(ParseFields(tracking).value)
    ensures NormalizeQuery(Join(left + tracking + right, AMPERSAND)) == NormalizeQuery(Join(left + right, AMPERSAND))
  {
    hide IsTracking, CanonicalItems, NormalizeQuery, ParseFields;
    var a, t, b := ParseFields(left).value, ParseFields(tracking).value, ParseFields(right).value;
    ParseSplits(left, tracking);
    ParseSplits(left + tracking, right);
    ParseSplits(left, right);
    JoinedQuery(left + tracking + right);
    JoinedQuery(left + right);
    forall name | IsKept(name)
      ensures Group(a + t + b, name) == Group(a + b, name)
    {
      GroupSplits(a + t, b, name);
      GroupSplits(a, t, name);
      GroupSplits(a, b, name);
      TrackingHasNoContent(t, name);
    }
    CanonicalItemsAgree(a + t + b, a + b);
  }

  predicate DisjointNames(a: seq<Item>, b: seq<Item>) {
    forall i, j :: 0 <= i < |a| && 0 <= j < |b| ==> a[i].0 != b[j].0
  }

  lemma OneOfThemIsEmpty(a: seq<Item>, b: seq<Item>, name: Octets)
    requires DisjointNames(a, b)
    ensures Group(a, name) == [] || Group(b, name) == []
  {
    GroupHasMembers(a, name);
    GroupHasMembers(b, name);
  }

  lemma ExchangedGroups(l: seq<Item>, x: seq<Item>, y: seq<Item>, r: seq<Item>, name: Octets)
    requires DisjointNames(x, y)
    ensures Group(l + x + y + r, name) == Group(l + y + x + r, name)
  {
    GroupSplits(l + x + y, r, name);
    GroupSplits(l + x, y, name);
    GroupSplits(l, x, name);
    GroupSplits(l + y + x, r, name);
    GroupSplits(l + y, x, name);
    GroupSplits(l, y, name);
    OneOfThemIsEmpty(x, y, name);
    hide Group;
    var gl, gx, gy := Group(l, name), Group(x, name), Group(y, name);
    assert gx == [] ==> gl + gx + gy == gl + gy + gx;
    assert gy == [] ==> gl + gx + gy == gl + gy + gx;
  }

  /** Neighbouring blocks of fields without a common name can be exchanged. */
  lemma OrderOfNamesIsIrrelevant(left: seq<Octets>, a: seq<Octets>, b: seq<Octets>, right: seq<Octets>)
    requires Free(left, AMPERSAND) && Free(a, AMPERSAND) && Free(b, AMPERSAND) && Free(right, AMPERSAND)
    requires ParseFields(left).Some? && ParseFields(a).Some? && ParseFields(b).Some? && ParseFields(right).Some?
    requires DisjointNames(ParseFields(a).value, ParseFields(b).value)
    ensures NormalizeQuery(Join(left + a + b + right, AMPERSAND)) == NormalizeQuery(Join(left + b + a + right, AMPERSAND))
  {
    hide IsTracking, CanonicalItems, NormalizeQuery, ParseFields, DisjointNames;
    var l, x, y, r := ParseFields(left).value, ParseFields(a).value, ParseFields(b).value, ParseFields(right).value;
    ParseSplits(left, a);
    ParseSplits(left + a, b);
    ParseSplits(left + a + b, right);
    ParseSplits(left, b);
    ParseSplits(left + b, a);
    ParseSplits(left + b + a, right);
    JoinedQuery(left + a + b + right);
    JoinedQuery(left + b + a + right);
    forall name | IsKept(name)
      ensures Group(l + x + y + r, name) == Group(l + y + x + r, name)
    {
      ExchangedGroups(l, x, y, r, name);
    }
    CanonicalItemsAgree(l + x + y + r, l + y + x + r);
  }

  // ----- Reading the result back -----

  /** Decoded once by the parser and once more by the normalisation. */
  function DecodedItems(items: seq<Item>): (r: seq<Item>)
    ensures |r| == |items| && forall i :: 0 <= i < |r| ==> r[i] == (UnquotePlus(items[i].0), UnquotePlus(items[i].1))
  {
    if items == [] then [] else [(UnquotePlus(items[0].0), UnquotePlus(items[0].1))] + DecodedItems(items[1..])
  }

  lemma {:induction false} SpacedUnspaced(o: Octets)
    requires PLUS !in o
    ensures Spaced(Unspaced(o)) == o
    ensures forall x: Octet :: x != PLUS && x !in o ==> x !in Unspaced(o)
  {
    if o != [] {
      assert o == [o[0]] + o[1..];
      SpacedUnspaced(o[1..]);
      assert Unspaced(o)[1..] == Unspaced(o[1..]);
    }
  }

  predicate KeepsApart(safe: Octet -> bool) {
    !safe(PERCENT) && !safe(PLUS) && !safe(AMPERSAND)
  }

  lemma QuotePlusRoundTrip(o: Octets, safe: Octet -> bool)
    requires KeepsApart(safe)
    ensures UnquotePlus(QuotePlus(o, safe)) == o && AMPERSAND !in QuotePlus(o, safe)
    ensures !safe(EQUALS) ==> EQUALS !in QuotePlus(o, safe)
  {
    var withSpace := OrSpace(safe);
    var q := Quote(o, withSpace);
    UnquoteQuote(o, withSpace);
    QuoteIsPlain(o, withSpace);
    assert !IsAlphanumeric(PLUS) && !IsAlphanumeric(AMPERSAND) && !IsAlphanumeric(EQUALS);
    SpacedUnspaced(q);
  }

  lemma SafeSetsKeepApart()
    ensures KeepsApart(SafeInName) && KeepsApart(SafeInValue) && !SafeInName(EQUALS)
  {
    assert PERCENT as char == '%' && PLUS as char == '+' && AMPERSAND as char == '&' && EQUALS as char == '=';
  }

  lemma NormalItemReadsBack(item: Item)
    ensures ParseField(NormalizeItem(item)) == Some((UnquotePlus(item.0), UnquotePlus(item.1)))
    ensures AMPERSAND !in NormalizeItem(item)
  {
    SafeSetsKeepApart();
    hide QuotePlus, UnquotePlus, SafeInName, SafeInValue;
    var name, value := QuotePlus(UnquotePlus(item.0), SafeInName), QuotePlus(UnquotePlus(item.1), SafeInValue);
    QuotePlusRoundTrip(UnquotePlus(item.0), SafeInName);
    QuotePlusRoundTrip(UnquotePlus(item.1), SafeInValue);
    SplitPart(name, value, EQUALS);
    JoinSplit(value, EQUALS);
    assert Split(NormalizeItem(item), EQUALS)[1..] == Split(value, EQUALS);
  }

  lemma {:induction false} NormalItemsReadBack(items: seq<Item>)
    ensures ParseFields(NormalizeItems(items)) == Some(DecodedItems(items))
    ensures Free(NormalizeItems(items), AMPERSAND)
  {
    if items != [] {
      hide ParseField, NormalizeItem, UnquotePlus;
      NormalItemReadsBack(items[0]);
      NormalItemsReadBack(items[1..]);
    }
  }

  /** The canonical form parses again, to the canonical items decoded once more; without any
      items left it is empty. */
  lemma CanonicalFormReadsBack(query: Octets)
    requires Parse(query).Some?
    ensures var items, n := CanonicalItems(Parse(query).value), NormalizeQuery(query);
            if items == [] then n == [] else Parse(n) == Some(DecodedItems(items))
  {
    var items := CanonicalItems(Parse(query).value);
    NormalItemsReadBack(items);
    if items != [] {
      SplitJoin(NormalizeItems(items), AMPERSAND);
    }
  }

  /** Two queries share their canonical form exactly when their canonical items agree once
      decoded a second time. */
  lemma CanonicalFormsAgree(a: Octets, b: Octets)
    requires Parse(a).Some? && Parse(b).Some?
    ensures NormalizeQuery(a) == NormalizeQuery(b) <==>
            DecodedItems(CanonicalItems(Parse(a).value)) == DecodedItems(CanonicalItems(Parse(b).value))
  {
    hide CanonicalItems, Parse;
    var x, y := CanonicalItems(Parse(a).value), CanonicalItems(Parse(b).value);
    CanonicalFormReadsBack(a);
    CanonicalFormReadsBack(b);
    EmptyQueryFails();
    if DecodedItems(x) == DecodedItems(y) {
      assert |x| == |y|;
      forall i | 0 <= i < |x|
        ensures NormalizeItems(x)[i] == NormalizeItems(y)[i]
      {
        assert DecodedItems(x)[i] == DecodedItems(y)[i];
      }
      assert NormalizeItems(x) == NormalizeItems(y);
    }
  }

  // ----- Normalising twice -----

  /** Names and values that no further decoding would change: those of a query that was
      encoded only once. */
  predicate IsPlain(o: Octets) {
    PERCENT !in o && PLUS !in o
  }

  lemma {:induction false} PlainStays(o: Octets)
    requires IsPlain(o)
    ensures Spaced(o) == o && Unquote(o) == o && UnquotePlus(o) == o
  {
    if o != [] {
      PlainStays(o[1..]);
      assert o == [o[0]] + o[1..];
    }
  }

  lemma CanonicalItemsAreCanonical(items: seq<Item>)
    ensures CanonicalItems(CanonicalItems(items)) == CanonicalItems(items)
  {
    NamesAreOrdered();
    forall name | IsKept(name)
      ensures Group(CanonicalItems(items), name) == Group(items, name)
    {
      GroupOfKeep(Sort(items, LexLe), IsKept, name);
      SortIsStable(items, LexLe, name);
    }
    hide IsKept, LexLe, Sort, Keep;
    CanonicalItemsAgree(CanonicalItems(items), items);
  }

  /** What the result of normalising means to the next reader. */
  function Meaning(query: Octets): seq<Item>
    requires Parse(query).Some?
  {
    DecodedItems(CanonicalItems(Parse(query).value))
  }

  /** Normalising a second time changes nothing exactly when the query cannot be parsed, or its
      twice decoded items are themselves in order, free of tracking parameters and stable under
      one more decoding. */
  lemma NormalisingAgain(query: Octets)
    ensures NormalizeQuery(NormalizeQuery(query)) == NormalizeQuery(query) <==>
              Parse(query).None? || DecodedItems(CanonicalItems(Meaning(query))) == Meaning(query)
  {
    hide IsTracking, CanonicalItems, Parse;
    EmptyQueryFails();
    if Parse(query).Some? {
      CanonicalFormReadsBack(query);
      if CanonicalItems(Parse(query).value) == [] {
        NoItems();
      } else {
        CanonicalFormsAgree(NormalizeQuery(query), query);
      }
    }
  }

  lemma NoItems()
    ensures CanonicalItems([]) == [] && DecodedItems([]) == []
  {
  }

  predicate PlainItems(items: seq<Item>) {
    forall i :: 0 <= i < |items| ==> IsPlain(items[i].0) && IsPlain(items[i].1)
  }

  lemma {:induction false} PlainItemsStay(items: seq<Item>)
    requires PlainItems(items)
    ensures DecodedItems(items) == items
  {
    if items != [] {
      PlainStays(items[0].0);
      PlainStays(items[0].1);
      PlainItemsStay(items[1..]);
      assert items == [items[0]] + items[1..];
    }
  }

  lemma CanonicalItemsAreItems(items: seq<Item>)
    requires PlainItems(items)
    ensures PlainItems(CanonicalItems(items))
  {
    hide IsPlain, IsKept, LexLe, Sort, Keep;
    var sorted, kept := Sort(items, LexLe), CanonicalItems(items);
    forall i | 0 <= i < |kept|
      ensures IsPlain(kept[i].0) && IsPlain(kept[i].1)
    {
      assert kept[i] in kept && kept[i] in multiset(sorted);
      var j :| 0 <= j < |items| && items[j] == kept[i];
    }
  }

  /** In particular it changes nothing for queries that were encoded only once. */
  lemma OnceEncodedIsStable(query: Octets)
    requires Parse(query).Some? && PlainItems(Parse(query).value)
    ensures NormalizeQuery(NormalizeQuery(query)) == NormalizeQuery(query)
  {
    hide IsTracking, CanonicalItems, Parse;
    var items := Parse(query).value;
    CanonicalItemsAreItems(items);
    PlainItemsStay(CanonicalItems(items));
    CanonicalItemsAreCanonical(items);
    NormalisingAgain(query);
  }

  // ----- A query that is encoded twice -----

  lemma {:induction false} SafeStays(o: Octets, safe: Octet -> bool)
    requires SPACE !in o && forall i :: 0 <= i < |o| ==> safe(o[i])
    ensures QuotePlus(o, safe) == o
  {
    var q := OrSpace(safe);
    if o != [] {
      SafeStays(o[1..], safe);
      assert o == [o[0]] + o[1..] && q(o[0]);
      assert Quote(o, q) == [o[0]] + Quote(o[1..], q);
      assert Unspaced(Quote(o, q)) == [o[0]] + Unspaced(Quote(o[1..], q));
    }
  }

  /** A query of one field. */
  lemma OneField(name: Octets, value: Octets)
    requires AMPERSAND !in name && AMPERSAND !in value && EQUALS !in name
    ensures Parse(name + [EQUALS] + value) == Some([(UnquotePlus(name), UnquotePlus(value))])
    ensures var item := (UnquotePlus(name), UnquotePlus(value));
            NormalizeQuery(name + [EQUALS] + value) == if IsKept(item.0) then NormalizeItem(item) else []
  {
    hide IsTracking, NormalizeItem, UnquotePlus;
    var field, item := name + [EQUALS] + value, (UnquotePlus(name), UnquotePlus(value));
    SplitPart(field, [], AMPERSAND);
    SplitPart(name, value, EQUALS);
    JoinSplit(value, EQUALS);
    assert Split(field, EQUALS)[1..] == Split(value, EQUALS);
    assert ParseFields([field]) == Some([item] + []) by {
      var rest := [field][1..];
      assert rest == [] && ParseFields(rest) == Some([]);
    }
    assert [item] + [] == [item];
    OneItem(item);
  }

  lemma OneItem(item: Item)
    ensures CanonicalItems([item]) == if IsKept(item.0) then [item] else []
    ensures Join(NormalizeItems([item]), AMPERSAND) == NormalizeItem(item) && Join(NormalizeItems([]), AMPERSAND) == []
  {
    hide IsTracking, NormalizeItem;
    var rest: seq<Item> := [item][1..];
    assert rest == [] && Sort(rest, LexLe) == [];
    assert Sort([item], LexLe) == [item];
    assert Keep([item], IsKept) == (if IsKept(item.0) then [item] else []) + Keep(rest, IsKept);
  }

  const CLID: Octets := Ascii("clid")
  const GCLID: Octets := Ascii("g") + CLID
  /** `%67clid` */
  const ONCE: Octets := [PERCENT] + Ascii("67") + CLID
  /** `%2567clid` */
  const TWICE: Octets := [PERCENT] + Ascii("25") + (Ascii("67") + CLID)

  lemma TripletThenPlain(digits: Octets, rest: Octets)
    requires |digits| == 2 && HexValue(digits[0]) < 16 && HexValue(digits[1]) < 16 && PLUS !in digits && IsPlain(rest)
    ensures UnquotePlus([PERCENT] + digits + rest) == [HexValue(digits[0]) * 16 + HexValue(digits[1])] + rest
  {
    var o := [PERCENT] + digits + rest;
    NoPlus(o);
    PlainStays(rest);
    assert o[3..] == rest && StartsWithTriplet(o);
  }

  lemma GclidDecodes()
    ensures UnquotePlus(TWICE) == ONCE && UnquotePlus(ONCE) == GCLID
  {
    TripletThenPlain(Ascii("25"), Ascii("67") + CLID);
    TripletThenPlain(Ascii("67"), CLID);
    assert [PERCENT] + (Ascii("67") + CLID) == ONCE;
    assert Ascii("g") == [103];
  }

  lemma GclidIsTracking()
    ensures !IsKept(GCLID) && IsKept(ONCE)
  {
    assert GCLID == Ascii("gclid");
    NotTracking(ONCE);
  }

  lemma NotTracking(name: Octets)
    requires |name| > 1 && name[0] == PERCENT
    ensures IsKept(name)
  {
    var n := WithoutFinalNewline(name);
    assert n != [] && n[0] == PERCENT && Lower(n)[0] == PERCENT;
    assert Ascii("gclid")[0] == 103 && Ascii("resourcekey")[0] == 114 && Ascii("x-amz-security-token")[0] == 120;
    assert Ascii("utm_campaign")[0] == 117 && Ascii("utm_content")[0] == 117 && Ascii("utm_medium")[0] == 117;
    assert Ascii("utm_source")[0] == 117 && Ascii("utm_term")[0] == 117 && Ascii("WT.")[0] == 87;
  }

  lemma {:induction false} NoPlus(o: Octets)
    requires PLUS !in o
    ensures Spaced(o) == o
  {
    if o != [] {
      NoPlus(o[1..]);
      assert o == [o[0]] + o[1..];
    }
  }

  lemma GclidIsSafe()
    ensures QuotePlus(GCLID, SafeInName) == GCLID && QuotePlus(Ascii("1"), SafeInValue) == Ascii("1")
    ensures UnquotePlus(Ascii("1")) == Ascii("1") && UnquotePlus(GCLID) == GCLID
  {
    SafeStays(GCLID, SafeInName);
    SafeStays(Ascii("1"), SafeInValue);
    PlainStays(Ascii("1"));
    PlainStays(GCLID);
  }

  /** `%2567clid=1` becomes `gclid=1`, and that becomes the empty query. */
  lemma TwiceEncodedIsNotStable()
    ensures NormalizeQuery(TWICE + [EQUALS] + Ascii("1")) == GCLID + [EQUALS] + Ascii("1")
    ensures NormalizeQuery(NormalizeQuery(TWICE + [EQUALS] + Ascii("1"))) == []
  {
    GclidDecodes();
    GclidIsTracking();
    GclidIsSafe();
    NoDelimiters();
    hide IsTracking, QuotePlus, UnquotePlus, NormalizeQuery;
    OneField(TWICE, Ascii("1"));
    OneField(GCLID, Ascii("1"));
  }

  lemma NoDelimiters()
    ensures AMPERSAND !in TWICE && EQUALS !in TWICE && AMPERSAND !in GCLID && EQUALS !in GCLID && AMPERSAND !in Ascii("1")
  {
  }
}
