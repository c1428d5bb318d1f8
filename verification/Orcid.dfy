/** The check character of an ORCID iD: the MOD 11-2 system of ISO/IEC 7064. */
module Orcid {
  /** Values of characters: ten for `X`, which only ever stands last. */
  type Value = x: int | 0 <= x <= 10

  predicate IsDigit(c: char) {
    '0' <= c <= '9'
  }

  predicate IsPlain(orcid: string) {
    forall i :: 0 <= i < |orcid| ==> IsDigit(orcid[i]) || orcid[i] == '-'
  }

  function Without(orcid: string): (r: string)
    ensures IsPlain(orcid) ==> forall i :: 0 <= i < |r| ==> IsDigit(r[i])
    ensures |r| <= |orcid|
  {
    if orcid == "" then "" else
    var last := |orcid| - 1;
    Without(orcid[..last]) + if orcid[last] == '-' then "" else [orcid[last]]
  }

  function ValueOf(c: char): Value {
    if IsDigit(c) then (c - '0') as int else 10
  }

  function Values(s: string): (r: seq<Value>)
    ensures |r| == |s| && forall i :: 0 <= i < |r| ==> r[i] == ValueOf(s[i])
  {
    if s == "" then [] else Values(s[..|s| - 1]) + [ValueOf(s[|s| - 1])]
  }

  // ----- Arithmetic modulo 11 -----

  lemma ModuloMultiple(q: int, x: int)
    ensures (11 * q + x) % 11 == x % 11
  {
    assert 11 * q + x == 11 * (q + x / 11) + x % 11;
  }

  lemma SumModulo(n: int, k: int)
    ensures (n + k) % 11 == (n % 11 + k) % 11
  {
    ModuloMultiple(n / 11, n % 11 + k);
  }

  /** One step of the loop may be taken on the residue. */
  lemma ResidueStep(w: int, v: int)
    ensures (w % 11 + v) * 2 % 11 == (w + v) * 2 % 11
  {
    ModuloMultiple(2 * (w / 11), (w % 11 + v) * 2);
  }

  lemma EqualResidues(l: int, r: int)
    ensures l % 11 == r % 11 ==> l - r == 11 * (l / 11 - r / 11)
  {
  }

  /** Each value counts twice as much as the one to its right, the last one twice. */
  function Weighted(values: seq<Value>): nat {
    if values == [] then 0 else (Weighted(values[..|values| - 1]) + values[|values| - 1]) * 2
  }

  function CheckValue(total: nat): Value {
    (12 - total % 11) % 11
  }

  function CheckChar(v: Value): char {
    if v == 10 then 'X' else '0' + v as char
  }

  lemma WeightedNext(values: seq<Value>, i: nat)
    requires i < |values|
    ensures Weighted(values[..0]) == 0
    ensures Weighted(values[..i + 1]) == (Weighted(values[..i]) + values[i]) * 2
  {
    assert values[..i + 1][..i] == values[..i];
  }

  lemma CheckResidue(r: int, v: Value)
    requires 0 <= r < 11
    ensures v == (12 - r) % 11 <==> (r + v) % 11 == 1
  {
    if r <= 1 {
      assert (12 - r) % 11 == 1 - r;
    }
  }

  lemma CheckCharReadsBack(v: Value)
    ensures ValueOf(CheckChar(v)) == v
  {
  }

  lemma CheckCharCompletes(total: nat)
    ensures (total + ValueOf(CheckChar(CheckValue(total)))) % 11 == 1
  {
    CheckCharReadsBack(CheckValue(total));
    CheckResidue(total % 11, CheckValue(total));
    SumModulo(total, CheckValue(total));
  }

  method WeightedTotal(digits: seq<Value>) returns (total: nat)
    ensures total == Weighted(digits)
  {
    total := 0;
    assert Weighted(digits[..0]) == 0;
    hide Weighted;
    for i := 0 to |digits|
      invariant total == Weighted(digits[..i])
    {
      WeightedNext(digits, i);
      var sum: nat := total + digits[i];
      total := sum * 2;
    }
    assert digits[..|digits|] == digits;
  }

  method ChecksumDigit(orcid: string) returns (result: char)
    requires IsPlain(orcid)
    ensures result == CheckChar(CheckValue(Weighted(Values(Without(orcid)))))
    ensures (Weighted(Values(Without(orcid))) + ValueOf(result)) % 11 == 1
  {
    hide Weighted, Values, Without, IsPlain;
    var total := WeightedTotal(Values(Without(orcid)));
    CheckCharCompletes(total);
    var remainder: int := total % 11;
    var check: int := (12 - remainder) % 11;
    assert check == CheckValue(total);
    hide CheckValue, ValueOf;
    if check == 10 {
      return 'X';
    }
    result := '0' + check as char;
  }

  // ----- Validation -----

  datatype Outcome = Accepted | BadFormat | BadChecksum

  /** Four groups of four, the very last character possibly an `X`. */
  predicate HasFormat(orcid: string) {
    && |orcid| == 19
    && (forall i :: 0 <= i < 18 ==> if i in {4, 9, 14} then orcid[i] == '-' else IsDigit(orcid[i]))
    && (IsDigit(orcid[18]) || orcid[18] == 'X')
  }

  lemma LastCharacter(orcid: string)
    requires HasFormat(orcid)
    ensures IsPlain(orcid[..18]) && (IsDigit(orcid[18]) || orcid[18] == 'X')
    ensures Without(orcid) == Without(orcid[..18]) + [orcid[18]]
    ensures Weighted(Values(Without(orcid))) == (Weighted(Values(Without(orcid[..18]))) + ValueOf(orcid[18])) * 2
  {
    var rest := Without(orcid[..18]);
    assert (rest + [orcid[18]])[..|rest|] == rest;
    var values := Values(rest + [orcid[18]]);
    assert values[..|rest|] == Values(rest);
  }

  /** The check value completes the sum, and no other value does. */
  lemma CheckValueIsUnique(total: nat, v: Value)
    ensures v == CheckValue(total) <==> (total + v) % 11 == 1
    ensures (total + v) % 11 == 1 <==> (total + v) * 2 % 11 == 2
  {
    CheckResidue(total % 11, v);
    SumModulo(total, v);
    Halving(total + v);
  }

  lemma Halving(n: int)
    ensures n % 11 == 1 <==> n * 2 % 11 == 2
  {
    ResidueStep(n, 0);
    EqualResidues(n * 2, 2);
  }

  lemma CheckCharIsInjective(v: Value, c: char)
    requires IsDigit(c) || c == 'X'
    ensures CheckChar(v) == c <==> v == ValueOf(c)
  {
  }

  predicate IsAccepted(orcid: string) {
    HasFormat(orcid) && Weighted(Values(Without(orcid))) % 11 == 2
  }

  lemma Verdict(orcid: string)
    requires HasFormat(orcid)
    ensures CheckChar(CheckValue(Weighted(Values(Without(orcid[..18]))))) == orcid[18] <==> IsAccepted(orcid)
  {
    LastCharacter(orcid);
    hide Weighted, CheckChar, CheckValue, Values, Without, IsPlain;
    var total := Weighted(Values(Without(orcid[..18])));
    CheckValueIsUnique(total, ValueOf(orcid[18]));
    CheckCharIsInjective(CheckValue(total), orcid[18]);
  }

  method ValidateOrcid(orcid: string) returns (outcome: Outcome)
    ensures outcome == Accepted <==> IsAccepted(orcid)
    ensures outcome == BadFormat <==> !HasFormat(orcid)
  {
    if !HasFormat(orcid) {
      return BadFormat;
    }
    LastCharacter(orcid);
    Verdict(orcid);
    hide Weighted, CheckChar, CheckValue, HasFormat, Values, Without, IsPlain, IsAccepted;
    var digit := ChecksumDigit(orcid[..18]);
    outcome := if digit != orcid[18] then BadChecksum else Accepted;
  }

  // ----- Detected errors -----

  function Residue(values: seq<Value>): (r: int)
    ensures 0 <= r < 11
  {
    if values == [] then 0 else (Residue(values[..|values| - 1]) + values[|values| - 1]) * 2 % 11
  }

  lemma {:induction false} ResidueOfWeighted(values: seq<Value>)
    ensures Residue(values) == Weighted(values) % 11
  {
    if values != [] {
      ResidueOfWeighted(values[..|values| - 1]);
      ResidueStep(Weighted(values[..|values| - 1]), values[|values| - 1]);
    }
  }

  /** Two is a unit modulo 11, so a difference never disappears again. */
  lemma DifferencePersists(x: int, y: int, v: Value, w: Value)
    requires 0 <= x < 11 && 0 <= y < 11
    ensures v == w ==> ((x + v) * 2 % 11 == (y + w) * 2 % 11 <==> x == y)
    ensures x == y ==> ((x + v) * 2 % 11 == (y + w) * 2 % 11 <==> v == w)
  {
    EqualResidues((x + v) * 2, (y + w) * 2);
  }

  predicate DiffersAt(a: seq<Value>, b: seq<Value>, k: nat) {
    |a| == |b| && k < |a| && a[k] != b[k] && forall i :: 0 <= i < |a| && i != k ==> a[i] == b[i]
  }

  lemma {:induction false} SingleChangeShows(a: seq<Value>, b: seq<Value>, k: nat)
    requires DiffersAt(a, b, k)
    ensures Residue(a) != Residue(b)
    decreases |a|
  {
    var last := |a| - 1;
    if k == last {
      assert a[..last] == b[..last];
    } else {
      SingleChangeShows(a[..last], b[..last], k);
    }
    DifferencePersists(Residue(a[..last]), Residue(b[..last]), a[last], b[last]);
  }

  predicate SwappedAt(a: seq<Value>, b: seq<Value>, k: nat) {
    && |a| == |b| && k + 1 < |a| && a[k] != a[k + 1] && b[k] == a[k + 1] && b[k + 1] == a[k]
    && forall i :: 0 <= i < |a| && i != k && i != k + 1 ==> a[i] == b[i]
  }

  lemma SwapShows(x: int, v: Value, w: Value)
    requires v != w
    ensures ((x + v) * 2 % 11 + w) * 2 % 11 != ((x + w) * 2 % 11 + v) * 2 % 11
  {
    ResidueStep((x + v) * 2, w);
    ResidueStep((x + w) * 2, v);
    EqualResidues(((x + v) * 2 + w) * 2, ((x + w) * 2 + v) * 2);
  }

  lemma LastOne(a: seq<Value>)
    requires |a| >= 1
    ensures Residue(a) == (Residue(a[..|a| - 1]) + a[|a| - 1]) * 2 % 11
  {
  }

  lemma LastTwo(a: seq<Value>)
    requires |a| >= 2
    ensures var k := |a| - 2;
            Residue(a) == ((Residue(a[..k]) + a[k]) * 2 % 11 + a[k + 1]) * 2 % 11
  {
    LastOne(a);
    LastOne(a[..|a| - 1]);
    hide Residue;
    assert a[..|a| - 1][..|a| - 2] == a[..|a| - 2];
  }

  lemma {:induction false} TranspositionShows(a: seq<Value>, b: seq<Value>, k: nat)
    requires SwappedAt(a, b, k)
    ensures Residue(a) != Residue(b)
    decreases |a|
  {
    hide Residue;
    var last := |a| - 1;
    if k + 1 == last {
      LastTwo(a);
      LastTwo(b);
      assert a[..k] == b[..k];
      SwapShows(Residue(a[..k]), a[k], a[last]);
    } else {
      TranspositionShows(a[..last], b[..last], k);
      LastOne(a);
      LastOne(b);
      DifferencePersists(Residue(a[..last]), Residue(b[..last]), a[last], b[last]);
    }
  }

  lemma CheckCharDeterminesResidue(t: nat, u: nat)
    ensures CheckChar(CheckValue(t)) == CheckChar(CheckValue(u)) <==> t % 11 == u % 11
  {
    CheckCharIsInjective(CheckValue(t), CheckChar(CheckValue(u)));
    CheckCharIsInjective(CheckValue(u), CheckChar(CheckValue(u)));
  }

  /** For digit strings of any length: changing one digit, or swapping two neighbours that
      differ, changes the check character. */
  lemma CheckCharacterDetects(a: seq<Value>, b: seq<Value>, k: nat)
    requires DiffersAt(a, b, k) || SwappedAt(a, b, k)
    ensures CheckChar(CheckValue(Weighted(a))) != CheckChar(CheckValue(Weighted(b)))
  {
    CheckCharDeterminesResidue(Weighted(a), Weighted(b));
    hide CheckChar, CheckValue, Weighted, Residue;
    if DiffersAt(a, b, k) {
      SingleChangeShows(a, b, k);
    } else {
      TranspositionShows(a, b, k);
    }
    ResidueOfWeighted(a);
    ResidueOfWeighted(b);
  }

  /** Nor does such an error lead from one accepted iD to another, even when it involves the
      check character itself; hyphens do not separate neighbours. */
  lemma ErrorsAreRejected(a: string, b: string, k: nat)
    requires DiffersAt(Values(Without(a)), Values(Without(b)), k) || SwappedAt(Values(Without(a)), Values(Without(b)), k)
    ensures !(IsAccepted(a) && IsAccepted(b))
  {
    var v, w := Values(Without(a)), Values(Without(b));
    if DiffersAt(v, w, k) {
      SingleChangeShows(v, w, k);
    } else {
      TranspositionShows(v, w, k);
    }
    ResidueOfWeighted(v);
    ResidueOfWeighted(w);
  }
}
