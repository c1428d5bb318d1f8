/** `AnnotationSelectorJSONB`: NUL characters, which the database refuses, are stored escaped. */
module Selectors {
  const NUL: char := '\0'
  /** A backslash, `u` and four zeros. */
  const ESCAPED := "\\u0000"

  function Escape(s: string): string {
    if s == "" then "" else (if s[0] == NUL then ESCAPED else [s[0]]) + Escape(s[1..])
  }

  /** Replaces occurrences from left to right. */
  function Unescape(s: string): string {
    if s == "" then ""
    else if ESCAPED <= s then [NUL] + Unescape(s[|ESCAPED|..])
    else [s[0]] + Unescape(s[1..])
  }

  /** The text contains the escape sequence literally. */
  predicate HasEscape(s: string) {
    s != "" && (ESCAPED <= s || HasEscape(s[1..]))
  }

  // ----- What survives being stored -----

  /** Escaping cannot create the beginning of a word that has no backslash. */
  lemma {:induction false} EscapeKeepsWords(s: string, word: string)
    requires '\\' !in word && word <= Escape(s)
    ensures word <= s
  {
    if word != "" {
      assert word[0] == Escape(s)[0];
      assert s[0] != NUL;
      assert Escape(s)[1..] == Escape(s[1..]) && word[1..] <= Escape(s)[1..];
      EscapeKeepsWords(s[1..], word[1..]);
      assert s == [s[0]] + s[1..] && word == [word[0]] + word[1..];
    }
  }

  lemma EscapedShape()
    ensures |ESCAPED| == 6 && ESCAPED == ['\\'] + ESCAPED[1..]
    ensures '\\' !in ESCAPED[1..] && NUL !in ESCAPED
  {
    assert ESCAPED[1..] == "u0000";
  }

  lemma EscapeCreatesNoBeginning(s: string, first: char, tail: string)
    requires s != "" && s[0] != NUL && '\\' !in tail && [first] + tail <= Escape(s)
    ensures [first] + tail <= s
  {
    var rest := Escape(s[1..]);
    assert Escape(s) == [s[0]] + rest;
    assert ([first] + tail)[0] == Escape(s)[0];
    assert tail == ([first] + tail)[1..] <= Escape(s)[1..] == rest;
    EscapeKeepsWords(s[1..], tail);
    assert s == [s[0]] + s[1..];
  }

  lemma EscapeCreatesNoEscape(s: string)
    requires s != "" && s[0] != NUL && ESCAPED <= Escape(s)
    ensures ESCAPED <= s
  {
    EscapedShape();
    hide Escape;
    EscapeCreatesNoBeginning(s, '\\', ESCAPED[1..]);
  }

  lemma {:induction false} EscapeOfPlain(a: string, b: string)
    requires NUL !in a
    ensures Escape(a + b) == a + Escape(b)
  {
    if a == "" {
      assert a + b == b;
    } else {
      EscapeOfPlain(a[1..], b);
      assert (a + b)[1..] == a[1..] + b && (a + b)[0] == a[0];
      assert Escape(a + b) == [a[0]] + Escape(a[1..] + b);
      hide Escape;
      assert a == [a[0]] + a[1..];
    }
  }

  lemma EscapeOfEscaped(s: string)
    requires ESCAPED <= s
    ensures Escape(s) == ESCAPED + Escape(s[6..])
  {
    EscapedShape();
    assert s == ESCAPED + s[6..];
    EscapeOfPlain(ESCAPED, s[6..]);
  }

  /** Each literal escape sequence in the text costs five characters on the way back. */
  lemma {:induction false} RoundTripShrinks(s: string)
    ensures |Unescape(Escape(s))| <= |s|
    ensures if HasEscape(s) then |Unescape(Escape(s))| < |s| else Unescape(Escape(s)) == s
  {
    if s != "" {
      var e := Escape(s);
      if s[0] == NUL {
        RoundTripShrinks(s[1..]);
        assert e[6..] == Escape(s[1..]) && ESCAPED <= e;
        assert s == [NUL] + s[1..];
      } else if ESCAPED <= s {
        RoundTripShrinks(s[6..]);
        EscapeOfEscaped(s);
        assert e[6..] == Escape(s[6..]);
      } else {
        RoundTripShrinks(s[1..]);
        assert e[1..] == Escape(s[1..]);
        assert !(ESCAPED <= e) by {
          if ESCAPED <= e {
            EscapeCreatesNoEscape(s);
          }
        }
        assert s == [s[0]] + s[1..];
      }
    }
  }

  /** Storing and reading returns the text exactly when it did not contain the escape
      sequence itself; what is stored never contains NUL. */
  lemma StoredTextReadsBack(s: string)
    ensures Unescape(Escape(s)) == s <==> !HasEscape(s)
    ensures NUL !in Escape(s)
  {
    RoundTripShrinks(s);
    NoNulStored(s);
  }

  /** Such a text: the escape sequence alone comes back as a NUL character. */
  lemma LiteralEscapeIsLost()
    ensures HasEscape(ESCAPED) && Unescape(Escape(ESCAPED)) == [NUL]
  {
    EscapedShape();
    EscapeOfPlain(ESCAPED, "");
    assert ESCAPED + "" == ESCAPED && ESCAPED[6..] == "";
  }

  lemma {:induction false} NoNulStored(s: string)
    ensures NUL !in Escape(s)
  {
    if s != "" {
      NoNulStored(s[1..]);
    }
  }

  /** Text as the database can hold it is written back unchanged after being read. */
  lemma {:induction false} ReadTextStoresBack(t: string)
    ensures Escape(Unescape(t)) == t <==> NUL !in t
  {
    if NUL !in t {
      if t != "" {
        var u := Unescape(t);
        if ESCAPED <= t {
          ReadTextStoresBack(t[6..]);
          assert u[1..] == Unescape(t[6..]) && t == ESCAPED + t[6..];
        } else {
          ReadTextStoresBack(t[1..]);
          assert u[1..] == Unescape(t[1..]) && t == [t[0]] + t[1..];
        }
      }
    } else {
      NoNulStored(Unescape(t));
    }
  }

  // ----- Selectors, changed in place -----

  datatype Field = Absent | Null | Text(text: string)

  function Map(field: Field, transform: string -> string): Field {
    if field.Text? then Text(transform(field.text)) else field
  }

  class Selector {
    var kind: string
    var prefix: Field
    var exact: Field
    var suffix: Field

    constructor (kind: string, prefix: Field, exact: Field, suffix: Field)
      ensures this.kind == kind && this.prefix == prefix && this.exact == exact && this.suffix == suffix
    {
      this.kind, this.prefix, this.exact, this.suffix := kind, prefix, exact, suffix;
    }
  }

  const QUOTE := "TextQuoteSelector"

  /** `null` stands for an element that is not a dictionary. */
  method TransformQuoteSelectors(selectors: seq<Selector?>, transform: string -> string)
    requires forall i, j :: 0 <= i < j < |selectors| && selectors[i] != null ==> selectors[i] != selectors[j]
    modifies set s | s in selectors && s != null
    ensures forall s :: s in selectors && s != null ==> s.kind == old(s.kind)
    ensures forall s :: s in selectors && s != null && s.kind == QUOTE ==>
              && s.prefix == Map(old(s.prefix), transform)
              && s.exact == Map(old(s.exact), transform)
              && s.suffix == Map(old(s.suffix), transform)
    ensures forall s :: s in selectors && s != null && s.kind != QUOTE ==>
              s.prefix == old(s.prefix) && s.exact == old(s.exact) && s.suffix == old(s.suffix)
  {
    for i := 0 to |selectors|
      invariant forall s :: s in selectors && s != null ==> s.kind == old(s.kind)
      invariant forall k :: 0 <= k < i && selectors[k] != null && selectors[k].kind == QUOTE ==>
                  && selectors[k].prefix == Map(old(selectors[k].prefix), transform)
                  && selectors[k].exact == Map(old(selectors[k].exact), transform)
                  && selectors[k].suffix == Map(old(selectors[k].suffix), transform)
      invariant forall k :: 0 <= k < |selectors| && selectors[k] != null && (k >= i || selectors[k].kind != QUOTE) ==>
                  selectors[k].prefix == old(selectors[k].prefix) && selectors[k].exact == old(selectors[k].exact)
                  && selectors[k].suffix == old(selectors[k].suffix)
    {
      var selector := selectors[i];
      if selector != null && selector.kind == QUOTE {
        selector.prefix := Map(selector.prefix, transform);
        selector.exact := Map(selector.exact, transform);
        selector.suffix := Map(selector.suffix, transform);
      }
    }
  }
}
