/** Small notions that several modules share. */
module Collections {
  function Min(a: int, b: int): int {
    if a < b then a else b
  }

  function Max(a: int, b: int): int {
    if a < b then b else a
  }

  function Elements<T(==)>(s: seq<T>): set<T> {
    set x | x in s
  }

  /** A query with LIMIT always has something to pick. */
  lemma {:induction false} SubsetOfSize<T>(s: set<T>, n: nat)
    requires n <= |s|
    ensures exists part :: part <= s && |part| == n
  {
    if n == 0 {
      var none: set<T> := {};
      assert none <= s && |none| == 0;
    } else {
      var x :| x in s;
      SubsetOfSize(s - {x}, n - 1);
      var part :| part <= s - {x} && |part| == n - 1;
      assert part + {x} <= s && |part + {x}| == n;
    }
  }
}
