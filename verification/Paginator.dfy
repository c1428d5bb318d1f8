/** Pages of results and the numbers in the page switcher. */
module Paginator {
  import opened Collections
  import opened Options

  datatype Entry = Number(page: int) | Ellipsis
  datatype Page = Page(cur: int, max: int, next: Option<int>, prev: Option<int>, numbers: seq<Entry>)

  const BUFFER := 3

  // ----- How many pages -----

  function PageMax(total: nat, pageSize: nat): (max: int)
    requires pageSize >= 1
    ensures max >= 1
  {
    var pages := (total + pageSize - 1) / pageSize;
    if pages < 1 then 1 else pages
  }

  lemma PagesCoverTheTotal(total: nat, pageSize: nat)
    requires pageSize >= 1
    ensures var max := PageMax(total, pageSize);
            max >= 1 && total <= max * pageSize && (max > 1 ==> (max - 1) * pageSize < total)
  {
    var n := total + pageSize - 1;
    var q := n / pageSize;
    assert n == q * pageSize + n % pageSize;
    assert (q - 1) * pageSize == q * pageSize - pageSize;
    if q < 1 {
      assert q * pageSize <= 0 by { Nonpositive(q, pageSize); }
      assert 1 * pageSize == pageSize;
    }
  }

  lemma Nonpositive(q: int, d: nat)
    requires q <= 0
    ensures q * d <= 0
  {
  }

  // ----- The switcher -----

  /** The pages that are shown: the ends, and up to three on each side of the current one. */
  predicate IsShown(n: int, cur: int, max: int) {
    1 <= n <= max && (n == 1 || n == max || cur - BUFFER <= n <= cur + BUFFER)
  }

  /** Two neighbouring entries skip no page silently, and an ellipsis stands for at least one. */
  predicate Follows(numbers: seq<Entry>, i: int)
    requires 0 <= i < |numbers| - 1
  {
    match (numbers[i], numbers[i + 1])
    case (Number(a), Number(b)) => b == a + 1
    case (Number(a), Ellipsis) => i + 2 < |numbers| && numbers[i + 2].Number? && a + 1 < numbers[i + 2].page
    case (Ellipsis, Number(_)) => i > 0
    case (Ellipsis, Ellipsis) => false
  }

  predicate IsSwitcher(numbers: seq<Entry>, max: int) {
    && numbers != [] && numbers[0] == Number(1) && numbers[|numbers| - 1] == Number(max)
    && forall i :: 0 <= i < |numbers| - 1 ==> Follows(numbers, i)
  }

  /** Consecutive pages `low`, ..., `high`. */
  function Pages(low: int, high: int): (r: seq<Entry>)
    ensures |r| == (if low <= high then high - low + 1 else 0)
    ensures forall i :: 0 <= i < |r| ==> r[i] == Number(low + i)
    decreases high - low
  {
    if low > high then [] else Pages(low, high - 1) + [Number(high)]
  }

  /** Up to and including the current page. */
  function LeftPart(cur: int): seq<Entry> {
    (if 1 < cur then [Number(1)] else [])
    + (if cur - BUFFER - 1 > 1 then [Ellipsis] else [])
    + Pages(Max(2, cur - BUFFER), cur - 1) + [Number(cur)]
  }

  function RightPart(cur: int, max: int): seq<Entry> {
    Pages(cur + 1, Min(cur + BUFFER, max - 1))
    + (if max - (cur + BUFFER) > 1 then [Ellipsis] else [])
    + (if max > cur then [Number(max)] else [])
  }

  method NumbersUpTo(current: int) returns (numbers: seq<Entry>)
    requires 1 <= current
    ensures numbers == LeftPart(current)
  {
    var first := 1;
    numbers := [];
    if first < current {
      numbers := numbers + [Number(first)];
    }
    var maxLeft := current - BUFFER;
    if maxLeft - first > 1 {
      numbers := numbers + [Ellipsis];
    }
    ghost var start := numbers;
    var i := current - BUFFER;
    while maxLeft <= i < current
      invariant maxLeft <= i <= current
      invariant numbers == start + Pages(Max(2, maxLeft), i - 1)
      decreases current - i
    {
      if i > first {
        numbers := numbers + [Number(i)];
      }
      i := i + 1;
    }
    numbers := numbers + [Number(current)];
  }

  method NumbersAfter(current: int, pageMax: int) returns (numbers: seq<Entry>)
    requires 1 <= current <= pageMax
    ensures numbers == RightPart(current, pageMax)
  {
    var maxRight := current + BUFFER;
    numbers := [];
    var i := current + 1;
    while current < i <= maxRight && i < pageMax
      invariant current < i && i <= Max(current + 1, Min(maxRight + 1, pageMax))
      invariant numbers == Pages(current + 1, i - 1)
      decreases maxRight - i
    {
      numbers := numbers + [Number(i)];
      i := i + 1;
    }
    assert numbers == Pages(current + 1, Min(maxRight, pageMax - 1));
    if pageMax - maxRight > 1 {
      numbers := numbers + [Ellipsis];
    }
    if pageMax > current {
      numbers := numbers + [Number(pageMax)];
    }
  }

  method Paginate(total: nat, pageSize: nat, requested: Option<int>) returns (page: Page)
    requires pageSize >= 1
    ensures page.max == PageMax(total, pageSize)
    ensures 1 <= page.cur <= page.max
    ensures page.cur == Max(1, Min(page.max, if requested.Some? then requested.value else 1))
    ensures page.next == if page.cur < page.max then Some(page.cur + 1) else None
    ensures page.prev == if page.cur > 1 then Some(page.cur - 1) else None
    ensures IsSwitcher(page.numbers, page.max) && |page.numbers| <= 11
    ensures forall n :: Number(n) in page.numbers <==> IsShown(n, page.cur, page.max)
  {
    hide PageMax, IsSwitcher, IsShown, LeftPart, RightPart;
    var pageMax := PageMax(total, pageSize);
    var current := match requested case Some(n) => n case None => 1;
    current := Max(1, current);
    current := Min(current, pageMax);
    var next := if current < pageMax then Some(current + 1) else None;
    var prev := if current > 1 then Some(current - 1) else None;
    var left := NumbersUpTo(current);
    var right := NumbersAfter(current, pageMax);
    SwitcherIsComplete(current, pageMax);
    page := Page(current, pageMax, next, prev, left + right);
  }

  // ----- What the switcher shows -----

  lemma PagesShape(low: int, high: int)
    requires low <= high
    ensures var r := Pages(low, high);
            && r[0] == Number(low) && r[|r| - 1] == Number(high)
            && (forall i :: 0 <= i < |r| - 1 ==> Follows(r, i))
            && (forall n :: Number(n) in r <==> low <= n <= high)
  {
    var r := Pages(low, high);
    forall n
      ensures Number(n) in r <==> low <= n <= high
    {
      assert low <= n <= high ==> r[n - low] == Number(n);
    }
  }

  lemma LeftPartIsNear(cur: int)
    requires 1 <= cur <= 5
    ensures LeftPart(cur) == Pages(1, cur)
  {
    hide Follows;
  }

  lemma LeftPartIsFar(cur: int)
    requires cur > 5
    ensures LeftPart(cur) == [Number(1), Ellipsis, Number(cur - 3), Number(cur - 2), Number(cur - 1), Number(cur)]
  {
    hide Follows;
  }

  lemma LeftPartShape(cur: int)
    requires cur >= 1
    ensures var l := LeftPart(cur);
            && 1 <= |l| <= 6 && l[0] == Number(1) && l[|l| - 1] == Number(cur)
            && (forall i :: 0 <= i < |l| - 1 ==> Follows(l, i))
            && (forall n :: Number(n) in l <==> 1 <= n <= cur && (n == 1 || cur - BUFFER <= n))
  {
    if cur <= 5 {
      LeftPartIsNear(cur);
      PagesShape(1, cur);
      hide LeftPart, Pages, Follows;
    } else {
      LeftPartIsFar(cur);
      hide LeftPart, Pages;
    }
  }

  lemma RightPartIsNear(cur: int, max: int)
    requires cur <= max <= cur + 4
    ensures [Number(cur)] + RightPart(cur, max) == Pages(cur, max)
  {
    hide Follows;
  }

  lemma RightPartIsFar(cur: int, max: int)
    requires max > cur + 4
    ensures [Number(cur)] + RightPart(cur, max)
            == [Number(cur), Number(cur + 1), Number(cur + 2), Number(cur + 3), Ellipsis, Number(max)]
  {
    hide Follows;
  }

  lemma RightPartShape(cur: int, max: int)
    requires 1 <= cur <= max
    ensures var r := [Number(cur)] + RightPart(cur, max);
            && 1 <= |r| <= 6 && r[|r| - 1] == Number(max)
            && (forall i :: 0 <= i < |r| - 1 ==> Follows(r, i))
            && (forall n :: Number(n) in r <==> cur <= n <= max && (n == max || n <= cur + BUFFER))
  {
    if max <= cur + 4 {
      RightPartIsNear(cur, max);
      PagesShape(cur, max);
      hide RightPart, Pages, Follows;
    } else {
      RightPartIsFar(cur, max);
      hide RightPart, Pages;
    }
  }

  /** The switcher shows the first, the current and the last page and the neighbours of the
      current one, in order, with an ellipsis exactly where pages are skipped. */
  lemma SwitcherIsComplete(cur: int, max: int)
    requires 1 <= cur <= max
    ensures var numbers := LeftPart(cur) + RightPart(cur, max);
            && IsSwitcher(numbers, max) && |numbers| <= 11
            && (forall n :: Number(n) in numbers <==> IsShown(n, cur, max))
  {
    LeftPartShape(cur);
    RightPartShape(cur, max);
    hide LeftPart, RightPart;
    Overlap(LeftPart(cur), [Number(cur)] + RightPart(cur, max), cur);
    assert ([Number(cur)] + RightPart(cur, max))[1..] == RightPart(cur, max);
    hide Follows;
    forall n
      ensures Number(n) in LeftPart(cur) + RightPart(cur, max) <==> IsShown(n, cur, max)
    {
      assert Number(n) in LeftPart(cur) + RightPart(cur, max) <==>
          Number(n) in LeftPart(cur) || Number(n) in [Number(cur)] + RightPart(cur, max);
    }
  }

  /** Two parts that meet in the current page. */
  lemma Overlap(l: seq<Entry>, r: seq<Entry>, cur: int)
    requires l != [] && r != [] && l[|l| - 1] == r[0] == Number(cur)
    requires forall i :: 0 <= i < |l| - 1 ==> Follows(l, i)
    requires forall i :: 0 <= i < |r| - 1 ==> Follows(r, i)
    ensures var numbers := l + r[1..];
            && (forall i :: 0 <= i < |numbers| - 1 ==> Follows(numbers, i))
            && numbers[0] == l[0] && numbers[|numbers| - 1] == r[|r| - 1]
            && (forall n :: Number(n) in numbers <==> Number(n) in l || Number(n) in r)
  {
    var numbers, m := l + r[1..], |l| - 1;
    assert forall i :: 0 <= i < |l| ==> numbers[i] == l[i];
    assert forall i :: m <= i < |numbers| ==> numbers[i] == r[i - m];
    forall i | 0 <= i < |numbers| - 1
      ensures Follows(numbers, i)
    {
      if i < m {
        assert Follows(l, i);
      } else {
        assert Follows(r, i - m);
      }
    }
    forall n
      ensures Number(n) in numbers <==> Number(n) in l || Number(n) in r
    {
      if Number(n) in r {
        var i :| 0 <= i < |r| && r[i] == Number(n);
        assert numbers[i + m] == r[i];
      }
    }
  }

  /** Hence the page numbers increase strictly from left to right. */
  lemma {:induction false} NumbersIncrease(numbers: seq<Entry>, max: int, i: nat, j: nat)
    requires IsSwitcher(numbers, max) && i < j < |numbers| && numbers[i].Number? && numbers[j].Number?
    ensures numbers[i].page < numbers[j].page
    decreases j
  {
    assert Follows(numbers, j - 1);
    if numbers[j - 1].Ellipsis? {
      assert Follows(numbers, j - 2);
      if i < j - 2 {
        NumbersIncrease(numbers, max, i, j - 2);
      }
    } else if i < j - 1 {
      NumbersIncrease(numbers, max, i, j - 1);
    }
  }

  // ----- The windows of results -----

  /** OFFSET and LIMIT of one page. */
  function Window<T>(rows: seq<T>, pageSize: nat, page: nat): seq<T>
    requires pageSize >= 1 && page >= 1
  {
    var offset := (page - 1) * pageSize;
    var start := if offset < |rows| then offset else |rows|;
    var end := if offset + pageSize < |rows| then offset + pageSize else |rows|;
    if start <= end then rows[start..end] else []
  }

  function FirstPages<T>(rows: seq<T>, pageSize: nat, pages: nat): seq<T>
    requires pageSize >= 1
  {
    if pages == 0 then [] else FirstPages(rows, pageSize, pages - 1) + Window(rows, pageSize, pages)
  }

  lemma {:induction false} WindowsJoin<T>(rows: seq<T>, pageSize: nat, pages: nat)
    requires pageSize >= 1
    ensures FirstPages(rows, pageSize, pages) == rows[..if pages * pageSize < |rows| then pages * pageSize else |rows|]
  {
    if pages > 0 {
      WindowsJoin(rows, pageSize, pages - 1);
      assert pages * pageSize == (pages - 1) * pageSize + pageSize;
    }
  }

  /** The pages together show every result once, in order, and every page shows some. */
  lemma PagesPartitionTheResults<T>(rows: seq<T>, pageSize: nat)
    requires pageSize >= 1
    ensures FirstPages(rows, pageSize, PageMax(|rows|, pageSize)) == rows
    ensures forall page :: 1 <= page <= PageMax(|rows|, pageSize) && rows != [] ==> Window(rows, pageSize, page) != []
  {
    hide PageMax, Window;
    var max := PageMax(|rows|, pageSize);
    PagesCoverTheTotal(|rows|, pageSize);
    WindowsJoin(rows, pageSize, max);
    forall page | 1 <= page <= max && rows != []
      ensures Window(rows, pageSize, page) != []
    {
      SmallerOffset(page, max, pageSize);
      FullWindow(rows, pageSize, page);
    }
  }

  lemma SmallerOffset(page: int, max: int, pageSize: nat)
    requires page <= max
    ensures (page - 1) * pageSize <= (max - 1) * pageSize
  {
  }

  lemma FullWindow<T>(rows: seq<T>, pageSize: nat, page: nat)
    requires pageSize >= 1 && page >= 1 && (page - 1) * pageSize < |rows|
    ensures Window(rows, pageSize, page) != []
  {
  }
}
