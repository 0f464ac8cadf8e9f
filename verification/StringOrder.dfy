/** Strings in order, and sorting them. */
module StringOrder {
  /** Less or equal, character by character. */
  predicate Le(a: string, b: string) {
    |a| == 0 || (|b| > 0 && (a[0] < b[0] || (a[0] == b[0] && Le(a[1..], b[1..]))))
  }

  function Insert(x: string, xs: seq<string>): (r: seq<string>)
    ensures forall y :: y in r <==> y == x || y in xs
  {
    if |xs| == 0 then [x]
    else if Le(x, xs[0]) then [x] + xs
    else [xs[0]] + Insert(x, xs[1..])
  }

  function Sort(xs: seq<string>): (r: seq<string>)
    ensures forall y :: y in r <==> y in xs
  {
    if |xs| == 0 then [] else Insert(xs[0], Sort(xs[1..]))
  }

  predicate Ascending(xs: seq<string>) {
    forall i, j | 0 <= i < j < |xs| :: Le(xs[i], xs[j])
  }

  lemma {:induction false} LeTotal(a: string, b: string)
    ensures Le(a, b) || Le(b, a)
  {
    if |a| > 0 && |b| > 0 {
      LeTotal(a[1..], b[1..]);
    }
  }

  lemma {:induction false} LeTransitive(a: string, b: string, c: string)
    requires Le(a, b) && Le(b, c)
    ensures Le(a, c)
  {
    if |a| > 0 && |b| > 0 && |c| > 0 && a[0] == b[0] == c[0] {
      LeTransitive(a[1..], b[1..], c[1..]);
    }
  }

  lemma {:induction false} InsertAscends(x: string, xs: seq<string>)
    requires Ascending(xs)
    ensures Ascending(Insert(x, xs))
  {
    if |xs| > 0 {
      if Le(x, xs[0]) {
        forall i | 0 <= i < |xs|
          ensures Le(x, xs[i])
        {
          if i > 0 {
            LeTransitive(x, xs[0], xs[i]);
          }
        }
      } else {
        LeTotal(x, xs[0]);
        InsertAscends(x, xs[1..]);
        FirstAscends(xs[0], Insert(x, xs[1..]));
      }
    }
  }

  lemma {:induction false} FirstAscends(x: string, xs: seq<string>)
    requires Ascending(xs) && forall y | y in xs :: Le(x, y)
    ensures Ascending([x] + xs)
  {}

  lemma {:induction false} InsertCounts(x: string, xs: seq<string>)
    ensures multiset(Insert(x, xs)) == multiset(xs) + multiset{x}
  {
    if |xs| > 0 && !Le(x, xs[0]) {
      InsertCounts(x, xs[1..]);
      assert xs == [xs[0]] + xs[1..];
    }
  }

  /** Sorting orders the names and keeps each as often as it was. */
  lemma {:induction false} SortSorts(xs: seq<string>)
    ensures Ascending(Sort(xs)) && multiset(Sort(xs)) == multiset(xs)
  {
    if |xs| > 0 {
      SortSorts(xs[1..]);
      InsertAscends(xs[0], Sort(xs[1..]));
      InsertCounts(xs[0], Sort(xs[1..]));
      assert xs == [xs[0]] + xs[1..];
    }
  }
}
