/** The default order of text, in sorts and in `ORDER BY`. */
module Text {
  import opened Sorting

  /** By code units, a prefix first. */
  predicate Before(a: string, b: string) {
    b != [] && (a == [] || a[0] < b[0] || (a[0] == b[0] && Before(a[1..], b[1..])))
  }

  lemma {:induction false} BeforeIsTotal(a: string, b: string)
    ensures a == b || Before(a, b) || Before(b, a)
    ensures !(Before(a, b) && Before(b, a)) && (a == b ==> !Before(a, b))
    decreases a
  {
    if a != [] && b != [] && a[0] == b[0] {
      BeforeIsTotal(a[1..], b[1..]);
      assert a == [a[0]] + a[1..] && b == [b[0]] + b[1..];
    }
  }

  lemma {:induction false} BeforeChains(a: string, b: string, c: string)
    requires Before(a, b) && Before(b, c)
    ensures Before(a, c)
    decreases a
  {
    if a != [] && a[0] == b[0] && b[0] == c[0] {
      BeforeChains(a[1..], b[1..], c[1..]);
    }
  }

  lemma BeforeIsOrder()
    ensures IsOrder(Before)
  {
    forall x, y | Before(x, y)
      ensures !Before(y, x)
    {
      BeforeIsTotal(x, y);
    }
    forall x, y, z | !Before(y, x) && !Before(z, y)
      ensures !Before(z, x)
    {
      if Before(z, x) {
        BeforeIsTotal(x, y);
        BeforeIsTotal(y, z);
        BeforeIsTotal(x, z);
        if x != y && y != z { BeforeChains(x, y, z); }
      }
    }
  }
}
