/** Shared vocabulary of the analytics core: optional values, thrown errors,
    calendar days, price points and sums of real numbers. */
module Common {

  /** A value that may be absent (`undefined` / `null` in the source). */
  datatype Option<+T> = None | Some(value: T)

  /** The outcome of a call that may throw: the value, or the message of the
      `Error` the source throws. */
  datatype Result<+T> = Ok(value: T) | Err(message: string)

  /** A calendar date, as a number of days from a fixed epoch. The source
      carries ISO-8601 date strings; only "n days later" is ever computed. */
  type Day = int

  /** `{ date, price }`: one observation of a price series. */
  datatype PricePoint = PricePoint(date: Day, price: real)

  /** The price column of a series, `data.map(d => d.price)`. */
  function Prices(data: seq<PricePoint>): (r: seq<real>)
    ensures |r| == |data| && forall i :: 0 <= i < |data| ==> r[i] == data[i].price
  {
    seq(|data|, i requires 0 <= i < |data| => data[i].price)
  }

  /** Σ s, folded from the right; over exact reals it agrees with
      `reduce((a, b) => a + b, 0)`. */
  function Sum(s: seq<real>): real
  {
    if s == [] then 0.0 else s[0] + Sum(s[1..])
  }

  lemma {:induction false} SumAppend(a: seq<real>, b: seq<real>)
    ensures Sum(a + b) == Sum(a) + Sum(b)
  {
    if a == [] {
      assert a + b == b;
    } else {
      assert (a + b)[1..] == a[1..] + b;
      SumAppend(a[1..], b);
    }
  }

  /** Adding one element at the end of a sequence adds it to the sum. */
  lemma SumSnoc(a: seq<real>, v: real)
    ensures Sum(a + [v]) == Sum(a) + v
  {
    SumAppend(a, [v]);
  }

  /** The sum of a slice grows by the element that enters it on the right. */
  lemma SumSliceExtend(s: seq<real>, lo: int, hi: int)
    requires 0 <= lo <= hi < |s|
    ensures Sum(s[lo..hi + 1]) == Sum(s[lo..hi]) + s[hi]
  {
    assert s[lo..hi + 1] == s[lo..hi] + [s[hi]];
    SumSnoc(s[lo..hi], s[hi]);
  }

  /** The sum of a slice shrinks by the element that leaves it on the left. */
  lemma SumSliceDrop(s: seq<real>, lo: int, hi: int)
    requires 0 <= lo < hi <= |s|
    ensures Sum(s[lo..hi]) == s[lo] + Sum(s[lo + 1..hi])
  {
    assert s[lo..hi][1..] == s[lo + 1..hi];
  }

  /** The sum of n copies of c is n·c. */
  lemma {:induction false} SumConstant(s: seq<real>, c: real)
    requires forall i :: 0 <= i < |s| ==> s[i] == c
    ensures Sum(s) == |s| as real * c
  {
    if s != [] {
      SumConstant(s[1..], c);
    }
  }

  /** A sum of non-negative terms is non-negative. */
  lemma {:induction false} SumNonNegative(s: seq<real>)
    requires forall i :: 0 <= i < |s| ==> s[i] >= 0.0
    ensures Sum(s) >= 0.0
  {
    if s != [] {
      SumNonNegative(s[1..]);
    }
  }

  function Max(a: real, b: real): real
  {
    if a >= b then a else b
  }
}
