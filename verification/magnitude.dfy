/** `format_value`: scales a number into a value and one of the suffixes
    "", "K", "M", "B", "T", dividing by 1000 while the value is at least
    1000 and a larger suffix remains. The model returns the scaled value and
    the suffix index; the "$%.1f" rendering is not modelled. */
module Magnitude {
  import opened Values

  /** The suffix list, in increasing order of scale. */
  const Suffixes: seq<string> := ["", "K", "M", "B", "T"]

  /** The index of the last suffix: no scaling goes past "T". */
  const Top: nat := |Suffixes| - 1

  /** A scaled number: `value` followed by `Suffixes[index]`. */
  datatype Amount = Amount(value: real, index: nat) {
    predicate Valid() { index <= Top }

    function Suffix(): string
      requires Valid()
    {
      Suffixes[index]
    }
  }

  /** 1000 raised to the power k. */
  function Pow1000(k: nat): (r: real)
    ensures r >= 1.0
  {
    if k == 0 then 1.0 else 1000.0 * Pow1000(k - 1)
  }

  /** Undoes k division steps: multiplies `value` by 1000, k times. Written
      as repeated multiplication by a constant, so that reasoning about the
      loop stays linear. */
  function Expand(value: real, k: nat): real {
    if k == 0 then value else 1000.0 * Expand(value, k - 1)
  }

  /** The scaling loop, entered with the current value `v` and index `idx`.
      Each step divides by exactly 1000 and moves to the next suffix. */
  function Scale(v: real, idx: nat): (r: Amount)
    requires idx <= Top
    ensures idx <= r.index <= Top
    // invariant of the loop: the value entering it is the value leaving it
    // multiplied back by 1000 once for every step taken
    ensures v == Expand(r.value, r.index - idx)
    // the loop exits because the value is small enough or the suffixes ran out
    ensures r.value < 1000.0 || r.index == Top
    // a value is only ever divided when it was at least 1000
    ensures r.index > idx ==> r.value >= 1.0
    ensures v < 1000.0 ==> r == Amount(v, idx)
    decreases Top - idx
  {
    if v >= 1000.0 && idx < Top then
      Scale(v / 1000.0, idx + 1)
    else
      Amount(v, idx)
  }

  /** `format_value(value)`: "N/A" unless the value is an int or a float
      (a bool included), otherwise the value scaled from suffix index 0. */
  function FormatValue(v: Value): (r: Display<Amount>)
    ensures r.NA? <==> !IsIntOrFloat(v)
    ensures r.Shown? ==> r.value.Valid()
    ensures r.Shown? ==> Numeric(v) == Expand(r.value.value, r.value.index)
    ensures r.Shown? ==> r.value.value < 1000.0 || r.value.index == Top
    ensures r.Shown? ==> (r.value.index > 0 ==> r.value.value >= 1.0)
    ensures r.Shown? && Numeric(v) < 1000.0 ==> r.value == Amount(Numeric(v), 0)
  {
    if !IsIntOrFloat(v) then NA else Shown(Scale(Numeric(v), 0))
  }

  /** The same computation written as the source's `while` loop. */
  method FormatValueLoop(v: Value) returns (r: Display<Amount>)
    ensures r == FormatValue(v)
    ensures r.Shown? ==> Numeric(v) == Expand(r.value.value, r.value.index)
  {
    if !IsIntOrFloat(v) {
      return NA;
    }
    var value := Numeric(v);
    var index: nat := 0;
    while value >= 1000.0 && index < |Suffixes| - 1
      invariant index <= Top
      invariant Scale(value, index) == Scale(Numeric(v), 0)
      invariant Numeric(v) == Expand(value, index)
      decreases Top - index
    {
      ExpandShift(value, index);
      value := value / 1000.0;
      index := index + 1;
    }
    r := Shown(Amount(value, index));
  }

  /** Dividing by 1000 and taking one more step expands to the same value. */
  lemma {:induction false} ExpandShift(y: real, k: nat)
    ensures Expand(y / 1000.0, k + 1) == Expand(y, k)
  {
    if k > 0 {
      ExpandShift(y, k - 1);
    }
  }

  /** Expanding k times is multiplying by 1000^k. */
  lemma {:induction false} ExpandIsProduct(y: real, k: nat)
    ensures Expand(y, k) == y * Pow1000(k)
  {
    if k > 0 {
      ExpandIsProduct(y, k - 1);
      var p := Pow1000(k - 1);
      assert y * (1000.0 * p) == 1000.0 * (y * p);
    }
  }

  /** Expanding preserves the order of values. */
  lemma {:induction false} ExpandMonotone(a: real, b: real, k: nat)
    ensures a <= b ==> Expand(a, k) <= Expand(b, k)
    ensures a < b ==> Expand(a, k) < Expand(b, k)
  {
    if k > 0 {
      ExpandMonotone(a, b, k - 1);
    }
  }

  /** One unit of the next tier is 1000 units of this one. */
  lemma {:induction false} ExpandThousand(k: nat)
    ensures Expand(1000.0, k) == Pow1000(k + 1)
    ensures Expand(1.0, k) == Pow1000(k)
  {
    if k > 0 {
      ExpandThousand(k - 1);
    }
  }

  /** Reference definition of the chosen suffix: the largest k <= m with
      k == 0 or 1000^k <= v. */
  function TierBelow(v: real, m: nat): nat {
    if m == 0 then 0
    else if Pow1000(m) <= v then m
    else TierBelow(v, m - 1)
  }

  function Tier(v: real): nat {
    TierBelow(v, Top)
  }

  lemma {:induction false} Pow1000Monotone(j: nat, k: nat)
    requires j <= k
    ensures Pow1000(j) <= Pow1000(k)
    decreases k
  {
    if j < k {
      Pow1000Monotone(j, k - 1);
    }
  }

  /** The tier is pinned down by the interval [1000^k, 1000^(k+1)) that v
      falls in, with no lower bound at k == 0 and no upper bound at the top. */
  lemma {:induction false} TierBelowIs(v: real, k: nat, m: nat)
    requires k <= m
    requires k == 0 || Pow1000(k) <= v
    requires k == m || v < Pow1000(k + 1)
    ensures TierBelow(v, m) == k
    decreases m
  {
    if m != k {
      Pow1000Monotone(k + 1, m);
      TierBelowIs(v, k, m - 1);
    }
  }

  /** The scaling loop stops at the reference tier. */
  lemma ScaleStopsAtTier(n: real)
    ensures Scale(n, 0).index == Tier(n)
  {
    var a := Scale(n, 0);
    ExpandThousand(a.index);
    ExpandMonotone(1.0, a.value, a.index);
    ExpandMonotone(a.value, 1000.0, a.index);
    TierBelowIs(n, a.index, Top);
  }

  /** The scaled value is the input divided by 1000 to the power of the
      suffix index. */
  lemma ScaleDivides(n: real)
    ensures Scale(n, 0).value == n / Pow1000(Scale(n, 0).index)
  {
    var a := Scale(n, 0);
    ExpandIsProduct(a.value, a.index);
    DivideBack(n, a.value, Pow1000(a.index));
  }

  /** `format_value` picks exactly the reference tier and divides the input
      by 1000 to that power. */
  lemma FormatValueIsTier(v: Value)
    requires IsIntOrFloat(v)
    ensures FormatValue(v) == Shown(Amount(Numeric(v) / Pow1000(Tier(Numeric(v))), Tier(Numeric(v))))
  {
    ScaleStopsAtTier(Numeric(v));
    ScaleDivides(Numeric(v));
  }

  lemma DivideBack(x: real, y: real, p: real)
    requires p > 0.0 && x == y * p
    ensures y == x / p
  {
  }

  /** The loop invariant in its usual form: the input equals the scaled
      value times 1000 to the power of the suffix index. */
  lemma FormatValueProduct(v: Value)
    requires IsIntOrFloat(v)
    ensures Numeric(v) == FormatValue(v).value.value * Pow1000(FormatValue(v).value.index)
  {
    var a := FormatValue(v).value;
    ExpandIsProduct(a.value, a.index);
  }

  /** Absent and non-numeric values always format as "N/A", and every
      int, float or bool gets a value. */
  lemma NotAvailableExactly(v: Value)
    ensures FormatValue(v) == NA <==> (v.Absent? || v.Str? || v.FloatLike? || v.Other?)
  {
  }

  /** Scaling never goes past "T", so indexing the suffix list is safe. */
  lemma SuffixIndexInRange(v: Value)
    requires FormatValue(v).Shown?
    ensures 0 <= FormatValue(v).value.index < |Suffixes|
  {
  }

  /** The threshold test is `value >= 1000`, not on the absolute value:
      zero and negative numbers are never scaled. */
  lemma NegativeNotScaled(x: real)
    requires x <= 0.0
    ensures FormatValue(Float(x)) == Shown(Amount(x, 0))
  {
  }

  /** Values with the worked outcomes: 999 -> "$999.0", 1000 -> "$1.0K",
      1500000 -> "$1.5M", 10^15 -> "$1000.0T" (no tier past T). */
  lemma Examples()
    ensures FormatValue(Int(999)) == Shown(Amount(999.0, 0))
    ensures FormatValue(Int(999)).value.Suffix() == ""
    ensures FormatValue(Int(1000)) == Shown(Amount(1.0, 1))
    ensures FormatValue(Int(1000)).value.Suffix() == "K"
    ensures FormatValue(Int(1500000)) == Shown(Amount(1.5, 2))
    ensures FormatValue(Int(1500000)).value.Suffix() == "M"
    ensures FormatValue(Int(1000000000000000)) == Shown(Amount(1000.0, 4))
    ensures FormatValue(Int(1000000000000000)).value.Suffix() == "T"
    ensures FormatValue(Bool(true)) == Shown(Amount(1.0, 0))
    ensures FormatValue(Absent) == NA && FormatValue(Str("abc")) == NA
  {
  }
}
