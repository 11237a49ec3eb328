/** Choosing an entry with a chance proportional to its weight. The random number is a parameter:
    any real from zero up to, but not including, one. */
module WeightedChoice {
  import opened Wrappers

  datatype Error = NoPositiveWeights

  /** The total weight of the first `n` entries. */
  function Cumulated<T>(entries: seq<(T, real)>, n: nat): real
    requires n <= |entries|
  {
    if n == 0 then 0.0 else Cumulated(entries, n - 1) + entries[n - 1].1
  }

  function Total<T>(entries: seq<(T, real)>): real { Cumulated(entries, |entries|) }

  /** The entry at which the running total first exceeds a roll. */
  ghost predicate FirstAbove<T>(entries: seq<(T, real)>, roll: real, i: nat) {
    && i < |entries|
    && roll < Cumulated(entries, i + 1)
    && forall j :: 0 <= j <= i ==> Cumulated(entries, j) <= roll
  }

  /** The roll for a random number from zero up to one. */
  function RollOf(r: real, total: real): (roll: real)
    ensures 0.0 <= r < 1.0 && total > 0.0 ==> 0.0 <= roll < total
  {
    r * total
  }

  /** The entry that the random number `r` chooses. */
  ghost predicate Selected<T>(entries: seq<(T, real)>, r: real, i: nat) {
    FirstAbove(entries, RollOf(r, Total(entries)), i)
  }

  method Sum<T>(entries: seq<(T, real)>) returns (total: real)
    ensures total == Total(entries)
  {
    total := 0.0;
    for i := 0 to |entries|
      invariant total == Cumulated(entries, i)
    {
      total := total + entries[i].1;
    }
  }

  /** Subtracts the weights from the roll until it is negative. An entry is always found in the
      loop: what would be returned behind it is never reached, whatever the weights. */
  method Subtract<T>(entries: seq<(T, real)>, start: real) returns (value: T)
    requires 0.0 <= start < Total(entries)
    ensures exists i: nat :: FirstAbove(entries, start, i) && value == entries[i].0
  {
    var roll := start;
    for i := 0 to |entries|
      invariant roll == start - Cumulated(entries, i)
      invariant forall j :: 0 <= j <= i ==> Cumulated(entries, j) <= start
    {
      roll := roll - entries[i].1;
      if roll < 0.0 {
        assert FirstAbove(entries, start, i);
        return entries[i].0;
      }
    }
    assert false;
  }

  method Choose<T>(entries: seq<(T, real)>, r: real) returns (res: Result<T, Error>)
    requires 0.0 <= r < 1.0
    ensures Total(entries) <= 0.0 ==> res == Err(NoPositiveWeights)
    ensures Total(entries) > 0.0 ==> exists i: nat :: Selected(entries, r, i) && res == Ok(entries[i].0)
  {
    var total := Sum(entries);
    if total <= 0.0 {
      return Err(NoPositiveWeights);
    }
    var value := Subtract(entries, RollOf(r, total));
    res := Ok(value);
  }

  // ------------------------------------------------------------ nonnegative weights

  predicate Nonnegative<T>(entries: seq<(T, real)>) {
    forall i :: 0 <= i < |entries| ==> entries[i].1 >= 0.0
  }

  lemma {:induction false} CumulatedGrows<T>(entries: seq<(T, real)>, i: nat, j: nat)
    requires Nonnegative(entries) && i <= j <= |entries|
    ensures Cumulated(entries, i) <= Cumulated(entries, j)
    decreases j
  {
    if i < j {
      CumulatedGrows(entries, i, j - 1);
    }
  }

  /** The inverse of the cumulative distribution: an entry is chosen exactly when the roll lies in
      its interval. So no roll chooses two entries, and none chooses an entry without weight. */
  lemma InverseCdf<T>(entries: seq<(T, real)>, r: real, i: nat)
    requires Nonnegative(entries) && i < |entries|
    ensures
      Selected(entries, r, i) <==>
      Cumulated(entries, i) <= RollOf(r, Total(entries)) < Cumulated(entries, i + 1)
    ensures Selected(entries, r, i) ==> entries[i].1 > 0.0
    ensures Selected(entries, r, i) ==> forall j: nat :: Selected(entries, r, j) ==> j == i
  {
    if Cumulated(entries, i) <= RollOf(r, Total(entries)) {
      forall j | 0 <= j <= i ensures Cumulated(entries, j) <= RollOf(r, Total(entries)) {
        CumulatedGrows(entries, j, i);
      }
    }
  }

  /** Every entry with weight can be chosen. */
  lemma EveryWeightCounts<T>(entries: seq<(T, real)>, i: nat) returns (r: real)
    requires Nonnegative(entries) && i < |entries| && entries[i].1 > 0.0
    ensures 0.0 <= r < 1.0 && Selected(entries, r, i)
  {
    var total := Total(entries);
    CumulatedGrows(entries, 0, i);
    CumulatedGrows(entries, i + 1, |entries|);
    r := Cumulated(entries, i) / total;
    Quotient(Cumulated(entries, i), total);
    InverseCdf(entries, r, i);
  }

  lemma Quotient(a: real, b: real)
    requires 0.0 <= a < b
    ensures 0.0 <= a / b < 1.0 && a / b * b == a
  {
  }
}
