/**
 * The fare page's ledger: today's running amount and transaction count, and
 * one bucket per weekday for the week. Selecting a fare adds it to today's
 * figures and to the bucket of the current weekday, and the page shows the
 * week's total as the sum of the buckets.
 *
 * The weekday index that `Date.getDay()` supplies is a parameter. Fares are
 * integers.
 */
module FareLedger {
  import opened Text

  /** The bucket names, indexed by `getDay()`: 0 is Sunday. */
  const DayKeys: seq<string> := ["sun", "mon", "tue", "wed", "thu", "fri", "sat"]

  /** The keys of a weekly map. */
  const DaySet: set<string> := {"sun", "mon", "tue", "wed", "thu", "fri", "sat"}

  /** No name occurs twice in `keys`. */
  predicate Distinct(keys: seq<string>) {
    forall i, j :: 0 <= i < j < |keys| ==> keys[i] != keys[j]
  }

  /** The weekly map when nothing was stored: all seven buckets at zero. */
  function InitialWeekly(): (w: map<string, int>)
    ensures w.Keys == DaySet
    ensures forall k :: k in w ==> w[k] == 0
  {
    map k | k in DayKeys :: 0
  }

  /** `keys.map(k => w[k]).reduce((a, b) => a + b, 0)`: the values at `keys`, added left to right. */
  function SumOver(keys: seq<string>, w: map<string, int>): int
    requires forall i :: 0 <= i < |keys| ==> keys[i] in w
    decreases |keys|
  {
    if keys == [] then 0
    else SumOver(keys[..|keys| - 1], w) + w[keys[|keys| - 1]]
  }

  /** `Object.values(weekly).reduce((a, b) => a + b, 0)` for a map whose keys are the seven days, in their order. */
  function WeeklyTotal(w: map<string, int>): int
    requires w.Keys == DaySet
  {
    SumOver(DayKeys, w)
  }

  /** The weekly map after `weekly[map[day]] += amount`. */
  function AddFare(w: map<string, int>, day: nat, amount: int): (w': map<string, int>)
    requires w.Keys == DaySet && day < |DayKeys|
    ensures w'.Keys == w.Keys
    ensures w'[DayKeys[day]] == w[DayKeys[day]] + amount
    ensures forall k :: k in w && k != DayKeys[day] ==> w'[k] == w[k]
  {
    w[DayKeys[day] := w[DayKeys[day]] + amount]
  }

  /** Changing the value at one key moves a sum over distinct keys by the change, if the key is among them. */
  lemma {:induction false} SumOverUpdate(keys: seq<string>, w: map<string, int>, k: string, v: int)
    requires forall i :: 0 <= i < |keys| ==> keys[i] in w
    requires k in w && Distinct(keys)
    ensures SumOver(keys, w[k := v]) == SumOver(keys, w) + (if k in keys then v - w[k] else 0)
    decreases |keys|
  {
    if keys != [] {
      var init := keys[..|keys| - 1];
      var last := keys[|keys| - 1];
      assert Distinct(init);
      SumOverUpdate(init, w, k, v);
      assert k in keys <==> k in init || k == last;
      assert k == last ==> k !in init;
    }
  }

  /** Every bucket at zero adds up to zero. */
  lemma {:induction false} SumOverZero(keys: seq<string>, w: map<string, int>)
    requires forall i :: 0 <= i < |keys| ==> keys[i] in w && w[keys[i]] == 0
    ensures SumOver(keys, w) == 0
    decreases |keys|
  {
    if keys != [] {
      SumOverZero(keys[..|keys| - 1], w);
    }
  }

  /** With nothing stored the week's total is zero. */
  lemma InitialTotal()
    ensures WeeklyTotal(InitialWeekly()) == 0
  {
    SumOverZero(DayKeys, InitialWeekly());
  }

  /** One fare grows the week's total by exactly that fare, whichever day it falls on. */
  lemma AddFareTotal(w: map<string, int>, day: nat, amount: int)
    requires w.Keys == DaySet && day < |DayKeys|
    ensures WeeklyTotal(AddFare(w, day, amount)) == WeeklyTotal(w) + amount
  {
    var k := DayKeys[day];
    assert Distinct(DayKeys);
    assert k in DayKeys;
    SumOverUpdate(DayKeys, w, k, w[k] + amount);
  }

  /** The rupee sign the page puts before an amount. */
  const Rupee: string := "\U{20B9}"

  /** What the page shows after a fare: today's amount, today's count and the week's total. */
  datatype Shown = Shown(todayText: string, countText: string, weeklyText: string)

  class Ledger {
    var todayAmount: int
    var todayCount: int
    var weekly: map<string, int>

    /** The weekly map always has exactly the seven day buckets. */
    ghost predicate Valid()
      reads this
    {
      weekly.Keys == DaySet
    }

    /** The figures when the page loads with nothing stored. */
    constructor ()
      ensures Valid()
      ensures todayAmount == 0 && todayCount == 0 && weekly == InitialWeekly()
    {
      todayAmount, todayCount := 0, 0;
      weekly := InitialWeekly();
    }

    /**
     * The step `selectFare` runs once the card tap is simulated, on weekday
     * `day` (0 is Sunday): today's amount grows by the fare, the count by one,
     * only that day's bucket grows by the fare, and the shown total is the sum
     * of the buckets.
     */
    method RecordFare(amount: int, day: nat) returns (shown: Shown)
      requires Valid() && day < |DayKeys|
      modifies this
      ensures Valid()
      ensures todayAmount == old(todayAmount) + amount
      ensures todayCount == old(todayCount) + 1
      ensures weekly == AddFare(old(weekly), day, amount)
      ensures WeeklyTotal(weekly) == WeeklyTotal(old(weekly)) + amount
      ensures shown == Shown(Rupee + IntToDecimal(todayAmount),
                             IntToDecimal(todayCount) + " transactions",
                             Rupee + IntToDecimal(WeeklyTotal(weekly)))
    {
      todayAmount := todayAmount + amount;
      todayCount := todayCount + 1;
      var key := DayKeys[day];
      weekly := weekly[key := weekly[key] + amount];
      AddFareTotal(old(weekly), day, amount);
      shown := Shown(Rupee + IntToDecimal(todayAmount),
                     IntToDecimal(todayCount) + " transactions",
                     Rupee + IntToDecimal(WeeklyTotal(weekly)));
    }
  }
}
