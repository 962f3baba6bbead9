/**
 * The itemised statement for one person: a rent line, then one line per
 * utility category in sorted order, their shares summed and rounded to cents,
 * and the envelope (sender, recipients, headers) it is mailed in.
 */
module Statement {
  import opened Strings
  import opened Configuration
  import opened Components

  /** One divided component per category of `keys`, in that order. */
  function UtilityParts(keys: seq<string>, amounts: Amounts, payers: int): (parts: seq<RentComponent>)
    requires forall k :: k in keys ==> k in amounts
    ensures |parts| == |keys|
    ensures forall i :: 0 <= i < |keys| ==> parts[i] == RentComponent(keys[i], amounts[keys[i]], payers)
  {
    if keys == [] then []
    else UtilityParts(keys[..|keys| - 1], amounts, payers)
         + [RentComponent(keys[|keys| - 1], amounts[keys[|keys| - 1]], payers)]
  }

  /** One more category extends the lines after `head` by that category's component. */
  lemma UtilityPartsExtend(head: seq<RentComponent>, keys: seq<string>, i: int, amounts: Amounts, payers: int)
    requires 0 <= i < |keys|
    requires forall k :: k in keys ==> k in amounts
    ensures head + UtilityParts(keys[..i + 1], amounts, payers)
            == (head + UtilityParts(keys[..i], amounts, payers)) + [RentComponent(keys[i], amounts[keys[i]], payers)]
  {
    assert keys[..i + 1][..i] == keys[..i];
  }

  /** The components `parts_for` lists: rent undivided, then each utility divided among the payers. */
  function Itemize(rent: real, amounts: Amounts, payers: int): seq<RentComponent>
  {
    [RentComponent("Rent", rent, 1)] + UtilityParts(SortedKeys(amounts.Keys), amounts, payers)
  }

  /** The lines of a statement: one rent line, then one line per category with its amount and the payer count. */
  lemma ItemizeShape(rent: real, amounts: Amounts, payers: int)
    ensures var parts := Itemize(rent, amounts, payers);
      && |parts| == 1 + |amounts|
      && parts[0] == RentComponent("Rent", rent, 1)
      && forall i :: 1 <= i < |parts| ==>
           && parts[i].name in amounts
           && parts[i].total == amounts[parts[i].name]
           && parts[i].dividedAmong == payers
  {
    ItemizeLines(rent, amounts, payers);
  }

  /** The utility lines come in strictly ascending category order. */
  lemma ItemizeAscending(rent: real, amounts: Amounts, payers: int)
    ensures var parts := Itemize(rent, amounts, payers);
      forall i, j :: 1 <= i < j < |parts| ==> Below(parts[i].name, parts[j].name)
  {
    var keys := SortedKeys(amounts.Keys);
    var parts := Itemize(rent, amounts, payers);
    ItemizeLines(rent, amounts, payers);
    forall i, j | 1 <= i < j < |parts|
      ensures Below(parts[i].name, parts[j].name)
    {
      assert parts[i].name == keys[i - 1] && parts[j].name == keys[j - 1];
    }
  }

  /** Every utility category has a line. */
  lemma ItemizeCoversCategories(rent: real, amounts: Amounts, payers: int)
    ensures var parts := Itemize(rent, amounts, payers);
      forall k :: k in amounts ==> exists i :: 1 <= i < |parts| && parts[i].name == k
  {
    var keys := SortedKeys(amounts.Keys);
    var parts := Itemize(rent, amounts, payers);
    ItemizeLines(rent, amounts, payers);
    forall k | k in amounts
      ensures exists i :: 1 <= i < |parts| && parts[i].name == k
    {
      var m :| 0 <= m < |keys| && keys[m] == k;
      assert parts[m + 1].name == k;
    }
  }

  /** Line `i` of a statement, past the rent line, is the component of the `i`-th sorted category. */
  lemma ItemizeLines(rent: real, amounts: Amounts, payers: int)
    ensures var keys := SortedKeys(amounts.Keys);
      var parts := Itemize(rent, amounts, payers);
      && |parts| == 1 + |keys|
      && parts[0] == RentComponent("Rent", rent, 1)
      && forall i :: 1 <= i < |parts| ==> parts[i] == RentComponent(keys[i - 1], amounts[keys[i - 1]], payers)
  {
    var keys := SortedKeys(amounts.Keys);
    var utility := UtilityParts(keys, amounts, payers);
    var parts := [RentComponent("Rent", rent, 1)] + utility;
    assert parts == Itemize(rent, amounts, payers);
    forall i | 1 <= i < |parts|
      ensures parts[i] == RentComponent(keys[i - 1], amounts[keys[i - 1]], payers)
    {
      assert parts[i] == utility[i - 1];
    }
  }

  predicate AllDivisible(parts: seq<RentComponent>) {
    forall i :: 0 <= i < |parts| ==> parts[i].dividedAmong >= 1
  }

  /** Python's `sum(p.share for p in parts)`, added left to right. */
  function SumShares(parts: seq<RentComponent>): real
    requires AllDivisible(parts)
  {
    if parts == [] then 0.0
    else SumShares(parts[..|parts| - 1]) + Share(parts[|parts| - 1])
  }

  /** The amounts of `keys`, added in that order. */
  function SumAmounts(keys: seq<string>, amounts: Amounts): real
    requires forall k :: k in keys ==> k in amounts
  {
    if keys == [] then 0.0
    else SumAmounts(keys[..|keys| - 1], amounts) + amounts[keys[|keys| - 1]]
  }

  /** The month's utility bill: the sum of every category's amount. */
  function UtilityTotal(amounts: Amounts): real {
    SumAmounts(SortedKeys(amounts.Keys), amounts)
  }

  /** The divided utility lines together carry `1/payers` of the utility amounts. */
  lemma {:induction false} UtilitySharesSum(keys: seq<string>, amounts: Amounts, payers: int)
    requires payers >= 1
    requires forall k :: k in keys ==> k in amounts
    ensures AllDivisible(UtilityParts(keys, amounts, payers))
    ensures SumShares(UtilityParts(keys, amounts, payers)) == SumAmounts(keys, amounts) / payers as real
  {
    if keys != [] {
      var init := keys[..|keys| - 1];
      var prefix := UtilityParts(init, amounts, payers);
      var last := RentComponent(keys[|keys| - 1], amounts[keys[|keys| - 1]], payers);
      UtilitySharesSum(init, amounts, payers);
      SumSharesSnoc(prefix, last);
      AddDivided(SumAmounts(init, amounts), last.total, payers as real);
    }
  }

  lemma SumSharesSnoc(parts: seq<RentComponent>, c: RentComponent)
    requires AllDivisible(parts) && c.dividedAmong >= 1
    ensures AllDivisible(parts + [c])
    ensures SumShares(parts + [c]) == SumShares(parts) + Share(c)
  {
    assert (parts + [c])[..|parts|] == parts;
  }

  lemma AddDivided(x: real, y: real, n: real)
    requires n != 0.0
    ensures x / n + y / n == (x + y) / n
  {
  }

  /**
   * The statement total is the person's rent plus the utility bill divided
   * evenly among the payers: the two ways of computing it agree.
   */
  lemma ItemizedTotal(rent: real, amounts: Amounts, payers: int)
    requires payers >= 1
    ensures AllDivisible(Itemize(rent, amounts, payers))
    ensures SumShares(Itemize(rent, amounts, payers)) == rent + UtilityTotal(amounts) / payers as real
  {
    var keys := SortedKeys(amounts.Keys);
    var utility := UtilityParts(keys, amounts, payers);
    var parts := Itemize(rent, amounts, payers);
    UtilitySharesSum(keys, amounts, payers);
    SumSharesAppend([RentComponent("Rent", rent, 1)], utility);
    assert SumShares([RentComponent("Rent", rent, 1)]) == rent by {
      assert [RentComponent("Rent", rent, 1)][..0] == [];
    }
  }

  /** Utility amounts of a worked statement: 90 for Electric and 30 for Water. */
  const WorkedAmounts: Amounts := map["Electric" := 90.0, "Water" := 30.0]

  lemma WorkedCategories()
    ensures SortedKeys(WorkedAmounts.Keys) == ["Electric", "Water"]
  {
    assert WorkedAmounts.Keys == {"Electric", "Water"};
    SortedPair("Electric", "Water");
  }

  /** The worked statement for a rent of 1000 among three payers lists Rent, Electric, Water. */
  lemma WorkedExampleLines()
    ensures Itemize(1000.0, WorkedAmounts, 3)
            == [RentComponent("Rent", 1000.0, 1), RentComponent("Electric", 90.0, 3), RentComponent("Water", 30.0, 3)]
  {
    WorkedCategories();
    LinesOfWorkedRent(WorkedAmounts);
  }

  /** Electric at 90 and Water at 30, split three ways, follow a rent line of 1000. */
  lemma LinesOfWorkedRent(amounts: Amounts)
    requires SortedKeys(amounts.Keys) == ["Electric", "Water"]
    requires amounts["Electric"] == 90.0 && amounts["Water"] == 30.0
    ensures Itemize(1000.0, amounts, 3)
            == [RentComponent("Rent", 1000.0, 1), RentComponent("Electric", 90.0, 3), RentComponent("Water", 30.0, 3)]
  {
    ItemizeLines(1000.0, amounts, 3);
  }

  /** The worked statement's utility bill is 120. */
  lemma WorkedUtilityTotal()
    ensures UtilityTotal(WorkedAmounts) == 120.0
  {
    WorkedCategories();
    var keys := ["Electric", "Water"];
    assert keys[..1] == ["Electric"] && keys[..1][..0] == [];
    assert SumAmounts(["Electric"], WorkedAmounts) == 90.0;
  }

  /** The worked statement's utilities add 40 to the rent of 1000. */
  lemma WorkedExampleTotal()
    ensures AllDivisible(Itemize(1000.0, WorkedAmounts, 3))
    ensures SumShares(Itemize(1000.0, WorkedAmounts, 3)) == 1040.0
  {
    WorkedUtilityTotal();
    TotalOfWorkedRent(WorkedAmounts);
  }

  /** A utility bill of 120 split three ways adds 40 to a rent of 1000. */
  lemma TotalOfWorkedRent(amounts: Amounts)
    requires UtilityTotal(amounts) == 120.0
    ensures AllDivisible(Itemize(1000.0, amounts, 3))
    ensures SumShares(Itemize(1000.0, amounts, 3)) == 1040.0
  {
    ItemizedTotal(1000.0, amounts, 3);
  }

  lemma {:induction false} SumSharesAppend(a: seq<RentComponent>, b: seq<RentComponent>)
    requires AllDivisible(a) && AllDivisible(b)
    ensures AllDivisible(a + b)
    ensures SumShares(a + b) == SumShares(a) + SumShares(b)
    decreases |b|
  {
    if b != [] {
      var init := b[..|b| - 1];
      SumSharesAppend(a, init);
      assert (a + b)[..|a + b| - 1] == a + init;
    } else {
      assert a + b == a;
    }
  }

  /**
   * Python 2's `round(x, 2)` on an exact value: the nearest whole number of
   * cents, halves rounded away from zero.
   */
  function Round2(x: real): (r: real)
    ensures IsCents(r)
    ensures x >= 0.0 ==> x - 0.005 < r <= x + 0.005
    ensures x < 0.0 ==> x - 0.005 <= r < x + 0.005
  {
    if x >= 0.0 then RoundUpHalf(x)
    else
      var r := RoundUpHalf(-x);
      NegatedCents(r);
      -r
  }

  lemma NegatedCents(r: real)
    requires IsCents(r)
    ensures IsCents(-r)
  {
    var k := (r * 100.0).Floor;
    assert -r * 100.0 == (-k) as real;
  }

  /** The whole number of cents nearest to `y`, halves rounded up. */
  function RoundUpHalf(y: real): (r: real)
    ensures IsCents(r)
    ensures y - 0.005 < r <= y + 0.005
  {
    var c := (y * 100.0 + 0.5).Floor;
    assert c as real / 100.0 * 100.0 == c as real;
    c as real / 100.0
  }

  predicate IsCents(r: real) {
    (r * 100.0).Floor as real == r * 100.0
  }

  /** Rounding an amount already in whole cents changes nothing. */
  lemma Round2Idempotent(x: real)
    ensures Round2(Round2(x)) == Round2(x)
  {
    var r := Round2(x);
    var c := (r * 100.0).Floor;
    assert r == c as real / 100.0;
    if r >= 0.0 {
      assert (r * 100.0 + 0.5).Floor == c;
    } else {
      assert (-r * 100.0 + 0.5).Floor == -c;
    }
  }

  /** A header line of the reminder; the subject names the due month and the total. */
  datatype Header =
    | From(address: string)
    | To(address: string)
    | Cc(address: string)
    | Subject(dueMonth: int, total: real)

  /**
   * What `email_for` hands to the mailer: the sender, the recipients, the
   * headers, and the body as its component lines and total.
   */
  datatype Envelope = Envelope(
    sender: string,
    recipients: seq<string>,
    headers: seq<Header>,
    parts: seq<RentComponent>,
    total: real
  )
}
