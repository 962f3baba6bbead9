/** One line of a statement: a cost and how many payers split it. */
module Components {
  import opened Wrappers
  import opened Configuration

  datatype RentComponent = RentComponent(name: string, total: real, dividedAmong: int)

  /** The payer's part of a component; only a component divided among at least one payer exists. */
  function Share(c: RentComponent): (s: real)
    requires c.dividedAmong >= 1
    ensures s * c.dividedAmong as real == c.total
    ensures c.dividedAmong == 1 ==> s == c.total
  {
    var n := c.dividedAmong as real;
    if c.dividedAmong > 1 then
      assert c.total / n * n == c.total;
      c.total / n
    else
      assert n == 1.0;
      c.total
  }

  /** The `RentComponent` constructor, which rejects a divisor below one. */
  function NewComponent(name: string, total: real, dividedAmong: int): (r: Result<RentComponent, Error>)
    ensures r.Ok? <==> dividedAmong >= 1
    ensures r.Ok? ==> r.value.name == name && r.value.total == total && r.value.dividedAmong == dividedAmong
    ensures r.Err? ==> r.error == BadDivisor(dividedAmong)
  {
    if dividedAmong > 1 then Ok(RentComponent(name, total, dividedAmong))
    else if dividedAmong == 1 then Ok(RentComponent(name, total, dividedAmong))
    else Err(BadDivisor(dividedAmong))
  }

  /** Spread over all its payers, a component's shares add back up to its total. */
  lemma {:induction false} SharesCoverTotal(c: RentComponent)
    requires c.dividedAmong >= 1
    ensures SumOfCopies(Share(c), c.dividedAmong) == c.total
  {
    var s, n := Share(c), c.dividedAmong;
    SumOfCopiesIsProduct(s, n);
    ShareTimesDivisor(c);
    assert SumOfCopies(s, n) == s * n as real == c.total;
  }

  lemma ShareTimesDivisor(c: RentComponent)
    requires c.dividedAmong >= 1
    ensures Share(c) * c.dividedAmong as real == c.total
  {
  }

  /** `x + x + ... + x`, `n` times. */
  function SumOfCopies(x: real, n: nat): real {
    if n == 0 then 0.0 else SumOfCopies(x, n - 1) + x
  }

  lemma {:induction false} SumOfCopiesIsProduct(x: real, n: nat)
    ensures SumOfCopies(x, n) == x * n as real
  {
    if n > 0 {
      SumOfCopiesIsProduct(x, n - 1);
    }
  }
}
