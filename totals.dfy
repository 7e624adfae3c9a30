/** The total amount of money held in the store, and how single-account
    writes change it. */
module Totals {
  import opened Accounts

  ghost function PickKey(s: Store): (k: string)
    requires s != map[]
    ensures k in s
  {
    var k :| k in s; k
  }

  /** The sum of the balances of all stored accounts. */
  ghost function Total(s: Store): int
    decreases |s|
  {
    if s == map[] then 0
    else
      var k := PickKey(s);
      assert |s - {k}| < |s| by { RemoveShrinks(s, k); }
      s[k].balance + Total(s - {k})
  }

  lemma RemoveShrinks(s: Store, k: string)
    requires k in s
    ensures |s - {k}| == |s| - 1
  {
  }

  /** The total does not depend on which account the sum visits first. */
  lemma {:induction false} TotalRemove(s: Store, k: string)
    requires k in s
    ensures Total(s) == s[k].balance + Total(s - {k})
    decreases |s|
  {
    var j := PickKey(s);
    if j != k {
      RemoveShrinks(s, j);
      RemoveShrinks(s, k);
      TotalRemove(s - {j}, k);
      TotalRemove(s - {k}, j);
      assert s - {j} - {k} == s - {k} - {j};
    }
  }

  /** Overwriting one stored account changes the total by exactly the change
      of that account's balance. */
  lemma TotalUpdate(s: Store, k: string, a: Account)
    requires k in s
    ensures Total(s[k := a]) == Total(s) - s[k].balance + a.balance
  {
    TotalRemove(s[k := a], k);
    TotalRemove(s, k);
    assert s[k := a] - {k} == s - {k};
  }

  /** Adding a new account adds its balance to the total. */
  lemma TotalInsert(s: Store, k: string, a: Account)
    requires k !in s
    ensures Total(s[k := a]) == Total(s) + a.balance
  {
    TotalRemove(s[k := a], k);
    assert s[k := a] - {k} == s;
  }
}
