// The balance arithmetic of the ledger (src/services/transaction_service.rs):
// the two UPDATE statements that apply a transaction's effect to the
// accounts table and the two that reverse it, as functions on the table,
// and the sums that state double entry.

module Balances {
  import opened Uuids
  import opened Schema

  type Accounts = map<Uuid, Account>

  function Abs(x: real): (r: real)
    ensures r >= 0.0 && (r == x || r == -x)
  {
    if x >= 0.0 then x else -x
  }

  /** `UPDATE accounts SET balance = balance + delta WHERE id = $id`: the
      row with that id changes and nothing else; no row, no change. */
  function Adjust(accts: Accounts, id: Uuid, delta: real): (r: Accounts)
    ensures r.Keys == accts.Keys
    ensures forall a :: a in accts && a != id ==> r[a] == accts[a]
    ensures id in accts ==> r[id] == accts[id].(balance := accts[id].balance + delta)
  {
    if id in accts then accts[id := accts[id].(balance := accts[id].balance + delta)] else accts
  }

  /** `apply_transaction_balance_effects` (and the same two UPDATEs in
      `create_transaction`): a non-negative amount moves |amount| from the
      source to the destination, a negative one moves it back. */
  function ApplyEffect(accts: Accounts, source: Uuid, destination: Uuid, amount: real): Accounts {
    var abs := Abs(amount);
    if amount >= 0.0 then Adjust(Adjust(accts, source, -abs), destination, abs)
    else Adjust(Adjust(accts, source, abs), destination, -abs)
  }

  /** `reverse_transaction_balance_effects`: the same two rows with the
      opposite signs. */
  function ReverseEffect(accts: Accounts, t: Transaction): Accounts {
    var abs := Abs(t.amount);
    if t.amount >= 0.0 then Adjust(Adjust(accts, t.sourceAccountId, abs), t.destinationAccountId, -abs)
    else Adjust(Adjust(accts, t.sourceAccountId, -abs), t.destinationAccountId, abs)
  }

  /** What a transaction from `source` to `destination` does to account `a`:
      the source loses `amount`, the destination gains it. */
  function Delta(source: Uuid, destination: Uuid, amount: real, a: Uuid): real {
    (if a == destination then amount else 0.0) - (if a == source then amount else 0.0)
  }

  /** The effect does not depend on the sign branch: every account changes by
      its `Delta`, whatever the sign of the amount, and nothing else changes. */
  lemma ApplyEffectIsDelta(accts: Accounts, source: Uuid, destination: Uuid, amount: real)
    ensures ApplyEffect(accts, source, destination, amount).Keys == accts.Keys
    ensures forall a :: a in accts ==>
      ApplyEffect(accts, source, destination, amount)[a]
        == accts[a].(balance := accts[a].balance + Delta(source, destination, amount, a))
  {
  }

  lemma ReverseEffectIsDelta(accts: Accounts, t: Transaction)
    ensures ReverseEffect(accts, t).Keys == accts.Keys
    ensures forall a :: a in accts ==>
      ReverseEffect(accts, t)[a]
        == accts[a].(balance := accts[a].balance - Delta(t.sourceAccountId, t.destinationAccountId, t.amount, a))
  {
  }

  /** Double entry: the source's change and the destination's change sum to zero. */
  lemma DeltasCancel(source: Uuid, destination: Uuid, amount: real)
    requires source != destination
    ensures Delta(source, destination, amount, source) == -amount
    ensures Delta(source, destination, amount, destination) == amount
    ensures Delta(source, destination, amount, source) + Delta(source, destination, amount, destination) == 0.0
    ensures forall a :: a != source && a != destination ==> Delta(source, destination, amount, a) == 0.0
  {
  }

  /** Reversing is the exact inverse of applying, in both orders. */
  lemma ReverseAfterApply(accts: Accounts, t: Transaction)
    ensures ReverseEffect(ApplyEffect(accts, t.sourceAccountId, t.destinationAccountId, t.amount), t) == accts
  {
    var s, d, x := t.sourceAccountId, t.destinationAccountId, t.amount;
    var applied := ApplyEffect(accts, s, d, x);
    ApplyEffectIsDelta(accts, s, d, x);
    ReverseEffectIsDelta(applied, t);
    var back := ReverseEffect(applied, t);
    forall a | a in accts
      ensures back[a] == accts[a]
    {
      assert applied[a].balance == accts[a].balance + Delta(s, d, x, a);
    }
  }

  lemma ApplyAfterReverse(accts: Accounts, t: Transaction)
    ensures ApplyEffect(ReverseEffect(accts, t), t.sourceAccountId, t.destinationAccountId, t.amount) == accts
  {
    var s, d, x := t.sourceAccountId, t.destinationAccountId, t.amount;
    var reversed := ReverseEffect(accts, t);
    ReverseEffectIsDelta(accts, t);
    ApplyEffectIsDelta(reversed, s, d, x);
    var forth := ApplyEffect(reversed, s, d, x);
    forall a | a in accts
      ensures forth[a] == accts[a]
    {
      assert reversed[a].balance == accts[a].balance - Delta(s, d, x, a);
    }
  }

  lemma ReverseUndoesApply(accts: Accounts, t: Transaction)
    ensures ReverseEffect(ApplyEffect(accts, t.sourceAccountId, t.destinationAccountId, t.amount), t) == accts
    ensures ApplyEffect(ReverseEffect(accts, t), t.sourceAccountId, t.destinationAccountId, t.amount) == accts
  {
    ReverseAfterApply(accts, t);
    ApplyAfterReverse(accts, t);
  }


  /** The sum of a finite map's values. */
  ghost function SumValues<K>(m: map<K, real>): real
    decreases |m|
  {
    if m == map[] then 0.0
    else
      var k :| k in m;
      m[k] + SumValues(m - {k})
  }

  lemma {:induction false} SumRemove<K>(m: map<K, real>, k: K)
    requires k in m
    ensures SumValues(m) == m[k] + SumValues(m - {k})
    decreases |m|
  {
    var j :| j in m && SumValues(m) == m[j] + SumValues(m - {j});
    if j != k {
      SumRemove(m - {j}, k);
      SumRemove(m - {k}, j);
      assert (m - {j}) - {k} == (m - {k}) - {j};
      assert (m - {j})[k] == m[k] && (m - {k})[j] == m[j];
    }
  }

  lemma SumUpdate<K>(m: map<K, real>, k: K, v: real)
    ensures k in m ==> SumValues(m[k := v]) == SumValues(m) - m[k] + v
    ensures k !in m ==> SumValues(m[k := v]) == SumValues(m) + v
  {
    SumRemove(m[k := v], k);
    assert m[k := v] - {k} == m - {k};
    if k in m {
      SumRemove(m, k);
    } else {
      assert m - {k} == m;
    }
  }

  lemma {:induction false} SumOfZeros<K>(m: map<K, real>)
    requires forall k :: k in m ==> m[k] == 0.0
    ensures SumValues(m) == 0.0
    decreases |m|
  {
    if m != map[] {
      var k :| k in m;
      SumRemove(m, k);
      SumOfZeros(m - {k});
    }
  }

  function BalanceMap(accts: Accounts): (m: map<Uuid, real>)
    ensures m.Keys == accts.Keys
    ensures forall a :: a in accts ==> m[a] == accts[a].balance
  {
    map a | a in accts :: accts[a].balance
  }

  /** Sum of all balances. */
  ghost function TotalBalance(accts: Accounts): real {
    SumValues(BalanceMap(accts))
  }

  lemma AdjustTotal(accts: Accounts, id: Uuid, delta: real)
    requires id in accts
    ensures TotalBalance(Adjust(accts, id, delta)) == TotalBalance(accts) + delta
  {
    var before := BalanceMap(accts);
    var r := Adjust(accts, id, delta);
    assert BalanceMap(r) == before[id := accts[id].balance + delta];
    SumUpdate(before, id, accts[id].balance + delta);
  }

  /** Applying an effect between two existing accounts leaves the sum of
      all balances unchanged. */
  lemma ApplyPreservesTotal(accts: Accounts, source: Uuid, destination: Uuid, amount: real)
    requires source in accts && destination in accts
    ensures TotalBalance(ApplyEffect(accts, source, destination, amount)) == TotalBalance(accts)
  {
    var x := Abs(amount);
    if amount >= 0.0 {
      TransferTotal(accts, source, destination, x);
    } else {
      TransferTotal(accts, source, destination, -x);
      assert Adjust(accts, source, -(-x)) == Adjust(accts, source, x);
    }
  }

  lemma ReversePreservesTotal(accts: Accounts, t: Transaction)
    requires t.sourceAccountId in accts && t.destinationAccountId in accts
    ensures TotalBalance(ReverseEffect(accts, t)) == TotalBalance(accts)
  {
    var x := Abs(t.amount);
    if t.amount >= 0.0 {
      TransferTotal(accts, t.sourceAccountId, t.destinationAccountId, -x);
      assert Adjust(accts, t.sourceAccountId, -(-x)) == Adjust(accts, t.sourceAccountId, x);
    } else {
      TransferTotal(accts, t.sourceAccountId, t.destinationAccountId, x);
    }
  }

  lemma TransferTotal(accts: Accounts, s: Uuid, d: Uuid, x: real)
    requires s in accts && d in accts
    ensures TotalBalance(Adjust(Adjust(accts, s, -x), d, x)) == TotalBalance(accts)
  {
    var mid := Adjust(accts, s, -x);
    AdjustTotal(accts, s, -x);
    AdjustTotal(mid, d, x);
  }

  lemma NewAccountTotal(accts: Accounts, id: Uuid, acct: Account)
    requires id !in accts && acct.balance == 0.0
    ensures TotalBalance(accts[id := acct]) == TotalBalance(accts)
  {
    var before := BalanceMap(accts);
    assert BalanceMap(accts[id := acct]) == before[id := 0.0];
    SumUpdate(before, id, 0.0);
  }

  type Transactions = map<Uuid, Transaction>

  function FlowMap(txs: Transactions, a: Uuid): (m: map<Uuid, real>)
    ensures m.Keys == txs.Keys
    ensures forall k :: k in txs ==> m[k] == Delta(txs[k].sourceAccountId, txs[k].destinationAccountId, txs[k].amount, a)
  {
    map k | k in txs :: Delta(txs[k].sourceAccountId, txs[k].destinationAccountId, txs[k].amount, a)
  }

  /** What all recorded transactions together have done to account `a`. */
  ghost function NetFlow(txs: Transactions, a: Uuid): real
    decreases |txs|
  {
    if txs == map[] then 0.0
    else
      var k :| k in txs;
      Delta(txs[k].sourceAccountId, txs[k].destinationAccountId, txs[k].amount, a) + NetFlow(txs - {k}, a)
  }

  /** The net flow is the sum of the per-transaction deltas, whatever the
      order of summation. */
  lemma {:induction false} NetFlowIsSum(txs: Transactions, a: Uuid)
    ensures NetFlow(txs, a) == SumValues(FlowMap(txs, a))
    decreases |txs|
  {
    if txs == map[] {
      assert FlowMap(txs, a) == map[];
    } else {
      var k :| k in txs && NetFlow(txs, a)
        == Delta(txs[k].sourceAccountId, txs[k].destinationAccountId, txs[k].amount, a) + NetFlow(txs - {k}, a);
      NetFlowIsSum(txs - {k}, a);
      SumRemove(FlowMap(txs, a), k);
      assert FlowMap(txs, a) - {k} == FlowMap(txs - {k}, a);
    }
  }

  lemma NetFlowUpdate(txs: Transactions, t: Transaction, a: Uuid)
    ensures t.id !in txs ==>
      NetFlow(txs[t.id := t], a) == NetFlow(txs, a) + Delta(t.sourceAccountId, t.destinationAccountId, t.amount, a)
    ensures t.id in txs ==>
      NetFlow(txs[t.id := t], a) == NetFlow(txs, a)
        - Delta(txs[t.id].sourceAccountId, txs[t.id].destinationAccountId, txs[t.id].amount, a)
        + Delta(t.sourceAccountId, t.destinationAccountId, t.amount, a)
  {
    NetFlowIsSum(txs, a);
    NetFlowIsSum(txs[t.id := t], a);
    var f := FlowMap(txs, a);
    assert FlowMap(txs[t.id := t], a) == f[t.id := Delta(t.sourceAccountId, t.destinationAccountId, t.amount, a)];
    SumUpdate(f, t.id, Delta(t.sourceAccountId, t.destinationAccountId, t.amount, a));
  }

  lemma NetFlowRemove(txs: Transactions, id: Uuid, a: Uuid)
    requires id in txs
    ensures NetFlow(txs - {id}, a)
      == NetFlow(txs, a) - Delta(txs[id].sourceAccountId, txs[id].destinationAccountId, txs[id].amount, a)
  {
    NetFlowIsSum(txs, a);
    NetFlowIsSum(txs - {id}, a);
    var f := FlowMap(txs, a);
    assert FlowMap(txs - {id}, a) == f - {id};
    SumRemove(f, id);
  }

  /** An account that no transaction mentions has no net flow. */
  lemma NetFlowUnreferenced(txs: Transactions, a: Uuid)
    requires forall k :: k in txs ==> txs[k].sourceAccountId != a && txs[k].destinationAccountId != a
    ensures NetFlow(txs, a) == 0.0
  {
    NetFlowIsSum(txs, a);
    SumOfZeros(FlowMap(txs, a));
  }

  /** Double entry: every balance is its opening balance plus the net flow
      of the recorded transactions. */
  ghost predicate Balanced(accts: Accounts, opening: map<Uuid, real>, txs: Transactions) {
    && opening.Keys == accts.Keys
    && forall a :: a in accts ==> accts[a].balance == opening[a] + NetFlow(txs, a)
  }

  /** Rewriting fields other than the two accounts and the amount does not
      change any net flow. */
  lemma NetFlowIgnoresOtherFields(txs: Transactions, txs': Transactions, a: Uuid)
    requires txs'.Keys == txs.Keys
    requires forall k :: k in txs ==>
      && txs'[k].sourceAccountId == txs[k].sourceAccountId
      && txs'[k].destinationAccountId == txs[k].destinationAccountId
      && txs'[k].amount == txs[k].amount
    ensures NetFlow(txs', a) == NetFlow(txs, a)
  {
    NetFlowIsSum(txs, a);
    NetFlowIsSum(txs', a);
    assert FlowMap(txs', a) == FlowMap(txs, a);
  }

  lemma BalancedIgnoresOtherFields(accts: Accounts, opening: map<Uuid, real>, txs: Transactions, txs': Transactions)
    requires Balanced(accts, opening, txs)
    requires txs'.Keys == txs.Keys
    requires forall k :: k in txs ==>
      && txs'[k].sourceAccountId == txs[k].sourceAccountId
      && txs'[k].destinationAccountId == txs[k].destinationAccountId
      && txs'[k].amount == txs[k].amount
    ensures Balanced(accts, opening, txs')
  {
    forall a | a in accts
      ensures NetFlow(txs', a) == NetFlow(txs, a)
    {
      NetFlowIgnoresOtherFields(txs, txs', a);
    }
  }

  /** A new account with balance zero that no transaction mentions keeps
      double entry with opening balance zero. */
  lemma BalancedAfterNewAccount(accts: Accounts, opening: map<Uuid, real>, txs: Transactions, id: Uuid, acct: Account)
    requires Balanced(accts, opening, txs)
    requires id !in accts && acct.balance == 0.0
    requires forall k :: k in txs ==> txs[k].sourceAccountId != id && txs[k].destinationAccountId != id
    ensures Balanced(accts[id := acct], opening[id := 0.0], txs)
  {
    NetFlowUnreferenced(txs, id);
  }

  /** Recording a new transaction and applying its effect keeps double entry. */
  lemma BalancedAfterRecord(accts: Accounts, opening: map<Uuid, real>, txs: Transactions, t: Transaction)
    requires Balanced(accts, opening, txs)
    requires t.id !in txs
    ensures Balanced(ApplyEffect(accts, t.sourceAccountId, t.destinationAccountId, t.amount), opening, txs[t.id := t])
  {
    var accts' := ApplyEffect(accts, t.sourceAccountId, t.destinationAccountId, t.amount);
    ApplyEffectIsDelta(accts, t.sourceAccountId, t.destinationAccountId, t.amount);
    forall a | a in accts'
      ensures accts'[a].balance == opening[a] + NetFlow(txs[t.id := t], a)
    {
      NetFlowUpdate(txs, t, a);
    }
  }

  /** Removing a recorded transaction and reversing its effect keeps double
      entry. */
  lemma BalancedAfterRemove(accts: Accounts, opening: map<Uuid, real>, txs: Transactions, id: Uuid)
    requires Balanced(accts, opening, txs)
    requires id in txs
    ensures Balanced(ReverseEffect(accts, txs[id]), opening, txs - {id})
  {
    var accts' := ReverseEffect(accts, txs[id]);
    ReverseEffectIsDelta(accts, txs[id]);
    forall a | a in accts'
      ensures accts'[a].balance == opening[a] + NetFlow(txs - {id}, a)
    {
      NetFlowRemove(txs, id, a);
    }
  }
}
