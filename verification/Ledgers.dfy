/** Amounts by player in insertion order, as the engine's maps keep them. */
module Ledgers {
  import opened Seqs

  datatype Entry = Entry(key: nat, amount: int)
  type Ledger = seq<Entry>

  function Get(m: Ledger, key: nat): int {
    if m == [] then 0 else if m[0].key == key then m[0].amount else Get(m[1..], key)
  }

  function Add(m: Ledger, key: nat, amount: int): Ledger {
    if m == [] then [Entry(key, amount)]
    else if m[0].key == key then [Entry(key, m[0].amount + amount)] + m[1..]
    else [m[0]] + Add(m[1..], key, amount)
  }

  function Total(m: Ledger): int {
    if m == [] then 0 else m[0].amount + Total(m[1..])
  }

  /** Adding an amount changes one balance and the total by exactly that amount. */
  lemma {:induction false} AddChangesOne(m: Ledger, key: nat, amount: int)
    ensures Total(Add(m, key, amount)) == Total(m) + amount
    ensures forall k: nat :: Get(Add(m, key, amount), k) == Get(m, k) + (if k == key then amount else 0)
  {
    if m != [] && m[0].key != key {
      AddChangesOne(m[1..], key, amount);
      assert Add(m, key, amount)[1..] == Add(m[1..], key, amount);
    } else if m != [] {
      assert Add(m, key, amount)[1..] == m[1..];
    }
  }

  /** Adding every entry of one ledger to another. */
  function AddAll(m: Ledger, more: Ledger): Ledger
    decreases |more|
  {
    if more == [] then m else AddAll(Add(m, more[0].key, more[0].amount), more[1..])
  }

  predicate UniqueKeys(m: Ledger) {
    forall i, j :: 0 <= i < j < |m| ==> m[i].key != m[j].key
  }

  lemma {:induction false} AddAllSums(m: Ledger, more: Ledger)
    requires UniqueKeys(more)
    ensures Total(AddAll(m, more)) == Total(m) + Total(more)
    ensures forall k: nat :: Get(AddAll(m, more), k) == Get(m, k) + Get(more, k)
    decreases |more|
  {
    if more != [] {
      AddChangesOne(m, more[0].key, more[0].amount);
      AddAllSums(Add(m, more[0].key, more[0].amount), more[1..]);
      AbsentKey(more[1..], more[0].key);
    }
  }

  lemma {:induction false} AbsentKey(m: Ledger, key: nat)
    requires forall i :: 0 <= i < |m| ==> m[i].key != key
    ensures Get(m, key) == 0
  {
    if m != [] {
      AbsentKey(m[1..], key);
    }
  }

  lemma {:induction false} AddKeepsKeysUnique(m: Ledger, key: nat, amount: int)
    requires UniqueKeys(m)
    ensures UniqueKeys(Add(m, key, amount))
    ensures forall e: Entry :: e in Add(m, key, amount) ==> e.key == key || e in m
  {
    if m != [] && m[0].key != key {
      AddKeepsKeysUnique(m[1..], key, amount);
      var rest := Add(m[1..], key, amount);
      forall i | 0 <= i < |rest| ensures rest[i].key != m[0].key {
        assert rest[i] in rest;
      }
    }
  }

  /** Every amount belongs to one of the listed keys. */
  ghost predicate Within(m: Ledger, keys: seq<nat>) {
    UniqueKeys(m) && forall i :: 0 <= i < |m| ==> m[i].key in keys
  }

  lemma {:induction false} AddStaysWithin(m: Ledger, key: nat, amount: int, keys: seq<nat>)
    requires Within(m, keys) && key in keys
    ensures Within(Add(m, key, amount), keys)
  {
    AddKeepsKeysUnique(m, key, amount);
    var r := Add(m, key, amount);
    forall i | 0 <= i < |r| ensures r[i].key in keys {
      assert r[i] in r;
    }
  }

  lemma {:induction false} AddAllStaysWithin(m: Ledger, more: Ledger, keys: seq<nat>)
    requires Within(m, keys) && Within(more, keys)
    ensures Within(AddAll(m, more), keys)
    decreases |more|
  {
    if more != [] {
      AddStaysWithin(m, more[0].key, more[0].amount, keys);
      AddAllStaysWithin(Add(m, more[0].key, more[0].amount), more[1..], keys);
    }
  }

  function SumOver(m: Ledger, keys: seq<nat>): int {
    if keys == [] then 0 else Get(m, keys[0]) + SumOver(m, keys[1..])
  }

  /** The balances of all the keys add up to the total. */
  lemma {:induction false} BalancesAddUp(m: Ledger, keys: seq<nat>)
    requires Within(m, keys) && Distinct(keys)
    ensures SumOver(m, keys) == Total(m)
  {
    if m == [] {
      NoBalances(keys);
    } else {
      assert m[0].key in keys;
      BalancesAddUp(m[1..], keys);
      AbsentKey(m[1..], m[0].key);
      DropFirst(m, keys);
    }
  }

  lemma {:induction false} NoBalances(keys: seq<nat>)
    ensures SumOver([], keys) == 0
  {
    if keys != [] {
      NoBalances(keys[1..]);
    }
  }

  lemma {:induction false} DropFirst(m: Ledger, keys: seq<nat>)
    requires m != [] && Get(m[1..], m[0].key) == 0 && Distinct(keys)
    ensures SumOver(m, keys) == SumOver(m[1..], keys) + (if m[0].key in keys then m[0].amount else 0)
  {
    if keys != [] {
      assert forall k :: 0 <= k < |keys[1..]| ==> keys[1..][k] == keys[k + 1];
      DropFirst(m, keys[1..]);
      assert keys[0] !in keys[1..];
    }
  }
}
