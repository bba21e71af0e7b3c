/** The set of unspent outputs (transaction/utxo.py). */
module Utxo {
  import opened Prelude
  import opened Transactions

  type Utxos = map<Outpoint, TxOutput>

  /** The first `n` outpoints under one transaction identifier. */
  function OutpointSet(txid: string, n: nat): (r: set<Outpoint>)
    ensures forall o :: o in r <==> o.txid == txid && 0 <= o.index < n
  {
    if n == 0 then {} else OutpointSet(txid, n - 1) + {Outpoint(txid, n - 1)}
  }

  /** The outpoints a transaction identified by `txid` brings into existence. */
  function OutputsOf(txid: string, outputs: seq<TxOutput>): (r: Utxos)
    ensures forall o :: o in r <==> o.txid == txid && 0 <= o.index < |outputs|
    ensures forall o :: o in r ==> r[o] == outputs[o.index]
  {
    map o: Outpoint | o in OutpointSet(txid, |outputs|) :: outputs[o.index]
  }

  function Created(c: Crypto, tx: Transaction): Utxos {
    OutputsOf(TxId(c, tx), tx.outputs)
  }

  predicate DistinctPoints(inputs: seq<TxInput>) {
    forall i, j :: 0 <= i < j < |inputs| ==> inputs[i].Point() != inputs[j].Point()
  }

  /** Which updates `apply_valid_transaction` performs instead of raising. */
  predicate CanApply(c: Crypto, u: Utxos, tx: Transaction) {
    && DistinctPoints(tx.inputs)
    && Points(tx) <= u.Keys
    && Created(c, tx).Keys !! u.Keys
  }

  /** The set after a transaction that can be applied: its inputs leave, its outputs enter. */
  function Applied(c: Crypto, u: Utxos, tx: Transaction): Utxos {
    (u - Points(tx)) + Created(c, tx)
  }

  class UTXOSet {
    var utxos: Utxos

    constructor ()
      ensures utxos == map[]
    {
      utxos := map[];
    }

    constructor FromMap(contents: Utxos)
      ensures utxos == contents
    {
      utxos := contents;
    }

    method Copy() returns (snapshot: UTXOSet)
      ensures fresh(snapshot) && snapshot.utxos == utxos
    {
      snapshot := new UTXOSet.FromMap(utxos);
    }

    /** False stands for the ValueError raised on a taken outpoint. */
    method Add(txid: string, index: int, output: TxOutput) returns (ok: bool)
      modifies this
      ensures ok == (Outpoint(txid, index) !in old(utxos))
      ensures utxos == if ok then old(utxos)[Outpoint(txid, index) := output] else old(utxos)
    {
      ok := Outpoint(txid, index) !in utxos;
      if ok {
        utxos := utxos[Outpoint(txid, index) := output];
      }
    }

    /** None stands for the KeyError raised on a missing outpoint. */
    method Spend(txid: string, index: int) returns (output: Option<TxOutput>)
      modifies this
      ensures output.Some? <==> Outpoint(txid, index) in old(utxos)
      ensures output.Some? ==> output.value == old(utxos)[Outpoint(txid, index)]
      ensures utxos == old(utxos) - {Outpoint(txid, index)}
    {
      output := None;
      if Outpoint(txid, index) in utxos {
        output := Some(utxos[Outpoint(txid, index)]);
        utxos := utxos - {Outpoint(txid, index)};
      }
    }

    /** All outputs are checked before any is added, so a collision adds no prefix. */
    method AddTransactionOutputs(c: Crypto, tx: Transaction) returns (ok: bool)
      modifies this
      ensures ok == (Created(c, tx).Keys !! old(utxos).Keys)
      ensures utxos == if ok then old(utxos) + Created(c, tx) else old(utxos)
    {
      ok := Created(c, tx).Keys !! utxos.Keys;
      if ok {
        utxos := utxos + Created(c, tx);
      }
    }

    /** Apply an already validated transaction completely or not at all. */
    method ApplyValidTransaction(c: Crypto, tx: Transaction) returns (ok: bool)
      modifies this
      ensures ok == CanApply(c, old(utxos), tx)
      ensures utxos == if ok then Applied(c, old(utxos), tx) else old(utxos)
    {
      hide OutputsOf;
      var spendable := CheckSpendable(utxos, tx.inputs);
      if !spendable {
        return false;
      }
      if !(Created(c, tx).Keys !! utxos.Keys) {
        return false;
      }
      var updated := RemoveAll(utxos, tx.inputs);
      utxos := updated + Created(c, tx);
      ok := true;
    }
  }

  /** No outpoint is spent twice, and each is present. */
  method CheckSpendable(u: Utxos, inputs: seq<TxInput>) returns (ok: bool)
    ensures ok <==> DistinctPoints(inputs) && PointSet(inputs, |inputs|) <= u.Keys
  {
    PointMembers(inputs, |inputs|);
    var seen: set<Outpoint> := {};
    for i := 0 to |inputs|
      invariant seen == PointSet(inputs, i)
      invariant forall j, k :: 0 <= j < k < i ==> inputs[j].Point() != inputs[k].Point()
    {
      PointMembers(inputs, i);
      if inputs[i].Point() in seen {
        return false;
      }
      seen := seen + {inputs[i].Point()};
    }
    for i := 0 to |inputs|
      invariant forall j :: 0 <= j < i ==> inputs[j].Point() in u
    {
      if inputs[i].Point() !in u {
        return false;
      }
    }
    ok := true;
  }

  /** The loop that deletes the spent outpoints from a private copy. */
  method RemoveAll(u: Utxos, inputs: seq<TxInput>) returns (updated: Utxos)
    ensures updated == u - PointSet(inputs, |inputs|)
  {
    updated := u;
    for i := 0 to |inputs|
      invariant updated == u - PointSet(inputs, i)
    {
      updated := updated - {inputs[i].Point()};
    }
  }
}
