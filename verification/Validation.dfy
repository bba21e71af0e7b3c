/** Regular-transaction rules and the fee they leave (transaction/validation.py). */
module Validation {
  import opened Prelude
  import opened Transactions
  import opened Utxo

  predicate IsValidOutput(c: Crypto, output: TxOutput) {
    output.amount > 0 && ValidAddress(c, output.recipient)
  }

  predicate WellFormedInput(input: TxInput) {
    input.previousTxId != "" && input.outputIndex >= 0 && input.publicKey != "" && input.signature != ""
  }

  /** Everything that is checked without looking at the ledger. */
  predicate WellFormed(c: Crypto, tx: Transaction) {
    && tx.version == 1
    && tx.timestamp >= 0
    && tx.inputs != []
    && tx.outputs != []
    && (forall i :: 0 <= i < |tx.outputs| ==> IsValidOutput(c, tx.outputs[i]))
    && (forall i :: 0 <= i < |tx.inputs| ==> WellFormedInput(tx.inputs[i]))
    && DistinctPoints(tx.inputs)
  }

  /** Input `i` proves ownership of the output it spends; malformed hex never does. */
  predicate Authorized(c: Crypto, tx: Transaction, i: int, output: TxOutput)
    requires 0 <= i < |tx.inputs|
  {
    var key := c.parsePublicKey(tx.inputs[i].publicKey);
    var signature := c.parseSignature(tx.inputs[i].signature);
    && key.Some?
    && signature.Some?
    && AddressOf(c, key.value) == output.recipient
    && c.verify(key.value, SigningBytes(c, tx, i), signature.value)
  }

  predicate InputOk(c: Crypto, tx: Transaction, i: int, u: Utxos)
    requires 0 <= i < |tx.inputs|
  {
    var o := tx.inputs[i].Point();
    o in u && IsValidOutput(c, u[o]) && Authorized(c, tx, i, u[o])
  }

  function AmountAt(u: Utxos, o: Outpoint): int {
    if o in u then u[o].amount else 0
  }

  /** Value of the first `n` inputs, looked up in `u`. */
  function InputTotal(inputs: seq<TxInput>, n: nat, u: Utxos): int
    requires n <= |inputs|
  {
    if n == 0 then 0 else InputTotal(inputs, n - 1, u) + AmountAt(u, inputs[n - 1].Point())
  }

  /** Value of the first `n` outputs. */
  function OutputTotal(outputs: seq<TxOutput>, n: nat): int
    requires n <= |outputs|
  {
    if n == 0 then 0 else OutputTotal(outputs, n - 1) + outputs[n - 1].amount
  }

  function Fee(tx: Transaction, u: Utxos): int {
    InputTotal(tx.inputs, |tx.inputs|, u) - OutputTotal(tx.outputs, |tx.outputs|)
  }

  /** `validate_transaction`: structure, ownership, signatures and value against a view. */
  predicate Valid(c: Crypto, tx: Transaction, u: Utxos) {
    && WellFormed(c, tx)
    && (forall i :: 0 <= i < |tx.inputs| ==> InputOk(c, tx, i, u))
    && Fee(tx, u) >= 0
  }

  /** First loop of `_validated_fee`: every input is well formed and no outpoint repeats. */
  method CheckInputs(inputs: seq<TxInput>) returns (ok: bool)
    ensures ok <==> (forall i :: 0 <= i < |inputs| ==> WellFormedInput(inputs[i])) && DistinctPoints(inputs)
  {
    var seen: set<Outpoint> := {};
    for i := 0 to |inputs|
      invariant seen == PointSet(inputs, i)
      invariant forall j :: 0 <= j < i ==> WellFormedInput(inputs[j])
      invariant forall j, k :: 0 <= j < k < i ==> inputs[j].Point() != inputs[k].Point()
    {
      if !WellFormedInput(inputs[i]) {
        return false;
      }
      var outpoint := inputs[i].Point();
      PointMembers(inputs, i);
      if outpoint in seen {
        return false;
      }
      seen := seen + {outpoint};
    }
    ok := true;
  }

  /** Second loop of `_validated_fee`: ownership of every input, and their total value. */
  method TotalInputs(c: Crypto, tx: Transaction, u: Utxos) returns (total: Option<int>)
    ensures total.Some? <==> forall i :: 0 <= i < |tx.inputs| ==> InputOk(c, tx, i, u)
    ensures total.Some? ==> total.value == InputTotal(tx.inputs, |tx.inputs|, u)
  {
    var sum := 0;
    for i := 0 to |tx.inputs|
      invariant forall j :: 0 <= j < i ==> InputOk(c, tx, j, u)
      invariant sum == InputTotal(tx.inputs, i, u)
    {
      if !InputOk(c, tx, i, u) {
        return None;
      }
      sum := sum + u[tx.inputs[i].Point()].amount;
    }
    total := Some(sum);
  }

  /** The loops of `_validated_fee` return a fee exactly for valid transactions. */
  method ValidatedFee(c: Crypto, tx: Transaction, u: Utxos) returns (fee: Option<int>)
    ensures fee == if Valid(c, tx, u) then Some(Fee(tx, u)) else None
  {
    if tx.version != 1 || tx.timestamp < 0 || tx.inputs == [] || tx.outputs == []
       || !(forall i :: 0 <= i < |tx.outputs| ==> IsValidOutput(c, tx.outputs[i])) {
      return None;
    }
    var shaped := CheckInputs(tx.inputs);
    if !shaped {
      return None;
    }
    var total := TotalInputs(c, tx, u);
    if total.None? {
      return None;
    }
    var rest := total.value - OutputTotal(tx.outputs, |tx.outputs|);
    fee := if rest >= 0 then Some(rest) else None;
  }

  /** Two views that agree on the inputs of a transaction. */
  ghost predicate AgreeOn(points: set<Outpoint>, u: Utxos, v: Utxos) {
    forall o :: o in points ==> (o in u <==> o in v) && (o in u ==> u[o] == v[o])
  }

  lemma {:induction false} InputTotalLocal(inputs: seq<TxInput>, n: nat, points: set<Outpoint>, u: Utxos, v: Utxos)
    requires n <= |inputs| && AgreeOn(points, u, v)
    requires forall i :: 0 <= i < |inputs| ==> inputs[i].Point() in points
    ensures InputTotal(inputs, n, u) == InputTotal(inputs, n, v)
  {
    if n > 0 {
      InputTotalLocal(inputs, n - 1, points, u, v);
    }
  }

  /** Validity and fee only look at the outputs a transaction spends. */
  lemma ValidLocal(c: Crypto, tx: Transaction, u: Utxos, v: Utxos)
    requires AgreeOn(Points(tx), u, v)
    ensures Valid(c, tx, u) <==> Valid(c, tx, v)
    ensures Fee(tx, u) == Fee(tx, v)
  {
    PointMembers(tx.inputs, |tx.inputs|);
    InputTotalLocal(tx.inputs, |tx.inputs|, Points(tx), u, v);
    forall i | 0 <= i < |tx.inputs| ensures InputOk(c, tx, i, u) <==> InputOk(c, tx, i, v) {
      assert tx.inputs[i].Point() in Points(tx);
    }
  }

  /** A valid transaction finds every output it spends. */
  lemma ValidPoints(c: Crypto, tx: Transaction, u: Utxos)
    requires Valid(c, tx, u)
    ensures Points(tx) <= u.Keys && Points(tx) != {} && DistinctPoints(tx.inputs)
  {
    PointMembers(tx.inputs, |tx.inputs|);
    forall o | o in Points(tx) ensures o in u {
      var i :| 0 <= i < |tx.inputs| && tx.inputs[i].Point() == o;
      assert InputOk(c, tx, i, u);
    }
    assert tx.inputs[0].Point() in Points(tx);
  }

  /** A view extended without touching the inputs keeps a valid transaction valid, at the same fee. */
  lemma ValidMonotone(c: Crypto, tx: Transaction, u: Utxos, v: Utxos)
    requires Valid(c, tx, u)
    requires forall o :: o in Points(tx) && o in u ==> o in v && v[o] == u[o]
    ensures Valid(c, tx, v) && Fee(tx, v) == Fee(tx, u)
  {
    ValidPoints(c, tx, u);
    ValidLocal(c, tx, u, v);
  }
}
