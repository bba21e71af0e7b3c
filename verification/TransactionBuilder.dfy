/** Building and signing a transfer input by input (wallet/transaction_builder.py, transaction/transaction.py). */
module TransactionBuilder {
  import opened Prelude
  import opened Transactions
  import opened CoinSelection

  const SIGNATURE_HEX_LENGTH: nat := 128

  datatype Built = Signed(transaction: Transaction) | Refused | TooLarge

  /** `sign_input`: fill in the key first, then sign the bytes that cover it. */
  function SignedInput(c: Crypto, tx: Transaction, i: nat, key: Bytes): TxInput
    requires i < |tx.inputs|
  {
    var keyed := tx.inputs[i].(publicKey := c.toHex(c.publicKeyOf(key)));
    var message := SigningBytes(c, tx.(inputs := tx.inputs[i := keyed]), i);
    keyed.(signature := c.toHex(c.sign(key, message)))
  }

  function SignOne(c: Crypto, tx: Transaction, i: nat, key: Bytes): Transaction
    requires i < |tx.inputs|
  {
    tx.(inputs := tx.inputs[i := SignedInput(c, tx, i, key)])
  }

  /** The first `n` inputs signed in turn. */
  function SignFirst(c: Crypto, tx: Transaction, n: nat, key: Bytes): (r: Transaction)
    requires n <= |tx.inputs|
    ensures |r.inputs| == |tx.inputs|
  {
    if n == 0 then tx else SignOne(c, SignFirst(c, tx, n - 1, key), n - 1, key)
  }

  /** Two versions of a transaction that differ only in keys and signatures. */
  ghost predicate SameShape(a: Transaction, b: Transaction) {
    && a.outputs == b.outputs && a.timestamp == b.timestamp && a.version == b.version
    && |a.inputs| == |b.inputs|
    && forall i :: 0 <= i < |a.inputs| ==> a.inputs[i].Point() == b.inputs[i].Point()
  }

  /** What input `i` signs depends only on the shape and on its own public key. */
  lemma SigningBytesLocal(c: Crypto, a: Transaction, b: Transaction, i: nat)
    requires SameShape(a, b) && i < |a.inputs| && a.inputs[i].publicKey == b.inputs[i].publicKey
    ensures SigningBytes(c, a, i) == SigningBytes(c, b, i)
  {
    assert PointsOf(a.inputs) == PointsOf(b.inputs);
  }

  /** Input `i` carries the key and a signature of its own final signing bytes. */
  ghost predicate ProperlySigned(c: Crypto, tx: Transaction, i: nat, key: Bytes)
    requires i < |tx.inputs|
  {
    && tx.inputs[i].publicKey == c.toHex(c.publicKeyOf(key))
    && tx.inputs[i].signature == c.toHex(c.sign(key, SigningBytes(c, tx, i)))
  }

  /** Signing a further input neither changes the shape nor spoils an earlier signature. */
  lemma {:induction false} SigningKeepsEarlier(c: Crypto, tx: Transaction, n: nat, key: Bytes)
    requires n <= |tx.inputs|
    ensures SameShape(tx, SignFirst(c, tx, n, key))
    ensures forall i :: 0 <= i < n ==> ProperlySigned(c, SignFirst(c, tx, n, key), i, key)
  {
    if n > 0 {
      SigningKeepsEarlier(c, tx, n - 1, key);
      var before, after := SignFirst(c, tx, n - 1, key), SignFirst(c, tx, n, key);
      OneMoreSigned(c, before, n - 1, key);
      forall i | 0 <= i < n ensures ProperlySigned(c, after, i, key) {
        if i < n - 1 {
          assert ProperlySigned(c, before, i, key);
          SigningBytesLocal(c, before, after, i);
        }
      }
    }
  }

  lemma OneMoreSigned(c: Crypto, tx: Transaction, i: nat, key: Bytes)
    requires i < |tx.inputs|
    ensures SameShape(tx, SignOne(c, tx, i, key)) && ProperlySigned(c, SignOne(c, tx, i, key), i, key)
    ensures forall j :: 0 <= j < |tx.inputs| && j != i ==> SignOne(c, tx, i, key).inputs[j] == tx.inputs[j]
  {
    var keyed := tx.inputs[i].(publicKey := c.toHex(c.publicKeyOf(key)));
    SigningBytesLocal(c, tx.(inputs := tx.inputs[i := keyed]), SignOne(c, tx, i, key), i);
  }

  /** The in-place signing loop over the transaction's inputs. */
  method SignInputs(c: Crypto, inputs: array<TxInput>, outputs: seq<TxOutput>, timestamp: int, version: int, key: Bytes)
    modifies inputs
    ensures var start := Transaction(old(inputs[..]), outputs, timestamp, version);
      inputs[..] == SignFirst(c, start, inputs.Length, key).inputs
  {
    ghost var start := Transaction(inputs[..], outputs, timestamp, version);
    for i := 0 to inputs.Length
      invariant Transaction(inputs[..], outputs, timestamp, version) == SignFirst(c, start, i, key)
    {
      ghost var before := inputs[..];
      inputs[i] := inputs[i].(publicKey := c.toHex(c.publicKeyOf(key)));
      assert inputs[..] == before[i := before[i].(publicKey := c.toHex(c.publicKeyOf(key)))];
      var message := SigningBytes(c, Transaction(inputs[..], outputs, timestamp, version), i);
      inputs[i] := inputs[i].(signature := c.toHex(c.sign(key, message)));
      assert inputs[..] == before[i := SignedInput(c, Transaction(before, outputs, timestamp, version), i, key)];
    }
  }

  function Zeros(n: nat): string {
    if n == 0 then "" else Zeros(n - 1) + "0"
  }

  function UnsignedInputs(coins: seq<Coin>): (r: seq<TxInput>)
    ensures |r| == |coins| && forall i :: 0 <= i < |r| ==>
      r[i] == TxInput(coins[i].point.txid, coins[i].point.index, "", "")
  {
    seq(|coins|, i requires 0 <= i < |coins| => TxInput(coins[i].point.txid, coins[i].point.index, "", ""))
  }

  /** Inputs with the real key and a signature of the right width, to measure the final size. */
  function PlaceholderInputs(c: Crypto, inputs: seq<TxInput>, key: Bytes): (r: seq<TxInput>)
    ensures |r| == |inputs|
    ensures forall i :: 0 <= i < |r| ==> r[i].Point() == inputs[i].Point()
  {
    seq(|inputs|, i requires 0 <= i < |inputs| =>
      inputs[i].(publicKey := c.toHex(c.publicKeyOf(key)), signature := Zeros(SIGNATURE_HEX_LENGTH)))
  }

  function Outputs(sender: string, recipient: string, amount: int, change: int): seq<TxOutput> {
    [TxOutput(amount, recipient)] + if change != 0 then [TxOutput(change, sender)] else []
  }

  /** The checks before anything is signed. */
  predicate RequestOk(c: Crypto, coins: seq<Coin>, sender: string, recipient: string, amount: int, fee: int,
                      key: Bytes) {
    && amount > 0 && fee >= 0
    && ValidAddress(c, recipient) && AddressOf(c, c.publicKeyOf(key)) == sender
    && coins != []
    && (forall i, j :: 0 <= i < j < |coins| ==> coins[i].point != coins[j].point)
    && (forall i :: 0 <= i < |coins| ==> coins[i].output.recipient == sender && coins[i].output.amount > 0)
    && Value(coins, |coins|) - amount - fee >= 0
  }

  /** The transaction that is signed when the request is accepted with a size limit. */
  function Draft(c: Crypto, coins: seq<Coin>, sender: string, recipient: string, amount: int, fee: int,
                 key: Bytes, timestamp: nat): Transaction {
    Transaction(PlaceholderInputs(c, UnsignedInputs(coins), key),
                Outputs(sender, recipient, amount, Value(coins, |coins|) - amount - fee), timestamp, 1)
  }

  function BuildSigned(c: Crypto, coins: seq<Coin>, sender: string, recipient: string, amount: int, fee: int,
                       key: Bytes, timestamp: nat, maxBytes: int): Built {
    if !RequestOk(c, coins, sender, recipient, amount, fee, key) then Refused
    else
      var draft := Draft(c, coins, sender, recipient, amount, fee, key, timestamp);
      if |TransactionBytes(c, draft)| > maxBytes then TooLarge
      else Signed(SignFirst(c, draft, |draft.inputs|, key))
  }

  /** What the first `n` outputs pay to one address. */
  function PaidTo(outputs: seq<TxOutput>, n: nat, address: string): int
    requires n <= |outputs|
  {
    if n == 0 then 0
    else PaidTo(outputs, n - 1, address) + if outputs[n - 1].recipient == address then outputs[n - 1].amount else 0
  }

  /** The recipient gets exactly the amount, the sender exactly the change, and nobody else anything. */
  predicate PaysExactly(tx: Transaction, sender: string, recipient: string, amount: int, change: int) {
    && (forall i :: 0 <= i < |tx.outputs| ==> tx.outputs[i].recipient == recipient || tx.outputs[i].recipient == sender)
    && (sender != recipient ==>
          && PaidTo(tx.outputs, |tx.outputs|, recipient) == amount
          && PaidTo(tx.outputs, |tx.outputs|, sender) == change)
    && (sender == recipient ==> PaidTo(tx.outputs, |tx.outputs|, sender) == amount + change)
    && (change == 0 ==> |tx.outputs| == 1)
  }

  lemma OutputsPay(tx: Transaction, sender: string, recipient: string, amount: int, change: int)
    requires tx.outputs == Outputs(sender, recipient, amount, change)
    ensures PaysExactly(tx, sender, recipient, amount, change)
  {
    assert PaidTo(tx.outputs, 0, recipient) == 0 && PaidTo(tx.outputs, 0, sender) == 0;
    assert PaidTo(tx.outputs, 1, recipient) == amount;
    assert PaidTo(tx.outputs, 1, sender) == if sender == recipient then amount else 0;
  }

  /** Signing does not touch who is paid: the built transaction spends the coins in order and pays as asked. */
  lemma BuiltPays(c: Crypto, coins: seq<Coin>, sender: string, recipient: string, amount: int, fee: int,
                  key: Bytes, timestamp: nat, maxBytes: int)
    ensures var built := BuildSigned(c, coins, sender, recipient, amount, fee, key, timestamp, maxBytes);
      built.Signed? ==>
        && PaysExactly(built.transaction, sender, recipient, amount, Value(coins, |coins|) - amount - fee)
        && |built.transaction.inputs| == |coins|
        && forall i :: 0 <= i < |coins| ==> built.transaction.inputs[i].Point() == coins[i].point
  {
    hide PaysExactly, SignFirst, RequestOk, Outputs;
    var built := BuildSigned(c, coins, sender, recipient, amount, fee, key, timestamp, maxBytes);
    if built.Signed? {
      var draft := Draft(c, coins, sender, recipient, amount, fee, key, timestamp);
      SigningKeepsEarlier(c, draft, |draft.inputs|, key);
      OutputsPay(built.transaction, sender, recipient, amount, Value(coins, |coins|) - amount - fee);
      ShapePoints(draft, built.transaction);
      forall i | 0 <= i < |coins| ensures draft.inputs[i].Point() == coins[i].point {
        assert UnsignedInputs(coins)[i].Point() == coins[i].point;
      }
    }
  }

  lemma ShapePoints(a: Transaction, b: Transaction)
    requires SameShape(a, b)
    ensures |a.inputs| == |b.inputs| && forall i :: 0 <= i < |a.inputs| ==> a.inputs[i].Point() == b.inputs[i].Point()
  {
    forall i | 0 <= i < |a.inputs| ensures |a.inputs| == |b.inputs| && a.inputs[i].Point() == b.inputs[i].Point() {
      assert PointsOf(a.inputs)[i] == PointsOf(b.inputs)[i];
    }
  }

  /** `build_signed_transaction` with a size limit, as the wallet calls it. */
  method BuildSignedTransaction(c: Crypto, coins: seq<Coin>, sender: string, recipient: string, amount: int, fee: int,
                                key: Bytes, timestamp: nat, maxBytes: int) returns (r: Built)
    ensures r == BuildSigned(c, coins, sender, recipient, amount, fee, key, timestamp, maxBytes)
    ensures r.Signed? ==>
      PaysExactly(r.transaction, sender, recipient, amount, Value(coins, |coins|) - amount - fee)
  {
    hide ValidAddress, AddressOf, PaysExactly, Value;
    BuiltPays(c, coins, sender, recipient, amount, fee, key, timestamp, maxBytes);
    if !RequestOk(c, coins, sender, recipient, amount, fee, key) {
      return Refused;
    }
    var draft := Draft(c, coins, sender, recipient, amount, fee, key, timestamp);
    if |TransactionBytes(c, draft)| > maxBytes {
      return TooLarge;
    }
    var inputs := new TxInput[|draft.inputs|](i requires 0 <= i < |draft.inputs| => draft.inputs[i]);
    assert inputs[..] == draft.inputs;
    SignInputs(c, inputs, draft.outputs, draft.timestamp, draft.version, key);
    SigningKeepsEarlier(c, draft, |draft.inputs|, key);
    r := Signed(Transaction(inputs[..], draft.outputs, draft.timestamp, draft.version));
  }
}
