/** Preparing a transfer from a node's view, and why the node admits it (wallet/service.py). */
module Wallets {
  import opened Prelude
  import opened Transactions
  import opened Utxo
  import opened Validation
  import opened Processing
  import opened Reordering
  import opened Mempools
  import opened Survivors
  import opened Blocks
  import opened Chains
  import opened ChainHistory
  import opened CoinSelection
  import opened TransactionBuilder
  import Sorting

  const MAX_WALLET_INPUTS: nat := 100

  datatype Prepared = Ready(transaction: Transaction) | NotEnough | Rejected | WorkLimit

  /** Confirmed outputs of the address that no pending transaction spends. */
  function Available(ch: Chain, address: string): Utxos {
    var reserved := Spent(Pending(ch.pool.entries), |ch.pool.entries|);
    map o | o in ch.state.utxos && ch.state.utxos[o].recipient == address && o !in reserved :: ch.state.utxos[o]
  }

  /** `coins` lists a dictionary of outputs, in any order. */
  ghost predicate Lists(coins: seq<Coin>, u: Utxos) {
    && DistinctCoins(coins)
    && (forall k :: 0 <= k < |coins| ==> coins[k].point in u && u[coins[k].point] == coins[k].output)
    && (forall o :: o in u ==> exists k :: 0 <= k < |coins| && coins[k].point == o)
  }

  /** `tx` spends the coins that selection chooses, and is within both work limits. */
  predicate Prepares(c: Crypto, coins: seq<Coin>, k: nat, address: string, recipient: string, amount: int, fee: int,
                     key: Bytes, timestamp: nat, maxBytes: int, tx: Transaction) {
    && Chooses(coins, k, amount, fee) && k <= MAX_WALLET_INPUTS && k <= |Sorting.Sort(Smaller, coins)|
    && BuildSigned(c, Sorting.Sort(Smaller, coins)[..k], address, recipient, amount, fee, key, timestamp, maxBytes)
       == Signed(tx)
    && |TransactionBytes(c, tx)| <= maxBytes
  }

  predicate TooMuchWork(c: Crypto, coins: seq<Coin>, k: nat, address: string, recipient: string, amount: int, fee: int,
                        key: Bytes, timestamp: nat, maxBytes: int) {
    && Chooses(coins, k, amount, fee) && k <= |Sorting.Sort(Smaller, coins)|
    && (k > MAX_WALLET_INPUTS
        || var chosen := Sorting.Sort(Smaller, coins)[..k];
           var built := BuildSigned(c, chosen, address, recipient, amount, fee, key, timestamp, maxBytes);
           built.TooLarge? || (built.Signed? && |TransactionBytes(c, built.transaction)| > maxBytes))
  }

  /** The request is malformed, a worthless coin is met, or the builder refuses the chosen coins. */
  predicate Refuses(c: Crypto, coins: seq<Coin>, k: nat, address: string, recipient: string, amount: int, fee: int,
                    key: Bytes, timestamp: nat, maxBytes: int) {
    || amount <= 0 || fee < 0 || MeetsWorthless(coins, amount, fee)
    || (Chooses(coins, k, amount, fee) && k <= MAX_WALLET_INPUTS && k <= |Sorting.Sort(Smaller, coins)|
        && BuildSigned(c, Sorting.Sort(Smaller, coins)[..k], address, recipient, amount, fee, key, timestamp, maxBytes)
           == Refused)
  }

  /** Each outcome is returned exactly under its own condition. */
  ghost predicate PreparedExactly(c: Crypto, coins: seq<Coin>, address: string, recipient: string,
                                  amount: int, fee: int, key: Bytes, timestamp: nat, maxBytes: int, r: Prepared) {
    && (forall k: nat, tx ::
          Prepares(c, coins, k, address, recipient, amount, fee, key, timestamp, maxBytes, tx) ==> r == Ready(tx))
    && (r.Ready? ==> exists k: nat ::
          Prepares(c, coins, k, address, recipient, amount, fee, key, timestamp, maxBytes, r.transaction))
    && (r.NotEnough? <==> TooPoor(coins, amount, fee))
    && (r.WorkLimit? <==> exists k: nat ::
          TooMuchWork(c, coins, k, address, recipient, amount, fee, key, timestamp, maxBytes))
    && (r.Rejected? <==> exists k: nat ::
          Refuses(c, coins, k, address, recipient, amount, fee, key, timestamp, maxBytes))
  }

  /** What holds of the chosen coins decides between three outcomes; the fourth is excluded. */
  lemma ChosenDecides(c: Crypto, coins: seq<Coin>, k: nat, address: string, recipient: string, amount: int, fee: int,
                      key: Bytes, timestamp: nat, maxBytes: int, r: Prepared)
    requires Chooses(coins, k, amount, fee) && !r.NotEnough?
    requires r.Ready? ==> Prepares(c, coins, k, address, recipient, amount, fee, key, timestamp, maxBytes,
      r.transaction)
    requires r.WorkLimit? ==> TooMuchWork(c, coins, k, address, recipient, amount, fee, key, timestamp, maxBytes)
    requires r.Rejected? ==> Refuses(c, coins, k, address, recipient, amount, fee, key, timestamp, maxBytes)
    ensures PreparedExactly(c, coins, address, recipient, amount, fee, key, timestamp, maxBytes, r)
  {
    hide Sorting.Sort, Smaller, BuildSigned, Chooses, TooPoor, MeetsWorthless;
    OutcomesExclude(coins, k, amount, fee);
    ChosenRequest(coins, k, amount, fee);
    forall j: nat | Chooses(coins, j, amount, fee) ensures j == k {
      OneChoice(coins, j, k, amount, fee);
    }
  }

  lemma ChosenRequest(coins: seq<Coin>, k: nat, amount: int, fee: int)
    requires Chooses(coins, k, amount, fee)
    ensures amount > 0 && fee >= 0
  {
  }

  /** Without a choice the request is either too expensive or refused. */
  lemma NothingChosen(c: Crypto, coins: seq<Coin>, address: string, recipient: string, amount: int, fee: int,
                      key: Bytes, timestamp: nat, maxBytes: int, r: Prepared)
    requires r == if TooPoor(coins, amount, fee) then NotEnough else Rejected
    requires TooPoor(coins, amount, fee) || MeetsWorthless(coins, amount, fee) || amount <= 0 || fee < 0
    ensures PreparedExactly(c, coins, address, recipient, amount, fee, key, timestamp, maxBytes, r)
  {
    hide Sorting.Sort, Smaller, BuildSigned, Chooses, TooPoor, MeetsWorthless;
    forall j: nat | Chooses(coins, j, amount, fee) ensures false {
      OutcomesExclude(coins, j, amount, fee);
      ChosenRequest(coins, j, amount, fee);
    }
    if TooPoor(coins, amount, fee) {
      PoorIsNotWorthless(coins, amount, fee);
    } else {
      assert Refuses(c, coins, 0, address, recipient, amount, fee, key, timestamp, maxBytes);
    }
  }

  lemma PoorIsNotWorthless(coins: seq<Coin>, amount: int, fee: int)
    requires TooPoor(coins, amount, fee)
    ensures amount > 0 && fee >= 0 && !MeetsWorthless(coins, amount, fee)
  {
    hide Sorting.Sort, Smaller, Value;
  }

  /** `_prepare_transaction` on the available coins. */
  method PrepareTransaction(c: Crypto, coins: seq<Coin>, address: string, recipient: string, amount: int, fee: int,
                            key: Bytes, timestamp: nat, maxBytes: int) returns (r: Prepared)
    ensures PreparedExactly(c, coins, address, recipient, amount, fee, key, timestamp, maxBytes, r)
    ensures r.Ready? && DistinctCoins(coins) ==>
      exists chosen: seq<Coin> :: ChosenAndPaid(coins, chosen, address, recipient, amount, fee, r.transaction)
  {
    hide PreparedExactly, Sorting.Sort, Smaller, Value, TooPoor, MeetsWorthless, ChosenAndPaid;
    var selection := SelectUtxos(coins, amount, fee);
    if selection.Chosen? {
      r := PrepareChosen(c, coins, selection.coins, address, recipient, amount, fee, key, timestamp, maxBytes);
      ChosenDecides(c, coins, |selection.coins|, address, recipient, amount, fee, key, timestamp, maxBytes, r);
      if r.Ready? && DistinctCoins(coins) {
        PreparedPays(c, coins, |selection.coins|, address, recipient, amount, fee, key, timestamp, maxBytes,
                     r.transaction);
      }
    } else {
      r := if selection.Insufficient? then NotEnough else Rejected;
      NothingChosen(c, coins, address, recipient, amount, fee, key, timestamp, maxBytes, r);
    }
  }

  /**
   The transaction spends exactly the chosen coins, the smallest ones and none too many; the recipient
   is paid the amount, and what is left of their value after amount and fee goes back to the sender.
   */
  ghost predicate ChosenAndPaid(coins: seq<Coin>, chosen: seq<Coin>, address: string, recipient: string, amount: int,
                                fee: int, tx: Transaction) {
    && SmallestFirst(coins, chosen, amount, fee) && |tx.inputs| == |chosen|
    && (forall i :: 0 <= i < |chosen| ==> tx.inputs[i].Point() == chosen[i].point)
    && PaysExactly(tx, address, recipient, amount, Value(chosen, |chosen|) - amount - fee)
  }

  lemma PreparedPays(c: Crypto, coins: seq<Coin>, k: nat, address: string, recipient: string, amount: int, fee: int,
                     key: Bytes, timestamp: nat, maxBytes: int, tx: Transaction)
    requires Prepares(c, coins, k, address, recipient, amount, fee, key, timestamp, maxBytes, tx)
    requires DistinctCoins(coins)
    ensures k <= |coins| && ChosenAndPaid(coins, Sorting.Sort(Smaller, coins)[..k], address, recipient, amount, fee, tx)
  {
    hide Sorting.Sort, Smaller, BuildSigned, PaysExactly, SmallestFirst, Chooses, Value, TransactionBytes;
    var chosen := Sorting.Sort(Smaller, coins)[..k];
    ChosenIsSmallestFirst(coins, k, amount, fee);
    BuiltPays(c, chosen, address, recipient, amount, fee, key, timestamp, maxBytes);
  }

  lemma ChosenIsSmallestFirst(coins: seq<Coin>, k: nat, amount: int, fee: int)
    requires DistinctCoins(coins) && Chooses(coins, k, amount, fee)
    ensures k <= |coins| && SmallestFirst(coins, Sorting.Sort(Smaller, coins)[..k], amount, fee)
  {
    hide Sorting.Sort, Smaller, SmallestFirst, Value;
    PrefixIsSmallestFirst(coins, k, amount, fee);
  }

  /** Building from the coins selection chose. */
  method PrepareChosen(c: Crypto, coins: seq<Coin>, chosen: seq<Coin>, address: string, recipient: string,
                       amount: int, fee: int, key: Bytes, timestamp: nat, maxBytes: int) returns (r: Prepared)
    requires Chooses(coins, |chosen|, amount, fee) && |chosen| <= |Sorting.Sort(Smaller, coins)|
    requires chosen == Sorting.Sort(Smaller, coins)[..|chosen|]
    ensures !r.NotEnough?
    ensures r.Ready? ==>
      Prepares(c, coins, |chosen|, address, recipient, amount, fee, key, timestamp, maxBytes, r.transaction)
    ensures r.WorkLimit? ==> TooMuchWork(c, coins, |chosen|, address, recipient, amount, fee, key, timestamp, maxBytes)
    ensures r.Rejected? ==> Refuses(c, coins, |chosen|, address, recipient, amount, fee, key, timestamp, maxBytes)
  {
    hide Sorting.Sort, Smaller, BuildSigned, Chooses, MeetsWorthless;
    if |chosen| > MAX_WALLET_INPUTS {
      return WorkLimit;
    }
    var built := BuildSignedTransaction(c, chosen, address, recipient, amount, fee, key, timestamp, maxBytes);
    match built {
      case Refused => r := Rejected;
      case TooLarge => r := WorkLimit;
      case Signed(tx) => r := if |TransactionBytes(c, tx)| > maxBytes then WorkLimit else Ready(tx);
    }
  }

  /** An output is available exactly when it is confirmed, pays the address, and no pending input names it. */
  lemma AvailableExactly(ch: Chain, address: string, o: Outpoint)
    ensures o in Available(ch, address) <==>
      && o in ch.state.utxos && ch.state.utxos[o].recipient == address
      && forall i, j | 0 <= i < |ch.pool.entries| && 0 <= j < |ch.pool.entries[i].transaction.inputs| ::
           ch.pool.entries[i].transaction.inputs[j].Point() != o
    ensures o in Available(ch, address) ==> Available(ch, address)[o] == ch.state.utxos[o]
  {
    var txs := Pending(ch.pool.entries);
    SpentMembers(txs, |txs|);
    forall i | 0 <= i < |txs| {
      PointMembers(txs[i].inputs, |txs[i].inputs|);
    }
  }

  // ---- what a built transaction looks like ---------------------------------------------

  ghost predicate BuiltFrom(c: Crypto, chosen: seq<Coin>, address: string, recipient: string, amount: int, fee: int,
                            key: Bytes, timestamp: nat, maxBytes: int, tx: Transaction) {
    BuildSigned(c, chosen, address, recipient, amount, fee, key, timestamp, maxBytes) == Signed(tx)
  }

  /** Inputs are the chosen coins in order, properly signed; outputs pay the amount and the change. */
  lemma BuiltShape(c: Crypto, chosen: seq<Coin>, address: string, recipient: string, amount: int, fee: int,
                   key: Bytes, timestamp: nat, maxBytes: int, tx: Transaction)
    requires BuiltFrom(c, chosen, address, recipient, amount, fee, key, timestamp, maxBytes, tx)
    ensures RequestOk(c, chosen, address, recipient, amount, fee, key)
    ensures |tx.inputs| == |chosen| && tx.version == 1 && tx.timestamp == timestamp
    ensures forall i :: 0 <= i < |chosen| ==>
      tx.inputs[i].Point() == chosen[i].point && ProperlySigned(c, tx, i, key)
    ensures tx.outputs == Outputs(address, recipient, amount, Value(chosen, |chosen|) - amount - fee)
  {
    hide RequestOk, SignFirst, ProperlySigned, Draft, TransactionBytes, Outputs;
    var draft := Draft(c, chosen, address, recipient, amount, fee, key, timestamp);
    DraftShape(c, chosen, address, recipient, amount, fee, key, timestamp);
    SigningKeepsEarlier(c, draft, |draft.inputs|, key);
  }

  lemma DraftShape(c: Crypto, chosen: seq<Coin>, address: string, recipient: string, amount: int, fee: int,
                   key: Bytes, timestamp: nat)
    ensures var draft := Draft(c, chosen, address, recipient, amount, fee, key, timestamp);
      && |draft.inputs| == |chosen| && draft.version == 1 && draft.timestamp == timestamp
      && draft.outputs == Outputs(address, recipient, amount, Value(chosen, |chosen|) - amount - fee)
      && forall i :: 0 <= i < |chosen| ==> draft.inputs[i].Point() == chosen[i].point
  {
    hide PlaceholderInputs, Outputs, UnsignedInputs;
  }

  /** The view `u` shows each chosen coin. */
  ghost predicate Shows(u: Utxos, chosen: seq<Coin>) {
    forall i :: 0 <= i < |chosen| ==> chosen[i].point in u && u[chosen[i].point] == chosen[i].output
                                      && chosen[i].point.txid != "" && chosen[i].point.index >= 0
  }

  lemma {:induction false} BuiltInputTotal(tx: Transaction, chosen: seq<Coin>, n: nat, u: Utxos)
    requires n <= |tx.inputs| == |chosen| && Shows(u, chosen)
    requires forall i :: 0 <= i < |chosen| ==> tx.inputs[i].Point() == chosen[i].point
    ensures InputTotal(tx.inputs, n, u) == Value(chosen, n)
  {
    if n > 0 {
      BuiltInputTotal(tx, chosen, n - 1, u);
    }
  }

  lemma SignedInputOk(c: Crypto, chosen: seq<Coin>, address: string, key: Bytes, tx: Transaction, u: Utxos, i: nat)
    requires DigestLaw(c) && SignatureLaw(c) && Shows(u, chosen) && i < |chosen| == |tx.inputs|
    requires address == AddressOf(c, c.publicKeyOf(key)) && chosen[i].output.recipient == address
    requires chosen[i].output.amount > 0
    requires tx.inputs[i].Point() == chosen[i].point && ProperlySigned(c, tx, i, key)
    ensures InputOk(c, tx, i, u) && WellFormedInput(tx.inputs[i])
  {
    hide AddressOf, ValidAddress, SigningBytes, DigestLaw;
    DerivedAddressIsValid(c, c.publicKeyOf(key));
    var message := SigningBytes(c, tx, i);
    assert c.parseSignature(c.toHex(c.sign(key, message))) == Some(c.sign(key, message));
  }

  /** A built transaction is valid in any view that shows its coins, and pays exactly the requested fee. */
  lemma BuiltIsValid(c: Crypto, chosen: seq<Coin>, address: string, recipient: string, amount: int, fee: int,
                     key: Bytes, timestamp: nat, maxBytes: int, tx: Transaction, u: Utxos)
    requires DigestLaw(c) && SignatureLaw(c) && Shows(u, chosen)
    requires BuiltFrom(c, chosen, address, recipient, amount, fee, key, timestamp, maxBytes, tx)
    ensures Valid(c, tx, u) && Fee(tx, u) == fee
  {
    hide AddressOf, ValidAddress, BuildSigned, ProperlySigned, InputOk, WellFormedInput, SignatureLaw, DigestLaw;
    BuiltShape(c, chosen, address, recipient, amount, fee, key, timestamp, maxBytes, tx);
    BuiltInputTotal(tx, chosen, |chosen|, u);
    BuiltOutputs(c, address, recipient, amount, Value(chosen, |chosen|) - amount - fee, key);
    forall i | 0 <= i < |tx.inputs| ensures InputOk(c, tx, i, u) && WellFormedInput(tx.inputs[i]) {
      SignedInputOk(c, chosen, address, key, tx, u, i);
    }
  }

  lemma BuiltOutputs(c: Crypto, address: string, recipient: string, amount: int, change: int, key: Bytes)
    requires DigestLaw(c) && amount > 0 && change >= 0
    requires ValidAddress(c, recipient) && AddressOf(c, c.publicKeyOf(key)) == address
    ensures var outputs := Outputs(address, recipient, amount, change);
      && outputs != [] && OutputTotal(outputs, |outputs|) == amount + change
      && forall i :: 0 <= i < |outputs| ==> IsValidOutput(c, outputs[i])
  {
    hide AddressOf, ValidAddress, DigestLaw;
    DerivedAddressIsValid(c, c.publicKeyOf(key));
    var outputs := Outputs(address, recipient, amount, change);
    assert OutputTotal(outputs, 1) == outputs[0].amount;
  }

  // ---- admission -------------------------------------------------------------------------

  /** Outpoints of an accepted chain have a hash as identifier and a non-negative index. */
  lemma LedgerPoint(c: Crypto, ch: Chain, clock: int, o: Outpoint)
    requires ChainInv(c, ch, clock) && DigestLaw(c) && o in ch.state.utxos
    ensures o.txid != "" && o.index >= 0
  {
    hide PoolInv, Replay, LinkOk, Everything, Spent, TxIds;
    ReplayExplained(c, ch.blocks, |ch.blocks|, clock);
    var history := History(ch.blocks, |ch.blocks|);
    Origin(c, history, |history|, map[], o);
    var j :| 0 <= j < |history| && o in Created(c, history[j]);
    assert IsHash(o.txid);
  }

  /** An available output is still unspent, with the same value, in the pool's working view. */
  lemma AvailableInWorkingView(c: Crypto, ch: Chain, clock: int, o: Outpoint)
    requires ChainInv(c, ch, clock) && o in ch.state.utxos
    requires o !in Spent(Pending(ch.pool.entries), |ch.pool.entries|)
    ensures o in ch.pool.working && ch.pool.working[o] == ch.state.utxos[o]
  {
    hide PoolInv, Replay, Everything, Spent, TxIds, Replayable;
    var txs := Pending(ch.pool.entries);
    ChainSound(c, ch, clock);
    SoundReplayable(c, ch.pool);
    ReplayableIds(c, txs, |txs|, ch.pool.confirmed, ch.pool.seen);
    ChainAnchored(c, ch, clock);
    BaseOutput(c, txs, |txs|, ch.pool.confirmed, o);
  }

  lemma ChainAnchored(c: Crypto, ch: Chain, clock: int)
    requires ChainInv(c, ch, clock)
    ensures Anchored(ch.state.utxos, ch.state.seen)
  {
    hide PoolInv, Replay;
    ReplayAnchored(c, ch.blocks, |ch.blocks|, clock);
  }

  /** The only identifier law needed: nothing already recorded shares `tx`'s identifier by collision. */
  ghost predicate NoAlias(c: Crypto, ch: Chain, tx: Transaction) {
    && (forall i | 0 <= i < |History(ch.blocks, |ch.blocks|)|
        :: TxId(c, History(ch.blocks, |ch.blocks|)[i]) == TxId(c, tx) ==> History(ch.blocks, |ch.blocks|)[i] == tx)
    && (forall i | 0 <= i < |ch.pool.entries|
        :: TxId(c, Pending(ch.pool.entries)[i]) == TxId(c, tx) ==> Pending(ch.pool.entries)[i] == tx)
  }

  /** A transaction spending an available output is new to the chain and to the pool. */
  lemma SpendingAvailableIsFresh(c: Crypto, ch: Chain, clock: int, tx: Transaction, o: Outpoint)
    requires ChainInv(c, ch, clock) && NoAlias(c, ch, tx)
    requires o in Points(tx) && o in ch.state.utxos && o !in Spent(Pending(ch.pool.entries), |ch.pool.entries|)
    ensures TxId(c, tx) !in ch.state.seen
    ensures TxId(c, tx) !in TxIds(c, Pending(ch.pool.entries), |ch.pool.entries|)
  {
    hide PoolInv, Replay, Everything, Spent, TxIds, Points, LinkOk;
    var history, txs := History(ch.blocks, |ch.blocks|), Pending(ch.pool.entries);
    ReplayExplained(c, ch.blocks, |ch.blocks|, clock);
    SpentMembers(history, |history|);
    SpentMembers(txs, |txs|);
    IdMembers(c, history, |history|);
    IdMembers(c, txs, |txs|);
    forall i | 0 <= i < |history| ensures TxId(c, history[i]) != TxId(c, tx) {
      assert o !in Points(history[i]);
    }
    forall i | 0 <= i < |txs| ensures TxId(c, txs[i]) != TxId(c, tx) {
      assert o !in Points(txs[i]);
    }
  }

  lemma ChosenShown(c: Crypto, ch: Chain, clock: int, coins: seq<Coin>, chosen: seq<Coin>, address: string)
    requires ChainInv(c, ch, clock) && DigestLaw(c) && Lists(coins, Available(ch, address))
    requires forall a :: a in chosen ==> a in coins
    ensures Shows(ch.pool.working, chosen)
    ensures forall i | 0 <= i < |chosen| ::
      chosen[i].point in ch.state.utxos && chosen[i].point !in Spent(Pending(ch.pool.entries), |ch.pool.entries|)
  {
    hide ChainInv, Spent, DigestLaw;
    forall i | 0 <= i < |chosen|
      ensures chosen[i].point in ch.state.utxos
      ensures chosen[i].point !in Spent(Pending(ch.pool.entries), |ch.pool.entries|)
      ensures chosen[i].point in ch.pool.working && ch.pool.working[chosen[i].point] == chosen[i].output
      ensures chosen[i].point.txid != "" && chosen[i].point.index >= 0
    {
      assert chosen[i] in coins;
      var k :| 0 <= k < |coins| && coins[k] == chosen[i];
      assert coins[k].point in Available(ch, address);
      LedgerPoint(c, ch, clock, chosen[i].point);
      AvailableInWorkingView(c, ch, clock, chosen[i].point);
    }
  }

  /**
   A transfer prepared from a node's view is admitted by that node in the same state exactly
   when there is room for it, and its entry pays exactly the requested fee.
   */
  lemma PreparedIsAdmitted(c: Crypto, ch: Chain, clock: int, coins: seq<Coin>, chosen: seq<Coin>,
                           address: string, recipient: string, amount: int, fee: int,
                           key: Bytes, timestamp: nat, maxBytes: int, tx: Transaction)
    requires ChainInv(c, ch, clock) && DigestLaw(c) && SignatureLaw(c)
    requires Lists(coins, Available(ch, address)) && forall a :: a in chosen ==> a in coins
    requires BuiltFrom(c, chosen, address, recipient, amount, fee, key, timestamp, maxBytes, tx)
    requires NoAlias(c, ch, tx)
    ensures Admits(c, ch.pool, tx)
       <==> |ch.pool.entries| < ch.pool.maxTransactions && ch.pool.totalBytes + Size(c, tx) <= ch.pool.maxBytes
    ensures Admits(c, ch.pool, tx) ==>
      TryAdd(c, ch.pool, tx).entries == ch.pool.entries + [Entry(TxId(c, tx), tx, fee, Size(c, tx))]
  {
    hide Replay, PoolInv, BuiltFrom, Valid, CanApply, Applied, Lists, Spent, TxIds, DigestLaw, SignatureLaw, NoAlias,
         Available, RequestOk, ProperlySigned, Outputs, Value, Shows, Points;
    ChainSound(c, ch, clock);
    ChosenShown(c, ch, clock, coins, chosen, address);
    BuiltIsValid(c, chosen, address, recipient, amount, fee, key, timestamp, maxBytes, tx, ch.pool.working);
    BuiltPoint(c, chosen, address, recipient, amount, fee, key, timestamp, maxBytes, tx);
    SpendingAvailableIsFresh(c, ch, clock, tx, chosen[0].point);
    if |ch.pool.entries| < ch.pool.maxTransactions && ch.pool.totalBytes + Size(c, tx) <= ch.pool.maxBytes {
      FitsNext(c, ch.pool, tx);
    }
  }

  lemma BuiltPoint(c: Crypto, chosen: seq<Coin>, address: string, recipient: string, amount: int, fee: int,
                   key: Bytes, timestamp: nat, maxBytes: int, tx: Transaction)
    requires BuiltFrom(c, chosen, address, recipient, amount, fee, key, timestamp, maxBytes, tx)
    ensures chosen != [] && chosen[0].point in Points(tx)
  {
    hide BuildSigned, ValidAddress, AddressOf, ProperlySigned;
    BuiltShape(c, chosen, address, recipient, amount, fee, key, timestamp, maxBytes, tx);
    PointMembers(tx.inputs, |tx.inputs|);
    assert tx.inputs[0].Point() == chosen[0].point;
  }

  /**
   From a wallet view of the node's own state: whatever the service prepares is admitted by
   the node exactly when the pool has room, with the requested fee.
   */
  lemma PreparedThenSent(c: Crypto, ch: Chain, clock: int, coins: seq<Coin>, k: nat, address: string, recipient: string,
                         amount: int, fee: int, key: Bytes, timestamp: nat, maxBytes: int, tx: Transaction)
    requires ChainInv(c, ch, clock) && DigestLaw(c) && SignatureLaw(c) && Lists(coins, Available(ch, address))
    requires Prepares(c, coins, k, address, recipient, amount, fee, key, timestamp, maxBytes, tx) && NoAlias(c, ch, tx)
    ensures Admits(c, ch.pool, tx)
       <==> |ch.pool.entries| < ch.pool.maxTransactions && ch.pool.totalBytes + Size(c, tx) <= ch.pool.maxBytes
    ensures Admits(c, ch.pool, tx) ==>
      TryAdd(c, ch.pool, tx).entries == ch.pool.entries + [Entry(TxId(c, tx), tx, fee, Size(c, tx))]
  {
    hide Sorting.Sort, Smaller, ChainInv, Available, Lists, NoAlias, Admits, TryAdd, BuildSigned, Chooses,
      SignatureLaw, DigestLaw;
    var chosen := Sorting.Sort(Smaller, coins)[..k];
    Sorting.SameMembers(coins, Sorting.Sort(Smaller, coins));
    forall a | a in chosen ensures a in coins {
      assert a in Sorting.Sort(Smaller, coins);
    }
    PreparedIsAdmitted(c, ch, clock, coins, chosen, address, recipient, amount, fee, key, timestamp, maxBytes, tx);
  }
}
