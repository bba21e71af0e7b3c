/**
 Transactions, outpoints, canonical bytes and signatures (transaction/transaction.py,
 transaction/tx_input.py, transaction/tx_output.py, crypto/).

 Hashing, serialisation and ECDSA are left uninterpreted: a `Crypto` value packages one
 function for each, and every result below holds for all of them.  Laws about those
 functions are named predicates that a lemma assumes only where it needs them.
 */
module Transactions {
  import opened Prelude

  datatype Outpoint = Outpoint(txid: string, index: int)

  datatype TxOutput = TxOutput(amount: int, recipient: string)

  datatype TxInput = TxInput(previousTxId: string, outputIndex: int, publicKey: string, signature: string) {
    function Point(): Outpoint { Outpoint(previousTxId, outputIndex) }
  }

  datatype Transaction = Transaction(inputs: seq<TxInput>, outputs: seq<TxOutput>, timestamp: int, version: int)

  /** The dictionary an input signature covers: no signature, and only the signer's key. */
  datatype SigningData = SigningData(version: int, outpoints: seq<Outpoint>, outputs: seq<TxOutput>,
                                     timestamp: int, index: int, publicKey: string)

  datatype Crypto = Crypto(
    sha256Hex: Bytes -> string,
    encodeUtf8: string -> Bytes,
    transactionBody: Transaction -> Bytes,
    signingBody: SigningData -> Bytes,
    headerBody: HeaderData -> Bytes,
    idListBody: seq<string> -> Bytes,
    combineHashes: (string, string) -> string,
    parsePublicKey: string -> Option<Bytes>,
    parseSignature: string -> Option<Bytes>,
    toHex: Bytes -> string,
    publicKeyOf: Bytes -> Bytes,
    sign: (Bytes, Bytes) -> Bytes,
    verify: (Bytes, Bytes, Bytes) -> bool)

  datatype HeaderData = HeaderData(version: int, previousBlockHash: string, merkleRoot: string,
                                   timestamp: int, difficulty: int, nonce: int)

  /** Canonical JSON of a transaction is an object, so it starts with a brace and is never empty. */
  function TransactionBytes(c: Crypto, tx: Transaction): (r: Bytes)
    ensures |r| > 0
  {
    [123] + c.transactionBody(tx)
  }

  function TxId(c: Crypto, tx: Transaction): string {
    c.sha256Hex(TransactionBytes(c, tx))
  }

  function PointsOf(inputs: seq<TxInput>): (r: seq<Outpoint>)
    ensures |r| == |inputs| && forall i :: 0 <= i < |r| ==> r[i] == inputs[i].Point()
  {
    seq(|inputs|, i requires 0 <= i < |inputs| => inputs[i].Point())
  }

  /** The outpoints of the first `n` inputs. */
  function PointSet(inputs: seq<TxInput>, n: nat): set<Outpoint>
    requires n <= |inputs|
  {
    if n == 0 then {} else PointSet(inputs, n - 1) + {inputs[n - 1].Point()}
  }

  lemma {:induction false} PointMembers(inputs: seq<TxInput>, n: nat)
    requires n <= |inputs|
    ensures forall i :: 0 <= i < n ==> inputs[i].Point() in PointSet(inputs, n)
    ensures forall o :: o in PointSet(inputs, n) ==> exists i :: 0 <= i < n && inputs[i].Point() == o
  {
    if n > 0 {
      PointMembers(inputs, n - 1);
    }
  }

  /** The set of outpoints a transaction consumes. */
  function Points(tx: Transaction): set<Outpoint> {
    PointSet(tx.inputs, |tx.inputs|)
  }

  function SigningBytes(c: Crypto, tx: Transaction, index: int): Bytes
    requires 0 <= index < |tx.inputs|
  {
    c.signingBody(SigningData(tx.version, PointsOf(tx.inputs), tx.outputs, tx.timestamp, index,
                              tx.inputs[index].publicKey))
  }

  function AddressOf(c: Crypto, publicKey: Bytes): string {
    var keyHash := Take(c.sha256Hex(publicKey), 40);
    "PYC_" + keyHash + Take(c.sha256Hex(c.encodeUtf8(keyHash)), 8)
  }

  predicate ValidAddress(c: Crypto, address: string) {
    && |address| == 52
    && address[..4] == "PYC_"
    && address[44..] == Take(c.sha256Hex(c.encodeUtf8(address[4..44])), 8)
  }

  predicate IsHash(s: string) {
    |s| == 64 && forall i :: 0 <= i < 64 ==> '0' <= s[i] <= '9' || 'a' <= s[i] <= 'f'
  }

  /** SHA-256 hex digests, of bytes or of two joined hashes, are 64 lower-case hexadecimal characters. */
  ghost predicate DigestLaw(c: Crypto) {
    && (forall data: Bytes :: IsHash(c.sha256Hex(data)))
    && (forall left: string, right: string :: IsHash(c.combineHashes(left, right)))
  }

  /** A signature made with a private key verifies under its public key, and both survive hex. */
  ghost predicate SignatureLaw(c: Crypto) {
    && (forall key, message :: c.verify(c.publicKeyOf(key), message, c.sign(key, message)))
    && (forall key :: c.toHex(c.publicKeyOf(key)) != ""
                      && c.parsePublicKey(c.toHex(c.publicKeyOf(key))) == Some(c.publicKeyOf(key)))
    && (forall key, message :: c.toHex(c.sign(key, message)) != ""
                               && c.parseSignature(c.toHex(c.sign(key, message))) == Some(c.sign(key, message)))
  }

  /** The derived address of any key passes address validation. */
  lemma DerivedAddressIsValid(c: Crypto, publicKey: Bytes)
    requires DigestLaw(c)
    ensures ValidAddress(c, AddressOf(c, publicKey))
  {
    var keyHash := Take(c.sha256Hex(publicKey), 40);
    assert IsHash(c.sha256Hex(publicKey)) && IsHash(c.sha256Hex(c.encodeUtf8(keyHash)));
    assert AddressOf(c, publicKey)[4..44] == keyHash;
    assert AddressOf(c, publicKey)[..4] == "PYC_";
  }
}
