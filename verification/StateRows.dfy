/** The confirmed state as database rows, and back (storage/chainstate_store.py, storage/codec.py). */
module StateRows {
  import opened Prelude
  import opened Transactions
  import opened Utxo
  import opened Validation
  import opened Processing
  import opened Mempools
  import opened Blocks
  import opened Chains
  import opened Stores
  import Sorting

  // ---- amounts as decimal text -----------------------------------------------------------

  function Digit(d: int): char
    requires 0 <= d < 10
  {
    '0' + d as char
  }

  /** Python's `str` of a non-negative integer. */
  function Decimal(n: nat): (s: string)
    ensures s != []
  {
    if n < 10 then [Digit(n)] else Decimal(n / 10) + [Digit(n % 10)]
  }

  /** `encode_amount`; None stands for the corruption error. */
  function EncodeAmount(amount: int): Option<string> {
    if amount >= 1 then Some(Decimal(amount)) else None
  }

  predicate AllDigits(s: string) {
    forall i :: 0 <= i < |s| ==> '0' <= s[i] <= '9'
  }

  /** Python's `int` of a string of ASCII digits. */
  function Number(s: string): nat
    requires AllDigits(s)
  {
    if s == [] then 0 else 10 * Number(s[..|s| - 1]) + (s[|s| - 1] as int - '0' as int)
  }

  /** `decode_amount` */
  function DecodeAmount(s: string): Option<int> {
    if s != [] && '1' <= s[0] && AllDigits(s) then Some(Number(s)) else None
  }

  lemma {:induction false} DecimalReads(n: nat)
    ensures AllDigits(Decimal(n)) && Number(Decimal(n)) == n
    ensures n >= 1 ==> '1' <= Decimal(n)[0]
  {
    if n >= 10 {
      DecimalReads(n / 10);
      assert Decimal(n)[..|Decimal(n)| - 1] == Decimal(n / 10);
    } else {
      assert Decimal(n)[..0] == [];
    }
  }

  lemma DecimalGrows(n: nat, digit: nat)
    requires n >= 1 && digit < 10
    ensures Decimal(10 * n + digit) == Decimal(n) + [Digit(digit)]
  {
    assert (10 * n + digit) / 10 == n && (10 * n + digit) % 10 == digit;
  }

  lemma {:induction false} NumberWrites(s: string)
    requires s != [] && '1' <= s[0] && AllDigits(s)
    ensures Number(s) >= 1 && Decimal(Number(s)) == s
  {
    var front, last := s[..|s| - 1], s[|s| - 1];
    if front != [] {
      NumberWrites(front);
      assert s == front + [last];
      DecimalGrows(Number(front), last as int - '0' as int);
    } else {
      assert s == [last] && Number(front) == 0;
    }
  }

  /** Text and amount determine each other: every amount has one text, every accepted text one amount. */
  lemma AmountText(amount: int, s: string)
    ensures EncodeAmount(amount) == Some(s) <==> DecodeAmount(s) == Some(amount)
  {
    if amount >= 1 {
      DecimalReads(amount);
    }
    if DecodeAmount(s).Some? {
      NumberWrites(s);
    }
  }

  // ---- reading rows ------------------------------------------------------------------------

  datatype UtxoRow = UtxoRow(txid: string, index: int, amount: string, recipient: string) {
    function Point(): Outpoint { Outpoint(txid, index) }
  }

  /** The checks on one row of the output table. */
  predicate RowOk(c: Crypto, seen: set<string>, row: UtxoRow) {
    row.txid in seen && row.index >= 0 && ValidAddress(c, row.recipient) && DecodeAmount(row.amount).Some?
  }

  function ReadSeen(rows: seq<string>, n: nat): Option<set<string>>
    requires n <= |rows|
  {
    if n == 0 then Some({})
    else
      var before := ReadSeen(rows, n - 1);
      if before.None? || !IsHash(rows[n - 1]) || rows[n - 1] in before.value then None
      else Some(before.value + {rows[n - 1]})
  }

  function ReadUtxos(c: Crypto, seen: set<string>, rows: seq<UtxoRow>, n: nat): Option<Utxos>
    requires n <= |rows|
  {
    if n == 0 then Some(map[])
    else
      var before, row := ReadUtxos(c, seen, rows, n - 1), rows[n - 1];
      if before.None? || !RowOk(c, seen, row) || row.Point() in before.value then None
      else Some(before.value[row.Point() := TxOutput(DecodeAmount(row.amount).value, row.recipient)])
  }

  /** `read_chainstate_rows`: None stands for the corruption errors. */
  function ReadRows(c: Crypto, seenRows: seq<string>, utxoRows: seq<UtxoRow>): Option<ChainState> {
    var seen := ReadSeen(seenRows, |seenRows|);
    if seen.None? then None
    else
      var utxos := ReadUtxos(c, seen.value, utxoRows, |utxoRows|);
      if utxos.None? then None else Some(ChainState(utxos.value, seen.value))
  }

  method ReadChainstateRows(c: Crypto, seenRows: seq<string>, utxoRows: seq<UtxoRow>)
    returns (ok: bool, utxoSet: UTXOSet, seen: set<string>)
    ensures fresh(utxoSet)
    ensures ReadRows(c, seenRows, utxoRows) == if ok then Some(ChainState(utxoSet.utxos, seen)) else None
  {
    hide IsHash, RowOk, DecodeAmount;
    ok, seen := false, {};
    utxoSet := new UTXOSet();
    for i := 0 to |seenRows|
      invariant ReadSeen(seenRows, i) == Some(seen)
    {
      if !IsHash(seenRows[i]) || seenRows[i] in seen {
        UnreadableSeen(seenRows, i + 1, |seenRows|);
        return;
      }
      seen := seen + {seenRows[i]};
    }
    for i := 0 to |utxoRows|
      invariant fresh(utxoSet) && ReadUtxos(c, seen, utxoRows, i) == Some(utxoSet.utxos)
    {
      var row := utxoRows[i];
      if !RowOk(c, seen, row) || row.Point() in utxoSet.utxos {
        UnreadableUtxos(c, seen, utxoRows, i + 1, |utxoRows|);
        return;
      }
      assert DecodeAmount(row.amount).Some? by { RowAmount(c, seen, row); }
      var added := utxoSet.Add(row.txid, row.index, TxOutput(DecodeAmount(row.amount).value, row.recipient));
    }
    ok := true;
  }

  lemma RowAmount(c: Crypto, seen: set<string>, row: UtxoRow)
    requires RowOk(c, seen, row)
    ensures DecodeAmount(row.amount).Some?
  {
  }

  lemma {:induction false} UnreadableSeen(rows: seq<string>, k: nat, n: nat)
    requires k <= n <= |rows| && ReadSeen(rows, k).None?
    ensures ReadSeen(rows, n).None?
  {
    if k < n {
      UnreadableSeen(rows, k, n - 1);
    }
  }

  lemma {:induction false} UnreadableUtxos(c: Crypto, seen: set<string>, rows: seq<UtxoRow>, k: nat, n: nat)
    requires k <= n <= |rows| && ReadUtxos(c, seen, rows, k).None?
    ensures ReadUtxos(c, seen, rows, n).None?
  {
    hide RowOk;
    if k < n {
      UnreadableUtxos(c, seen, rows, k, n - 1);
    }
  }

  // ---- what rows stand for -------------------------------------------------------------------

  /** The first `n` rows list exactly the identifiers in `seen`, each once. */
  ghost predicate SeenListed(rows: seq<string>, n: nat, seen: set<string>)
    requires n <= |rows|
  {
    && (forall i :: 0 <= i < n ==> IsHash(rows[i]) && rows[i] in seen)
    && (forall i, j :: 0 <= i < j < n ==> rows[i] != rows[j])
    && (forall id :: id in seen ==> exists i :: 0 <= i < n && rows[i] == id)
  }

  /** The first `n` rows list exactly the outputs of `u`, each once. */
  ghost predicate UtxosListed(c: Crypto, seen: set<string>, rows: seq<UtxoRow>, n: nat, u: Utxos)
    requires n <= |rows|
  {
    && (forall i :: 0 <= i < n ==> RowOk(c, seen, rows[i]) && rows[i].Point() in u && ShowsRow(u, rows[i]))
    && (forall i, j :: 0 <= i < j < n ==> rows[i].Point() != rows[j].Point())
    && (forall o :: o in u ==> exists i :: 0 <= i < n && rows[i].Point() == o)
  }

  predicate ShowsRow(u: Utxos, row: UtxoRow)
    requires row.Point() in u
  {
    DecodeAmount(row.amount) == Some(u[row.Point()].amount) && u[row.Point()].recipient == row.recipient
  }

  ghost predicate Listed(c: Crypto, seenRows: seq<string>, utxoRows: seq<UtxoRow>, state: ChainState) {
    SeenListed(seenRows, |seenRows|, state.seen) && UtxosListed(c, state.seen, utxoRows, |utxoRows|, state.utxos)
  }

  lemma {:induction false} SeenRead(rows: seq<string>, n: nat)
    requires n <= |rows| && ReadSeen(rows, n).Some?
    ensures SeenListed(rows, n, ReadSeen(rows, n).value)
  {
    hide IsHash;
    if n > 0 {
      SeenRead(rows, n - 1);
    }
  }

  lemma {:induction false} ListedSeenReads(rows: seq<string>, n: nat, seen: set<string>)
    requires n <= |rows| && SeenListed(rows, n, seen)
    ensures ReadSeen(rows, n) == Some(seen)
  {
    hide IsHash;
    if n > 0 {
      ListedSeenReads(rows, n - 1, seen - {rows[n - 1]});
      assert (seen - {rows[n - 1]}) + {rows[n - 1]} == seen;
    } else {
      assert seen == {};
    }
  }

  lemma {:induction false} UtxosRead(c: Crypto, seen: set<string>, rows: seq<UtxoRow>, n: nat)
    requires n <= |rows| && ReadUtxos(c, seen, rows, n).Some?
    ensures UtxosListed(c, seen, rows, n, ReadUtxos(c, seen, rows, n).value)
  {
    hide DecodeAmount, RowOk;
    if n > 0 {
      UtxosRead(c, seen, rows, n - 1);
      RowAmount(c, seen, rows[n - 1]);
    }
  }

  lemma RestListed(c: Crypto, seen: set<string>, rows: seq<UtxoRow>, n: nat, u: Utxos)
    requires 0 < n <= |rows| && UtxosListed(c, seen, rows, n, u)
    ensures UtxosListed(c, seen, rows, n - 1, u - {rows[n - 1].Point()})
    ensures rows[n - 1].Point() in u && ShowsRow(u, rows[n - 1]) && RowOk(c, seen, rows[n - 1])
  {
    hide DecodeAmount, RowOk;
  }

  lemma NothingListed(c: Crypto, seen: set<string>, rows: seq<UtxoRow>, u: Utxos)
    requires UtxosListed(c, seen, rows, 0, u)
    ensures u == map[]
  {
    hide RowOk, ShowsRow;
  }

  lemma PutBack(u: Utxos, o: Outpoint)
    requires o in u
    ensures (u - {o})[o := u[o]] == u
  {
  }

  lemma {:induction false} ListedUtxosRead(c: Crypto, seen: set<string>, rows: seq<UtxoRow>, n: nat, u: Utxos)
    requires n <= |rows| && UtxosListed(c, seen, rows, n, u)
    ensures ReadUtxos(c, seen, rows, n) == Some(u)
  {
    hide DecodeAmount, RowOk, UtxosListed;
    if n > 0 {
      var o := rows[n - 1].Point();
      RestListed(c, seen, rows, n, u);
      ListedUtxosRead(c, seen, rows, n - 1, u - {o});
      PutBack(u, o);
    } else {
      NothingListed(c, seen, rows, u);
    }
  }

  /** Reading succeeds exactly on rows that list a state, and gives that state. */
  lemma ReadRowsExact(c: Crypto, seenRows: seq<string>, utxoRows: seq<UtxoRow>, state: ChainState)
    ensures ReadRows(c, seenRows, utxoRows) == Some(state) <==> Listed(c, seenRows, utxoRows, state)
  {
    hide ReadSeen, ReadUtxos, SeenListed, UtxosListed;
    if ReadRows(c, seenRows, utxoRows) == Some(state) {
      SeenRead(seenRows, |seenRows|);
      UtxosRead(c, state.seen, utxoRows, |utxoRows|);
    }
    if Listed(c, seenRows, utxoRows, state) {
      ListedSeenReads(seenRows, |seenRows|, state.seen);
      ListedUtxosRead(c, state.seen, utxoRows, |utxoRows|, state.utxos);
    }
  }

  // ---- writing rows ----------------------------------------------------------------------------

  predicate PointLess(a: Outpoint, b: Outpoint) {
    StringLess(a.txid, b.txid) || (a.txid == b.txid && a.index < b.index)
  }

  /** Rows in the order of their outpoints: by identifier, then by index. */
  ghost predicate InPointOrder(rows: seq<UtxoRow>) {
    forall i, j :: 0 <= i < j < |rows| ==> PointLess(rows[i].Point(), rows[j].Point())
  }

  lemma StringsTotal(ids: seq<string>)
    ensures Sorting.TotalOn(StringLess, ids)
  {
    hide StringLess;
    forall a, b | a in ids && b in ids && a != b ensures StringLess(a, b) || StringLess(b, a) {
      StringLessTrichotomy(a, b);
    }
    forall a, b, d | a in ids && b in ids && d in ids && StringLess(a, b) && StringLess(b, d) ensures StringLess(a, d) {
      StringLessTransitive(a, b, d);
    }
  }

  lemma PointsTotal(points: seq<Outpoint>)
    ensures Sorting.TotalOn(PointLess, points)
  {
    hide StringLess;
    forall a, b | a in points && b in points && a != b ensures PointLess(a, b) || PointLess(b, a) {
      StringLessTrichotomy(a.txid, b.txid);
    }
    forall a, b, d | a in points && b in points && d in points && PointLess(a, b) && PointLess(b, d)
      ensures PointLess(a, d)
    {
      if StringLess(a.txid, b.txid) && StringLess(b.txid, d.txid) {
        StringLessTransitive(a.txid, b.txid, d.txid);
      }
    }
  }

  lemma RowsOrdered(c: Crypto, state: ChainState, points: seq<Outpoint>, rows: seq<UtxoRow>)
    requires Sorting.Sorted(PointLess, points) && |rows| == |points|
    requires forall j :: 0 <= j < |rows| ==> points[j] in state.utxos && RowFor(c, state, points[j], rows[j])
    ensures InPointOrder(rows)
  {
    hide PointLess, RowOk, ShowsRow;
  }

  /** The members of a set, each once, in some order. */
  method Members<T(==, !new)>(s: set<T>) returns (list: seq<T>)
    ensures Sorting.Distinct(list) && forall x :: x in list <==> x in s
  {
    list := [];
    var rest := s;
    while rest != {}
      invariant rest <= s && Sorting.Distinct(list) && forall x :: x in list <==> x in s && x !in rest
      decreases |rest|
    {
      var x :| x in rest;
      rest := rest - {x};
      list := list + [x];
    }
  }

  method EncodeSeen(seen: set<string>) returns (r: Option<seq<string>>)
    ensures r.Some? <==> forall id :: id in seen ==> IsHash(id)
    ensures r.Some? ==> SeenListed(r.value, |r.value|, seen) && Sorting.Sorted(StringLess, r.value)
  {
    hide IsHash, StringLess, Sorting.Sorted;
    var ids := Members(seen);
    for i := 0 to |ids|
      invariant forall j :: 0 <= j < i ==> IsHash(ids[j])
    {
      if !IsHash(ids[i]) {
        assert ids[i] in seen;
        return None;
      }
    }
    var rows := Sorting.Sort(StringLess, ids);
    SortedLists(ids, rows);
    StringsTotal(ids);
    Sorting.SortSorted(StringLess, ids);
    IdsListed(seen, rows);
    r := Some(rows);
  }

  method EncodeUtxos(c: Crypto, state: ChainState) returns (r: Option<seq<UtxoRow>>)
    ensures r.Some? <==> forall o | o in state.utxos :: OutputStorable(c, state, o)
    ensures r.Some? ==> UtxosListed(c, state.seen, r.value, |r.value|, state.utxos) && InPointOrder(r.value)
  {
    hide OutputStorable, PointLess, UtxosListed, RowFor, Sorting.Sorted;
    var points := Members(state.utxos.Keys);
    var sorted := Sorting.Sort(PointLess, points);
    SortedLists(points, sorted);
    var rows: seq<UtxoRow> := [];
    for i := 0 to |sorted|
      invariant |rows| == i
      invariant forall j :: 0 <= j < i ==> OutputStorable(c, state, sorted[j]) && RowFor(c, state, sorted[j], rows[j])
    {
      var o := sorted[i];
      if !OutputStorable(c, state, o) {
        return None;
      }
      var output := state.utxos[o];
      assert output.amount >= 1 by { StorableAmount(c, state, o); }
      rows := rows + [UtxoRow(o.txid, o.index, EncodeAmount(output.amount).value, output.recipient)];
      RowIsFor(c, state, o, rows[i]);
    }
    RowsListed(c, state, sorted, rows);
    PointsTotal(points);
    Sorting.SortSorted(PointLess, points);
    RowsOrdered(c, state, sorted, rows);
    forall o | o in state.utxos ensures OutputStorable(c, state, o) {
      assert o in sorted;
    }
    r := Some(rows);
  }

  /** `encode_chainstate_rows`; None stands for the storage errors. */
  method EncodeChainstateRows(c: Crypto, state: ChainState) returns (r: Option<(seq<string>, seq<UtxoRow>)>)
    ensures r.Some? <==> Storable(c, state)
    ensures r.Some? ==> Listed(c, r.value.0, r.value.1, state)
    ensures r.Some? ==> Sorting.Sorted(StringLess, r.value.0) && InPointOrder(r.value.1)
  {
    hide IsHash, OutputStorable, SeenListed, UtxosListed, Sorting.Sorted, InPointOrder;
    var seenRows := EncodeSeen(state.seen);
    if seenRows.None? {
      return None;
    }
    var utxoRows := EncodeUtxos(c, state);
    if utxoRows.None? {
      return None;
    }
    r := Some((seenRows.value, utxoRows.value));
  }

  lemma IdsListed(seen: set<string>, rows: seq<string>)
    requires Sorting.Distinct(rows) && forall id :: id in rows <==> id in seen
    requires forall id :: id in seen ==> IsHash(id)
    ensures SeenListed(rows, |rows|, seen)
  {
    hide IsHash;
    forall i | 0 <= i < |rows| ensures IsHash(rows[i]) && rows[i] in seen {
      assert rows[i] in rows;
    }
  }

  lemma StorableAmount(c: Crypto, state: ChainState, o: Outpoint)
    requires o in state.utxos && OutputStorable(c, state, o)
    ensures state.utxos[o].amount >= 1
  {
  }

  /** A row that names the outpoint and reads back as its output. */
  predicate RowFor(c: Crypto, state: ChainState, o: Outpoint, row: UtxoRow)
    requires o in state.utxos
  {
    row.Point() == o && RowOk(c, state.seen, row) && ShowsRow(state.utxos, row)
  }

  lemma RowIsFor(c: Crypto, state: ChainState, o: Outpoint, row: UtxoRow)
    requires o in state.utxos && OutputStorable(c, state, o)
    requires row == UtxoRow(o.txid, o.index, EncodeAmount(state.utxos[o].amount).value, state.utxos[o].recipient)
    ensures RowFor(c, state, o, row)
  {
    hide ValidAddress, Decimal, Number;
    AmountText(state.utxos[o].amount, row.amount);
  }

  lemma SortedLists<T(!new)>(xs: seq<T>, sorted: seq<T>)
    requires Sorting.Distinct(xs) && multiset(xs) == multiset(sorted)
    ensures Sorting.Distinct(sorted) && forall x :: x in sorted <==> x in xs
  {
    Sorting.MultisetDistinct(xs, sorted);
    Sorting.SameMembers(xs, sorted);
  }

  lemma RowsListed(c: Crypto, state: ChainState, points: seq<Outpoint>, rows: seq<UtxoRow>)
    requires Sorting.Distinct(points) && forall o :: o in points <==> o in state.utxos
    requires |rows| == |points|
    requires forall j :: 0 <= j < |rows| ==> points[j] in state.utxos && RowFor(c, state, points[j], rows[j])
    ensures UtxosListed(c, state.seen, rows, |rows|, state.utxos)
  {
    hide RowOk, ShowsRow;
    forall o | o in state.utxos ensures exists i :: 0 <= i < |rows| && rows[i].Point() == o {
      assert o in points;
      var i :| 0 <= i < |points| && points[i] == o;
      assert rows[i].Point() == o;
    }
  }

  // ---- the round trip -----------------------------------------------------------------------------

  /** The tables give their rows in any order. */
  lemma ListedInAnyOrder(c: Crypto, seenRows: seq<string>, utxoRows: seq<UtxoRow>,
                         seenOut: seq<string>, utxoOut: seq<UtxoRow>, state: ChainState)
    requires Listed(c, seenRows, utxoRows, state)
    requires multiset(seenRows) == multiset(seenOut) && multiset(utxoRows) == multiset(utxoOut)
    ensures Listed(c, seenOut, utxoOut, state)
  {
    hide RowOk, ShowsRow, IsHash;
    SortedLists(seenRows, seenOut);
    SortedLists(utxoRows, utxoOut);
    forall i | 0 <= i < |seenOut| ensures IsHash(seenOut[i]) && seenOut[i] in state.seen {
      assert seenOut[i] in seenRows;
    }
    forall id | id in state.seen ensures exists i :: 0 <= i < |seenOut| && seenOut[i] == id {
      assert id in seenRows && id in seenOut;
    }
    forall i | 0 <= i < |utxoOut|
      ensures RowOk(c, state.seen, utxoOut[i]) && utxoOut[i].Point() in state.utxos && ShowsRow(state.utxos, utxoOut[i])
    {
      assert utxoOut[i] in utxoRows;
    }
    forall i, j | 0 <= i < j < |utxoOut| ensures utxoOut[i].Point() != utxoOut[j].Point() {
      assert utxoOut[i] in utxoRows && utxoOut[j] in utxoRows;
      var a :| 0 <= a < |utxoRows| && utxoRows[a] == utxoOut[i];
      var b :| 0 <= b < |utxoRows| && utxoRows[b] == utxoOut[j];
      assert a < b || b < a;
    }
    forall o | o in state.utxos ensures exists i :: 0 <= i < |utxoOut| && utxoOut[i].Point() == o {
      var a :| 0 <= a < |utxoRows| && utxoRows[a].Point() == o;
      assert utxoRows[a] in utxoOut;
    }
  }

  /** Whatever order the tables give back the written rows in, reading restores the state exactly. */
  lemma RowsRoundTrip(c: Crypto, seenRows: seq<string>, utxoRows: seq<UtxoRow>,
                      seenOut: seq<string>, utxoOut: seq<UtxoRow>, state: ChainState)
    requires Listed(c, seenRows, utxoRows, state)
    requires multiset(seenRows) == multiset(seenOut) && multiset(utxoRows) == multiset(utxoOut)
    ensures ReadRows(c, seenOut, utxoOut) == Some(state)
  {
    hide Listed, ReadRows;
    ListedInAnyOrder(c, seenRows, utxoRows, seenOut, utxoOut, state);
    ReadRowsExact(c, seenOut, utxoOut, state);
  }

  // ---- every ledger state can be written ------------------------------------------------------------

  /** Identifiers are digests, and every unspent output passed validation when it was created. */
  ghost predicate WellKept(c: Crypto, u: Utxos, seen: set<string>) {
    && (forall id :: id in seen ==> IsHash(id))
    && (forall o :: o in u ==> o.index >= 0 && IsValidOutput(c, u[o]))
  }

  lemma IdIsHash(c: Crypto, tx: Transaction)
    requires DigestLaw(c)
    ensures IsHash(TxId(c, tx))
  {
    hide IsHash;
  }

  lemma CreatedKept(c: Crypto, u: Utxos, seen: set<string>, tx: Transaction)
    requires WellKept(c, u, seen) && DigestLaw(c)
    requires forall i :: 0 <= i < |tx.outputs| ==> IsValidOutput(c, tx.outputs[i])
    ensures WellKept(c, u + Created(c, tx), seen + {TxId(c, tx)})
    ensures WellKept(c, Applied(c, u, tx), seen + {TxId(c, tx)})
  {
    hide IsHash, IsValidOutput, DigestLaw;
    IdIsHash(c, tx);
  }

  lemma {:induction false} BatchKept(c: Crypto, txs: seq<Transaction>, n: nat, u: Utxos, seen: set<string>)
    requires n <= |txs| && DigestLaw(c) && WellKept(c, u, seen) && ApplyFirst(c, txs, n, u, seen).Some?
    ensures var b := ApplyFirst(c, txs, n, u, seen).value; WellKept(c, b.utxos, b.seen)
  {
    hide WellKept, DigestLaw, Applied, CanApply, InputOk, Fee, IsValidOutput;
    if n > 0 {
      BatchKept(c, txs, n - 1, u, seen);
      var before := ApplyFirst(c, txs, n - 1, u, seen).value;
      CreatedKept(c, before.utxos, before.seen, txs[n - 1]);
    }
  }

  lemma BlockKept(c: Crypto, b: Block, state: ChainState)
    requires DigestLaw(c) && WellKept(c, state.utxos, state.seen) && ApplyBlock(c, b, state).Some?
    ensures var next := ApplyBlock(c, b, state).value; WellKept(c, next.utxos, next.seen)
  {
    hide WellKept, DigestLaw, ApplyFirst, IsValidOutput, Created;
    var txs := b.transactions[1..];
    BatchKept(c, txs, |txs|, state.utxos, state.seen);
    var batch := ApplyAll(c, txs, state.utxos, state.seen).value;
    CreatedKept(c, batch.utxos, batch.seen, b.transactions[0]);
  }

  lemma {:induction false} ReplayKept(c: Crypto, blocks: seq<Block>, n: nat, now: int)
    requires n <= |blocks| && DigestLaw(c) && Replay(c, blocks, n, now).Some?
    ensures var state := Replay(c, blocks, n, now).value; WellKept(c, state.utxos, state.seen)
  {
    hide DigestLaw, ValidHeader, ValidStructure, ApplyBlock, Hashes, IsValidOutput, IsHash;
    if n > 1 {
      ReplayKept(c, blocks, n - 1, now);
      BlockKept(c, blocks[n - 1], Replay(c, blocks, n - 1, now).value);
    }
  }

  /** A replayed state is refused by the encoder exactly when an output index exceeds the column's range. */
  lemma ReplayedStorable(c: Crypto, blocks: seq<Block>, now: int)
    requires DigestLaw(c) && Replay(c, blocks, |blocks|, now).Some?
    ensures var state := Replay(c, blocks, |blocks|, now).value;
      Storable(c, state) <==> forall o :: o in state.utxos ==> o.index <= MAX_SQLITE_INTEGER
  {
    hide DigestLaw, Replay, IsValidOutput, IsHash;
    ReplayKept(c, blocks, |blocks|, now);
    ReplayAnchored(c, blocks, |blocks|, now);
    var state := Replay(c, blocks, |blocks|, now).value;
    forall o | o in state.utxos ensures OutputStorable(c, state, o) <==> o.index <= MAX_SQLITE_INTEGER {
    }
  }

  /**
   The encoders accept every chain a node can reach, unless a height, a revision or an output
   index exceeds the integer column.
   */
  lemma ReachedIsEncodable(c: Crypto, ch: Chain, clock: int, revision: int)
    requires ChainInv(c, ch, clock) && DigestLaw(c) && ch.blocks != []
    ensures Encodable(c, ch, revision)
       <==> |ch.blocks| - 1 <= MAX_SQLITE_INTEGER && revision <= MAX_SQLITE_INTEGER
            && forall o :: o in ch.state.utxos ==> o.index <= MAX_SQLITE_INTEGER
  {
    hide Replay, IsHash, Storable, IsValidOutput, ApplyFirst, EntryOk, Anchored;
    ReplayedStorable(c, ch.blocks, clock);
  }

  /** A write by an up-to-date object lands unless the commit is lost or a number outgrows its column. */
  lemma UpToDateWriteLands(c: Crypto, s: System, id: nat, op: Operation, fault: Fault)
    requires SystemInv(c, s) && DigestLaw(c) && id in s.instances
    requires !s.instances[id].storageFailed && !s.instances[id].closed
    requires s.instances[id].chain.blocks != [] && Accepted(c, s.instances[id].chain, op)
    requires s.instances[id].revision == |s.history| - 1
    ensures var next := Step(c, s.instances[id].chain, op);
      WriteLands(c, s, s.instances[id], op, fault)
      <==> && |next.blocks| - 1 <= MAX_SQLITE_INTEGER && |s.history| <= MAX_SQLITE_INTEGER
           && (forall o :: o in next.state.utxos ==> o.index <= MAX_SQLITE_INTEGER)
           && fault != LostBeforeCommit
  {
    hide ChainInv, Step, Accepted, Encodable, HistoryStep, DiskOf, DigestLaw;
    var inst := s.instances[id];
    assert ShowsCommitted(s.history, inst);
    StepConfig(c, inst.chain, op);
    StepKeepsInv(c, inst.chain, s.clock, op);
    ReachedIsEncodable(c, Step(c, inst.chain, op), ClockAfter(s.clock, op), |s.history|);
  }
}
