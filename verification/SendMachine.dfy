/**
 The idempotent send operation (wallet/service.py) as a machine over its await points:
 durable records, one lock per user, and a process that may stop between any two steps.
 What the node answers, and whether a statement's outcome is lost, is the environment's choice.
 */
module SendMachine {
  import opened Prelude
  import opened Transactions

  datatype Request = Request(recipient: string, amount: int, fee: int)

  datatype Slot = Slot(user: nat, key: string)

  datatype RecordState = Reserved | Prepared | Accepted | Rejected

  /** A row of idempotency_records: signed bytes and txid are absent until prepared. */
  datatype Record = Record(fingerprint: string, state: RecordState, data: Option<Transaction>,
                           resultTxId: Option<string>)

  datatype Phase =
    | Waiting
    | Building
    | Finding(tx: Transaction)
    | Submitting(tx: Transaction)
    | FindingAgain(tx: Transaction)
    | Finishing(tx: Transaction, accepted: bool)

  datatype Task = Task(slot: Slot, request: Request, phase: Phase)

  datatype Handed = Handed(slot: Slot, request: Request, tx: Transaction)
  datatype Receipt = Receipt(slot: Slot, request: Request, txid: string)
  datatype Refusal = Conflict | AlreadyRejected

  /** `handed`, `receipts` and `refused` log what was given to the node and to callers. */
  datatype State = State(records: map<Slot, Record>, tasks: map<nat, Task>,
                         handed: seq<Handed>, receipts: seq<Receipt>, refused: seq<(nat, Refusal)>)

  /** What one task may do next; the parameters are the answers it gets. */
  datatype Progress =
    | Enter
    | Built(tx: Transaction)
    | BuiltUnconfirmed(tx: Transaction)
    | BuildFailed(deleted: bool)
    | Looked(found: bool)
    | Submitted(result: bool)
    | SubmitLost
    | LookedAgain(found: bool)
    | Finished
    | FinishLost(written: bool)
    | Abandoned

  datatype Event =
    | Begin(id: nat, slot: Slot, request: Request)
    | Advance(id: nat, progress: Progress)
    | Restart

  /** The fingerprint a record keeps of the request, as a digest of its canonical bytes. */
  function Fingerprint(c: Crypto, r: Request, encode: Request -> Bytes): string {
    c.sha256Hex(encode(r))
  }

  /** Nobody else of this user is past the lock. */
  predicate LockFree(s: State, user: nat) {
    forall t :: t in s.tasks && s.tasks[t].slot.user == user ==> s.tasks[t].phase.Waiting?
  }

  function Ended(s: State, id: nat): State {
    s.(tasks := s.tasks - {id})
  }

  function Moved(s: State, id: nat, phase: Phase): State
    requires id in s.tasks
  {
    s.(tasks := s.tasks[id := s.tasks[id].(phase := phase)])
  }

  /** Taking the lock and consulting the record, with no await in between. */
  function EnterStep(c: Crypto, encode: Request -> Bytes, s: State, id: nat): State
    requires id in s.tasks
  {
    var slot := s.tasks[id].slot;
    var fingerprint := Fingerprint(c, s.tasks[id].request, encode);
    if slot !in s.records then
      Moved(s.(records := s.records[slot := Record(fingerprint, Reserved, None, None)]), id, Building)
    else
      var record := s.records[slot];
      if record.fingerprint != fingerprint then Ended(s, id).(refused := s.refused + [(id, Conflict)])
      else if record.state.Accepted? && record.resultTxId.Some? then
        Ended(s, id).(receipts := s.receipts + [Receipt(slot, s.tasks[id].request, record.resultTxId.value)])
      else if record.state.Rejected? then Ended(s, id).(refused := s.refused + [(id, AlreadyRejected)])
      else if record.data.Some? then Moved(s, id, Finding(record.data.value))
      else Moved(s, id, Building)
  }

  /** The exact signed transaction is stored before it crosses the node boundary. */
  function Stored(c: Crypto, s: State, slot: Slot, tx: Transaction): State
    requires slot in s.records
  {
    var prepared := s.records[slot].(data := Some(tx), resultTxId := Some(TxId(c, tx)), state := Prepared);
    s.(records := s.records[slot := prepared])
  }

  function Concluded(s: State, slot: Slot, accepted: bool): State
    requires slot in s.records
  {
    s.(records := s.records[slot := s.records[slot].(state := if accepted then Accepted else Rejected)])
  }

  /** One step of task `id`; progress that does not fit its phase changes nothing. */
  function TaskStep(c: Crypto, encode: Request -> Bytes, s: State, id: nat, progress: Progress): State
    requires id in s.tasks
  {
    var slot, phase := s.tasks[id].slot, s.tasks[id].phase;
    match progress
    case Enter =>
      if phase.Waiting? && LockFree(s, slot.user) then EnterStep(c, encode, s, id) else s
    case Built(tx) =>
      if phase.Building? && slot in s.records then Moved(Stored(c, s, slot, tx), id, Finding(tx)) else s
    case BuiltUnconfirmed(tx) =>
      if phase.Building? && slot in s.records then Ended(Stored(c, s, slot, tx), id) else s
    case BuildFailed(deleted) =>
      if !phase.Building? then s
      else if deleted && slot in s.records && s.records[slot].state.Reserved? then
        Ended(s.(records := s.records - {slot}), id)
      else Ended(s, id)
    case Looked(found) =>
      if phase.Finding? then Moved(s, id, if found then Finishing(phase.tx, true) else Submitting(phase.tx)) else s
    case Submitted(result) =>
      if phase.Submitting? then
        Moved(s.(handed := s.handed + [Handed(slot, s.tasks[id].request, phase.tx)]), id,
              if result then Finishing(phase.tx, true) else FindingAgain(phase.tx))
      else s
    case SubmitLost =>
      if phase.Submitting? then Ended(s.(handed := s.handed + [Handed(slot, s.tasks[id].request, phase.tx)]), id) else s
    case LookedAgain(found) =>
      if phase.FindingAgain? then Moved(s, id, Finishing(phase.tx, found)) else s
    case Finished =>
      if phase.Finishing? && slot in s.records then Answered(c, s, id) else s
    case FinishLost(written) =>
      if phase.Finishing? && slot in s.records then
        Ended(if written then Concluded(s, slot, phase.accepted) else s, id)
      else s
    case Abandoned =>
      if phase.Finding? || phase.Submitting? || phase.FindingAgain? then Ended(s, id) else s
  }

  /** The final update succeeded: answer the caller with a receipt or an error. */
  function Answered(c: Crypto, s: State, id: nat): State
    requires id in s.tasks && s.tasks[id].phase.Finishing? && s.tasks[id].slot in s.records
  {
    var slot, phase := s.tasks[id].slot, s.tasks[id].phase;
    var t := Ended(Concluded(s, slot, phase.accepted), id);
    if phase.accepted then t.(receipts := s.receipts + [Receipt(slot, s.tasks[id].request, TxId(c, phase.tx))])
    else t.(refused := s.refused + [(id, AlreadyRejected)])
  }

  function Next(c: Crypto, encode: Request -> Bytes, s: State, e: Event): State {
    match e
    case Begin(id, slot, request) =>
      if id in s.tasks then s else s.(tasks := s.tasks[id := Task(slot, request, Waiting)])
    case Advance(id, progress) => if id in s.tasks then TaskStep(c, encode, s, id, progress) else s
    case Restart => s.(tasks := map[])
  }

  function Run(c: Crypto, encode: Request -> Bytes, s: State, events: seq<Event>, n: nat): State
    requires n <= |events|
  {
    if n == 0 then s else Next(c, encode, Run(c, encode, s, events, n - 1), events[n - 1])
  }

  const Start: State := State(map[], map[], [], [], [])

  // ---- the invariant ------------------------------------------------------------------

  /** The transaction a task past the build phase is carrying. */
  predicate Carries(phase: Phase, tx: Transaction) {
    match phase
    case Finding(t) => t == tx
    case Submitting(t) => t == tx
    case FindingAgain(t) => t == tx
    case Finishing(t, _) => t == tx
    case _ => false
  }

  ghost predicate RecordOk(c: Crypto, record: Record) {
    if record.data.None? then record.state.Reserved? && record.resultTxId.None?
    else !record.state.Reserved? && record.resultTxId == Some(TxId(c, record.data.value))
  }

  /** A task inside the lock agrees with its record. */
  ghost predicate TaskOk(c: Crypto, encode: Request -> Bytes, s: State, task: Task) {
    !task.phase.Waiting? ==>
      && task.slot in s.records
      && s.records[task.slot].fingerprint == Fingerprint(c, task.request, encode)
      && (task.phase.Building? ==> s.records[task.slot].data.None?)
      && (!task.phase.Building? ==>
            && s.records[task.slot].data.Some? && Carries(task.phase, s.records[task.slot].data.value)
            && s.records[task.slot].state.Prepared?)
  }

  ghost predicate OneInside(s: State) {
    forall t, u | t in s.tasks && u in s.tasks && s.tasks[t].slot.user == s.tasks[u].slot.user
      :: s.tasks[t].phase.Waiting? || s.tasks[u].phase.Waiting? || t == u
  }

  /** What was handed over or promised is what the record holds. */
  ghost predicate LogsOk(c: Crypto, encode: Request -> Bytes, s: State) {
    && (forall k :: 0 <= k < |s.handed| ==>
          s.handed[k].slot in s.records && s.records[s.handed[k].slot].data == Some(s.handed[k].tx)
          && s.records[s.handed[k].slot].fingerprint == Fingerprint(c, s.handed[k].request, encode))
    && (forall k :: 0 <= k < |s.receipts| ==>
          s.receipts[k].slot in s.records && s.records[s.receipts[k].slot].state.Accepted?
          && s.records[s.receipts[k].slot].resultTxId == Some(s.receipts[k].txid)
          && s.records[s.receipts[k].slot].fingerprint == Fingerprint(c, s.receipts[k].request, encode))
  }

  ghost predicate Inv(c: Crypto, encode: Request -> Bytes, s: State) {
    && (forall slot :: slot in s.records ==> RecordOk(c, s.records[slot]))
    && (forall t :: t in s.tasks ==> TaskOk(c, encode, s, s.tasks[t]))
    && OneInside(s)
    && LogsOk(c, encode, s)
  }

  /** A record with a prepared transaction keeps its request and that transaction for ever. */
  ghost predicate Persists(before: Record, after: Record) {
    before.data.Some? ==>
      after.data == before.data && after.resultTxId == before.resultTxId && after.fingerprint == before.fingerprint
      && (before.state.Accepted? ==> after.state.Accepted?) && (before.state.Rejected? ==> after.state.Rejected?)
  }

  ghost predicate AllPersist(s: State, t: State) {
    forall slot :: slot in s.records && s.records[slot].data.Some? ==>
      slot in t.records && Persists(s.records[slot], t.records[slot])
  }

  lemma OthersStay(c: Crypto, encode: Request -> Bytes, s: State, t: State, id: nat)
    requires Inv(c, encode, s) && id in s.tasks
    requires forall i :: i in t.tasks && i != id ==> i in s.tasks && t.tasks[i] == s.tasks[i]
    requires forall slot :: slot != s.tasks[id].slot ==>
      (slot in t.records <==> slot in s.records) && (slot in s.records ==> t.records[slot] == s.records[slot])
    requires !s.tasks[id].phase.Waiting? || LockFree(s, s.tasks[id].slot.user)
    ensures forall i :: i in t.tasks && i != id ==> TaskOk(c, encode, t, t.tasks[i])
    ensures id in t.tasks && t.tasks[id].slot == s.tasks[id].slot ==> OneInside(t)
    ensures id !in t.tasks ==> OneInside(t)
  {
    hide Fingerprint;
  }

  lemma EnterKeepsInv(c: Crypto, encode: Request -> Bytes, s: State, id: nat)
    requires Inv(c, encode, s) && id in s.tasks && s.tasks[id].phase.Waiting? && LockFree(s, s.tasks[id].slot.user)
    ensures Inv(c, encode, EnterStep(c, encode, s, id)) && AllPersist(s, EnterStep(c, encode, s, id))
  {
    hide Fingerprint, TxId, Inv;
    var slot := s.tasks[id].slot;
    EndKeepsInv(c, encode, s, id);
    if slot !in s.records {
      ReserveKeepsInv(c, encode, s, id);
    } else if s.records[slot].fingerprint == Fingerprint(c, s.tasks[id].request, encode) {
      ResumeKeepsInv(c, encode, s, id);
    } else {
      LogRefusal(c, encode, Ended(s, id), (id, Conflict));
    }
  }

  lemma LogRefusal(c: Crypto, encode: Request -> Bytes, s: State, r: (nat, Refusal))
    requires Inv(c, encode, s)
    ensures Inv(c, encode, s.(refused := s.refused + [r]))
  {
    hide Fingerprint, TxId;
  }

  lemma ReserveKeepsInv(c: Crypto, encode: Request -> Bytes, s: State, id: nat)
    requires Inv(c, encode, s) && id in s.tasks && s.tasks[id].phase.Waiting? && LockFree(s, s.tasks[id].slot.user)
    requires s.tasks[id].slot !in s.records
    ensures Inv(c, encode, EnterStep(c, encode, s, id)) && AllPersist(s, EnterStep(c, encode, s, id))
  {
    hide Fingerprint, TxId;
    OthersStay(c, encode, s, EnterStep(c, encode, s, id), id);
  }

  lemma ResumeKeepsInv(c: Crypto, encode: Request -> Bytes, s: State, id: nat)
    requires Inv(c, encode, s) && id in s.tasks && s.tasks[id].phase.Waiting? && LockFree(s, s.tasks[id].slot.user)
    requires s.tasks[id].slot in s.records
    requires s.records[s.tasks[id].slot].fingerprint == Fingerprint(c, s.tasks[id].request, encode)
    ensures Inv(c, encode, EnterStep(c, encode, s, id)) && AllPersist(s, EnterStep(c, encode, s, id))
  {
    hide Fingerprint, TxId, OneInside;
    assert RecordOk(c, s.records[s.tasks[id].slot]);
    OthersStay(c, encode, s, EnterStep(c, encode, s, id), id);
  }

  lemma StorePersists(c: Crypto, encode: Request -> Bytes, s: State, id: nat, tx: Transaction, ends: bool)
    requires Inv(c, encode, s) && id in s.tasks && s.tasks[id].phase.Building?
    ensures s.tasks[id].slot in s.records && s.records[s.tasks[id].slot].data.None?
    ensures var t := Stored(c, s, s.tasks[id].slot, tx);
      AllPersist(s, if ends then Ended(t, id) else Moved(t, id, Finding(tx)))
  {
    hide Fingerprint, TxId, RecordOk, OneInside, LogsOk;
    assert TaskOk(c, encode, s, s.tasks[id]);
  }

  /** Nothing was handed over or answered yet under the slot of a task that is still building. */
  lemma StoreKeepsLogs(c: Crypto, encode: Request -> Bytes, s: State, id: nat, tx: Transaction, ends: bool)
    requires Inv(c, encode, s) && id in s.tasks && s.tasks[id].phase.Building?
    ensures s.tasks[id].slot in s.records
    ensures var t := Stored(c, s, s.tasks[id].slot, tx);
      LogsOk(c, encode, if ends then Ended(t, id) else Moved(t, id, Finding(tx)))
  {
    hide Fingerprint, TxId, OneInside;
    assert TaskOk(c, encode, s, s.tasks[id]);
    assert RecordOk(c, s.records[s.tasks[id].slot]);
  }

  lemma StoreKeepsInv(c: Crypto, encode: Request -> Bytes, s: State, id: nat, tx: Transaction, ends: bool)
    requires Inv(c, encode, s) && id in s.tasks && s.tasks[id].phase.Building?
    ensures s.tasks[id].slot in s.records
    ensures var t := Stored(c, s, s.tasks[id].slot, tx);
      var u := if ends then Ended(t, id) else Moved(t, id, Finding(tx));
      Inv(c, encode, u) && AllPersist(s, u)
  {
    hide Fingerprint, TxId, OneInside, AllPersist, LogsOk;
    assert TaskOk(c, encode, s, s.tasks[id]);
    StorePersists(c, encode, s, id, tx, ends);
    StoreKeepsLogs(c, encode, s, id, tx, ends);
    var t := Stored(c, s, s.tasks[id].slot, tx);
    OthersStay(c, encode, s, if ends then Ended(t, id) else Moved(t, id, Finding(tx)), id);
  }

  lemma MoveKeepsInv(c: Crypto, encode: Request -> Bytes, s: State, id: nat, phase: Phase, tx: Transaction)
    requires Inv(c, encode, s) && id in s.tasks && Carries(s.tasks[id].phase, tx) && Carries(phase, tx)
    ensures Inv(c, encode, Moved(s, id, phase)) && AllPersist(s, Moved(s, id, phase))
  {
    hide Fingerprint, TxId;
    assert TaskOk(c, encode, s, s.tasks[id]);
    OthersStay(c, encode, s, Moved(s, id, phase), id);
  }

  lemma EndKeepsInv(c: Crypto, encode: Request -> Bytes, s: State, id: nat)
    requires Inv(c, encode, s) && id in s.tasks
    ensures Inv(c, encode, Ended(s, id)) && AllPersist(s, Ended(s, id))
  {
    hide Fingerprint, TxId;
  }

  lemma HandKeepsInv(c: Crypto, encode: Request -> Bytes, s: State, id: nat, tx: Transaction)
    requires Inv(c, encode, s) && id in s.tasks && Carries(s.tasks[id].phase, tx)
    ensures Inv(c, encode, s.(handed := s.handed + [Handed(s.tasks[id].slot, s.tasks[id].request, tx)]))
  {
    hide Fingerprint, TxId;
    assert TaskOk(c, encode, s, s.tasks[id]);
  }

  lemma DeleteKeepsInv(c: Crypto, encode: Request -> Bytes, s: State, id: nat)
    requires Inv(c, encode, s) && id in s.tasks && s.tasks[id].phase.Building?
    ensures s.tasks[id].slot in s.records && s.records[s.tasks[id].slot].data.None?
    ensures var t := Ended(s.(records := s.records - {s.tasks[id].slot}), id);
      Inv(c, encode, t) && AllPersist(s, t)
  {
    hide Fingerprint, TxId;
    assert TaskOk(c, encode, s, s.tasks[id]);
    var slot := s.tasks[id].slot;
    assert RecordOk(c, s.records[slot]);
    var t := Ended(s.(records := s.records - {slot}), id);
    OthersStay(c, encode, s, t, id);
  }

  lemma ConcludeKeepsInv(c: Crypto, encode: Request -> Bytes, s: State, id: nat)
    requires Inv(c, encode, s) && id in s.tasks && s.tasks[id].phase.Finishing?
    ensures s.tasks[id].slot in s.records
    ensures var t := Ended(Concluded(s, s.tasks[id].slot, s.tasks[id].phase.accepted), id);
      && Inv(c, encode, t) && AllPersist(s, t)
      && s.tasks[id].slot in t.records
      && t.records[s.tasks[id].slot].resultTxId == Some(TxId(c, s.tasks[id].phase.tx))
      && t.records[s.tasks[id].slot].fingerprint == Fingerprint(c, s.tasks[id].request, encode)
      && (s.tasks[id].phase.accepted ==> t.records[s.tasks[id].slot].state.Accepted?)
      && t.receipts == s.receipts && t.refused == s.refused
  {
    hide Fingerprint, TxId;
    assert TaskOk(c, encode, s, s.tasks[id]);
    var slot := s.tasks[id].slot;
    assert RecordOk(c, s.records[slot]);
    OthersStay(c, encode, s, Ended(Concluded(s, slot, s.tasks[id].phase.accepted), id), id);
  }

  /** Every step of every task, and a restart at any moment, keeps the invariant. */
  lemma NextKeepsInv(c: Crypto, encode: Request -> Bytes, s: State, e: Event)
    requires Inv(c, encode, s)
    ensures Inv(c, encode, Next(c, encode, s, e)) && AllPersist(s, Next(c, encode, s, e))
  {
    hide Fingerprint, TxId, Inv, TaskStep;
    match e {
      case Begin(id, slot, request) => BeginKeepsInv(c, encode, s, id, slot, request);
      case Restart => RestartKeepsInv(c, encode, s);
      case Advance(id, progress) => if id in s.tasks { TaskStepKeepsInv(c, encode, s, id, progress); }
    }
  }

  lemma BeginKeepsInv(c: Crypto, encode: Request -> Bytes, s: State, id: nat, slot: Slot, request: Request)
    requires Inv(c, encode, s)
    ensures Inv(c, encode, Next(c, encode, s, Begin(id, slot, request)))
    ensures AllPersist(s, Next(c, encode, s, Begin(id, slot, request)))
  {
    hide Fingerprint, TxId;
  }

  lemma RestartKeepsInv(c: Crypto, encode: Request -> Bytes, s: State)
    requires Inv(c, encode, s)
    ensures Inv(c, encode, s.(tasks := map[])) && AllPersist(s, s.(tasks := map[]))
  {
    hide Fingerprint, TxId;
  }

  lemma TaskStepKeepsInv(c: Crypto, encode: Request -> Bytes, s: State, id: nat, progress: Progress)
    requires Inv(c, encode, s) && id in s.tasks
    ensures Inv(c, encode, TaskStep(c, encode, s, id, progress)) && AllPersist(s, TaskStep(c, encode, s, id, progress))
  {
    hide Fingerprint, TxId, EnterStep, Inv, Stored, Concluded, LockFree, Answered, Ended, Moved;
    var phase := s.tasks[id].phase;
    var given := s;
    if phase.Submitting? {
      HandKeepsInv(c, encode, s, id, phase.tx);
      given := s.(handed := s.handed + [Handed(s.tasks[id].slot, s.tasks[id].request, phase.tx)]);
    }
    EndKeepsInv(c, encode, s, id);
    EndKeepsInv(c, encode, given, id);
    match progress {
      case Enter => if phase.Waiting? && LockFree(s, s.tasks[id].slot.user) { EnterKeepsInv(c, encode, s, id); }
      case Built(tx) => if phase.Building? { StoreKeepsInv(c, encode, s, id, tx, false); }
      case BuiltUnconfirmed(tx) => if phase.Building? { StoreKeepsInv(c, encode, s, id, tx, true); }
      case BuildFailed(_) => if phase.Building? { DeleteKeepsInv(c, encode, s, id); }
      case Looked(found) =>
        if phase.Finding? {
          MoveKeepsInv(c, encode, s, id, if found then Finishing(phase.tx, true) else Submitting(phase.tx), phase.tx);
        }
      case Submitted(result) =>
        if phase.Submitting? {
          var after := if result then Finishing(phase.tx, true) else FindingAgain(phase.tx);
          MoveKeepsInv(c, encode, given, id, after, phase.tx);
        }
      case SubmitLost =>
      case LookedAgain(found) =>
        if phase.FindingAgain? { MoveKeepsInv(c, encode, s, id, Finishing(phase.tx, found), phase.tx); }
      case Finished => if phase.Finishing? { AnswerKeepsInv(c, encode, s, id); }
      case FinishLost(_) => if phase.Finishing? { ConcludeKeepsInv(c, encode, s, id); }
      case Abandoned =>
    }
  }

  lemma AnswerKeepsInv(c: Crypto, encode: Request -> Bytes, s: State, id: nat)
    requires Inv(c, encode, s) && id in s.tasks && s.tasks[id].phase.Finishing?
    ensures s.tasks[id].slot in s.records
    ensures Inv(c, encode, Answered(c, s, id)) && AllPersist(s, Answered(c, s, id))
  {
    hide Fingerprint, TxId, TaskOk, Inv, Concluded;
    ConcludeKeepsInv(c, encode, s, id);
    var slot, phase := s.tasks[id].slot, s.tasks[id].phase;
    var t := Ended(Concluded(s, slot, phase.accepted), id);
    if phase.accepted {
      LogReceipt(c, encode, t, Receipt(slot, s.tasks[id].request, TxId(c, phase.tx)));
    } else {
      LogRefusal(c, encode, t, (id, AlreadyRejected));
    }
  }

  lemma LogReceipt(c: Crypto, encode: Request -> Bytes, s: State, r: Receipt)
    requires Inv(c, encode, s) && r.slot in s.records && s.records[r.slot].state.Accepted?
    requires s.records[r.slot].resultTxId == Some(r.txid)
    requires s.records[r.slot].fingerprint == Fingerprint(c, r.request, encode)
    ensures Inv(c, encode, s.(receipts := s.receipts + [r]))
  {
    hide Fingerprint, TxId;
  }

  lemma {:induction false} RunKeepsInv(c: Crypto, encode: Request -> Bytes, events: seq<Event>, n: nat)
    requires n <= |events|
    ensures Inv(c, encode, Run(c, encode, Start, events, n))
  {
    hide Inv, Next;
    if n == 0 {
      StartInv(c, encode);
    } else {
      RunKeepsInv(c, encode, events, n - 1);
      NextKeepsInv(c, encode, Run(c, encode, Start, events, n - 1), events[n - 1]);
    }
  }

  lemma StartInv(c: Crypto, encode: Request -> Bytes)
    ensures Inv(c, encode, Start)
  {
  }

  /**
   Over any run with retries, rejections, lost outcomes and restarts: all transactions
   handed to the node under one user and key are the same one, and every success receipt
   under that key names its identifier.
   */
  lemma AtMostOneTransaction(c: Crypto, encode: Request -> Bytes, events: seq<Event>, slot: Slot)
    ensures var s := Run(c, encode, Start, events, |events|);
      && (forall i, j | 0 <= i < |s.handed| && 0 <= j < |s.handed|
          :: s.handed[i].slot == slot && s.handed[j].slot == slot ==> s.handed[i].tx == s.handed[j].tx)
      && (forall i, j | 0 <= i < |s.receipts| && 0 <= j < |s.handed|
          :: s.receipts[i].slot == slot && s.handed[j].slot == slot ==> s.receipts[i].txid == TxId(c, s.handed[j].tx))
      && (forall i, j | 0 <= i < |s.receipts| && 0 <= j < |s.receipts|
          :: s.receipts[i].slot == slot && s.receipts[j].slot == slot ==> s.receipts[i].txid == s.receipts[j].txid)
  {
    hide Next, TaskOk;
    RunKeepsInv(c, encode, events, |events|);
    var s := Run(c, encode, Start, events, |events|);
    assert slot in s.records ==> RecordOk(c, s.records[slot]);
  }

  /** A request that differs from the recorded one is refused on entry: no record, log or other task changes. */
  lemma DifferentRequestRefused(c: Crypto, encode: Request -> Bytes, s: State, id: nat)
    requires id in s.tasks && s.tasks[id].phase.Waiting? && LockFree(s, s.tasks[id].slot.user)
    requires s.tasks[id].slot in s.records
    requires s.records[s.tasks[id].slot].fingerprint != Fingerprint(c, s.tasks[id].request, encode)
    ensures var t := Next(c, encode, s, Advance(id, Enter));
      && id !in t.tasks && t.refused == s.refused + [(id, Conflict)]
      && t.records == s.records && t.handed == s.handed && t.receipts == s.receipts
      && t.tasks == s.tasks - {id}
  {
    hide Fingerprint;
  }

  /** A record that holds a prepared transaction keeps it, its request and its outcome through the rest of the run. */
  lemma {:induction false} PreparedForEver(c: Crypto, encode: Request -> Bytes, events: seq<Event>, m: nat, n: nat,
                                           slot: Slot)
    requires m <= n <= |events|
    requires var s := Run(c, encode, Start, events, m); slot in s.records && s.records[slot].data.Some?
    ensures var s, t := Run(c, encode, Start, events, m), Run(c, encode, Start, events, n);
      slot in t.records && Persists(s.records[slot], t.records[slot])
  {
    hide Inv, Next;
    if m < n {
      PreparedForEver(c, encode, events, m, n - 1, slot);
      RunKeepsInv(c, encode, events, n - 1);
      NextKeepsInv(c, encode, Run(c, encode, Start, events, n - 1), events[n - 1]);
    }
  }

  /**
   From the moment a record holds a transaction, whatever the run still brings: everything ever
   handed to the node under that key, and every receipt, belongs to the recorded request.
   A different request under the key is never served.
   */
  lemma OnlyRecordedRequestServed(c: Crypto, encode: Request -> Bytes, events: seq<Event>, m: nat, n: nat, slot: Slot)
    requires m <= n <= |events|
    requires var s := Run(c, encode, Start, events, m); slot in s.records && s.records[slot].data.Some?
    ensures var recorded := Run(c, encode, Start, events, m).records[slot].fingerprint;
      var t := Run(c, encode, Start, events, n);
      && (forall k :: 0 <= k < |t.handed| && t.handed[k].slot == slot ==>
        Fingerprint(c, t.handed[k].request, encode) == recorded)
      && (forall k :: 0 <= k < |t.receipts| && t.receipts[k].slot == slot
            ==> Fingerprint(c, t.receipts[k].request, encode) == recorded)
  {
    hide Next, TaskOk, RecordOk, Fingerprint;
    PreparedForEver(c, encode, events, m, n, slot);
    RunKeepsInv(c, encode, events, n);
  }

  // ---- outcomes come from the node's answers ------------------------------------------------

  /** In state `s`, this step brings the node's word that `tx` is known to it, or was admitted. */
  predicate SaysYes(s: State, e: Event, slot: Slot, tx: Transaction) {
    && e.Advance? && e.id in s.tasks && s.tasks[e.id].slot == slot
    && ((s.tasks[e.id].phase == Finding(tx) && e.progress == Looked(true))
        || (s.tasks[e.id].phase == Submitting(tx) && e.progress == Submitted(true))
        || (s.tasks[e.id].phase == FindingAgain(tx) && e.progress == LookedAgain(true)))
  }

  /** In state `s`, this step brings the node's word that `tx` is still unknown after it was refused. */
  predicate SaysNo(s: State, e: Event, slot: Slot, tx: Transaction) {
    && e.Advance? && e.id in s.tasks && s.tasks[e.id].slot == slot
    && s.tasks[e.id].phase == FindingAgain(tx) && e.progress == LookedAgain(false)
  }

  /** The node gave that answer at one of the first `n` steps. */
  ghost predicate Answer(c: Crypto, encode: Request -> Bytes, events: seq<Event>, n: nat, slot: Slot, tx: Transaction,
                         yes: bool)
    requires n <= |events|
  {
    exists k: nat :: k < n && AnswerAt(c, encode, events, k, slot, tx, yes)
  }

  ghost predicate AnswerAt(c: Crypto, encode: Request -> Bytes, events: seq<Event>, k: nat, slot: Slot, tx: Transaction,
                           yes: bool)
    requires k < |events|
  {
    var s := Run(c, encode, Start, events, k);
    if yes then SaysYes(s, events[k], slot, tx) else SaysNo(s, events[k], slot, tx)
  }

  /** A record that concluded, with which outcome and transaction. */
  predicate Concludes(s: State, slot: Slot, tx: Transaction, yes: bool) {
    slot in s.records && s.records[slot].data == Some(tx) && s.records[slot].state == if yes then Accepted else Rejected
  }

  predicate Finishes(s: State, id: nat, slot: Slot, tx: Transaction, yes: bool) {
    id in s.tasks && s.tasks[id].slot == slot && s.tasks[id].phase == Finishing(tx, yes)
  }

  ghost predicate Grounded(c: Crypto, encode: Request -> Bytes, events: seq<Event>, n: nat)
    requires n <= |events|
  {
    var s := Run(c, encode, Start, events, n);
    && (forall slot, tx, yes :: Concludes(s, slot, tx, yes) ==> Answer(c, encode, events, n, slot, tx, yes))
    && (forall id, slot, tx, yes :: Finishes(s, id, slot, tx, yes) ==> Answer(c, encode, events, n, slot, tx, yes))
  }

  /** A task comes to its final update only through an answer. */
  lemma FinishesStep(c: Crypto, encode: Request -> Bytes, s: State, e: Event, id: nat, slot: Slot, tx: Transaction,
                     yes: bool)
    requires Finishes(Next(c, encode, s, e), id, slot, tx, yes)
    ensures Finishes(s, id, slot, tx, yes) || (if yes then SaysYes(s, e, slot, tx) else SaysNo(s, e, slot, tx))
  {
    hide Fingerprint, TxId;
  }

  /** A record concludes only through the final update of a task that carries its transaction. */
  lemma ConcludesStep(c: Crypto, encode: Request -> Bytes, s: State, e: Event, slot: Slot, tx: Transaction, yes: bool)
    requires Inv(c, encode, s) && Concludes(Next(c, encode, s, e), slot, tx, yes)
    ensures Concludes(s, slot, tx, yes) || (e.Advance? && Finishes(s, e.id, slot, tx, yes))
  {
    hide Fingerprint, TxId, OneInside, LogsOk;
    if e.Advance? && e.id in s.tasks {
      assert TaskOk(c, encode, s, s.tasks[e.id]);
    }
  }

  lemma {:induction false} RunGrounded(c: Crypto, encode: Request -> Bytes, events: seq<Event>, n: nat)
    requires n <= |events|
    ensures Grounded(c, encode, events, n)
  {
    hide Next, Inv, Concludes, Finishes, SaysYes, SaysNo;
    if n == 0 {
      NothingConcluded();
    } else {
      RunGrounded(c, encode, events, n - 1);
      RunKeepsInv(c, encode, events, n - 1);
      var s, e, t := Run(c, encode, Start, events, n - 1), events[n - 1], Run(c, encode, Start, events, n);
      forall id, slot, tx, yes | Finishes(t, id, slot, tx, yes) ensures Answer(c, encode, events, n, slot, tx, yes) {
        FinishesStep(c, encode, s, e, id, slot, tx, yes);
        AnswerGrows(c, encode, events, n, slot, tx, yes);
      }
      forall slot, tx, yes | Concludes(t, slot, tx, yes) ensures Answer(c, encode, events, n, slot, tx, yes) {
        ConcludesStep(c, encode, s, e, slot, tx, yes);
        AnswerGrows(c, encode, events, n, slot, tx, yes);
      }
    }
  }

  lemma NothingConcluded()
    ensures forall slot, tx, yes :: !Concludes(Start, slot, tx, yes)
    ensures forall id, slot, tx, yes :: !Finishes(Start, id, slot, tx, yes)
  {
  }

  lemma AnswerGrows(c: Crypto, encode: Request -> Bytes, events: seq<Event>, n: nat, slot: Slot, tx: Transaction,
                    yes: bool)
    requires 0 < n <= |events|
    ensures Answer(c, encode, events, n - 1, slot, tx, yes) ==> Answer(c, encode, events, n, slot, tx, yes)
    ensures AnswerAt(c, encode, events, n - 1, slot, tx, yes) ==> Answer(c, encode, events, n, slot, tx, yes)
  {
    hide AnswerAt;
  }

  /**
   In every run, a success receipt means that the node itself said it knows or admitted the
   transaction it names, and a key is marked rejected only after the node, asked again, did
   not know its transaction.
   */
  lemma ReceiptsAreGrounded(c: Crypto, encode: Request -> Bytes, events: seq<Event>, n: nat)
    requires n <= |events|
    ensures var s := Run(c, encode, Start, events, n);
      && (forall k :: 0 <= k < |s.receipts| ==>
            var slot := s.receipts[k].slot;
            slot in s.records && s.records[slot].data.Some?
            && s.receipts[k].txid == TxId(c, s.records[slot].data.value)
            && Answer(c, encode, events, n, slot, s.records[slot].data.value, true))
      && (forall slot :: slot in s.records && s.records[slot].state.Rejected? ==>
            s.records[slot].data.Some? && Answer(c, encode, events, n, slot, s.records[slot].data.value, false))
  {
    hide Next, Run, Answer, TaskOk, OneInside;
    RunKeepsInv(c, encode, events, n);
    RunGrounded(c, encode, events, n);
    var s := Run(c, encode, Start, events, n);
    forall slot | slot in s.records && !s.records[slot].state.Reserved? && !s.records[slot].state.Prepared?
      ensures s.records[slot].data.Some?
              && Concludes(s, slot, s.records[slot].data.value, s.records[slot].state.Accepted?)
    {
      assert RecordOk(c, s.records[slot]);
    }
  }

  /** A retry under an accepted record gets the recorded identifier at once. */
  lemma RetrySameReceipt(c: Crypto, encode: Request -> Bytes, t: State, again: nat, slot: Slot, request: Request,
                         tx: Transaction)
    requires again !in t.tasks && slot in t.records && LockFree(t, slot.user)
    requires t.records[slot].fingerprint == Fingerprint(c, request, encode)
    requires t.records[slot].state.Accepted? && t.records[slot].resultTxId == Some(TxId(c, tx))
    ensures var u := Run(c, encode, t, [Begin(again, slot, request), Advance(again, Enter)], 2);
      && u.tasks == t.tasks && u.handed == t.handed && u.records == t.records
      && u.receipts == t.receipts + [Receipt(slot, request, TxId(c, tx))]
  {
    hide Fingerprint, TxId;
    var retry := [Begin(again, slot, request), Advance(again, Enter)];
    assert Run(c, encode, t, retry, 0) == t;
    var u1 := Run(c, encode, t, retry, 1);
    assert u1 == Next(c, encode, t, retry[0]);
    assert u1.tasks == t.tasks[again := Task(slot, request, Waiting)];
    assert LockFree(u1, slot.user);
    assert Run(c, encode, t, retry, 2) == Next(c, encode, u1, retry[1]);
    assert u1.tasks - {again} == t.tasks;
  }

  /** The row after the build, and after the node's admission. */
  function RowFor(c: Crypto, encode: Request -> Bytes, request: Request, tx: Transaction, state: RecordState): Record {
    Record(Fingerprint(c, request, encode), state, Some(tx), Some(TxId(c, tx)))
  }

  lemma LockStaysFree(s: State, t: State, user: nat)
    requires LockFree(s, user) && t.tasks == s.tasks
    ensures LockFree(t, user)
  {
  }

  lemma SendPrepares(c: Crypto, encode: Request -> Bytes, s: State, id: nat, slot: Slot, request: Request,
                     tx: Transaction, sent: seq<Event>)
    requires id !in s.tasks && slot !in s.records && LockFree(s, slot.user)
    requires |sent| == 6 && sent[..3] == [Begin(id, slot, request), Advance(id, Enter), Advance(id, Built(tx))]
    ensures Run(c, encode, s, sent, 3)
         == s.(records := s.records[slot := RowFor(c, encode, request, tx, Prepared)],
               tasks := s.tasks[id := Task(slot, request, Finding(tx))])
  {
    hide Fingerprint, TxId;
    assert sent[0] == sent[..3][0] && sent[1] == sent[..3][1] && sent[2] == sent[..3][2];
    assert Run(c, encode, s, sent, 0) == s;
    var s1 := Run(c, encode, s, sent, 1);
    assert s1 == Next(c, encode, s, sent[0]);
    assert LockFree(s1, slot.user);
    var s2 := Run(c, encode, s, sent, 2);
    assert s2 == Next(c, encode, s1, sent[1]);
    assert s2.tasks == s.tasks[id := Task(slot, request, Building)];
    assert Run(c, encode, s, sent, 3) == Next(c, encode, s2, sent[2]);
  }

  lemma SendConcludes(c: Crypto, encode: Request -> Bytes, s: State, id: nat, slot: Slot, request: Request,
                      tx: Transaction, sent: seq<Event>)
    requires id !in s.tasks && |sent| == 6
    requires sent[3..] == [Advance(id, Looked(false)), Advance(id, Submitted(true)), Advance(id, Finished)]
    requires Run(c, encode, s, sent, 3)
          == s.(records := s.records[slot := RowFor(c, encode, request, tx, Prepared)],
                tasks := s.tasks[id := Task(slot, request, Finding(tx))])
    ensures Run(c, encode, s, sent, 6)
         == s.(records := s.records[slot := RowFor(c, encode, request, tx, Accepted)],
               handed := s.handed + [Handed(slot, request, tx)],
               receipts := s.receipts + [Receipt(slot, request, TxId(c, tx))])
  {
    hide Fingerprint, TxId;
    assert sent[3] == sent[3..][0] && sent[4] == sent[3..][1] && sent[5] == sent[3..][2];
    var s3, s4 := Run(c, encode, s, sent, 3), Run(c, encode, s, sent, 4);
    assert s4 == Next(c, encode, s3, sent[3]);
    var s5 := Run(c, encode, s, sent, 5);
    assert s5 == Next(c, encode, s4, sent[4]);
    assert s5.tasks == s.tasks[id := Task(slot, request, Finishing(tx, true))];
    assert s.tasks[id := Task(slot, request, Finishing(tx, true))] - {id} == s.tasks;
    assert Run(c, encode, s, sent, 6) == Next(c, encode, s5, sent[5]);
  }

  /**
   The send operation does get done: on a free key, a build and one admitting answer hand the
   transaction over once and give the caller its identifier; a later retry of the same request
   gets the same receipt and hands nothing over.
   */
  lemma SendThenRetry(c: Crypto, encode: Request -> Bytes, s: State, id: nat, again: nat, slot: Slot, request: Request,
                      tx: Transaction)
    requires id !in s.tasks && again !in s.tasks && slot !in s.records && LockFree(s, slot.user)
    ensures var sent := [Begin(id, slot, request), Advance(id, Enter), Advance(id, Built(tx)),
                         Advance(id, Looked(false)), Advance(id, Submitted(true)), Advance(id, Finished)];
      var t := Run(c, encode, s, sent, 6);
      && t.tasks == s.tasks
      && t.handed == s.handed + [Handed(slot, request, tx)]
      && t.receipts == s.receipts + [Receipt(slot, request, TxId(c, tx))]
      && slot in t.records && t.records[slot].state.Accepted?
      && var u := Run(c, encode, t, [Begin(again, slot, request), Advance(again, Enter)], 2);
         && u.tasks == s.tasks && u.handed == t.handed
         && u.receipts == t.receipts + [Receipt(slot, request, TxId(c, tx))]
  {
    hide Fingerprint, TxId;
    var sent := [Begin(id, slot, request), Advance(id, Enter), Advance(id, Built(tx)), Advance(id, Looked(false)),
                 Advance(id, Submitted(true)), Advance(id, Finished)];
    hide Next, Run;
    SendPrepares(c, encode, s, id, slot, request, tx, sent);
    SendConcludes(c, encode, s, id, slot, request, tx, sent);
    var t := Run(c, encode, s, sent, 6);
    LockStaysFree(s, t, slot.user);
    RetrySameReceipt(c, encode, t, again, slot, request, tx);
  }
}
