/**
 Ownership of inbound reservations across the node's interleaved tasks: readers, local callers,
 the timer, the dispatcher and shutdown (network/node.py, network/peer.py).

 One step is what a task does between two awaits.
 */
module InboundBudget {
  import opened Prelude

  datatype Kind = Remote | Local | Tick

  /** An event carries its reservation; the serial number counts accepted events. */
  datatype Event = Event(serial: nat, kind: Kind, size: nat)

  datatype Caps = Caps(maxEvents: nat, maxBytes: nat)

  /** Shutdown joins the timer and dispatcher, then the peers, and drains the queue last. */
  datatype Stage = Running | Stopping | TasksJoined | PeersJoined | Drained

  /** `owned[i]` is what reader `i` has reserved for the frame it is reading, zero between frames. */
  datatype Node = Node(stage: Stage, events: int, bytes: int, owned: seq<nat>, queue: seq<Event>,
                       current: Option<Event>, tickQueued: bool, accepted: nat, taken: nat)

  datatype Step =
    | Attach
    | StartFrame(reader: nat, size: nat)
    | DeliverFrame(reader: nat, known: bool)
    | AbandonFrame(reader: nat)
    | Call(size: nat)
    | TimerFires
    | TakeEvent
    | FinishEvent(fatal: bool)
    | Stop
    | JoinTasks
    | JoinPeers
    | Drain

  const FreshNode := Node(Running, 0, 0, [], [], None, false, 0, 0)

  // ---- reserving and releasing -------------------------------------------------------------

  predicate HasRoom(caps: Caps, n: Node, size: nat) {
    n.stage == Running && n.events < caps.maxEvents && n.bytes + size <= caps.maxBytes
  }

  function Reserved(n: Node, size: nat): Node {
    n.(events := n.events + 1, bytes := n.bytes + size)
  }

  function Released(n: Node, size: nat): Node {
    n.(events := n.events - 1, bytes := n.bytes - size)
  }

  function Enqueued(n: Node, kind: Kind, size: nat): Node {
    n.(queue := n.queue + [Event(n.accepted, kind, size)], accepted := n.accepted + 1)
  }

  predicate Reading(n: Node, reader: nat) {
    reader < |n.owned| && n.owned[reader] > 0
  }

  function Next(caps: Caps, n: Node, step: Step): Node {
    match step
    case Attach => if n.stage == Running then n.(owned := n.owned + [0]) else n
    case StartFrame(reader, size) =>
      // a frame has a four-byte prefix and a body
      if size >= 5 && reader < |n.owned| && n.owned[reader] == 0 && HasRoom(caps, n, size)
      then Reserved(n, size).(owned := n.owned[reader := size]) else n
    case DeliverFrame(reader, known) =>
      if !Reading(n, reader) then n
      else
        var ended := n.(owned := n.owned[reader := 0]);
        if n.stage == Running && known then Enqueued(ended, Remote, n.owned[reader])
        else Released(ended, n.owned[reader])
    case AbandonFrame(reader) =>
      if Reading(n, reader) then Released(n.(owned := n.owned[reader := 0]), n.owned[reader]) else n
    case Call(size) => if HasRoom(caps, n, size) then Enqueued(Reserved(n, size), Local, size) else n
    case TimerFires =>
      if !n.tickQueued && HasRoom(caps, n, 1) then Enqueued(Reserved(n, 1), Tick, 1).(tickQueued := true) else n
    case TakeEvent =>
      if n.stage.Running? || n.stage.Stopping? then
        if n.current == None && n.queue != [] then
          n.(queue := n.queue[1..], current := Some(n.queue[0]), taken := n.taken + 1)
        else n
      else n
    case FinishEvent(fatal) =>
      if n.current == None then n
      else
        var event := n.current.value;
        Released(n, event.size).(current := None,
                                 tickQueued := n.tickQueued && (fatal || event.kind != Tick),
                                 stage := if fatal && n.stage == Running then Stopping else n.stage)
    case Stop => if n.stage == Running then n.(stage := Stopping) else n
    case JoinTasks => if n.stage == Stopping && n.current == None then n.(stage := TasksJoined) else n
    case JoinPeers =>
      if n.stage == TasksJoined && TotalOwned(n.owned, |n.owned|) == 0 then n.(stage := PeersJoined) else n
    case Drain => if n.stage == PeersJoined then AllDrained(n) else n
  }

  /** The last step of `_cleanup`: every queued event gives its reservation back. */
  function AllDrained(n: Node): Node {
    n.(stage := Drained, events := n.events - |n.queue|, bytes := n.bytes - TotalQueued(n.queue, |n.queue|),
       queue := [], taken := n.accepted, tickQueued := false)
  }

  // ---- sums ------------------------------------------------------------------------------------

  function TotalOwned(owned: seq<nat>, n: nat): nat
    requires n <= |owned|
  {
    if n == 0 then 0 else TotalOwned(owned, n - 1) + owned[n - 1]
  }

  /** Readers in the middle of a frame. */
  function BusyReaders(owned: seq<nat>, n: nat): nat
    requires n <= |owned|
  {
    if n == 0 then 0 else BusyReaders(owned, n - 1) + (if owned[n - 1] > 0 then 1 else 0)
  }

  function TotalQueued(queue: seq<Event>, n: nat): nat
    requires n <= |queue|
  {
    if n == 0 then 0 else TotalQueued(queue, n - 1) + queue[n - 1].size
  }

  function Ticks(queue: seq<Event>, n: nat): nat
    requires n <= |queue|
  {
    if n == 0 then 0 else Ticks(queue, n - 1) + (if queue[n - 1].kind == Tick then 1 else 0)
  }

  lemma {:induction false} OwnedUpdate(owned: seq<nat>, i: nat, v: nat, n: nat)
    requires i < |owned| && n <= |owned|
    ensures TotalOwned(owned[i := v], n) == TotalOwned(owned, n) + (if i < n then v - owned[i] else 0)
    ensures BusyReaders(owned[i := v], n) == BusyReaders(owned, n)
            + (if i < n then (if v > 0 then 1 else 0) - (if owned[i] > 0 then 1 else 0) else 0)
  {
    if n > 0 {
      OwnedUpdate(owned, i, v, n - 1);
    }
  }

  lemma {:induction false} OwnedPrefix(a: seq<nat>, b: seq<nat>, n: nat)
    requires n <= |a| && n <= |b| && forall i :: 0 <= i < n ==> a[i] == b[i]
    ensures TotalOwned(a, n) == TotalOwned(b, n) && BusyReaders(a, n) == BusyReaders(b, n)
  {
    if n > 0 {
      OwnedPrefix(a, b, n - 1);
    }
  }

  lemma {:induction false} QueuePrefix(a: seq<Event>, b: seq<Event>, n: nat)
    requires n <= |a| && n <= |b| && forall i :: 0 <= i < n ==> a[i] == b[i]
    ensures TotalQueued(a, n) == TotalQueued(b, n) && Ticks(a, n) == Ticks(b, n)
  {
    if n > 0 {
      QueuePrefix(a, b, n - 1);
    }
  }

  lemma {:induction false} QueueHead(queue: seq<Event>, n: nat)
    requires 1 <= n <= |queue|
    ensures TotalQueued(queue, n) == queue[0].size + TotalQueued(queue[1..], n - 1)
    ensures Ticks(queue, n) == (if queue[0].kind == Tick then 1 else 0) + Ticks(queue[1..], n - 1)
  {
    if n > 1 {
      QueueHead(queue, n - 1);
    }
  }

  lemma {:induction false} NobodyBusy(owned: seq<nat>, n: nat)
    requires n <= |owned| && TotalOwned(owned, n) == 0
    ensures BusyReaders(owned, n) == 0
  {
    if n > 0 {
      NobodyBusy(owned, n - 1);
    }
  }

  // ---- the invariant -----------------------------------------------------------------------------

  function HeldEvents(n: Node): nat { if n.current == None then 0 else 1 }
  function HeldBytes(n: Node): nat { if n.current == None then 0 else n.current.value.size }
  function HeldTicks(n: Node): nat { if n.current.Some? && n.current.value.kind == Tick then 1 else 0 }

  /** The counters are exactly the reservations held by frames being read, queued events and the one in dispatch. */
  predicate Balanced(n: Node) {
    && n.events == BusyReaders(n.owned, |n.owned|) + |n.queue| + HeldEvents(n)
    && n.bytes == TotalOwned(n.owned, |n.owned|) + TotalQueued(n.queue, |n.queue|) + HeldBytes(n)
  }

  /** Accepted events are taken exactly once, oldest first. */
  predicate InOrder(n: Node) {
    && n.taken + |n.queue| == n.accepted
    && (forall i :: 0 <= i < |n.queue| ==> n.queue[i].serial == n.taken + i)
    && (n.current.Some? ==> n.taken > 0 && n.current.value.serial == n.taken - 1)
  }

  /** At most one timer event is pending, and the flag knows about it. */
  predicate OneTick(n: Node) {
    && Ticks(n.queue, |n.queue|) + HeldTicks(n) <= 1
    && (Ticks(n.queue, |n.queue|) + HeldTicks(n) == 1 ==> n.tickQueued)
  }

  predicate StageOk(n: Node) {
    && (n.stage.TasksJoined? || n.stage.PeersJoined? || n.stage.Drained? ==> n.current == None)
    && (n.stage.PeersJoined? || n.stage.Drained? ==> TotalOwned(n.owned, |n.owned|) == 0)
    && (n.stage.Drained? ==> n.queue == [])
  }

  predicate Inv(caps: Caps, n: Node) {
    Balanced(n) && InOrder(n) && OneTick(n) && StageOk(n) && n.events <= caps.maxEvents && n.bytes <= caps.maxBytes
  }

  lemma AttachStep(caps: Caps, n: Node)
    requires Inv(caps, n)
    ensures Inv(caps, Next(caps, n, Attach))
  {
    OwnedPrefix(n.owned, n.owned + [0], |n.owned|);
  }

  lemma FrameBegins(caps: Caps, n: Node, reader: nat, size: nat)
    requires Inv(caps, n)
    ensures Inv(caps, Next(caps, n, StartFrame(reader, size)))
  {
    hide TotalOwned, BusyReaders, TotalQueued, Ticks;
    if reader < |n.owned| {
      OwnedUpdate(n.owned, reader, size, |n.owned|);
    }
  }

  lemma FrameEnds(caps: Caps, n: Node, reader: nat, known: bool)
    requires Inv(caps, n)
    ensures Inv(caps, Next(caps, n, DeliverFrame(reader, known)))
    ensures Inv(caps, Next(caps, n, AbandonFrame(reader)))
  {
    hide TotalOwned, BusyReaders;
    if Reading(n, reader) {
      OwnedUpdate(n.owned, reader, 0, |n.owned|);
      QueuePrefix(n.queue, n.queue + [Event(n.accepted, Remote, n.owned[reader])], |n.queue|);
    }
  }

  lemma QueueSteps(caps: Caps, n: Node, step: Step)
    requires Inv(caps, n) && (step.Call? || step.TimerFires? || step.TakeEvent? || step.FinishEvent?)
    ensures Inv(caps, Next(caps, n, step))
  {
    hide TotalOwned, BusyReaders;
    match step {
      case Call(size) => QueuePrefix(n.queue, n.queue + [Event(n.accepted, Local, size)], |n.queue|);
      case TimerFires => QueuePrefix(n.queue, n.queue + [Event(n.accepted, Tick, 1)], |n.queue|);
      case TakeEvent => EventTaken(caps, n);
      case FinishEvent(fatal) =>
    }
  }

  lemma EventTaken(caps: Caps, n: Node)
    requires Inv(caps, n)
    ensures Inv(caps, Next(caps, n, TakeEvent))
  {
    hide TotalOwned, BusyReaders;
    if n.queue != [] {
      QueueHead(n.queue, |n.queue|);
    }
  }

  lemma ShutdownSteps(caps: Caps, n: Node, step: Step)
    requires Inv(caps, n) && (step.Stop? || step.JoinTasks? || step.JoinPeers? || step.Drain?)
    ensures Inv(caps, Next(caps, n, step))
  {
    hide TotalOwned, BusyReaders;
    if step.Drain? && n.stage == PeersJoined {
      NobodyBusy(n.owned, |n.owned|);
    }
  }

  /** Every interleaved step keeps the accounting exact and within the caps. */
  lemma NextKeepsInv(caps: Caps, n: Node, step: Step)
    requires Inv(caps, n)
    ensures Inv(caps, Next(caps, n, step))
  {
    hide Inv, Next;
    match step {
      case Attach => AttachStep(caps, n);
      case StartFrame(reader, size) => FrameBegins(caps, n, reader, size);
      case DeliverFrame(reader, known) => FrameEnds(caps, n, reader, known);
      case AbandonFrame(reader) => FrameEnds(caps, n, reader, true);
      case _ =>
        if step.Call? || step.TimerFires? || step.TakeEvent? || step.FinishEvent? {
          QueueSteps(caps, n, step);
        } else {
          ShutdownSteps(caps, n, step);
        }
    }
  }

  function Run(caps: Caps, steps: seq<Step>, n: nat): Node
    requires n <= |steps|
  {
    if n == 0 then FreshNode else Next(caps, Run(caps, steps, n - 1), steps[n - 1])
  }

  /**
   In every interleaving the counters never exceed the caps or fall below zero, and the queue
   bounded by `maxEvents` never overflows.
   */
  lemma {:induction false} AccountingAlwaysExact(caps: Caps, steps: seq<Step>, n: nat)
    requires n <= |steps|
    ensures var r := Run(caps, steps, n);
      Inv(caps, r) && 0 <= r.events <= caps.maxEvents && 0 <= r.bytes <= caps.maxBytes && |r.queue| <= caps.maxEvents
  {
    hide Next, OneTick, InOrder, StageOk;
    if n > 0 {
      AccountingAlwaysExact(caps, steps, n - 1);
      NextKeepsInv(caps, Run(caps, steps, n - 1), steps[n - 1]);
    } else {
      FreshNodeInv(caps);
    }
  }

  lemma FreshNodeInv(caps: Caps)
    ensures Inv(caps, FreshNode)
  {
  }

  /** Once cleanup has drained the queue, nothing is reserved any more, whatever happened before. */
  lemma CleanupEndsAtZero(caps: Caps, steps: seq<Step>, n: nat)
    requires n <= |steps| && Run(caps, steps, n).stage == Drained
    ensures Run(caps, steps, n).events == 0 && Run(caps, steps, n).bytes == 0
    ensures Run(caps, steps, n).taken == Run(caps, steps, n).accepted
  {
    hide Next;
    AccountingAlwaysExact(caps, steps, n);
    var r := Run(caps, steps, n);
    NobodyBusy(r.owned, |r.owned|);
  }

  // ---- what a running node owes its tasks ----------------------------------------------------------

  /** One turn of the dispatcher: it finishes the event in hand, if any, and takes the next one. */
  function Turns(caps: Caps, n: Node, k: nat): Node {
    if k == 0 then n else Next(caps, Next(caps, Turns(caps, n, k - 1), FinishEvent(false)), TakeEvent)
  }

  /** While the node runs, `k + 1` turns bring the `k`-th queued event into dispatch, and no earlier one is left. */
  lemma {:induction false} QueueIsServed(caps: Caps, n: Node, k: nat)
    requires n.stage == Running && k <= |n.queue|
    ensures var r := Turns(caps, n, k);
      && r.stage == Running && r.queue == n.queue[k..] && r.taken == n.taken + k
      && (k > 0 ==> r.current == Some(n.queue[k - 1]))
      && r.accepted == n.accepted && r.owned == n.owned
  {
    if k > 0 {
      QueueIsServed(caps, n, k - 1);
    }
  }

  /** `r` has one more event than `n`, last in the queue and numbered next, and is otherwise as far as `n`. */
  predicate QueuedLast(n: Node, r: Node, kind: Kind, size: nat) {
    && |r.queue| == |n.queue| + 1 && r.queue[..|n.queue|] == n.queue
    && r.queue[|n.queue|] == Event(n.accepted, kind, size)
    && r.stage == n.stage && r.current == n.current && r.taken == n.taken && r.accepted == n.accepted + 1
  }

  /**
   A caller is queued exactly when the node runs and both caps leave room, and is refused without
   effect otherwise.
   */
  lemma CallsAreQueued(caps: Caps, n: Node, size: nat)
    ensures var r := Next(caps, n, Call(size));
      if n.stage == Running && n.events < caps.maxEvents && n.bytes + size <= caps.maxBytes
      then QueuedLast(n, r, Local, size) && r.events == n.events + 1 && r.bytes == n.bytes + size && r.owned == n.owned
      else r == n
  {
  }

  /**
   A frame of a known session that was read to its end while the node runs is queued with the bytes
   its reader had reserved, so neither counter moves; any other frame gives its reservation back.
   */
  lemma FramesAreQueued(caps: Caps, n: Node, reader: nat, known: bool)
    requires reader < |n.owned| && n.owned[reader] > 0
    ensures var r := Next(caps, n, DeliverFrame(reader, known));
      && r.owned == n.owned[reader := 0]
      && (if n.stage == Running && known
          then QueuedLast(n, r, Remote, n.owned[reader]) && r.events == n.events && r.bytes == n.bytes
          else && r.queue == n.queue && r.accepted == n.accepted
               && r.events == n.events - 1 && r.bytes == n.bytes - n.owned[reader])
  {
  }

  /** A frame is begun exactly when both caps leave room, and its whole wire size is held from then on. */
  lemma FramesAreBegun(caps: Caps, n: Node, reader: nat, size: nat)
    requires reader < |n.owned| && n.owned[reader] == 0 && size >= 5
    ensures var r := Next(caps, n, StartFrame(reader, size));
      if n.stage == Running && n.events < caps.maxEvents && n.bytes + size <= caps.maxBytes
      then r == n.(events := n.events + 1, bytes := n.bytes + size, owned := n.owned[reader := size])
      else r == n
  {
  }

  /**
   From its first byte to the dispatcher: a frame begun with room and delivered by a known session
   is handled after everything queued before it, and its bytes are free again once it is finished.
   */
  lemma FrameIsHandled(caps: Caps, n: Node, reader: nat, size: nat)
    requires Inv(caps, n) && n.stage == Running && reader < |n.owned| && n.owned[reader] == 0 && size >= 5
    requires n.events < caps.maxEvents && n.bytes + size <= caps.maxBytes
    ensures var delivered := Next(caps, Next(caps, n, StartFrame(reader, size)), DeliverFrame(reader, true));
      var handled := Turns(caps, delivered, |n.queue| + 1);
      && handled.current == Some(Event(n.accepted, Remote, size)) && handled.queue == []
      && (var done := Next(caps, handled, FinishEvent(false));
          done.stage == Running && done.current == None && done.taken == done.accepted == n.accepted + 1
          && done.events == BusyReaders(n.owned, |n.owned|) && done.bytes == TotalOwned(n.owned, |n.owned|))
  {
    hide Inv, Next, Turns;
    var begun := Next(caps, n, StartFrame(reader, size));
    FramesAreBegun(caps, n, reader, size);
    var delivered := Next(caps, begun, DeliverFrame(reader, true));
    FramesAreQueued(caps, begun, reader, true);
    assert delivered.owned == n.owned;
    NextKeepsInv(caps, n, StartFrame(reader, size));
    NextKeepsInv(caps, begun, DeliverFrame(reader, true));
    assert delivered.queue[|n.queue|] == Event(n.accepted, Remote, size);
    QueueIsServed(caps, delivered, |n.queue| + 1);
    var handled := Turns(caps, delivered, |n.queue| + 1);
    TurnsKeepInv(caps, delivered, |n.queue| + 1);
    IdleNode(caps, handled);
  }

  lemma {:induction false} TurnsKeepInv(caps: Caps, n: Node, k: nat)
    requires Inv(caps, n)
    ensures Inv(caps, Turns(caps, n, k))
  {
    hide Inv, Next;
    if k > 0 {
      TurnsKeepInv(caps, n, k - 1);
      NextKeepsInv(caps, Turns(caps, n, k - 1), FinishEvent(false));
      NextKeepsInv(caps, Next(caps, Turns(caps, n, k - 1), FinishEvent(false)), TakeEvent);
    }
  }

  /** With an empty queue only the readers hold anything once the event in hand is finished. */
  lemma IdleNode(caps: Caps, n: Node)
    requires Inv(caps, n) && n.stage == Running && n.queue == []
    ensures var r := Next(caps, n, FinishEvent(false));
      && r.stage == Running && r.current == None && r.taken == r.accepted == n.accepted
      && r.events == BusyReaders(n.owned, |n.owned|) && r.bytes == TotalOwned(n.owned, |n.owned|)
  {
    hide TotalOwned, BusyReaders;
  }

  /** The next move of a shutdown in which at most the first `k` readers are still busy. */
  function CleanupStep(n: Node, k: nat): Step {
    if n.current.Some? then FinishEvent(false)
    else match n.stage
      case Running => Stop
      case Stopping => JoinTasks
      case TasksJoined => if k > 0 then AbandonFrame(k - 1) else JoinPeers
      case _ => Drain
  }

  lemma CleanupProgress(caps: Caps, n: Node, k: nat)
    requires Inv(caps, n) && n.stage != Drained && k <= |n.owned|
      && TotalOwned(n.owned, |n.owned|) == TotalOwned(n.owned, k)
    ensures CleanupStep(n, k).AbandonFrame? ==> k > 0
    ensures var r := Next(caps, n, CleanupStep(n, k));
      var left := if CleanupStep(n, k).AbandonFrame? then k - 1 else k;
      && left <= |r.owned| && TotalOwned(r.owned, |r.owned|) == TotalOwned(r.owned, left)
      && (StageRank(r.stage) > StageRank(n.stage)
          || (r.stage == n.stage && (HeldEvents(r) < HeldEvents(n) || (HeldEvents(r) == HeldEvents(n) && left < k))))
  {
    hide BusyReaders, TotalQueued, Ticks, InOrder, OneTick;
    if n.current == None && n.stage == TasksJoined && k > 0 {
      OwnedUpdate(n.owned, k - 1, 0, |n.owned|);
      OwnedUpdate(n.owned, k - 1, 0, k - 1);
    }
  }

  /** Shutdown can always reach the drained stage: no task waits for another's reservation. */
  lemma {:induction false} CleanupCompletes(caps: Caps, n: Node, k: nat) returns (steps: seq<Step>, r: Node)
    requires Inv(caps, n) && k <= |n.owned| && TotalOwned(n.owned, |n.owned|) == TotalOwned(n.owned, k)
    ensures r == RunFrom(caps, n, steps, |steps|) && r.stage == Drained && r.events == 0 && r.bytes == 0
    decreases 4 - StageRank(n.stage), HeldEvents(n), k
  {
    hide Next, TotalOwned, BusyReaders, TotalQueued, Ticks, InOrder, OneTick, RunFrom, CleanupStep;
    if n.stage == Drained {
      NothingLeft(caps, n);
      return [], n;
    }
    var step := CleanupStep(n, k);
    CleanupProgress(caps, n, k);
    NextKeepsInv(caps, n, step);
    var rest;
    rest, r := CleanupCompletes(caps, Next(caps, n, step), if step.AbandonFrame? then k - 1 else k);
    steps := [step] + rest;
    RunCons(caps, n, step, rest, |rest|);
  }

  lemma NothingLeft(caps: Caps, n: Node)
    requires Inv(caps, n) && n.stage == Drained
    ensures n.events == 0 && n.bytes == 0 && RunFrom(caps, n, [], 0) == n
  {
    NobodyBusy(n.owned, |n.owned|);
  }

  function StageRank(s: Stage): nat {
    match s
    case Running => 0
    case Stopping => 1
    case TasksJoined => 2
    case PeersJoined => 3
    case Drained => 4
  }

  function RunFrom(caps: Caps, start: Node, steps: seq<Step>, n: nat): Node
    requires n <= |steps|
  {
    if n == 0 then start else Next(caps, RunFrom(caps, start, steps, n - 1), steps[n - 1])
  }

  lemma {:induction false} RunCons(caps: Caps, start: Node, step: Step, rest: seq<Step>, n: nat)
    requires n <= |rest|
    ensures RunFrom(caps, start, [step] + rest, n + 1) == RunFrom(caps, Next(caps, start, step), rest, n)
  {
    hide Next;
    if n > 0 {
      RunCons(caps, start, step, rest, n - 1);
      assert ([step] + rest)[n] == rest[n - 1];
    } else {
      assert RunFrom(caps, start, [step] + rest, 0) == start;
    }
  }

  // ---- the node's counters and queue --------------------------------------------------------------

  /** The budget fields of `Node`, with one reservation variable per attached reader. */
  class Inbound {
    const caps: Caps
    var stage: Stage
    var events: int
    var bytes: int
    var owned: seq<nat>
    var queue: seq<Event>
    var current: Option<Event>
    var tickQueued: bool
    var accepted: nat
    var taken: nat

    ghost function Model(): Node
      reads this
    {
      Node(stage, events, bytes, owned, queue, current, tickQueued, accepted, taken)
    }

    constructor (caps: Caps)
      ensures this.caps == caps && Model() == FreshNode && Inv(caps, Model())
    {
      this.caps := caps;
      stage, events, bytes, owned, queue, current := Running, 0, 0, [], [], None;
      tickQueued, accepted, taken := false, 0, 0;
    }

    method Reserve(size: nat) returns (ok: bool)
      modifies `events, `bytes
      ensures ok == HasRoom(caps, old(Model()), size)
      ensures Model() == if ok then Reserved(old(Model()), size) else old(Model())
    {
      if stage != Running || events >= caps.maxEvents || bytes + size > caps.maxBytes {
        return false;
      }
      events := events + 1;
      bytes := bytes + size;
      ok := true;
    }

    /** The source raises when a counter would become negative. */
    method Release(size: nat) returns (underflow: bool)
      modifies `events, `bytes
      ensures Model() == Released(old(Model()), size)
      ensures underflow <==> events < 0 || bytes < 0
    {
      events := events - 1;
      bytes := bytes - size;
      underflow := events < 0 || bytes < 0;
    }

    /** `put_nowait` needs a free place, which the reservation guarantees. */
    method Put(kind: Kind, size: nat)
      requires |queue| < caps.maxEvents
      modifies `queue, `accepted
      ensures Model() == Enqueued(old(Model()), kind, size)
    {
      queue := queue + [Event(accepted, kind, size)];
      accepted := accepted + 1;
    }

    method Attached()
      requires Inv(caps, Model())
      modifies this
      ensures Model() == Next(caps, old(Model()), Attach) && Inv(caps, Model())
    {
      NextKeepsInv(caps, Model(), Attach);
      if stage == Running {
        owned := owned + [0];
      }
    }

    /** The reader reserves the whole wire size before it reads the body; the caller closes on refusal. */
    method BeginFrame(reader: nat, size: nat) returns (ok: bool)
      requires Inv(caps, Model()) && reader < |owned| && owned[reader] == 0 && size >= 5
      modifies this
      ensures Model() == Next(caps, old(Model()), StartFrame(reader, size)) && Inv(caps, Model())
      ensures ok == HasRoom(caps, old(Model()), size)
    {
      hide Inv;
      NextKeepsInv(caps, Model(), StartFrame(reader, size));
      ok := Reserve(size);
      if ok {
        owned := owned[reader := size];
      }
    }

    /** A decoded frame changes owner when `_on_message` accepts it; otherwise the reader releases it. */
    method EndFrame(reader: nat, decoded: bool, known: bool)
      requires Inv(caps, Model()) && reader < |owned| && owned[reader] > 0
      modifies this
      ensures Model() == Next(caps, old(Model()), if decoded then DeliverFrame(reader, known) else AbandonFrame(reader))
      ensures Inv(caps, Model())
    {
      hide TotalQueued, Ticks, OneTick;
      var size := owned[reader];
      OwnedUpdate(owned, reader, 0, |owned|);
      NextKeepsInv(caps, Model(), if decoded then DeliverFrame(reader, known) else AbandonFrame(reader));
      if decoded && stage == Running && known {
        Put(Remote, size);
      } else {
        var underflow := Release(size);
      }
      owned := owned[reader := 0];
    }

    method Request(size: nat) returns (ok: bool)
      requires Inv(caps, Model())
      modifies this
      ensures Model() == Next(caps, old(Model()), Call(size)) && Inv(caps, Model())
      ensures ok == HasRoom(caps, old(Model()), size)
    {
      hide TotalOwned, TotalQueued, Ticks, OneTick, BusyReaders;
      NextKeepsInv(caps, Model(), Call(size));
      ok := Reserve(size);
      if ok {
        Put(Local, size);
      }
    }

    method TimerTick()
      requires Inv(caps, Model())
      modifies this
      ensures Model() == Next(caps, old(Model()), TimerFires) && Inv(caps, Model())
    {
      hide TotalOwned, TotalQueued, Ticks, OneTick, BusyReaders;
      NextKeepsInv(caps, Model(), TimerFires);
      if !tickQueued {
        var ok := Reserve(1);
        if ok {
          tickQueued := true;
          Put(Tick, 1);
        }
      }
    }

    /** One turn of the dispatcher; handling the event may fail fatally, the release happens anyway. */
    method Dispatch(fatal: bool)
      requires Inv(caps, Model()) && (stage == Running || stage == Stopping) && current == None && queue != []
      modifies this
      ensures Model() == Next(caps, Next(caps, old(Model()), TakeEvent), FinishEvent(fatal)) && Inv(caps, Model())
    {
      hide Inv;
      NextKeepsInv(caps, Model(), TakeEvent);
      NextKeepsInv(caps, Next(caps, Model(), TakeEvent), FinishEvent(fatal));
      var event := queue[0];
      queue, taken := queue[1..], taken + 1;
      if event.kind == Tick && !fatal {
        tickQueued := false;
      }
      if fatal && stage == Running {
        stage := Stopping;
      }
      var underflow := Release(event.size);
    }

    /** The drain of `_cleanup`, event by event; no release underflows and nothing stays reserved. */
    method DrainQueue()
      requires Inv(caps, Model()) && stage == PeersJoined
      modifies this
      ensures Model() == Next(caps, old(Model()), Drain) && Inv(caps, Model())
      ensures events == 0 && bytes == 0
    {
      hide TotalOwned, BusyReaders, OneTick, Ticks;
      NextKeepsInv(caps, Model(), Drain);
      NobodyBusy(owned, |owned|);
      while queue != []
        invariant events == |queue| && bytes == TotalQueued(queue, |queue|)
        invariant stage == PeersJoined && owned == old(owned) && current == None && accepted == old(accepted)
        decreases |queue|
      {
        var event := queue[0];
        QueueHead(queue, |queue|);
        queue := queue[1..];
        var underflow := Release(event.size);
        assert !underflow;
      }
      taken, tickQueued, stage := accepted, false, Drained;
    }
  }
}
