/** Budgets of one peer connection: the outbound queue and the token buckets (network/peer.py). */
module Peers {
  import opened Prelude

  // ---- outbound frames -------------------------------------------------------------------------

  function TotalLength(frames: seq<Bytes>, n: nat): nat
    requires n <= |frames|
  {
    if n == 0 then 0 else TotalLength(frames, n - 1) + |frames[n - 1]|
  }

  lemma {:induction false} TotalLengthPrefix(a: seq<Bytes>, b: seq<Bytes>, n: nat)
    requires n <= |a| && n <= |b| && forall i :: 0 <= i < n ==> a[i] == b[i]
    ensures TotalLength(a, n) == TotalLength(b, n)
  {
    if n > 0 {
      TotalLengthPrefix(a, b, n - 1);
    }
  }

  lemma {:induction false} TotalLengthHead(frames: seq<Bytes>, n: nat)
    requires 1 <= n <= |frames|
    ensures TotalLength(frames, n) == |frames[0]| + TotalLength(frames[1..], n - 1)
  {
    if n > 1 {
      TotalLengthHead(frames, n - 1);
    }
  }

  /** The counters equal what is held, and stay within the caps. */
  predicate Budgeted(held: seq<Bytes>, frames: int, bytes: int, maxFrames: nat, maxBytes: nat) {
    frames == |held| <= maxFrames && bytes == TotalLength(held, |held|) <= maxBytes
  }

  /** No accepted frame is lost, repeated or reordered. */
  predicate Accounted(accepted: seq<Bytes>, written: seq<Bytes>, dropped: seq<Bytes>, held: seq<Bytes>) {
    accepted == written + dropped + held
  }

  lemma FrameAdded(held: seq<Bytes>, frame: Bytes, frames: int, bytes: int, maxFrames: nat, maxBytes: nat)
    requires Budgeted(held, frames, bytes, maxFrames, maxBytes)
    requires frames < maxFrames && bytes + |frame| <= maxBytes
    ensures Budgeted(held + [frame], frames + 1, bytes + |frame|, maxFrames, maxBytes)
  {
    TotalLengthPrefix(held, held + [frame], |held|);
  }

  lemma OldestRemoved(held: seq<Bytes>, frames: int, bytes: int, maxFrames: nat, maxBytes: nat)
    requires held != [] && Budgeted(held, frames, bytes, maxFrames, maxBytes)
    ensures Budgeted(held[1..], frames - 1, bytes - |held[0]|, maxFrames, maxBytes)
  {
    TotalLengthHead(held, |held|);
  }

  lemma AccountsMove(accepted: seq<Bytes>, written: seq<Bytes>, dropped: seq<Bytes>, held: seq<Bytes>, frame: Bytes)
    requires Accounted(accepted, written, dropped, held)
    ensures Accounted(accepted + [frame], written, dropped, held + [frame])
    ensures held != [] ==> Accounted(accepted, written, dropped + [held[0]], held[1..])
    ensures held != [] && dropped == [] ==> Accounted(accepted, written + [held[0]], dropped, held[1..])
  {
    if held != [] {
      assert held == [held[0]] + held[1..];
    }
  }

  lemma MoveHead(dropped: seq<Bytes>, queue: seq<Bytes>)
    requires queue != []
    ensures (dropped + [queue[0]]) + queue[1..] == dropped + queue
  {
    assert queue == [queue[0]] + queue[1..];
  }

  lemma NothingHeld(frames: int, bytes: int, maxFrames: nat, maxBytes: nat)
    requires Budgeted([], frames, bytes, maxFrames, maxBytes)
    ensures frames == 0 && bytes == 0
  {
  }

  /**
   The sending side of a `PeerConnection`.  `writing` is the frame the writer holds until it is
   drained; `accepted`, `written` and `dropped` are the history of the frames.
   */
  class Outbound {
    const maxFrames: nat
    const maxBytes: nat
    var closed: bool
    var queue: seq<Bytes>
    var writing: Option<Bytes>
    var frames: int
    var bytes: int
    ghost var accepted: seq<Bytes>
    ghost var written: seq<Bytes>
    ghost var dropped: seq<Bytes>

    ghost function Held(): seq<Bytes>
      reads this
    {
      if writing.Some? then [writing.value] + queue else queue
    }

    ghost predicate Valid()
      reads this
    {
      && Budgeted(Held(), frames, bytes, maxFrames, maxBytes)
      && Accounted(accepted, written, dropped, Held())
      && (dropped != [] ==> closed)
    }

    constructor (maxFrames: nat, maxBytes: nat)
      ensures Valid() && !closed && Held() == [] && accepted == []
      ensures this.maxFrames == maxFrames && this.maxBytes == maxBytes
    {
      this.maxFrames, this.maxBytes := maxFrames, maxBytes;
      closed, queue, writing, frames, bytes := false, [], None, 0, 0;
      accepted, written, dropped := [], [], [];
    }

    /** A frame that does not fit the budgets closes the connection. */
    method Send(frame: Bytes) returns (ok: bool)
      requires Valid()
      modifies this
      ensures Valid()
      ensures ok <==> !old(closed) && |old(Held())| < maxFrames
                      && TotalLength(old(Held()), |old(Held())|) + |frame| <= maxBytes
      ensures Held() == old(Held()) + if ok then [frame] else []
      ensures accepted == old(accepted) + if ok then [frame] else []
      ensures written == old(written) && dropped == old(dropped) && closed == !ok
    {
      hide Accounted, TotalLength;
      if closed {
        return false;
      }
      if frames >= maxFrames || bytes + |frame| > maxBytes {
        closed := true;
        return false;
      }
      FrameAdded(Held(), frame, frames, bytes, maxFrames, maxBytes);
      AccountsMove(accepted, written, dropped, Held(), frame);
      queue := queue + [frame];
      frames := frames + 1;
      bytes := bytes + |frame|;
      accepted := accepted + [frame];
      assert Held() == old(Held()) + [frame];
      ok := true;
    }

    /** The writer takes the oldest frame; its budget stays reserved. */
    method TakeFrame() returns (frame: Bytes)
      requires Valid() && !closed && writing == None && queue != []
      modifies `queue, `writing
      ensures Valid() && Held() == old(Held())
      ensures frame == old(queue)[0] && writing == Some(frame) && queue == old(queue)[1..]
    {
      hide Accounted, Budgeted;
      frame := queue[0];
      queue, writing := queue[1..], Some(frame);
      assert Held() == old(Held());
    }

    /** Drained, timed out or cancelled: the budget is given back either way. */
    method FinishFrame()
      requires Valid() && writing.Some? && dropped == []
      modifies `writing, `frames, `bytes, `written
      ensures Valid() && writing == None && written == old(written) + [old(writing).value]
    {
      hide Accounted, Budgeted;
      var frame := writing.value;
      OldestRemoved(Held(), frames, bytes, maxFrames, maxBytes);
      AccountsMove(accepted, written, dropped, Held(), frame);
      writing := None;
      frames := frames - 1;
      bytes := bytes - |frame|;
      written := written + [frame];
      assert Held() == old(Held())[1..];
    }

    method DropFrame()
      requires Valid() && closed && writing == None && queue != []
      modifies `queue, `frames, `bytes, `dropped
      ensures Valid() && queue == old(queue)[1..] && dropped == old(dropped) + [old(queue)[0]]
    {
      hide Accounted, Budgeted;
      var frame := queue[0];
      OldestRemoved(Held(), frames, bytes, maxFrames, maxBytes);
      AccountsMove(accepted, written, dropped, Held(), frame);
      queue := queue[1..];
      frames := frames - 1;
      bytes := bytes - |frame|;
      dropped := dropped + [frame];
    }

    /** The drain of `_cleanup`, after the writer has stopped: every budget returns to zero. */
    method Cleanup()
      requires Valid() && writing == None && dropped == []
      modifies `closed, `queue, `frames, `bytes, `dropped
      ensures Valid() && closed && queue == [] && frames == 0 && bytes == 0 && dropped == old(queue)
    {
      hide Accounted, Budgeted;
      closed := true;
      while queue != []
        invariant Valid() && closed
        invariant dropped + queue == old(queue)
        decreases |queue|
      {
        MoveHead(dropped, queue);
        DropFrame();
      }
      NothingHeld(frames, bytes, maxFrames, maxBytes);
    }
  }

  // ---- rate limits ---------------------------------------------------------------------------------

  datatype Bucket = Bucket(rate: real, capacity: real, tokens: real, updated: real)

  predicate BucketOk(b: Bucket) {
    b.rate > 0.0 && 0.0 <= b.tokens <= b.capacity
  }

  function Refilled(b: Bucket, now: real): Bucket {
    var elapsed := if now > b.updated then now - b.updated else 0.0;
    var tokens := b.tokens + elapsed * b.rate;
    b.(tokens := if tokens < b.capacity then tokens else b.capacity,
       updated := if now > b.updated then now else b.updated)
  }

  predicate Grants(b: Bucket, now: real, amount: real) {
    0.0 <= amount <= Refilled(b, now).tokens
  }

  /** `consume`; negative amounts are refused by an exception before anything changes. */
  function Consumed(b: Bucket, now: real, amount: real): Bucket {
    if amount < 0.0 then b
    else if Grants(b, now, amount) then Refilled(b, now).(tokens := Refilled(b, now).tokens - amount)
    else Refilled(b, now)
  }

  datatype Demand = Demand(now: real, amount: real)

  /** The bucket and the total amount granted after `n` demands. */
  function Serve(b: Bucket, demands: seq<Demand>, n: nat): (Bucket, real)
    requires n <= |demands|
  {
    if n == 0 then (b, 0.0)
    else
      var (before, granted) := Serve(b, demands, n - 1);
      var d := demands[n - 1];
      (Consumed(before, d.now, d.amount), if Grants(before, d.now, d.amount) then granted + d.amount else granted)
  }

  lemma OneDemand(b: Bucket, d: Demand)
    requires BucketOk(b)
    ensures var r := Consumed(b, d.now, d.amount);
      && BucketOk(r) && r.rate == b.rate && r.capacity == b.capacity && b.updated <= r.updated
      && r.tokens + (if Grants(b, d.now, d.amount) then d.amount else 0.0)
         <= b.tokens + (r.updated - b.updated) * b.rate
  {
  }

  /** Over any stretch of demands, whatever the clock does, no more than a burst plus the refill is granted. */
  lemma {:induction false} GrantsAreBounded(b: Bucket, demands: seq<Demand>, n: nat)
    requires n <= |demands| && BucketOk(b)
    ensures var (r, granted) := Serve(b, demands, n);
      && BucketOk(r) && r.rate == b.rate && r.capacity == b.capacity && b.updated <= r.updated
      && granted + r.tokens <= b.tokens + (r.updated - b.updated) * b.rate
      && granted <= b.capacity + (r.updated - b.updated) * b.rate
  {
    hide Consumed, Grants;
    if n > 0 {
      GrantsAreBounded(b, demands, n - 1);
      var before, after := Serve(b, demands, n - 1).0, Serve(b, demands, n).0;
      OneDemand(before, demands[n - 1]);
      assert (after.updated - b.updated) * b.rate
          == (after.updated - before.updated) * b.rate + (before.updated - b.updated) * b.rate;
    }
  }

  /** A demand is granted exactly when it fits what is left plus the refill, capped at a burst. */
  lemma GrantsExactly(b: Bucket, now: real, amount: real)
    requires BucketOk(b)
    ensures var refill := if now > b.updated then (now - b.updated) * b.rate else 0.0;
      && (Grants(b, now, amount) <==> 0.0 <= amount <= b.capacity && amount <= b.tokens + refill)
      && (Grants(b, now, amount) ==>
            Consumed(b, now, amount).tokens
            == (if b.tokens + refill < b.capacity then b.tokens + refill else b.capacity) - amount)
      && (amount >= 0.0 && !Grants(b, now, amount) ==> Consumed(b, now, amount).tokens >= b.tokens)
  {
    var elapsed := if now > b.updated then now - b.updated else 0.0;
    assert elapsed * b.rate == if now > b.updated then (now - b.updated) * b.rate else 0.0;
  }
}
