/**
 Which of several simultaneous connections between two nodes survives (network/node.py).

 Any number of nodes and connections take part; each end of a connection sees its own
 handshake messages at its own time, in every possible order.
 */
module Duplicates {
  import opened Prelude

  datatype Connection = Connection(initiator: string, acceptor: string, initiatorNonce: string, acceptorNonce: string)

  /** A session at one end of a connection. */
  datatype End = End(versionReceived: bool, ackReceived: bool, closed: bool, established: bool) {
    predicate Complete() { versionReceived && ackReceived }
  }

  const FreshEnd := End(false, false, false, false)

  // ---- ranks ------------------------------------------------------------------------------

  datatype Rank = Rank(initiator: string, low: string, high: string)

  function SortedPair(initiator: string, x: string, y: string): Rank {
    if StringLess(y, x) then Rank(initiator, y, x) else Rank(initiator, x, y)
  }

  /** `_connection_rank` as computed at one end from what that end knows. */
  function ConnectionRank(ownId: string, peerId: string, outbound: bool, ownNonce: string, peerNonce: string): Rank {
    SortedPair(if outbound then ownId else peerId, ownNonce, peerNonce)
  }

  /** The rank at the initiating (`out`) or accepting end. */
  function RankAt(k: Connection, out: bool): Rank {
    if out then ConnectionRank(k.initiator, k.acceptor, true, k.initiatorNonce, k.acceptorNonce)
    else ConnectionRank(k.acceptor, k.initiator, false, k.acceptorNonce, k.initiatorNonce)
  }

  /** Both ends give a connection the same rank. */
  lemma RankSymmetric(k: Connection)
    ensures RankAt(k, true) == RankAt(k, false)
  {
    StringLessTrichotomy(k.initiatorNonce, k.acceptorNonce);
  }

  /** Python's order on the nested tuple. */
  predicate Less(a: Rank, b: Rank) {
    || StringLess(a.initiator, b.initiator)
    || (a.initiator == b.initiator && (StringLess(a.low, b.low) || (a.low == b.low && StringLess(a.high, b.high))))
  }

  lemma LessTrichotomy(a: Rank, b: Rank)
    ensures Less(a, b) || a == b || Less(b, a)
    ensures !(Less(a, b) && Less(b, a)) && !(a == b && Less(a, b))
  {
    StringLessTrichotomy(a.initiator, b.initiator);
    StringLessTrichotomy(a.low, b.low);
    StringLessTrichotomy(a.high, b.high);
  }

  lemma LessTransitive(a: Rank, b: Rank, d: Rank)
    requires Less(a, b) && Less(b, d)
    ensures Less(a, d)
  {
    hide StringLess;
    if StringLess(a.initiator, b.initiator) && StringLess(b.initiator, d.initiator) {
      StringLessTransitive(a.initiator, b.initiator, d.initiator);
    }
    if StringLess(a.low, b.low) && StringLess(b.low, d.low) {
      StringLessTransitive(a.low, b.low, d.low);
    }
    if StringLess(a.high, b.high) && StringLess(b.high, d.high) {
      StringLessTransitive(a.high, b.high, d.high);
    }
  }

  // ---- the network ---------------------------------------------------------------------------

  /** Sessions at the initiating and at the accepting end of each connection. */
  datatype Network = Network(outer: seq<End>, inner: seq<End>)

  predicate Fits(cs: seq<Connection>, w: Network) {
    |w.outer| == |cs| && |w.inner| == |cs|
  }

  function EndAt(w: Network, i: nat, out: bool): End
    requires i < |w.outer| && i < |w.inner|
  {
    if out then w.outer[i] else w.inner[i]
  }

  function WithEnd(w: Network, i: nat, out: bool, e: End): (r: Network)
    requires i < |w.outer| && i < |w.inner|
    ensures |r.outer| == |w.outer| && |r.inner| == |w.inner|
    ensures forall j, side :: 0 <= j < |w.outer| && j < |w.inner| ==>
      EndAt(r, j, side) == if j == i && side == out then e else EndAt(w, j, side)
  {
    if out then w.(outer := w.outer[i := e]) else w.(inner := w.inner[i := e])
  }

  /** Connections `i` and `j` join the same two nodes. */
  predicate Parallel(cs: seq<Connection>, i: nat, j: nat)
    requires i < |cs| && j < |cs|
  {
    || (cs[i].initiator == cs[j].initiator && cs[i].acceptor == cs[j].acceptor)
    || (cs[i].initiator == cs[j].acceptor && cs[i].acceptor == cs[j].initiator)
  }

  /** Which end of `j` is at the node holding end `out` of the parallel connection `i`. */
  function SameNode(cs: seq<Connection>, i: nat, out: bool, j: nat): bool
    requires i < |cs| && j < |cs|
  {
    if cs[i].initiator == cs[j].initiator then out else !out
  }

  /** The session whose handshake completes and its duplicates: same peer, identified, still open. */
  predicate Contends(cs: seq<Connection>, w: Network, i: nat, out: bool, j: nat)
    requires Fits(cs, w) && i < |cs| && j < |cs|
  {
    j == i || (Parallel(cs, i, j) && EndAt(w, j, SameNode(cs, i, out, j)).versionReceived
               && !EndAt(w, j, SameNode(cs, i, out, j)).closed)
  }

  /** The lowest rank among the session and its first `n` possible duplicates. */
  function Winner(cs: seq<Connection>, w: Network, i: nat, out: bool, n: nat): (r: nat)
    requires Fits(cs, w) && i < |cs| && n <= |cs|
    ensures r < |cs| && Contends(cs, w, i, out, r)
  {
    if n == 0 then i
    else
      var best := Winner(cs, w, i, out, n - 1);
      if Contends(cs, w, i, out, n - 1)
         && Less(RankAt(cs[n - 1], SameNode(cs, i, out, n - 1)), RankAt(cs[best], SameNode(cs, i, out, best)))
      then n - 1 else best
  }

  /** End `side` of `j` is closed in favour of the winner. */
  predicate Loses(cs: seq<Connection>, w: Network, i: nat, out: bool, j: nat, side: bool)
    requires Fits(cs, w) && i < |cs| && j < |cs|
  {
    Contends(cs, w, i, out, j) && side == SameNode(cs, i, out, j) && j != Winner(cs, w, i, out, |cs|)
  }

  function ClosedIf(e: End, closed: bool): End {
    if closed then e.(closed := true, established := false) else e
  }

  /** Duplicate resolution when the handshake of end `out` of connection `i` completes. */
  function Resolved(cs: seq<Connection>, w: Network, i: nat, out: bool): (r: Network)
    requires Fits(cs, w) && i < |cs|
    ensures Fits(cs, r)
    ensures forall j, side :: 0 <= j < |cs| ==>
      EndAt(r, j, side) == ClosedIf(if j == i && side == out && Winner(cs, w, i, out, |cs|) == i
                                    then EndAt(w, j, side).(established := true) else EndAt(w, j, side),
                                    Loses(cs, w, i, out, j, side))
  {
    var first := if Winner(cs, w, i, out, |cs|) == i then WithEnd(w, i, out, EndAt(w, i, out).(established := true))
      else w;
    Network(seq(|cs|, j requires 0 <= j < |cs| => ClosedIf(first.outer[j], Loses(cs, w, i, out, j, true))),
            seq(|cs|, j requires 0 <= j < |cs| => ClosedIf(first.inner[j], Loses(cs, w, i, out, j, false))))
  }

  /** The session after its VERACK. */
  function Acknowledged(w: Network, i: nat, out: bool): (r: Network)
    requires i < |w.outer| && i < |w.inner|
    ensures |r.outer| == |w.outer| && |r.inner| == |w.inner|
  {
    WithEnd(w, i, out, EndAt(w, i, out).(ackReceived := true))
  }

  datatype Step = Version(i: nat, out: bool) | Verack(i: nat, out: bool) | RemoteClosed(i: nat, out: bool)

  /**
   One handled event.  VERSION is sent on attachment and VERACK on receiving VERSION, so a
   VERACK can only arrive once the other end has seen VERSION; an end closes when the other has.
   */
  function Next(cs: seq<Connection>, w: Network, step: Step): (r: Network)
    requires Fits(cs, w)
    ensures Fits(cs, r)
  {
    if step.i >= |cs| then w
    else
      var e, other := EndAt(w, step.i, step.out), EndAt(w, step.i, !step.out);
      if e.closed then w
      else match step
        case Version(i, out) => if e.versionReceived then w else WithEnd(w, i, out, e.(versionReceived := true))
        case Verack(i, out) =>
          if !e.versionReceived || e.ackReceived || !other.versionReceived then w
          else Resolved(cs, Acknowledged(w, i, out), i, out)
        case RemoteClosed(i, out) => if other.closed then WithEnd(w, i, out, ClosedIf(e, true)) else w
  }

  function Start(cs: seq<Connection>): (w: Network)
    ensures Fits(cs, w)
  {
    Network(seq(|cs|, _ => FreshEnd), seq(|cs|, _ => FreshEnd))
  }

  function Run(cs: seq<Connection>, steps: seq<Step>, n: nat): (w: Network)
    requires n <= |steps|
    ensures Fits(cs, w)
  {
    if n == 0 then Start(cs) else Next(cs, Run(cs, steps, n - 1), steps[n - 1])
  }

  // ---- the surviving connection ----------------------------------------------------------------

  /** No parallel connection has a lower or equal rank. */
  predicate Lowest(cs: seq<Connection>, m: nat)
    requires m < |cs|
  {
    forall j :: 0 <= j < |cs| && j != m && Parallel(cs, m, j) ==> Less(RankAt(cs[m], true), RankAt(cs[j], true))
  }

  function SmallerNonce(k: Connection): string {
    if StringLess(k.acceptorNonce, k.initiatorNonce) then k.acceptorNonce else k.initiatorNonce
  }

  /**
   Which connection that is: when both nodes dialled, one dialled by the node with the smaller
   identifier, and among the connections one node dialled, one with the smallest nonce.
   */
  lemma LowestMeans(cs: seq<Connection>, m: nat, j: nat)
    requires m < |cs| && j < |cs| && j != m && Lowest(cs, m) && Parallel(cs, m, j)
    ensures cs[m].initiator != cs[j].initiator ==> StringLess(cs[m].initiator, cs[j].initiator)
    ensures cs[m].initiator == cs[j].initiator ==> !StringLess(SmallerNonce(cs[j]), SmallerNonce(cs[m]))
    ensures cs[m].initiator == cs[j].initiator && SmallerNonce(cs[m]) != SmallerNonce(cs[j])
      ==> StringLess(SmallerNonce(cs[m]), SmallerNonce(cs[j]))
  {
    hide StringLess;
    StringLessTrichotomy(SmallerNonce(cs[m]), SmallerNonce(cs[j]));
    StringLessTrichotomy(cs[m].initiator, cs[j].initiator);
    var a, b := RankAt(cs[m], true), RankAt(cs[j], true);
    assert Less(a, b) && a.low == SmallerNonce(cs[m]) && b.low == SmallerNonce(cs[j]);
  }

  predicate DistinctRanks(cs: seq<Connection>) {
    forall i, j :: 0 <= i < |cs| && 0 <= j < |cs| && i != j && Parallel(cs, i, j)
      ==> RankAt(cs[i], true) != RankAt(cs[j], true)
  }

  /** No node dials itself; the handshake refuses its own identifier. */
  predicate NoSelfConnection(cs: seq<Connection>) {
    forall i :: 0 <= i < |cs| ==> cs[i].initiator != cs[i].acceptor
  }

  lemma {:induction false} WinnerIsLowest(cs: seq<Connection>, w: Network, i: nat, out: bool, n: nat)
    requires Fits(cs, w) && i < |cs| && n <= |cs|
    ensures var best := Winner(cs, w, i, out, n);
      forall j :: 0 <= j < n && Contends(cs, w, i, out, j) ==> !Less(RankAt(cs[j], true), RankAt(cs[best], true))
    ensures !Less(RankAt(cs[i], true), RankAt(cs[Winner(cs, w, i, out, n)], true))
  {
    hide Less, RankAt, Contends;
    if n == 0 {
      LessTrichotomy(RankAt(cs[i], true), RankAt(cs[i], true));
    } else {
      WinnerIsLowest(cs, w, i, out, n - 1);
      var before, best := Winner(cs, w, i, out, n - 1), Winner(cs, w, i, out, n);
      RankSymmetric(cs[n - 1]);
      RankSymmetric(cs[before]);
      LessTrichotomy(RankAt(cs[n - 1], true), RankAt(cs[best], true));
      if best != before {
        forall j | 0 <= j < |cs| && Less(RankAt(cs[j], true), RankAt(cs[best], true))
          ensures Less(RankAt(cs[j], true), RankAt(cs[before], true))
        {
          LessTransitive(RankAt(cs[j], true), RankAt(cs[best], true), RankAt(cs[before], true));
        }
      }
    }
  }

  /** The lowest-ranked connection wins every contest it takes part in. */
  lemma LowestWins(cs: seq<Connection>, w: Network, i: nat, out: bool, m: nat)
    requires Fits(cs, w) && i < |cs| && m < |cs| && Lowest(cs, m)
    requires Contends(cs, w, i, out, m)
    ensures Winner(cs, w, i, out, |cs|) == m
  {
    hide Less, RankAt;
    WinnerIsLowest(cs, w, i, out, |cs|);
  }

  /** The lowest-ranked connection of each pair of nodes is open at both ends. */
  predicate LowestOpen(cs: seq<Connection>, w: Network)
    requires Fits(cs, w)
  {
    forall m, out :: 0 <= m < |cs| && Lowest(cs, m) ==> !EndAt(w, m, out).closed
  }

  predicate Live(w: Network, i: nat, out: bool)
    requires i < |w.outer| && i < |w.inner|
  {
    EndAt(w, i, out).Complete() && !EndAt(w, i, out).closed
  }

  /** Of two parallel sessions at one node at most one is complete and open, and then it is established. */
  predicate OneLive(cs: seq<Connection>, w: Network)
    requires Fits(cs, w)
  {
    && (forall i, j, out :: 0 <= i < |cs| && 0 <= j < |cs| && i != j && Parallel(cs, i, j) && Live(w, i, out)
          ==> !Live(w, j, SameNode(cs, i, out, j)))
    && (forall i, out :: 0 <= i < |cs| && Live(w, i, out) ==> EndAt(w, i, out).established)
  }

  lemma ResolutionKeepsLowest(cs: seq<Connection>, v: Network, i: nat, out: bool)
    requires Fits(cs, v) && LowestOpen(cs, v) && i < |cs|
    ensures LowestOpen(cs, Resolved(cs, v, i, out))
  {
    hide Lowest, Less, RankAt, Winner;
    var r := Resolved(cs, v, i, out);
    forall m, side | 0 <= m < |cs| && Lowest(cs, m) ensures !EndAt(r, m, side).closed {
      if Contends(cs, v, i, out, m) {
        LowestWins(cs, v, i, out, m);
      }
    }
  }

  /** A session live after the resolution was live before or just completed; if it took part it is the winner. */
  lemma LiveAfter(cs: seq<Connection>, w: Network, i: nat, out: bool, a: nat, side: bool)
    requires Fits(cs, w) && i < |cs| && a < |cs| && (Live(w, a, side) ==> EndAt(w, a, side).established)
    requires Live(Resolved(cs, Acknowledged(w, i, out), i, out), a, side)
    ensures Live(w, a, side) || (a == i && side == out)
    ensures var v := Acknowledged(w, i, out);
      Contends(cs, v, i, out, a) && side == SameNode(cs, i, out, a) ==> a == Winner(cs, v, i, out, |cs|)
    ensures EndAt(Resolved(cs, Acknowledged(w, i, out), i, out), a, side).established
  {
    hide Winner, EndAt, WithEnd, Resolved, Contends;
    var v := Acknowledged(w, i, out);
    assert EndAt(Resolved(cs, v, i, out), a, side).Complete();
    Itself(cs, v, i, out);
  }

  lemma Itself(cs: seq<Connection>, v: Network, i: nat, out: bool)
    requires Fits(cs, v) && i < |cs|
    ensures Contends(cs, v, i, out, i) && SameNode(cs, i, out, i) == out
  {
  }

  lemma SameNodeBack(cs: seq<Connection>, a: nat, side: bool, b: nat)
    requires a < |cs| && b < |cs| && NoSelfConnection(cs) && Parallel(cs, a, b)
    ensures Parallel(cs, b, a) && SameNode(cs, b, SameNode(cs, a, side, b), a) == side
  {
  }

  /** A session live beside the one that completes takes part in the contest. */
  lemma LiveContends(cs: seq<Connection>, w: Network, i: nat, out: bool, b: nat)
    requires Fits(cs, w) && i < |cs| && b < |cs| && b != i && Parallel(cs, i, b) && Live(w, b, SameNode(cs, i, out, b))
    ensures Contends(cs, Acknowledged(w, i, out), i, out, b)
  {
    hide EndAt, WithEnd, SameNode;
  }

  /** Resolving the session that just completed leaves no second live session beside the winner. */
  lemma ResolutionKeepsOneLive(cs: seq<Connection>, w: Network, i: nat, out: bool)
    requires Fits(cs, w) && OneLive(cs, w) && NoSelfConnection(cs) && i < |cs|
    ensures OneLive(cs, Resolved(cs, Acknowledged(w, i, out), i, out))
  {
    hide Winner, SameNode, EndAt, Acknowledged, Resolved, Contends, Live, Parallel;
    var v := Acknowledged(w, i, out);
    var r := Resolved(cs, v, i, out);
    forall a, side | 0 <= a < |cs| && Live(r, a, side) ensures EndAt(r, a, side).established {
      LiveAfter(cs, w, i, out, a, side);
    }
    forall a, b, side | 0 <= a < |cs| && 0 <= b < |cs| && a != b && Parallel(cs, a, b) && Live(r, a, side)
      ensures !Live(r, b, SameNode(cs, a, side, b))
    {
      var other := SameNode(cs, a, side, b);
      if Live(r, b, other) {
        SameNodeBack(cs, a, side, b);
        Itself(cs, v, i, out);
        LiveAfter(cs, w, i, out, a, side);
        LiveAfter(cs, w, i, out, b, other);
        if a == i && side == out {
          LiveContends(cs, w, i, out, b);
        } else if b == i && other == out {
          LiveContends(cs, w, i, out, a);
        }
      }
    }
  }

  lemma NextKeepsLowest(cs: seq<Connection>, w: Network, step: Step)
    requires Fits(cs, w) && LowestOpen(cs, w)
    ensures LowestOpen(cs, Next(cs, w, step))
  {
    hide Lowest, Resolved, EndAt, WithEnd;
    if step.Verack? && step.i < |cs| {
      ResolutionKeepsLowest(cs, Acknowledged(w, step.i, step.out), step.i, step.out);
    }
  }

  predicate AckAfterVersion(cs: seq<Connection>, w: Network)
    requires Fits(cs, w)
  {
    forall i, out :: 0 <= i < |cs| && EndAt(w, i, out).ackReceived ==> EndAt(w, i, out).versionReceived
  }

  lemma NextKeepsAckAfterVersion(cs: seq<Connection>, w: Network, step: Step)
    requires Fits(cs, w) && AckAfterVersion(cs, w)
    ensures AckAfterVersion(cs, Next(cs, w, step))
  {
    hide Resolved, EndAt, WithEnd, Loses, Winner;
  }

  lemma NextKeepsOneLive(cs: seq<Connection>, w: Network, step: Step)
    requires Fits(cs, w) && AckAfterVersion(cs, w) && OneLive(cs, w) && NoSelfConnection(cs)
    ensures OneLive(cs, Next(cs, w, step))
  {
    hide Resolved, EndAt, WithEnd, SameNode, Parallel, Acknowledged;
    if step.Verack? && step.i < |cs| {
      ResolutionKeepsOneLive(cs, w, step.i, step.out);
    }
  }

  /** In any order of handshakes, duplicate resolution never closes the lowest-ranked connection at either end. */
  lemma {:induction false} LowestNeverClosed(cs: seq<Connection>, steps: seq<Step>, n: nat)
    requires n <= |steps| && NoSelfConnection(cs)
    ensures LowestOpen(cs, Run(cs, steps, n)) && OneLive(cs, Run(cs, steps, n))
      && AckAfterVersion(cs, Run(cs, steps, n))
  {
    hide Next, Lowest, Parallel, SameNode;
    if n > 0 {
      hide LowestOpen, OneLive, AckAfterVersion;
      LowestNeverClosed(cs, steps, n - 1);
      NextKeepsAckAfterVersion(cs, Run(cs, steps, n - 1), steps[n - 1]);
      NextKeepsLowest(cs, Run(cs, steps, n - 1), steps[n - 1]);
      NextKeepsOneLive(cs, Run(cs, steps, n - 1), steps[n - 1]);
    }
  }

  /** Every end of every connection parallel to `m` has completed its handshake or is closed. */
  predicate Settled(cs: seq<Connection>, w: Network, m: nat)
    requires Fits(cs, w) && m < |cs|
  {
    forall j, out :: 0 <= j < |cs| && (j == m || Parallel(cs, m, j)) ==>
      EndAt(w, j, out).closed || EndAt(w, j, out).Complete()
  }

  /**
   When all handshakes between two nodes have completed, the lowest-ranked connection is
   established at both ends and every other one is closed at both ends.
   */
  lemma OnlyLowestRemains(cs: seq<Connection>, steps: seq<Step>, n: nat, m: nat)
    requires n <= |steps| && NoSelfConnection(cs)
    requires m < |cs| && Lowest(cs, m) && Settled(cs, Run(cs, steps, n), m)
    ensures var w := Run(cs, steps, n);
      forall j, out :: 0 <= j < |cs| && Parallel(cs, m, j) ==>
        EndAt(w, j, out).closed == (j != m) && (j == m ==> EndAt(w, j, out).established)
  {
    hide Next, Run, Lowest;
    LowestNeverClosed(cs, steps, n);
    var w := Run(cs, steps, n);
    forall j, out | 0 <= j < |cs| && Parallel(cs, m, j)
      ensures EndAt(w, j, out).closed == (j != m) && (j == m ==> EndAt(w, j, out).established)
    {
      var own := if cs[m].initiator == cs[j].initiator then out else !out;
      assert SameNode(cs, m, own, j) == out;
      assert Live(w, m, own) && Live(w, m, out);
    }
  }

  // ---- every handshake can be brought to its end -------------------------------------------------

  predicate Done(e: End) { e.closed || e.Complete() }

  /** Nothing is taken back: what an end has received stays received, and closed stays closed. */
  predicate FurtherThan(a: End, b: End) {
    && (b.versionReceived ==> a.versionReceived) && (b.ackReceived ==> a.ackReceived) && (b.closed ==> a.closed)
  }

  lemma NextGoesForward(cs: seq<Connection>, w: Network, step: Step, j: nat, side: bool)
    requires Fits(cs, w) && j < |cs|
    ensures FurtherThan(EndAt(Next(cs, w, step), j, side), EndAt(w, j, side))
  {
    hide Resolved, EndAt, WithEnd, Loses, Winner;
  }

  /** The messages of one handshake, and the news that the other end has hung up. */
  function Handshake(i: nat): (steps: seq<Step>) {
    [Version(i, true), Version(i, false), Verack(i, true), Verack(i, false), RemoteClosed(i, true),
     RemoteClosed(i, false)]
  }

  lemma HandshakeStep(cs: seq<Connection>, w: Network, step: Step)
    requires Fits(cs, w) && step.i < |cs|
    ensures var e, r, other := EndAt(w, step.i, step.out), EndAt(Next(cs, w, step), step.i, step.out),
                               EndAt(w, step.i, !step.out);
      && (step.Version? ==> r.versionReceived || r.closed)
      && (step.Verack? && (e.versionReceived || e.closed) && other.versionReceived ==> Done(r))
      && (step.RemoteClosed? && other.closed ==> r.closed)
  {
    hide Resolved, EndAt, WithEnd, Loses, Winner;
  }

  function After(cs: seq<Connection>, w: Network, steps: seq<Step>, n: nat): (r: Network)
    requires Fits(cs, w) && n <= |steps|
    ensures Fits(cs, r)
  {
    if n == 0 then w else Next(cs, After(cs, w, steps, n - 1), steps[n - 1])
  }

  lemma {:induction false} AfterGoesForward(cs: seq<Connection>, w: Network, steps: seq<Step>, n: nat, j: nat,
                                             side: bool)
    requires Fits(cs, w) && n <= |steps| && j < |cs|
    ensures FurtherThan(EndAt(After(cs, w, steps, n), j, side), EndAt(w, j, side))
  {
    hide EndAt, Next;
    if n > 0 {
      AfterGoesForward(cs, w, steps, n - 1, j, side);
      NextGoesForward(cs, After(cs, w, steps, n - 1), steps[n - 1], j, side);
    }
  }

  /** From any situation the messages of connection `i` complete or close both its ends. */
  lemma HandshakeEnds(cs: seq<Connection>, w: Network, i: nat, side: bool)
    requires Fits(cs, w) && i < |cs|
    ensures Done(EndAt(After(cs, w, Handshake(i), 6), i, side))
  {
    hide EndAt, Next;
    var a := Next(cs, w, Version(i, true));
    var b := Next(cs, a, Version(i, false));
    var d := Next(cs, b, Verack(i, true));
    var e := Next(cs, d, Verack(i, false));
    var f := Next(cs, e, RemoteClosed(i, true));
    var g := Next(cs, f, RemoteClosed(i, false));
    SixSteps(cs, w, i);
    HandshakeStep(cs, w, Version(i, true));
    HandshakeStep(cs, a, Version(i, false));
    HandshakeStep(cs, b, Verack(i, true));
    HandshakeStep(cs, d, Verack(i, false));
    HandshakeStep(cs, e, RemoteClosed(i, true));
    HandshakeStep(cs, f, RemoteClosed(i, false));
    forall out: bool
      ensures FurtherThan(EndAt(b, i, out), EndAt(a, i, out)) && FurtherThan(EndAt(d, i, out), EndAt(b, i, out))
        && FurtherThan(EndAt(e, i, out), EndAt(d, i, out)) && FurtherThan(EndAt(f, i, out), EndAt(e, i, out))
        && FurtherThan(EndAt(g, i, out), EndAt(f, i, out))
    {
      NextGoesForward(cs, a, Version(i, false), i, out);
      NextGoesForward(cs, b, Verack(i, true), i, out);
      NextGoesForward(cs, d, Verack(i, false), i, out);
      NextGoesForward(cs, e, RemoteClosed(i, true), i, out);
      NextGoesForward(cs, f, RemoteClosed(i, false), i, out);
    }
  }

  lemma SixSteps(cs: seq<Connection>, w: Network, i: nat)
    requires Fits(cs, w)
    ensures var b := Next(cs, Next(cs, w, Version(i, true)), Version(i, false));
      var e := Next(cs, Next(cs, b, Verack(i, true)), Verack(i, false));
      After(cs, w, Handshake(i), 6) == Next(cs, Next(cs, e, RemoteClosed(i, true)), RemoteClosed(i, false))
  {
    hide Next;
    var h := Handshake(i);
    assert After(cs, w, h, 1) == Next(cs, w, Version(i, true));
    assert After(cs, w, h, 3) == Next(cs, After(cs, w, h, 2), Verack(i, true));
    assert After(cs, w, h, 5) == Next(cs, After(cs, w, h, 4), RemoteClosed(i, true));
  }

  lemma {:induction false} RunPrefix(cs: seq<Connection>, steps: seq<Step>, more: seq<Step>, n: nat)
    requires n <= |steps|
    ensures Run(cs, steps + more, n) == Run(cs, steps, n)
  {
    hide Next;
    if n > 0 {
      RunPrefix(cs, steps, more, n - 1);
    }
  }

  lemma {:induction false} RunOn(cs: seq<Connection>, steps: seq<Step>, more: seq<Step>, n: nat)
    requires n <= |more|
    ensures Run(cs, steps + more, |steps| + n) == After(cs, Run(cs, steps, |steps|), more, n)
  {
    hide Next;
    if n == 0 {
      RunPrefix(cs, steps, more, |steps|);
    } else {
      RunOn(cs, steps, more, n - 1);
    }
  }

  /** Every run can be continued until each of the first `n` connections is complete or closed at both ends. */
  lemma {:induction false} HandshakesComplete(cs: seq<Connection>, steps: seq<Step>, n: nat) returns (all: seq<Step>)
    requires n <= |cs|
    ensures |steps| <= |all| && all[..|steps|] == steps
    ensures forall j, side :: 0 <= j < n ==> Done(EndAt(Run(cs, all, |all|), j, side))
  {
    hide Run, After, EndAt, Done;
    if n == 0 {
      return steps;
    }
    var before := HandshakesComplete(cs, steps, n - 1);
    all := before + Handshake(n - 1);
    var w := Run(cs, before, |before|);
    RunOn(cs, before, Handshake(n - 1), 6);
    forall j, side | 0 <= j < n ensures Done(EndAt(Run(cs, all, |all|), j, side)) {
      HandshakeEnds(cs, w, n - 1, side);
      AfterGoesForward(cs, w, Handshake(n - 1), 6, j, side);
      StaysDone(EndAt(After(cs, w, Handshake(n - 1), 6), j, side), EndAt(w, j, side));
    }
  }

  lemma StaysDone(a: End, b: End)
    requires FurtherThan(a, b)
    ensures Done(b) ==> Done(a)
  {
  }

  /**
   Whatever has happened so far, the nodes can go on until between any two of them exactly the
   lowest-ranked connection is left, established at both ends.
   */
  lemma OneConnectionRemains(cs: seq<Connection>, steps: seq<Step>) returns (all: seq<Step>)
    requires NoSelfConnection(cs)
    ensures |steps| <= |all| && all[..|steps|] == steps
    ensures forall m, j, out :: 0 <= m < |cs| && Lowest(cs, m) && 0 <= j < |cs| && Parallel(cs, m, j) ==>
      var e := EndAt(Run(cs, all, |all|), j, out);
      e.closed == (j != m) && (j == m ==> e.established)
  {
    hide Run, Lowest, Parallel;
    all := HandshakesComplete(cs, steps, |cs|);
    forall m, j, out | 0 <= m < |cs| && Lowest(cs, m) && 0 <= j < |cs| && Parallel(cs, m, j)
      ensures var e := EndAt(Run(cs, all, |all|), j, out);
        e.closed == (j != m) && (j == m ==> e.established)
    {
      OnlyLowestRemains(cs, all, |all|, m);
    }
  }

  /** With distinct ranks every group of parallel connections has a lowest one. */
  lemma {:induction false} LowestExists(cs: seq<Connection>, i: nat, n: nat) returns (m: nat)
    requires i < |cs| && n <= |cs| && DistinctRanks(cs)
    ensures m < |cs| && (m == i || Parallel(cs, i, m))
    ensures forall j :: 0 <= j < n && j != m && (j == i || Parallel(cs, i, j)) ==>
      Less(RankAt(cs[m], true), RankAt(cs[j], true))
    ensures m == i || Less(RankAt(cs[m], true), RankAt(cs[i], true))
  {
    hide Less, RankAt;
    if n == 0 {
      return i;
    }
    var k := LowestExists(cs, i, n - 1);
    var j := n - 1;
    m := k;
    if j != k && (j == i || Parallel(cs, i, j)) {
      assert Parallel(cs, j, k);
      LessTrichotomy(RankAt(cs[j], true), RankAt(cs[k], true));
      if Less(RankAt(cs[j], true), RankAt(cs[k], true)) {
        m := j;
        forall h | 0 <= h < |cs| && Less(RankAt(cs[k], true), RankAt(cs[h], true))
          ensures Less(RankAt(cs[j], true), RankAt(cs[h], true))
        {
          LessTransitive(RankAt(cs[j], true), RankAt(cs[k], true), RankAt(cs[h], true));
        }
      }
    }
  }

  /** Every connection is either the lowest of its pair of nodes or parallel to it. */
  lemma GroupHasLowest(cs: seq<Connection>, i: nat) returns (m: nat)
    requires i < |cs| && DistinctRanks(cs)
    ensures m < |cs| && Lowest(cs, m) && (m == i || Parallel(cs, i, m))
  {
    hide Less, RankAt;
    m := LowestExists(cs, i, |cs|);
    forall j | 0 <= j < |cs| && j != m && Parallel(cs, m, j) ensures Less(RankAt(cs[m], true), RankAt(cs[j], true)) {
      assert j == i || Parallel(cs, i, j);
    }
  }
}
