/**
 The event stream and its consumer group. Entries are numbered in stream order. Consumers read new
 entries only (`>`), call the handler entry by entry, and acknowledge after success; a run is any
 interleaving with handler failures, failed acknowledgements, lost replies and crashes.
 */
module EventStream {
  type Consumer = nat
  type EntryId = nat

  const READ_COUNT: nat := 10
  const MAX_LENGTH: nat := 10000

  /** What a consumer's loop is doing: entries still to process, and a success not yet acknowledged. */
  datatype Work = Work(batch: seq<EntryId>, acking: seq<EntryId>)

  /**
   Entries before `published` have been added, those before `trimmed` are gone from the stream,
   those before `next` have been passed by the group, which exists from entry `start` on.
   */
  datatype Stream = Stream(
    published: nat, trimmed: nat, grouped: bool, start: nat, next: nat,
    pending: set<EntryId>, acked: set<EntryId>, lost: set<EntryId>,
    work: map<Consumer, Work>, calls: seq<EntryId>, succeeded: set<EntryId>)

  datatype Event =
    | Publish(redisOk: bool)
    | Trim(upTo: nat)
    | EnsureGroup
    | Read(c: Consumer, count: nat, received: bool)
    | Malformed(c: Consumer)
    | Handle(c: Consumer, ok: bool)
    | Ack(c: Consumer, applied: bool)
    | Crash(c: Consumer)

  const EMPTY := Stream(0, 0, false, 0, 0, {}, {}, {}, map[], [], {})

  function Range(a: nat, b: nat): (ids: seq<EntryId>)
    ensures |ids| == if a < b then b - a else 0
    ensures forall i | 0 <= i < |ids| :: ids[i] == a + i
  {
    if a < b then seq(b - a, i requires 0 <= i => a + i) else []
  }

  function Ids(a: nat, b: nat): (ids: set<EntryId>)
    ensures forall i :: i in ids <==> a <= i < b
  {
    if a >= b then {} else Ids(a, b - 1) + {b - 1}
  }

  function WorkOf(s: Stream, c: Consumer): Work {
    if c in s.work then s.work[c] else Work([], [])
  }

  /** The consumer is between two reads. */
  predicate Resting(s: Stream, c: Consumer) {
    WorkOf(s, c) == Work([], [])
  }

  predicate Busy(s: Stream, c: Consumer) {
    WorkOf(s, c).acking == [] && WorkOf(s, c).batch != []
  }

  /** The consumer asks for entries the group has not passed. */
  predicate CanRead(s: Stream, c: Consumer, count: nat) {
    s.grouped && Resting(s, c) && count <= READ_COUNT && s.next + count <= s.published
  }

  function Step(s: Stream, e: Event): Stream {
    match e
    case Publish(redisOk) => if redisOk then s.(published := s.published + 1) else s
    case Trim(upTo) =>
      // The bound never removes the newest MAX_LENGTH entries; the group skips what is gone.
      if s.trimmed <= upTo && upTo + MAX_LENGTH <= s.published then
        (if s.grouped && s.next < upTo
         then s.(trimmed := upTo, lost := s.lost + Ids(s.next, upTo), next := upTo) else s.(trimmed := upTo))
      else s
    case EnsureGroup =>
      if s.grouped then s else s.(grouped := true, start := s.published, next := s.published)
    case Read(c, count, received) =>
      if !CanRead(s, c, count) then s
      else
        var end := s.next + count;
        s.(next := end, pending := s.pending + Ids(s.next, end),
           work := if received then s.work[c := Work(Range(s.next, end), [])] else s.work)
    case Malformed(c) =>
      if !Busy(s, c) then s else s.(work := s.work[c := Work(WorkOf(s, c).batch[1..], [])])
    case Handle(c, ok) =>
      if !Busy(s, c) then s
      else
        var id := WorkOf(s, c).batch[0];
        s.(calls := s.calls + [id], succeeded := if ok then s.succeeded + {id} else s.succeeded,
           work := s.work[c := Work(WorkOf(s, c).batch[1..], if ok then [id] else [])])
    case Ack(c, applied) =>
      if WorkOf(s, c).acking == [] then s
      else
        var id := WorkOf(s, c).acking[0];
        var t := s.(work := s.work[c := Work(WorkOf(s, c).batch, [])]);
        if applied then t.(pending := s.pending - {id}, acked := s.acked + {id}) else t
    case Crash(c) => s.(work := s.work[c := Work([], [])])
  }

  function Run(s: Stream, es: seq<Event>): Stream {
    if es == [] then s else Step(Run(s, es[..|es| - 1]), es[|es| - 1])
  }

  // ----- Invariant -----

  /** Entries of the group that no consumer has been given yet. */
  function Undelivered(s: Stream): set<EntryId> {
    if s.grouped then Ids(s.next, s.published) else {}
  }

  ghost predicate Bounds(s: Stream) {
    && s.trimmed <= s.published
    && (s.grouped ==> s.start <= s.next <= s.published && s.trimmed <= s.published)
    && (!s.grouped ==> s.pending == {} && s.acked == {} && s.lost == {} && s.calls == [] && s.succeeded == {}
                       && forall c | c in s.work :: s.work[c] == Work([], []))
  }

  /** Every entry the group has passed is pending, acknowledged, or was trimmed away first. */
  ghost predicate Partition(s: Stream) {
    && (s.grouped ==> s.pending + s.acked + s.lost == Ids(s.start, s.next))
    && s.pending !! s.acked && s.pending !! s.lost && s.acked !! s.lost
  }

  /** An entry in a consumer's hands is pending, and nobody else holds it. */
  ghost predicate WorkOk(s: Stream, c: Consumer) {
    var w := WorkOf(s, c);
    && (forall i | 0 <= i < |w.batch| :: w.batch[i] in s.pending && w.batch[i] !in s.calls)
    && (forall i, j | 0 <= i < j < |w.batch| :: w.batch[i] < w.batch[j])
    && |w.acking| <= 1
    && (w.acking != [] ==> w.acking[0] in s.pending && w.acking[0] in s.succeeded && w.acking[0] in s.calls)
  }

  ghost predicate HeldOnce(s: Stream) {
    forall c, d, id | c != d && id in WorkOf(s, c).batch :: id !in WorkOf(s, d).batch
  }

  ghost predicate AckedOnce(s: Stream) {
    forall c, d, id | c != d && id in WorkOf(s, c).acking :: id !in WorkOf(s, d).acking
  }

  ghost predicate CallsOk(s: Stream) {
    && (forall i, j | 0 <= i < j < |s.calls| :: s.calls[i] != s.calls[j])
    && (forall id | id in s.calls :: id in s.pending + s.acked)
    && s.acked <= s.succeeded
    && (forall id | id in s.succeeded :: id in s.calls)
  }

  ghost predicate Inv(s: Stream) {
    Bounds(s) && Partition(s) && (forall c :: WorkOk(s, c)) && HeldOnce(s) && AckedOnce(s) && CallsOk(s)
  }

  lemma PassedBelowNext(s: Stream)
    requires Bounds(s) && Partition(s)
    ensures forall id | id in s.pending + s.acked + s.lost :: id < s.next
  {
  }

  lemma BoundsStep(s: Stream, e: Event)
    requires Inv(s)
    ensures Bounds(Step(s, e))
  {
    if e.Handle? || e.Malformed? || e.Ack? {
      assert WorkOk(s, e.c);
    }
  }

  lemma PartitionStep(s: Stream, e: Event)
    requires Inv(s)
    ensures Partition(Step(s, e))
  {
    PassedBelowNext(s);
    if e.Ack? {
      assert WorkOk(s, e.c);
    }
  }

  lemma CallsStep(s: Stream, e: Event)
    requires Inv(s)
    ensures CallsOk(Step(s, e))
  {
    if e.Handle? || e.Ack? {
      assert WorkOk(s, e.c);
    }
  }

  /** Whose loop an event belongs to. */
  predicate Own(e: Event, c: Consumer) {
    (e.Read? || e.Malformed? || e.Handle? || e.Ack? || e.Crash?) && e.c == c
  }

  lemma OwnWorkStep(s: Stream, e: Event, c: Consumer)
    requires Inv(s) && Own(e, c)
    ensures WorkOk(Step(s, e), c)
  {
    assert WorkOk(s, c);
    PassedBelowNext(s);
  }

  lemma OtherWorkStep(s: Stream, e: Event, c: Consumer)
    requires Inv(s) && !Own(e, c)
    ensures WorkOk(Step(s, e), c)
  {
    var t := Step(s, e);
    assert WorkOk(s, c) && WorkOf(t, c) == WorkOf(s, c);
    if e.Handle? && Busy(s, e.c) {
      assert WorkOk(s, e.c) && WorkOf(s, e.c).batch[0] in WorkOf(s, e.c).batch;
    } else if e.Ack? && WorkOf(s, e.c).acking != [] {
      assert WorkOk(s, e.c) && WorkOf(s, e.c).acking[0] in WorkOf(s, e.c).acking;
    }
  }

  lemma WorkStep(s: Stream, e: Event, c: Consumer)
    requires Inv(s)
    ensures WorkOk(Step(s, e), c)
  {
    if Own(e, c) {
      OwnWorkStep(s, e, c);
    } else {
      OtherWorkStep(s, e, c);
    }
  }

  /** Batches only shrink, except that a read hands out entries the group had not passed. */
  lemma BatchSource(s: Stream, e: Event, c: Consumer, id: EntryId)
    requires Inv(s) && id in WorkOf(Step(s, e), c).batch
    ensures id in WorkOf(s, c).batch || (e.Read? && e.c == c && id >= s.next)
  {
  }

  lemma AckingSource(s: Stream, e: Event, c: Consumer, id: EntryId)
    requires Inv(s) && id in WorkOf(Step(s, e), c).acking
    ensures id in WorkOf(s, c).acking || (e.Handle? && e.c == c && id !in s.calls)
  {
    assert WorkOk(s, c);
  }

  lemma HeldStep(s: Stream, e: Event)
    requires Inv(s)
    ensures HeldOnce(Step(s, e))
  {
    var t := Step(s, e);
    PassedBelowNext(s);
    forall c, d, id | c != d && id in WorkOf(t, c).batch
      ensures id !in WorkOf(t, d).batch
    {
      assert WorkOk(s, c) && WorkOk(s, d);
      BatchSource(s, e, c, id);
      if id in WorkOf(t, d).batch {
        BatchSource(s, e, d, id);
      }
    }
  }

  lemma AckingStep(s: Stream, e: Event)
    requires Inv(s)
    ensures AckedOnce(Step(s, e))
  {
    var t := Step(s, e);
    forall c, d, id | c != d && id in WorkOf(t, c).acking
      ensures id !in WorkOf(t, d).acking
    {
      assert WorkOk(s, c) && WorkOk(s, d);
      AckingSource(s, e, c, id);
      if id in WorkOf(t, d).acking {
        AckingSource(s, e, d, id);
      }
    }
  }

  lemma {:induction false} InvRun(es: seq<Event>)
    ensures Inv(Run(EMPTY, es))
  {
    if es != [] {
      var before := Run(EMPTY, es[..|es| - 1]);
      var e := es[|es| - 1];
      InvRun(es[..|es| - 1]);
      BoundsStep(before, e);
      PartitionStep(before, e);
      CallsStep(before, e);
      forall c {
        WorkStep(before, e, c);
      }
      HeldStep(before, e);
      AckingStep(before, e);
    }
  }

  // ----- Main results -----

  /**
   Conservation: the entries added since the group was created are undelivered, pending,
   acknowledged, or were trimmed before delivery, each exactly one of these.
   */
  lemma Conservation(es: seq<Event>)
    ensures var s := Run(EMPTY, es);
            && (s.grouped ==> Undelivered(s) + s.pending + s.acked + s.lost == Ids(s.start, s.published))
            && Undelivered(s) !! s.pending && Undelivered(s) !! s.acked && Undelivered(s) !! s.lost
            && s.pending !! s.acked && s.pending !! s.lost && s.acked !! s.lost
  {
    InvRun(es);
    PassedBelowNext(Run(EMPTY, es));
  }

  /** Each entry reaches at most one handler call, and an acknowledged entry was handled successfully. */
  lemma HandledAtMostOnce(es: seq<Event>)
    ensures var s := Run(EMPTY, es);
            && (forall i, j | 0 <= i < j < |s.calls| :: s.calls[i] != s.calls[j])
            && s.acked <= s.succeeded
            && (forall id | id in s.calls && id !in s.succeeded :: id in s.pending)
  {
    InvRun(es);
  }

  /** In a consumer's hands: waiting in its batch, or handled and about to be acknowledged. */
  predicate Holds(s: Stream, c: Consumer, id: EntryId) {
    id in WorkOf(s, c).batch || id in WorkOf(s, c).acking
  }

  /** Pending, and in no consumer's hands. */
  ghost predicate Abandoned(s: Stream, id: EntryId) {
    id in s.pending && forall c :: !Holds(s, c, id)
  }

  /** The entry a busy consumer is about to handle is in nobody else's hands. */
  lemma HeadHeldOnce(s: Stream, c: Consumer, d: Consumer)
    requires Inv(s) && Busy(s, c)
    ensures WorkOf(s, c).batch[0] in s.pending
    ensures WorkOf(s, c).batch[0] !in WorkOf(s, d).acking
    ensures d != c ==> WorkOf(s, c).batch[0] !in WorkOf(s, d).batch
    ensures WorkOf(s, c).batch[0] !in WorkOf(s, c).batch[1..]
  {
    assert WorkOk(s, c) && WorkOk(s, d);
    assert WorkOf(s, c).batch[0] in WorkOf(s, c).batch;
  }

  lemma AckingHeldOnce(s: Stream, c: Consumer, d: Consumer)
    requires Inv(s) && WorkOf(s, c).acking != []
    ensures WorkOf(s, c).acking[0] in s.pending
    ensures WorkOf(s, c).acking[0] !in WorkOf(s, d).batch
    ensures d != c ==> WorkOf(s, c).acking[0] !in WorkOf(s, d).acking
  {
    assert WorkOk(s, c) && WorkOk(s, d);
    assert WorkOf(s, c).acking[0] in WorkOf(s, c).acking;
  }

  /** Dropping the head of a batch without a success abandons it. */
  lemma DroppedHead(s: Stream, t: Stream, c: Consumer)
    requires Inv(s) && Busy(s, c) && t.pending == s.pending
    requires t.work == s.work[c := Work(WorkOf(s, c).batch[1..], [])]
    ensures Abandoned(t, WorkOf(s, c).batch[0])
  {
    var id := WorkOf(s, c).batch[0];
    HeadHeldOnce(s, c, c);
    forall d
      ensures !Holds(t, d, id)
    {
      HeadHeldOnce(s, c, d);
    }
  }

  lemma DroppedAck(s: Stream, t: Stream, c: Consumer)
    requires Inv(s) && WorkOf(s, c).acking != [] && t.pending == s.pending
    requires t.work == s.work[c := Work(WorkOf(s, c).batch, [])]
    ensures Abandoned(t, WorkOf(s, c).acking[0])
  {
    var id := WorkOf(s, c).acking[0];
    AckingHeldOnce(s, c, c);
    forall d
      ensures !Holds(t, d, id)
    {
      AckingHeldOnce(s, c, d);
    }
  }

  /** The events that abandon an entry, each with the guard under which it does. */
  predicate Abandons(s: Stream, e: Event, id: EntryId) {
    match e
    case Handle(c, ok) => Busy(s, c) && !ok && WorkOf(s, c).batch[0] == id
    case Malformed(c) => Busy(s, c) && WorkOf(s, c).batch[0] == id
    case Ack(c, applied) => WorkOf(s, c).acking != [] && !applied && WorkOf(s, c).acking[0] == id
    case Crash(c) => Holds(s, c, id)
    case Read(c, count, received) => CanRead(s, c, count) && !received && s.next <= id < s.next + count
    case _ => false
  }

  lemma HeldByOne(s: Stream, c: Consumer, d: Consumer, id: EntryId)
    requires Inv(s) && Holds(s, c, id)
    ensures id in s.pending && id < s.next
    ensures d != c ==> !Holds(s, d, id)
  {
    PassedBelowNext(s);
    assert WorkOk(s, c) && WorkOk(s, d);
  }

  lemma CrashAbandons(s: Stream, c: Consumer, id: EntryId)
    requires Inv(s) && Holds(s, c, id)
    ensures Abandoned(Step(s, Crash(c)), id)
  {
    var t := Step(s, Crash(c));
    HeldByOne(s, c, c, id);
    forall d
      ensures !Holds(t, d, id)
    {
      HeldByOne(s, c, d, id);
    }
  }

  lemma LostReadAbandons(s: Stream, c: Consumer, count: nat, id: EntryId)
    requires Inv(s) && CanRead(s, c, count) && s.next <= id < s.next + count
    ensures Abandoned(Step(s, Read(c, count, false)), id)
  {
    var t := Step(s, Read(c, count, false));
    forall d
      ensures !Holds(t, d, id)
    {
      assert WorkOf(t, d) == WorkOf(s, d);
      if Holds(s, d, id) {
        HeldByOne(s, d, d, id);
      }
    }
  }

  lemma AbandonsAbandons(s: Stream, e: Event, id: EntryId)
    requires Inv(s) && Abandons(s, e, id)
    ensures !Abandoned(s, id) && Abandoned(Step(s, e), id)
  {
    match e
    case Handle(c, _) =>
      assert Holds(s, c, id);
      DroppedHead(s, Step(s, e), c);
    case Malformed(c) =>
      assert Holds(s, c, id);
      DroppedHead(s, Step(s, e), c);
    case Ack(c, _) =>
      assert Holds(s, c, id);
      DroppedAck(s, Step(s, e), c);
    case Crash(c) => CrashAbandons(s, c, id);
    case Read(c, count, _) =>
      PassedBelowNext(s);
      LostReadAbandons(s, c, count, id);
  }

  /** An entry leaves a consumer's hands and stays pending only through one of these events. */
  lemma LetGo(s: Stream, e: Event, c: Consumer, id: EntryId)
    requires Inv(s) && Holds(s, c, id) && !Holds(Step(s, e), c, id) && id in Step(s, e).pending
    ensures Abandons(s, e, id)
  {
    assert WorkOk(s, c);
    var batch := WorkOf(s, c).batch;
    assert batch != [] ==> batch == [batch[0]] + batch[1..];
  }

  lemma ReceivedHolds(s: Stream, c: Consumer, count: nat, id: EntryId)
    requires CanRead(s, c, count) && s.next <= id < s.next + count
    ensures Holds(Step(s, Read(c, count, true)), c, id)
  {
    assert Range(s.next, s.next + count)[id - s.next] == id;
  }

  lemma AbandonedBecause(s: Stream, e: Event, id: EntryId)
    requires Inv(s) && !Abandoned(s, id) && Abandoned(Step(s, e), id)
    ensures Abandons(s, e, id)
  {
    if id in s.pending {
      var c :| Holds(s, c, id);
      assert !Holds(Step(s, e), c, id);
      LetGo(s, e, c, id);
    } else {
      assert e.Read? && CanRead(s, e.c, e.count) && s.next <= id < s.next + e.count;
      ReceivedHolds(s, e.c, e.count, id);
    }
  }

  /**
   Exactly what abandons an entry: a failing handler, an unreadable payload, an acknowledgement that is
   not applied, a crash with the entry in hand, or a read whose reply is lost.
   */
  lemma AbandonedExactly(es: seq<Event>, e: Event, id: EntryId)
    ensures var s := Run(EMPTY, es);
            !Abandoned(s, id) && Abandoned(Step(s, e), id) <==> Abandons(s, e, id)
  {
    var s := Run(EMPTY, es);
    InvRun(es);
    if Abandons(s, e, id) {
      AbandonsAbandons(s, e, id);
    } else if !Abandoned(s, id) && Abandoned(Step(s, e), id) {
      AbandonedBecause(s, e, id);
    }
  }

  lemma AckingFromHands(s: Stream, e: Event, c: Consumer, id: EntryId)
    requires id in WorkOf(Step(s, e), c).acking
    ensures id in WorkOf(s, c).acking || id in WorkOf(s, c).batch
  {
    if e.Handle? && Busy(s, e.c) {
      assert WorkOf(s, e.c).batch[0] in WorkOf(s, e.c).batch;
    }
  }

  lemma AbandonedStays(s: Stream, e: Event, id: EntryId)
    requires Inv(s) && Abandoned(s, id)
    ensures id in Step(s, e).pending
    ensures id in Step(s, e).calls <==> id in s.calls
  {
    if e.Handle? && Busy(s, e.c) {
      assert !Holds(s, e.c, id) && Holds(s, e.c, WorkOf(s, e.c).batch[0]);
    } else if e.Ack? && WorkOf(s, e.c).acking != [] {
      assert !Holds(s, e.c, id) && Holds(s, e.c, WorkOf(s, e.c).acking[0]);
    }
  }

  lemma AbandonedStep(s: Stream, e: Event, id: EntryId)
    requires Inv(s) && Abandoned(s, id)
    ensures Abandoned(Step(s, e), id)
    ensures id in Step(s, e).calls <==> id in s.calls
  {
    var t := Step(s, e);
    PassedBelowNext(s);
    AbandonedStays(s, e, id);
    forall c
      ensures !Holds(t, c, id)
    {
      assert !Holds(s, c, id);
      if id in WorkOf(t, c).batch {
        BatchSource(s, e, c, id);
      }
      if id in WorkOf(t, c).acking {
        AckingFromHands(s, e, c, id);
      }
    }
  }

  /** An abandoned entry stays pending for ever and is not handled again: nothing redelivers it. */
  lemma {:induction false} AbandonedForever(es: seq<Event>, more: seq<Event>, id: EntryId)
    requires Abandoned(Run(EMPTY, es), id)
    ensures Abandoned(Run(EMPTY, es + more), id)
    ensures id in Run(EMPTY, es + more).calls <==> id in Run(EMPTY, es).calls
  {
    if more == [] {
      assert es + more == es;
    } else {
      AbandonedForever(es, more[..|more| - 1], id);
      InvRun(es + more[..|more| - 1]);
      AbandonedStep(Run(EMPTY, es + more[..|more| - 1]), more[|more| - 1], id);
      assert (es + more)[..|es + more| - 1] == es + more[..|more| - 1];
    }
  }

  /** Some event of the run abandoned the entry. */
  ghost predicate AbandonedIn(es: seq<Event>, id: EntryId) {
    exists k :: 0 <= k < |es| && Abandons(Run(EMPTY, es[..k]), es[k], id)
  }

  lemma AbandonedInMore(es: seq<Event>, e: Event, id: EntryId)
    ensures AbandonedIn(es + [e], id) <==> AbandonedIn(es, id) || Abandons(Run(EMPTY, es), e, id)
  {
    var more := es + [e];
    assert more[..|es|] == es && more[|es|] == e;
    forall k | 0 <= k < |es|
      ensures more[..k] == es[..k] && more[k] == es[k]
    {
    }
    if AbandonedIn(es, id) {
      var k :| 0 <= k < |es| && Abandons(Run(EMPTY, es[..k]), es[k], id);
      assert Abandons(Run(EMPTY, more[..k]), more[k], id);
    }
    assert Abandons(Run(EMPTY, es), e, id) ==> Abandons(Run(EMPTY, more[..|es|]), more[|es|], id);
  }

  /** Over whole runs: an entry is abandoned if and only if some event of the run abandoned it. */
  lemma {:induction false} AbandonedBySomeEvent(es: seq<Event>, id: EntryId)
    ensures Abandoned(Run(EMPTY, es), id) <==> AbandonedIn(es, id)
  {
    if es != [] {
      var before, e := es[..|es| - 1], es[|es| - 1];
      AbandonedBySomeEvent(before, id);
      AbandonedInMore(before, e, id);
      assert es == before + [e];
      AbandonedExactly(before, e, id);
      InvRun(before);
      if Abandoned(Run(EMPTY, before), id) {
        AbandonedStep(Run(EMPTY, before), e, id);
      }
    }
  }

  /** Every entry the group has passed is acknowledged, in some consumer's hands, abandoned, or was trimmed. */
  lemma PassedEntries(es: seq<Event>, id: EntryId)
    ensures var s := Run(EMPTY, es);
            s.grouped && s.start <= id < s.next ==>
              id in s.acked || id in s.lost || Abandoned(s, id) || exists c :: Holds(s, c, id)
  {
    InvRun(es);
    var s := Run(EMPTY, es);
    if s.grouped && s.start <= id < s.next {
      assert id in Ids(s.start, s.next);
    }
  }

  /** An entry is lost only once ten thousand newer entries have been published. */
  lemma {:induction false} LostOnlyWhenFull(es: seq<Event>)
    ensures forall id | id in Run(EMPTY, es).lost :: id + 10000 < Run(EMPTY, es).published
  {
    if es != [] {
      LostOnlyWhenFull(es[..|es| - 1]);
    }
  }

  /** A group that nobody reads while `n` entries are published. */
  function Unread(n: nat): seq<Event> {
    if n == 0 then [EnsureGroup] else Unread(n - 1) + [Publish(true)]
  }

  lemma RunMore(es: seq<Event>, e: Event)
    ensures Run(EMPTY, es + [e]) == Step(Run(EMPTY, es), e)
  {
    assert (es + [e])[..|es|] == es;
  }

  lemma {:induction false} UnreadRuns(n: nat)
    ensures Run(EMPTY, Unread(n)) == EMPTY.(grouped := true, published := n)
  {
    if n == 0 {
      assert Unread(0) == [] + [EnsureGroup];
      RunMore([], EnsureGroup);
    } else {
      UnreadRuns(n - 1);
      RunMore(Unread(n - 1), Publish(true));
    }
  }

  /** The length bound does drop entries that no consumer has been given: any number of them, if unread. */
  lemma UnreadAreLost(n: nat)
    ensures Run(EMPTY, Unread(n + 10000) + [Trim(n)]).lost == Ids(0, n)
  {
    UnreadRuns(n + MAX_LENGTH);
    RunMore(Unread(n + MAX_LENGTH), Trim(n));
  }

  // ----- Where the group begins -----

  /** The group does not exist yet, or was created when at least `n` entries had been published. */
  predicate BeginsAfter(s: Stream, n: nat) {
    n <= s.published && (s.grouped ==> n <= s.start)
  }

  lemma {:induction false} BeginsAfterRun(before: seq<Event>, after: seq<Event>, n: nat)
    requires BeginsAfter(Run(EMPTY, before), n)
    ensures BeginsAfter(Run(EMPTY, before + after), n)
    ensures var s, t := Run(EMPTY, before), Run(EMPTY, before + after);
            s.grouped ==> t.grouped && t.start == s.start
  {
    if after == [] {
      assert before + after == before;
    } else {
      var most := after[..|after| - 1];
      BeginsAfterRun(before, most, n);
      assert before + after == before + most + [after[|after| - 1]];
      RunMore(before + most, after[|after| - 1]);
    }
  }

  /**
   An entry published before the group was created is never pending, acknowledged, lost, handled or in a
   consumer's hands, in any run.
   */
  lemma OldEntriesIgnored(before: seq<Event>, after: seq<Event>, id: EntryId)
    requires !Run(EMPTY, before).grouped && id < Run(EMPTY, before).published
    ensures var s := Run(EMPTY, before + after);
            && id !in s.pending && id !in s.acked && id !in s.lost && id !in s.calls && id !in s.succeeded
            && (forall c :: !Holds(s, c, id))
  {
    var s := Run(EMPTY, before + after);
    BeginsAfterRun(before, after, Run(EMPTY, before).published);
    InvRun(before + after);
    assert s.grouped ==> id !in Ids(s.start, s.next);
    forall c
      ensures !Holds(s, c, id)
    {
      assert WorkOk(s, c);
    }
  }

  /** What the group accounts for is exactly what was published from its creation on. */
  lemma GroupCovers(before: seq<Event>, after: seq<Event>)
    requires !Run(EMPTY, before).grouped
    ensures var s := Run(EMPTY, before + [EnsureGroup] + after);
            forall id :: Run(EMPTY, before).published <= id < s.published
                         <==> id in Undelivered(s) + s.pending + s.acked + s.lost
  {
    var created := before + [EnsureGroup];
    RunMore(before, EnsureGroup);
    BeginsAfterRun(created, after, Run(EMPTY, before).published);
    Conservation(created + after);
  }

  /** A read hands a resting consumer the oldest unread entries, at most ten at a time. */
  lemma ReadsUpToTen(s: Stream, c: Consumer, count: nat)
    requires s.grouped && Resting(s, c) && s.next + count <= s.published
    ensures var t := Step(s, Read(c, count, true));
            if count > 10 then t == s
            else
              && |WorkOf(t, c).batch| == count && t.next == s.next + count
              && (forall i | 0 <= i < count :: WorkOf(t, c).batch[i] == s.next + i)
              && (forall id :: id in t.pending <==> id in s.pending || s.next <= id < s.next + count)
  {
  }

  // ----- The fields of one entry -----

  /** `e[fields[i]] = fields[i + 1]` over an entry's flat field list; a missing value is `None`. */
  datatype Field = NoValue | Text(s: string)

  function Collected(fields: seq<string>): map<string, Field> {
    if |fields| == 0 then map[]
    else if |fields| % 2 == 1 then Collected(fields[..|fields| - 1])[fields[|fields| - 1] := NoValue]
    else Collected(fields[..|fields| - 2])[fields[|fields| - 2] := Text(fields[|fields| - 1])]
  }

  method CollectFields(fields: seq<string>) returns (e: map<string, Field>)
    ensures e == Collected(fields)
  {
    e := map[];
    var i := 0;
    while i < |fields|
      invariant 0 <= i <= |fields| + 1
      invariant i <= |fields| ==> i % 2 == 0 && e == Collected(fields[..i])
      invariant i == |fields| + 1 ==> e == Collected(fields)
    {
      var value := if i + 1 < |fields| then Text(fields[i + 1]) else NoValue;
      if i + 1 < |fields| {
        assert fields[..i + 2][..i] == fields[..i];
      }
      e := e[fields[i] := value];
      i := i + 2;
    }
    assert i == |fields| ==> fields[..i] == fields;
  }

  /** The flat field list that `publishEvent` adds. */
  function Published(type_: string, payload: string, actorId: string, requestId: string, ts: string): seq<string> {
    ["type", type_, "payload", payload, "actorId", actorId, "requestId", requestId, "ts", ts]
  }

  lemma CollectPair(fields: seq<string>, n: nat)
    requires 2 <= n <= |fields| && n % 2 == 0
    ensures Collected(fields[..n]) == Collected(fields[..n - 2])[fields[n - 2] := Text(fields[n - 1])]
  {
    assert fields[..n][..n - 2] == fields[..n - 2];
  }

  /** A consumer collects from a published entry exactly the fields that were published. */
  lemma FieldsRoundTrip(type_: string, payload: string, actorId: string, requestId: string, ts: string)
    ensures Collected(Published(type_, payload, actorId, requestId, ts))
         == map["type" := Text(type_), "payload" := Text(payload), "actorId" := Text(actorId),
                "requestId" := Text(requestId), "ts" := Text(ts)]
  {
    var fields := Published(type_, payload, actorId, requestId, ts);
    CollectPair(fields, 2);
    CollectPair(fields, 4);
    CollectPair(fields, 6);
    CollectPair(fields, 8);
    CollectPair(fields, 10);
    assert fields[..10] == fields;
  }
}
