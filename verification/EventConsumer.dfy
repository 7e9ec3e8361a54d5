/**
 The stream and the consumer loop in their own form: publishing, group creation, reading and
 acknowledging change Redis, and the loop body works through one batch entry by entry.
 */
module EventConsumer {
  import opened EventStream

  /** How one entry of a batch fares. */
  datatype Fate = Unreadable | HandlerThrows | AckFails | Handled

  class Redis {
    var published: nat
    var trimmed: nat
    var grouped: bool
    var start: nat
    var next: nat
    var pending: set<EntryId>
    var acked: set<EntryId>
    var lost: set<EntryId>
    var work: map<Consumer, Work>
    var calls: seq<EntryId>
    var succeeded: set<EntryId>

    ghost function State(): Stream
      reads this
    {
      Stream(published, trimmed, grouped, start, next, pending, acked, lost, work, calls, succeeded)
    }

    constructor ()
      ensures State() == EMPTY
    {
      published, trimmed, grouped, start, next := 0, 0, false, 0, 0;
      pending, acked, lost, work, calls, succeeded := {}, {}, {}, map[], [], {};
    }

    /** A failure is swallowed: the originating request never sees it. */
    method PublishEvent(redisOk: bool) returns (id: int)
      modifies this`published
      ensures State() == Step(old(State()), Publish(redisOk))
      ensures id == if redisOk then old(published) else -1
      ensures published == if redisOk then old(published) + 1 else old(published)
    {
      id := -1;
      if redisOk {
        id := published;
        published := published + 1;
      }
    }

    /** Creates the group at the end of the stream, unless it exists. */
    method CreateGroup()
      modifies this`grouped, this`start, this`next
      ensures State() == Step(old(State()), EnsureGroup)
      ensures grouped && (old(grouped) ==> start == old(start) && next == old(next))
      ensures !old(grouped) ==> start == next == published
    {
      if !grouped {
        grouped, start, next := true, published, published;
      }
    }

    /** `XREADGROUP … >`: the oldest entries the group has not passed become pending for this consumer. */
    method ReadNew(c: Consumer, count: nat) returns (batch: seq<EntryId>)
      requires grouped && Resting(State(), c) && count <= READ_COUNT && next + count <= published
      modifies this`next, this`pending, this`work
      ensures State() == Step(old(State()), Read(c, count, true))
      ensures batch == WorkOf(State(), c).batch && |batch| == count
    {
      batch := Range(next, next + count);
      pending := pending + Ids(next, next + count);
      work := work[c := Work(batch, [])];
      next := next + count;
    }

    /** Takes the next entry of the batch through handler and acknowledgement. */
    method ProcessEntry(c: Consumer, fate: Fate)
      requires Busy(State(), c)
      modifies this`pending, this`acked, this`work, this`calls, this`succeeded
      ensures State() == Run(old(State()), EntryScript(c, fate))
      ensures WorkOf(State(), c) == Work(WorkOf(old(State()), c).batch[1..], [])
      ensures acked == old(acked) + if fate.Handled? then {WorkOf(old(State()), c).batch[0]} else {}
      ensures pending == old(pending) - if fate.Handled? then {WorkOf(old(State()), c).batch[0]} else {}
    {
      ghost var s := State();
      var id, rest := work[c].batch[0], work[c].batch[1..];
      EntryRuns(s, c, fate);
      if fate != Unreadable {
        calls := calls + [id];
        if fate != HandlerThrows {
          succeeded := succeeded + {id};
          if fate == Handled {
            pending := pending - {id};
            acked := acked + {id};
          }
        }
      }
      work := work[c := Work(rest, [])];
    }

    /** The loop over one batch: a failing entry stops nothing, and is left pending. */
    method ProcessBatch(c: Consumer, fates: seq<Fate>)
      requires WorkOf(State(), c).acking == [] && |fates| == |WorkOf(State(), c).batch|
      modifies this`pending, this`acked, this`work, this`calls, this`succeeded
      ensures State() == Run(old(State()), BatchScript(c, fates))
      ensures Resting(State(), c)
      ensures acked == old(acked) + Successes(WorkOf(old(State()), c).batch, fates)
      ensures pending == old(pending) - Successes(WorkOf(old(State()), c).batch, fates)
    {
      ghost var s := State();
      for i := 0 to |fates|
        invariant Partway(s, State(), c, fates, i)
      {
        ghost var m := State();
        ProcessEntry(c, fates[i]);
        PartwayMore(s, m, State(), c, fates, i);
      }
      assert fates[..|fates|] == fates;
      BatchOutcome(s, c, fates);
    }
  }

  /** The entries of a batch that are handled and acknowledged. */
  function Successes(batch: seq<EntryId>, fates: seq<Fate>): (ids: set<EntryId>)
    requires |batch| == |fates|
    ensures forall i | 0 <= i < |batch| && fates[i].Handled? :: batch[i] in ids
    ensures forall id | id in ids :: exists i :: 0 <= i < |batch| && fates[i].Handled? && batch[i] == id
  {
    set i | 0 <= i < |batch| && fates[i].Handled? :: batch[i]
  }

  lemma SuccessesMore(batch: seq<EntryId>, fates: seq<Fate>, id: EntryId, fate: Fate)
    requires |batch| == |fates|
    ensures Successes(batch + [id], fates + [fate]) == Successes(batch, fates) + if fate.Handled? then {id} else {}
  {
    var more, all := batch + [id], fates + [fate];
    forall x | x in Successes(batch, fates)
      ensures x in Successes(more, all)
    {
      var i :| 0 <= i < |batch| && fates[i].Handled? && batch[i] == x;
      assert all[i].Handled? && more[i] == x;
    }
    assert all[|batch|] == fate && more[|batch|] == id;
  }

  /** The events of one entry. */
  function EntryScript(c: Consumer, fate: Fate): seq<Event> {
    match fate
    case Unreadable => [Malformed(c)]
    case HandlerThrows => [Handle(c, false)]
    case AckFails => [Handle(c, true), Ack(c, false)]
    case Handled => [Handle(c, true), Ack(c, true)]
  }

  function BatchScript(c: Consumer, fates: seq<Fate>): seq<Event> {
    if fates == [] then [] else BatchScript(c, fates[..|fates| - 1]) + EntryScript(c, fates[|fates| - 1])
  }

  lemma {:induction false} RunAppend(s: Stream, es: seq<Event>, more: seq<Event>)
    ensures Run(s, es + more) == Run(Run(s, es), more)
  {
    if more == [] {
      assert es + more == es;
    } else {
      RunAppend(s, es, more[..|more| - 1]);
      assert (es + more)[..|es + more| - 1] == es + more[..|more| - 1];
    }
  }

  lemma BatchMore(s: Stream, c: Consumer, fates: seq<Fate>, fate: Fate)
    ensures Run(s, BatchScript(c, fates + [fate])) == Run(Run(s, BatchScript(c, fates)), EntryScript(c, fate))
  {
    assert (fates + [fate])[..|fates + [fate]| - 1] == fates;
    RunAppend(s, BatchScript(c, fates), EntryScript(c, fate));
  }

  /** The first `i` entries of the batch have been processed. */
  ghost predicate Partway(s: Stream, t: Stream, c: Consumer, fates: seq<Fate>, i: nat) {
    && i <= |fates| == |WorkOf(s, c).batch|
    && t == Run(s, BatchScript(c, fates[..i]))
    && WorkOf(t, c) == Work(WorkOf(s, c).batch[i..], [])
  }

  lemma PartwayMore(s: Stream, m: Stream, t: Stream, c: Consumer, fates: seq<Fate>, i: nat)
    requires Partway(s, m, c, fates, i) && i < |fates|
    requires t == Run(m, EntryScript(c, fates[i])) && WorkOf(t, c) == Work(WorkOf(m, c).batch[1..], [])
    ensures Partway(s, t, c, fates, i + 1)
  {
    assert fates[..i + 1] == fates[..i] + [fates[i]];
    assert WorkOf(s, c).batch[i..][1..] == WorkOf(s, c).batch[i + 1..];
    BatchMore(s, c, fates[..i], fates[i]);
  }

  lemma RunOne(s: Stream, e: Event)
    ensures Run(s, [e]) == Step(s, e)
  {
    assert [e][..0] == [];
  }

  lemma RunBoth(s: Stream, a: Event, b: Event)
    ensures Run(s, [a, b]) == Step(Step(s, a), b)
  {
    RunOne(s, a);
    RunAppend(s, [a], [b]);
    RunOne(Step(s, a), b);
    assert [a] + [b] == [a, b];
  }

  /** The handler succeeds and the acknowledgement follows. */
  lemma AckRuns(s: Stream, c: Consumer, applied: bool)
    requires Busy(s, c)
    ensures var id, rest := WorkOf(s, c).batch[0], WorkOf(s, c).batch[1..];
            Run(s, [Handle(c, true), Ack(c, applied)])
            == s.(calls := s.calls + [id], succeeded := s.succeeded + {id},
                  pending := if applied then s.pending - {id} else s.pending,
                  acked := if applied then s.acked + {id} else s.acked,
                  work := s.work[c := Work(rest, [])])
  {
    var id, rest := WorkOf(s, c).batch[0], WorkOf(s, c).batch[1..];
    RunBoth(s, Handle(c, true), Ack(c, applied));
    assert s.work[c := Work(rest, [id])][c := Work(rest, [])] == s.work[c := Work(rest, [])];
  }

  lemma EntryRuns(s: Stream, c: Consumer, fate: Fate)
    requires Busy(s, c)
    ensures var id, rest := WorkOf(s, c).batch[0], WorkOf(s, c).batch[1..];
            Run(s, EntryScript(c, fate))
            == s.(calls := if fate.Unreadable? then s.calls else s.calls + [id],
                  succeeded := if fate.AckFails? || fate.Handled? then s.succeeded + {id} else s.succeeded,
                  pending := if fate.Handled? then s.pending - {id} else s.pending,
                  acked := if fate.Handled? then s.acked + {id} else s.acked,
                  work := s.work[c := Work(rest, [])])
  {
    match fate
    case Unreadable => RunOne(s, Malformed(c));
    case HandlerThrows => RunOne(s, Handle(c, false));
    case AckFails => AckRuns(s, c, false);
    case Handled => AckRuns(s, c, true);
  }

  lemma EntryOutcome(s: Stream, c: Consumer, fate: Fate)
    requires Busy(s, c)
    ensures var id, t := WorkOf(s, c).batch[0], Run(s, EntryScript(c, fate));
            && WorkOf(t, c) == Work(WorkOf(s, c).batch[1..], [])
            && t.acked == s.acked + (if fate.Handled? then {id} else {})
            && t.pending == s.pending - (if fate.Handled? then {id} else {})
  {
    EntryRuns(s, c, fate);
  }

  /** `t` is `s` after the entries of `batch` with these fates. */
  ghost predicate Processed(s: Stream, t: Stream, c: Consumer, batch: seq<EntryId>, fates: seq<Fate>)
    requires |fates| <= |batch|
  {
    && WorkOf(t, c) == Work(batch[|fates|..], [])
    && t.acked == s.acked + Successes(batch[..|fates|], fates)
    && t.pending == s.pending - Successes(batch[..|fates|], fates)
  }

  lemma ProcessedMore(s: Stream, m: Stream, c: Consumer, batch: seq<EntryId>, fates: seq<Fate>, fate: Fate)
    requires |fates| < |batch| && Processed(s, m, c, batch, fates)
    ensures Processed(s, Run(m, EntryScript(c, fate)), c, batch, fates + [fate])
  {
    assert batch[|fates|..][1..] == batch[|fates| + 1..];
    EntryOutcome(m, c, fate);
    OneMore(s, m, Run(m, EntryScript(c, fate)), batch, fates, fate);
  }

  lemma OneMore(s: Stream, m: Stream, t: Stream, batch: seq<EntryId>, fates: seq<Fate>, fate: Fate)
    requires |fates| < |batch|
    requires m.acked == s.acked + Successes(batch[..|fates|], fates)
    requires m.pending == s.pending - Successes(batch[..|fates|], fates)
    requires t.acked == m.acked + (if fate.Handled? then {batch[|fates|]} else {})
    requires t.pending == m.pending - (if fate.Handled? then {batch[|fates|]} else {})
    ensures t.acked == s.acked + Successes(batch[..|fates| + 1], fates + [fate])
    ensures t.pending == s.pending - Successes(batch[..|fates| + 1], fates + [fate])
  {
    assert batch[..|fates| + 1] == batch[..|fates|] + [batch[|fates|]];
    SuccessesMore(batch[..|fates|], fates, batch[|fates|], fate);
  }

  /** After a batch, exactly the entries handled and acknowledged have moved from pending to acknowledged. */
  lemma {:induction false} BatchOutcome(s: Stream, c: Consumer, fates: seq<Fate>)
    requires WorkOf(s, c).acking == [] && |fates| <= |WorkOf(s, c).batch|
    ensures Processed(s, Run(s, BatchScript(c, fates)), c, WorkOf(s, c).batch, fates)
  {
    if fates == [] {
      assert WorkOf(s, c).batch[0..] == WorkOf(s, c).batch;
    } else {
      var most := fates[..|fates| - 1];
      BatchOutcome(s, c, most);
      assert fates == most + [fates[|fates| - 1]];
      BatchMore(s, c, most, fates[|fates| - 1]);
      ProcessedMore(s, Run(s, BatchScript(c, most)), c, WorkOf(s, c).batch, most, fates[|fates| - 1]);
    }
  }
}
