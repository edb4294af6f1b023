/**
 The worker of buffer.go as the code runs it: process, flushBatch with its in-place filter, the retries of
 Upsert, and drain, with the other goroutines acting between any two accesses. Every access is a step of TsMachine.
 */
module TsBuffer {
  import opened Sequences
  import opened Text
  import opened Gate
  import opened Projection
  import opened TsMachine
  import opened TsLog
  import opened TsShutdown

  /** What one bulk upsert answers, and which positions it landed. */
  datatype Reply = Reply(landed: set<nat>, indexed: nat, errs: nat)

  /** Nothing was indexed and something failed. */
  predicate Fruitless(reply: Reply) {
    reply.indexed == 0 && reply.errs > 0
  }

  /** One bulk call and again only after a fruitless one, up to MAX_RETRIES times; fewer only after one that was not. */
  predicate Retried(calls: seq<Reply>) {
    && 1 <= |calls| <= MAX_RETRIES + 1
    && (forall i :: 0 <= i < |calls| - 1 ==> Fruitless(calls[i]))
    && (|calls| <= MAX_RETRIES ==> !Fruitless(calls[|calls| - 1]))
  }

  /**
   All goroutines and stores. others(k) is what the rest does before access k, net(k) what Typesense answers, and
   convertible(k) whether prepareBatch makes a document of any event. replies are the answers to bulk upserts so far.
   */
  class World {
    var s: State
    var clock: nat
    var replies: seq<Reply>
    const others: nat -> seq<Step>
    const net: nat -> Reply
    const convertible: nat -> bool
    ghost const origin: State
    ghost var trace: seq<Step>

    ghost predicate Valid()
      reads this`s, this`trace
    {
      Init(origin) && Leads(origin, trace, s)
    }

    constructor (s: State, others: nat -> seq<Step>, net: nat -> Reply, convertible: nat -> bool)
      requires Init(s)
      ensures Valid() && this.s == s && this.others == others && this.net == net && this.convertible == convertible
    {
      this.s, this.others, this.net, this.convertible, clock, replies := s, others, net, convertible, 0, [];
      origin := s;
      trace := [];
    }

    method Act(step: Step)
      requires Valid() && Enabled(s, step)
      modifies this`s, this`trace
      ensures Valid() && s == Next(old(s), step)
    {
      hide Enabled, Next, Init;
      LeadsAppend(origin, trace, s, step);
      s := Next(s, step);
      trace := trace + [step];
    }

    /** The worker acts; nobody else does. */
    method Do(a: Act)
      requires Valid() && ActEnabled(s.w, |s.sent|, s.done, a)
      modifies this`s, this`trace
      ensures Valid() && Settled(old(s), s) && s.sent == old(s.sent)
      ensures s.w == Acted(old(s.w), old(s.sent), old(s.done), Refused(old(s.gate), old(s.w), a), a)
    {
      hide Acted, Land, Without, Init, Leads, Gate.Blocked;
      Act(Work(a));
    }

    /** The filter is told of one event whether it is blocked. */
    method Check(blocked: bool)
      requires Valid() && s.w.pc.Filtering? && s.w.pc.i < |s.w.batch|
      requires blocked == s.gate.Blocked(s.w.batch[s.w.pc.i].ev)
      modifies this`s, this`trace
      ensures Valid() && Settled(old(s), s) && s.w == Checked(old(s.w), blocked)
    {
      hide Valid, Checked, Gate.Blocked;
      Do(CheckItem);
    }

    /** A bulk upsert is over: the documents are where it landed them, and another one follows or not. */
    method Landed(landed: set<nat>, retry: bool)
      requires Valid() && s.w.pc.Upserting? && (retry ==> s.w.pc.attempt < MAX_RETRIES)
      modifies this`s, this`trace
      ensures Valid() && Settled(old(s), s) && s.w == Upserted(old(s.w), retry)
    {
      hide Valid, Upserted, Gate.Blocked;
      Do(TsMachine.Act.Upsert(landed, retry));
    }

    /** The rest acts; the worker does not. */
    method Elsewhere()
      requires Valid()
      modifies this`s, this`trace, this`clock
      ensures Valid() && s.w == old(s.w) && Settled(old(s), s) && |old(s.sent)| <= |s.sent|
    {
      hide Init, Leads, Acted, Land, Without, Enabled, Next;
      var steps := others(clock);
      clock := clock + 1;
      for i := 0 to |steps|
        invariant Valid() && s.w == old(s.w) && Settled(old(s), s) && |old(s.sent)| <= |s.sent|
      {
        if !steps[i].Work? && Enabled(s, steps[i]) {
          OthersLeaveWorker(s, steps[i]);
          Act(steps[i]);
        }
      }
    }

    /** One bulk upsert, and whether another one follows. */
    method Bulk() returns (reply: Reply, retry: bool)
      requires Valid() && s.w.pc.Upserting?
      modifies this
      ensures Valid() && Settled(old(s), s) && replies == old(replies) + [reply]
      ensures retry <==> Fruitless(reply) && old(s.w.pc.attempt) < MAX_RETRIES
      ensures s.w == Upserted(old(s.w), retry)
    {
      hide Valid, Upserted, Gate.Blocked;
      Elsewhere();
      reply := net(clock);
      replies := replies + [reply];
      retry := reply.indexed == 0 && reply.errs > 0 && s.w.pc.attempt < MAX_RETRIES;
      Landed(reply.landed, retry);
    }
  }

  /** What Close has stored stays stored. */
  predicate Settled(s: State, t: State) {
    (s.closed ==> t.closed && t.marked == s.marked && t.raced == s.raced) && (s.done ==> t.done)
  }

  /** What a flush leaves alone. */
  predicate SameTask(w: Worker, v: Worker) {
    v.taken == w.taken && v.size == w.size && v.draining == w.draining && v.expired == w.expired
  }

  lemma OthersLeaveWorker(s: State, step: Step)
    requires !step.Work? && Enabled(s, step)
    ensures Next(s, step).w == s.w && Settled(s, Next(s, step)) && |s.sent| <= |Next(s, step).sent|
  {
    hide Without, RecordedGate, Apply, Acted;
  }

  lemma WorldOrdered(world: World)
    requires world.Valid()
    ensures OrderInv(world.s.w, world.s.sent)
  {
    hide OrderInv, Leads;
    InitOrdered(world.origin);
    RunKeepsOrder(world.origin, world.trace, world.s);
  }

  class TSWriteBuffer {
    const world: World
    const batchSize: nat
    /** The backing array of `batch`, which append never outgrows; len is len(batch). */
    const batch: array<Item>
    var len: nat
    var pendingDocIDs: set<string>

    ghost predicate Holds()
      reads this, world, batch
    {
      && batch.Length == batchSize == world.s.w.size && len <= batchSize
      && world.s.w.batch == batch[..len] && pendingDocIDs == world.s.w.pending
    }

    /** Between two tasks. */
    ghost predicate Valid()
      reads this, world, batch
    {
      world.Valid() && Holds()
    }

    constructor (world: World)
      requires world.Valid() && world.s.w.batch == [] && world.s.w.pending == {}
      ensures Valid() && this.world == world && fresh(batch)
    {
      this.world, batchSize := world, world.s.w.size;
      batch := new Item[world.s.w.size];
      len, pendingDocIDs := 0, {};
    }

    /** Upsert: no call without a document; else one bulk call, again while it was fruitless. */
    method Upsert(after: After) returns (ghost calls: seq<Reply>)
      requires world.Valid() && world.s.w.pc == Upserting(0, after)
      modifies world
      ensures world.Valid() && world.s.w == Upserted(old(world.s.w), false) && Settled(old(world.s), world.s)
      ensures world.replies == old(world.replies) + calls
      ensures if world.convertible(old(world.clock)) then Retried(calls) else calls == []
    {
      hide World.Valid, Acted, Gate.Blocked;
      ghost var w := world.s.w;
      calls := [];
      if !world.convertible(world.clock) {
        world.Landed({}, false);
        return;
      }
      for attempt := 0 to MAX_RETRIES + 1
        invariant world.Valid() && world.s.w == w.(pc := Upserting(attempt, after)) && Settled(old(world.s), world.s)
        invariant attempt <= MAX_RETRIES
        invariant world.replies == old(world.replies) + calls && |calls| == attempt
        invariant forall i :: 0 <= i < |calls| ==> Fruitless(calls[i])
      {
        var reply, retry := world.Bulk();
        calls := calls + [reply];
        if !retry { return; }
      }
    }

    /** A survivor moves up to the end of the survivors; what is yet to be checked stays. */
    method Keep(k: nat, i: nat, n: nat)
      requires k <= i < n <= batch.Length
      modifies batch
      ensures batch[..k + 1] == old(batch[..k]) + [old(batch[i])] && batch[i + 1..n] == old(batch[i + 1..n])
    {
      batch[k] := batch[i];
    }

    /** The filter of flushBatch: `kept := batch[:0]` over the same array. */
    method FilterBatch(after: After)
      requires Valid() && world.s.w.pc == Filtering(0, [], after)
      modifies this`len, world, batch
      ensures world.Valid() && Settled(old(world.s), world.s) && len <= batchSize
      ensures world.s.w.pc == Filtering(|world.s.w.batch|, batch[..len], after)
      ensures SameTask(old(world.s.w), world.s.w) && world.s.w.pending == old(world.s.w.pending)
    {
      hide World.Valid, Gate.Blocked, Acted;
      ghost var items := world.s.w.batch;
      var n, k := len, 0;
      for i := 0 to n
        invariant world.Valid() && Settled(old(world.s), world.s) && k <= i
        invariant world.s.w.batch == items && |items| == n && batch[i..n] == items[i..]
        invariant world.s.w.pc == Filtering(i, batch[..k], after)
        invariant SameTask(old(world.s.w), world.s.w) && world.s.w.pending == old(world.s.w.pending)
      {
        world.Elsewhere();
        assert batch[i] == batch[i..n][0] == items[i];
        var blocked := world.s.gate.Blocked(batch[i].ev);
        world.Check(blocked);
        if !blocked {
          Keep(k, i, n);
          k := k + 1;
        }
        assert batch[i + 1..n] == items[i + 1..];
      }
      len := k;
    }

    method FlushBatch(after: After)
      requires Valid() && world.s.w.pc == Filtering(0, [], after)
      modifies this, world, batch
      ensures Valid() && world.s.w.pc == Continue(after) && len == 0
      ensures Settled(old(world.s), world.s) && SameTask(old(world.s.w), world.s.w)
    {
      hide World.Valid, Taken, Checked;
      FilterBatch(after);
      world.Do(EndFilter);
      if len > 0 {
        ghost var calls := Upsert(after);
      }
      len, pendingDocIDs := 0, {};
    }

    method AddToBatch(item: Item)
      requires len < batch.Length
      modifies this, batch
      ensures len == old(len) + 1 && batch[..len] == old(batch[..len]) + [item]
      ensures pendingDocIDs == old(pendingDocIDs) + NewIds(item.ev)
    {
      batch[len] := item;
      len := len + 1;
      var docID := TsDocId(item.ev);
      if docID.Some? {
        pendingDocIDs := pendingDocIDs + {docID.value};
      }
    }

    /** What process does first with what it took from the channel: to the batch, or straight on. */
    method Accept() returns (task: Task)
      requires Valid() && world.s.w.pc == Idle && world.s.w.taken < |world.s.sent| && !world.s.w.expired
      modifies this, world, batch
      ensures Valid() && Settled(old(world.s), world.s)
      ensures task == old(world.s.sent)[old(world.s.w.taken)]
      ensures SameTask(old(world.s.w).(taken := old(world.s.w.taken) + 1), world.s.w)
      ensures Started(world.s.w.pc, old(world.s.w.taken), task)
    {
      hide World.Valid, OrderInv, TsDocId, NewIds;
      WorldOrdered(world);
      RoomLeft(world.s.w, world.s.sent);
      task := world.s.sent[world.s.w.taken];
      if task.Project? || task.Content? {
        AddToBatch(Item(world.s.w.taken, task.ev));
      }
      world.Do(Take);
    }

    method ProcessDelete(n: nat, id: Hex32)
      requires Valid() && world.s.w.pc == Filtering(0, [], ThenDelete(n, id))
      modifies this, world, batch
      ensures Valid() && world.s.w.pc == Idle && Settled(old(world.s), world.s) && SameTask(old(world.s.w), world.s.w)
    {
      hide World.Valid;
      FlushBatch(ThenDelete(n, id));
      world.Elsewhere();
      world.Do(DeleteDocs(world.net(world.clock).errs == 0));
    }

    method ProcessStamp(n: nat, doc: string)
      requires Valid() && Started(world.s.w.pc, n, Stamp(doc))
      modifies this, world, batch
      ensures Valid() && world.s.w.pc == Idle && Settled(old(world.s), world.s) && SameTask(old(world.s.w), world.s.w)
    {
      hide World.Valid;
      if world.s.w.pc.Filtering? {
        FlushBatch(ThenStamp(n, doc));
      }
      world.Elsewhere();
      world.Do(StampDoc);
    }

    method ProcessContent(item: Item)
      requires Valid() && world.s.w.pc == Filtering(0, [], ThenRecheck(item))
      modifies this, world, batch
      ensures Valid() && world.s.w.pc == Idle && Settled(old(world.s), world.s) && SameTask(old(world.s.w), world.s.w)
    {
      hide World.Valid, Gate.Blocked;
      FlushBatch(ThenRecheck(item));
      world.Elsewhere();
      var blocked := world.s.gate.Blocked(item.ev);
      world.Do(Recheck);
      if blocked { return; }
      world.Elsewhere();
      world.Do(Patch);
    }

    /** process(task), from taking it to the end of its effects. */
    method Process()
      requires Valid() && world.s.w.pc == Idle && world.s.w.taken < |world.s.sent| && !world.s.w.expired
      modifies this, world, batch
      ensures Valid() && world.s.w.pc == Idle && Settled(old(world.s), world.s)
      ensures SameTask(old(world.s.w).(taken := old(world.s.w.taken) + 1), world.s.w)
    {
      hide World.Valid, Holds;
      var n := world.s.w.taken;
      var task := Accept();
      match task
      case Delete(id) => ProcessDelete(n, id);
      case Stamp(doc) => ProcessStamp(n, doc);
      case Content(ev) => ProcessContent(Item(n, ev));
      case Project(_) =>
        if world.s.w.pc.Filtering? {
          FlushBatch(Nothing);
        }
    }

    /**
     drain: takes what the channel holds until it is found empty, then flushes what is left. It ends although the
     channel is never closed: after Close a client sends at most once, and only if it had read the flag before.
     late(k) tells whether the deadline is over at look k; then it gives up, losing a task it just took.
     */
    method Drain(late: nat -> bool)
      requires Valid() && world.s.w.pc == Idle && world.s.w.draining && !world.s.w.expired
      modifies this, world, batch
      ensures Valid() && world.s.w.pc == Exited
      ensures world.s.w.expired ==> exists k :: late(k)
      ensures !world.s.w.expired ==> len == 0
      ensures !world.s.w.expired ==>
                forall n :: 0 <= n < world.s.marked <= |world.s.sent| ==> Finished(world.s.w, world.s.sent[n], n)
    {
      hide World.Valid, Finished, Gate.Blocked;
      ClosedBefore(world);
      world.Elsewhere();
      FewLeft(world);
      var look := 0;
      while world.s.w.taken < |world.s.sent|
        invariant Valid() && world.s.w.pc == Idle && world.s.w.draining && !world.s.w.expired && world.s.closed
        invariant world.s.marked == old(world.s).marked && world.s.raced == old(world.s).raced
        invariant world.s.w.taken <= |world.s.sent| <= world.s.marked + |world.s.raced|
        decreases old(world.s).marked + |old(world.s).raced| - world.s.w.taken
      {
        if late(look) {
          world.Do(Expire);
          world.Do(Take);
          return;
        }
        Process();
        if late(look + 1) {
          world.Do(Expire);
          world.Do(GiveUp);
          return;
        }
        look := look + 2;
        world.Elsewhere();
        FewLeft(world);
      }
      if late(look) {
        world.Do(Expire);
        world.Do(GiveUp);
        return;
      }
      world.Do(DrainEmpty);
      FlushBatch(ThenExit);
      AllDone(world);
    }

    /** run: the rounds of the loop, each a ready task or a tick, until done is seen and the rest drained. */
    method Run(ticks: seq<bool>, late: nat -> bool) returns (stopped: bool)
      requires Valid() && world.s.w.pc == Idle && !world.s.w.draining && !world.s.w.expired
      modifies this, world, batch
      ensures Valid()
      ensures stopped ==> world.s.w.pc == Exited && (world.s.w.expired ==> exists k :: late(k))
      ensures stopped && !world.s.w.expired ==>
                forall n :: 0 <= n < world.s.marked <= |world.s.sent| ==> Finished(world.s.w, world.s.sent[n], n)
      ensures !stopped ==> world.s.w.pc == Idle
    {
      hide World.Valid, Finished, Gate.Blocked;
      for i := 0 to |ticks|
        invariant Valid() && world.s.w.pc == Idle && !world.s.w.draining && !world.s.w.expired
      {
        world.Elsewhere();
        if world.s.done {
          world.Do(SeeDone);
          Drain(late);
          return true;
        } else if ticks[i] {
          world.Do(Tick);
          FlushBatch(Nothing);
        } else if world.s.w.taken < |world.s.sent| {
          Process();
        }
      }
      return false;
    }
  }

  /** How process(task) starts. */
  predicate Started(pc: Pc, n: nat, task: Task) {
    match task
    case Delete(id) => pc == Filtering(0, [], ThenDelete(n, id))
    case Stamp(doc) => pc == Filtering(0, [], ThenStamp(n, doc)) || pc == Acting(ThenStamp(n, doc))
    case Content(ev) => pc == Filtering(0, [], ThenRecheck(Item(n, ev)))
    case Project(_) => pc == Filtering(0, [], Nothing) || pc == Idle
  }

  lemma WorldTasks(world: World)
    requires world.Valid()
    ensures TaskInv(world.s)
  {
    hide TaskInv, Leads;
    InitTasks(world.origin);
    RunKeepsTasks(world.origin, world.trace, world.s);
  }

  lemma ClosedBefore(world: World)
    requires world.Valid() && world.s.w.draining
    ensures world.s.closed
  {
    hide Leads, Init, OrderInv, AllHandled, DroppedBlocked, PatchesFollow, SendersFit;
    WorldTasks(world);
  }

  /** Every task sent after Close is another client's that had passed the flag. */
  lemma LateSenders(s: State)
    requires SendersFit(s) && s.closed
    ensures |s.sent| <= s.marked + |s.raced|
  {
    var late := s.senders[s.marked..];
    assert NoDup(late);
    NoDupCardinality(late);
    assert Elems(late) <= s.raced;
    SubsetSize(Elems(late), s.raced);
  }

  lemma FewLeft(world: World)
    requires world.Valid() && world.s.closed
    ensures world.s.w.taken <= |world.s.sent| <= world.s.marked + |world.s.raced|
  {
    hide Leads, Init, OrderInv, Handled, DroppedBlocked, PatchesFollow, SendersFit, DrainFits;
    WorldTasks(world);
    LateSenders(world.s);
  }

  lemma AllDone(world: World)
    requires world.Valid() && world.s.w.pc == Exited && !world.s.w.expired
    ensures forall n :: 0 <= n < world.s.marked <= |world.s.sent| ==> Finished(world.s.w, world.s.sent[n], n)
  {
    hide Leads, Init, Finished;
    ShutdownLosesNothing(world.origin, world.trace, world.s);
  }

  lemma RoomLeft(w: Worker, sent: seq<Task>)
    requires OrderInv(w, sent) && w.pc == Idle
    ensures |w.batch| < w.size
  {
  }
}
