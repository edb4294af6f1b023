/** Banned and deleted events do not come back into the search index (buffer.go, purge.go). */
module TsPurge {
  import opened Text
  import opened Nostr
  import opened Gate
  import opened TsMachine
  import opened TsLog

  predicate Due(s: State, id: Hex32) {
    id in s.gate.bannedIds || id in s.gate.deletedIds
  }

  /** The events a flush has let through: what is inside Upsert, or about to be. */
  function Cleared(w: Worker): seq<Item> {
    match w.pc
    case Filtering(_, kept, _) => kept
    case Upserting(_, _) => w.batch
    case _ => []
  }

  predicate Stored(docs: map<DocKey, Event>, id: Hex32) {
    exists k :: k in docs && docs[k].id == id
  }

  predicate Passing(items: seq<Item>, id: Hex32) {
    exists j :: 0 <= j < |items| && items[j].ev.id == id
  }

  /** The event is in the index, or past the check on its way there. */
  predicate Live(s: State, id: Hex32) {
    Stored(s.docs, id) || Passing(Cleared(s.w), id)
  }

  // ----- What is gone stays gone -----

  lemma LandedFrom(docs: map<DocKey, Event>, batch: seq<Item>, landed: set<nat>, id: Hex32)
    requires Stored(Land(docs, batch, landed), id)
    ensures Stored(docs, id) || Passing(batch, id)
  {
    hide Land;
    var k :| k in Land(docs, batch, landed) && Land(docs, batch, landed)[k].id == id;
    LandKeeps(docs, batch, landed, k);
    if item :| item in batch && item.ev == Land(docs, batch, landed)[k] {
      var j :| 0 <= j < |batch| && batch[j] == item;
      assert batch[j].ev.id == id;
    }
  }

  lemma DueIsBlocked(s: State, ev: Event)
    requires Due(s, ev.id)
    ensures s.gate.Blocked(ev)
  {
  }

  /** Only an event that the gate lets through becomes live. */
  lemma WorkClears(s: State, a: Act, id: Hex32)
    requires Enabled(s, Work(a)) && Due(s, id) && Passing(Cleared(Next(s, Work(a)).w), id)
    ensures Passing(Cleared(s.w), id)
  {
    hide Land, Without, Gate.Blocked, DocIds, NewIds, Calls;
    var t := Next(s, Work(a));
    var j :| 0 <= j < |Cleared(t.w)| && Cleared(t.w)[j].ev.id == id;
    DueIsBlocked(s, Cleared(t.w)[j].ev);
    assert Cleared(s.w)[j] == Cleared(t.w)[j];
  }

  lemma WorkStores(s: State, a: Act, id: Hex32)
    requires Enabled(s, Work(a)) && Stored(Next(s, Work(a)).docs, id)
    ensures Live(s, id)
  {
    hide Land, Gate.Blocked, DocIds, NewIds, Calls, Acted;
    if a.Upsert? {
      LandedFrom(s.docs, s.w.batch, a.landed, id);
    } else {
      assert forall k :: k in Next(s, Work(a)).docs ==> k in s.docs && s.docs[k] == Next(s, Work(a)).docs[k];
    }
  }

  lemma ClientStores(s: State, step: Step, id: Hex32)
    requires Enabled(s, step) && !step.Work?
    ensures Live(Next(s, step), id) ==> Live(s, id)
  {
    hide Gate.Blocked, Apply, RecordedGate, Passing, Cleared;
    assert forall k :: k in Next(s, step).docs ==> k in s.docs && s.docs[k] == Next(s, step).docs[k];
  }

  lemma LiveBefore(s: State, step: Step, id: Hex32)
    requires Enabled(s, step) && Due(s, id) && Live(Next(s, step), id)
    ensures Live(s, id)
  {
    hide Next, Enabled, Stored, Passing, Cleared, Due;
    if step.Work? {
      if Stored(Next(s, step).docs, id) { WorkStores(s, step.act, id); } else { WorkClears(s, step.act, id); }
    } else {
      ClientStores(s, step, id);
    }
  }

  lemma DueStays(s: State, step: Step, id: Hex32)
    requires Enabled(s, step) && Due(s, id) && step != Operate(AllowEvent(id))
    ensures Due(Next(s, step), id)
  {
    hide Acted, Land, Without, Gate.Blocked, MarkAll, SameAuthorCoords;
    if step.Operate? && step.action.ApplyDeletion? {
      ApplyKeepsIds(s.gate, step.action.del);
    }
  }

  lemma ApplyKeepsIds(g: Gate, del: Event)
    ensures Apply(g, ApplyDeletion(del)).bannedIds == g.bannedIds &&
            Apply(g, ApplyDeletion(del)).deletedIds == g.deletedIds
  {
    if del.kind == KIND_DELETION {
      MarkAllKeepsIds(g, SameAuthorCoords(del.pubkey, del.tags), del.createdAt);
    }
  }

  lemma {:induction false} MarkAllKeepsIds(g: Gate, coords: seq<Coord>, until: int)
    ensures MarkAll(g, coords, until).bannedIds == g.bannedIds && MarkAll(g, coords, until).deletedIds == g.deletedIds
    decreases |coords|
  {
    hide CoordString;
    if coords != [] {
      MarkAllKeepsIds(g.MarkCoord(CoordString(coords[0]), until), coords[1..], until);
    }
  }

  /** A banned or deleted event that is not live stays so, whatever happens, until its ban is lifted. */
  lemma {:induction false} StaysGone(s: State, steps: seq<Step>, t: State, id: Hex32)
    requires Leads(s, steps, t) && Due(s, id) && !Live(s, id) && Operate(AllowEvent(id)) !in steps
    ensures Due(t, id) && !Live(t, id)
    decreases |steps|
  {
    hide Next, Enabled, Live, Due;
    if steps != [] {
      assert steps[0] in steps && forall x :: x in steps[1..] ==> x in steps;
      DueStays(s, steps[0], id);
      if Live(Next(s, steps[0]), id) { LiveBefore(s, steps[0], id); }
      StaysGone(Next(s, steps[0]), steps[1..], t, id);
    }
  }

  /** The queued delete leaves nothing of the event, in the index or on the way there. */
  lemma DeleteClears(s: State, n: nat, id: Hex32)
    requires OrderInv(s.w, s.sent) && s.w.pc == Acting(ThenDelete(n, id))
    ensures Enabled(s, Work(DeleteDocs(true))) && !Live(Next(s, Work(DeleteDocs(true))), id)
  {
    hide LogFits, LogOrdered, HandFollows, HandFits, DocIds;
  }

  /**
   Once the worker has done the delete queued by a purge of the id, nothing it or anybody does brings the
   event back into the index, until its ban is lifted: whatever was queued, checked or half flushed before.
   */
  lemma IndexNoResurrection(origin: State, before: seq<Step>, s: State, n: nat, id: Hex32, after: seq<Step>, t: State)
    requires Init(origin) && Leads(origin, before, s) && s.w.pc == Acting(ThenDelete(n, id)) && Due(s, id)
    requires Enabled(s, Work(DeleteDocs(true))) && Leads(Next(s, Work(DeleteDocs(true))), after, t)
    requires Operate(AllowEvent(id)) !in after
    ensures Due(t, id) && !Live(t, id)
  {
    hide Live, Due, Next, Enabled, OrderInv, Init;
    InitOrdered(origin);
    RunKeepsOrder(origin, before, s);
    DeleteClears(s, n, id);
    DueStays(s, Work(DeleteDocs(true)), id);
    StaysGone(Next(s, Work(DeleteDocs(true))), after, t, id);
  }

  // ----- Everything due is on the way out -----

  predicate WillQueue(client: Client, id: Hex32) {
    TaskOf(client.job) == Delete(id) && (client.pc == DeleteNow || client.pc == ReadFlag || client.pc == Sending)
  }

  /** Some purge of the id has still to queue its delete, or a delete is queued or being done, or one has failed. */
  ghost predicate Covered(s: State, id: Hex32) {
    || (exists c :: 0 <= c < |s.clients| && WillQueue(s.clients[c], id))
    || (exists n :: s.w.taken <= n < |s.sent| && s.sent[n] == Delete(id))
    || (AfterOf(s.w).ThenDelete? && AfterOf(s.w).id == id)
    || id in s.failed
  }

  ghost predicate PurgeInv(s: State) {
    forall id :: Due(s, id) && Live(s, id) ==> Covered(s, id)
  }

  lemma ClientKeepsCover(s: State, step: Step, id: Hex32)
    requires Enabled(s, step) && !step.Work? && Covered(s, id) && s.w.taken <= |s.sent|
    ensures Covered(Next(s, step), id)
  {
    hide Apply, RecordedGate, Without, AfterOf;
    var t := Next(s, step);
    if c :| 0 <= c < |s.clients| && WillQueue(s.clients[c], id) {
      if step == Send(c) {
        assert t.sent[|s.sent|] == Delete(id);
      } else {
        assert id in t.failed || WillQueue(t.clients[c], id);
      }
    } else if n :| s.w.taken <= n < |s.sent| && s.sent[n] == Delete(id) {
      assert t.sent[n] == Delete(id);
    }
  }

  /** A recorded purge will queue its delete. */
  lemma RecordCovers(s: State, c: nat, ok: bool, id: Hex32)
    requires Enabled(s, RecordPurge(c, ok)) && !Due(s, id) && Due(Next(s, RecordPurge(c, ok)), id)
    ensures Covered(Next(s, RecordPurge(c, ok)), id)
  {
    hide AfterOf;
    assert WillQueue(Next(s, RecordPurge(c, ok)).clients[c], id);
  }

  lemma OnlyPurgesMakeDue(s: State, step: Step, id: Hex32)
    requires Enabled(s, step) && !Due(s, id) && Due(Next(s, step), id)
    ensures step.RecordPurge?
  {
    hide Acted, Without, Land, MarkAll, SameAuthorCoords;
    if step.Operate? && step.action.ApplyDeletion? {
      ApplyKeepsIds(s.gate, step.action.del);
    }
  }

  lemma WorkKeepsCover(s: State, a: Act, id: Hex32)
    requires OrderInv(s.w, s.sent) && Enabled(s, Work(a)) && Covered(s, id) && a != DeleteDocs(true)
    ensures Covered(Next(s, Work(a)), id)
  {
    hide Land, Without, Gate.Blocked, DocIds, NewIds, Calls, WillQueue, LogFits, LogOrdered, HandFollows, HandFits,
        BatchFits;
    var t := Next(s, Work(a));
    if c :| 0 <= c < |s.clients| && WillQueue(s.clients[c], id) {
      assert WillQueue(t.clients[c], id);
    } else if n :| s.w.taken <= n < |s.sent| && s.sent[n] == Delete(id) {
      assert t.sent[n] == Delete(id);
      assert n >= t.w.taken || (n == s.w.taken && a.Take?);
    }
  }

  lemma DeleteKeepsOthers(s: State, id: Hex32)
    requires Enabled(s, Work(DeleteDocs(true))) && Covered(s, id) && AfterOf(s.w).id != id
    ensures Covered(Next(s, Work(DeleteDocs(true))), id)
  {
    hide Without, WillQueue;
    var t := Next(s, Work(DeleteDocs(true)));
    if c :| 0 <= c < |s.clients| && WillQueue(s.clients[c], id) {
      assert WillQueue(t.clients[c], id);
    } else if n :| s.w.taken <= n < |s.sent| && s.sent[n] == Delete(id) {
      assert t.sent[n] == Delete(id);
    }
  }

  lemma TakenInQueue(s: State)
    requires OrderInv(s.w, s.sent)
    ensures s.w.taken <= |s.sent|
  {
  }

  lemma StepCovers(s: State, step: Step, id: Hex32)
    requires PurgeInv(s) && OrderInv(s.w, s.sent) && Enabled(s, step)
    requires Due(Next(s, step), id) && Live(Next(s, step), id)
    ensures Covered(Next(s, step), id)
  {
    hide Next, Enabled, Due, Live, Covered, OrderInv;
    if !Due(s, id) {
      OnlyPurgesMakeDue(s, step, id);
      RecordCovers(s, step.c, step.ok, id);
    } else {
      LiveBefore(s, step, id);
      TakenInQueue(s);
      if !step.Work? {
        ClientKeepsCover(s, step, id);
      } else if step.act != DeleteDocs(true) {
        WorkKeepsCover(s, step.act, id);
      } else {
        DeleteDone(s, id);
        DeleteKeepsOthers(s, id);
      }
    }
  }

  lemma DeleteDone(s: State, id: Hex32)
    requires OrderInv(s.w, s.sent) && Enabled(s, Work(DeleteDocs(true))) && Live(Next(s, Work(DeleteDocs(true))), id)
    ensures AfterOf(s.w).ThenDelete? && AfterOf(s.w).id != id
  {
    hide Live, Next, OrderInv;
    DeleteClears(s, s.w.pc.after.n, s.w.pc.after.id);
  }

  lemma {:induction false} RunCovers(s: State, steps: seq<Step>, t: State)
    requires PurgeInv(s) && OrderInv(s.w, s.sent) && Leads(s, steps, t)
    ensures PurgeInv(t)
    decreases |steps|
  {
    hide Next, Enabled, Due, Live, Covered, OrderInv;
    if steps != [] {
      var next := Next(s, steps[0]);
      StepKeepsOrder(s, steps[0]);
      forall id | Due(next, id) && Live(next, id) ensures Covered(next, id) {
        StepCovers(s, steps[0], id);
      }
      RunCovers(next, steps[1..], t);
    }
  }

  /**
   When every purge has returned, the queue is empty and the worker idle, the index holds no banned or deleted
   event, except those whose queued delete failed or was refused at shutdown.
   */
  lemma IndexCleanWhenDone(s: State, steps: seq<Step>, t: State, id: Hex32)
    requires Init(s) && (forall x :: Stored(s.docs, x) ==> !Due(s, x)) && Leads(s, steps, t)
    requires (forall c :: 0 <= c < |t.clients| ==> t.clients[c].pc == Returned) && t.w.taken == |t.sent|
    requires t.w.pc == Idle || t.w.pc == Exited
    requires Due(t, id) && id !in t.failed
    ensures !Stored(t.docs, id)
  {
    hide Due, Stored, OrderInv;
    InitOrdered(s);
    RunCovers(s, steps, t);
    assert !Covered(t, id);
    assert !Live(t, id);
  }
}
