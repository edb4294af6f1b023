/** Where the guarantees of the search-index buffer end (buffer.go, content_ts.go): runs that show it. */
module TsLimits {
  import opened Wrappers
  import opened Text
  import opened Nostr
  import opened Gate
  import opened Projection
  import opened TsMachine
  import opened TsLog
  import opened TsShutdown

  ghost predicate Reachable(s: State, t: State) {
    exists steps :: Leads(s, steps, t)
  }

  lemma Reached(s: State)
    ensures Reachable(s, s)
  {
    assert Leads(s, [], s);
  }

  lemma Extend(s: State, t: State, step: Step)
    requires Reachable(s, t) && Enabled(t, step)
    ensures Reachable(s, Next(t, step))
  {
    hide Enabled, Next;
    var steps :| Leads(s, steps, t);
    LeadsAppend(s, steps, t, step);
  }

  /** A producer puts it on the queue. */
  lemma Queued(s: State, t: State, task: Task) returns (u: State)
    requires Reachable(s, t) && !t.closed
    ensures Reachable(s, u) && u.sent == t.sent + [task]
    ensures u == t.(sent := u.sent, senders := u.senders, clients := u.clients)
  {
    hide Leads, Acted, Land, Without, Gate.Blocked, Apply, RecordedGate;
    var c := |t.clients|;
    var a := Next(t, Start(Enqueue(task)));
    Extend(s, t, Start(Enqueue(task)));
    var b := Next(a, LoadClosed(c));
    Extend(s, a, LoadClosed(c));
    u := Next(b, Send(c));
    Extend(s, b, Send(c));
  }

  lemma Works(s: State, t: State, a: Act) returns (u: State)
    requires Reachable(s, t) && ActEnabled(t.w, |t.sent|, t.done, a)
    ensures Reachable(s, u)
    ensures u.sent == t.sent && u.gate == t.gate && u.lifted == t.lifted && u.closed == t.closed && u.done == t.done
    ensures u.w == Acted(t.w, t.sent, t.done, Refused(t.gate, t.w, a), a)
  {
    hide Leads, Acted, Land, Without, Gate.Blocked;
    u := Next(t, Work(a));
    Extend(s, t, Work(a));
  }

  /** The community patch of the document, then an Upsert of the event, queued before the patch. */
  ghost predicate Overtakes(log: seq<Op>, ev: Event) {
    AmbDedupKey(ev).Some? &&
    exists i, j :: 0 <= i < j < |log| && log[i].Stamped? && log[i].doc == AmbDedupKey(ev).value &&
                   log[j].Wrote? && log[j].item.ev == ev && log[j].item.n < log[i].n
  }

  /** The event waits in the batch and the patch of its document is next. */
  lemma PatchIsNext(s: State, ev: Event) returns (t: State)
    requires Init(s) && s.w.size >= 2 && First(ev.tags, "d") == Some("")
    ensures Reachable(s, t) && t.gate == s.gate
    ensures t.w == s.w.(taken := 2, batch := [Item(0, ev)], pc := Acting(ThenStamp(1, AmbDedupKey(ev).value)))
    ensures t.w.log == [] && !t.w.draining
  {
    hide Leads, Land, Without, Gate.Blocked, Enabled, Next, First, Reachable, DocumentId, Acted;
    var doc := AmbDedupKey(ev).value;
    Reached(s);
    t := Queued(s, s, Project(ev));
    t := Queued(s, t, Stamp(doc));
    FirstTake(t.w, t.sent, t.done, ev);
    t := Works(s, t, Take);
    SecondTake(t.w, t.sent, t.done, doc);
    t := Works(s, t, Take);
  }

  /** It goes first, then a tick starts a flush. */
  lemma PatchIsDone(s: State, ev: Event) returns (t: State)
    requires Init(s) && s.w.size >= 2 && First(ev.tags, "d") == Some("")
    ensures Reachable(s, t) && t.gate == s.gate
    ensures t.w.batch == [Item(0, ev)] && t.w.pc == Filtering(0, [], Nothing) &&
            t.w.log == [Stamped(1, AmbDedupKey(ev).value)]
  {
    hide Leads, Land, Without, Gate.Blocked, Enabled, Next, First, Reachable, DocumentId, Acted, Init;
    t := PatchIsNext(s, ev);
    StampOp(t.w, t.sent, t.done);
    t := Works(s, t, StampDoc);
    TickOp(t.w, t.sent, t.done);
    t := Works(s, t, Tick);
  }

  lemma PatchGoesFirst(s: State, ev: Event)
    requires Init(s) && s.w.size >= 2 && !s.gate.Blocked(ev) && First(ev.tags, "d") == Some("")
    ensures exists t :: Reachable(s, t) && Overtakes(t.w.log, ev)
  {
    hide Leads, Land, Without, Gate.Blocked, Enabled, Next, First, Reachable, DocumentId, Acted, Init;
    var t := PatchIsDone(s, ev);
    CheckOp(t.w, t.sent, t.done);
    t := Works(s, t, CheckItem);
    EndOp(t.w, t.sent, t.done);
    t := Works(s, t, EndFilter);
    assert t.w.log[0] == Stamped(1, AmbDedupKey(ev).value) && t.w.log[1] == Wrote(Item(0, ev));
  }

  lemma FirstTake(w: Worker, sent: seq<Task>, done: bool, ev: Event)
    requires w.pc == Idle && w.taken == 0 && w.batch == [] && w.pending == {} && !w.expired && w.size >= 2
    requires sent != [] && sent[0] == Project(ev) && TsDocId(ev) == None
    ensures Acted(w, sent, done, false, Take) == w.(taken := 1, batch := [Item(0, ev)], pending := {})
  {
    hide TsDocId;
  }

  lemma SecondTake(w: Worker, sent: seq<Task>, done: bool, doc: string)
    requires w.pc == Idle && w.taken == 1 && w.pending == {} && !w.expired && |sent| >= 2 && sent[1] == Stamp(doc)
    ensures Acted(w, sent, done, false, Take) == w.(taken := 2, pc := Acting(ThenStamp(1, doc)))
  {
  }

  lemma StampOp(w: Worker, sent: seq<Task>, done: bool)
    requires w.pc.Acting? && w.pc.after.ThenStamp? && w.log == []
    ensures Acted(w, sent, done, false, StampDoc) == w.(pc := Idle, log := [Stamped(w.pc.after.n, w.pc.after.doc)])
  {
  }

  lemma TickOp(w: Worker, sent: seq<Task>, done: bool)
    requires w.pc == Idle && !w.draining
    ensures Acted(w, sent, done, false, Tick) == w.(pc := Filtering(0, [], Nothing))
  {
  }

  lemma CheckOp(w: Worker, sent: seq<Task>, done: bool)
    requires w.pc == Filtering(0, [], Nothing) && |w.batch| == 1
    ensures Acted(w, sent, done, false, CheckItem) == w.(pc := Filtering(1, [w.batch[0]], Nothing))
  {
    assert w.pc.kept + [w.batch[0]] == [w.batch[0]];
  }

  lemma EndOp(w: Worker, sent: seq<Task>, done: bool)
    requires |w.batch| == 1 && w.pc == Filtering(1, [w.batch[0]], Nothing)
    ensures Acted(w, sent, done, false, EndFilter).log == w.log + [Wrote(w.batch[0])]
  {
    assert Calls(w.pc.kept) == [Wrote(w.batch[0])];
  }

  /** In no run does a community patch overtake an event with another d value, or without a d tag. */
  lemma OnlyEmptyD(s: State, t: State, ev: Event)
    requires Init(s) && Reachable(s, t) && First(ev.tags, "d") != Some("")
    ensures !Overtakes(t.w.log, ev)
  {
    hide Enabled, Next, Init, LogOrdered;
    var steps :| Leads(s, steps, t);
    LogDiscipline(s, steps, t);
    KeysDiffer(ev);
  }

  /**
   The flush before a community patch, as a property of the buffer taken alone, fails exactly for events whose d
   value is empty: pendingDocIDs does not know their document, the projection does. Validation keeps such events,
   and shares that name such documents, from the buffer; AcceptedIsNeverOvertaken is what that leaves.
   */
  lemma PatchOvertakesIff(s: State, ev: Event)
    requires Init(s) && s.w.size >= 2 && !s.gate.Blocked(ev)
    ensures (exists t :: Reachable(s, t) && Overtakes(t.w.log, ev)) <==> First(ev.tags, "d") == Some("")
  {
    hide Leads, Init, Reachable, Overtakes, Gate.Blocked, First;
    if First(ev.tags, "d") == Some("") {
      PatchGoesFirst(s, ev);
    } else {
      forall t | Reachable(s, t) ensures !Overtakes(t.w.log, ev) {
        OnlyEmptyD(s, t, ev);
      }
    }
  }

  /** Of an event that passed validation no community patch overtakes the Upsert, in any run. */
  lemma AcceptedIsNeverOvertaken(s: State, t: State, ev: Event)
    requires Init(s) && Reachable(s, t) && ev.kind == KIND_AMB && HasRequiredD(ev)
    ensures !Overtakes(t.w.log, ev)
  {
    hide Init, Reachable, Overtakes, First;
    OnlyEmptyD(s, t, ev);
  }

  // ----- A lifted ban -----

  /** A content patch of the event without an earlier Upsert for the same task. */
  ghost predicate PatchedAlone(log: seq<Op>, ev: Event) {
    exists k :: 0 <= k < |log| && log[k].Patched? && log[k].item.ev == ev && Wrote(log[k].item) !in log[..k]
  }

  /** Something blocks the event that lifting the given bans does not end. */
  predicate StaysBlocked(g: Gate, lifts: set<Action>, ev: Event) {
    || (ev.pubkey in g.bannedPubkeys && AllowPubkey(ev.pubkey) !in lifts)
    || (ev.id in g.bannedIds && AllowEvent(ev.id) !in lifts)
    || ev.id in g.deletedIds
    || g.Tombstoned(ev)
  }

  predicate ContentWaits(w: Worker, ev: Event) {
    w.batch == [Item(0, ev)] && w.pc == Filtering(0, [], ThenRecheck(Item(0, ev))) && w.log == []
  }

  predicate RecheckWaits(w: Worker, ev: Event) {
    w.pc == Acting(ThenRecheck(Item(0, ev))) && w.log == []
  }

  /** A content task of the event is next to be checked. */
  lemma ContentIsNext(s: State, ev: Event) returns (t: State)
    requires Init(s)
    ensures Reachable(s, t) && t.gate == s.gate && t.lifted == {} && ContentWaits(t.w, ev)
  {
    hide Leads, Land, Without, Gate.Blocked, Enabled, Next, Reachable, Acted, TsDocId;
    Reached(s);
    t := Queued(s, s, Content(ev));
    ContentTake(t.w, t.sent, t.done, ev);
    t := Works(s, t, Take);
  }

  lemma ContentTake(w: Worker, sent: seq<Task>, done: bool, ev: Event)
    requires w.pc == Idle && w.taken == 0 && w.batch == [] && !w.expired && w.log == []
    requires sent != [] && sent[0] == Content(ev)
    ensures ContentWaits(Acted(w, sent, done, false, Take), ev)
  {
    hide TsDocId;
  }

  lemma DropOp(w: Worker, sent: seq<Task>, done: bool, item: Item)
    requires w.batch == [item] && w.pc == Filtering(0, [], ThenRecheck(item))
    ensures var v := Acted(w, sent, done, true, CheckItem);
            v.batch == [item] && v.pc == Filtering(1, [], ThenRecheck(item)) && v.log == w.log
  {
  }

  lemma EndDropped(w: Worker, sent: seq<Task>, done: bool, item: Item)
    requires w.batch == [item] && w.pc == Filtering(1, [], ThenRecheck(item))
    ensures var v := Acted(w, sent, done, false, EndFilter); v.pc == Acting(ThenRecheck(item)) && v.log == w.log
  {
  }

  lemma PatchOps(w: Worker, sent: seq<Task>, done: bool, item: Item)
    requires w.pc == Acting(ThenRecheck(item)) && w.log == []
    ensures var v := Acted(w, sent, done, false, Recheck); v.pc == Acting(ThenPatch(item)) && v.log == []
  {
  }

  lemma LastPatch(w: Worker, sent: seq<Task>, done: bool, item: Item)
    requires w.pc == Acting(ThenPatch(item)) && w.log == []
    ensures Acted(w, sent, done, false, Patch).log == [Patched(item)]
  {
  }

  /** An operator acts while the worker is elsewhere. */
  lemma Operated(s: State, t: State, a: Action) returns (u: State)
    requires Reachable(s, t) && IsOperator(a)
    ensures Reachable(s, u) && u.w == t.w && u.gate == Apply(t.gate, a)
    ensures u.lifted == t.lifted + if a.AllowEvent? || a.AllowPubkey? then {a} else {}
  {
    hide Leads, Apply;
    u := Next(t, Operate(a));
    Extend(s, t, Operate(a));
  }

  /** An event is banned while the worker is elsewhere. */
  lemma Banned(s: State, t: State, id: Hex32) returns (u: State)
    requires Reachable(s, t)
    ensures Reachable(s, u) && u.w == t.w && u.lifted == t.lifted && u.gate == Apply(t.gate, BanEvent(id))
  {
    hide Leads;
    var c := |t.clients|;
    u := Next(t, Start(Ban(id)));
    Extend(s, t, Start(Ban(id)));
    Extend(s, u, RecordPurge(c, true));
    u := Next(u, RecordPurge(c, true));
  }

  /** The filter drops the event; its second check is next. */
  lemma ContentIsDropped(s: State, t: State, ev: Event) returns (u: State)
    requires Reachable(s, t) && ContentWaits(t.w, ev) && t.gate.Blocked(ev)
    ensures Reachable(s, u) && u.gate == t.gate && u.lifted == t.lifted && RecheckWaits(u.w, ev)
  {
    hide Leads, Land, Without, Gate.Blocked, Enabled, Next, Reachable, Acted, Init;
    DropOp(t.w, t.sent, t.done, Item(0, ev));
    u := Works(s, t, CheckItem);
    EndDropped(u.w, u.sent, u.done, Item(0, ev));
    u := Works(s, u, EndFilter);
  }

  /** The second check lets it pass. */
  lemma DroppedIsPatched(s: State, t: State, ev: Event) returns (u: State)
    requires Reachable(s, t) && RecheckWaits(t.w, ev) && !t.gate.Blocked(ev)
    ensures Reachable(s, u) && u.lifted == t.lifted && u.w.log == [Patched(Item(0, ev))]
  {
    hide Leads, Land, Without, Gate.Blocked, Enabled, Next, Reachable, Acted, Init;
    PatchOps(t.w, t.sent, t.done, Item(0, ev));
    u := Works(s, t, Recheck);
    LastPatch(u.w, u.sent, u.done, Item(0, ev));
    u := Works(s, u, Patch);
  }

  /**
   Why a content patch needs that no ban of its event is lifted: an event banned when the filter looks and allowed
   when the second check does is patched without its upsert.
   */
  lemma LiftedPatchHasNoUpsert(s: State, ev: Event)
    requires Init(s) && s.gate.Blocked(ev) && !Apply(s.gate, AllowEvent(ev.id)).Blocked(ev)
    ensures exists t :: Reachable(s, t) && t.w.log == [Patched(Item(0, ev))]
  {
    hide Leads, Land, Without, Gate.Blocked, Enabled, Next, Reachable, Acted, Init, Apply, ContentWaits, RecheckWaits;
    var t := ContentIsNext(s, ev);
    t := ContentIsDropped(s, t, ev);
    t := Operated(s, t, AllowEvent(ev.id));
    t := DroppedIsPatched(s, t, ev);
  }

  /** A ban recorded between two reads of the gate is one the given lifts can undo. */
  lemma BannedMeanwhile(s: State, t: State, lifts: set<Action>, ev: Event) returns (u: State)
    requires Reachable(s, t) && LiftedFor(lifts, ev) && !StaysBlocked(t.gate, lifts, ev)
    ensures Reachable(s, u) && u.w == t.w && u.lifted == t.lifted
    ensures u.gate.Blocked(ev) && !StaysBlocked(u.gate, lifts, ev)
  {
    hide Reachable, EventCoord, CoordString;
    if AllowEvent(ev.id) in lifts {
      u := Banned(s, t, ev.id);
    } else {
      u := Operated(s, t, BanPubkey(ev.pubkey));
    }
  }

  /** With every lift at hand done, only what they cannot end blocks the event. */
  lemma AllLifted(s: State, t: State, lifts: set<Action>, ev: Event) returns (u: State)
    requires Reachable(s, t) && t.lifted <= lifts && !StaysBlocked(t.gate, lifts, ev)
    ensures Reachable(s, u) && u.w == t.w && u.lifted <= lifts && !u.gate.Blocked(ev)
  {
    hide Reachable, EventCoord, CoordString;
    u := t;
    if AllowEvent(ev.id) in lifts {
      u := Operated(s, u, AllowEvent(ev.id));
    }
    if AllowPubkey(ev.pubkey) in lifts {
      u := Operated(s, u, AllowPubkey(ev.pubkey));
    }
  }

  lemma LiftedWitness(s: State, ev: Event, lifts: set<Action>)
    requires Init(s) && LiftedFor(lifts, ev) && !StaysBlocked(s.gate, lifts, ev)
    ensures exists t :: Reachable(s, t) && t.lifted <= lifts && PatchedAlone(t.w.log, ev)
  {
    hide Leads, Land, Without, Gate.Blocked, Enabled, Next, Reachable, Acted, Init, Apply, ContentWaits, RecheckWaits,
        StaysBlocked, LiftedFor;
    var t := ContentIsNext(s, ev);
    t := BannedMeanwhile(s, t, lifts, ev);
    t := ContentIsDropped(s, t, ev);
    t := AllLifted(s, t, lifts, ev);
    t := DroppedIsPatched(s, t, ev);
    assert t.w.log[0] == Patched(Item(0, ev)) && Wrote(Item(0, ev)) !in t.w.log[..0];
  }

  // ----- Nothing else lets it happen -----

  ghost predicate Unpatched(w: Worker, ev: Event) {
    && !(AfterOf(w).ThenPatch? && AfterOf(w).item.ev == ev)
    && forall k :: 0 <= k < |w.log| && w.log[k].Patched? ==> w.log[k].item.ev != ev
  }

  lemma StaysBlockedBlocks(g: Gate, lifts: set<Action>, ev: Event)
    requires StaysBlocked(g, lifts, ev)
    ensures g.Blocked(ev)
  {
    hide EventCoord, CoordString;
  }

  lemma GateKeepsBlocking(s: State, step: Step, lifts: set<Action>, ev: Event)
    requires StaysBlocked(s.gate, lifts, ev) && Enabled(s, step) && Next(s, step).lifted <= lifts
    ensures StaysBlocked(Next(s, step).gate, lifts, ev)
  {
    hide Land, Without, Acted, ActEnabled, Gate.Tombstoned, MarkAll, SameAuthorCoords;
    if step.Operate? && step.action.ApplyDeletion? {
      TombstoneStep(s.gate, step.action.del, ev);
    }
    if step.RecordPurge? {
      SameTombstones(s.gate, RecordedGate(s.gate, s.clients[step.c].job), ev);
    }
    if step.Operate? && !step.action.ApplyDeletion? {
      SameTombstones(s.gate, Apply(s.gate, step.action), ev);
    }
  }

  lemma SameTombstones(g: Gate, h: Gate, ev: Event)
    requires g.tombstones == h.tombstones
    ensures g.Tombstoned(ev) == h.Tombstoned(ev)
  {
    hide EventCoord, CoordString;
  }

  lemma UnpatchedGrows(w: Worker, v: Worker, ev: Event)
    requires Unpatched(w, ev) && w.log <= v.log
    requires forall k :: |w.log| <= k < |v.log| && v.log[k].Patched? ==> AfterOf(w) == ThenPatch(v.log[k].item)
    requires AfterOf(v).ThenPatch? ==> AfterOf(v) == AfterOf(w) || AfterOf(v).item.ev != ev
    ensures Unpatched(v, ev)
  {
    hide AfterOf;
    assert forall k :: 0 <= k < |w.log| ==> v.log[k] == w.log[k];
  }

  /** A blocked event stays unpatched. */
  lemma StaysUnpatched(w: Worker, sent: seq<Task>, done: bool, gate: Gate, a: Act, ev: Event)
    requires Unpatched(w, ev) && gate.Blocked(ev) && ActEnabled(w, |sent|, done, a)
    ensures Unpatched(Acted(w, sent, done, Refused(gate, w, a), a), ev)
  {
    hide Unpatched, Gate.Blocked, DocIds, NewIds, Calls;
    if a.EndFilter? { CallsAreWrites(w.log, w.pc.kept); }
    UnpatchedGrows(w, Acted(w, sent, done, Refused(gate, w, a), a), ev);
  }

  lemma StepStaysUnpatched(s: State, step: Step, ev: Event)
    requires Unpatched(s.w, ev) && s.gate.Blocked(ev) && Enabled(s, step)
    ensures Unpatched(Next(s, step).w, ev)
  {
    hide Unpatched, Gate.Blocked, Acted, ActEnabled, Land, Without, Apply, RecordedGate;
    if step.Work? { StaysUnpatched(s.w, s.sent, s.done, s.gate, step.act, ev); }
  }

  lemma {:induction false} NeverPatched(s: State, steps: seq<Step>, t: State, lifts: set<Action>, ev: Event)
    requires Leads(s, steps, t) && t.lifted <= lifts && Unpatched(s.w, ev) && StaysBlocked(s.gate, lifts, ev)
    ensures Unpatched(t.w, ev) && s.lifted <= lifts
    decreases |steps|
  {
    hide Enabled, StaysBlocked, Unpatched, Gate.Blocked;
    if steps != [] {
      var u := Next(s, steps[0]);
      LiftsGrow(u, steps[1..], t);
      GateKeepsBlocking(s, steps[0], lifts, ev);
      StaysBlockedBlocks(s.gate, lifts, ev);
      StepStaysUnpatched(s, steps[0], ev);
      NeverPatched(u, steps[1..], t, lifts, ev);
    }
  }

  lemma {:induction false} LiftsGrow(s: State, steps: seq<Step>, t: State)
    requires Leads(s, steps, t)
    ensures s.lifted <= t.lifted
    decreases |steps|
  {
    hide Enabled, Apply, Acted, Land, Without, Gate.Blocked, RecordedGate;
    if steps != [] { LiftsGrow(Next(s, steps[0]), steps[1..], t); }
  }

  lemma AloneNeedsLift(s: State, t: State, ev: Event, lifts: set<Action>)
    requires Init(s) && Reachable(s, t) && t.lifted <= lifts && PatchedAlone(t.w.log, ev)
    ensures LiftedFor(lifts, ev) && !StaysBlocked(s.gate, lifts, ev)
  {
    hide Leads, StaysBlocked;
    var steps :| Leads(s, steps, t);
    var k :| 0 <= k < |t.w.log| && t.w.log[k].Patched? && t.w.log[k].item.ev == ev &&
             Wrote(t.w.log[k].item) !in t.w.log[..k];
    if !LiftedFor(t.lifted, ev) { PatchAfterUpsert(s, steps, t, k); }
    if StaysBlocked(s.gate, lifts, ev) { NeverPatched(s, steps, t, lifts, ev); }
  }

  /**
   "The buffer guarantees Event is upserted before Patch runs" fails in some run that lifts no bans but the given ones
   exactly if one of them is a ban of the event or of its key and nothing else blocks the event from the start.
   */
  lemma PatchWithoutUpsertIff(s: State, ev: Event, lifts: set<Action>)
    requires Init(s)
    ensures (exists t :: Reachable(s, t) && t.lifted <= lifts && PatchedAlone(t.w.log, ev)) <==>
            LiftedFor(lifts, ev) && !StaysBlocked(s.gate, lifts, ev)
  {
    hide Init, Reachable, PatchedAlone, StaysBlocked, LiftedFor;
    if LiftedFor(lifts, ev) && !StaysBlocked(s.gate, lifts, ev) {
      LiftedWitness(s, ev, lifts);
    }
    forall t | Reachable(s, t) && t.lifted <= lifts && PatchedAlone(t.w.log, ev)
      ensures LiftedFor(lifts, ev) && !StaysBlocked(s.gate, lifts, ev)
    {
      AloneNeedsLift(s, t, ev, lifts);
    }
  }
}
