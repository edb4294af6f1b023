/** No task is forgotten: what becomes of each in any run, and at shutdown (buffer.go). */
module TsShutdown {
  import opened Sequences
  import opened Nostr
  import opened Gate
  import opened TsMachine
  import opened TsLog

  // ----- Every task that was taken is done, under way or dropped -----

  predicate Passed(w: Worker, item: Item) {
    Wrote(item) in w.log || item in Hand(w) || item.n in w.dropped
  }

  predicate Handled(w: Worker, task: Task, n: nat) {
    match task
    case Project(ev) => Passed(w, Item(n, ev))
    case Content(ev) =>
      && Passed(w, Item(n, ev))
      && (n in w.dropped || Patched(Item(n, ev)) in w.log || AfterOf(w) == ThenRecheck(Item(n, ev)) ||
          AfterOf(w) == ThenPatch(Item(n, ev)))
    case Stamp(doc) => Stamped(n, doc) in w.log || AfterOf(w) == ThenStamp(n, doc)
    case Delete(id) => Deleted(n, id) in w.log || AfterOf(w) == ThenDelete(n, id)
  }

  /** After the deadline a task may be taken on the way out and lost. */
  predicate MayBeLost(w: Worker, n: nat) {
    w.expired && w.pc == Exited && n + 1 == w.taken
  }

  ghost predicate AllHandled(w: Worker, sent: seq<Task>) {
    w.taken <= |sent| && forall n :: 0 <= n < w.taken && !MayBeLost(w, n) ==> Handled(w, sent[n], n)
  }

  /** Nothing in hand and nothing under way is forgotten between w and v. */
  predicate Advances(w: Worker, v: Worker) {
    && w.log <= v.log && w.dropped <= v.dropped
    && (forall k :: 0 <= k < |Hand(w)| ==> Passed(v, Hand(w)[k]))
    && (AfterOf(v) == AfterOf(w) || AfterDone(v, AfterOf(w)))
  }

  predicate AfterDone(v: Worker, after: After) {
    match after
    case Nothing => true
    case ThenDelete(n, id) => Deleted(n, id) in v.log
    case ThenStamp(n, doc) => Stamped(n, doc) in v.log
    case ThenRecheck(item) => AfterOf(v) == ThenPatch(item) || item.n in v.dropped
    case ThenPatch(item) => Patched(item) in v.log
    case ThenExit => true
  }

  lemma PrefixMember(a: seq<Op>, b: seq<Op>, op: Op)
    requires a <= b && op in a
    ensures op in b
  {
    var i :| 0 <= i < |a| && a[i] == op;
    assert b[i] == op;
  }

  lemma PassedAdvances(w: Worker, v: Worker, item: Item)
    requires Advances(w, v) && Passed(w, item)
    ensures Passed(v, item)
  {
    hide Hand, AfterOf, AfterDone;
    if Wrote(item) in w.log { PrefixMember(w.log, v.log, Wrote(item)); }
  }

  lemma HandledAdvances(w: Worker, v: Worker, task: Task, n: nat)
    requires Advances(w, v) && Handled(w, task, n)
    ensures Handled(v, task, n)
  {
    hide Hand, AfterOf, Passed;
    match task
    case Project(ev) => PassedAdvances(w, v, Item(n, ev));
    case Content(ev) =>
      PassedAdvances(w, v, Item(n, ev));
      if Patched(Item(n, ev)) in w.log { PrefixMember(w.log, v.log, Patched(Item(n, ev))); }
    case Stamp(doc) => if Stamped(n, doc) in w.log { PrefixMember(w.log, v.log, Stamped(n, doc)); }
    case Delete(id) => if Deleted(n, id) in w.log { PrefixMember(w.log, v.log, Deleted(n, id)); }
  }

  lemma AdvancesKeeps(w: Worker, v: Worker, sent: seq<Task>)
    requires AllHandled(w, sent) && Advances(w, v) && v.taken == w.taken
    requires forall n: nat :: MayBeLost(w, n) ==> MayBeLost(v, n)
    ensures AllHandled(v, sent)
  {
    hide Advances, Handled, MayBeLost;
    forall n | 0 <= n < v.taken && !MayBeLost(v, n) ensures Handled(v, sent[n], n) {
      HandledAdvances(w, v, sent[n], n);
    }
  }

  /** The same hand, log and continuation. */
  lemma SameAdvances(w: Worker, v: Worker)
    requires Hand(v) == Hand(w) && v.log == w.log && v.dropped == w.dropped &&
             (AfterOf(v) == AfterOf(w) || AfterDone(v, AfterOf(w)))
    ensures Advances(w, v)
  {
    hide Hand, AfterOf;
  }

  lemma TakenShape(w: Worker, task: Task)
    requires w.pc == Idle && !w.expired
    ensures var v := Taken(w, task); v.log == w.log && v.dropped == w.dropped && w.batch <= v.batch == Hand(v)
  {
    hide DocIds, NewIds;
    var v := Taken(w, task);
    if v.pc.Filtering? {
      assert v.batch[0..] == v.batch;
    }
  }

  lemma TakeAdvances(w: Worker, sent: seq<Task>)
    requires w.pc == Idle && w.taken < |sent| && !w.expired
    ensures Advances(w, Taken(w, sent[w.taken]))
  {
    var v := Taken(w, sent[w.taken]);
    TakenShape(w, sent[w.taken]);
    hide Taken;
    forall k | 0 <= k < |Hand(w)| ensures Passed(v, Hand(w)[k]) {
      assert v.batch[k] == w.batch[k];
    }
  }

  lemma TakenMore(w: Worker, task: Task)
    ensures Taken(w, task).taken == w.taken + 1
  {
  }

  lemma TakeHandles(w: Worker, sent: seq<Task>)
    requires AllHandled(w, sent) && w.pc == Idle && w.taken < |sent|
    ensures AllHandled(Taken(w, sent[w.taken]), sent)
  {
    hide DocIds, NewIds, Handled, Advances, Begin;
    var v := Taken(w, sent[w.taken]);
    if w.expired {
      SameAdvances(w, v);
    } else {
      TakeAdvances(w, sent);
      NewHandled(w, sent);
    }
    TakenMore(w, sent[w.taken]);
    forall n | 0 <= n < v.taken && !MayBeLost(v, n) ensures Handled(v, sent[n], n) {
      if n < w.taken { HandledAdvances(w, v, sent[n], n); }
    }
  }

  lemma NewHandled(w: Worker, sent: seq<Task>)
    requires w.pc == Idle && w.taken < |sent| && !w.expired
    ensures Handled(Taken(w, sent[w.taken]), sent[w.taken], w.taken)
  {
    hide DocIds, NewIds;
    var task := sent[w.taken];
    if task.Project? || task.Content? { NewInHand(w, task); }
  }

  lemma NewInHand(w: Worker, task: Task)
    requires w.pc == Idle && !w.expired && (task.Project? || task.Content?)
    ensures Item(w.taken, task.ev) in Hand(Taken(w, task))
  {
    hide DocIds, NewIds, Hand;
    var v := Taken(w, task);
    TakenShape(w, task);
    assert v.batch[|v.batch| - 1] == Item(w.taken, task.ev);
  }

  lemma CheckAdvances(w: Worker, blocked: bool)
    requires w.pc.Filtering? && w.pc.i < |w.batch|
    ensures Advances(w, Checked(w, blocked))
  {
    var v := Checked(w, blocked);
    var i, kept := w.pc.i, w.pc.kept;
    assert Hand(w) == kept + [w.batch[i]] + w.batch[i + 1..];
    if blocked {
      assert Hand(v) == kept + w.batch[i + 1..];
    } else {
      assert Hand(v) == Hand(w);
    }
  }

  lemma FilterAdvances(w: Worker)
    requires w.pc.Filtering? && w.pc.i == |w.batch|
    ensures Advances(w, Filtered(w))
  {
    var v, kept := Filtered(w), w.pc.kept;
    assert Hand(w) == kept;
    forall k | 0 <= k < |kept| ensures Wrote(kept[k]) in v.log {
      assert v.log[|w.log| + k] == Wrote(kept[k]);
    }
  }

  lemma ActAdvances(w: Worker, op: Op)
    requires w.pc.Acting?
    requires match w.pc.after
             case ThenDelete(n, id) => op == Deleted(n, id)
             case ThenStamp(n, doc) => op == Stamped(n, doc)
             case ThenPatch(item) => op == Patched(item)
             case _ => false
    ensures Advances(w, w.(pc := Idle, log := w.log + [op]))
  {
    var v := w.(pc := Idle, log := w.log + [op]);
    assert v.log[|w.log|] == op;
    assert Hand(v) == Hand(w);
  }

  lemma UpsertAdvances(w: Worker, retry: bool)
    requires w.pc.Upserting?
    ensures Advances(w, Upserted(w, retry))
  {
  }

  lemma RecheckAdvances(w: Worker, blocked: bool)
    requires w.pc.Acting? && w.pc.after.ThenRecheck?
    ensures Advances(w, Rechecked(w, blocked))
  {
  }

  /** Every act but taking a task. */
  lemma WorkAdvances(w: Worker, sent: seq<Task>, done: bool, refused: bool, a: Act)
    requires OrderInv(w, sent) && ActEnabled(w, |sent|, done, a) && !a.Take?
    ensures Advances(w, Acted(w, sent, done, refused, a))
    ensures Acted(w, sent, done, refused, a).taken == w.taken
  {
    hide Advances, OrderInv, Checked, Filtered, Upserted, Rechecked;
    WorkKeepsTaken(w, sent, done, refused, a);
    match a
    case Tick => SameAdvances(w, Acted(w, sent, done, refused, a));
    case SeeDone => SameAdvances(w, Acted(w, sent, done, refused, a));
    case DrainEmpty => SameAdvances(w, Acted(w, sent, done, refused, a));
    case CheckItem => CheckAdvances(w, refused);
    case EndFilter => FilterAdvances(w);
    case Upsert(_, retry) => UpsertAdvances(w, retry);
    case DeleteDocs(_) => ActAdvances(w, Deleted(w.pc.after.n, w.pc.after.id));
    case StampDoc => ActAdvances(w, Stamped(w.pc.after.n, w.pc.after.doc));
    case Recheck => RecheckAdvances(w, refused);
    case Patch => ActAdvances(w, Patched(w.pc.after.item));
    case Expire => SameAdvances(w, Acted(w, sent, done, refused, a));
    case GiveUp => SameAdvances(w, Acted(w, sent, done, refused, a));
  }

  lemma WorkKeepsTaken(w: Worker, sent: seq<Task>, done: bool, refused: bool, a: Act)
    requires ActEnabled(w, |sent|, done, a) && !a.Take?
    ensures Acted(w, sent, done, refused, a).taken == w.taken
    ensures forall n: nat :: MayBeLost(w, n) ==> MayBeLost(Acted(w, sent, done, refused, a), n)
  {
  }

  lemma WorkHandles(w: Worker, sent: seq<Task>, done: bool, refused: bool, a: Act)
    requires OrderInv(w, sent) && AllHandled(w, sent) && ActEnabled(w, |sent|, done, a)
    ensures AllHandled(Acted(w, sent, done, refused, a), sent)
  {
    hide OrderInv, Advances, Handled, Checked, Filtered, Upserted, Rechecked, Taken;
    match a
    case Take => TakeHandles(w, sent);
    case _ =>
      WorkAdvances(w, sent, done, refused, a);
      WorkKeepsTaken(w, sent, done, refused, a);
      AdvancesKeeps(w, Acted(w, sent, done, refused, a), sent);
  }

  // ----- What is dropped is blocked, and patches follow upserts -----

  /** A ban of the event or of its key was lifted. */
  predicate LiftedFor(lifted: set<Action>, ev: Event) {
    AllowEvent(ev.id) in lifted || AllowPubkey(ev.pubkey) in lifted
  }

  predicate Barred(gate: Gate, lifted: set<Action>, task: Task) {
    (task.Project? || task.Content?) && (LiftedFor(lifted, task.ev) || gate.Blocked(task.ev))
  }

  ghost predicate DroppedBlocked(w: Worker, sent: seq<Task>, gate: Gate, lifted: set<Action>) {
    w.taken <= |sent| && forall n :: n in w.dropped ==> n < w.taken && Barred(gate, lifted, sent[n])
  }

  ghost predicate WrittenBefore(log: seq<Op>, k: nat, item: Item) {
    Wrote(item) in if k <= |log| then log[..k] else log
  }

  ghost predicate PatchesFollow(w: Worker, lifted: set<Action>) {
    && (forall k :: 0 <= k < |w.log| && w.log[k].Patched? ==>
          LiftedFor(lifted, w.log[k].item.ev) || WrittenBefore(w.log, k, w.log[k].item))
    && (AfterOf(w).ThenPatch? ==> LiftedFor(lifted, AfterOf(w).item.ev) || Wrote(AfterOf(w).item) in w.log)
  }

  lemma LogGrows(w: Worker, v: Worker, lifted: set<Action>)
    requires PatchesFollow(w, lifted) && w.log <= v.log
    requires forall k :: |w.log| <= k < |v.log| && v.log[k].Patched? ==>
              w.pc == Acting(ThenPatch(v.log[k].item)) && k == |w.log|
    requires AfterOf(v).ThenPatch? ==>
               AfterOf(v) == AfterOf(w) || LiftedFor(lifted, AfterOf(v).item.ev) || Wrote(AfterOf(v).item) in v.log
    ensures PatchesFollow(v, lifted)
  {
    hide LiftedFor;
    forall k | 0 <= k < |v.log| && v.log[k].Patched?
      ensures LiftedFor(lifted, v.log[k].item.ev) || WrittenBefore(v.log, k, v.log[k].item)
    {
      if k < |w.log| {
        assert v.log[k] == w.log[k] && v.log[..k] == w.log[..k];
      } else {
        assert v.log[..k] == w.log;
      }
    }
    if AfterOf(v).ThenPatch? && AfterOf(v) == AfterOf(w) && !LiftedFor(lifted, AfterOf(v).item.ev) {
      PrefixMember(w.log, v.log, Wrote(AfterOf(v).item));
    }
  }

  /** The patch after an unblocked second check finds its event written. */
  lemma UnblockedWritten(w: Worker, sent: seq<Task>, gate: Gate, lifted: set<Action>)
    requires OrderInv(w, sent) && AllHandled(w, sent) && DroppedBlocked(w, sent, gate, lifted)
    requires w.pc.Acting? && w.pc.after.ThenRecheck?
    ensures LiftedFor(lifted, w.pc.after.item.ev) || gate.Blocked(w.pc.after.item.ev) || Wrote(w.pc.after.item) in w.log
  {
    hide Gate.Blocked, LogFits, LogOrdered, HandFollows, HandFits, DocIds, LiftedFor;
    var item := w.pc.after.item;
    assert sent[item.n] == Content(item.ev) && Hand(w) == [];
    assert Handled(w, sent[item.n], item.n) && Passed(w, Item(item.n, item.ev));
    assert item.n in w.dropped ==> Barred(gate, lifted, sent[item.n]);
  }

  lemma CallsAreWrites(log: seq<Op>, kept: seq<Item>)
    ensures forall k :: |log| <= k < |log + Calls(kept)| ==> (log + Calls(kept))[k].Wrote?
  {
  }

  lemma WorkKeepsPatches(w: Worker, sent: seq<Task>, done: bool, gate: Gate, lifted: set<Action>, a: Act)
    requires OrderInv(w, sent) && AllHandled(w, sent) && DroppedBlocked(w, sent, gate, lifted)
    requires PatchesFollow(w, lifted)
    requires ActEnabled(w, |sent|, done, a)
    ensures PatchesFollow(Acted(w, sent, done, Refused(gate, w, a), a), lifted)
  {
    hide OrderInv, AllHandled, DroppedBlocked, PatchesFollow, Gate.Blocked, DocIds, NewIds, Calls, LiftedFor;
    if a.EndFilter? { CallsAreWrites(w.log, w.pc.kept); }
    if a.Recheck? { UnblockedWritten(w, sent, gate, lifted); }
    LogGrows(w, Acted(w, sent, done, Refused(gate, w, a), a), lifted);
  }

  lemma CheckDropsBlocked(w: Worker, sent: seq<Task>, gate: Gate, lifted: set<Action>)
    requires HandFits(w, sent) && DroppedBlocked(w, sent, gate, lifted) && w.pc.Filtering? && w.pc.i < |w.batch|
    ensures DroppedBlocked(Checked(w, gate.Blocked(w.batch[w.pc.i].ev)), sent, gate, lifted)
  {
    hide Gate.Blocked;
    assert Hand(w)[|w.pc.kept|] == w.batch[w.pc.i];
  }

  lemma RecheckDropsBlocked(w: Worker, sent: seq<Task>, gate: Gate, lifted: set<Action>)
    requires AfterFits(w, sent) && DroppedBlocked(w, sent, gate, lifted) && w.pc.Acting? && w.pc.after.ThenRecheck?
    ensures DroppedBlocked(Rechecked(w, gate.Blocked(w.pc.after.item.ev)), sent, gate, lifted)
  {
    hide Gate.Blocked;
  }

  lemma OthersDropNothing(w: Worker, sent: seq<Task>, done: bool, refused: bool, a: Act)
    requires ActEnabled(w, |sent|, done, a) && !a.CheckItem? && !a.Recheck?
    ensures Acted(w, sent, done, refused, a).dropped == w.dropped
    ensures w.taken <= Acted(w, sent, done, refused, a).taken
    ensures w.taken <= |sent| ==> Acted(w, sent, done, refused, a).taken <= |sent|
  {
  }

  lemma WorkDropsBlocked(w: Worker, sent: seq<Task>, done: bool, gate: Gate, lifted: set<Action>, a: Act)
    requires OrderInv(w, sent) && DroppedBlocked(w, sent, gate, lifted) && ActEnabled(w, |sent|, done, a)
    ensures DroppedBlocked(Acted(w, sent, done, Refused(gate, w, a), a), sent, gate, lifted)
  {
    hide Gate.Blocked, AfterFits, LogOrdered, LogFits, HandFollows, HandFits, BatchFits, Checked, Rechecked;
    match a
    case CheckItem => CheckDropsBlocked(w, sent, gate, lifted);
    case Recheck => RecheckDropsBlocked(w, sent, gate, lifted);
    case _ =>
      hide Acted;
      OthersDropNothing(w, sent, done, Refused(gate, w, a), a);
  }

  // ----- Who may still send after Close -----

  ghost predicate SendersFit(s: State) {
    && |s.senders| == |s.sent| && NoDup(s.senders)
    && (forall i :: 0 <= i < |s.senders| ==> ClientAt(s, s.senders[i], Returned))
    && (s.closed ==> s.marked <= |s.sent|)
    && (s.closed ==> forall i :: s.marked <= i < |s.senders| ==> s.senders[i] in s.raced)
    && (s.closed ==> forall c: nat :: ClientAt(s, c, Sending) ==> c in s.raced)
  }

  ghost predicate DrainFits(s: State) {
    && (s.done ==> s.closed) && (s.w.draining ==> s.done)
    && (s.closed ==> s.marked <= |s.sent|)
    && (AfterOf(s.w) == ThenExit || (s.w.pc == Exited && !s.w.expired) ==> s.w.draining && s.w.taken >= s.marked)
  }

  ghost predicate TaskInv(s: State) {
    && OrderInv(s.w, s.sent) && AllHandled(s.w, s.sent)
    && DroppedBlocked(s.w, s.sent, s.gate, s.lifted) && PatchesFollow(s.w, s.lifted)
    && SendersFit(s) && DrainFits(s)
  }

  lemma WorkKeepsTasks(s: State, a: Act)
    requires TaskInv(s) && Enabled(s, Work(a))
    ensures TaskInv(Next(s, Work(a)))
  {
    hide OrderInv, AllHandled, DroppedBlocked, PatchesFollow, Acted, DrainFits, Land, Without, Gate.Blocked, ActEnabled,
        DocIds;
    WorkKeepsOrder(s.w, s.sent, s.done, Refused(s.gate, s.w, a), a);
    WorkHandles(s.w, s.sent, s.done, Refused(s.gate, s.w, a), a);
    WorkDropsBlocked(s.w, s.sent, s.done, s.gate, s.lifted, a);
    WorkKeepsPatches(s.w, s.sent, s.done, s.gate, s.lifted, a);
    WorkKeepsDrain(s, a);
  }

  lemma WorkKeepsDrain(s: State, a: Act)
    requires DrainFits(s) && Enabled(s, Work(a))
    ensures DrainFits(Next(s, Work(a)))
  {
    hide Land, Without, Gate.Blocked, DocIds, NewIds, Calls;
  }

  /** Blocked events stay blocked while no ban of theirs is lifted. */
  lemma GateGrows(g: Gate, a: Action, ev: Event)
    requires a != AllowEvent(ev.id) && a != AllowPubkey(ev.pubkey) && g.Blocked(ev)
    ensures Apply(g, a).Blocked(ev)
  {
    hide EventCoord, CoordString, ParseCoord, WellFormed, MarkAll, SameAuthorCoords, AuthorDeleted;
    if a.ApplyDeletion? { DeletionBlocks(g, a.del, ev); }
  }

  lemma RecordGrows(g: Gate, job: Job, ev: Event)
    requires g.Blocked(ev)
    ensures RecordedGate(g, job).Blocked(ev)
  {
    hide EventCoord, CoordString;
  }

  lemma GateStepKeeps(s: State, step: Step)
    requires DroppedBlocked(s.w, s.sent, s.gate, s.lifted) && Enabled(s, step) && !step.Work?
    ensures var t := Next(s, step); DroppedBlocked(t.w, t.sent, t.gate, t.lifted)
  {
    hide Gate.Blocked, Apply, RecordedGate, Without;
    var t := Next(s, step);
    forall n | n in s.w.dropped ensures Barred(t.gate, t.lifted, t.sent[n]) {
      assert Barred(s.gate, s.lifted, s.sent[n]);
      var ev := s.sent[n].ev;
      if !LiftedFor(t.lifted, ev) {
        if step.Operate? { GateGrows(s.gate, step.action, ev); }
        if step.RecordPurge? { RecordGrows(s.gate, s.clients[step.c].job, ev); }
      }
    }
  }

  lemma SendKeepsSenders(s: State, c: nat)
    requires SendersFit(s) && Enabled(s, Send(c))
    ensures SendersFit(Next(s, Send(c)))
  {
    var t := Next(s, Send(c));
    assert forall i :: 0 <= i < |s.senders| ==> t.senders[i] == s.senders[i] && s.senders[i] != c;
  }

  lemma OthersKeepSenders(s: State, step: Step)
    requires SendersFit(s) && Enabled(s, step) && !step.Work? && !step.Send? && !step.StoreClosed?
    ensures SendersFit(Next(s, step))
  {
    hide Gate.Blocked, Apply, RecordedGate, Without;
    var t := Next(s, step);
    assert t.senders == s.senders && t.sent == s.sent && t.closed == s.closed && t.marked == s.marked &&
           t.raced == s.raced;
    assert forall c: nat :: ClientAt(s, c, Returned) ==> ClientAt(t, c, Returned);
  }

  lemma ClientKeepsSenders(s: State, step: Step)
    requires SendersFit(s) && Enabled(s, step) && !step.Work?
    ensures SendersFit(Next(s, step))
  {
    if step.Send? {
      SendKeepsSenders(s, step.c);
    } else if !step.StoreClosed? {
      hide Next, SendersFit, Enabled;
      OthersKeepSenders(s, step);
    }
  }

  lemma ClientKeepsTasks(s: State, step: Step)
    requires TaskInv(s) && Enabled(s, step) && !step.Work?
    ensures TaskInv(Next(s, step))
  {
    hide OrderInv, DroppedBlocked, PatchesFollow, SendersFit, Handled, Apply, Without, RecordedGate;
    StepKeepsOrder(s, step);
    GateStepKeeps(s, step);
    ClientKeepsSenders(s, step);
    var t := Next(s, step);
    assert PatchesFollow(t.w, t.lifted) by { LiftKeeps(s.w, s.lifted, t.lifted); }
    assert forall n :: 0 <= n < |s.sent| ==> t.sent[n] == s.sent[n];
    assert |s.sent| <= |t.sent|;
    assert SendersFit(s) ==> (s.closed ==> s.marked <= |s.sent|) by { MarkedFits(s); }
  }

  lemma MarkedFits(s: State)
    requires SendersFit(s)
    ensures s.closed ==> s.marked <= |s.sent|
  {
  }

  lemma LiftKeeps(w: Worker, lifted: set<Action>, more: set<Action>)
    requires PatchesFollow(w, lifted) && lifted <= more
    ensures PatchesFollow(w, more)
  {
    hide WrittenBefore;
  }

  lemma {:induction false} RunKeepsTasks(s: State, steps: seq<Step>, t: State)
    requires TaskInv(s) && Leads(s, steps, t)
    ensures TaskInv(t)
    decreases |steps|
  {
    hide TaskInv, Next, Enabled;
    if steps != [] {
      if steps[0].Work? { WorkKeepsTasks(s, steps[0].act); } else { ClientKeepsTasks(s, steps[0]); }
      RunKeepsTasks(Next(s, steps[0]), steps[1..], t);
    }
  }

  lemma InitTasks(s: State)
    requires Init(s)
    ensures TaskInv(s)
  {
    InitOrdered(s);
  }

  // ----- The results -----

  /** In every run: a content patch comes after an Upsert of its event, if no ban of the event or its key was lifted. */
  lemma PatchAfterUpsert(s: State, steps: seq<Step>, t: State, k: nat)
    requires Init(s) && Leads(s, steps, t)
    requires k < |t.w.log| && t.w.log[k].Patched? && !LiftedFor(t.lifted, t.w.log[k].item.ev)
    ensures Wrote(t.w.log[k].item) in t.w.log[..k]
  {
    InitTasks(s);
    RunKeepsTasks(s, steps, t);
    assert WrittenBefore(t.w.log, k, t.w.log[k].item);
  }

  /** What the worker was asked to do is done, or the gate blocked its event. */
  predicate Finished(w: Worker, task: Task, n: nat) {
    match task
    case Project(ev) => n in w.dropped || Wrote(Item(n, ev)) in w.log
    case Content(ev) => n in w.dropped || (Wrote(Item(n, ev)) in w.log && Patched(Item(n, ev)) in w.log)
    case Stamp(doc) => Stamped(n, doc) in w.log
    case Delete(id) => Deleted(n, id) in w.log
  }

  /**
   When the worker has left without the deadline passing: every task sent before Close stored the flag is done,
   or its event was blocked (and still is, if no ban of the event or its key was lifted). Later ones come each from
   a client of its own that had read the flag before it was stored.
   */
  lemma ShutdownLosesNothing(s: State, steps: seq<Step>, t: State)
    requires Init(s) && Leads(s, steps, t) && t.w.pc == Exited && !t.w.expired
    ensures t.closed && t.marked <= |t.sent| == |t.senders|
    ensures forall n :: 0 <= n < t.marked ==> Finished(t.w, t.sent[n], n)
    ensures forall n :: 0 <= n < t.marked && n in t.w.dropped ==> Barred(t.gate, t.lifted, t.sent[n])
    ensures NoDup(t.senders) && forall n :: t.marked <= n < |t.sent| ==> t.senders[n] in t.raced
  {
    hide LogFits, LogOrdered, HandFollows, HandFits, Gate.Blocked, DocIds;
    InitTasks(s);
    RunKeepsTasks(s, steps, t);
    assert Hand(t.w) == [] && AfterOf(t.w) == Nothing;
    forall n | 0 <= n < t.marked ensures Finished(t.w, t.sent[n], n) {
      assert Handled(t.w, t.sent[n], n);
    }
  }

  /** A patched event is not in hand. */
  lemma PatchedIsGone(w: Worker, item: Item)
    requires HandFollows(w) && Patched(item) in w.log
    ensures item !in Hand(w)
  {
    hide Hand;
    var i :| 0 <= i < |w.log| && w.log[i] == Patched(item);
    assert forall k :: 0 <= k < |Hand(w)| ==> Follows(w.log, Hand(w)[k]);
    assert forall k :: 0 <= k < |Hand(w)| ==> MayPrecede(w.log[i], Hand(w)[k]);
  }

  /** After the deadline all that was taken is done, dropped or still in the batch, but for at most the last task. */
  lemma DeadlineLosesOne(s: State, steps: seq<Step>, t: State, n: nat)
    requires Init(s) && Leads(s, steps, t) && t.w.pc == Exited && n + 1 < t.w.taken
    ensures n < |t.sent|
    ensures Finished(t.w, t.sent[n], n) || (t.sent[n].Project? && Item(n, t.sent[n].ev) in t.w.batch)
  {
    hide LogFits, LogOrdered, HandFits, DroppedBlocked, PatchesFollow, SendersFit, DrainFits, DocIds;
    InitTasks(s);
    RunKeepsTasks(s, steps, t);
    assert Handled(t.w, t.sent[n], n) && Hand(t.w) == t.w.batch;
    if t.sent[n].Content? && Patched(Item(n, t.sent[n].ev)) in t.w.log && Item(n, t.sent[n].ev) in t.w.batch {
      PatchedIsGone(t.w, Item(n, t.sent[n].ev));
    }
  }
}
