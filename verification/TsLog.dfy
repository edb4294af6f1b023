/** What the worker's calls on the search index look like in every run (buffer.go). */
module TsLog {
  import opened Wrappers
  import opened Nostr
  import opened Gate
  import opened Projection
  import opened TsMachine

  /** The events the worker holds and has not handed to Upsert. */
  function Hand(w: Worker): seq<Item> {
    match w.pc
    case Filtering(i, kept, _) => if i <= |w.batch| then kept + w.batch[i..] else []
    case Upserting(_, _) => []
    case _ => w.batch
  }

  function AfterOf(w: Worker): After {
    match w.pc
    case Filtering(_, _, after) => after
    case Upserting(_, after) => after
    case Acting(after) => after
    case _ => Nothing
  }

  predicate Projects(task: Task, ev: Event) {
    task == Project(ev) || task == Content(ev)
  }

  // ----- Where things are -----

  predicate AfterFits(w: Worker, sent: seq<Task>) {
    match AfterOf(w)
    case ThenDelete(n, id) => n + 1 == w.taken <= |sent| && sent[n] == Delete(id)
    case ThenStamp(n, doc) => n + 1 == w.taken <= |sent| && sent[n] == Stamp(doc)
    case ThenRecheck(item) => item.n + 1 == w.taken <= |sent| && sent[item.n] == Content(item.ev)
    case ThenPatch(item) => item.n + 1 == w.taken <= |sent| && sent[item.n] == Content(item.ev)
    case _ => true
  }

  /** Between tasks the batch is short, pending is its documents, and a stamp does not meet its own document. */
  predicate BatchFits(w: Worker) {
    && w.size >= 1
    && (!w.pc.Upserting? ==> w.pending == DocIds(w.batch))
    && (match w.pc
        case Idle => |w.batch| < w.size
        case Filtering(i, _, _) => i <= |w.batch|
        case Upserting(_, _) => w.batch != []
        case Acting(after) => after != Nothing && after != ThenExit && |w.batch| < w.size &&
            (if after.ThenStamp? then after.doc !in w.pending else w.batch == [])
        case Exited => w.expired || w.batch == [])
  }

  predicate HandFits(w: Worker, sent: seq<Task>) {
    && w.taken <= |sent|
    && (forall k :: 0 <= k < |Hand(w)| ==> Hand(w)[k].n < w.taken && Projects(sent[Hand(w)[k].n], Hand(w)[k].ev))
    && (forall j, k :: 0 <= j < k < |Hand(w)| ==> Hand(w)[j].n < Hand(w)[k].n)
  }

  // ----- The order of the calls -----

  /**
   The call may stand before an Upsert of the event: an event queued earlier; the patch of one; a delete queued
   earlier; a community patch queued earlier, or of another document.
   */
  predicate MayPrecede(op: Op, item: Item) {
    match op
    case Wrote(earlier) => earlier.n < item.n
    case Patched(earlier) => earlier.n < item.n
    case Deleted(n, _) => n < item.n
    case Stamped(n, doc) => TsDocId(item.ev) == Some(doc) ==> n < item.n
  }

  ghost predicate LogOrdered(log: seq<Op>) {
    forall i, j :: 0 <= i < j < |log| && log[j].Wrote? ==> MayPrecede(log[i], log[j].item)
  }

  predicate Follows(log: seq<Op>, item: Item) {
    forall i :: 0 <= i < |log| ==> MayPrecede(log[i], item)
  }

  predicate HandFollows(w: Worker) {
    forall k :: 0 <= k < |Hand(w)| ==> Follows(w.log, Hand(w)[k])
  }

  /** Every call is about a task that was taken. */
  predicate OpFits(op: Op, taken: nat, sent: seq<Task>) {
    match op
    case Wrote(item) => item.n < taken <= |sent| && Projects(sent[item.n], item.ev)
    case Patched(item) => item.n < taken <= |sent| && sent[item.n] == Content(item.ev)
    case Deleted(n, id) => n < taken <= |sent| && sent[n] == Delete(id)
    case Stamped(n, doc) => n < taken <= |sent| && sent[n] == Stamp(doc)
  }

  predicate LogFits(w: Worker, sent: seq<Task>) {
    forall i :: 0 <= i < |w.log| ==> OpFits(w.log[i], w.taken, sent)
  }

  ghost predicate OrderInv(w: Worker, sent: seq<Task>) {
    AfterFits(w, sent) && BatchFits(w) && HandFits(w, sent) && LogFits(w, sent) && LogOrdered(w.log) && HandFollows(w)
  }

  // ----- Steps of the worker keep the order -----

  /** The hand and the log are as they were. */
  lemma SameHand(w: Worker, v: Worker, sent: seq<Task>)
    requires HandFits(w, sent) && LogFits(w, sent) && HandFollows(w)
    requires Hand(v) == Hand(w) && v.log == w.log && v.taken == w.taken
    ensures HandFits(v, sent) && LogFits(v, sent) && HandFollows(v)
  {
    hide Hand, Follows, OpFits;
  }

  lemma NoDocs()
    ensures DocIds([]) == {}
  {
  }

  lemma Fresh(w: Worker, sent: seq<Task>, item: Item)
    requires LogFits(w, sent) && item.n == w.taken
    ensures Follows(w.log, item)
  {
  }

  lemma AddKeeps(w: Worker, sent: seq<Task>, ev: Event, v: Worker)
    requires OrderInv(w, sent) && w.pc == Idle && w.taken < |sent| && Projects(sent[w.taken], ev)
    requires v == Added(w.(taken := w.taken + 1), Item(w.taken, ev))
    ensures HandFits(v, sent) && LogFits(v, sent) && HandFollows(v) && v.pending == DocIds(v.batch)
  {
    hide MayPrecede, TsDocId;
    Fresh(w, sent, Item(w.taken, ev));
    assert forall k :: 0 <= k < |w.batch| ==> Hand(v)[k] == Hand(w)[k];
    assert DocIds(v.batch) == DocIds(w.batch) + NewIds(ev);
  }

  lemma TakenFits(w: Worker, sent: seq<Task>)
    requires OrderInv(w, sent) && w.pc == Idle && w.taken < |sent|
    ensures var v := w.(taken := w.taken + 1); HandFits(v, sent) && LogFits(v, sent) && HandFollows(v)
  {
    hide LogOrdered, MayPrecede, DocIds, Follows;
    assert Hand(w.(taken := w.taken + 1)) == Hand(w);
  }

  lemma TakeKeeps(w: Worker, sent: seq<Task>)
    requires OrderInv(w, sent) && w.pc == Idle && w.taken < |sent|
    ensures OrderInv(Taken(w, sent[w.taken]), sent)
  {
    hide LogOrdered, MayPrecede, DocIds, Follows, HandFollows, HandFits, LogFits, NewIds;
    var v := w.(taken := w.taken + 1);
    TakenFits(w, sent);
    var t := Taken(w, sent[w.taken]);
    if w.expired {
      SameHand(v, t, sent);
    } else {
      match sent[w.taken]
      case Delete(_) => assert Hand(t) == w.batch; SameHand(v, t, sent);
      case Stamp(_) => assert Hand(t) == w.batch; SameHand(v, t, sent);
      case Content(ev) =>
        var u := Added(v, Item(w.taken, ev));
        AddKeeps(w, sent, ev, u);
        assert Hand(t) == t.batch;
        SameHand(u, t, sent);
      case Project(ev) =>
        var u := Added(v, Item(w.taken, ev));
        AddKeeps(w, sent, ev, u);
        assert Hand(t) == t.batch;
        SameHand(u, t, sent);
    }
  }

  /** A flush begins. */
  lemma FlushKeeps(w: Worker, sent: seq<Task>, after: After)
    requires OrderInv(w, sent) && w.pc == Idle && (after == Nothing || after == ThenExit)
    ensures OrderInv(w.(pc := Filtering(0, [], after)), sent)
  {
    hide LogOrdered, MayPrecede, DocIds, HandFits, HandFollows, LogFits;
    var t := w.(pc := Filtering(0, [], after));
    assert Hand(t) == w.batch;
    SameHand(w, t, sent);
  }

  lemma CheckKeeps(w: Worker, sent: seq<Task>, blocked: bool)
    requires OrderInv(w, sent) && w.pc.Filtering? && w.pc.i < |w.batch|
    ensures OrderInv(Checked(w, blocked), sent)
  {
    hide LogOrdered, MayPrecede, DocIds, Follows;
    var t := Checked(w, blocked);
    var i, kept := w.pc.i, w.pc.kept;
    assert Hand(w) == kept + [w.batch[i]] + w.batch[i + 1..];
    if blocked {
      assert forall k :: 0 <= k < |kept| ==> Hand(t)[k] == Hand(w)[k];
      assert forall k :: |kept| <= k < |Hand(t)| ==> Hand(t)[k] == Hand(w)[k + 1];
    } else {
      assert Hand(t) == Hand(w);
    }
  }

  /** The Upsert call takes the hand as the log and the queue order allow. */
  lemma CallsOrdered(log: seq<Op>, kept: seq<Item>)
    requires LogOrdered(log) && forall k :: 0 <= k < |kept| ==> Follows(log, kept[k])
    requires forall j, k :: 0 <= j < k < |kept| ==> kept[j].n < kept[k].n
    ensures LogOrdered(log + Calls(kept))
  {
    var n, more := |log|, log + Calls(kept);
    forall i, j | 0 <= i < j < |more| && more[j].Wrote? ensures MayPrecede(more[i], more[j].item) {
      if j < n {
        assert more[j] == log[j] && more[i] == log[i];
      } else {
        assert more[j] == Wrote(kept[j - n]) && Follows(log, kept[j - n]);
        assert if i < n then more[i] == log[i] else more[i] == Wrote(kept[i - n]);
      }
    }
  }

  lemma CallsFit(w: Worker, sent: seq<Task>, kept: seq<Item>)
    requires LogFits(w, sent)
    requires forall k :: 0 <= k < |kept| ==> OpFits(Wrote(kept[k]), w.taken, sent)
    ensures LogFits(w.(log := w.log + Calls(kept)), sent)
  {
    hide OpFits;
    var n, more := |w.log|, w.log + Calls(kept);
    forall i | 0 <= i < |more| ensures OpFits(more[i], w.taken, sent) {
      assert if i < n then more[i] == w.log[i] else more[i] == Wrote(kept[i - n]);
    }
  }

  lemma FilterKeeps(w: Worker, sent: seq<Task>)
    requires OrderInv(w, sent) && w.pc.Filtering? && w.pc.i == |w.batch|
    ensures OrderInv(Filtered(w), sent)
  {
    hide DocIds, LogOrdered, Follows, LogFits, Calls;
    NoDocs();
    var kept := w.pc.kept;
    assert Hand(w) == kept;
    CallsOrdered(w.log, kept);
    CallsFit(w, sent, kept);
    SameLog(w.(log := w.log + Calls(kept)), Filtered(w), sent);
    SameLog(w, Filtered(w), sent);
  }

  lemma SameLog(w: Worker, v: Worker, sent: seq<Task>)
    requires LogFits(w, sent) && v.taken == w.taken
    ensures v.log == w.log ==> LogFits(v, sent)
  {
    hide OpFits;
  }

  lemma UpsertKeeps(w: Worker, sent: seq<Task>, retry: bool)
    requires OrderInv(w, sent) && w.pc.Upserting?
    ensures OrderInv(Upserted(w, retry), sent)
  {
    hide LogOrdered, MayPrecede, Follows, DocIds;
    NoDocs();
  }

  /** A delete, a community patch or a content patch: nothing in hand is one it must come after. */
  lemma ActKeeps(w: Worker, sent: seq<Task>, op: Op)
    requires OrderInv(w, sent) && w.pc.Acting?
    requires match w.pc.after
             case ThenDelete(n, id) => op == Deleted(n, id)
             case ThenStamp(n, doc) => op == Stamped(n, doc)
             case ThenPatch(item) => op == Patched(item)
             case _ => false
    ensures OrderInv(w.(pc := Idle, log := w.log + [op]), sent)
  {
    var t := w.(pc := Idle, log := w.log + [op]);
    assert Hand(t) == Hand(w) == w.batch;
    forall k | 0 <= k < |Hand(t)| ensures MayPrecede(op, Hand(t)[k]) {
      assert w.batch[k] in w.batch;
    }
    assert forall i :: 0 <= i < |w.log| ==> t.log[i] == w.log[i];
  }

  lemma RecheckKeeps(w: Worker, sent: seq<Task>, blocked: bool)
    requires OrderInv(w, sent) && w.pc.Acting? && w.pc.after.ThenRecheck?
    ensures OrderInv(Rechecked(w, blocked), sent)
  {
    hide LogOrdered, MayPrecede, DocIds, Follows;
  }

  lemma WorkKeepsOrder(w: Worker, sent: seq<Task>, done: bool, refused: bool, a: Act)
    requires OrderInv(w, sent) && ActEnabled(w, |sent|, done, a)
    ensures OrderInv(Acted(w, sent, done, refused, a), sent)
  {
    hide LogOrdered, MayPrecede, DocIds, Follows, Taken, Checked, Filtered, Upserted, Rechecked;
    match a
    case Take => TakeKeeps(w, sent);
    case Tick => FlushKeeps(w, sent, Nothing);
    case SeeDone => SameHand(w, w.(draining := true), sent);
    case DrainEmpty => FlushKeeps(w, sent, ThenExit);
    case CheckItem => CheckKeeps(w, sent, refused);
    case EndFilter => FilterKeeps(w, sent);
    case Upsert(_, retry) => UpsertKeeps(w, sent, retry);
    case DeleteDocs(_) => ActKeeps(w, sent, Deleted(w.pc.after.n, w.pc.after.id));
    case StampDoc => ActKeeps(w, sent, Stamped(w.pc.after.n, w.pc.after.doc));
    case Recheck => RecheckKeeps(w, sent, refused);
    case Patch => ActKeeps(w, sent, Patched(w.pc.after.item));
    case Expire => SameHand(w, w.(expired := true), sent);
    case GiveUp => SameHand(w, w.(pc := Exited), sent);
  }

  lemma SendKeepsOrder(w: Worker, sent: seq<Task>, task: Task)
    requires OrderInv(w, sent)
    ensures OrderInv(w, sent + [task])
  {
    hide LogOrdered, MayPrecede, DocIds, Follows, BatchFits;
    assert forall n :: 0 <= n < |sent| ==> (sent + [task])[n] == sent[n];
  }

  lemma StepKeepsOrder(s: State, step: Step)
    requires Enabled(s, step) && OrderInv(s.w, s.sent)
    ensures OrderInv(Next(s, step).w, Next(s, step).sent)
  {
    hide OrderInv, Acted, Gate.Blocked, RecordedGate, Land, Without, Apply, ActEnabled;
    match step
    case Work(a) => WorkKeepsOrder(s.w, s.sent, s.done, Refused(s.gate, s.w, a), a);
    case Send(c) => SendKeepsOrder(s.w, s.sent, TaskOf(s.clients[c].job));
    case _ =>
  }

  lemma {:induction false} RunKeepsOrder(s: State, steps: seq<Step>, t: State)
    requires OrderInv(s.w, s.sent) && Leads(s, steps, t)
    ensures OrderInv(t.w, t.sent)
    decreases |steps|
  {
    hide OrderInv, Next, Enabled;
    if steps != [] {
      StepKeepsOrder(s, steps[0]);
      RunKeepsOrder(Next(s, steps[0]), steps[1..], t);
    }
  }

  lemma InitOrdered(s: State)
    requires Init(s)
    ensures OrderInv(s.w, s.sent)
  {
  }

  /**
   In every run: the Upsert calls take the events in queue order, each at most once; no event is upserted after
   a delete or a content patch that was queued later, or a community patch of its document that was; and between
   tasks the batch is shorter than batchSize with pending its document ids.
   */
  lemma LogDiscipline(s: State, steps: seq<Step>, t: State)
    requires Init(s) && Leads(s, steps, t)
    ensures forall i, j :: 0 <= i < j < |t.w.log| && t.w.log[i].Wrote? && t.w.log[j].Wrote? ==>
              t.w.log[i].item.n < t.w.log[j].item.n
    ensures forall i, j :: 0 <= i < j < |t.w.log| && t.w.log[i].Deleted? && t.w.log[j].Wrote? ==>
              t.w.log[i].n < t.w.log[j].item.n
    ensures forall i, j :: 0 <= i < j < |t.w.log| && t.w.log[i].Patched? && t.w.log[j].Wrote? ==>
              t.w.log[i].item.n < t.w.log[j].item.n
    ensures forall i, j :: 0 <= i < j < |t.w.log| && t.w.log[i].Stamped? && t.w.log[j].Wrote? ==>
              (TsDocId(t.w.log[j].item.ev) == Some(t.w.log[i].doc) ==> t.w.log[i].n < t.w.log[j].item.n)
    ensures t.w.pc == Idle ==> |t.w.batch| < t.w.size && t.w.pending == DocIds(t.w.batch)
  {
    InitOrdered(s);
    RunKeepsOrder(s, steps, t);
    assert LogOrdered(t.w.log);
    assert forall i, j :: 0 <= i < j < |t.w.log| && t.w.log[j].Wrote? ==> MayPrecede(t.w.log[i], t.w.log[j].item);
  }
}
