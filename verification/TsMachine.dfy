/**
 The search-index write buffer (buffer.go) with everything that races it: producers, bans and deletions
 (purge.go), Close, and the gate. A machine whose steps are the single reads and writes, in any interleaving.
 */
module TsMachine {
  import opened Wrappers
  import opened Text
  import opened Nostr
  import opened Gate
  import opened Projection

  const MAX_RETRIES := 5

  datatype Task = Project(ev: Event) | Content(ev: Event) | Stamp(doc: string) | Delete(id: Hex32)

  /** A queued event and the position of its task in the queue. */
  datatype Item = Item(n: nat, ev: Event)

  /** What a flush was made for, and is followed by. */
  datatype After =
    | Nothing
    | ThenDelete(n: nat, id: Hex32)
    | ThenStamp(n: nat, doc: string)
    | ThenRecheck(item: Item)
    | ThenPatch(item: Item)
    | ThenExit

  /**
   Where the worker is: at the head of its loop; checking batch[i..], with kept the survivors so far; inside
   Upsert with the batch; past the flush; gone.
   */
  datatype Pc = Idle | Filtering(i: nat, kept: seq<Item>, after: After) | Upserting(attempt: nat,
        after: After) | Acting(after: After) | Exited

  /** The calls made on the writer. Wrote stands for the event's place in one Upsert call. */
  datatype Op = Wrote(item: Item) | Patched(item: Item) | Stamped(n: nat, doc: string) | Deleted(n: nat, id: Hex32)

  /** dropped: the positions whose event the gate blocked when it was about to be written or patched. */
  datatype Worker = Worker(
    size: nat, taken: nat, batch: seq<Item>, pending: set<string>, pc: Pc, draining: bool, expired: bool,
    dropped: set<nat>, log: seq<Op>)

  /** A goroutine that queues one task, or purges one id: a ban, or an author deletion. */
  datatype Job = Enqueue(task: Task) | Ban(id: Hex32) | AuthorDelete(id: Hex32)

  datatype ClientPc = Record | DeleteNow | ReadFlag | Sending | Returned

  datatype Client = Client(job: Job, pc: ClientPc)

  datatype DocKey = Named(id: string) | Assigned(n: nat)

  /**
   sent: what the channel took, in order; sent[w.taken..] is what it holds. senders: who sent
   them. marked: |sent| when closed was stored; raced: who was past the flag then. lifted: the bans that were lifted.
   failed: ids whose queued delete failed or never ran.
   */
  datatype State = State(
    sent: seq<Task>, senders: seq<nat>, clients: seq<Client>,
    closed: bool, marked: nat, raced: set<nat>, done: bool,
    gate: Gate, lifted: set<Action>, docs: map<DocKey, Event>, failed: set<Hex32>, w: Worker)

  // ----- The worker -----

  datatype Act =
    | Take
    | Tick
    | SeeDone
    | DrainEmpty
    | CheckItem
    | EndFilter
    | Upsert(landed: set<nat>, retry: bool)
    | DeleteDocs(ok: bool)
    | StampDoc
    | Recheck
    | Patch
    | Expire
    | GiveUp

  function DocIds(batch: seq<Item>): set<string> {
    set item | item in batch && TsDocId(item.ev).Some? :: TsDocId(item.ev).value
  }

  function NewIds(ev: Event): set<string> {
    match TsDocId(ev)
    case Some(doc) => {doc}
    case None => {}
  }

  predicate ActEnabled(w: Worker, queued: nat, done: bool, a: Act) {
    match a
    case Take => w.pc == Idle && w.taken < queued
    case Tick => w.pc == Idle && !w.draining
    case SeeDone => w.pc == Idle && done && !w.draining
    case DrainEmpty => w.pc == Idle && w.draining && w.taken == queued
    case CheckItem => w.pc.Filtering? && w.pc.i < |w.batch|
    case EndFilter => w.pc.Filtering? && w.pc.i == |w.batch|
    case Upsert(_, retry) => w.pc.Upserting? && (retry ==> w.pc.attempt < MAX_RETRIES)
    case DeleteDocs(_) => w.pc.Acting? && w.pc.after.ThenDelete?
    case StampDoc => w.pc.Acting? && w.pc.after.ThenStamp?
    case Recheck => w.pc.Acting? && w.pc.after.ThenRecheck?
    case Patch => w.pc.Acting? && w.pc.after.ThenPatch?
    case Expire => w.draining
    case GiveUp => w.pc == Idle && w.draining && w.expired
  }

  function Continue(after: After): Pc {
    match after
    case Nothing => Idle
    case ThenExit => Exited
    case _ => Acting(after)
  }

  function Added(w: Worker, item: Item): Worker {
    w.(batch := w.batch + [item], pending := w.pending + NewIds(item.ev))
  }

  /** process(task). */
  function Begin(w: Worker, n: nat, task: Task): Worker {
    match task
    case Delete(id) => w.(pc := Filtering(0, [], ThenDelete(n, id)))
    case Stamp(doc) => w.(pc := if doc in w.pending then Filtering(0, [],
                                                                   ThenStamp(n, doc)) else Acting(ThenStamp(n, doc)))
    case Content(ev) => Added(w, Item(n, ev)).(pc := Filtering(0, [], ThenRecheck(Item(n, ev))))
    case Project(ev) =>
      var v := Added(w, Item(n, ev));
      v.(pc := if |v.batch| >= w.size then Filtering(0, [], Nothing) else Idle)
  }

  /** A task taken after the deadline is lost: runBounded does not start it. */
  function Taken(w: Worker, task: Task): Worker {
    if w.expired then w.(taken := w.taken + 1, pc := Exited) else Begin(w.(taken := w.taken + 1), w.taken, task)
  }

  function Calls(batch: seq<Item>): seq<Op> {
    seq(|batch|, i requires 0 <= i < |batch| => Wrote(batch[i]))
  }

  function Checked(w: Worker, blocked: bool): Worker
    requires w.pc.Filtering? && w.pc.i < |w.batch|
  {
    var item := w.batch[w.pc.i];
    if blocked then w.(pc := w.pc.(i := w.pc.i + 1), dropped := w.dropped + {item.n})
    else w.(pc := w.pc.(i := w.pc.i + 1, kept := w.pc.kept + [item]))
  }

  function Filtered(w: Worker): Worker
    requires w.pc.Filtering?
  {
    if w.pc.kept == [] then w.(batch := [], pending := {}, pc := Continue(w.pc.after))
    else w.(batch := w.pc.kept, pc := Upserting(0, w.pc.after), log := w.log + Calls(w.pc.kept))
  }

  function Upserted(w: Worker, retry: bool): Worker
    requires w.pc.Upserting?
  {
    if retry then w.(pc := w.pc.(attempt := w.pc.attempt + 1))
    else w.(batch := [], pending := {}, pc := Continue(w.pc.after))
  }

  function Rechecked(w: Worker, blocked: bool): Worker
    requires w.pc.Acting? && w.pc.after.ThenRecheck?
  {
    if blocked then w.(pc := Idle, dropped := w.dropped + {w.pc.after.item.n})
    else w.(pc := Acting(ThenPatch(w.pc.after.item)))
  }

  /** The event whose gate the worker reads in this act. */
  function Examined(w: Worker, a: Act): Option<Event> {
    if a.CheckItem? && w.pc.Filtering? && w.pc.i < |w.batch| then Some(w.batch[w.pc.i].ev)
    else if a.Recheck? && w.pc.Acting? && w.pc.after.ThenRecheck? then Some(w.pc.after.item.ev)
    else None
  }

  predicate Refused(gate: Gate, w: Worker, a: Act) {
    Examined(w, a).Some? && gate.Blocked(Examined(w, a).value)
  }

  function Acted(w: Worker, sent: seq<Task>, done: bool, refused: bool, a: Act): Worker
    requires ActEnabled(w, |sent|, done, a)
  {
    match a
    case Take => Taken(w, sent[w.taken])
    case Tick => w.(pc := Filtering(0, [], Nothing))
    case SeeDone => w.(draining := true)
    case DrainEmpty => w.(pc := Filtering(0, [], ThenExit))
    case CheckItem => Checked(w, refused)
    case EndFilter => Filtered(w)
    case Upsert(_, retry) => Upserted(w, retry)
    case DeleteDocs(_) => w.(pc := Idle, log := w.log + [Deleted(w.pc.after.n, w.pc.after.id)])
    case StampDoc => w.(pc := Idle, log := w.log + [Stamped(w.pc.after.n, w.pc.after.doc)])
    case Recheck => Rechecked(w, refused)
    case Patch => w.(pc := Idle, log := w.log + [Patched(w.pc.after.item)])
    case Expire => w.(expired := true)
    case GiveUp => w.(pc := Exited)
  }

  // ----- The index -----

  /** The document an upsert replaces; without a d tag Typesense makes a new one. */
  function KeyOf(item: Item): DocKey {
    match AmbDedupKey(item.ev)
    case Some(doc) => Named(doc)
    case None => Assigned(item.n)
  }

  /** One bulk upsert of which the given positions land, the later over the earlier. */
  function Land(docs: map<DocKey, Event>, batch: seq<Item>, landed: set<nat>): map<DocKey, Event>
    decreases |batch|
  {
    if batch == [] then docs
    else
      var rest := Land(docs, batch[..|batch| - 1], landed);
      var last := batch[|batch| - 1];
      if last.n in landed then rest[KeyOf(last) := last.ev] else rest
  }

  function Without(docs: map<DocKey, Event>, id: Hex32): map<DocKey, Event> {
    map k | k in docs && docs[k].id != id :: docs[k]
  }

  function DocsAfter(docs: map<DocKey, Event>, w: Worker, a: Act): map<DocKey, Event> {
    match a
    case Upsert(landed, _) => Land(docs, w.batch, landed)
    case DeleteDocs(ok) => if ok && w.pc.Acting? && w.pc.after.ThenDelete? then Without(docs, w.pc.after.id) else docs
    case _ => docs
  }

  /** The delete the act fails to do. */
  function FailedIn(w: Worker, sent: seq<Task>, a: Act): set<Hex32> {
    match a
    case Take => if w.expired && w.taken < |sent| && sent[w.taken].Delete? then {sent[w.taken].id} else {}
    case DeleteDocs(ok) => if !ok && w.pc.Acting? && w.pc.after.ThenDelete? then {w.pc.after.id} else {}
    case _ => {}
  }

  // ----- The machine -----

  datatype Step =
    | Work(act: Act)
    | Start(job: Job)
    | RecordPurge(c: nat, ok: bool)
    | DeleteSync(c: nat, ok: bool)
    | LoadClosed(c: nat)
    | Send(c: nat)
    | StoreClosed
    | CloseDone
    | Operate(action: Action)

  predicate ClientAt(s: State, c: nat, pc: ClientPc) {
    c < |s.clients| && s.clients[c].pc == pc
  }

  /** Event bans and deleted ids go through a purge; everything else may change at any time. */
  predicate IsOperator(a: Action) {
    !a.BanEvent? && !a.DeleteId?
  }

  predicate Enabled(s: State, step: Step) {
    match step
    case Work(a) => ActEnabled(s.w, |s.sent|, s.done, a)
    case Start(_) => true
    case RecordPurge(c, _) => ClientAt(s, c, Record) && !s.clients[c].job.Enqueue?
    case DeleteSync(c, _) => ClientAt(s, c, DeleteNow) && !s.clients[c].job.Enqueue?
    case LoadClosed(c) => ClientAt(s, c, ReadFlag)
    case Send(c) => ClientAt(s, c, Sending)
    case StoreClosed => !s.closed
    case CloseDone => s.closed && !s.done
    case Operate(a) => IsOperator(a)
  }

  function TaskOf(job: Job): Task {
    match job
    case Enqueue(task) => task
    case Ban(id) => Delete(id)
    case AuthorDelete(id) => Delete(id)
  }

  function AtClient(s: State, c: nat, pc: ClientPc): State
    requires c < |s.clients|
  {
    s.(clients := s.clients[c := s.clients[c].(pc := pc)])
  }

  function RecordedGate(g: Gate, job: Job): Gate {
    match job
    case Enqueue(_) => g
    case Ban(id) => g.(bannedIds := g.bannedIds + {id})
    case AuthorDelete(id) => g.(deletedIds := g.deletedIds + {id})
  }

  function Worked(s: State, a: Act): State
    requires ActEnabled(s.w, |s.sent|, s.done, a)
  {
    s.(w := Acted(s.w, s.sent, s.done, Refused(s.gate, s.w, a), a),
       docs := DocsAfter(s.docs, s.w, a),
       failed := s.failed + FailedIn(s.w, s.sent, a))
  }

  /** A ban that cannot be recorded ends there; an author deletion goes on. */
  function Recorded(s: State, c: nat, ok: bool): State
    requires c < |s.clients|
  {
    if ok then AtClient(s.(gate := RecordedGate(s.gate, s.clients[c].job)), c, DeleteNow)
    else AtClient(s, c, if s.clients[c].job.Ban? then Returned else DeleteNow)
  }

  function FlagRead(s: State, c: nat): State
    requires c < |s.clients|
  {
    if s.closed then
      var task := TaskOf(s.clients[c].job);
      AtClient(s, c, Returned).(failed := s.failed + if task.Delete? then {task.id} else {})
    else AtClient(s, c, Sending)
  }

  function Next(s: State, step: Step): State
    requires Enabled(s, step)
  {
    match step
    case Work(a) => Worked(s, a)
    case Start(job) => s.(clients := s.clients + [Client(job, if job.Enqueue? then ReadFlag else Record)])
    case RecordPurge(c, ok) => Recorded(s, c, ok)
    case DeleteSync(c, ok) =>
      AtClient(s.(docs := if ok then Without(s.docs, TaskOf(s.clients[c].job).id) else s.docs), c, ReadFlag)
    case LoadClosed(c) => FlagRead(s, c)
    case Send(c) => AtClient(s.(sent := s.sent + [TaskOf(s.clients[c].job)], senders := s.senders + [c]), c, Returned)
    case StoreClosed =>
      s.(closed := true, marked := |s.sent|, raced := set c: nat | c < |s.clients| && s.clients[c].pc == Sending)
    case CloseDone => s.(done := true)
    case Operate(a) =>
      s.(gate := Apply(s.gate, a), lifted := s.lifted + if a.AllowEvent? || a.AllowPubkey? then {a} else {})
  }

  ghost predicate Leads(s: State, steps: seq<Step>, t: State)
    decreases |steps|
  {
    if steps == [] then s == t else Enabled(s, steps[0]) && Leads(Next(s, steps[0]), steps[1..], t)
  }

  lemma {:induction false} LeadsAppend(s: State, steps: seq<Step>, t: State, step: Step)
    requires Leads(s, steps, t) && Enabled(t, step)
    ensures Leads(s, steps + [step], Next(t, step))
    decreases |steps|
  {
    hide Next, Enabled;
    if steps == [] {
      assert [step][1..] == [];
    } else {
      assert (steps + [step])[1..] == steps[1..] + [step];
      LeadsAppend(Next(s, steps[0]), steps[1..], t, step);
    }
  }

  /** A buffer that was just made, and the index and the gate as they are. */
  ghost predicate Init(s: State) {
    && s.sent == [] && s.senders == [] && s.clients == []
    && !s.closed && s.raced == {} && !s.done && s.lifted == {} && s.failed == {}
    && s.w.size >= 1 && s.w == Worker(s.w.size, 0, [], {}, Idle, false, false, {}, [])
  }

  lemma LandKeeps(docs: map<DocKey, Event>, batch: seq<Item>, landed: set<nat>, k: DocKey)
    requires k in Land(docs, batch, landed)
    ensures (k in docs && Land(docs, batch, landed)[k] == docs[k]) ||
            exists item :: item in batch && item.ev == Land(docs, batch, landed)[k]
    decreases |batch|
  {
    hide KeyOf;
    if batch != [] {
      var front, last := batch[..|batch| - 1], batch[|batch| - 1];
      assert batch == front + [last];
      if last.n in landed && KeyOf(last) == k {
        assert last in batch;
      } else {
        LandKeeps(docs, front, landed, k);
        assert forall item :: item in front ==> item in batch;
      }
    }
  }
}
