/**
 Buffered Bolt writes racing with bans and deletions (bolt_buffer.go, purge.go), as a machine whose steps are
 the single reads and writes of the gate and of Bolt, in any interleaving.
 */
module BoltRace {
  import opened Text
  import opened Nostr
  import opened Gate
  import opened Purge

  const MAX_ATTEMPTS := 5

  /** Where a buffered write is: about to check the gate, to write, to check again, to delete what it wrote. */
  datatype WriterPc = Check | Write | Recheck | Heal | Finished

  datatype Writer = Writer(ev: Event, replace: bool, attempt: nat, pc: WriterPc)

  datatype Task = BanTask(id: Hex32) | AuthorTask(id: Hex32) | CoordTask(c: Coord, del: Event)

  /**
   Where a purge is. An id task records, then deletes; a coordinate task marks, looks up, then marks and deletes
   each target.
   */
  datatype PurgerPc = Record | Delete | Lookup | Targets(todo: set<Hex32>) | DeleteTarget(id: Hex32,
        todo: set<Hex32>) | Done

  datatype Purger = Purger(task: Task, pc: PurgerPc)

  /** overflow: some lookup met more matching rows than BOLT_LIMIT. */
  datatype State = State(rows: map<Hex32, Event>, gate: Gate, writers: seq<Writer>, purgers: seq<Purger>,
                         overflow: bool)

  /**
   What one SaveEvent or ReplaceEvent does: stores the event, removing older versions; finds a newer version
   and does nothing; finds the event there; refuses for good; fails for now.
   */
  datatype Outcome = Stored(removed: set<Hex32>) | KeptNewer | Duplicate | Rejected | Transient

  datatype Step =
    | Queue(ev: Event, replace: bool)
    | StartPurge(task: Task)
    | CheckGate(w: nat)
    | WriteRow(w: nat, outcome: Outcome)
    | CheckAgain(w: nat)
    | HealRow(w: nat)
    | RecordTask(p: nat)
    | DeleteTask(p: nat)
    | LookUp(p: nat, found: set<Hex32>)
    | MarkTarget(p: nat, id: Hex32)
    | DeleteTargetRow(p: nat)
    | FinishTargets(p: nat)
    | Operator(action: Action)

  /** The operator bans and allows public keys and lifts event bans at any time; event bans go through a purge. */
  predicate IsOperator(a: Action) {
    a.BanPubkey? || a.AllowPubkey? || a.AllowEvent?
  }

  function MatchingRows(s: State, c: Coord, del: Event): set<Hex32> {
    set id | id in s.rows && Selected(c, del, s.rows[id])
  }

  predicate WriterAt(s: State, w: nat, pc: WriterPc) {
    w < |s.writers| && s.writers[w].pc == pc
  }

  predicate Enabled(s: State, step: Step) {
    match step
    case Queue(_, _) => true
    case StartPurge(task) => task.CoordTask? ==> WellFormed(task.c)
    case CheckGate(w) => WriterAt(s, w, Check)
    case WriteRow(w, outcome) =>
      && WriterAt(s, w, Write)
      && (outcome.Stored? ==> s.writers[w].ev.id !in outcome.removed)
      && (outcome.Duplicate? ==> s.writers[w].ev.id in s.rows)
    case CheckAgain(w) => WriterAt(s, w, Recheck)
    case HealRow(w) => WriterAt(s, w, Heal)
    case RecordTask(p) => p < |s.purgers| && s.purgers[p].pc == Record
    case DeleteTask(p) => p < |s.purgers| && s.purgers[p].pc == Delete && !s.purgers[p].task.CoordTask?
    case LookUp(p, found) =>
      && p < |s.purgers| && s.purgers[p].pc == Lookup && s.purgers[p].task.CoordTask?
      && (|MatchingRows(s, s.purgers[p].task.c, s.purgers[p].task.del)| <= BOLT_LIMIT ==>
            MatchingRows(s, s.purgers[p].task.c, s.purgers[p].task.del) <= found)
    case MarkTarget(p, id) => p < |s.purgers| && s.purgers[p].pc.Targets? && id in s.purgers[p].pc.todo
    case DeleteTargetRow(p) => p < |s.purgers| && s.purgers[p].pc.DeleteTarget?
    case FinishTargets(p) => p < |s.purgers| && s.purgers[p].pc == Targets({})
    case Operator(action) => IsOperator(action)
  }

  function AtWriter(s: State, w: nat, pc: WriterPc): State
    requires w < |s.writers|
  {
    s.(writers := s.writers[w := s.writers[w].(pc := pc)])
  }

  function AtPurger(s: State, p: nat, pc: PurgerPc): State
    requires p < |s.purgers|
  {
    s.(purgers := s.purgers[p := s.purgers[p].(pc := pc)])
  }

  function RecordedGate(g: Gate, task: Task): Gate {
    match task
    case BanTask(id) => g.(bannedIds := g.bannedIds + {id})
    case AuthorTask(id) => g.(deletedIds := g.deletedIds + {id})
    case CoordTask(c, del) => g.MarkCoord(CoordString(c), del.createdAt)
  }

  function Next(s: State, step: Step): State
    requires Enabled(s, step)
  {
    match step
    case Queue(ev, replace) => s.(writers := s.writers + [Writer(ev, replace, 0, Check)])
    case StartPurge(task) => s.(purgers := s.purgers + [Purger(task, Record)])
    case CheckGate(w) =>
      if s.writers[w].attempt >= MAX_ATTEMPTS || s.gate.Blocked(s.writers[w].ev) then AtWriter(s, w,
            Finished) else AtWriter(s, w, Write)
    case WriteRow(w, outcome) =>
      var ev := s.writers[w].ev;
      (match outcome
       case Stored(removed) => AtWriter(s.(rows := (s.rows - removed)[ev.id := ev]), w, Recheck)
       case KeptNewer => AtWriter(s, w, Recheck)
       case Duplicate => AtWriter(s, w, Recheck)
       case Rejected => AtWriter(s, w, Finished)
       case Transient => s.(writers := s.writers[w := s.writers[w].(pc := Check, attempt := s.writers[w].attempt + 1)]))
    case CheckAgain(w) => AtWriter(s, w, if s.gate.Blocked(s.writers[w].ev) then Heal else Finished)
    case HealRow(w) => AtWriter(s.(rows := s.rows - {s.writers[w].ev.id}), w, Finished)
    case RecordTask(p) =>
      AtPurger(s.(gate := RecordedGate(s.gate, s.purgers[p].task)), p,
               if s.purgers[p].task.CoordTask? then Lookup else Delete)
    case DeleteTask(p) => AtPurger(s.(rows := s.rows - {s.purgers[p].task.id}), p, Done)
    case LookUp(p, found) =>
      var matching := MatchingRows(s, s.purgers[p].task.c, s.purgers[p].task.del);
      AtPurger(s.(overflow := s.overflow || |matching| > BOLT_LIMIT), p, Targets(found))
    case MarkTarget(p, id) =>
      AtPurger(s.(gate := s.gate.(deletedIds := s.gate.deletedIds + {id})), p,
               DeleteTarget(id, s.purgers[p].pc.todo - {id}))
    case DeleteTargetRow(p) => AtPurger(s.(rows := s.rows - {s.purgers[p].pc.id}), p, Targets(s.purgers[p].pc.todo))
    case FinishTargets(p) => AtPurger(s, p, Done)
    case Operator(action) => s.(gate := Apply(s.gate, action))
  }

  // ----- The invariant -----

  /**
   byId: the id is banned or deleted. Otherwise: the coordinate was deleted up to the event, and lookups can find
   it.
   */
  ghost predicate Due(s: State, ev: Event, byId: bool) {
    if byId then ev.id in s.gate.bannedIds || ev.id in s.gate.deletedIds
    else !s.overflow && s.gate.Tombstoned(ev) && Findable(ev)
  }

  /** A write of the event that will still look at the gate. */
  ghost predicate WillRecheck(w: Writer, ev: Event) {
    w.ev == ev && (w.pc == Recheck || w.pc == Heal)
  }

  /** A purge that will still delete the event; what a lookup will find does not count for an id. */
  ghost predicate WillDelete(p: Purger, ev: Event, byId: bool) {
    match p.pc
    case Record => false
    case Delete => !p.task.CoordTask? && p.task.id == ev.id
    case Lookup => !byId && p.task.CoordTask? && Selected(p.task.c, p.task.del, ev)
    case Targets(todo) => ev.id in todo
    case DeleteTarget(id, todo) => ev.id == id || ev.id in todo
    case Done => false
  }

  ghost predicate Covered(s: State, ev: Event, byId: bool) {
    || (exists w :: 0 <= w < |s.writers| && WillRecheck(s.writers[w], ev))
    || (exists p :: 0 <= p < |s.purgers| && WillDelete(s.purgers[p], ev, byId))
  }

  ghost predicate CoordsWellFormed(s: State) {
    forall p :: 0 <= p < |s.purgers| && s.purgers[p].task.CoordTask? ==> WellFormed(s.purgers[p].task.c)
  }

  ghost predicate RowsNamed(s: State) {
    forall id :: id in s.rows ==> s.rows[id].id == id
  }

  /** Every row that must not stay has somebody on the way to remove it. */
  ghost predicate Inv(s: State) {
    && RowsNamed(s) && CoordsWellFormed(s)
    && forall id, byId :: id in s.rows && Due(s, s.rows[id], byId) ==> Covered(s, s.rows[id], byId)
  }

  lemma DueIsBlocked(s: State, ev: Event, byId: bool)
    requires Due(s, ev, byId)
    ensures s.gate.Blocked(ev)
  {
    hide EventCoord, CoordString, Findable;
  }

  // ----- Every step keeps it -----

  /** Whoever covered ev in s and was not moved covers it in s'. */
  lemma StillCovered(s: State, s': State, ev: Event, byId: bool)
    requires Covered(s, ev, byId)
    requires forall w :: 0 <= w < |s.writers| && WillRecheck(s.writers[w], ev) ==>
              w < |s'.writers| && WillRecheck(s'.writers[w], ev)
    requires forall p :: 0 <= p < |s.purgers| && WillDelete(s.purgers[p], ev, byId) ==>
              p < |s'.purgers| && WillDelete(s'.purgers[p], ev, byId)
    ensures Covered(s', ev, byId)
  {
    hide WillRecheck, WillDelete;
    if w :| 0 <= w < |s.writers| && WillRecheck(s.writers[w], ev) {
      assert WillRecheck(s'.writers[w], ev);
    } else {
      var p :| 0 <= p < |s.purgers| && WillDelete(s.purgers[p], ev, byId);
      assert WillDelete(s'.purgers[p], ev, byId);
    }
  }

  lemma SameDue(s: State, s': State, ev: Event, byId: bool)
    requires s.gate == s'.gate && s.overflow == s'.overflow
    ensures Due(s, ev, byId) <==> Due(s', ev, byId)
  {
    hide Gate.Tombstoned, Findable;
  }

  lemma StartKeeps(s: State, step: Step)
    requires Inv(s) && (step.Queue? || step.StartPurge?) && Enabled(s, step)
    ensures Inv(Next(s, step))
  {
    hide Due, WillDelete, WillRecheck, WellFormed;
    var s' := Next(s, step);
    forall id, byId | id in s'.rows && Due(s', s'.rows[id], byId) ensures Covered(s', s'.rows[id], byId) {
      SameDue(s, s', s.rows[id], byId);
      StillCovered(s, s', s.rows[id], byId);
    }
  }

  /** A write or a re-check: its own row is covered by itself, other rows by whoever covered them. */
  lemma WriterKeeps(s: State, step: Step)
    requires Inv(s) && (step.CheckGate? || step.WriteRow? || step.CheckAgain? || step.HealRow?) && Enabled(s, step)
    ensures Inv(Next(s, step))
  {
    hide Due, WillDelete, Gate.Blocked, WellFormed;
    var s' := Next(s, step);
    forall id, byId | id in s'.rows && Due(s', s'.rows[id], byId) ensures Covered(s', s'.rows[id], byId) {
      var row := s'.rows[id];
      SameDue(s, s', row, byId);
      DueIsBlocked(s, row, byId);
      if WillRecheck(s'.writers[step.w], row) {
      } else {
        assert id in s.rows && s.rows[id] == row;
        StillCovered(s, s', row, byId);
      }
    }
  }

  /** Recording a ban, a deletion or a tombstone: what becomes due is what this purge will delete. */
  lemma RecordKeeps(s: State, p: nat)
    requires Inv(s) && Enabled(s, RecordTask(p))
    ensures Inv(Next(s, RecordTask(p)))
  {
    hide Due, WillRecheck, Selected, RecordedGate, WellFormed;
    var s' := Next(s, RecordTask(p));
    forall id, byId | id in s'.rows && Due(s', s'.rows[id], byId) ensures Covered(s', s'.rows[id], byId) {
      var row := s'.rows[id];
      NewlyDue(s, s', s.purgers[p].task, row, byId);
      if Due(s, row, byId) {
        StillCovered(s, s', row, byId);
      } else {
        assert WillDelete(s'.purgers[p], row, byId);
      }
    }
  }

  lemma NewlyDue(s: State, s': State, task: Task, ev: Event, byId: bool)
    requires s'.gate == RecordedGate(s.gate, task) && s'.overflow == s.overflow && Due(s', ev, byId)
    requires task.CoordTask? ==> WellFormed(task.c)
    ensures Due(s, ev, byId) || (if task.CoordTask? then !byId && Selected(task.c, task.del, ev) else task.id == ev.id)
  {
    hide CoordString, Findable, Selected, EventCoord, WellFormed;
    if task.CoordTask? {
      SelectedMeans(task.c, task.del, ev);
      EventCoordWellFormed(ev);
      if EventCoord(ev).Some? && CoordString(EventCoord(ev).value) == CoordString(task.c) {
        CoordStringInjective(EventCoord(ev).value, task.c);
      }
    }
  }

  lemma DeleteKeeps(s: State, step: Step)
    requires Inv(s) && (step.DeleteTask? || step.DeleteTargetRow? || step.FinishTargets?) && Enabled(s, step)
    ensures Inv(Next(s, step))
  {
    hide Due, WillRecheck, Selected, WellFormed;
    var s' := Next(s, step);
    forall id, byId | id in s'.rows && Due(s', s'.rows[id], byId) ensures Covered(s', s'.rows[id], byId) {
      SameDue(s, s', s.rows[id], byId);
      StillCovered(s, s', s.rows[id], byId);
    }
  }

  lemma MarkKeeps(s: State, p: nat, target: Hex32)
    requires Inv(s) && Enabled(s, MarkTarget(p, target))
    ensures Inv(Next(s, MarkTarget(p, target)))
  {
    hide WillRecheck, Selected, WellFormed, EventCoord, CoordString, Findable;
    var s' := Next(s, MarkTarget(p, target));
    forall id, byId | id in s'.rows && Due(s', s'.rows[id], byId) ensures Covered(s', s'.rows[id], byId) {
      if id == target {
        assert WillDelete(s'.purgers[p], s'.rows[id], byId);
      } else {
        assert Due(s, s.rows[id], byId);
        StillCovered(s, s', s.rows[id], byId);
      }
    }
  }

  lemma LookUpKeeps(s: State, p: nat, found: set<Hex32>)
    requires Inv(s) && Enabled(s, LookUp(p, found))
    ensures Inv(Next(s, LookUp(p, found)))
  {
    hide WillRecheck, Selected, Gate.Tombstoned, Findable, WellFormed;
    var s' := Next(s, LookUp(p, found));
    var task := s.purgers[p].task;
    forall id, byId | id in s'.rows && Due(s', s'.rows[id], byId) ensures Covered(s', s'.rows[id], byId) {
      var row := s.rows[id];
      assert Due(s, row, byId);
      if !byId {
        assert Selected(task.c, task.del, row) ==> id in MatchingRows(s, task.c, task.del);
      }
      StillCovered(s, s', row, byId);
    }
  }

  /** Public-key bans and lifted bans make nothing due. */
  lemma OperatorKeeps(s: State, a: Action)
    requires Inv(s) && Enabled(s, Operator(a))
    ensures Inv(Next(s, Operator(a)))
  {
    hide WillRecheck, WillDelete, EventCoord, CoordString, Findable, WellFormed;
    var s' := Next(s, Operator(a));
    forall id, byId | id in s'.rows && Due(s', s'.rows[id], byId) ensures Covered(s', s'.rows[id], byId) {
      assert Due(s, s.rows[id], byId);
      StillCovered(s, s', s.rows[id], byId);
    }
  }

  lemma StepKeeps(s: State, step: Step)
    requires Inv(s) && Enabled(s, step)
    ensures Inv(Next(s, step))
  {
    hide Inv, Next, Enabled;
    match step
    case Queue(_, _) => StartKeeps(s, step);
    case StartPurge(_) => StartKeeps(s, step);
    case CheckGate(_) => WriterKeeps(s, step);
    case WriteRow(_, _) => WriterKeeps(s, step);
    case CheckAgain(_) => WriterKeeps(s, step);
    case HealRow(_) => WriterKeeps(s, step);
    case RecordTask(p) => RecordKeeps(s, p);
    case DeleteTask(_) => DeleteKeeps(s, step);
    case LookUp(p, found) => LookUpKeeps(s, p, found);
    case MarkTarget(p, id) => MarkKeeps(s, p, id);
    case DeleteTargetRow(_) => DeleteKeeps(s, step);
    case FinishTargets(_) => DeleteKeeps(s, step);
    case Operator(action) => OperatorKeeps(s, action);
  }

  // ----- Runs -----

  /** A run: these steps lead from s to t. */
  ghost predicate Leads(s: State, steps: seq<Step>, t: State)
    decreases |steps|
  {
    if steps == [] then s == t else Enabled(s, steps[0]) && Leads(Next(s, steps[0]), steps[1..], t)
  }

  lemma {:induction false} LeadsAppend(s: State, steps: seq<Step>, t: State, step: Step)
    requires Leads(s, steps, t) && Enabled(t, step)
    ensures Leads(s, steps + [step], Next(t, step))
    decreases |steps|
  {
    hide Next, Enabled;
    if steps == [] {
      assert [step][1..] == [];
    } else {
      assert (steps + [step])[1..] == steps[1..] + [step];
      LeadsAppend(Next(s, steps[0]), steps[1..], t, step);
    }
  }

  /** Nothing in flight yet, and nothing in Bolt that must not be there. */
  ghost predicate Start(s: State) {
    s.writers == [] && s.purgers == [] && RowsNamed(s) && forall id, byId :: id in s.rows ==> !Due(s, s.rows[id], byId)
  }

  lemma {:induction false} RunKeeps(s: State, steps: seq<Step>, t: State)
    requires Inv(s) && Leads(s, steps, t)
    ensures Inv(t)
    decreases |steps|
  {
    hide Inv, Next, Enabled;
    if steps != [] {
      StepKeeps(s, steps[0]);
      RunKeeps(Next(s, steps[0]), steps[1..], t);
    }
  }

  ghost predicate AllFinished(s: State) {
    && (forall w :: 0 <= w < |s.writers| ==> s.writers[w].pc == Finished)
    && (forall p :: 0 <= p < |s.purgers| ==> s.purgers[p].pc == Done)
  }

  /**
   In every interleaving of any number of writes, bans, deletions and lifted bans: an event nobody is still
   about to re-check or delete is not in Bolt if its id is banned or deleted, nor, if no lookup overflowed and
   lookups can find it, if its coordinate was deleted up to its time.
   */
  lemma NoResurrection(s: State, steps: seq<Step>, t: State, ev: Event, byId: bool)
    requires Start(s) && Leads(s, steps, t)
    requires !Covered(t, ev, byId) && Due(t, ev, byId)
    ensures !(ev.id in t.rows && t.rows[ev.id] == ev)
  {
    hide Due, Covered, Enabled, Next;
    RunKeeps(s, steps, t);
  }

  /** Once everything has finished no row of Bolt is due. */
  lemma NothingDueWhenFinished(s: State, steps: seq<Step>, t: State, id: Hex32)
    requires Start(s) && Leads(s, steps, t) && AllFinished(t) && id in t.rows
    ensures id !in t.gate.bannedIds && id !in t.gate.deletedIds
    ensures !t.overflow && Findable(t.rows[id]) ==> !t.gate.Tombstoned(t.rows[id])
  {
    hide Enabled, Next, Findable, Gate.Tombstoned;
    RunKeeps(s, steps, t);
    assert RowsNamed(t);
    assert !Due(t, t.rows[id], true) && !Due(t, t.rows[id], false);
  }
}
