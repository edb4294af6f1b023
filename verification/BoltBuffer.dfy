/**
 The worker of bolt_buffer.go and the purges of purge.go as the code runs them, with other goroutines acting
 between any two of their reads and writes. Every access is a step of BoltRace.
 */
module BoltBuffer {
  import opened Gate
  import opened Purge
  import opened BoltRace
  import opened Text

  /** What goroutine the step belongs to. */
  predicate OfWriter(step: Step, w: nat) {
    match step
    case CheckGate(v) => v == w
    case WriteRow(v, _) => v == w
    case CheckAgain(v) => v == w
    case HealRow(v) => v == w
    case _ => false
  }

  predicate OfPurger(step: Step, p: nat) {
    match step
    case RecordTask(q) => q == p
    case DeleteTask(q) => q == p
    case LookUp(q, _) => q == p
    case MarkTarget(q, _) => q == p
    case DeleteTargetRow(q) => q == p
    case FinishTargets(q) => q == p
    case _ => false
  }

  /** Bolt, the gate and all goroutines, with the steps taken since origin. */
  class World {
    var s: State
    ghost const origin: State
    ghost var trace: seq<Step>

    ghost predicate Valid()
      reads this
    {
      Inv(origin) && Leads(origin, trace, s)
    }

    constructor (s: State)
      requires Inv(s)
      ensures Valid() && this.s == s
    {
      this.s := s;
      origin := s;
      trace := [];
    }

    method Act(step: Step)
      requires Valid() && Enabled(s, step)
      modifies this
      ensures Valid() && s == Next(old(s), step)
    {
      hide Enabled, Next, Inv;
      LeadsAppend(origin, trace, s, step);
      s := Next(s, step);
      trace := trace + [step];
    }

    /** Other goroutines take those of these steps that they can; the one at w does not move. */
    method OthersThanWriter(steps: seq<Step>, w: nat)
      requires Valid() && w < |s.writers|
      modifies this
      ensures Valid() && w < |s.writers| && s.writers[w] == old(s.writers[w])
    {
      hide Inv, Leads;
      for i := 0 to |steps|
        invariant Valid() && w < |s.writers| && s.writers[w] == old(s.writers[w])
      {
        if Enabled(s, steps[i]) && !OfWriter(steps[i], w) {
          OtherWriterStays(s, steps[i], w);
          Act(steps[i]);
        }
      }
    }

    method OthersThanPurger(steps: seq<Step>, p: nat)
      requires Valid() && p < |s.purgers|
      modifies this
      ensures Valid() && p < |s.purgers| && s.purgers[p] == old(s.purgers[p])
    {
      hide Inv, Leads;
      for i := 0 to |steps|
        invariant Valid() && p < |s.purgers| && s.purgers[p] == old(s.purgers[p])
      {
        if Enabled(s, steps[i]) && !OfPurger(steps[i], p) {
          OtherPurgerStays(s, steps[i], p);
          Act(steps[i]);
        }
      }
    }
  }

  lemma OtherWriterStays(s: State, step: Step, w: nat)
    requires Enabled(s, step) && !OfWriter(step, w) && w < |s.writers|
    ensures w < |Next(s, step).writers| && Next(s, step).writers[w] == s.writers[w]
  {
    hide Gate.Blocked, Apply, RecordedGate, Selected;
  }

  lemma OtherPurgerStays(s: State, step: Step, p: nat)
    requires Enabled(s, step) && !OfPurger(step, p) && p < |s.purgers|
    ensures p < |Next(s, step).purgers| && Next(s, step).purgers[p] == s.purgers[p]
  {
    hide Gate.Blocked, Apply, RecordedGate, Selected;
  }

  // ----- The worker -----

  /** The outcome the store reports, or a plain success where the store could not report that one. */
  function Possible(s: State, w: nat, outcome: Outcome): Outcome
    requires w < |s.writers|
  {
    match outcome
    case Stored(removed) => Stored(removed - {s.writers[w].ev.id})
    case Duplicate => if s.writers[w].ev.id in s.rows then Duplicate else Stored({})
    case _ => outcome
  }

  /**
   process(op): check, write, and after a write that may have landed check again. others(k) acts before access
   k, outcome(n) is what attempt n meets. It ends, by machine steps only.
   */
  method Process(world: World, w: nat, others: nat -> seq<Step>, outcome: nat -> Outcome)
    requires world.Valid() && WriterAt(world.s, w, Check) && world.s.writers[w].attempt == 0
    modifies world
    ensures world.Valid() && WriterAt(world.s, w, Finished)
  {
    hide Inv, Leads, Gate.Blocked, World.Valid;
    var access: nat := 0;
    for attempt := 0 to MAX_ATTEMPTS
      invariant world.Valid() && WriterAt(world.s, w, Check) && world.s.writers[w].attempt == attempt
    {
      world.OthersThanWriter(others(access), w);
      access := access + 1;
      var dropped := world.s.gate.Blocked(world.s.writers[w].ev);
      world.Act(CheckGate(w));
      if dropped { return; }

      world.OthersThanWriter(others(access), w);
      access := access + 1;
      var result := Possible(world.s, w, outcome(attempt));
      world.Act(WriteRow(w, result));
      if result.Stored? || result.KeptNewer? || result.Duplicate? {
        SelfHealIfBanned(world, w, others, access);
        return;
      }
      if result.Rejected? { return; }
    }
    world.Act(CheckGate(w));
  }

  method SelfHealIfBanned(world: World, w: nat, others: nat -> seq<Step>, access: nat)
    requires world.Valid() && WriterAt(world.s, w, Recheck)
    modifies world
    ensures world.Valid() && WriterAt(world.s, w, Finished)
  {
    hide Inv, Leads, Gate.Blocked, World.Valid;
    world.OthersThanWriter(others(access), w);
    var blocked := world.s.gate.Blocked(world.s.writers[w].ev);
    world.Act(CheckAgain(w));
    if !blocked { return; }
    world.OthersThanWriter(others(access + 1), w);
    world.Act(HealRow(w));
  }

  // ----- The purges -----

  predicate PurgerAt(s: State, p: nat, pc: PurgerPc) {
    p < |s.purgers| && s.purgers[p].pc == pc
  }

  /** ban and authorDelete: record, then delete. */
  method PurgeId(world: World, p: nat, others: nat -> seq<Step>)
    requires world.Valid() && PurgerAt(world.s, p, Record) && !world.s.purgers[p].task.CoordTask?
    modifies world
    ensures world.Valid() && PurgerAt(world.s, p, Done)
  {
    hide Inv, Leads, World.Valid, RecordedGate;
    world.OthersThanPurger(others(0), p);
    world.Act(RecordTask(p));
    world.OthersThanPurger(others(1), p);
    world.Act(DeleteTask(p));
  }

  /** One version of the coordinate: marked deleted, then deleted. */
  method PurgeTarget(world: World, p: nat, others: nat -> seq<Step>, access: nat, id: Hex32, ghost todo: set<Hex32>)
    requires world.Valid() && PurgerAt(world.s, p, Targets(todo)) && id in todo
    modifies world
    ensures world.Valid() && PurgerAt(world.s, p, Targets(todo - {id}))
  {
    hide Inv, Leads, World.Valid, MatchingRows, Selected, RecordedGate;
    world.OthersThanPurger(others(access), p);
    world.Act(MarkTarget(p, id));
    world.OthersThanPurger(others(access + 1), p);
    world.Act(DeleteTargetRow(p));
  }

  method PurgeTargets(world: World, p: nat, others: nat -> seq<Step>, found: set<Hex32>)
    requires world.Valid() && PurgerAt(world.s, p, Targets(found))
    modifies world
    ensures world.Valid() && PurgerAt(world.s, p, Done)
  {
    hide Inv, Leads, World.Valid, MatchingRows, Selected, RecordedGate;
    var access := 2;
    var todo := found;
    while todo != {}
      invariant world.Valid() && PurgerAt(world.s, p, Targets(todo))
      decreases todo
    {
      var id :| id in todo;
      PurgeTarget(world, p, others, access, id, todo);
      todo := todo - {id};
      access := access + 2;
    }
    world.Act(FinishTargets(p));
  }

  lemma LookUpPossible(s: State, p: nat, found: set<Hex32>)
    requires PurgerAt(s, p, Lookup) && s.purgers[p].task.CoordTask?
    requires MatchingRows(s, s.purgers[p].task.c, s.purgers[p].task.del) <= found
    ensures Enabled(s, LookUp(p, found)) && PurgerAt(Next(s, LookUp(p, found)), p, Targets(found))
  {
    hide Selected;
  }

  lemma RecordPossible(s: State, p: nat)
    requires PurgerAt(s, p, Record) && s.purgers[p].task.CoordTask?
    ensures Enabled(s, RecordTask(p)) && PurgerAt(Next(s, RecordTask(p)), p, Lookup)
    ensures Next(s, RecordTask(p)).purgers[p].task == s.purgers[p].task
  {
    hide RecordedGate;
  }

  /** One coordinate: tombstone, look up (extra are ids the index finds), then mark and delete each target. */
  method PurgeCoord(world: World, p: nat, others: nat -> seq<Step>, extra: set<Hex32>)
    requires world.Valid() && PurgerAt(world.s, p, Record) && world.s.purgers[p].task.CoordTask?
    modifies world
    ensures world.Valid() && PurgerAt(world.s, p, Done)
  {
    hide Inv, Leads, World.Valid, Enabled, Next, MatchingRows;
    world.OthersThanPurger(others(0), p);
    RecordPossible(world.s, p);
    world.Act(RecordTask(p));
    world.OthersThanPurger(others(1), p);
    var task := world.s.purgers[p].task;
    var found := MatchingRows(world.s, task.c, task.del) + extra;
    LookUpPossible(world.s, p, found);
    world.Act(LookUp(p, found));
    PurgeTargets(world, p, others, found);
  }
}
