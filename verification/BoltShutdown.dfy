/** Queue, Close and drain of the Bolt write buffer (bolt_buffer.go): which writes a shutdown may lose. */
module BoltShutdown {
  import opened Sequences
  import opened Nostr

  /** A call of Queue, up to what it returns. */
  datatype CallPc = ReadFlag | Sending | Returned(ok: bool)

  datatype Call = Call(ev: Event, pc: CallPc)

  datatype WorkerPc = Idle | Busy | Gone

  /**
   sent[taken..] is what the channel holds; Busy, the worker is in process(sent[taken - 1]). marked, raced: what
   was sent and who was past the flag when Close stored it. expired: the drain deadline has passed.
   */
  datatype State = State(
    sent: seq<Event>, senders: seq<nat>, calls: seq<Call>, closed: bool, marked: nat, raced: set<nat>, done: bool,
    taken: nat, pc: WorkerPc, draining: bool, expired: bool)

  datatype Step = Queue(ev: Event) | LoadClosed(c: nat) | Send(c: nat) | StoreClosed | CloseDone
                | Take | Finish | SeeDone | Leave | Expire

  predicate CallAt(s: State, c: nat, pc: CallPc) {
    c < |s.calls| && s.calls[c].pc == pc
  }

  predicate Enabled(s: State, step: Step) {
    match step
    case Queue(_) => true
    case LoadClosed(c) => CallAt(s, c, ReadFlag)
    case Send(c) => CallAt(s, c, Sending)
    case StoreClosed => !s.closed
    case CloseDone => s.closed && !s.done
    case Take => s.pc == Idle && s.taken < |s.sent|
    case Finish => s.pc == Busy
    case SeeDone => s.pc == Idle && s.done
    case Leave => s.draining && (s.expired || (s.pc == Idle && s.taken == |s.sent|))
    case Expire => s.draining
  }

  function AtCall(s: State, c: nat, pc: CallPc): State
    requires c < |s.calls|
  {
    s.(calls := s.calls[c := s.calls[c].(pc := pc)])
  }

  function Next(s: State, step: Step): State
    requires Enabled(s, step)
  {
    match step
    case Queue(ev) => s.(calls := s.calls + [Call(ev, ReadFlag)])
    case LoadClosed(c) => AtCall(s, c, if s.closed then Returned(false) else Sending)
    case Send(c) => AtCall(s, c, Returned(true)).(sent := s.sent + [s.calls[c].ev], senders := s.senders + [c])
    case StoreClosed => s.(closed := true, marked := |s.sent|, raced := set c: nat | c < |s.calls| &&
                           s.calls[c].pc == Sending)
    case CloseDone => s.(done := true)
    case Take => s.(taken := s.taken + 1, pc := Busy)
    case Finish => s.(pc := Idle)
    case SeeDone => s.(draining := true)
    case Leave => s.(pc := Gone)
    case Expire => s.(expired := true)
  }

  ghost predicate Leads(s: State, steps: seq<Step>, t: State)
    decreases |steps|
  {
    if steps == [] then s == t else Enabled(s, steps[0]) && Leads(Next(s, steps[0]), steps[1..], t)
  }

  ghost predicate Init(s: State) {
    s == State([], [], [], false, 0, {}, false, 0, Idle, false, false)
  }

  ghost predicate SentBy(s: State, i: nat, c: nat) {
    i < |s.senders| == |s.sent| && s.senders[i] == c && c < |s.calls| && s.sent[i] == s.calls[c].ev
  }

  /** Exactly the calls that returned true have sent, each once and its own event. */
  ghost predicate CallsInv(s: State) {
    && |s.senders| == |s.sent| && NoDup(s.senders)
    && (forall i :: 0 <= i < |s.senders| ==> CallAt(s, s.senders[i], Returned(true)) && SentBy(s, i, s.senders[i]))
    && (forall c: nat :: CallAt(s, c, Returned(true)) ==> c in s.senders)
  }

  ghost predicate CloseInv(s: State) {
    && (s.done ==> s.closed) && (s.draining ==> s.done)
    && (s.closed ==> s.marked <= |s.senders| && forall i :: s.marked <= i < |s.senders| ==> s.senders[i] in s.raced)
    && (s.closed ==> forall c: nat :: CallAt(s, c, Sending) ==> c in s.raced)
    && s.taken <= |s.sent| && (s.pc == Gone ==> s.draining && (s.expired || s.taken >= s.marked))
  }

  lemma SendKeeps(s: State, c: nat)
    requires CallsInv(s) && CloseInv(s) && Enabled(s, Send(c))
    ensures CallsInv(Next(s, Send(c))) && CloseInv(Next(s, Send(c)))
  {
    var t := Next(s, Send(c));
    assert forall i :: 0 <= i < |s.senders| ==>
                         t.senders[i] == s.senders[i] && t.sent[i] == s.sent[i] && s.senders[i] != c;
    assert t.senders[|s.senders|] == c;
    forall d: nat | CallAt(t, d, Returned(true)) ensures d in t.senders {
      if d != c { assert d in s.senders; }
    }
  }

  lemma CallKeeps(s: State, step: Step)
    requires CallsInv(s) && CloseInv(s) && Enabled(s, step) && !step.Send?
    ensures CallsInv(Next(s, step)) && CloseInv(Next(s, step))
  {
    var t := Next(s, step);
    forall i | 0 <= i < |t.senders| ensures CallAt(t, t.senders[i], Returned(true)) && SentBy(t, i, t.senders[i]) {
      assert SentBy(s, i, s.senders[i]);
    }
    forall c: nat | CallAt(t, c, Returned(true)) ensures c in t.senders {
      assert CallAt(s, c, Returned(true));
    }
  }

  lemma {:induction false} RunKeeps(s: State, steps: seq<Step>, t: State)
    requires CallsInv(s) && CloseInv(s) && Leads(s, steps, t)
    ensures CallsInv(t) && CloseInv(t)
    decreases |steps|
  {
    hide CallsInv, CloseInv, Next, Enabled;
    if steps != [] {
      if steps[0].Send? { SendKeeps(s, steps[0].c); } else { CallKeeps(s, steps[0]); }
      RunKeeps(Next(s, steps[0]), steps[1..], t);
    }
  }

  /**
   After a shutdown within the deadline, an event whose client was told OK has been processed, unless its call
   had read the flag before Close stored it and sent only after; and an event whose client was refused was
   never queued by that call.
   */
  lemma OnlyRacersLose(s: State, steps: seq<Step>, t: State, c: nat)
    requires Init(s) && Leads(s, steps, t) && t.pc == Gone && !t.expired && c < |t.calls|
    ensures t.calls[c].pc == Returned(true) ==>
              exists i: nat :: SentBy(t, i, c) && (i < t.taken || (i >= t.marked && c in t.raced))
    ensures t.calls[c].pc == Returned(false) ==> c !in t.senders
  {
    RunKeeps(s, steps, t);
    if t.calls[c].pc == Returned(true) {
      var i :| 0 <= i < |t.senders| && t.senders[i] == c;
      assert SentBy(t, i, c);
    }
  }
}
