/** The cancel protocol of a Daisy worker: any number of callers of Cancel, guarded by a
    once, one channel with room for one reason, and any number of receivers, of which some
    may be left over from an earlier attempt. A run is any sequence of enabled actions. */
module CancelProtocol {
  import opened Text

  datatype Caller =
    | Outside(reason: string)
    // Called, and waiting for its turn in the once.
    | AtGuard(reason: string)
    // Inside the once: about to send, then about to close.
    | BeforeSend(reason: string)
    | BeforeClose
    | Returned

  /** A goroutine that waits for a reason, for an interrupt or for its workflow to end. */
  datatype Listener = Listening | Woken(reason: string) | Gone

  datatype Once = NotEntered | Entered | Completed

  datatype Sys = Sys(
    once: Once,
    buffer: Option<string>,
    closed: bool,
    callers: seq<Caller>,
    listeners: seq<Listener>,
    sends: nat,
    closes: nat,
    // The reasons that receivers have taken from the channel.
    taken: seq<string>
  )

  datatype Action =
    | Call(c: nat)
    | Enter(c: nat)
    | Send(c: nat)
    | CloseChannel(c: nat)
    | Skip(c: nat)
    | Spawn
    | Wake(l: nat)
    | GiveUp(l: nat)
    // A look at the channel that does not wait; `workflowCancelled` says whether the
    // workflow's own channel is ready and chosen.
    | Check(workflowCancelled: bool)

  function Init(reasons: seq<string>): Sys {
    Sys(NotEntered, None, false, seq(|reasons|, i requires 0 <= i < |reasons| => Outside(reasons[i])), [], 0, 0, [])
  }

  /** A receive does not have to wait: there is a reason, or the channel is closed. */
  predicate Ready(s: Sys) {
    s.buffer.Some? || s.closed
  }

  predicate Enabled(s: Sys, a: Action) {
    match a
    case Call(c) => c < |s.callers| && s.callers[c].Outside?
    case Enter(c) => c < |s.callers| && s.callers[c].AtGuard? && s.once == NotEntered
    // A send waits while the buffer is full.
    case Send(c) => c < |s.callers| && s.callers[c].BeforeSend? && s.buffer.None?
    case CloseChannel(c) => c < |s.callers| && s.callers[c].BeforeClose?
    case Skip(c) => c < |s.callers| && s.callers[c].AtGuard? && s.once == Completed
    case Spawn => true
    case Wake(l) => l < |s.listeners| && s.listeners[l].Listening? && Ready(s)
    case GiveUp(l) => l < |s.listeners| && s.listeners[l].Listening?
    case Check(_) => true
  }

  /** Sending on a closed channel and closing it again would be crashes. */
  predicate Crashes(s: Sys, a: Action) {
    (a.Send? || a.CloseChannel?) && s.closed
  }

  function Receive(s: Sys): Sys {
    if s.buffer.Some? then s.(buffer := None, taken := s.taken + [s.buffer.value]) else s
  }

  function Received(s: Sys): string {
    if s.buffer.Some? then s.buffer.value else ""
  }

  function Step(s: Sys, a: Action): Sys
    requires Enabled(s, a)
  {
    match a
    case Call(c) => s.(callers := s.callers[c := AtGuard(s.callers[c].reason)])
    case Enter(c) => s.(callers := s.callers[c := BeforeSend(s.callers[c].reason)], once := Entered)
    case Send(c) =>
      s.(callers := s.callers[c := BeforeClose], buffer := Some(s.callers[c].reason), sends := s.sends + 1)
    case CloseChannel(c) =>
      s.(callers := s.callers[c := Returned], closed := true, closes := s.closes + 1, once := Completed)
    case Skip(c) => s.(callers := s.callers[c := Returned])
    case Spawn => s.(listeners := s.listeners + [Listening])
    case Wake(l) => Receive(s).(listeners := s.listeners[l := Woken(Received(s))])
    case GiveUp(l) => s.(listeners := s.listeners[l := Gone])
    case Check(workflowCancelled) => if !workflowCancelled && Ready(s) then Receive(s) else s
  }

  /** What checkIfCancelled reports. */
  predicate Reports(s: Sys, workflowCancelled: bool) {
    workflowCancelled || Ready(s)
  }

  ghost predicate IsRun(s: Sys, acts: seq<Action>)
    decreases |acts|
  {
    acts == [] || (Enabled(s, acts[0]) && IsRun(Step(s, acts[0]), acts[1..]))
  }

  ghost function Exec(s: Sys, acts: seq<Action>): Sys
    requires IsRun(s, acts)
    decreases |acts|
  {
    if acts == [] then s else Exec(Step(s, acts[0]), acts[1..])
  }

  predicate Inside(c: Caller) {
    c.BeforeSend? || c.BeforeClose?
  }

  /** At most one caller is ever inside the once; the state of the channel tells how far it got. */
  ghost predicate Inv(s: Sys) {
    && (forall c, d | 0 <= c < d < |s.callers| :: !(Inside(s.callers[c]) && Inside(s.callers[d])))
    && (forall c | 0 <= c < |s.callers| ::
          && (Inside(s.callers[c]) ==> s.once == Entered)
          && (s.callers[c].BeforeSend? ==> s.sends == 0)
          && (s.callers[c].BeforeClose? ==> s.sends == 1)
          && (s.callers[c].Returned? ==> s.once == Completed))
    && (s.once == Entered ==> exists c | 0 <= c < |s.callers| :: Inside(s.callers[c]))
    && (s.once == NotEntered ==> s.sends == 0)
    && (s.once == Completed ==> s.sends == 1)
    && s.closes == (if s.once == Completed then 1 else 0)
    && (s.closed <==> s.once == Completed)
    && s.sends == |s.taken| + (if s.buffer.Some? then 1 else 0)
    && |s.taken| <= 1
  }

  lemma StepInv(s: Sys, a: Action)
    requires Inv(s) && Enabled(s, a)
    ensures Inv(Step(s, a)) && !Crashes(s, a)
  {
    var t := Step(s, a);
    if t.once == Entered {
      if s.once == Entered {
        var c :| 0 <= c < |s.callers| && Inside(s.callers[c]);
        assert Inside(t.callers[c]);
      } else {
        assert Inside(t.callers[a.c]);
      }
    }
  }

  lemma {:induction false} RunInv(s: Sys, acts: seq<Action>)
    requires Inv(s) && IsRun(s, acts)
    ensures Inv(Exec(s, acts))
    ensures |Exec(s, acts).callers| == |s.callers|
    decreases |acts|
  {
    if acts != [] {
      StepInv(s, acts[0]);
      RunInv(Step(s, acts[0]), acts[1..]);
    }
  }

  /** In every reachable state: at most one send and one close have happened, no enabled
      action crashes, a caller about to send finds room, and the reason has been taken at
      most once. When any call of Cancel has returned, exactly one send and one close have
      happened. */
  lemma CancelIsSafe(reasons: seq<string>, acts: seq<Action>)
    requires IsRun(Init(reasons), acts)
    ensures var s := Exec(Init(reasons), acts);
      && s.sends <= 1 && s.closes <= 1 && |s.taken| <= 1
      && (forall a | Enabled(s, a) :: !Crashes(s, a))
      && (forall c: nat | c < |s.callers| && s.callers[c].BeforeSend? :: Enabled(s, Send(c)))
      && ((exists c | 0 <= c < |s.callers| :: s.callers[c].Returned?) ==> s.sends == 1 && s.closes == 1)
  {
    RunInv(Init(reasons), acts);
    var s := Exec(Init(reasons), acts);
    forall a | Enabled(s, a)
      ensures !Crashes(s, a)
    {
      StepInv(s, a);
    }
  }

  lemma {:induction false} StaysClosed(s: Sys, acts: seq<Action>)
    requires Inv(s) && IsRun(s, acts) && s.closed
    ensures Exec(s, acts).closed
    decreases |acts|
  {
    if acts != [] {
      StepInv(s, acts[0]);
      StaysClosed(Step(s, acts[0]), acts[1..]);
    }
  }

  /** Once any call of Cancel has returned, every later check reports the cancellation, and
      every listener, of whatever attempt, can be woken: even if another receiver has taken
      the reason. */
  lemma ReturnedCancelIsSeen(reasons: seq<string>, acts: seq<Action>, later: seq<Action>, c: nat)
    requires IsRun(Init(reasons), acts) && IsRun(Exec(Init(reasons), acts), later)
    requires c < |Exec(Init(reasons), acts).callers| && Exec(Init(reasons), acts).callers[c].Returned?
    ensures var t := Exec(Exec(Init(reasons), acts), later);
      && Reports(t, false)
      && forall l: nat | l < |t.listeners| && t.listeners[l].Listening? :: Enabled(t, Wake(l))
  {
    RunInv(Init(reasons), acts);
    StaysClosed(Exec(Init(reasons), acts), later);
  }

  /** No deadlock: while a call of Cancel is under way, some caller can move. */
  lemma CallersAlwaysProgress(reasons: seq<string>, acts: seq<Action>)
    requires IsRun(Init(reasons), acts)
    ensures var s := Exec(Init(reasons), acts);
      (exists c | 0 <= c < |s.callers| :: s.callers[c].AtGuard? || Inside(s.callers[c])) ==>
      exists c: nat :: Enabled(s, Enter(c)) || Enabled(s, Send(c)) || Enabled(s, CloseChannel(c)) || Enabled(s, Skip(c))
  {
    RunInv(Init(reasons), acts);
    var s := Exec(Init(reasons), acts);
    if c :| 0 <= c < |s.callers| && (s.callers[c].AtGuard? || Inside(s.callers[c])) {
      if s.once == Entered {
        var d: nat :| d < |s.callers| && Inside(s.callers[d]);
        assert Enabled(s, Send(d)) || Enabled(s, CloseChannel(d));
      } else {
        assert Enabled(s, Enter(c)) || Enabled(s, Skip(c));
      }
    }
  }

  /* When the reason arrives. */

  /** Where the worker is: about to check before an attempt, past a check that reported
      nothing, or past one that did. */
  datatype Stage = Between | Cleared | Ended

  /** The worker's next check or listener: every attempt starts with a check, and a listener
      follows only a check that has reported nothing. */
  predicate InTurn(s: Sys, a: Action, stage: Stage, attempts: nat) {
    match a
    case Check(_) => stage == Between && attempts > 0
    case Spawn => stage == Cleared
    case _ => true
  }

  function NextStage(s: Sys, a: Action, stage: Stage): Stage {
    match a
    case Check(workflowCancelled) => if Reports(s, workflowCancelled) then Ended else Cleared
    case Spawn => Between
    case _ => stage
  }

  function AttemptsLeft(a: Action, attempts: nat): nat {
    if a.Check? && attempts > 0 then attempts - 1 else attempts
  }

  /** The checks and listeners of the run are those of a worker with so many attempts. */
  ghost predicate OfWorker(s: Sys, acts: seq<Action>, stage: Stage, attempts: nat)
    requires IsRun(s, acts)
    decreases |acts|
  {
    acts == [] ||
    (InTurn(s, acts[0], stage, attempts)
     && OfWorker(Step(s, acts[0]), acts[1..], NextStage(s, acts[0], stage), AttemptsLeft(acts[0], attempts)))
  }

  /** A check that reports the channel, or a listener that it wakes, and no reason for it. */
  predicate Uninformed(s: Sys, a: Action, reasons: seq<string>) {
    (a == Check(false) || a.Wake?) && Ready(s) && Received(s) !in reasons
  }

  ghost predicate AllInformed(s: Sys, acts: seq<Action>, reasons: seq<string>)
    requires IsRun(s, acts)
    decreases |acts|
  {
    acts == [] || (!Uninformed(s, acts[0], reasons) && AllInformed(Step(s, acts[0]), acts[1..], reasons))
  }

  ghost predicate ReasonsFrom(s: Sys, reasons: seq<string>) {
    && (forall c | 0 <= c < |s.callers| ::
          match s.callers[c]
          case Outside(r) => r in reasons
          case AtGuard(r) => r in reasons
          case BeforeSend(r) => r in reasons
          case _ => true)
    && (s.buffer.Some? ==> s.buffer.value in reasons)
  }

  ghost predicate Listens(s: Sys) {
    exists l | 0 <= l < |s.listeners| :: s.listeners[l].Listening?
  }

  /** With one attempt there is one receiver after the other: before the check, none; after
      it, none or the one listener; and whoever has taken the reason is the last. */
  ghost predicate OneAttempt(s: Sys, stage: Stage, attempts: nat) {
    && |s.listeners| <= 1 && attempts <= 1
    && (attempts == 1 ==> stage == Between && s.listeners == [])
    && (stage == Cleared ==> s.listeners == [])
    && (s.taken != [] ==> attempts == 0 && stage != Cleared && !Listens(s))
  }

  lemma OneAttemptStep(reasons: seq<string>, s: Sys, a: Action, stage: Stage, attempts: nat)
    requires Inv(s) && Enabled(s, a) && InTurn(s, a, stage, attempts)
    requires ReasonsFrom(s, reasons) && OneAttempt(s, stage, attempts)
    ensures !Uninformed(s, a, reasons) && ReasonsFrom(Step(s, a), reasons)
    ensures OneAttempt(Step(s, a), NextStage(s, a, stage), AttemptsLeft(a, attempts))
  {
    assert a.Wake? ==> Listens(s);
  }

  lemma {:induction false} OneAttemptIsInformed(reasons: seq<string>, s: Sys, acts: seq<Action>, stage: Stage,
                                                attempts: nat)
    requires Inv(s) && IsRun(s, acts) && OfWorker(s, acts, stage, attempts)
    requires ReasonsFrom(s, reasons) && OneAttempt(s, stage, attempts)
    ensures AllInformed(s, acts, reasons)
    decreases |acts|
  {
    if acts != [] {
      StepInv(s, acts[0]);
      OneAttemptStep(reasons, s, acts[0], stage, attempts);
      OneAttemptIsInformed(reasons, Step(s, acts[0]), acts[1..], NextStage(s, acts[0], stage),
                           AttemptsLeft(acts[0], attempts));
    }
  }

  /** A worker with one attempt is told the reason whenever the channel cancels it, be it by
      the check or by the listener. With room for a second attempt there are runs in which
      it is not: the listener left over from the first attempt takes the reason, and that of
      the running workflow sees only that the channel is closed. */
  lemma ReasonArrivesExactlyWhen(reasons: seq<string>, attempts: nat)
    requires reasons != [] && "" !in reasons
    ensures attempts <= 1 <==>
      (forall acts | IsRun(Init(reasons), acts) && OfWorker(Init(reasons), acts, Between, attempts) ::
         AllInformed(Init(reasons), acts, reasons))
  {
    if attempts <= 1 {
      forall acts | IsRun(Init(reasons), acts) && OfWorker(Init(reasons), acts, Between, attempts)
        ensures AllInformed(Init(reasons), acts, reasons)
      {
        OneAttemptIsInformed(reasons, Init(reasons), acts, Between, attempts);
      }
    } else {
      var acts := StaleListenerTakesTheReason(reasons, attempts);
      assert !AllInformed(Init(reasons), acts, reasons);
    }
  }

  /** The run: two attempts have started when Cancel is called. The listener of the first one
      is woken with the reason, that of the second one without it. */
  lemma StaleListenerTakesTheReason(reasons: seq<string>, attempts: nat) returns (acts: seq<Action>)
    requires reasons != [] && "" !in reasons && attempts >= 2
    ensures IsRun(Init(reasons), acts) && OfWorker(Init(reasons), acts, Between, attempts)
    ensures !AllInformed(Init(reasons), acts, reasons)
    ensures Exec(Init(reasons), acts).callers == Init(reasons).callers[0 := Returned]
    ensures Exec(Init(reasons), acts).listeners == [Woken(reasons[0]), Woken("")]
  {
    var s := Init(reasons);
    var s1 := Step(s, Check(false));
    var s2 := Step(s1, Spawn);
    var s3 := Step(s2, Check(false));
    var rest := CancelTwoListeners(reasons, Step(s3, Spawn), attempts - 2);
    var r3 := PrependOfWorker(s3, Spawn, rest, Cleared, attempts - 2, reasons);
    var r2 := PrependOfWorker(s2, Check(false), r3, Between, attempts - 1, reasons);
    var r1 := PrependOfWorker(s1, Spawn, r2, Cleared, attempts - 1, reasons);
    acts := PrependOfWorker(s, Check(false), r1, Between, attempts, reasons);
  }

  lemma CancelTwoListeners(reasons: seq<string>, s: Sys, attempts: nat) returns (acts: seq<Action>)
    requires reasons != [] && "" !in reasons
    requires s == Init(reasons).(listeners := [Listening, Listening])
    ensures IsRun(s, acts) && OfWorker(s, acts, Between, attempts) && !AllInformed(s, acts, reasons)
    ensures Exec(s, acts).callers == Init(reasons).callers[0 := Returned]
    ensures Exec(s, acts).listeners == [Woken(reasons[0]), Woken("")]
  {
    var s1 := Step(s, Call(0));
    var s2 := Step(s1, Enter(0));
    var r2 := SendToTwoListeners(reasons, s2, attempts);
    var r1 := PrependOfWorker(s1, Enter(0), r2, Between, attempts, reasons);
    acts := PrependOfWorker(s, Call(0), r1, Between, attempts, reasons);
  }

  lemma SendToTwoListeners(reasons: seq<string>, s: Sys, attempts: nat) returns (acts: seq<Action>)
    requires reasons != [] && "" !in reasons
    requires s == Init(reasons).(callers := Init(reasons).callers[0 := BeforeSend(reasons[0])], once := Entered,
                                 listeners := [Listening, Listening])
    ensures IsRun(s, acts) && OfWorker(s, acts, Between, attempts) && !AllInformed(s, acts, reasons)
    ensures Exec(s, acts).callers == Init(reasons).callers[0 := Returned]
    ensures Exec(s, acts).listeners == [Woken(reasons[0]), Woken("")]
  {
    var s1 := Step(s, Send(0));
    var s2 := Step(s1, Wake(0));
    var s3 := Step(s2, CloseChannel(0));
    assert Uninformed(s3, Wake(1), reasons);
    var r3 := PrependOfWorker(s3, Wake(1), [], Between, attempts, reasons);
    var r2 := PrependOfWorker(s2, CloseChannel(0), r3, Between, attempts, reasons);
    var r1 := PrependOfWorker(s1, Wake(0), r2, Between, attempts, reasons);
    acts := PrependOfWorker(s, Send(0), r1, Between, attempts, reasons);
  }

  lemma PrependOfWorker(s: Sys, a: Action, rest: seq<Action>, stage: Stage, attempts: nat, reasons: seq<string>)
      returns (acts: seq<Action>)
    requires Enabled(s, a) && IsRun(Step(s, a), rest) && InTurn(s, a, stage, attempts)
    requires OfWorker(Step(s, a), rest, NextStage(s, a, stage), AttemptsLeft(a, attempts))
    ensures IsRun(s, acts) && OfWorker(s, acts, stage, attempts) && Exec(s, acts) == Exec(Step(s, a), rest)
    ensures AllInformed(s, acts, reasons) <==>
      !Uninformed(s, a, reasons) && AllInformed(Step(s, a), rest, reasons)
  {
    acts := [a] + rest;
    assert acts[1..] == rest;
  }
}
