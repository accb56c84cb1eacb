/** The retry loop of a Daisy worker and its chain of hooks. */
module DaisyWorker {
  import CancelProtocol
  import opened Text
  import opened PDFallback

  /** A hook that inspects the error of a run: the fallback, or another one, of which only
      what it answers is known. */
  datatype PostHook = Fallback | Other(wantRetry: bool, answer: Option<string>)

  /** What one attempt meets: the state of the cancel protocol at the check before the run,
      whether that check is answered by the workflow's own channel, and the errors. */
  datatype Surroundings = Surroundings(
    provided: Result<Workflow>,
    cancel: CancelProtocol.Sys,
    workflowCancelled: bool,
    preHookError: Option<string>,
    runError: Option<string>,
    postHooks: seq<PostHook>
  )

  datatype Verdict = Verdict(retry: bool, err: Option<string>, shouldFallback: bool)

  function AfterHook(hook: PostHook, v: Verdict): Verdict {
    match hook
    case Fallback =>
      var (wantRetry, state) := AfterPost(v.shouldFallback, v.err);
      Verdict(v.retry || wantRetry, v.err, state)
    case Other(wantRetry, answer) => Verdict(v.retry || wantRetry, answer, v.shouldFallback)
  }

  /** The chain of hooks: each one sees the error that the one before it answered. */
  function PostChain(hooks: seq<PostHook>, v: Verdict): Verdict
    decreases |hooks|
  {
    if hooks == [] then v else PostChain(hooks[1..], AfterHook(hooks[0], v))
  }

  ghost predicate NobodyElseRetries(hooks: seq<PostHook>) {
    forall h | h in hooks :: h.Other? ==> !h.wantRetry
  }

  /** If no other hook asks for a retry, a retry means that the fallback has just seen a
      quota error, and it has not asked before. */
  lemma {:induction false} RetryMeansFallback(hooks: seq<PostHook>, v: Verdict)
    requires NobodyElseRetries(hooks)
    ensures PostChain(hooks, v).retry <==> v.retry || (!v.shouldFallback && PostChain(hooks, v).shouldFallback)
    ensures v.shouldFallback ==> PostChain(hooks, v).shouldFallback
    decreases |hooks|
  {
    if hooks != [] {
      assert hooks[0] in hooks;
      RetryMeansFallback(hooks[1..], AfterHook(hooks[0], v));
    }
  }

  /** The reason of a cancellation, empty if it is not known, if the check reports one. */
  function Cancelled(env: Surroundings): Option<string> {
    if !CancelProtocol.Reports(env.cancel, env.workflowCancelled) then None
    else Some(if env.workflowCancelled then "" else CancelProtocol.Received(env.cancel))
  }

  function CancelMessage(reason: string): string {
    if reason != "" then "workflow canceled: " + reason else "workflow canceled"
  }

  /** The attempt gets as far as running its workflow. */
  predicate Starts(env: Surroundings) {
    env.provided.Ok? && Cancelled(env).None? && env.preHookError.None?
  }

  /** Why an attempt does not get that far. */
  function StartError(env: Surroundings): Option<string> {
    match env.provided
    case Err(message) => Some(message)
    case Ok(_) => if Cancelled(env).Some? then Some(CancelMessage(Cancelled(env).value)) else env.preHookError
  }

  /** The verdict on the run of an attempt. */
  function RunVerdict(env: Surroundings, shouldFallback: bool): Verdict {
    var v := Verdict(false, env.runError, shouldFallback);
    if env.runError.None? then v else PostChain(env.postHooks, v)
  }

  class DaisyWorker {
    const fallback: FallbackToPDStandard
    // The workflows that were run.
    var ran: seq<Workflow>

    constructor (fallback: FallbackToPDStandard)
      ensures this.fallback == fallback && ran == []
    {
      this.fallback := fallback;
      ran := [];
    }

    /** A look at both channels that does not wait. */
    method CheckIfCancelled(env: Surroundings) returns (err: Option<string>)
      ensures err == if Cancelled(env).Some? then Some(CancelMessage(Cancelled(env).value)) else None
    {
      var canceled, reason := false, "";
      if env.workflowCancelled {
        canceled := true;
      } else if CancelProtocol.Ready(env.cancel) {
        canceled, reason := true, CancelProtocol.Received(env.cancel);
      }
      err := if canceled then Some(CancelMessage(reason)) else None;
    }

    /** The disks of the workflow become standard ones if the fallback has seen a quota
        error before; otherwise they stay as they are. */
    method RunOnce(wf: Workflow, env: Surroundings) returns (retry: bool, err: Option<string>)
      modifies this, fallback, if fallback.shouldFallback then DisksOf(wf.steps, false) else {}
      ensures env.preHookError.Some? ==> !retry && err == env.preHookError && ran == old(ran)
      ensures env.preHookError.Some? ==> fallback.shouldFallback == old(fallback.shouldFallback)
      ensures env.preHookError.None? ==>
        Verdict(retry, err, fallback.shouldFallback) == RunVerdict(env, old(fallback.shouldFallback))
      ensures env.preHookError.None? ==> ran == old(ran) + [wf]
      ensures env.preHookError.None? && old(fallback.shouldFallback) ==> Standard(DisksOf(wf.steps, false))
    {
      if env.preHookError.Some? {
        return false, env.preHookError;
      }
      DisksExist(wf.steps, false);
      fallback.PreRunHook(wf);
      ran := ran + [wf];
      retry, err := false, env.runError;
      if err.Some? {
        retry, err := PostHooks(env.postHooks, err);
      }
    }

    method PostHooks(hooks: seq<PostHook>, runError: Option<string>) returns (retry: bool, err: Option<string>)
      modifies fallback
      ensures Verdict(retry, err, fallback.shouldFallback) ==
        PostChain(hooks, Verdict(false, runError, old(fallback.shouldFallback)))
    {
      retry, err := false, runError;
      ghost var start := Verdict(false, err, fallback.shouldFallback);
      for i := 0 to |hooks|
        invariant PostChain(hooks[i..], Verdict(retry, err, fallback.shouldFallback)) == PostChain(hooks, start)
      {
        assert hooks[i..][1..] == hooks[i + 1..];
        var wantRetry;
        match hooks[i] {
          case Fallback => wantRetry, err := fallback.PostRunHook(err);
          case Other(wants, answer) => wantRetry, err := wants, answer;
        }
        retry := retry || wantRetry;
      }
    }

    /** Runs the workflow once, or twice if the first run fails and a hook asks for a retry.
        If the error of the first run, as it reaches the fallback, is a quota error, then
        the second workflow is run with standard disks, beta instances aside. No other disk
        ever changes. A cancellation or any other obstacle before an attempt ends the loop
        with its error. */
    method Run(first: Surroundings, second: Surroundings) returns (err: Option<string>)
      requires ran == [] && !fallback.shouldFallback
      modifies this, fallback
      modifies if second.provided.Ok? && RunVerdict(first, false).shouldFallback
               then DisksOf(second.provided.value.steps, false) else {}
      ensures !Starts(first) ==> ran == [] && err == StartError(first)
      ensures Starts(first) ==>
        var v := RunVerdict(first, false);
        if v.err.None? || !v.retry then ran == [first.provided.value] && err == v.err
        else if !Starts(second) then ran == [first.provided.value] && err == StartError(second)
        else ran == [first.provided.value, second.provided.value]
             && err == RunVerdict(second, v.shouldFallback).err
             && (v.shouldFallback ==> Standard(DisksOf(second.provided.value.steps, false)))
    {
      err := None;
      ghost var v := RunVerdict(first, false);
      for attempts := 0 to 2
        invariant attempts == 0 ==> ran == [] && !fallback.shouldFallback
        invariant attempts >= 1 ==> Starts(first) && v.err.Some? && v.retry
        invariant attempts == 1 ==> ran == [first.provided.value] && fallback.shouldFallback == v.shouldFallback
        invariant attempts == 2 ==> Starts(second) && ran == [first.provided.value, second.provided.value]
        invariant attempts == 2 ==> err == RunVerdict(second, v.shouldFallback).err
        invariant attempts == 2 && v.shouldFallback ==> Standard(DisksOf(second.provided.value.steps, false))
      {
        var env := if attempts == 0 then first else second;
        if env.provided.Err? {
          err := Some(env.provided.message);
          break;
        }
        err := CheckIfCancelled(env);
        if err.Some? {
          break;
        }
        var retryRequested;
        retryRequested, err := RunOnce(env.provided.value, env);
        if err.None? || !retryRequested {
          break;
        }
      }
    }
  }

  /** With no other hook that retries, a retry is asked for only on a quota error, so the
      second workflow always has standard disks, and the second run asks for no third. */
  lemma SecondRunIsAFallback(first: Surroundings, second: Surroundings)
    requires NobodyElseRetries(first.postHooks) && NobodyElseRetries(second.postHooks)
    requires RunVerdict(first, false).retry
    ensures RunVerdict(first, false).shouldFallback
    ensures !RunVerdict(second, true).retry
  {
    RetryMeansFallback(first.postHooks, Verdict(false, first.runError, false));
    RetryMeansFallback(second.postHooks, Verdict(false, second.runError, true));
  }

  /** Once any call of Cancel has returned, no attempt starts: whatever else it meets, it
      ends before its hooks and its run, with the cancellation as its error if there is a
      workflow to check. */
  lemma NoAttemptStartsAfterCancel(reasons: seq<string>, acts: seq<CancelProtocol.Action>,
                                   later: seq<CancelProtocol.Action>, c: nat, env: Surroundings)
    requires CancelProtocol.IsRun(CancelProtocol.Init(reasons), acts)
    requires var s := CancelProtocol.Exec(CancelProtocol.Init(reasons), acts);
      && CancelProtocol.IsRun(s, later) && env.cancel == CancelProtocol.Exec(s, later)
      && c < |s.callers| && s.callers[c].Returned?
    ensures !Starts(env) && Cancelled(env).Some?
    ensures env.provided.Ok? ==> StartError(env) == Some(CancelMessage(Cancelled(env).value))
  {
    CancelProtocol.ReturnedCancelIsSeen(reasons, acts, later, c);
  }
}
