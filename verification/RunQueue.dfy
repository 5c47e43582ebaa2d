/**
 The cross-thread run queue of core/adb/fdevent.cpp: any thread submits functions under a mutex
 and wakes the main thread with a byte on a socket pair; the main thread empties the pair
 without the mutex and then runs the queue under it. Every interleaving is a run of `Step`.
 */
module RunQueue {
  import opened Base

  /** Submissions are told apart by number; `submits`: the function itself calls fdevent_run_on_main_thread. */
  datatype Fn = Fn(id: nat, submits: bool)

  /** How far fdevent_run_on_main_thread has got, holding the mutex. */
  datatype Stage = Acquired | Queued | Notified

  /**
   Who holds run_queue_mutex: nobody, a submitter, or the main thread with `done` functions of the
   queue run. `Jammed`: the next function, run under the mutex, waits for the mutex itself.
   */
  datatype Lock = Free | Submitter(fn: Fn, stage: Stage) | Flush(done: nat) | Jammed(done: nat)

  /** The main thread: before fdevent_run_setup, in the event loop, or in fdevent_run_func after its read. */
  datatype Main = Boot | Polling | Woken

  /** `notify`: run_queue_notify_fd is set; `unread`: wake-up bytes in the socket pair. */
  datatype State = State(
    queue: seq<Fn>, notify: bool, unread: nat, lock: Lock, main: Main,
    submitted: seq<Fn>, executed: seq<Fn>)

  datatype Action =
    | Submit(fn: Fn)       // a thread takes the mutex
    | Continue             // the submitter that holds it takes its next step
    | Read(count: nat)     // the main thread, told of a byte, reads up to 1024 of them
    | Lock                 // the main thread takes the mutex, in fdevent_run_setup or fdevent_run_func
    | RunOne               // it runs the next function
    | Unlock               // it clears the queue and releases the mutex

  const READ_SIZE := 1024

  predicate Enabled(s: State, a: Action)
  {
    match a
    case Submit(_) => s.lock.Free?
    case Continue => s.lock.Submitter?
    case Read(count) => s.main.Polling? && !s.lock.Flush? && !s.lock.Jammed? && 1 <= count <= s.unread && count <= READ_SIZE
    case Lock => s.lock.Free? && !s.main.Polling?
    case RunOne => s.lock.Flush? && s.lock.done < |s.queue|
    case Unlock => s.lock.Flush? && s.lock.done >= |s.queue|
  }

  function Step(s: State, a: Action): State
  {
    if !Enabled(s, a) then s
    else
      match a
      case Submit(fn) => s.(lock := Submitter(fn, Acquired))
      case Continue =>
        (match s.lock.stage
         case Acquired => s.(queue := s.queue + [s.lock.fn], submitted := s.submitted + [s.lock.fn],
                             lock := Submitter(s.lock.fn, Queued))
         case Queued => s.(unread := s.unread + if s.notify then 1 else 0, lock := Submitter(s.lock.fn, Notified))
         case Notified => s.(lock := Free))
      case Read(count) => s.(unread := s.unread - count, main := Woken)
      case Lock => s.(lock := Flush(0), notify := true, main := Polling)
      case RunOne =>
        if s.queue[s.lock.done].submits then s.(lock := Jammed(s.lock.done))
        else s.(executed := s.executed + [s.queue[s.lock.done]], lock := Flush(s.lock.done + 1))
      case Unlock => s.(queue := [], lock := Free)
  }

  const START := State([], false, 0, Free, Boot, [], [])

  function Run(s: State, actions: seq<Action>): State
    decreases |actions|
  {
    if actions == [] then s else Run(Step(s, actions[0]), actions[1..])
  }

  /** Functions of the queue that have not run yet. */
  function Waiting(s: State): seq<Fn>
  {
    if (s.lock.Flush? || s.lock.Jammed?) && s.lock.done <= |s.queue| then s.queue[s.lock.done..] else s.queue
  }

  /** A wake-up is on its way: a byte, the main thread past its read, or a submitter about to write one. */
  predicate Awaited(s: State)
  {
    s.unread > 0 || s.main.Woken? || s.lock.Flush? || (s.lock.Submitter? && s.lock.stage.Queued?)
  }

  predicate Inv(s: State)
  {
    && s.executed + Waiting(s) == s.submitted
    && (s.lock.Flush? ==> s.lock.done <= |s.queue| && s.main.Polling?)
    && (s.lock.Jammed? ==> s.lock.done < |s.queue| && s.queue[s.lock.done].submits && s.main.Polling?)
    && (s.notify <==> !s.main.Boot?)
    && (s.notify && s.queue != [] ==> Awaited(s) || s.lock.Jammed?)
    && (forall i :: 0 <= i < |s.executed| ==> !s.executed[i].submits)
  }

  lemma RunOneInv(s: State)
    requires Inv(s) && Enabled(s, RunOne)
    ensures Inv(Step(s, RunOne))
  {
    var s', fn := Step(s, RunOne), s.queue[s.lock.done];
    if !fn.submits {
      assert Waiting(s) == [fn] + Waiting(s');
      assert s.executed + ([fn] + Waiting(s')) == s.executed + [fn] + Waiting(s');
    }
  }

  lemma ContinueInv(s: State)
    requires Inv(s) && Enabled(s, Continue)
    ensures Inv(Step(s, Continue))
  {
    if s.lock.stage.Acquired? { assert s.executed + (s.queue + [s.lock.fn]) == s.executed + s.queue + [s.lock.fn]; }
  }

  lemma StepInv(s: State, a: Action)
    requires Inv(s)
    ensures Inv(Step(s, a))
  {
    if Enabled(s, a) {
      match a
      case RunOne => RunOneInv(s);
      case Continue => ContinueInv(s);
      case _ =>
    }
  }

  lemma {:induction false} RunInv(s: State, actions: seq<Action>)
    requires Inv(s)
    ensures Inv(Run(s, actions))
    decreases |actions|
  {
    if actions != [] {
      StepInv(s, actions[0]);
      RunInv(Step(s, actions[0]), actions[1..]);
    }
  }

  /**
   Under every interleaving: what has run, followed by what waits, is what was submitted, in
   order; and once the notify descriptor exists, nothing waits without a wake-up on its way, unless
   the main thread waits for itself in a function that submits.
   */
  lemma InOrderAndAwaited(actions: seq<Action>)
    ensures var s := Run(START, actions);
            && s.executed + Waiting(s) == s.submitted
            && (s.notify && Waiting(s) != [] ==> Awaited(s) || (s.lock.Jammed? && Waiting(s)[0].submits))
  {
    RunInv(START, actions);
  }

  // ----- everything submitted runs -----

  /** Steps left to take if nobody submits any more. */
  function Work(s: State): nat
  {
    |Waiting(s)| + 3 * s.unread
    + (match s.main case Boot => 4 case Polling => 0 case Woken => 2)
    + (match s.lock
       case Free => 0
       case Flush(_) => 1
       case Jammed(_) => 0
       case Submitter(_, stage) => match stage case Acquired => 7 case Queued => 5 case Notified => 1)
  }

  lemma WorkFalls(s: State, a: Action)
    requires Inv(s) && Enabled(s, a) && !a.Submit?
    ensures Work(Step(s, a)) < Work(s)
  {
  }

  predicate Stuck(s: State)
  {
    !Enabled(s, Continue) && !Enabled(s, Lock) && !Enabled(s, RunOne) && !Enabled(s, Unlock) && !Enabled(s, Read(1))
  }

  predicate NoSubmit(s: State, actions: seq<Action>)
    decreases |actions|
  {
    actions == [] || (!actions[0].Submit? && Enabled(s, actions[0]) && NoSubmit(Step(s, actions[0]), actions[1..]))
  }

  /** Without new submissions the threads take at most `Work` more steps. */
  lemma {:induction false} WorkBounds(s: State, actions: seq<Action>)
    requires Inv(s) && NoSubmit(s, actions)
    ensures |actions| + Work(Run(s, actions)) <= Work(s)
    decreases |actions|
  {
    if actions != [] {
      WorkFalls(s, actions[0]);
      StepInv(s, actions[0]);
      WorkBounds(Step(s, actions[0]), actions[1..]);
    }
  }

  /** The submissions before the first that itself submits. */
  function Harmless(fns: seq<Fn>): (r: seq<Fn>)
    ensures r <= fns
  {
    if fns == [] || fns[0].submits then [] else [fns[0]] + Harmless(fns[1..])
  }

  lemma {:induction false} HarmlessFirst(a: seq<Fn>, b: seq<Fn>)
    requires (forall i :: 0 <= i < |a| ==> !a[i].submits) && (b != [] ==> b[0].submits)
    ensures Harmless(a + b) == a
  {
    if a == [] {
      assert a + b == b;
    } else {
      assert (a + b)[1..] == a[1..] + b;
      HarmlessFirst(a[1..], b);
    }
  }

  /**
   No interleaving loses a wake-up: whatever happened, once submissions stop, the threads come to
   rest within `Work` steps however they are scheduled. At rest what has run, once and in order, is
   every submission before the first that itself submits; so everything runs if and only if no
   submitted function submits another.
   */
  lemma EverySubmissionRuns(before: seq<Action>, after: seq<Action>)
    requires NoSubmit(Run(START, before), after)
    ensures var s := Run(START, before); var t := Run(s, after);
            && |after| <= Work(s)
            && (Stuck(t) ==> t.executed == Harmless(t.submitted))
            && (Stuck(t) ==> (t.executed == t.submitted <==> forall i :: 0 <= i < |t.submitted| ==> !t.submitted[i].submits))
  {
    RunInv(START, before);
    var s := Run(START, before);
    WorkBounds(s, after);
    RunInv(s, after);
    var t := Run(s, after);
    if Stuck(t) { AtRest(t); }
  }

  lemma AtRest(t: State)
    requires Inv(t) && Stuck(t)
    ensures t.executed == Harmless(t.submitted)
    ensures t.executed == t.submitted <==> forall i :: 0 <= i < |t.submitted| ==> !t.submitted[i].submits
  {
    HarmlessFirst(t.executed, Waiting(t));
    if t.lock.Jammed? {
      assert t.submitted[|t.executed|] == Waiting(t)[0];
    } else {
      assert t.main.Polling? && t.lock.Free? && t.unread == 0;
      assert t.executed + [] == t.executed;
    }
  }

  /** A move the schedule ends with. */
  lemma {:induction false} Last(s: State, actions: seq<Action>, a: Action) returns (longer: seq<Action>)
    ensures Run(s, longer) == Step(Run(s, actions), a)
    decreases |actions|
  {
    if actions == [] {
      longer := [a];
      assert Run(Step(s, a), []) == Step(s, a);
    } else {
      var rest := Last(Step(s, actions[0]), actions[1..], a);
      longer := [actions[0]] + rest;
      assert longer[1..] == rest;
    }
  }

  /** Such a run: one submission, of a function that submits. Everything stands still and it never returns. */
  lemma JammedRun(fn: Fn) returns (actions: seq<Action>)
    requires fn.submits
    ensures var s := Run(START, actions); Stuck(s) && s.submitted == [fn] && s.executed == []
  {
    actions := Last(START, [], Submit(fn));
    actions := Last(START, actions, Continue);
    actions := Last(START, actions, Continue);
    actions := Last(START, actions, Continue);
    actions := Last(START, actions, Action.Lock);
    actions := Last(START, actions, RunOne);
  }
}
