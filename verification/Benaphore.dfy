/** Benaphore: an atomic counter in front of a kernel semaphore, under any interleaving of any number of threads. */
module Benaphore {

  /** A thread between calls, in P before semP returns, in V before semV, or in tryP before its undo. */
  datatype Pc = Outside | Waiting | Posting | Undoing

  /** counter and kSem as in the code, and where each thread is. */
  datatype State = State(counter: int, tokens: nat, threads: seq<Pc>)

  ghost predicate Init(s: State, permits: nat) {
    && s.counter == permits && s.tokens == 0
    && forall t :: 0 <= t < |s.threads| ==> s.threads[t] == Outside
  }

  datatype Act = DecP | SemP | IncV | SemV | TryDec | TryUndo

  /** One atomic action of thread t. */
  ghost predicate Step(s: State, s': State, t: nat, act: Act) requires t < |s.threads| {
    match act
    case DecP => s.threads[t] == Outside &&
      (if s.counter - 1 >= 0 then s' == s.(counter := s.counter - 1)
       else s' == s.(counter := s.counter - 1, threads := s.threads[t := Waiting]))
    case SemP => s.threads[t] == Waiting && s.tokens > 0 &&
      s' == s.(tokens := s.tokens - 1, threads := s.threads[t := Outside])
    case IncV => s.threads[t] == Outside &&
      (if s.counter + 1 >= 1 then s' == s.(counter := s.counter + 1)
       else s' == s.(counter := s.counter + 1, threads := s.threads[t := Posting]))
    case SemV => s.threads[t] == Posting && s' == s.(tokens := s.tokens + 1, threads := s.threads[t := Outside])
    case TryDec => s.threads[t] == Outside &&
      (if s.counter - 1 >= 0 then s' == s.(counter := s.counter - 1)
       else s' == s.(counter := s.counter - 1, threads := s.threads[t := Undoing]))
    case TryUndo => s.threads[t] == Undoing && s' == s.(counter := s.counter + 1, threads := s.threads[t := Outside])
  }

  datatype Event = Event(thread: nat, act: Act)

  /** A run: its states, and who did what between them. */
  datatype Trace = Trace(states: seq<State>, events: seq<Event>)

  ghost predicate Run(r: Trace, permits: nat) {
    && |r.states| == |r.events| + 1 && Init(r.states[0], permits)
    && forall i {:trigger Stepped(r, i)} :: 0 <= i < |r.events| ==> Stepped(r, i)
  }

  ghost predicate Stepped(r: Trace, i: nat) requires |r.states| == |r.events| + 1 && i < |r.events| {
    var e := r.events[i];
    e.thread < |r.states[i].threads| && Step(r.states[i], r.states[i + 1], e.thread, e.act)
  }

  // ------------------------------------------------------------- what a run has done

  /** How often an action has been taken in the first n steps. */
  ghost function Acts(r: Trace, act: Act, n: nat): nat requires n <= |r.events|
  { if n == 0 then 0 else Acts(r, act, n - 1) + (if r.events[n - 1].act == act then 1 else 0) }

  /** Step i ends a call of P or tryP with success: the thread is out again without an undo. */
  ghost predicate Succeeds(r: Trace, i: nat) requires |r.states| == |r.events| + 1 && i < |r.events| {
    var e := r.events[i];
    || e.act == SemP
    || (&& (e.act == DecP || e.act == TryDec) && e.thread < |r.states[i + 1].threads|
        && r.states[i + 1].threads[e.thread] == Outside)
  }

  /** Step i is the undo of a tryP that finds the counter not negative. */
  ghost predicate Slip(r: Trace, i: nat) requires |r.states| == |r.events| + 1 && i < |r.events|
  { r.events[i].act == TryUndo && r.states[i].counter >= 0 }

  /** Calls of P and tryP that have succeeded, and undos that have slipped, in the first n steps. */
  ghost function Got(r: Trace, n: nat): nat requires |r.states| == |r.events| + 1 && n <= |r.events|
  { if n == 0 then 0 else Got(r, n - 1) + (if Succeeds(r, n - 1) then 1 else 0) }

  ghost function Slips(r: Trace, n: nat): nat requires |r.states| == |r.events| + 1 && n <= |r.events|
  { if n == 0 then 0 else Slips(r, n - 1) + (if Slip(r, n - 1) then 1 else 0) }

  /** The calls of V that have begun. */
  ghost function Given(r: Trace, n: nat): nat requires n <= |r.events| { Acts(r, IncV, n) }

  /** The counter is the permits with every increment and decrement made, and the semaphore its tokens. */
  lemma {:induction false} CounterCounts(r: Trace, permits: nat, n: nat)
    requires Run(r, permits) && n <= |r.events|
    ensures r.states[n].counter ==
      permits + Acts(r, IncV, n) + Acts(r, TryUndo, n) - Acts(r, DecP, n) - Acts(r, TryDec, n)
    ensures r.states[n].tokens == Acts(r, SemV, n) - Acts(r, SemP, n)
  {
    if n > 0 {
      CounterCounts(r, permits, n - 1);
      assert Stepped(r, n - 1);
    }
  }

  /** Which actions a thread can take depends on where it is alone, but for waiting, which needs a token. */
  lemma Enabled(s: State, t: nat, act: Act)
    requires t < |s.threads|
    ensures (exists s' :: Step(s, s', t, act)) <==>
      match act
      case DecP => s.threads[t] == Outside
      case IncV => s.threads[t] == Outside
      case TryDec => s.threads[t] == Outside
      case SemP => s.threads[t] == Waiting && s.tokens > 0
      case SemV => s.threads[t] == Posting
      case TryUndo => s.threads[t] == Undoing
  {
    if exists s' :: Step(s, s', t, act) {
      var s' :| Step(s, s', t, act);
    }
    match act
    case DecP =>
      if s.threads[t] == Outside {
        assert Step(s, if s.counter - 1 >= 0 then s.(counter := s.counter - 1)
                       else s.(counter := s.counter - 1, threads := s.threads[t := Waiting]), t, DecP);
      }
    case IncV =>
      if s.threads[t] == Outside {
        assert Step(s, if s.counter + 1 >= 1 then s.(counter := s.counter + 1)
                       else s.(counter := s.counter + 1, threads := s.threads[t := Posting]), t, IncV);
      }
    case TryDec =>
      if s.threads[t] == Outside {
        assert Step(s, if s.counter - 1 >= 0 then s.(counter := s.counter - 1)
                       else s.(counter := s.counter - 1, threads := s.threads[t := Undoing]), t, TryDec);
      }
    case SemP =>
      if s.threads[t] == Waiting && s.tokens > 0 {
        assert Step(s, s.(tokens := s.tokens - 1, threads := s.threads[t := Outside]), t, SemP);
      }
    case SemV =>
      if s.threads[t] == Posting {
        assert Step(s, s.(tokens := s.tokens + 1, threads := s.threads[t := Outside]), t, SemV);
      }
    case TryUndo =>
      if s.threads[t] == Undoing {
        assert Step(s, s.(counter := s.counter + 1, threads := s.threads[t := Outside]), t, TryUndo);
      }
  }

  function Count(threads: seq<Pc>, pc: Pc): nat
  { if threads == [] then 0 else (if threads[0] == pc then 1 else 0) + Count(threads[1..], pc) }

  lemma {:induction false} CountUpdate(threads: seq<Pc>, t: nat, to: Pc, pc: Pc)
    requires t < |threads|
    ensures Count(threads[t := to], pc) ==
              Count(threads, pc) - (if threads[t] == pc then 1 else 0) + (if to == pc then 1 else 0)
  {
    if t == 0 {
      assert threads[t := to][1..] == threads[1..];
    } else {
      CountUpdate(threads[1..], t - 1, to, pc);
      assert threads[t := to][1..] == threads[1..][t - 1 := to];
    }
  }

  lemma {:induction false} NoneCount(threads: seq<Pc>, pc: Pc)
    requires pc !in threads
    ensures Count(threads, pc) == 0
  {
    if threads != [] { NoneCount(threads[1..], pc); }
  }

  lemma {:induction false} SomeCount(threads: seq<Pc>, pc: Pc) returns (t: nat)
    requires Count(threads, pc) > 0
    ensures t < |threads| && threads[t] == pc
  {
    if threads[0] == pc { return 0; }
    t := SomeCount(threads[1..], pc);
    t := t + 1;
  }

  function Waiters(s: State): nat { Count(s.threads, Waiting) }
  function Posters(s: State): nat { Count(s.threads, Posting) }
  function Undoers(s: State): nat { Count(s.threads, Undoing) }
  function Deficit(s: State): nat { if s.counter < 0 then -s.counter else 0 }
  function Surplus(s: State): nat { if s.counter > 0 then s.counter else 0 }

  /** Waiters less the wakeups under way make up the deficit of the counter, but for tryP's passing decrements
      and what their undos have slipped in; and every permit is accounted for. */
  ghost predicate Balanced(s: State, permits: nat, got: nat, given: nat, slips: nat) {
    && Waiters(s) + Undoers(s) + slips == s.tokens + Posters(s) + Deficit(s)
    && got + Surplus(s) + s.tokens + Posters(s) == permits + given + slips
  }

  ghost predicate BalancedAt(r: Trace, permits: nat, n: nat) requires |r.states| == |r.events| + 1 && n <= |r.events|
  { Balanced(r.states[n], permits, Got(r, n), Given(r, n), Slips(r, n)) }

  function Lands(act: Act): Pc {
    match act case DecP => Waiting case IncV => Posting case TryDec => Undoing case _ => Outside
  }

  lemma StepBalanced(s: State, s': State, t: nat, act: Act, permits: nat, got: nat, given: nat, slips: nat)
    requires Balanced(s, permits, got, given, slips) && t < |s.threads| && Step(s, s', t, act)
    ensures t < |s'.threads|
    ensures Balanced(s', permits,
                     got +
                     (if act == SemP || ((act == DecP || act == TryDec) && s'.threads[t] == Outside) then 1 else 0),
                     given + (if act == IncV then 1 else 0),
                     slips + (if act == TryUndo && s.counter >= 0 then 1 else 0))
  {
    hide Count;
    CountUpdate(s.threads, t, Lands(act), Waiting);
    CountUpdate(s.threads, t, Lands(act), Posting);
    CountUpdate(s.threads, t, Lands(act), Undoing);
  }

  lemma {:induction false} RunBalanced(r: Trace, permits: nat, n: nat)
    requires Run(r, permits) && n <= |r.events|
    ensures BalancedAt(r, permits, n)
  {
    var s := r.states[n];
    if n == 0 {
      NoneCount(s.threads, Waiting);
      NoneCount(s.threads, Posting);
      NoneCount(s.threads, Undoing);
    } else {
      RunBalanced(r, permits, n - 1);
      assert Stepped(r, n - 1);
      var e := r.events[n - 1];
      StepBalanced(r.states[n - 1], s, e.thread, e.act, permits, Got(r, n - 1), Given(r, n - 1), Slips(r, n - 1));
    }
  }

  /** Runs of P and V alone, and runs of tryP too in which no undo finds the counter not negative: waiters minus tokens
      and posts in progress is the deficit, and no more calls succeed than there were permits and calls of V. */
  lemma PermitsSafe(r: Trace, permits: nat, n: nat)
    requires Run(r, permits) && n <= |r.events| && Slips(r, n) == 0
    ensures Got(r, n) <= permits + Acts(r, IncV, n)
    ensures var s := r.states[n];
      Undoers(s) == 0 ==> Waiters(s) - (s.tokens + Posters(s)) == Deficit(s)
  {
    RunBalanced(r, permits, n);
  }

  /** A waiter is never stuck while a permit is free, no post is in progress and no tryP is about to undo. */
  lemma NoStuckWaiter(r: Trace, permits: nat, n: nat)
    requires Run(r, permits) && n <= |r.events| && Slips(r, n) == 0
    requires var s := r.states[n]; Waiters(s) > 0 && Posters(s) == 0 && Undoers(s) == 0
    requires Got(r, n) < permits + Acts(r, IncV, n)
    ensures var s := r.states[n];
      s.tokens > 0 && exists t: nat, s' :: t < |s.threads| && Step(s, s', t, SemP)
  {
    var s := r.states[n];
    RunBalanced(r, permits, n);
    var t := SomeCount(s.threads, Waiting);
    Enabled(s, t, SemP);
  }

  /** Without tryP nothing ever slips. */
  ghost predicate OnlyPV(r: Trace) { forall i :: 0 <= i < |r.events| ==> r.events[i].act != TryDec }

  lemma {:induction false} PVNeverSlips(r: Trace, permits: nat, n: nat)
    requires Run(r, permits) && n <= |r.events| && OnlyPV(r)
    ensures Slips(r, n) == 0 && Undoing !in r.states[n].threads && Undoers(r.states[n]) == 0
  {
    if n > 0 {
      PVNeverSlips(r, permits, n - 1);
      assert Stepped(r, n - 1);
    }
    NoneCount(r.states[n].threads, Undoing);
  }

  /** How far success can outrun the permits: exactly the slips, once all tokens and the surplus are used up. */
  lemma Overrun(r: Trace, permits: nat, n: nat)
    requires Run(r, permits) && n <= |r.events|
    ensures Got(r, n) <= permits + Given(r, n) + Slips(r, n)
    ensures var s := r.states[n];
      Surplus(s) == 0 && s.tokens == 0 && Posters(s) == 0 ==> Got(r, n) == permits + Given(r, n) + Slips(r, n)
  {
    RunBalanced(r, permits, n);
  }

  // ------------------------------------------------------------- what tryP breaks

  ghost function Last(r: Trace): State requires |r.states| > 0 { r.states[|r.states| - 1] }

  ghost predicate Extends(r: Trace, r': Trace) { r.states <= r'.states && r.events <= r'.events }

  lemma Onward(r: Trace, permits: nat, t: nat, act: Act, s: State) returns (r': Trace)
    requires Run(r, permits) && t < |Last(r).threads| && Step(Last(r), s, t, act)
    ensures Run(r', permits) && Extends(r, r') && Last(r') == s && r'.events == r.events + [Event(t, act)]
    ensures Slips(r', |r'.events|) >= Slips(r, |r.events|)
    ensures act == TryUndo && Last(r).counter >= 0 ==> Slips(r', |r'.events|) > 0
  {
    r' := Trace(r.states + [s], r.events + [Event(t, act)]);
    forall i | 0 <= i < |r'.events| ensures Stepped(r', i) {
      if i < |r.events| { assert Stepped(r, i); }
    }
    SameSlips(r, r', |r.events|);
  }

  lemma {:induction false} SameSlips(r: Trace, r': Trace, n: nat)
    requires |r.states| == |r.events| + 1 && |r'.states| == |r'.events| + 1 && Extends(r, r') && n <= |r.events|
    ensures Slips(r', n) == Slips(r, n)
  {
    if n > 0 { SameSlips(r, r', n - 1); }
  }

  /** More calls have succeeded than there are permits, by at most the slips. */
  ghost predicate Overdrawn(r: Trace, permits: nat) requires |r.states| == |r.events| + 1 {
    var n := |r.events|;
    permits + Acts(r, IncV, n) < Got(r, n) <= permits + Acts(r, IncV, n) + Slips(r, n)
  }

  /** So with tryP the bound fails: thread 0 tries while there is no permit, thread 1 gives one before thread 0 has
      undone its decrement, and then two calls of P can succeed on the one permit. */
  lemma TryPDoublesPermit() returns (r: Trace)
    ensures Run(r, 0) && Overdrawn(r, 0)
  {
    var s0 := State(0, 0, [Outside, Outside]);
    var s1 := State(-1, 0, [Undoing, Outside]);
    var s2 := State(0, 0, [Undoing, Posting]);
    var s3 := State(1, 0, [Outside, Posting]);
    assert Step(s0, s1, 0, TryDec);
    assert Step(s1, s2, 1, IncV);
    assert Step(s2, s3, 0, TryUndo);
    r := Trace([s0], []);
    r := Onward(r, 0, 0, TryDec, s1);
    r := Onward(r, 0, 1, IncV, s2);
    r := Onward(r, 0, 0, TryUndo, s3);
    r := SlipOverdraws(r, 0);
  }

  /** And fails after every slip: once an undo has found the counter not negative, the calls under way can finish and
      further calls of P can succeed until more have succeeded than there are permits. */
  lemma SlipOverdraws(r: Trace, permits: nat) returns (r': Trace)
    requires Run(r, permits) && Slips(r, |r.events|) > 0
    ensures Run(r', permits) && Extends(r, r') && Overdrawn(r', permits)
    decreases Posters(Last(r)) + Undoers(Last(r)), Last(r).tokens + Surplus(Last(r)), Count(Last(r).threads, Outside)
  {
    hide Count, Run;
    assert |r.states| == |r.events| + 1 by { RunShape(r, permits); }
    var s := Last(r);
    RunBalanced(r, permits, |r.events|);
    if Posters(s) == 0 && Undoers(s) == 0 && s.tokens == 0 {
      r' := r;
      Overrun(r, permits, |r.events|);
    } else {
      var t, act, s' := Forward(r, permits);
      var r1 := Onward(r, permits, t, act, s');
      r' := SlipOverdraws(r1, permits);
    }
  }

  lemma RunShape(r: Trace, permits: nat) requires Run(r, permits) ensures |r.states| == |r.events| + 1 {}

  /** The step that brings a run towards using up its tokens. */
  lemma Forward(r: Trace, permits: nat) returns (t: nat, act: Act, s': State)
    requires Run(r, permits) && Slips(r, |r.events|) > 0
    requires Posters(Last(r)) != 0 || Undoers(Last(r)) != 0 || Last(r).tokens != 0
    ensures t < |Last(r).threads| && Step(Last(r), s', t, act) && Closer(s', Last(r))
  {
    SlipHasThread(r, permits, |r.events|);
    hide Count, Run;
    var s := Last(r);
    if Posters(s) > 0 {
      act := SemV;
      t := SomeCount(s.threads, Posting);
      s' := s.(tokens := s.tokens + 1, threads := s.threads[t := Outside]);
    } else if Undoers(s) > 0 {
      act := TryUndo;
      t := SomeCount(s.threads, Undoing);
      s' := s.(counter := s.counter + 1, threads := s.threads[t := Outside]);
    } else if Waiters(s) > 0 {
      act := SemP;
      t := SomeCount(s.threads, Waiting);
      s' := s.(tokens := s.tokens - 1, threads := s.threads[t := Outside]);
    } else {
      SomeOutside(s.threads);
      t, act := 0, DecP;
      s' := if s.counter - 1 >= 0 then s.(counter := s.counter - 1)
            else s.(counter := s.counter - 1, threads := s.threads[t := Waiting]);
    }
    CountUpdate(s.threads, t, Lands(act), Posting);
    CountUpdate(s.threads, t, Lands(act), Undoing);
    CountUpdate(s.threads, t, Lands(act), Outside);
  }

  ghost predicate Closer(s': State, s: State) {
    || Posters(s') + Undoers(s') < Posters(s) + Undoers(s)
    || (Posters(s') + Undoers(s') == Posters(s) + Undoers(s) &&
        (s'.tokens + Surplus(s') < s.tokens + Surplus(s) ||
        (s'.tokens + Surplus(s') == s.tokens + Surplus(s) && Count(s'.threads, Outside) < Count(s.threads, Outside))))
  }

  /** With nobody waiting, posting or undoing, everybody is outside. */
  lemma {:induction false} SomeOutside(threads: seq<Pc>)
    requires Count(threads, Waiting) == Count(threads, Posting) == Count(threads, Undoing) == 0
    ensures forall t :: 0 <= t < |threads| ==> threads[t] == Outside
  {
    if threads != [] {
      SomeOutside(threads[1..]);
      assert forall t :: 0 < t < |threads| ==> threads[t] == threads[1..][t - 1];
    }
  }

  lemma {:induction false} SlipHasThread(r: Trace, permits: nat, n: nat)
    requires Run(r, permits) && n <= |r.events| && Slips(r, n) > 0
    ensures |r.states[n].threads| > 0
  {
    assert Stepped(r, n - 1);
  }
}
