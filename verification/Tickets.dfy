/** The ticket lock by which cores take turns with the debugger front end. */
module Tickets {

  /** Where a core is in handle_exception. The first ticket section is entered on an exception, the second
      is the loop that runs while the debugger is in control. */
  datatype Pc =
    | Running
    | Ask(loop: bool)                      // before lock.acquire()
    | Test(loop: bool)                     // lock held, ticket not looked at yet
    | Take(loop: bool)                     // lock held, the old ticket is stale
    | Leave(loop: bool)                    // lock held, ticket is good
    | Wait(loop: bool)                     // spinning until served
    | Stop                                 // served in the first section, before allstop = true
    | Handle                               // all cores are being stopped, packets are handled
    | Loop                                 // at while (allstop)
    | Decide                               // served in the loop, looking at the vCont packet
    | Bump(resume: bool)                   // about to read serving for ++serving
    | Store(resume: bool, next: int)       // about to write serving + 1

  datatype Core = Core(pc: Pc, ticket: int)

  datatype State = State(tcounter: int, serving: int, allstop: bool, locked: bool, cores: seq<Core>)

  ghost predicate Init(s: State) {
    && s.tcounter == 1 && s.serving == 1 && !s.allstop && !s.locked
    && forall c :: 0 <= c < |s.cores| ==> s.cores[c] == Core(Running, 0)
  }

  predicate HoldsLock(pc: Pc) { pc.Test? || pc.Take? || pc.Leave? }

  /** A core that is being served: from seeing its number until serving moves on. */
  predicate InService(pc: Pc) { pc.Stop? || pc.Handle? || pc.Decide? || pc.Bump? || pc.Store? }

  function Put(s: State, c: nat, core: Core): State requires c < |s.cores| { s.(cores := s.cores[c := core]) }

  /** One step of core c. */
  ghost predicate Step(s: State, s': State, c: nat) requires c < |s.cores| {
    var k := s.cores[c];
    match k.pc
    case Running =>                        // an exception, or the stop IPI
      s' == Put(s, c, k.(pc := Ask(false))) || s' == Put(s, c, k.(pc := Loop))
    case Ask(l) => !s.locked && s' == Put(s.(locked := true), c, k.(pc := Test(l)))
    case Test(l) => s' == Put(s, c, k.(pc := if s.serving - k.ticket > 0 then Take(l) else Leave(l)))
    case Take(l) => s' == Put(s.(tcounter := s.tcounter + 1), c, Core(Leave(l), s.tcounter))
    case Leave(l) => s' == Put(s.(locked := false), c, k.(pc := Wait(l)))
    case Wait(l) => s' == Put(s, c, k.(pc := if k.ticket != s.serving then Wait(l) else if l then Decide else Stop))
    case Stop => s' == Put(s.(allstop := true), c, k.(pc := Handle))
    case Handle => s' == Put(s, c, k.(pc := Loop))
    case Loop => s' == Put(s, c, k.(pc := if s.allstop then Ask(true) else Running))
    case Decide =>                         // not for this thread; step; or continue, which wakes all
      || s' == Put(s, c, k.(pc := Bump(false)))
      || s' == Put(s, c, k.(pc := Bump(true)))
      || s' == Put(s.(allstop := false), c, k.(pc := Bump(true)))
    case Bump(r) => s' == Put(s, c, k.(pc := Store(r, s.serving + 1)))
    case Store(r, next) => s' == Put(s.(serving := next), c, k.(pc := if r then Running else Loop))
  }

  ghost predicate Next(s: State, s': State) { exists c: nat :: c < |s.cores| && Step(s, s', c) }

  // ------------------------------------------------------------------------- invariant

  /** What a core's place says about its ticket. */
  ghost predicate CoreOk(s: State, k: Core) {
    && 0 <= k.ticket < s.tcounter
    && match k.pc
       case Running => k.ticket < s.serving
       case Ask(l) => k.ticket < s.serving || (l && k.ticket == s.serving)
       case Test(l) => k.ticket < s.serving || (l && k.ticket == s.serving)
       case Take(_) => k.ticket < s.serving
       case Leave(_) => k.ticket >= s.serving
       case Wait(_) => k.ticket >= s.serving
       case Loop => k.ticket < s.serving || (k.ticket == s.serving && s.allstop)
       case Handle => k.ticket == s.serving && s.allstop
       case Store(_, next) => k.ticket == s.serving && next == s.serving + 1
       case Stop => k.ticket == s.serving
       case Decide => k.ticket == s.serving
       case Bump(_) => k.ticket == s.serving
  }

  ghost predicate CoresOk(s: State) { forall c {:trigger s.cores[c]} :: 0 <= c < |s.cores| ==> CoreOk(s, s.cores[c]) }

  /** No two cores hold the same ticket that is not yet served. */
  ghost predicate Exclusive(s: State) {
    forall c, d {:trigger s.cores[c], s.cores[d]} ::
      0 <= c < |s.cores| && 0 <= d < |s.cores| && c != d && s.cores[c].ticket >= s.serving ==>
      s.cores[d].ticket != s.cores[c].ticket
  }

  ghost predicate HeldBy(s: State, t: int, c: int) { 0 <= c < |s.cores| && s.cores[c].ticket == t }

  /** Every ticket given out and not yet served is held. */
  ghost predicate Covered(s: State) { forall t :: s.serving <= t < s.tcounter ==> Held(s, t) }
  ghost predicate Held(s: State, t: int) { exists c :: HeldBy(s, t, c) }

  /** The lock is taken just while one core is inside. */
  ghost predicate LockOk(s: State) {
    && (forall c :: 0 <= c < |s.cores| && HoldsLock(s.cores[c].pc) ==> s.locked)
    && (s.locked ==> exists c :: 0 <= c < |s.cores| && HoldsLock(s.cores[c].pc))
    && (forall c, d {:trigger s.cores[c], s.cores[d]} ::
          0 <= c < |s.cores| && 0 <= d < |s.cores| && HoldsLock(s.cores[c].pc) && HoldsLock(s.cores[d].pc) ==> c == d)
  }

  ghost predicate Inv(s: State)
  { 1 <= s.serving <= s.tcounter && CoresOk(s) && Exclusive(s) && Covered(s) && LockOk(s) }

  lemma InitInv(s: State)
    requires Init(s)
    ensures Inv(s)
  {}

  /** What one step of core c can change: its own place; its ticket, to a new one if it is stale; serving and
      allstop, if c is being served; the lock, if c takes or has it. */
  ghost predicate Moved(s: State, s': State, c: nat) requires c < |s.cores| {
    && |s'.cores| == |s.cores| && s'.cores == s.cores[c := s'.cores[c]]
    && var k, k' := s.cores[c], s'.cores[c];
    && (if s'.tcounter == s.tcounter then k'.ticket == k.ticket
        else s'.tcounter == s.tcounter + 1 && k'.ticket == s.tcounter && k.ticket < s.serving == s'.serving)
    && (s'.serving != s.serving ==> s'.serving == s.serving + 1 && k.ticket == s.serving)
    && (s'.allstop != s.allstop ==> k.ticket == s.serving)
    && (HoldsLock(k.pc) == HoldsLock(k'.pc) ==> s'.locked == s.locked)
    && (HoldsLock(k.pc) != HoldsLock(k'.pc) ==> s.locked == HoldsLock(k.pc) && s'.locked == HoldsLock(k'.pc))
  }

  lemma StepMoves(s: State, s': State, c: nat)
    requires 1 <= s.serving <= s.tcounter && c < |s.cores| && CoreOk(s, s.cores[c]) && Step(s, s', c)
    requires HoldsLock(s.cores[c].pc) ==> s.locked
    ensures Moved(s, s', c) && CoreOk(s', s'.cores[c])
  {
    StepChanges(s, s', c);
    StepOwn(s, s', c);
  }

  lemma StepChanges(s: State, s': State, c: nat)
    requires c < |s.cores| && CoreOk(s, s.cores[c]) && Step(s, s', c) && (HoldsLock(s.cores[c].pc) ==> s.locked)
    ensures Moved(s, s', c)
  {}

  lemma StepOwn(s: State, s': State, c: nat)
    requires 1 <= s.serving <= s.tcounter && c < |s.cores| && CoreOk(s, s.cores[c]) && Step(s, s', c)
    ensures c < |s'.cores| && CoreOk(s', s'.cores[c])
  {
    if Served(s.cores[c].pc) { StepServed(s, s', c); } else { StepWaiting(s, s', c); }
  }

  /** The places of a core whose ticket is being served. */
  ghost predicate Served(pc: Pc) { pc.Stop? || pc.Handle? || pc.Loop? || pc.Decide? || pc.Bump? || pc.Store? }

  lemma StepServed(s: State, s': State, c: nat)
    requires 1 <= s.serving <= s.tcounter && c < |s.cores| && CoreOk(s, s.cores[c]) && Step(s, s', c)
    requires Served(s.cores[c].pc)
    ensures c < |s'.cores| && CoreOk(s', s'.cores[c])
  {}

  lemma StepWaiting(s: State, s': State, c: nat)
    requires 1 <= s.serving <= s.tcounter && c < |s.cores| && CoreOk(s, s.cores[c]) && Step(s, s', c)
    requires !Served(s.cores[c].pc)
    ensures c < |s'.cores| && CoreOk(s', s'.cores[c])
  {}

  lemma StepCores(s: State, s': State, c: nat)
    requires 1 <= s.serving <= s.tcounter && CoresOk(s) && Exclusive(s) && c < |s.cores| && Moved(s, s', c)
    requires CoreOk(s', s'.cores[c])
    ensures CoresOk(s') && Exclusive(s') && 1 <= s'.serving <= s'.tcounter
  {
    forall d | 0 <= d < |s'.cores| ensures CoreOk(s', s'.cores[d]) {
      if d != c { assert s'.cores[d] == s.cores[d] && CoreOk(s, s.cores[d]) && CoreOk(s, s.cores[c]); }
    }
    forall d, e | 0 <= d < |s'.cores| && 0 <= e < |s'.cores| && d != e && s'.cores[d].ticket >= s'.serving
      ensures s'.cores[e].ticket != s'.cores[d].ticket
    {
      assert CoreOk(s, s.cores[d]) && CoreOk(s, s.cores[e]);
    }
  }

  lemma StepCovered(s: State, s': State, c: nat)
    requires Covered(s) && c < |s.cores| && Moved(s, s', c)
    ensures Covered(s')
  {
    forall t | s'.serving <= t < s'.tcounter ensures Held(s', t) {
      if t < s.tcounter {
        assert Held(s, t);
        var d :| HeldBy(s, t, d);
        assert HeldBy(s', t, d);
      } else {
        assert HeldBy(s', t, c);
      }
    }
  }

  lemma StepLock(s: State, s': State, c: nat)
    requires LockOk(s) && c < |s.cores| && Moved(s, s', c)
    ensures LockOk(s')
  {
    if s'.locked {
      var d :| 0 <= d < |s.cores| && (if s.locked then HoldsLock(s.cores[d].pc) else d == c);
      assert HoldsLock(s'.cores[d].pc);
    }
  }

  lemma StepInv(s: State, s': State)
    requires Inv(s) && Next(s, s')
    ensures Inv(s')
  {
    var c: nat :| c < |s.cores| && Step(s, s', c);
    assert CoreOk(s, s.cores[c]);
    StepMoves(s, s', c);
    StepCores(s, s', c);
    StepCovered(s, s', c);
    StepLock(s, s', c);
  }

  // ------------------------------------------------------------------------- runs

  ghost predicate Run(states: seq<State>) {
    && |states| > 0 && Init(states[0])
    && forall i :: 0 <= i < |states| - 1 ==> Next(states[i], states[i + 1])
  }

  lemma {:induction false} RunInv(states: seq<State>)
    requires Run(states)
    ensures Inv(states[|states| - 1])
  {
    if |states| == 1 {
      InitInv(states[0]);
    } else {
      var before := states[..|states| - 1];
      assert Run(before) by {
        forall i | 0 <= i < |before| - 1 ensures Next(before[i], before[i + 1]) { assert before[i] == states[i]; }
      }
      RunInv(before);
      StepInv(states[|states| - 2], states[|states| - 1]);
    }
  }

  lemma {:induction false} ServingGrows(states: seq<State>, i: nat, j: nat)
    requires Run(states) && i <= j < |states|
    ensures states[i].serving <= states[j].serving && |states[i].cores| == |states[j].cores|
    decreases j - i
  {
    if i < j {
      RunInv(states[..i + 1]);
      assert states[..i + 1][i] == states[i];
      assert Next(states[i], states[i + 1]);
      var c: nat :| c < |states[i].cores| && Step(states[i], states[i + 1], c);
      assert CoreOk(states[i], states[i].cores[c]);
      StepChanges(states[i], states[i + 1], c);
      ServingGrows(states, i + 1, j);
    }
  }

  lemma PrefixRun(states: seq<State>, i: nat)
    requires Run(states) && i < |states|
    ensures Inv(states[i])
  {
    var before := states[..i + 1];
    assert Run(before) by {
      forall k | 0 <= k < |before| - 1 ensures Next(before[k], before[k + 1]) { assert before[k] == states[k]; }
    }
    RunInv(before);
  }

  /** In every reachable state at most one core is between seeing its turn and passing it on. */
  lemma OneServed(states: seq<State>, i: nat, c: nat, d: nat)
    requires Run(states) && i < |states| && c < |states[i].cores| && d < |states[i].cores|
    requires InService(states[i].cores[c].pc) && InService(states[i].cores[d].pc)
    ensures c == d && states[i].cores[c].ticket == states[i].serving
  {
    PrefixRun(states, i);
    assert CoreOk(states[i], states[i].cores[c]) && CoreOk(states[i], states[i].cores[d]);
  }

  /** A core that holds an unserved ticket is waiting or being served; it is not back to normal running. */
  predicate Engaged(pc: Pc)
  { InService(pc) || pc.Wait? || pc.Leave? || pc.Loop? || pc == Ask(true) || pc == Test(true) }

  /** Tickets from serving up to the counter are each held by exactly one core, and that core is engaged. */
  lemma EachTicketHeldOnce(states: seq<State>, i: nat, t: int) returns (c: nat)
    requires Run(states) && i < |states| && states[i].serving <= t < states[i].tcounter
    ensures c < |states[i].cores| && states[i].cores[c].ticket == t && Engaged(states[i].cores[c].pc)
    ensures forall d :: 0 <= d < |states[i].cores| && states[i].cores[d].ticket == t ==> d == c
  {
    PrefixRun(states, i);
    assert Held(states[i], t);
    c :| HeldBy(states[i], t, c);
    assert CoreOk(states[i], states[i].cores[c]);
  }

  /** Cores are served in the order of their tickets. */
  lemma ServedInOrder(states: seq<State>, i: nat, j: nat, c: nat, d: nat)
    requires Run(states) && i <= j < |states| && c < |states[i].cores| && d < |states[j].cores|
    requires InService(states[i].cores[c].pc) && InService(states[j].cores[d].pc)
    ensures states[i].cores[c].ticket <= states[j].cores[d].ticket
  {
    ServingGrows(states, i, j);
    OneServed(states, i, c, c);
    OneServed(states, j, d, d);
  }

  /** A core that leaves the loop because allstop is clear has no ticket left to serve. */
  lemma NothingAbandoned(states: seq<State>, i: nat, c: nat)
    requires Run(states) && i < |states| && c < |states[i].cores| && states[i].cores[c].pc == Loop && !states[i].allstop
    ensures states[i].cores[c].ticket < states[i].serving
  {
    PrefixRun(states, i);
    assert CoreOk(states[i], states[i].cores[c]);
  }

  // ------------------------------------------------------------------------- progress

  /** How far the holder of the current ticket is from passing it on. */
  function Distance(pc: Pc): nat {
    match pc
    case Stop => 10 case Handle => 9 case Loop => 8 case Ask(_) => 7 case Test(_) => 6 case Take(_) => 12
    case Leave(l) => if l then 5 else 12 case Wait(l) => if l then 4 else 11
    case Decide => 3 case Bump(_) => 2 case Store(_, _) => 1 case Running => 13
  }

  /** Each step of the core whose turn it is brings it closer to passing the turn on. */
  lemma HolderAdvances(states: seq<State>, i: nat, c: nat, s': State)
    requires Run(states) && i < |states| && c < |states[i].cores| && states[i].cores[c].ticket == states[i].serving
    requires Step(states[i], s', c)
    ensures
      || s'.serving == states[i].serving + 1
      || (s'.cores[c].ticket == s'.serving && Distance(s'.cores[c].pc) < Distance(states[i].cores[c].pc))
  {
    PrefixRun(states, i);
    assert CoreOk(states[i], states[i].cores[c]);
  }

  /** While tickets are outstanding somebody can move: the core whose turn it is, or the one in the lock it waits
      for. */
  lemma NeverStuck(states: seq<State>, i: nat) returns (c: nat, s': State)
    requires Run(states) && i < |states| && states[i].serving < states[i].tcounter
    ensures c < |states[i].cores| && Step(states[i], s', c)
    ensures states[i].cores[c].ticket == states[i].serving || HoldsLock(states[i].cores[c].pc)
  {
    var s := states[i];
    PrefixRun(states, i);
    c := EachTicketHeldOnce(states, i, s.serving);
    if s.cores[c].pc.Ask? && s.locked {
      c :| 0 <= c < |s.cores| && HoldsLock(s.cores[c].pc);
    }
    s' := AnyStep(s, c);
  }

  lemma AnyStep(s: State, c: nat) returns (s': State)
    requires c < |s.cores| && (s.cores[c].pc.Ask? ==> !s.locked)
    ensures Step(s, s', c)
  {
    var k := s.cores[c];
    match k.pc
    case Running => s' := Put(s, c, k.(pc := Loop));
    case Ask(l) => s' := Put(s.(locked := true), c, k.(pc := Test(l)));
    case Test(l) => s' := Put(s, c, k.(pc := if s.serving - k.ticket > 0 then Take(l) else Leave(l)));
    case Take(l) => s' := Put(s.(tcounter := s.tcounter + 1), c, Core(Leave(l), s.tcounter));
    case Leave(l) => s' := Put(s.(locked := false), c, k.(pc := Wait(l)));
    case Wait(l) => s' := Put(s, c, k.(pc := if k.ticket != s.serving then Wait(l) else if l then Decide else Stop));
    case Stop => s' := Put(s.(allstop := true), c, k.(pc := Handle));
    case Handle => s' := Put(s, c, k.(pc := Loop));
    case Loop => s' := Put(s, c, k.(pc := if s.allstop then Ask(true) else Running));
    case Decide => s' := Put(s, c, k.(pc := Bump(false)));
    case Bump(r) => s' := Put(s, c, k.(pc := Store(r, s.serving + 1)));
    case Store(r, next) => s' := Put(s.(serving := next), c, k.(pc := if r then Running else Loop));
  }

  // ------------------------------------------------------------------------- the end of a stop

  /** How many steps a core is from running again if every decision is to continue. */
  function Weight(pc: Pc): nat {
    match pc
    case Running => 0 case Store(r, _) => if r then 1 else 10 case Bump(r) => if r then 2 else 11
    case Decide => 3 case Wait(l) => if l then 4 else 12 case Leave(l) => if l then 5 else 13
    case Take(l) => if l then 6 else 14 case Test(l) => if l then 7 else 15 case Ask(l) => if l then 8 else 16
    case Loop => 9 case Handle => 10 case Stop => 11
  }

  function Work(cores: seq<Core>): nat { if cores == [] then 0 else Weight(cores[0].pc) + Work(cores[1..]) }

  lemma {:induction false} WorkUpdate(cores: seq<Core>, c: nat, core: Core)
    requires c < |cores|
    ensures Work(cores[c := core]) == Work(cores) - Weight(cores[c].pc) + Weight(core.pc)
  {
    if c == 0 {
      assert cores[c := core][1..] == cores[1..];
    } else {
      WorkUpdate(cores[1..], c - 1, core);
      assert cores[c := core][1..] == cores[1..][c - 1 := core];
    }
  }

  ghost predicate AllRunning(cores: seq<Core>) { forall c :: 0 <= c < |cores| ==> cores[c].pc == Running }

  lemma {:induction false} NoWork(cores: seq<Core>)
    requires Work(cores) == 0
    ensures AllRunning(cores)
  {
    if cores != [] {
      NoWork(cores[1..]);
      assert forall c :: 0 < c < |cores| ==> cores[c] == cores[1..][c - 1];
    }
  }

  lemma {:induction false} SomeWork(cores: seq<Core>) returns (c: nat)
    requires Work(cores) > 0
    ensures c < |cores| && cores[c].pc != Running
  {
    if cores[0].pc != Running { return 0; }
    c := SomeWork(cores[1..]);
    c := c + 1;
  }

  /** A step of core c towards running again. */
  lemma Homeward(s: State, c: nat) returns (s': State)
    requires c < |s.cores| && s.cores[c].pc != Running && (s.cores[c].pc.Ask? ==> !s.locked)
    requires s.cores[c].pc.Wait? ==> s.cores[c].ticket == s.serving
    ensures Step(s, s', c) && Work(s'.cores) < Work(s.cores)
  {
    var k := s.cores[c];
    if k.pc == Decide {
      s' := Put(s.(allstop := false), c, k.(pc := Bump(true)));
    } else {
      s' := AnyStep(s, c);
      assert s'.cores == s.cores[c := s'.cores[c]];
    }
    WorkUpdate(s.cores, c, s'.cores[c]);
  }

  /** Who can take it, while any core is not running. */
  lemma SomeoneHomeward(s: State) returns (c: nat)
    requires Inv(s) && Work(s.cores) > 0
    ensures c < |s.cores| && s.cores[c].pc != Running && (s.cores[c].pc.Ask? ==> !s.locked)
    ensures s.cores[c].pc.Wait? ==> s.cores[c].ticket == s.serving
  {
    if s.serving < s.tcounter {
      assert Held(s, s.serving);
      c :| HeldBy(s, s.serving, c);
    } else {
      c := SomeWork(s.cores);
    }
    assert CoreOk(s, s.cores[c]);
    if s.cores[c].pc.Ask? && s.locked { c :| 0 <= c < |s.cores| && HoldsLock(s.cores[c].pc); }
  }

  /** From every reachable state the run can go on until all cores run again. */
  lemma AllResume(states: seq<State>) returns (longer: seq<State>)
    requires Run(states)
    ensures Run(longer) && states <= longer
    ensures AllRunning(longer[|longer| - 1].cores)
    decreases Work(states[|states| - 1].cores)
  {
    var s := states[|states| - 1];
    if Work(s.cores) == 0 {
      NoWork(s.cores);
      longer := states;
    } else {
      RunInv(states);
      var c := SomeoneHomeward(s);
      var s' := Homeward(s, c);
      assert Next(s, s');
      var more := Longer(states, s');
      longer := AllResume(more);
    }
  }

  /** The first n cores, those in the loop out of it. */
  ghost function Woken(s: State, n: nat): State requires n <= |s.cores| {
    s.(cores := seq(|s.cores|, c requires 0 <= c < |s.cores| =>
                      if c < n && s.cores[c].pc == Loop then s.cores[c].(pc := Running) else s.cores[c]))
  }

  /** A continue ends the stop: the core that decides it clears allstop and goes on to resume, and then every core in
      the loop can leave it for running without a turn of its own, with nothing else changed. */
  lemma ContinueWakesAll(states: seq<State>, c: nat) returns (longer: seq<State>)
    requires Run(states) && c < |states[|states| - 1].cores| && states[|states| - 1].cores[c].pc == Decide
    ensures Run(longer) && states < longer
    ensures var s, s' := states[|states| - 1], longer[|longer| - 1];
      && |s'.cores| == |s.cores| && !s'.allstop && s'.serving == s.serving && s'.tcounter == s.tcounter
      && s'.cores[c] == s.cores[c].(pc := Bump(true))
      && forall d :: 0 <= d < |s.cores| && d != c ==>
           s'.cores[d] == if s.cores[d].pc == Loop then s.cores[d].(pc := Running) else s.cores[d]
  {
    var s := states[|states| - 1];
    var s1 := Put(s.(allstop := false), c, s.cores[c].(pc := Bump(true)));
    assert Step(s, s1, c) && Next(s, s1);
    longer := Longer(states, s1);
    longer := WakeFirst(longer, |s1.cores|);
  }

  lemma Longer(states: seq<State>, s: State) returns (longer: seq<State>)
    requires Run(states) && Next(states[|states| - 1], s)
    ensures Run(longer) && longer == states + [s]
  {
    longer := states + [s];
    forall i | 0 <= i < |longer| - 1 ensures Next(longer[i], longer[i + 1]) {
      if i < |states| - 1 { assert Next(states[i], states[i + 1]); }
    }
  }

  lemma {:induction false} WakeFirst(states: seq<State>, n: nat) returns (longer: seq<State>)
    requires Run(states) && n <= |states[|states| - 1].cores| && !states[|states| - 1].allstop
    ensures Run(longer) && states <= longer && longer[|longer| - 1] == Woken(states[|states| - 1], n)
  {
    var s := states[|states| - 1];
    longer := states;
    if n == 0 {
      assert Woken(s, 0) == s;
    } else {
      longer := WakeFirst(states, n - 1);
      var s0 := longer[|longer| - 1];
      if s.cores[n - 1].pc == Loop {
        var s1 := Put(s0, n - 1, s0.cores[n - 1].(pc := Running));
        assert Step(s0, s1, n - 1) && Next(s0, s1);
        assert s1 == Woken(s, n);
        longer := Longer(longer, s1);
      } else {
        assert Woken(s, n) == s0;
      }
    }
  }

  lemma Onward(states: seq<State>, c: nat, s': State) returns (longer: seq<State>)
    requires Run(states) && c < |states[|states| - 1].cores| && Step(states[|states| - 1], s', c)
    ensures Run(longer) && longer == states + [s']
  {
    assert Next(states[|states| - 1], s');
    longer := Longer(states, s');
  }

  /** A single step resumes one core alone: the turn passes on, the stop stays, and no other core moves. */
  lemma StepsAlone(states: seq<State>, c: nat) returns (longer: seq<State>)
    requires Run(states) && c < |states[|states| - 1].cores| && states[|states| - 1].cores[c].pc == Decide
    ensures Run(longer) && states < longer
    ensures var s := states[|states| - 1];
      longer[|longer| - 1] == Put(s.(serving := s.serving + 1), c, s.cores[c].(pc := Running))
  {
    var s := states[|states| - 1];
    var k := s.cores[c];
    longer := Onward(states, c, Put(s, c, k.(pc := Bump(true))));
    longer := Onward(longer, c, Put(s, c, k.(pc := Store(true, s.serving + 1))));
    longer := Onward(longer, c, Put(s.(serving := s.serving + 1), c, k.(pc := Running)));
  }

  lemma TicketsUsed(s: State)
    requires Inv(s) && AllRunning(s.cores)
    ensures s.serving == s.tcounter
  {
    forall c | 0 <= c < |s.cores| ensures s.cores[c].ticket < s.serving { assert CoreOk(s, s.cores[c]); }
    assert !Held(s, s.serving);
  }

  /** A core that runs among others that run gets its turn at once. */
  lemma Excepted(states: seq<State>, c: nat) returns (longer: seq<State>)
    requires Run(states) && c < |states[|states| - 1].cores| && AllRunning(states[|states| - 1].cores)
    requires !states[|states| - 1].locked
    ensures Run(longer) && states < longer
    ensures var s := states[|states| - 1];
      longer[|longer| - 1] == Put(s.(tcounter := s.tcounter + 1), c, Core(Stop, s.tcounter)) && s.serving == s.tcounter
  {
    var s := states[|states| - 1];
    RunInv(states);
    TicketsUsed(s);
    assert CoreOk(s, s.cores[c]);
    var k, l, t := s.cores[c], s.(locked := true), s.(tcounter := s.tcounter + 1);
    longer := Onward(states, c, Put(s, c, k.(pc := Ask(false))));
    longer := Onward(longer, c, Put(l, c, k.(pc := Test(false))));
    longer := Onward(longer, c, Put(l, c, k.(pc := Take(false))));
    longer := Onward(longer, c, Put(l.(tcounter := s.tcounter + 1), c, Core(Leave(false), s.tcounter)));
    longer := Onward(longer, c, Put(t, c, Core(Wait(false), s.tcounter)));
    longer := Onward(longer, c, Put(t, c, Core(Stop, s.tcounter)));
  }

  /** The first n cores but c, those that run brought to the loop. */
  ghost function Halted(s: State, c: nat, n: nat): State requires n <= |s.cores| {
    s.(cores := seq(|s.cores|, d requires 0 <= d < |s.cores| =>
                      if d < n && d != c && s.cores[d].pc == Running then s.cores[d].(pc := Loop) else s.cores[d]))
  }

  lemma {:induction false} HaltFirst(states: seq<State>, c: nat, n: nat) returns (longer: seq<State>)
    requires Run(states) && n <= |states[|states| - 1].cores|
    ensures Run(longer) && states <= longer && longer[|longer| - 1] == Halted(states[|states| - 1], c, n)
  {
    var s := states[|states| - 1];
    longer := states;
    if n == 0 {
      assert Halted(s, c, 0) == s;
    } else {
      longer := HaltFirst(states, c, n - 1);
      var s0 := longer[|longer| - 1];
      if n - 1 != c && s.cores[n - 1].pc == Running {
        var s1 := Put(s0, n - 1, s0.cores[n - 1].(pc := Loop));
        assert s1 == Halted(s, c, n);
        longer := Onward(longer, n - 1, s1);
      } else {
        assert Halted(s, c, n) == s0;
      }
    }
  }

  /** From every reachable state, an exception on any core can come to stop them all: that core handles it while it is
      its turn, and every other core is in the loop. */
  lemma AnyCoreStopsAll(states: seq<State>, c: nat) returns (longer: seq<State>)
    requires Run(states) && c < |states[|states| - 1].cores|
    ensures Run(longer) && states < longer
    ensures var s := longer[|longer| - 1];
      && |s.cores| == |states[|states| - 1].cores| && s.allstop && s.cores[c] == Core(Handle, s.serving)
      && forall d :: 0 <= d < |s.cores| && d != c ==> s.cores[d].pc == Loop
  {
    longer := AllResume(states);
    SameCores(longer, |states| - 1, |longer| - 1);
    RunInv(longer);
    longer := Excepted(longer, c);
    var s := longer[|longer| - 1];
    longer := Onward(longer, c, Put(s.(allstop := true), c, s.cores[c].(pc := Handle)));
    longer := HaltFirst(longer, c, |s.cores|);
  }

  lemma {:induction false} SameCores(states: seq<State>, i: nat, j: nat)
    requires Run(states) && i <= j < |states|
    ensures |states[i].cores| == |states[j].cores|
    decreases j
  {
    if i < j {
      SameCores(states, i, j - 1);
      assert Next(states[j - 1], states[j - 1 + 1]);
    }
  }
}
