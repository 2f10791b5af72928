/** The fan-in handlers of simulation/eventhandler.go: messages, a timeout, a kill and two goroutines race
    over one handler, each taking its mutex for one step at a time. */
module Handlers {
  import opened Cardinality

  /** A step: a message arrives, the fire goroutine runs, the handler is killed, its timer expires, or the
      clean-up goroutine runs. */
  datatype Step = Trigger | Act | Kill | Timeout | Clean

  /** `tokens` are in the semaphore; `firing` and `cleaning` count goroutines started and not yet run; `timer` is
      set while the timeout goroutine waits; `owed` is the wait group's counter; `emitted` counts events sent. */
  datatype State = State(tokens: nat, quit: bool, done: bool, timer: bool, firing: nat, cleaning: nat,
                         acted: bool, cleaned: bool, owed: int, emitted: nat)

  const FRESH := State(0, false, false, true, 0, 0, false, false, 1, 0)

  predicate CanStep(s: State, step: Step) {
    match step
    case Act => s.firing > 0
    case Timeout => s.timer
    case Clean => s.cleaning > 0
    case _ => true
  }

  function Next(n: nat, s: State, step: Step): State
    requires CanStep(s, step)
  {
    match step
    case Trigger =>
      if s.quit || s.done then s
      else if s.tokens < n then s.(tokens := s.tokens + 1)
      else s.(done := true, firing := s.firing + 1, cleaning := s.cleaning + 1)
    case Act =>
      var t := s.(firing := s.firing - 1, acted := true);
      if s.acted then t else t.(owed := s.owed - 1, emitted := if s.quit then s.emitted else s.emitted + 1)
    case Kill =>
      s.(quit := true, tokens := if s.tokens < n then n else s.tokens, cleaned := true)
    case Timeout =>
      if s.done then s.(timer := false)
      else s.(timer := false, quit := true, cleaning := s.cleaning + 1, owed := s.owed - 1)
    case Clean =>
      s.(cleaning := s.cleaning - 1, cleaned := true)
  }

  /** Every step can be taken when its turn comes. */
  predicate Legal(n: nat, steps: seq<Step>)
    decreases |steps|, 0
  {
    steps == [] || (Legal(n, Init(steps)) && CanStep(Run(n, Init(steps)), Last(steps)))
  }

  function Run(n: nat, steps: seq<Step>): State
    requires Legal(n, steps)
    decreases |steps|, 1
  {
    if steps == [] then FRESH else Next(n, Run(n, Init(steps)), Last(steps))
  }

  function Init<T>(s: seq<T>): seq<T>
    requires s != []
  {
    s[..|s| - 1]
  }

  function Last<T>(s: seq<T>): T
    requires s != []
  {
    s[|s| - 1]
  }

  function Count<T(==)>(s: seq<T>, x: T): nat {
    if s == [] then 0 else Count(Init(s), x) + if Last(s) == x then 1 else 0
  }

  // ---------------------------------------------------------------- what a history says

  predicate Quiet(steps: seq<Step>) {
    Kill !in steps && Timeout !in steps
  }

  /** Step `i` is the message that crosses the threshold: n came before it, and neither a kill nor a timeout. */
  predicate CrossesAt(n: nat, steps: seq<Step>, i: nat)
    requires i < |steps|
  {
    steps[i] == Trigger && Count(steps[..i], Trigger) == n && Quiet(steps[..i])
  }

  predicate Crossed(n: nat, steps: seq<Step>) {
    exists i: nat :: i < |steps| && CrossesAt(n, steps, i)
  }

  /** The timer expired before the threshold was crossed. */
  predicate LapsesAt(n: nat, steps: seq<Step>, i: nat)
    requires i < |steps|
  {
    steps[i] == Timeout && !Crossed(n, steps[..i])
  }

  predicate Lapsed(n: nat, steps: seq<Step>) {
    exists i: nat :: i < |steps| && LapsesAt(n, steps, i)
  }

  /** The fire goroutine ran after the threshold was crossed and before any kill. */
  predicate FiresAt(n: nat, steps: seq<Step>, i: nat)
    requires i < |steps|
  {
    steps[i] == Act && Crossed(n, steps[..i]) && Kill !in steps[..i]
  }

  predicate Fired(n: nat, steps: seq<Step>) {
    exists i: nat :: i < |steps| && FiresAt(n, steps, i)
  }

  lemma Histories(n: nat, steps: seq<Step>)
    requires steps != []
    ensures var was, i := Init(steps), |steps| - 1;
            && (Crossed(n, steps) <==> Crossed(n, was) || CrossesAt(n, steps, i))
            && (Lapsed(n, steps) <==> Lapsed(n, was) || LapsesAt(n, steps, i))
            && (Fired(n, steps) <==> Fired(n, was) || FiresAt(n, steps, i))
  {
    var was := Init(steps);
    assert forall i :: 0 <= i <= |was| ==> steps[..i] == was[..i];
    assert forall i: nat :: i < |was| ==> CrossesAt(n, steps, i) == CrossesAt(n, was, i);
    assert forall i: nat :: i < |was| ==> LapsesAt(n, steps, i) == LapsesAt(n, was, i);
    assert forall i: nat :: i < |was| ==> FiresAt(n, steps, i) == FiresAt(n, was, i);
  }

  function One(b: bool): nat {
    if b then 1 else 0
  }

  /** The state of a handler is determined by its history, whatever the interleaving. */
  ghost predicate Told(n: nat, steps: seq<Step>, s: State) {
    && (s.done <==> Crossed(n, steps))
    && (s.quit <==> Kill in steps || Lapsed(n, steps))
    && (s.timer <==> Timeout !in steps)
    && (Timeout in steps ==> Lapsed(n, steps) || Crossed(n, steps)) && (Lapsed(n, steps) ==> Timeout in steps)
    && !(Lapsed(n, steps) && Crossed(n, steps))
    && (!s.done && !s.quit ==> s.tokens == Count(steps, Trigger))
    && s.tokens <= n && (Crossed(n, steps) || Kill in steps ==> s.tokens == n)
    && s.firing + One(s.acted) == One(s.done)
    && s.emitted == One(Fired(n, steps))
    && (s.acted && !Fired(n, steps) ==> Kill in steps)
    && s.owed == 1 - One(s.acted) - One(Lapsed(n, steps))
    && (Fired(n, steps) ==> s.acted)
    && (Crossed(n, steps) ==> Count(steps, Trigger) > n)
    && (s.cleaned <==> Kill in steps || Clean in steps)
    && s.cleaning + Count(steps, Clean) == One(Crossed(n, steps)) + One(Lapsed(n, steps))
  }

  /** How one more step changes what the history says. */
  lemma OneMore(n: nat, was: seq<Step>, step: Step)
    ensures var steps := was + [step];
            && Init(steps) == was && Last(steps) == step && steps[..|was|] == was
            && (Kill in steps <==> Kill in was || step == Kill)
               && (Timeout in steps <==> Timeout in was || step == Timeout)
               && (Clean in steps <==> Clean in was || step == Clean)
            && Count(steps, Trigger) == Count(was, Trigger) + One(step == Trigger)
            && Count(steps, Clean) == Count(was, Clean) + One(step == Clean)
            && (Crossed(n, steps) <==> Crossed(n, was) || (step == Trigger && Count(was, Trigger) == n && Quiet(was)))
            && (Lapsed(n, steps) <==> Lapsed(n, was) || (step == Timeout && !Crossed(n, was)))
            && (Fired(n, steps) <==> Fired(n, was) || (step == Act && Crossed(n, was) && Kill !in was))
  {
    hide Crossed, Lapsed, Fired, Quiet, Count;
    var steps := was + [step];
    assert Init(steps) == was && Last(steps) == step && steps[..|was|] == was;
    Histories(n, steps);
    CountLast(was, step, Trigger);
    CountLast(was, step, Clean);
  }

  lemma CountLast(was: seq<Step>, step: Step, x: Step)
    ensures Count(was + [step], x) == Count(was, x) + One(step == x)
  {
    assert Init(was + [step]) == was && Last(was + [step]) == step;
  }

  lemma ToldNext(n: nat, was: seq<Step>, s: State, step: Step)
    requires Told(n, was, s) && CanStep(s, step)
    ensures Told(n, was + [step], Next(n, s, step))
  {
    hide Crossed, Lapsed, Fired, Count;
    OneMore(n, was, step);
  }

  lemma {:induction false} StateFromHistory(n: nat, steps: seq<Step>)
    requires Legal(n, steps)
    ensures Told(n, steps, Run(n, steps))
    decreases |steps|
  {
    hide Told, Next, CanStep;
    if steps == [] {
      ToldFresh(n);
    } else {
      StateFromHistory(n, Init(steps));
      ToldNext(n, Init(steps), Run(n, Init(steps)), Last(steps));
      assert steps == Init(steps) + [Last(steps)];
    }
  }

  lemma StepTold(n: nat, log: seq<Step>, step: Step)
    requires Legal(n, log) && CanStep(Run(n, log), step)
    ensures Legal(n, log + [step]) && Run(n, log + [step]) == Next(n, Run(n, log), step)
    ensures Told(n, log + [step], Next(n, Run(n, log), step))
  {
    OneStep(n, log, step);
    StateFromHistory(n, log + [step]);
  }

  lemma ToldFresh(n: nat)
    ensures Told(n, [], FRESH)
  {
  }

  // ---------------------------------------------------------------- one handler, any interleaving

  /** The event is sent at most once, and exactly when more than n messages arrived before any kill or timeout
      and the fire goroutine then ran before any kill. */
  lemma EmitsIff(n: nat, steps: seq<Step>)
    requires Legal(n, steps)
    ensures Run(n, steps).emitted <= 1
    ensures Run(n, steps).emitted == 1 <==>
      exists i: nat, j: nat :: i < j < |steps| && CrossesAt(n, steps, i) && steps[j] == Act && Kill !in steps[..j]
    ensures Run(n, steps).emitted == 1 ==> Count(steps, Trigger) > n && !Lapsed(n, steps)
  {
    hide Run, Legal, Count, Quiet;
    StateFromHistory(n, steps);
    FiredIff(n, steps);
    if Fired(n, steps) {
      var i: nat, j: nat :| i < j < |steps| && CrossesAt(n, steps, i) && steps[j] == Act && Kill !in steps[..j];
      assert Crossed(n, steps);
    }
  }

  lemma FiredIff(n: nat, steps: seq<Step>)
    ensures Fired(n, steps) <==>
            exists i: nat, j: nat :: i < j < |steps| && CrossesAt(n, steps, i) && steps[j] == Act && Kill !in steps[..j]
  {
    hide Count, Quiet;
    if Fired(n, steps) {
      var j: nat :| j < |steps| && FiresAt(n, steps, j);
      var i: nat :| i < j && CrossesAt(n, steps[..j], i);
      assert steps[..j][..i] == steps[..i];
      assert CrossesAt(n, steps, i) && steps[j] == Act;
    }
    if i: nat, j: nat :| i < j < |steps| && CrossesAt(n, steps, i) && steps[j] == Act && Kill !in steps[..j] {
      assert steps[..j][..i] == steps[..i];
      assert CrossesAt(n, steps[..j], i);
      assert FiresAt(n, steps, j);
    }
  }

  /** The wait group is released exactly once, by the fire goroutine or by the timeout, never by both; and a
      handler with no goroutine left to run has been released. */
  lemma ReleasedOnce(n: nat, steps: seq<Step>)
    requires Legal(n, steps)
    ensures var s := Run(n, steps);
            && s.owed == 1 - One(s.acted) - One(Lapsed(n, steps)) && 0 <= s.owed
            && !(s.acted && Lapsed(n, steps))
            && (s.firing == 0 && !s.timer ==> s.owed == 0)
  {
    hide Run, Legal, Crossed, Lapsed, Fired;
    StateFromHistory(n, steps);
  }

  /** A handler that crossed the threshold or timed out has cleaned up, or its clean-up goroutine is still to
      run; it runs once for either. Nothing else but a kill cleans up. */
  lemma CleansUpIff(n: nat, steps: seq<Step>)
    requires Legal(n, steps)
    ensures var s := Run(n, steps);
            && (Crossed(n, steps) || Lapsed(n, steps) ==> s.cleaned || s.cleaning > 0)
            && (s.cleaning == 0 ==>
                 (s.cleaned <==> Crossed(n, steps) || Lapsed(n, steps) || Kill in steps))
            && Count(steps, Clean) + s.cleaning == One(Crossed(n, steps) || Lapsed(n, steps))
  {
    hide Run, Legal, Crossed, Lapsed, Fired;
    StateFromHistory(n, steps);
    CountIn(steps, Clean);
  }

  lemma {:induction false} CountIn<T>(s: seq<T>, x: T)
    ensures Count(s, x) > 0 <==> x in s
  {
    if s != [] {
      CountIn(Init(s), x);
      assert s == Init(s) + [Last(s)];
    }
  }

  // ---------------------------------------------------------------- the registry, as a value

  /** Every handler ever made, with its history; `live` says which one a hash is registered to. */
  datatype Made = Made(hash: string, log: seq<Step>)
  datatype Reg = Reg(live: map<string, nat>, made: seq<Made>)
  datatype Event = Register(hash: string) | Check(hash: string) | At(i: nat, step: Step)

  /** A handler is registered under its hash exactly until its clean-up has run, so at most one handler per
      hash awaits its clean-up. */
  ghost predicate RegOk(n: nat, r: Reg) {
    && (forall h :: h in r.live ==> r.live[h] < |r.made| && r.made[r.live[h]].hash == h)
    && (forall i :: 0 <= i < |r.made| ==> Legal(n, r.made[i].log))
    && (forall i :: 0 <= i < |r.made| ==> (!Run(n, r.made[i].log).cleaned <==> LiveAt(r, i)))
  }

  predicate LiveAt(r: Reg, i: nat)
    requires i < |r.made|
  {
    r.made[i].hash in r.live && r.live[r.made[i].hash] == i
  }

  predicate CleansUp(s: State, step: Step) {
    (step == Kill || step == Clean) && !s.cleaned
  }

  ghost predicate CanDo(n: nat, r: Reg, e: Event)
    requires RegOk(n, r)
  {
    e.At? ==> e.i < |r.made| && e.step != Trigger && CanStep(Run(n, r.made[e.i].log), e.step)
  }

  function Logged(r: Reg, i: nat, step: Step): seq<Made>
    requires i < |r.made|
  {
    r.made[i := r.made[i].(log := r.made[i].log + [step])]
  }

  ghost function Do(n: nat, r: Reg, e: Event): Reg
    requires RegOk(n, r) && CanDo(n, r, e)
  {
    match e
    case Register(h) => if h in r.live then r else Reg(r.live[h := |r.made|], r.made + [Made(h, [])])
    case Check(h) => if h in r.live then r.(made := Logged(r, r.live[h], Trigger)) else r
    case At(i, step) =>
      Reg(if CleansUp(Run(n, r.made[i].log), step) then r.live - {r.made[i].hash} else r.live, Logged(r, i, step))
  }

  lemma OneStep(n: nat, log: seq<Step>, step: Step)
    requires Legal(n, log) && CanStep(Run(n, log), step)
    ensures Legal(n, log + [step]) && Run(n, log + [step]) == Next(n, Run(n, log), step)
    ensures Run(n, log + [step]).cleaned <==> Run(n, log).cleaned || CleansUp(Run(n, log), step)
  {
    assert Init(log + [step]) == log && Last(log + [step]) == step;
  }

  lemma DoKeeps(n: nat, r: Reg, e: Event)
    requires RegOk(n, r) && CanDo(n, r, e)
    ensures RegOk(n, Do(n, r, e))
  {
    hide RegOk, Do, CanDo;
    match e
    case Register(h) => RegisterKeeps(n, r, h);
    case Check(h) => CheckKeeps(n, r, h);
    case At(i, step) => StepAtKeeps(n, r, i, step);
  }

  lemma RegisterKeeps(n: nat, r: Reg, h: string)
    requires RegOk(n, r)
    ensures CanDo(n, r, Register(h)) && RegOk(n, Do(n, r, Register(h)))
  {
    hide Legal, Run, CanStep, Next;
    Nothing(n);
  }

  lemma CheckKeeps(n: nat, r: Reg, h: string)
    requires RegOk(n, r)
    ensures CanDo(n, r, Check(h)) && RegOk(n, Do(n, r, Check(h)))
  {
    hide Legal, Run, CanStep, Next;
    if h in r.live {
      TriggerAlways(n, r.made[r.live[h]].log);
      OneStep(n, r.made[r.live[h]].log, Trigger);
    }
  }

  lemma StepAtKeeps(n: nat, r: Reg, i: nat, step: Step)
    requires RegOk(n, r) && CanDo(n, r, At(i, step))
    ensures RegOk(n, Do(n, r, At(i, step)))
  {
    hide Legal, Run, CanStep, Next;
    OneStep(n, r.made[i].log, step);
  }

  lemma TriggerAlways(n: nat, log: seq<Step>)
    requires Legal(n, log)
    ensures CanStep(Run(n, log), Trigger)
  {
  }

  lemma Nothing(n: nat)
    ensures Legal(n, []) && Run(n, []) == FRESH
  {
  }

  ghost predicate AllDo(n: nat, r: Reg, es: seq<Event>)
    requires RegOk(n, r)
    decreases |es|
  {
    es != [] ==> CanDo(n, r, es[0]) && (DoKeeps(n, r, es[0]); AllDo(n, Do(n, r, es[0]), es[1..]))
  }

  ghost function After(n: nat, r: Reg, es: seq<Event>): Reg
    requires RegOk(n, r) && AllDo(n, r, es)
    decreases |es|
  {
    if es == [] then r
    else
      DoKeeps(n, r, es[0]);
      After(n, Do(n, r, es[0]), es[1..])
  }

  /** Messages for `h` that found a handler. */
  ghost function Found(n: nat, r: Reg, es: seq<Event>, h: string): nat
    requires RegOk(n, r) && AllDo(n, r, es)
    decreases |es|
  {
    if es == [] then 0
    else
      DoKeeps(n, r, es[0]);
      One(es[0] == Check(h) && h in r.live) + Found(n, Do(n, r, es[0]), es[1..], h)
  }

  function Seen(made: seq<Made>, h: string): nat {
    if made == [] then 0
    else Seen(Init(made), h) + if Last(made).hash == h then Count(Last(made).log, Trigger) else 0
  }

  ghost function Emitted(n: nat, made: seq<Made>, h: string): nat
    requires forall i :: 0 <= i < |made| ==> Legal(n, made[i].log)
  {
    if made == [] then 0
    else Emitted(n, Init(made), h) + if Last(made).hash == h then Run(n, Last(made).log).emitted else 0
  }

  // ---------------------------------------------------------------- the registry, over any run

  /** A handler's clean-up, whether by its goroutine or by a kill, unregisters that very handler, once, and
      never a handler registered later under the same hash. */
  lemma CleanUpRemovesOwn(n: nat, r: Reg, i: nat, step: Step)
    requires RegOk(n, r) && CanDo(n, r, At(i, step))
    ensures var r' := Do(n, r, At(i, step));
            && (if CleansUp(Run(n, r.made[i].log), step) then LiveAt(r, i) && r'.live == r.live - {r.made[i].hash}
               else r'.live == r.live)
            && (forall j :: 0 <= j < |r.made| && j != i ==> (LiveAt(r', j) <==> LiveAt(r, j)))
  {
    hide Legal, Run, CanStep;
  }

  /** A handler with no clean-up goroutine left to run is unregistered exactly if it crossed its threshold, timed
      out or was killed; one with such a goroutine, when that or a kill has cleaned up. */
  lemma UnregisteredIff(n: nat, r: Reg, i: nat)
    requires RegOk(n, r) && i < |r.made|
    ensures var log := r.made[i].log;
            && (!LiveAt(r, i) <==> Kill in log || Clean in log)
            && (Run(n, log).cleaning == 0 ==>
                 (!LiveAt(r, i) <==> Crossed(n, log) || Lapsed(n, log) || Kill in log))
  {
    hide Legal, Run, Crossed, Lapsed, Fired;
    CleansUpIff(n, r.made[i].log);
    StateFromHistory(n, r.made[i].log);
  }

  /** Once every handler made for a hash has crossed its threshold, timed out or been killed, and none has a
      clean-up goroutine left to run, the hash is free: Register makes a new handler for it. Until then it is not. */
  lemma FreeIff(n: nat, r: Reg, h: string)
    requires RegOk(n, r)
    requires forall i :: 0 <= i < |r.made| && r.made[i].hash == h ==> Run(n, r.made[i].log).cleaning == 0
    ensures (forall i :: 0 <= i < |r.made| && r.made[i].hash == h ==>
               Crossed(n, r.made[i].log) || Lapsed(n, r.made[i].log) || Kill in r.made[i].log) <==> h !in r.live
    ensures h !in r.live <==> Do(n, r, Register(h)).live == r.live[h := |r.made|]
    ensures h !in r.live ==> Do(n, r, Register(h)).made == r.made + [Made(h, [])]
  {
    hide Legal, Run, Crossed, Lapsed;
    forall i | 0 <= i < |r.made| && r.made[i].hash == h
      ensures Crossed(n, r.made[i].log) || Lapsed(n, r.made[i].log) || Kill in r.made[i].log
              <==> !LiveAt(r, i)
    {
      UnregisteredIff(n, r, i);
    }
    if h in r.live {
      assert LiveAt(r, r.live[h]);
    }
  }

  lemma {:induction false} SeenUpdate(made: seq<Made>, i: nat, step: Step, h: string)
    requires i < |made|
    ensures Seen(made[i := made[i].(log := made[i].log + [step])], h)
            == Seen(made, h) + One(made[i].hash == h && step == Trigger)
    decreases |made|
  {
    var m := made[i].(log := made[i].log + [step]);
    var more := made[i := m];
    assert Last(more) == if i == |made| - 1 then m else Last(made);
    if i == |made| - 1 {
      assert Init(more) == Init(made);
      assert Init(m.log) == made[i].log && Last(m.log) == step;
    } else {
      assert Init(more) == Init(made)[i := m];
      SeenUpdate(Init(made), i, step, h);
    }
  }

  lemma {:induction false} SeenAfter(n: nat, r: Reg, es: seq<Event>, h: string)
    requires RegOk(n, r) && AllDo(n, r, es)
    ensures RegOk(n, After(n, r, es)) && Seen(After(n, r, es).made, h) == Seen(r.made, h) + Found(n, r, es, h)
    decreases |es|
  {
    if es != [] {
      DoKeeps(n, r, es[0]);
      SeenOne(n, r, es[0], h);
      hide Do, CanDo, RegOk, Seen;
      SeenAfter(n, Do(n, r, es[0]), es[1..], h);
    }
  }

  lemma SeenOne(n: nat, r: Reg, e: Event, h: string)
    requires RegOk(n, r) && CanDo(n, r, e)
    ensures Seen(Do(n, r, e).made, h) == Seen(r.made, h) + One(e == Check(h) && h in r.live)
  {
    hide Legal, Run, CanStep;
    match e
    case Register(k) =>
      assert Init(r.made + [Made(k, [])]) == r.made && Last(r.made + [Made(k, [])]) == Made(k, []);
    case Check(k) =>
      if k in r.live {
        SeenUpdate(r.made, r.live[k], Trigger, h);
      }
    case At(i, step) =>
      SeenUpdate(r.made, i, step, h);
  }

  lemma {:induction false} EmittedSeen(n: nat, made: seq<Made>, h: string)
    requires forall i :: 0 <= i < |made| ==> Legal(n, made[i].log)
    ensures Emitted(n, made, h) * (n + 1) <= Seen(made, h)
    decreases |made|
  {
    if made != [] {
      EmittedSeen(n, Init(made), h);
      hide Run, Legal, CrossesAt, Count;
      var log := Last(made).log;
      EmitsIff(n, log);
      Accrue(Emitted(n, Init(made), h), Run(n, log).emitted, n, Seen(Init(made), h), Count(log, Trigger));
    }
  }

  /** From an empty registry, after any run: at most one handler per hash is registered, and the handlers of a
      hash together have sent at most one event for every n + 1 messages the registry accepted for it. */
  lemma EventsBounded(n: nat, es: seq<Event>, h: string)
    requires RegOk(n, Reg(map[], [])) && AllDo(n, Reg(map[], []), es)
    ensures var r := After(n, Reg(map[], []), es);
            && RegOk(n, r)
            && (forall i, j :: 0 <= i < j < |r.made| && r.made[i].hash == r.made[j].hash ==>
                                 Run(n, r.made[i].log).cleaned || Run(n, r.made[j].log).cleaned)
            && Emitted(n, r.made, h) <= Found(n, Reg(map[], []), es, h) / (n + 1)
  {
    hide Run, Legal, AllDo, After, Emitted, Found;
    var r := After(n, Reg(map[], []), es);
    SeenAfter(n, Reg(map[], []), es, h);
    EmittedSeen(n, r.made, h);
    AtMost(Emitted(n, r.made, h), n + 1, Found(n, Reg(map[], []), es, h));
  }

  lemma Accrue(sum: nat, more: nat, n: nat, seen: nat, count: nat)
    requires sum * (n + 1) <= seen && more <= 1 && (more == 1 ==> count > n)
    ensures (sum + more) * (n + 1) <= seen + count
  {
    assert (sum + more) * (n + 1) == sum * (n + 1) + more * (n + 1);
  }
}
