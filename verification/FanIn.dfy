/** FanInHandler of simulation/eventhandler.go and msgcount of simulation/eventregistry.go, as objects
    following the histories of Handlers.dfy. */
module FanIn {
  import opened Handlers

  class Channel<E> {
    var events: seq<E>

    constructor ()
      ensures events == []
    {
      events := [];
    }

    method Send(e: E)
      modifies this
      ensures events == old(events) + [e]
    {
      events := events + [e];
    }
  }

  class FanInHandler<E> {
    const n: nat
    const hash: string
    const event: E
    const eventq: Channel<E>
    const registry: MsgCount<E>
    var sema: nat
    var quit: bool
    var done: bool
    var actOnce: bool
    var cleanOnce: bool
    var wg: int
    // goroutines started and still to run
    var timer: bool
    var firing: nat
    var cleaning: nat
    ghost var sent: nat
    ghost var log: seq<Step>

    ghost function AsState(): State
      reads this
    {
      State(sema, quit, done, timer, firing, cleaning, actOnce, cleanOnce, wg, sent)
    }

    ghost predicate Valid()
      reads this
    {
      Legal(n, log) && AsState() == Run(n, log)
    }

    constructor (n: nat, hash: string, event: E, eventq: Channel<E>, registry: MsgCount<E>)
      ensures this.n == n && this.hash == hash && this.event == event && this.eventq == eventq
              && this.registry == registry
      ensures Valid() && log == []
    {
      this.n, this.hash, this.event, this.eventq, this.registry := n, hash, event, eventq, registry;
      sema, quit, done, actOnce, cleanOnce, wg := 0, false, false, false, false, 1;
      timer, firing, cleaning := true, 0, 0;
      sent, log := 0, [];
    }

    /** A message: a token while there is room in the semaphore, otherwise the threshold is crossed. */
    method Trigger()
      requires Valid()
      modifies this
      ensures Valid() && log == old(log) + [Step.Trigger] && Told(n, log, AsState())
    {
      hide Legal, Run, Told;
      StepTold(n, log, Step.Trigger);
      log := log + [Step.Trigger];
      if quit || done {
        return;
      }
      if sema < n {
        sema := sema + 1;
      } else {
        done := true;
        firing := firing + 1;
        cleaning := cleaning + 1;
      }
    }

    /** The fire goroutine. */
    method Act()
      requires Valid() && firing > 0
      modifies this, eventq
      ensures Valid() && log == old(log) + [Step.Act] && Told(n, log, AsState())
      ensures eventq.events == old(eventq.events) + if sent > old(sent) then [event] else []
    {
      hide Legal, Run, Told;
      StepTold(n, log, Step.Act);
      log := log + [Step.Act];
      firing := firing - 1;
      if !actOnce {
        actOnce := true;
        if !quit {
          eventq.Send(event);
          sent := sent + 1;
        }
        wg := wg - 1;
      }
    }

    /** The timeout goroutine. */
    method Timeout()
      requires Valid() && timer
      modifies this
      ensures Valid() && log == old(log) + [Step.Timeout] && Told(n, log, AsState())
    {
      hide Legal, Run, Told;
      StepTold(n, log, Step.Timeout);
      log := log + [Step.Timeout];
      timer := false;
      if done {
        return;
      }
      quit := true;
      cleaning := cleaning + 1;
      wg := wg - 1;
    }

    /** The clean-up goroutine. */
    method CleanUp()
      requires Valid() && cleaning > 0
      modifies this, registry`handlers
      ensures Valid() && log == old(log) + [Step.Clean] && Told(n, log, AsState())
      ensures registry.handlers == if old(cleanOnce) then old(registry.handlers) else old(registry.handlers) - {hash}
    {
      hide Legal, Run, Told;
      StepTold(n, log, Step.Clean);
      log := log + [Step.Clean];
      cleaning := cleaning - 1;
      if !cleanOnce {
        cleanOnce := true;
        registry.handlers := registry.handlers - {hash};
      }
    }

    /** Fills the semaphore, so that nothing crosses the threshold any more, and cleans up. */
    method Kill()
      requires Valid()
      modifies this, registry`handlers
      ensures Valid() && log == old(log) + [Step.Kill] && Told(n, log, AsState())
      ensures registry.handlers == if old(cleanOnce) then old(registry.handlers) else old(registry.handlers) - {hash}
    {
      hide Legal, Run, Told;
      StepTold(n, log, Step.Kill);
      log := log + [Step.Kill];
      quit := true;
      while sema < n
        invariant sema == old(sema) || (old(sema) < sema <= n)
        invariant AsState() == old(AsState()).(quit := true, tokens := sema)
        invariant log == old(log) + [Step.Kill] && registry.handlers == old(registry.handlers)
      {
        sema := sema + 1;
      }
      if !cleanOnce {
        cleanOnce := true;
        registry.handlers := registry.handlers - {hash};
      }
    }
  }

  ghost function Logs<E>(hs: seq<FanInHandler<E>>): (r: seq<Made>)
    reads hs
    ensures |r| == |hs| && forall i :: 0 <= i < |hs| ==> r[i] == Made(hs[i].hash, hs[i].log)
  {
    if hs == [] then [] else Logs(hs[..|hs| - 1]) + [Made(hs[|hs| - 1].hash, hs[|hs| - 1].log)]
  }

  class MsgCount<E> {
    const n: nat
    var handlers: map<string, FanInHandler<E>>
    ghost var made: seq<FanInHandler<E>>
    ghost var live: map<string, nat>

    ghost function View(): Reg
      reads this`made, this`live, made
    {
      Reg(live, Logs(made))
    }

    ghost predicate Valid()
      reads this, made
    {
      RegOk(n, View()) && Linked()
    }

    /** The handlers are those made for the registered hashes, distinct and each following its own history. */
    ghost predicate Linked()
      reads this, made
    {
      && live.Keys == handlers.Keys
      && (forall h :: h in live ==> live[h] < |made| && made[live[h]] == handlers[h])
      && (forall i :: 0 <= i < |made| ==> Ours(made[i]))
      && (forall i, j :: 0 <= i < j < |made| ==> made[i] != made[j])
    }

    ghost predicate Ours(h: FanInHandler<E>)
      reads h
    {
      h.Valid() && h.n == n && h.registry == this
    }

    constructor (n: nat)
      ensures this.n == n && Valid() && View() == Reg(map[], [])
    {
      this.n := n;
      handlers := map[];
      made, live := [], map[];
    }

    method Enter(hash: string, event: E, eventq: Channel<E>)
      requires Linked() && hash !in handlers
      modifies this
      ensures Linked() && View() == Reg(old(live)[hash := |old(made)|], old(View()).made + [Made(hash, [])])
      ensures handlers.Keys == old(handlers).Keys + {hash}
      ensures fresh(handlers[hash]) && handlers[hash].event == event && handlers[hash].eventq == eventq
    {
      hide FanInHandler.Valid, Logs, Ours;
      var h := new FanInHandler(n, hash, event, eventq, this);
      NewIsOurs(h);
      assert forall i :: 0 <= i < |made| ==> made[i] != h;
      AddMade(h);
    }

    lemma NewIsOurs(h: FanInHandler<E>)
      requires h.Valid() && h.n == n && h.registry == this
      ensures Ours(h)
    {
    }

    method AddMade(h: FanInHandler<E>)
      requires Linked() && h.hash !in handlers && Ours(h) && h.log == [] && forall i :: 0 <= i < |made| ==> made[i] != h
      modifies this
      ensures Linked() && View() == Reg(old(live)[h.hash := |old(made)|], old(View()).made + [Made(h.hash, [])])
      ensures handlers == old(handlers)[h.hash := h]
    {
      hide Logs, Ours;
      handlers := handlers[h.hash := h];
      live := live[h.hash := |made|];
      made := made + [h];
      LogsGrow(old(made), h);
    }

    lemma LogsGrow(was: seq<FanInHandler<E>>, h: FanInHandler<E>)
      ensures Logs(was + [h]) == Logs(was) + [Made(h.hash, h.log)]
    {
    }

    /** A hash is free exactly when every handler ever made for it has cleaned up or was killed. */
    lemma FreeSeen(hash: string)
      requires Valid()
      ensures hash !in handlers <==>
              forall i :: 0 <= i < |made| && made[i].hash == hash ==> Step.Kill in made[i].log || Clean in made[i].log
    {
      hide Legal, Run, Logs, FanInHandler.Valid;
      forall i | 0 <= i < |made|
        ensures View().made[i] == Made(made[i].hash, made[i].log)
        ensures !LiveAt(View(), i) <==> Step.Kill in made[i].log || Clean in made[i].log
      {
        UnregisteredIff(n, View(), i);
      }
      if hash in handlers {
        assert LiveAt(View(), live[hash]);
      }
    }

    /** A hash that has a handler keeps it; a free one gets a new handler, with this event and queue. */
    method Register(hash: string, event: E, eventq: Channel<E>) returns (ok: bool)
      requires Valid()
      modifies this
      ensures Valid() && CanDo(n, old(View()), Event.Register(hash))
              && View() == Do(n, old(View()), Event.Register(hash))
      ensures ok <==> hash !in old(handlers)
      ensures ok <==> old(forall i :: 0 <= i < |made| && made[i].hash == hash ==>
                        Step.Kill in made[i].log || Clean in made[i].log)
      ensures ok ==> fresh(handlers[hash]) && handlers[hash].event == event && handlers[hash].eventq == eventq
      ensures !ok ==> handlers == old(handlers)
    {
      hide RegOk, Logs, Ours, FanInHandler.Valid;
      FreeSeen(hash);
      DoKeeps(n, View(), Event.Register(hash));
      if hash in handlers {
        return false;
      }
      Enter(hash, event, eventq);
      return true;
    }

    method Deliver(hash: string)
      requires Linked() && hash in handlers
      modifies handlers[hash]
      ensures Linked() && View() == Reg(live, Logged(old(View()), live[hash], Step.Trigger))
    {
      hide FanInHandler.Valid, Logs;
      handlers[hash].Trigger();
      assert Logs(made) == Logged(old(View()), live[hash], Step.Trigger);
    }

    method Check(hash: string) returns (found: bool)
      requires Valid()
      modifies made
      ensures Valid() && CanDo(n, old(View()), Event.Check(hash)) && View() == Do(n, old(View()), Event.Check(hash))
      ensures found <==> hash in handlers
    {
      hide RegOk, Logs, Ours, FanInHandler.Valid;
      DoKeeps(n, View(), Event.Check(hash));
      if hash !in handlers {
        return false;
      }
      Deliver(hash);
      return true;
    }

    /** What a handler says of itself is what the registry's history says of it. */
    lemma HandlerSeen(i: nat)
      requires Valid() && i < |made|
      ensures View().made[i] == Made(made[i].hash, made[i].log) && Ours(made[i])
      ensures Legal(n, made[i].log) && Run(n, made[i].log) == made[i].AsState()
      ensures !made[i].cleanOnce <==> LiveAt(View(), i)
    {
      hide Legal, Run;
    }

    /** Unregisters handler `i` if its clean-up had not run. */
    ghost method Forget(i: nat, was: Reg, first: bool)
      requires i < |made| && was.live == live && |was.made| == |made| && was.made[i].hash == made[i].hash
      requires live.Keys - (if first then {made[i].hash} else {}) == handlers.Keys
      requires forall h :: h in handlers ==> live[h] < |made| && made[live[h]] == handlers[h]
      requires (forall j :: 0 <= j < |made| ==> Ours(made[j]))
               && (forall j, k :: 0 <= j < k < |made| ==> made[j] != made[k])
      modifies this`live
      ensures Linked() && live == (if first then old(live) - {made[i].hash} else old(live))
              && Logs(made) == old(Logs(made))
    {
      hide FanInHandler.Valid, Logs;
      if first {
        live := live - {made[i].hash};
      }
    }

    /** The clean-up goroutine of a handler runs. */
    method CleanUp(ghost i: nat, h: FanInHandler<E>)
      requires Valid() && i < |made| && made[i] == h && h.cleaning > 0
      modifies this`handlers, this`live, h
      ensures Valid() && CanDo(n, old(View()), At(i, Clean)) && View() == Do(n, old(View()), At(i, Clean))
    {
      hide RegOk, Logs, FanInHandler.Valid, Legal, Run, Told;
      ghost var was := View();
      HandlerSeen(i);
      DoKeeps(n, was, At(i, Clean));
      ghost var first := !h.cleanOnce;
      h.CleanUp();
      assert Logs(made) == Logged(was, i, Clean);
      Forget(i, was, first);
    }

    method Kill(ghost i: nat, h: FanInHandler<E>)
      requires Valid() && i < |made| && made[i] == h
      modifies this`handlers, this`live, h
      ensures Valid() && CanDo(n, old(View()), At(i, Step.Kill)) && View() == Do(n, old(View()), At(i, Step.Kill))
    {
      hide RegOk, Logs, FanInHandler.Valid, Legal, Run, Told;
      ghost var was := View();
      HandlerSeen(i);
      DoKeeps(n, was, At(i, Step.Kill));
      ghost var first := !h.cleanOnce;
      h.Kill();
      assert Logs(made) == Logged(was, i, Step.Kill);
      Forget(i, was, first);
    }

    method Act(ghost i: nat, h: FanInHandler<E>)
      requires Valid() && i < |made| && made[i] == h && h.firing > 0
      modifies h, h.eventq
      ensures Valid() && CanDo(n, old(View()), At(i, Step.Act)) && View() == Do(n, old(View()), At(i, Step.Act))
      ensures h.eventq.events == old(h.eventq.events) + if h.sent > old(h.sent) then [h.event] else []
    {
      hide RegOk, Logs, FanInHandler.Valid, Legal, Run, Told;
      ghost var was := View();
      HandlerSeen(i);
      DoKeeps(n, was, At(i, Step.Act));
      h.Act();
      assert Logs(made) == Logged(was, i, Step.Act);
    }

    method Timeout(ghost i: nat, h: FanInHandler<E>)
      requires Valid() && i < |made| && made[i] == h && h.timer
      modifies h
      ensures Valid() && CanDo(n, old(View()), At(i, Step.Timeout)) && View() == Do(n, old(View()), At(i, Step.Timeout))
    {
      hide RegOk, Logs, FanInHandler.Valid, Legal, Run, Told;
      ghost var was := View();
      HandlerSeen(i);
      DoKeeps(n, was, At(i, Step.Timeout));
      h.Timeout();
      assert Logs(made) == Logged(was, i, Step.Timeout);
    }
  }
}
