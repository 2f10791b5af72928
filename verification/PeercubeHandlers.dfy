/** The handlers of peercube/eventhandler.go: a wait group counts semaphore tokens, and one goroutine fires
    when it reaches zero. */
module PeercubeHandlers {
  import opened Handlers
  import opened FanIn

  // ---------------------------------------------------------------- n of many

  /** A message, the start of a kill, one round of its loop, and the fire goroutine. */
  datatype Move = Message | Quit | Fill | Go

  /** `wg` is the wait group's counter and `waiters` that of the one Wait blocks on. */
  datatype Fan = Fan(tokens: nat, wg: int, waiters: int, quit: bool, emitted: nat, cleaned: bool)

  predicate CanMove(f: Fan, m: Move) {
    match m
    case Fill => f.quit
    case Go => f.wg == 0 && f.waiters > 0
    case _ => true
  }

  function Moved(n: nat, f: Fan, m: Move): Fan
    requires CanMove(f, m)
  {
    match m
    case Message => if f.tokens < n then f.(tokens := f.tokens + 1, wg := f.wg - 1) else f
    case Quit => f.(quit := true)
    case Fill => if f.tokens < n then f.(tokens := f.tokens + 1, wg := f.wg - 1) else f
    case Go => f.(waiters := f.waiters - 1, emitted := if f.quit then f.emitted else f.emitted + 1, cleaned := true)
  }

  predicate Moves(n: nat, ms: seq<Move>)
    decreases |ms|, 0
  {
    ms == [] || (Moves(n, Init(ms)) && CanMove(Played(n, Init(ms)), Last(ms)))
  }

  function Played(n: nat, ms: seq<Move>): Fan
    requires Moves(n, ms)
    decreases |ms|, 1
  {
    if ms == [] then Fan(0, n, 1, false, 0, false) else Moved(n, Played(n, Init(ms)), Last(ms))
  }

  predicate EmitsAt(ms: seq<Move>, i: nat)
    requires i < |ms|
  {
    ms[i] == Go && Quit !in ms[..i]
  }

  predicate EmittedIn(ms: seq<Move>) {
    exists i: nat :: i < |ms| && EmitsAt(ms, i)
  }

  ghost predicate FanTold(n: nat, ms: seq<Move>, f: Fan) {
    && f.wg == n - f.tokens >= 0
    && (f.quit <==> Quit in ms) && (Fill in ms ==> Quit in ms)
    && f.waiters == 1 - One(Go in ms)
    && f.tokens == (if Count(ms, Message) + Count(ms, Fill) < n then Count(ms, Message) + Count(ms, Fill) else n)
    && (Fill !in ms ==> Count(ms, Fill) == 0)
    && (Go in ms ==> f.tokens == n)
    && (f.cleaned <==> Go in ms)
    && (EmittedIn(ms) ==> Go in ms && Count(ms, Message) >= n) && (Quit !in ms && Go in ms ==> EmittedIn(ms))
    && f.emitted == One(EmittedIn(ms))
  }

  lemma MoreMoves(was: seq<Move>, m: Move)
    ensures var ms := was + [m];
            && (EmittedIn(ms) <==> EmittedIn(was) || (m == Go && Quit !in was))
            && (forall x :: Count(ms, x) == Count(was, x) + One(m == x))
               && (forall x :: x in ms <==> x in was || x == m)
  {
    var ms := was + [m];
    assert Init(ms) == was && Last(ms) == m && ms[..|was|] == was;
    assert forall i: nat :: i < |was| ==> ms[..i] == was[..i];
    assert forall i: nat :: i < |was| ==> EmitsAt(ms, i) == EmitsAt(was, i);
    assert EmitsAt(ms, |was|) <==> m == Go && Quit !in was;
  }

  lemma {:induction false} FanFromHistory(n: nat, ms: seq<Move>)
    requires Moves(n, ms)
    ensures FanTold(n, ms, Played(n, ms))
    decreases |ms|
  {
    if ms != [] {
      FanFromHistory(n, Init(ms));
      FanNext(n, Init(ms), Played(n, Init(ms)), Last(ms));
      assert ms == Init(ms) + [Last(ms)];
    }
  }

  lemma FanNext(n: nat, was: seq<Move>, f: Fan, m: Move)
    requires FanTold(n, was, f) && CanMove(f, m)
    ensures FanTold(n, was + [m], Moved(n, f, m))
  {
    hide EmittedIn, Count;
    MoreMoves(was, m);
  }

  /** The wait group is never released below zero, so at most n times; and the event is sent at most once,
      exactly when the goroutine ran before any kill began, and then at least n messages had come. */
  lemma FanEmitsIff(n: nat, ms: seq<Move>)
    requires Moves(n, ms)
    ensures var f := Played(n, ms);
            && 0 <= f.wg <= n && f.emitted <= 1
            && (f.emitted == 1 <==> exists i: nat :: i < |ms| && EmitsAt(ms, i))
            && (f.emitted == 1 ==> Count(ms, Message) >= n)
  {
    FanFromHistory(n, ms);
  }

  /** The goroutine can run exactly when it has not run before and n messages and rounds of a kill have come;
      without a kill, n messages are enough, and then what it does is send the event. */
  lemma CanFireIff(n: nat, ms: seq<Move>)
    requires Moves(n, ms)
    ensures CanMove(Played(n, ms), Go) <==> Go !in ms && Count(ms, Message) + Count(ms, Fill) >= n
    ensures Quit !in ms ==> (CanMove(Played(n, ms), Go) <==> Go !in ms && Count(ms, Message) >= n)
    ensures CanMove(Played(n, ms), Go) && Quit !in ms ==>
              Moves(n, ms + [Go]) && Played(n, ms).emitted == 0 && Played(n, ms + [Go]).emitted == 1
  {
    FanFromHistory(n, ms);
    assert Init(ms + [Go]) == ms && Last(ms + [Go]) == Go;
  }

  /** A handler refused by Register is killed at once and sends nothing, whatever happens later. */
  lemma KilledAtBirth(n: nat, ms: seq<Move>)
    requires Moves(n, ms) && ms != [] && ms[0] == Quit
    ensures Played(n, ms).emitted == 0
  {
    FanFromHistory(n, ms);
    forall i: nat | i < |ms|
      ensures !EmitsAt(ms, i)
    {
      if i > 0 {
        assert ms[..i][0] == ms[0];
      }
    }
  }

  class FanInHandler<E> {
    const n: nat
    const event: E
    const eventq: Channel<E>
    var sema: nat
    var wg: int
    var wg2: int
    var quit: bool
    var cleaned: bool
    ghost var emitted: nat
    ghost var log: seq<Move>

    ghost function AsFan(): Fan
      reads this
    {
      Fan(sema, wg, wg2, quit, emitted, cleaned)
    }

    ghost predicate Valid()
      reads this
    {
      Moves(n, log) && AsFan() == Played(n, log)
    }

    constructor (n: nat, event: E, eventq: Channel<E>)
      ensures this.n == n && this.event == event && this.eventq == eventq && Valid() && log == []
    {
      this.n, this.event, this.eventq := n, event, eventq;
      sema, wg, wg2, quit, cleaned := 0, n, 1, false, false;
      emitted, log := 0, [];
    }

    ghost method Record(m: Move)
      requires Valid() && CanMove(AsFan(), m)
      modifies this`log
      ensures log == old(log) + [m] && Moves(n, log) && Played(n, log) == Moved(n, AsFan(), m)
    {
      log := log + [m];
      assert Init(log) == old(log) && Last(log) == m;
    }

    method Trigger()
      requires Valid()
      modifies this
      ensures Valid() && log == old(log) + [Message]
    {
      hide Moves, Played;
      Record(Message);
      if sema < n {
        sema := sema + 1;
        wg := wg - 1;
      }
    }

    /** A kill that nothing interleaves with; its rounds are also moves of their own. */
    method Kill()
      requires Valid()
      modifies this
      ensures Valid() && quit && sema >= n
      ensures |old(log)| < |log| && log[..|old(log)|] == old(log) && log[|old(log)|] == Quit
      ensures forall i :: |old(log)| < i < |log| ==> log[i] == Fill
    {
      hide Moves, Played;
      Record(Quit);
      quit := true;
      while sema < n
        invariant Valid() && quit && |old(log)| < |log| && log[..|old(log)|] == old(log) && log[|old(log)|] == Quit
        invariant forall i :: |old(log)| < i < |log| ==> log[i] == Fill
      {
        Record(Fill);
        sema := sema + 1;
        wg := wg - 1;
      }
    }

    /** The fire goroutine, once the wait group is at zero. */
    method Fire()
      requires Valid() && wg == 0 && wg2 > 0
      modifies this, eventq
      ensures Valid() && log == old(log) + [Go]
      ensures eventq.events == old(eventq.events) + if old(quit) then [] else [event]
    {
      hide Moves, Played;
      Record(Go);
      if !quit {
        eventq.Send(event);
        emitted := emitted + 1;
      }
      cleaned := true;
      wg2 := wg2 - 1;
    }
  }

  // ---------------------------------------------------------------- acknowledgements of a join

  datatype Option<+T> = None | Some(value: T)

  /** A message (which may be of another type), a kill, and the fire goroutine. */
  datatype Ack<+E> = Ack(joinAck: bool, hash: string, ev: E) | Cut | Emit

  datatype Acks<+E> = Acks(acks: map<string, nat>, token: bool, event: Option<E>, out: seq<Option<E>>, waiting: bool)

  predicate CanAck<E>(s: Acks<E>, a: Ack<E>) {
    a.Emit? ==> s.token && s.waiting
  }

  function AckCount(acks: map<string, nat>, h: string): nat {
    if h in acks then acks[h] else 0
  }

  function Acked<E>(n: nat, s: Acks<E>, a: Ack<E>): Acks<E>
    requires CanAck(s, a)
  {
    match a
    case Ack(joinAck, h, ev) =>
      if !joinAck then s
      else
        var t := s.(acks := s.acks[h := AckCount(s.acks, h) + 1]);
        if t.acks[h] < n || s.token then t else t.(token := true, event := Some(ev))
    case Cut => s.(token := true)
    case Emit => s.(out := s.out + [s.event], waiting := false)
  }

  predicate AcksLegal<E>(n: nat, log: seq<Ack<E>>)
    decreases |log|, 0
  {
    log == [] || (AcksLegal(n, Init(log)) && CanAck(AcksRun(n, Init(log)), Last(log)))
  }

  function AcksRun<E>(n: nat, log: seq<Ack<E>>): Acks<E>
    requires AcksLegal(n, log)
    decreases |log|, 1
  {
    if log == [] then Acks(map[], false, None, [], true) else Acked(n, AcksRun(n, Init(log)), Last(log))
  }

  function Tally<E>(log: seq<Ack<E>>, h: string): nat {
    if log == [] then 0
    else Tally(Init(log), h) + One(Last(log).Ack? && Last(log).joinAck && Last(log).hash == h)
  }

  /** Step `i` would take the semaphore's one token: the n-th or a later acknowledgement of its hash, or a kill. */
  predicate Takes<E>(n: nat, log: seq<Ack<E>>, i: nat)
    requires i < |log|
  {
    log[i].Cut? || (log[i].Ack? && log[i].joinAck && Tally(log[..i], log[i].hash) + 1 >= n)
  }

  predicate Decides<E>(n: nat, log: seq<Ack<E>>, i: nat)
    requires i < |log|
  {
    Takes(n, log, i) && forall j: nat :: j < i ==> !Takes(n, log, j)
  }

  predicate Decided<E>(n: nat, log: seq<Ack<E>>) {
    exists i: nat :: i < |log| && Takes(n, log, i)
  }

  function Choice<E>(a: Ack<E>): Option<E> {
    if a.Ack? then Some(a.ev) else None
  }

  function Emits<E>(log: seq<Ack<E>>): nat {
    if log == [] then 0 else Emits(Init(log)) + One(Last(log).Emit?)
  }

  ghost predicate AcksTold<E>(n: nat, log: seq<Ack<E>>, s: Acks<E>) {
    && (forall h :: AckCount(s.acks, h) == Tally(log, h))
    && (s.token <==> Decided(n, log))
    && (forall i: nat :: i < |log| && Decides(n, log, i) ==> s.event == Choice(log[i]))
    && (!s.token ==> s.event == None)
    && Emits(log) == One(!s.waiting)
    && s.out == (if s.waiting then [] else [s.event])
    && (!s.waiting ==> s.token)
  }

  lemma MoreAcks<E>(n: nat, was: seq<Ack<E>>, a: Ack<E>)
    ensures var log := was + [a];
            && (forall i: nat :: i < |was| ==>
                 log[i] == was[i] && Takes(n, log, i) == Takes(n, was, i) && Decides(n, log, i) == Decides(n, was, i))
            && (forall i: nat :: i < |was| && Decides(n, was, i) ==> Decided(n, was)) && log[|was|] == a
            && (Takes(n, log, |was|) <==> a.Cut? || (a.Ack? && a.joinAck && Tally(was, a.hash) + 1 >= n))
            && (Decided(n, log) <==> Decided(n, was) || Takes(n, log, |was|))
            && (Decides(n, log, |was|) <==> Takes(n, log, |was|) && !Decided(n, was))
            && Emits(log) == Emits(was) + One(a.Emit?)
            && (forall h :: Tally(log, h) == Tally(was, h) + One(a.Ack? && a.joinAck && a.hash == h))
  {
    var log := was + [a];
    assert Init(log) == was && Last(log) == a && log[..|was|] == was;
    assert forall i: nat :: i < |was| ==> log[..i] == was[..i];
    assert forall i: nat :: i < |was| ==> Takes(n, log, i) == Takes(n, was, i);
  }

  lemma AcksNext<E>(n: nat, was: seq<Ack<E>>, s: Acks<E>, a: Ack<E>)
    requires AcksTold(n, was, s) && CanAck(s, a)
    ensures AcksTold(n, was + [a], Acked(n, s, a))
  {
    hide Takes, Decides, Decided, Tally, Emits;
    MoreAcks(n, was, a);
  }

  lemma {:induction false} AcksFromHistory<E>(n: nat, log: seq<Ack<E>>)
    requires AcksLegal(n, log)
    ensures AcksTold(n, log, AcksRun(n, log))
    decreases |log|
  {
    if log != [] {
      AcksFromHistory(n, Init(log));
      AcksNext(n, Init(log), AcksRun(n, Init(log)), Last(log));
      assert log == Init(log) + [Last(log)];
    }
  }

  /** Sending happens at most once, after something took the token; what is sent is the event of the message
      that did, however many hashes cross later. */
  lemma SentOnce<E>(n: nat, log: seq<Ack<E>>, i: nat)
    requires AcksLegal(n, log) && i < |log| && Decides(n, log, i)
    ensures AcksRun(n, log).out == if Emits(log) == 0 then [] else [Choice(log[i])]
    ensures Emits(log) <= 1
  {
    AcksFromHistory(n, log);
  }

  /** The event sent is that of the first message to bring a hash to n acknowledgements, exactly unless a kill
      came before that message; then nothing (a nil event) is sent. */
  lemma SendsCrossingIff<E>(n: nat, log: seq<Ack<E>>, i: nat)
    requires AcksLegal(n, log) && AcksRun(n, log).out != []
    requires i < |log| && log[i].Ack? && Takes(n, log, i) && forall j: nat :: j < i ==>
             !(log[j].Ack? && Takes(n, log, j))
    ensures AcksRun(n, log).out == [Some(log[i].ev)] <==> forall j: nat :: j < i ==> !log[j].Cut?
  {
    AcksFromHistory(n, log);
    hide Tally, AcksRun, AcksLegal;
    if forall j: nat :: j < i ==> !log[j].Cut? {
      assert Decides(n, log, i);
    } else {
      var j := FirstTaker(n, log, i);
      assert !(log[j].Ack? && j < i);
    }
  }

  /** Nothing in the program kills a JoinAckHandler. Then its goroutine can run once some hash has n
      acknowledgements, and what it sends is the event of the first message to bring a hash that far. */
  lemma SendsCrossing<E>(n: nat, log: seq<Ack<E>>)
    requires AcksLegal(n, log) && forall j: nat :: j < |log| ==> !log[j].Cut?
    ensures AcksRun(n, log).token <==> exists i: nat :: i < |log| && log[i].Ack? && Takes(n, log, i)
    ensures AcksRun(n, log).out != [] ==>
              exists i: nat :: i < |log| && log[i].Ack? && Decides(n, log, i)
                && AcksRun(n, log).out == [Some(log[i].ev)]
  {
    AcksFromHistory(n, log);
    hide Tally, AcksRun, AcksLegal;
    if i: nat :| i < |log| && Takes(n, log, i) {
      var j := FirstTaker(n, log, i);
      assert log[j].Ack? && Decides(n, log, j);
    }
  }

  lemma {:induction false} FirstTaker<E>(n: nat, log: seq<Ack<E>>, i: nat) returns (j: nat)
    requires i < |log| && Takes(n, log, i)
    ensures j <= i && Decides(n, log, j)
    decreases i
  {
    if k: nat :| k < i && Takes(n, log, k) {
      j := FirstTaker(n, log, k);
    } else {
      j := i;
    }
  }

  /** A kill before any message makes the handler send a nil event. */
  lemma KillSendsNil<E>(n: nat)
    ensures var log: seq<Ack<E>> := [Cut, Emit]; AcksLegal(n, log) && AcksRun(n, log).out == [None]
  {
    var log: seq<Ack<E>> := [Cut, Emit];
    var cut: seq<Ack<E>> := [Cut];
    assert Init(log) == cut && Init(cut) == [];
    assert AcksLegal<E>(n, []) && AcksLegal<E>(n, cut);
  }

  class JoinAckHandler<E> {
    const n: nat
    const eventq: Channel<Option<E>>
    var acks: map<string, nat>
    var sema: nat
    var event: Option<E>
    var wg: int
    var wg2: int
    var quit: bool
    ghost var out: seq<Option<E>>
    ghost var log: seq<Ack<E>>

    ghost predicate Valid()
      reads this
    {
      && sema <= 1 && wg == 1 - sema && 0 <= wg2 <= 1
      && AcksLegal(n, log) && AcksRun(n, log) == Acks(acks, sema == 1, event, out, wg2 == 1)
    }

    constructor (n: nat, eventq: Channel<Option<E>>)
      ensures this.n == n && this.eventq == eventq && Valid() && log == []
    {
      this.n, this.eventq := n, eventq;
      acks, sema, event, wg, wg2, quit := map[], 0, None, 1, 1, false;
      out, log := [], [];
    }

    ghost method Record(a: Ack<E>)
      requires Valid() && CanAck(AcksRun(n, log), a)
      modifies this`log
      ensures log == old(log) + [a] && AcksLegal(n, log) && AcksRun(n, log) == Acked(n, old(AcksRun(n, log)), a)
    {
      log := log + [a];
      assert Init(log) == old(log) && Last(log) == a;
    }

    /** A message of another type is an error and changes nothing. */
    method Trigger(joinAck: bool, hash: string, ev: E) returns (ok: bool)
      requires Valid()
      modifies this
      ensures Valid() && log == old(log) + [Ack(joinAck, hash, ev)] && ok == joinAck
    {
      hide AcksLegal, AcksRun;
      Record(Ack(joinAck, hash, ev));
      if !joinAck {
        return false;
      }
      acks := acks[hash := AckCount(acks, hash) + 1];
      if acks[hash] < n {
        return true;
      }
      if sema < 1 {
        sema := sema + 1;
        event := Some(ev);
        wg := wg - 1;
      }
      return true;
    }

    method Kill()
      requires Valid()
      modifies this
      ensures Valid() && log == old(log) + [Cut] && quit
    {
      hide AcksLegal, AcksRun;
      Record(Cut);
      quit := true;
      if sema < 1 {
        sema := sema + 1;
        wg := wg - 1;
      }
    }

    /** The fire goroutine, once the wait group is at zero. It does not look at `quit`. */
    method Fire()
      requires Valid() && wg == 0 && wg2 > 0
      modifies this, eventq
      ensures Valid() && log == old(log) + [Emit]
      ensures eventq.events == old(eventq.events) + [old(event)]
    {
      hide AcksLegal, AcksRun;
      Record(Emit);
      eventq.Send(event);
      out := out + [event];
      wg2 := wg2 - 1;
    }
  }
}