/** The channel as a system of threads. Every operation holds the mutex from its first look at the
    shared state until it waits or returns, so each such stretch is one step; waiting threads are
    woken by `notify_all`, or for no reason at all. */
module Channel {

  import opened Values

  /** What a finished call returned. */
  datatype Outcome<+T> = Nothing | SendOk | SendErr | Received(value: Option<T>)

  /** A call holds a handle while it sends. A woken thread still has to get the mutex back. */
  datatype Thread<+T> =
    | Idle(last: Outcome<T>)
    | Sending(handle: nat, v: T)
    | SendAsleep(handle: nat, v: T)
    | SendWoken(handle: nat, v: T)
    | Receiving
    | RecvAsleep
    | RecvWoken

  datatype Inner<T> = Inner(buffer: seq<T>, capacity: nat, closed: bool, senders: nat)

  /** `live` are the sender handles in existence; `sent` and `got` record what went through. */
  datatype System<T> = System(ch: Inner<T>, live: set<nat>, threads: map<nat, Thread<T>>, sent: seq<T>, got: seq<T>)

  function Wake<T>(t: Thread<T>): Thread<T> {
    match t
    case SendAsleep(h, v) => SendWoken(h, v)
    case RecvAsleep => RecvWoken
    case _ => t
  }

  function NotifyAll<T>(threads: map<nat, Thread<T>>): map<nat, Thread<T>> {
    map i | i in threads :: Wake(threads[i])
  }

  predicate Full<T>(ch: Inner<T>) {
    |ch.buffer| >= ch.capacity && ch.capacity > 0
  }

  /** `send`, each time it holds the mutex: on entry and after every wait. */
  function SendStep<T>(s: System<T>, i: nat, h: nat, v: T): System<T>
    requires i in s.threads
  {
    if s.ch.closed then s.(threads := s.threads[i := Idle(SendErr)])
    else if Full(s.ch) then s.(threads := s.threads[i := SendAsleep(h, v)])
    else
      s.(ch := s.ch.(buffer := s.ch.buffer + [v]), threads := NotifyAll(s.threads[i := Idle(SendOk)]), sent := s.sent + [v])
  }

  function Pop<T>(s: System<T>, i: nat): System<T>
    requires i in s.threads && s.ch.buffer != []
  {
    var v := s.ch.buffer[0];
    s.(ch := s.ch.(buffer := s.ch.buffer[1..]), threads := NotifyAll(s.threads[i := Idle(Received(Some(v)))]), got := s.got + [v])
  }

  /** `recv`, each time it holds the mutex. */
  function RecvStep<T>(s: System<T>, i: nat): System<T>
    requires i in s.threads
  {
    if s.ch.buffer != [] then Pop(s, i)
    else if s.ch.closed then s.(threads := s.threads[i := Idle(Received(None))])
    else s.(threads := s.threads[i := RecvAsleep])
  }

  function TryRecvStep<T>(s: System<T>, i: nat): System<T>
    requires i in s.threads
  {
    if s.ch.buffer != [] then Pop(s, i) else s.(threads := s.threads[i := Idle(Received(None))])
  }

  function CloneStep<T>(s: System<T>, h: nat): System<T> {
    s.(ch := s.ch.(senders := s.ch.senders + 1), live := s.live + {h})
  }

  function DropStep<T>(s: System<T>, h: nat): System<T>
    requires s.ch.senders > 0
  {
    var n := s.ch.senders - 1;
    s.(ch := s.ch.(senders := n, closed := s.ch.closed || n == 0), live := s.live - {h}, threads := NotifyAll(s.threads))
  }

  predicate InCall<T>(t: Thread<T>, h: nat) {
    (t.Sending? || t.SendAsleep? || t.SendWoken?) && t.handle == h
  }

  datatype Action<T> =
    | CallSend(i: nat, h: nat, v: T)
    | Send(i: nat)
    | CallRecv(i: nat)
    | Recv(i: nat)
    | TryRecv(i: nat)
    | Clone(h: nat, h': nat)
    | Drop(h: nat)
    | Spurious(i: nat)
    | Spawn(i: nat)

  /** What callers can do: a handle is not dropped while a call borrows it, and only a live handle is
      cloned or sent on. */
  predicate Enabled<T>(s: System<T>, a: Action<T>) {
    match a
    case CallSend(i, h, _) => i in s.threads && s.threads[i].Idle? && h in s.live
    case Send(i) => i in s.threads && (s.threads[i].Sending? || s.threads[i].SendWoken?)
    case CallRecv(i) => i in s.threads && s.threads[i].Idle?
    case Recv(i) => i in s.threads && (s.threads[i].Receiving? || s.threads[i].RecvWoken?)
    case TryRecv(i) => i in s.threads && s.threads[i].Idle?
    case Clone(h, h') => h in s.live && h' !in s.live
    case Drop(h) => h in s.live && s.ch.senders > 0 && forall i :: i in s.threads ==> !InCall(s.threads[i], h)
    case Spurious(i) => i in s.threads && (s.threads[i].SendAsleep? || s.threads[i].RecvAsleep?)
    case Spawn(i) => i !in s.threads
  }

  function Do<T>(s: System<T>, a: Action<T>): System<T>
    requires Enabled(s, a)
  {
    match a
    case CallSend(i, h, v) => s.(threads := s.threads[i := Sending(h, v)])
    case Send(i) => SendStep(s, i, s.threads[i].handle, s.threads[i].v)
    case CallRecv(i) => s.(threads := s.threads[i := Receiving])
    case Recv(i) => RecvStep(s, i)
    case TryRecv(i) => TryRecvStep(s, i)
    case Clone(_, h') => CloneStep(s, h')
    case Drop(h) => DropStep(s, h)
    case Spurious(i) => s.(threads := s.threads[i := Wake(s.threads[i])])
    case Spawn(i) => s.(threads := s.threads[i := Idle(Nothing)])
  }

  /** A new channel with one sender handle and no threads in a call. */
  function MakeChannel<T>(capacity: nat): System<T> {
    System(Inner([], capacity, false, 1), {0}, map[], [], [])
  }

  // ----- what every step keeps -----

  /** Nothing is lost, invented or reordered, and the buffer stays within its capacity. */
  ghost predicate Conserved<T>(s: System<T>) {
    s.sent == s.got + s.ch.buffer && (s.ch.capacity > 0 ==> |s.ch.buffer| <= s.ch.capacity)
  }

  /** The channel is closed exactly when no sender handle is left; whoever sends holds one. */
  ghost predicate Counted<T>(s: System<T>) {
    && s.ch.senders == |s.live| && (s.ch.closed <==> s.live == {})
    && (forall i :: i in s.threads && (s.threads[i].Sending? || s.threads[i].SendAsleep? || s.threads[i].SendWoken?) ==>
          s.threads[i].handle in s.live)
  }

  /** No wakeup is lost: whoever sleeps has a reason to. */
  ghost predicate SleepersHaveReason<T>(s: System<T>) {
    forall i :: i in s.threads ==>
      && (s.threads[i].RecvAsleep? ==> s.ch.buffer == [] && !s.ch.closed)
      && (s.threads[i].SendAsleep? ==> Full(s.ch))
  }

  /** What calls have returned: sending succeeded, and an empty-handed `recv` came after everything. */
  ghost predicate NoSendErr<T>(s: System<T>) {
    forall i :: i in s.threads && s.threads[i].Idle? ==> s.threads[i].last != SendErr
  }

  ghost predicate Inv<T>(s: System<T>) {
    Conserved(s) && Counted(s) && SleepersHaveReason(s) && NoSendErr(s)
  }

  lemma InvStart<T>(capacity: nat)
    ensures Inv(MakeChannel<T>(capacity))
  {
  }

  lemma AfterNotify<T>(s: System<T>, threads: map<nat, Thread<T>>)
    requires s.threads == NotifyAll(threads)
    ensures SleepersHaveReason(s)
  {
  }

  lemma InvSend<T>(s: System<T>, i: nat)
    requires Inv(s) && Enabled(s, Send(i))
    ensures Inv(Do(s, Send(i)))
  {
    assert s.threads[i].handle in s.live;
    if !Full(s.ch) { AfterNotify(Do(s, Send(i)), s.threads[i := Idle(SendOk)]); }
  }

  lemma InvPop<T>(s: System<T>, i: nat)
    requires Inv(s) && i in s.threads && s.ch.buffer != []
    ensures Inv(Pop(s, i))
  {
    AfterNotify(Pop(s, i), s.threads[i := Idle(Received(Some(s.ch.buffer[0])))]);
  }

  lemma InvDrop<T>(s: System<T>, h: nat)
    requires Inv(s) && Enabled(s, Action<T>.Drop(h))
    ensures Inv(DropStep(s, h))
  {
    AfterNotify(DropStep(s, h), s.threads);
    assert s.live == DropStep(s, h).live + {h};
  }

  lemma InvStep<T>(s: System<T>, a: Action<T>)
    requires Inv(s) && Enabled(s, a)
    ensures Inv(Do(s, a))
  {
    match a
    case Send(i) => InvSend(s, i);
    case Recv(i) => if s.ch.buffer != [] { InvPop(s, i); }
    case TryRecv(i) => if s.ch.buffer != [] { InvPop(s, i); }
    case Drop(h) => InvDrop(s, h);
    case _ =>
  }

  // ----- every run -----

  /** The states of a run, the last one last. */
  ghost predicate IsRun<T>(run: seq<System<T>>, acts: seq<Action<T>>) {
    && |run| == |acts| + 1 && (exists c: nat :: run[0] == MakeChannel(c))
    && forall k :: 0 <= k < |acts| ==> Enabled(run[k], acts[k]) && run[k + 1] == Do(run[k], acts[k])
  }

  lemma {:induction false} InvRun<T>(run: seq<System<T>>, acts: seq<Action<T>>, k: nat)
    requires IsRun(run, acts) && k < |run|
    ensures Inv(run[k])
    decreases k
  {
    if k == 0 {
      var c: nat :| run[0] == MakeChannel(c);
      InvStart<T>(c);
    } else {
      InvRun(run, acts, k - 1);
      InvStep(run[k - 1], acts[k - 1]);
    }
  }

  /** The buffer stays within the capacity in every state of every run exactly if the capacity is not zero. */
  lemma CapacityExact<T>(c: nat, v: T)
    ensures (forall run: seq<System<T>>, acts, k :: IsRun(run, acts) && run[0] == MakeChannel(c) && 0 <= k < |run|
               ==> |run[k].ch.buffer| <= c)
       <==> c > 0
  {
    if c > 0 {
      forall run: seq<System<T>>, acts, k | IsRun(run, acts) && run[0] == MakeChannel(c) && 0 <= k < |run|
        ensures |run[k].ch.buffer| <= c
      {
        InvRun(run, acts, k);
        StaysClosed(run, acts, 0, k);
      }
    } else {
      var run, acts := OneSend(v);
      assert |run[3].ch.buffer| == 1;
    }
  }

  /** One value goes into a channel of capacity zero. */
  lemma OneSend<T>(v: T) returns (run: seq<System<T>>, acts: seq<Action<T>>)
    ensures IsRun(run, acts) && |run| == 4 && run[0] == MakeChannel(0) && |run[3].ch.buffer| == 1
  {
    var s0 := MakeChannel<T>(0);
    var s1 := Do(s0, Spawn(0));
    var s2 := Do(s1, CallSend(0, 0, v));
    var s3 := Do(s2, Send(0));
    run, acts := [s0, s1, s2, s3], [Spawn(0), CallSend(0, 0, v), Send(0)];
    assert forall k :: 0 <= k < |acts| ==> Enabled(run[k], acts[k]) && run[k + 1] == Do(run[k], acts[k]);
  }

  /** A sender and a receiver never sleep at the same time. */
  lemma NeverBothAsleep<T>(run: seq<System<T>>, acts: seq<Action<T>>, k: nat, i: nat, j: nat)
    requires IsRun(run, acts) && k < |run| && i in run[k].threads && j in run[k].threads
    ensures !(run[k].threads[i].SendAsleep? && run[k].threads[j].RecvAsleep?)
  {
    InvRun(run, acts, k);
  }

  /** Closing is final, and the capacity never changes. */
  lemma {:induction false} StaysClosed<T>(run: seq<System<T>>, acts: seq<Action<T>>, k: nat, m: nat)
    requires IsRun(run, acts) && k <= m < |run|
    ensures run[k].ch.closed ==> run[m].ch.closed && run[m].sent == run[k].sent && run[m].live == {}
    ensures run[m].ch.capacity == run[k].ch.capacity
    decreases m
  {
    InvRun(run, acts, m);
    if k < m {
      StaysClosed(run, acts, k, m - 1);
      InvRun(run, acts, m - 1);
      assert Enabled(run[m - 1], acts[m - 1]);
    }
  }

  /** When `recv` returns nothing, everything that was ever sent has been received, and nothing more
      will be sent. */
  lemma NoneMeansAll<T>(run: seq<System<T>>, acts: seq<Action<T>>, k: nat, m: nat)
    requires IsRun(run, acts) && k < |acts| && acts[k].Recv? && k < m < |run|
    requires run[k + 1].threads[acts[k].i] == Idle(Received(None))
    ensures run[k + 1].got == run[k + 1].sent && run[m].sent == run[k + 1].sent
  {
    InvRun(run, acts, k);
    InvRun(run, acts, k + 1);
    var s, i := run[k], acts[k].i;
    assert s.ch.buffer == [] && s.ch.closed;
    StaysClosed(run, acts, k, k + 1);
    StaysClosed(run, acts, k, m);
  }

  /** What has been received is a prefix of what has been sent, in order. */
  lemma InOrder<T>(run: seq<System<T>>, acts: seq<Action<T>>, k: nat)
    requires IsRun(run, acts) && k < |run|
    ensures run[k].got <= run[k].sent && |run[k].sent| - |run[k].got| == |run[k].ch.buffer|
  {
    InvRun(run, acts, k);
  }

  /** A thread that sleeps is woken by the step that removes its reason: a receiver by a value or by
      closing, a sender by room in the buffer. */
  lemma Woken<T>(s: System<T>, a: Action<T>, i: nat)
    requires Inv(s) && Enabled(s, a) && i in s.threads
    ensures s.threads[i].RecvAsleep? && (Do(s, a).ch.buffer != [] || Do(s, a).ch.closed) ==> Do(s, a).threads[i].RecvWoken?
    ensures s.threads[i].SendAsleep? && !Full(Do(s, a).ch) ==> Do(s, a).threads[i].SendWoken?
  {
    InvStep(s, a);
  }

  /** A woken receiver that finds a value takes it; a woken sender that finds room uses it. */
  lemma WokenProceeds<T>(s: System<T>, i: nat)
    requires Inv(s) && i in s.threads
    ensures s.threads[i].RecvWoken? && s.ch.buffer != [] ==>
              Enabled(s, Recv(i)) && Do(s, Recv(i)).threads[i] == Idle(Received(Some(s.ch.buffer[0])))
    ensures s.threads[i].SendWoken? && !Full(s.ch) ==>
              Enabled(s, Send(i)) && Do(s, Send(i)).threads[i] == Idle(SendOk)
  {
  }

  /** `try_recv` never waits: it returns the first value of the buffer and takes it out, or nothing exactly if the
      buffer is empty, and nothing else changes then. */
  lemma TryRecvExact<T>(s: System<T>, i: nat)
    requires Enabled(s, TryRecv(i))
    ensures var s' := Do(s, TryRecv(i));
            && i in s'.threads && s'.threads[i].Idle? && s'.threads[i].last.Received?
            && (s'.threads[i].last.value.None? <==> s.ch.buffer == [])
            && (if s.ch.buffer == [] then s' == s.(threads := s.threads[i := Idle(Received(None))])
                else
                  && [s'.threads[i].last.value.value] + s'.ch.buffer == s.ch.buffer
                  && s'.got == s.got + [s'.threads[i].last.value.value]
                  && (s'.ch.capacity, s'.ch.closed, s'.ch.senders, s'.live, s'.sent) == (s.ch.capacity, s.ch.closed, s.ch.senders, s.live, s.sent)
                  && forall j :: j in s.threads && j != i ==> j in s'.threads && s'.threads[j] == Wake(s.threads[j]))
  {
  }
  /** A call of `send` that gets the mutex: refused exactly if the channel is closed, with nothing changed; asleep
      exactly if it is open and full; or the value is the last of the buffer, and everyone asleep is woken. */
  lemma SendExact<T>(s: System<T>, i: nat)
    requires Enabled(s, Send(i))
    ensures var s', v := Do(s, Send(i)), s.threads[i].v;
            && i in s'.threads
            && (s'.threads[i] == Idle(SendErr) <==> s.ch.closed)
            && (s'.threads[i].SendAsleep? <==> !s.ch.closed && s.ch.capacity > 0 && |s.ch.buffer| >= s.ch.capacity)
            && (s'.threads[i] == Idle(SendOk) <==> !s.ch.closed && (s.ch.capacity == 0 || |s.ch.buffer| < s.ch.capacity))
            && (if s'.threads[i] == Idle(SendOk) then
                  && s'.ch.buffer == s.ch.buffer + [v] && s'.sent == s.sent + [v]
                  && forall j :: j in s.threads && j != i ==> j in s'.threads && s'.threads[j] == Wake(s.threads[j])
                else s' == s.(threads := s.threads[i := s'.threads[i]]))
  {
  }

  /** A call of `recv` that gets the mutex: it takes the first value of the buffer; of an empty buffer it returns
      nothing exactly if the channel is closed, and sleeps exactly if it is open. */
  lemma RecvExact<T>(s: System<T>, i: nat)
    requires Enabled(s, Recv(i))
    ensures var s' := Do(s, Recv(i));
            && i in s'.threads
            && (s'.threads[i] == Idle(Received(None)) <==> s.ch.buffer == [] && s.ch.closed)
            && (s'.threads[i].RecvAsleep? <==> s.ch.buffer == [] && !s.ch.closed)
            && (if s.ch.buffer != [] then
                  && s'.threads[i] == Idle(Received(Some(s.ch.buffer[0]))) && [s.ch.buffer[0]] + s'.ch.buffer == s.ch.buffer
                  && forall j :: j in s.threads && j != i ==> j in s'.threads && s'.threads[j] == Wake(s.threads[j])
                else s' == s.(threads := s.threads[i := s'.threads[i]]))
  {
  }
}
