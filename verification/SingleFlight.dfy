/**
 * Concurrent requests for one attachment share a single download. Each call is a thread; every critical
 * section, channel close and wake-up is one step, and steps of different threads interleave freely.
 */
module SingleFlight {

  type Key = string
  type Thread = nat
  type Channel = nat

  datatype Pc =
    | Waiting(key: Key, channel: Channel)   // parked on the channel of whoever was first
    | Owning(key: Key, channel: Channel)    // registered in the table, downloading
    | Closing(channel: Channel)             // entry removed, channel not closed yet
    | Returned

  /** made counts channels allocated so far; broken records a second close of one channel. */
  datatype State = State(
    threads: map<Thread, Pc>, inflight: map<Key, Channel>, closed: set<Channel>, made: nat, broken: bool)

  datatype Action =
    | Arrive(thread: Thread, key: Key)
    | RemoveEntry(thread: Thread)
    | Close(thread: Thread)
    | Wake(thread: Thread)
    | GiveUp(thread: Thread)

  const START := State(map[], map[], {}, 0, false)

  predicate Enabled(s: State, a: Action) {
    match a
    case Arrive(t, _) => t !in s.threads
    case RemoveEntry(t) => t in s.threads && s.threads[t].Owning?
    case Close(t) => t in s.threads && s.threads[t].Closing?
    case Wake(t) => t in s.threads && s.threads[t].Waiting? && s.threads[t].channel in s.closed
    case GiveUp(t) => t in s.threads && s.threads[t].Waiting?
  }

  /** Removing the entry and closing the channel are separate steps, in that order. */
  function Step(s: State, a: Action): State
    requires Enabled(s, a)
  {
    match a
    case Arrive(t, key) =>
      if key in s.inflight then s.(threads := s.threads[t := Waiting(key, s.inflight[key])])
      else
        s.(threads := s.threads[t := Owning(key, s.made)],
           inflight := s.inflight[key := s.made],
           made := s.made + 1)
    case RemoveEntry(t) =>
      s.(threads := s.threads[t := Closing(s.threads[t].channel)],
         inflight := s.inflight - {s.threads[t].key})
    case Close(t) =>
      var c := s.threads[t].channel;
      s.(threads := s.threads[t := Returned],
         closed := s.closed + {c},
         broken := s.broken || c in s.closed)
    case Wake(t) => s.(threads := s.threads[t := Returned])
    case GiveUp(t) => s.(threads := s.threads[t := Returned])
  }

  predicate Holds(s: State, t: Thread, c: Channel) {
    t in s.threads && (s.threads[t].Owning? || s.threads[t].Closing?) && s.threads[t].channel == c
  }

  predicate Owns(s: State, t: Thread, key: Key) {
    t in s.threads && s.threads[t].Owning? && s.threads[t].key == key
  }

  ghost predicate Inv(s: State) {
    && HoldsFit(s)
    // a key is in the table exactly while some thread owns it, under that thread's channel
    && (forall t :: t in s.threads && s.threads[t].Owning? ==>
      s.threads[t].key in s.inflight && s.inflight[s.threads[t].key] == s.threads[t].channel)
    && (forall k :: k in s.inflight ==>
      exists t :: t in s.threads && s.threads[t] == Owning(k, s.inflight[k]))
    // nobody waits on a channel that is neither closed nor held
    && (forall t :: t in s.threads && s.threads[t].Waiting? ==>
      s.threads[t].channel in s.closed || exists h :: Holds(s, h, s.threads[t].channel))
  }

  /** What a step of one thread leaves alone: other threads, and their holds. */
  lemma OthersUntouched(s: State, a: Action)
    requires Enabled(s, a)
    ensures forall t :: t != a.thread ==>
      (t in s.threads <==> t in Step(s, a).threads) &&
      (t in s.threads ==> Step(s, a).threads[t] == s.threads[t])
    ensures forall t: Thread, c: Channel :: t != a.thread ==> (Holds(s, t, c) <==> Holds(Step(s, a), t, c))
  {}

  lemma WaitersStayCovered(s: State, a: Action, t: Thread)
    requires Inv(s) && Enabled(s, a)
    requires t in Step(s, a).threads && Step(s, a).threads[t].Waiting?
    ensures var s' := Step(s, a);
      s'.threads[t].channel in s'.closed || exists h :: Holds(s', h, s'.threads[t].channel)
  {
    OthersUntouched(s, a);
    var s' := Step(s, a);
    var c := s'.threads[t].channel;
    if t == a.thread {
      var k := s'.threads[t].key;
      var h :| h in s.threads && s.threads[h] == Owning(k, s.inflight[k]);
      assert Holds(s', h, c);
    } else if c !in s.closed {
      var h :| Holds(s, h, c);
      if h != a.thread {
        assert Holds(s', h, c);
      } else if a.RemoveEntry? {
        assert Holds(s', h, c);
      }
    }
  }

  lemma EntriesStayOwned(s: State, a: Action, k: Key)
    requires Inv(s) && Enabled(s, a) && k in Step(s, a).inflight
    ensures var s' := Step(s, a);
      exists t :: t in s'.threads && s'.threads[t] == Owning(k, s'.inflight[k])
  {
    var s' := Step(s, a);
    if k in s.inflight {
      var t :| t in s.threads && s.threads[t] == Owning(k, s.inflight[k]);
      assert t != a.thread;
      assert s'.threads[t] == s.threads[t];
    } else {
      assert s'.threads[a.thread] == Owning(k, s'.inflight[k]);
    }
  }

  lemma OwnersStayRegistered(s: State, a: Action, t: Thread)
    requires Inv(s) && Enabled(s, a)
    requires t in Step(s, a).threads && Step(s, a).threads[t].Owning?
    ensures var s' := Step(s, a);
      s'.threads[t].key in s'.inflight && s'.inflight[s'.threads[t].key] == s'.threads[t].channel
  {
    if t != a.thread && a.RemoveEntry? && s.threads[a.thread].key == s.threads[t].key {
      assert Holds(s, t, s.threads[t].channel) && Holds(s, a.thread, s.threads[t].channel);
    }
  }

  /** A held channel is open, has one holder, and is not closed twice. */
  ghost predicate HoldsFit(s: State) {
    && !s.broken
    && (forall c :: c in s.closed ==> c < s.made)
    && (forall t: Thread, c: Channel :: Holds(s, t, c) ==> c < s.made && c !in s.closed)
    && (forall t: Thread, u: Thread, c: Channel :: Holds(s, t, c) && Holds(s, u, c) ==> t == u)
  }

  lemma HoldsStayFit(s: State, a: Action)
    requires HoldsFit(s) && Enabled(s, a)
    ensures HoldsFit(Step(s, a))
  {
    OthersUntouched(s, a);
    if a.Close? || a.RemoveEntry? {
      assert Holds(s, a.thread, s.threads[a.thread].channel);
    }
  }

  lemma StepKeepsInv(s: State, a: Action)
    requires Inv(s) && Enabled(s, a)
    ensures Inv(Step(s, a))
  {
    var s' := Step(s, a);
    HoldsStayFit(s, a);
    forall t | t in s'.threads && s'.threads[t].Waiting?
      ensures s'.threads[t].channel in s'.closed || exists h :: Holds(s', h, s'.threads[t].channel)
    {
      WaitersStayCovered(s, a, t);
    }
    forall k | k in s'.inflight
      ensures exists t :: t in s'.threads && s'.threads[t] == Owning(k, s'.inflight[k])
    {
      EntriesStayOwned(s, a, k);
    }
    forall t | t in s'.threads && s'.threads[t].Owning?
      ensures s'.threads[t].key in s'.inflight && s'.inflight[s'.threads[t].key] == s'.threads[t].channel
    {
      OwnersStayRegistered(s, a, t);
    }
  }

  // --- all interleavings ---

  ghost predicate Feasible(s: State, actions: seq<Action>)
    decreases |actions|
  {
    actions == [] || (Enabled(s, actions[0]) && Feasible(Step(s, actions[0]), actions[1..]))
  }

  ghost function Run(s: State, actions: seq<Action>): State
    requires Feasible(s, actions)
    decreases |actions|
  {
    if actions == [] then s else Run(Step(s, actions[0]), actions[1..])
  }

  lemma {:induction false} RunKeepsInv(s: State, actions: seq<Action>)
    requires Inv(s) && Feasible(s, actions)
    ensures Inv(Run(s, actions))
    decreases |actions|
  {
    if actions != [] {
      StepKeepsInv(s, actions[0]);
      RunKeepsInv(Step(s, actions[0]), actions[1..]);
    }
  }

  /** Under every interleaving a key has at most one downloader, exactly while it is in the table. */
  lemma OneDownloadPerKey(actions: seq<Action>, key: Key)
    requires Feasible(START, actions)
    ensures var s := Run(START, actions);
      && (forall t, u :: Owns(s, t, key) && Owns(s, u, key) ==> t == u)
      && (key in s.inflight <==> exists t :: Owns(s, t, key))
  {
    RunKeepsInv(START, actions);
    var s := Run(START, actions);
    forall t, u | Owns(s, t, key) && Owns(s, u, key) ensures t == u
    {
      assert Holds(s, t, s.threads[t].channel) && Holds(s, u, s.threads[t].channel);
    }
    if key in s.inflight {
      var t :| t in s.threads && s.threads[t] == Owning(key, s.inflight[key]);
      assert Owns(s, t, key);
    }
  }

  /** No channel is ever closed twice. */
  lemma NeverClosedTwice(actions: seq<Action>)
    requires Feasible(START, actions)
    ensures !Run(START, actions).broken
    ensures var s := Run(START, actions);
      forall t :: Enabled(s, Close(t)) ==> s.threads[t].channel !in s.closed
  {
    RunKeepsInv(START, actions);
    var s := Run(START, actions);
    forall t | Enabled(s, Close(t)) ensures s.threads[t].channel !in s.closed {
      assert Holds(s, t, s.threads[t].channel);
    }
  }

  /** A call that arrives waits on the channel of whoever has the key, or registers under a new one. */
  lemma ArrivingRegisters(actions: seq<Action>, t: Thread, key: Key)
    requires Feasible(START, actions) && Enabled(Run(START, actions), Arrive(t, key))
    ensures var s := Run(START, actions); var s' := Step(s, Arrive(t, key));
      if key in s.inflight then s' == s.(threads := s'.threads) && s'.threads[t] == Waiting(key, s.inflight[key])
      else
        && s'.threads[t].Owning? && s'.threads[t].key == key && s'.inflight == s.inflight[key := s'.threads[t].channel]
        && (forall h :: !Holds(s, h, s'.threads[t].channel)) && s'.threads[t].channel !in s.closed
  {
    RunKeepsInv(START, actions);
  }

  /** A waiter wakes only after the one it waited for let go, and never closes or removes anything itself. */
  lemma WakesAfterRelease(actions: seq<Action>, t: Thread)
    requires Feasible(START, actions) && Enabled(Run(START, actions), Wake(t))
    ensures var s := Run(START, actions);
      && (forall h :: !Holds(s, h, s.threads[t].channel))
      && Step(s, Wake(t)) == s.(threads := s.threads[t := Returned])
      && Step(s, GiveUp(t)) == s.(threads := s.threads[t := Returned])
  {
    RunKeepsInv(START, actions);
  }

  /** The steps that the holder of a channel still owes. */
  ghost function Owed(s: State, h: Thread): seq<Action>
    requires h in s.threads
  {
    match s.threads[h]
    case Owning(_, _) => [RemoveEntry(h), Close(h)]
    case Closing(_) => [Close(h)]
    case _ => []
  }

  /** The holder of a channel can always take the steps it owes, and they close the channel. */
  lemma OwedStepsClose(s: State, h: Thread, c: Channel)
    requires Inv(s) && Holds(s, h, c)
    ensures Feasible(s, Owed(s, h))
    ensures c in Run(s, Owed(s, h)).closed
    ensures forall t :: t != h && t in s.threads ==>
      t in Run(s, Owed(s, h)).threads && Run(s, Owed(s, h)).threads[t] == s.threads[t]
  {
    if s.threads[h].Owning? {
      var s1 := Step(s, RemoveEntry(h));
      assert Owed(s, h)[1..] == [Close(h)];
      RunOne(s1, Close(h));
    } else {
      RunOne(s, Close(h));
    }
  }

  lemma RunOne(s: State, a: Action)
    requires Enabled(s, a)
    ensures Feasible(s, [a]) && Run(s, [a]) == Step(s, a)
  {
    assert [a][1..] == [];
    assert Feasible(Step(s, a), []) && Run(Step(s, a), []) == Step(s, a);
  }

  /** t can wake once h, who holds the channel it waits on, took the steps it owes and is able to take. */
  ghost predicate ReleasedBy(s: State, t: Thread, h: Thread) {
    t in s.threads && s.threads[t].Waiting? && Holds(s, h, s.threads[t].channel) &&
    Feasible(s, Owed(s, h)) && Enabled(Run(s, Owed(s, h)), Wake(t))
  }

  /** No wake-up is lost: whoever waits can wake now, or some live thread will release it. */
  lemma NoLostWakeup(actions: seq<Action>, t: Thread)
    requires Feasible(START, actions)
    requires t in Run(START, actions).threads && Run(START, actions).threads[t].Waiting?
    ensures Enabled(Run(START, actions), Wake(t)) || exists h :: ReleasedBy(Run(START, actions), t, h)
  {
    RunKeepsInv(START, actions);
    var s := Run(START, actions);
    var c := s.threads[t].channel;
    if c !in s.closed {
      var h :| Holds(s, h, c);
      OwedStepsClose(s, h, c);
      assert ReleasedBy(s, t, h);
    }
  }

  /** When no download is left, the table is empty and everyone still waiting can wake. */
  lemma QuietMeansReleased(actions: seq<Action>)
    requires Feasible(START, actions)
    requires var s := Run(START, actions);
      forall t :: t in s.threads ==> s.threads[t].Waiting? || s.threads[t].Returned?
    ensures var s := Run(START, actions);
      s.inflight == map[] && forall t :: t in s.threads && s.threads[t].Waiting? ==> Enabled(s, Wake(t))
  {
    RunKeepsInv(START, actions);
  }
}
