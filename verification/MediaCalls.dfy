/**
 * Concurrent requests for attachments, with their files. Each call is a thread; every lookup, critical section, file
 * opening, completion and wake-up is one step, and steps of different calls interleave freely.
 */
module MediaCalls {
  import opened Sequences
  import opened AttachmentCache
  import opened MediaRoutes
  import BoundedDownload
  import CachePruning
  import Flight = SingleFlight

  type Thread = Flight.Thread

  datatype Stage =
    | Entered                 // knows its routes, has not looked for the file
    | Missed                  // looked and found nothing
    | Waiting                 // another call has the key
    | Woken                   // that call is done, looks once more
    | Fetching                // has the key, downloading
    | Writing                 // has the key, file opened and not complete
    | Answered(reply: Reply)

  /** A call keeps the routes it looked up when it began, however the cache changes meanwhile. */
  datatype Call = Call(request: Request, stage: Stage)

  datatype State = State(store: Store, flight: Flight.State, calls: map<Thread, Call>)

  datatype Action =
    | Recording(msg: PhoneMessage)
    | Discard(names: set<FileName>)
    | Enter(thread: Thread, key: string)
    | Look(thread: Thread, connected: bool)
    | Join(thread: Thread)
    | GiveUp(thread: Thread)
    | Wake(thread: Thread)
    | LookAgain(thread: Thread)
    | EndWithout(thread: Thread)
    | Open(thread: Thread, opens: bool)
    | Complete(thread: Thread, whole: bool)
    | Release(thread: Thread)
    | Close(thread: Thread)

  const START := State(NOTHING_STORED, Flight.START, map[])

  predicate At(s: State, t: Thread, stage: Stage) {
    t in s.calls && s.calls[t].stage == stage
  }

  function FlightAction(s: State, a: Action): Option<Flight.Action>
    requires a.Join? ==> a.thread in s.calls
  {
    match a
    case Join(t) => Some(Flight.Arrive(t, s.calls[t].request.key))
    case GiveUp(t) => Some(Flight.GiveUp(t))
    case Wake(t) => Some(Flight.Wake(t))
    case Release(t) => Some(Flight.RemoveEntry(t))
    case Close(t) => Some(Flight.Close(t))
    case _ => None
  }

  /** The entry is removed only after the answer is settled; inline bytes cannot fail to arrive. */
  predicate Enabled(s: State, a: Action) {
    match a
    case Recording(_) => true
    case Discard(_) => true
    case Enter(t, key) => t !in s.calls && key in s.store.cache.secrets
    case Look(t, _) => At(s, t, Entered)
    case Join(t) => At(s, t, Missed) && t !in s.flight.threads
    case GiveUp(t) => At(s, t, Waiting) && Flight.Enabled(s.flight, Flight.GiveUp(t))
    case Wake(t) => At(s, t, Waiting) && Flight.Enabled(s.flight, Flight.Wake(t))
    case LookAgain(t) => At(s, t, Woken)
    case EndWithout(t) => At(s, t, Fetching) && !RouteFor(s.calls[t].request.secret.content).Inline?
    case Open(t, _) => At(s, t, Fetching) && Arrives(s.calls[t].request, true)
    case Complete(t, _) => At(s, t, Writing)
    case Release(t) =>
      t in s.calls && s.calls[t].stage.Answered? && Flight.Enabled(s.flight, Flight.RemoveEntry(t))
    case Close(t) => Flight.Enabled(s.flight, Flight.Close(t))
  }

  function To(s: State, t: Thread, stage: Stage): State
    requires t in s.calls
  {
    s.(calls := s.calls[t := s.calls[t].(stage := stage)])
  }

  function Lookup(s: State, t: Thread): Option<Reply>
    requires t in s.calls
  {
    var r := s.calls[t].request;
    if Destination(r) in s.store.files then Some(Found(r)) else None
  }

  /** The call's part of a step; what it does to the table of downloads is the other part. */
  function CallStep(s: State, a: Action): State
    requires Enabled(s, a)
  {
    match a
    case Recording(msg) => s.(store := s.store.(cache := Record(s.store.cache, msg)))
    case Discard(names) => s.(store := s.store.(files := s.store.files - names))
    case Enter(t, key) => s.(calls := s.calls[t := Call(Request(key, s.store.cache.secrets[key]), Entered)])
    case Look(t, connected) =>
      To(s, t, match Lookup(s, t)
               case Some(reply) => Answered(reply)
               case None => if connected then Missed else Answered(Failed))
    case Join(t) => To(s, t, if s.calls[t].request.key in s.flight.inflight then Waiting else Fetching)
    case GiveUp(t) => To(s, t, Answered(Failed))
    case Wake(t) => To(s, t, Woken)
    case LookAgain(t) => To(s, t, Answered(match Lookup(s, t) case Some(reply) => reply case None => Failed))
    case EndWithout(t) =>
      var r := s.calls[t].request;
      if RouteFor(r.secret.content).AskPhone? then
        To(s.(store := s.store.(cache := AfterAsking(s.store.cache, r))), t, Answered(Pending(r.key)))
      else To(s, t, Answered(Failed))
    case Open(t, opens) =>
      if opens then To(s.(store := Opened(s.store, s.calls[t].request)), t, Writing) else To(s, t, Answered(Failed))
    case Complete(t, whole) =>
      var r := s.calls[t].request;
      To(s.(store := Closed(s.store, r, whole)), t, Answered(if whole then Found(r) else Failed))
    case Release(t) => s
    case Close(t) => s
  }

  function Step(s: State, a: Action): State
    requires Enabled(s, a)
  {
    var next := CallStep(s, a);
    match FlightAction(s, a)
    case Some(f) => next.(flight := Flight.Step(s.flight, f))
    case None => next
  }

  // --- what holds in every interleaving ---

  /** Where a call is in the table of downloads. */
  ghost predicate StageFits(s: State, t: Thread)
    requires t in s.calls
  {
    match s.calls[t].stage
    case Entered => t !in s.flight.threads
    case Missed => t !in s.flight.threads
    case Waiting => t in s.flight.threads && s.flight.threads[t].Waiting?
    case Woken => t in s.flight.threads && s.flight.threads[t].Returned?
    case Fetching => Flight.Owns(s.flight, t, s.calls[t].request.key)
    case Writing => Flight.Owns(s.flight, t, s.calls[t].request.key)
    case Answered(_) => t in s.flight.threads ==> !s.flight.threads[t].Waiting?
  }

  ghost predicate CallsFit(s: State) {
    && (forall t :: t in s.calls ==> KeyFits(s.calls[t].request) && StageFits(s, t))
    && (forall t :: t in s.flight.threads ==> t in s.calls)
  }

  /** The call is writing the file of this name. */
  predicate Writes(s: State, t: Thread, name: FileName) {
    At(s, t, Writing) && Destination(s.calls[t].request) == name
  }

  ghost predicate BeingWritten(s: State, name: FileName) {
    exists t :: Writes(s, t, name)
  }

  ghost predicate Inv(s: State) {
    && Flight.Inv(s.flight)
    && SecretsFit(s.store.cache.secrets)
    && CallsFit(s)
    && FilesFit(s.store.files)
  }

  /** What a step leaves alone: the calls of other threads, and their place in the table. */
  lemma OthersUntouched(s: State, a: Action, t: Thread)
    requires Enabled(s, a) && !a.Recording? && !a.Discard? && a.thread != t
    ensures t in Step(s, a).calls <==> t in s.calls
    ensures t in s.calls ==> Step(s, a).calls[t] == s.calls[t]
    ensures t in Step(s, a).flight.threads <==> t in s.flight.threads
    ensures t in s.flight.threads ==> Step(s, a).flight.threads[t] == s.flight.threads[t]
  {}

  lemma FlightStays(s: State, a: Action)
    requires Inv(s) && Enabled(s, a)
    ensures Flight.Inv(Step(s, a).flight)
  {
    match FlightAction(s, a)
    case Some(f) => Flight.StepKeepsInv(s.flight, f);
    case None =>
  }

  lemma StoreStays(s: State, a: Action)
    requires Inv(s) && Enabled(s, a) && (a.Recording? ==> ProperIds(a.msg.parts))
    ensures SecretsFit(Step(s, a).store.cache.secrets) && FilesFit(Step(s, a).store.files)
  {
    if a.Recording? {
      RecordedKeysFit(s.store.cache, a.msg);
    } else {
      SecretsStay(s, a);
      FilesStayFit(s, a);
    }
  }

  lemma SecretsStay(s: State, a: Action)
    requires Enabled(s, a) && !a.Recording?
    ensures Step(s, a).store.cache.secrets == s.store.cache.secrets
  {}

  lemma FilesStayFit(s: State, a: Action)
    requires Inv(s) && Enabled(s, a)
    ensures FilesFit(Step(s, a).store.files)
  {
    if a.Open? {
      OpeningKeepsFilesFit(s.store, s.calls[a.thread].request);
    }
  }

  lemma OwnRequestFits(s: State, a: Action)
    requires Inv(s) && Enabled(s, a) && !a.Recording? && !a.Discard?
    ensures a.thread in Step(s, a).calls && KeyFits(Step(s, a).calls[a.thread].request)
  {}

  lemma OwnStageFits(s: State, a: Action)
    requires CallsFit(s) && Enabled(s, a) && !a.Recording? && !a.Discard? && a.thread in Step(s, a).calls
    ensures StageFits(Step(s, a), a.thread)
  {
    if FlightAction(s, a).Some? {
      OwnPlaceFits(s, a);
    }
  }

  lemma OwnPlaceFits(s: State, a: Action)
    requires CallsFit(s) && Enabled(s, a) && FlightAction(s, a).Some? && a.thread in Step(s, a).calls
    ensures StageFits(Step(s, a), a.thread)
  {
    assert a.thread in s.calls && StageFits(s, a.thread);
  }

  lemma CallsStayFit(s: State, a: Action)
    requires Inv(s) && Enabled(s, a)
    ensures CallsFit(Step(s, a))
  {
    if !a.Recording? && !a.Discard? {
      OwnRequestFits(s, a);
      OwnStageFits(s, a);
      forall t | t != a.thread
        ensures t in Step(s, a).calls ==> KeyFits(Step(s, a).calls[t].request) && StageFits(Step(s, a), t)
        ensures t in Step(s, a).flight.threads ==> t in Step(s, a).calls
      {
        OthersUntouched(s, a, t);
      }
    }
  }

  lemma StepKeepsInv(s: State, a: Action)
    requires Inv(s) && Enabled(s, a) && (a.Recording? ==> ProperIds(a.msg.parts))
    ensures Inv(Step(s, a))
  {
    FlightStays(s, a);
    StoreStays(s, a);
    CallsStayFit(s, a);
  }

  /** In every interleaving no file has two writers: they would hold the same key. */
  lemma WritersAgree(s: State, t: Thread, u: Thread, name: FileName)
    requires Inv(s) && Writes(s, t, name) && Writes(s, u, name)
    ensures t == u
  {
    DestinationTellsKey(s.calls[t].request, s.calls[u].request);
    var key := s.calls[t].request.key;
    assert Flight.Owns(s.flight, t, key) && Flight.Owns(s.flight, u, key);
    assert Flight.Holds(s.flight, t, s.flight.inflight[key]) && Flight.Holds(s.flight, u, s.flight.inflight[key]);
  }

  // --- runs ---

  ghost predicate Feasible(s: State, actions: seq<Action>)
    decreases |actions|
  {
    actions == [] || (Enabled(s, actions[0]) && Feasible(Step(s, actions[0]), actions[1..]))
  }

  ghost function Run(s: State, actions: seq<Action>): State
    requires Feasible(s, actions)
    decreases |actions|
  {
    if actions == [] then s else Run(Step(s, actions[0]), actions[1..])
  }

  /** Media ids that cannot be mistaken for the name of a stand-in, in everything recorded. */
  ghost predicate Proper(actions: seq<Action>) {
    forall i :: 0 <= i < |actions| && actions[i].Recording? ==> ProperIds(actions[i].msg.parts)
  }

  lemma {:induction false} RunKeepsInv(s: State, actions: seq<Action>)
    requires Inv(s) && Feasible(s, actions) && Proper(actions)
    ensures Inv(Run(s, actions))
    decreases |actions|
  {
    if actions != [] {
      StepKeepsInv(s, actions[0]);
      assert forall i :: 0 <= i < |actions[1..]| ==> actions[1..][i] == actions[i + 1];
      RunKeepsInv(Step(s, actions[0]), actions[1..]);
    }
  }

  /** Under every interleaving a file has at most one writer, and it holds the key of the file. */
  lemma OneWriterPerFile(actions: seq<Action>, t: Thread, u: Thread, name: FileName)
    requires Feasible(START, actions) && Proper(actions)
    requires Writes(Run(START, actions), t, name) && Writes(Run(START, actions), u, name)
    ensures t == u
    ensures var s := Run(START, actions); Flight.Owns(s.flight, t, s.calls[t].request.key)
  {
    RunKeepsInv(START, actions);
    WritersAgree(Run(START, actions), t, u, name);
  }

  /**
   * Under every interleaving, a file found at a request's destination came from that very attachment, by the
   * full-size route exactly when the request has a media id: a stand-in never shadows the original.
   */
  lemma StandInNeverShadows(actions: seq<Action>, t: Thread)
    requires Feasible(START, actions) && Proper(actions)
    requires var s := Run(START, actions); t in s.calls && Destination(s.calls[t].request) in s.store.files
    ensures var s := Run(START, actions); var r := s.calls[t].request; var o := s.store.files[Destination(r)];
      o.key == r.key && (o.route.FullSize? <==> HasFull(r))
  {
    RunKeepsInv(START, actions);
    var s := Run(START, actions);
    FoundFileIsTheRequests(s.store.files, s.calls[t].request);
  }

  // --- when a cached file is whole ---

  predicate Opens(s: State, a: Action, name: FileName) {
    a.Open? && a.opens && a.thread in s.calls && Destination(s.calls[a.thread].request) == name
  }

  predicate Completes(s: State, a: Action, name: FileName) {
    a.Complete? && a.thread in s.calls && Destination(s.calls[a.thread].request) == name
  }

  /** Whether the last write of this name to end was cut short, cut saying so of the time before. */
  ghost function LastCut(s: State, actions: seq<Action>, name: FileName, cut: bool): bool
    requires Feasible(s, actions)
    decreases |actions|
  {
    if actions == [] then cut
    else
      var a := actions[0];
      LastCut(Step(s, a), actions[1..], name, if Completes(s, a, name) then !a.whole else cut)
  }

  /** A file there is whole exactly when nobody is writing it and the last write was not cut short. */
  ghost predicate WholeFits(s: State, name: FileName, cut: bool) {
    name in s.store.files ==> (s.store.files[name].whole <==> !BeingWritten(s, name) && !cut)
  }

  /** Only opening and completing change who writes what. */
  lemma OthersKeepWriting(s: State, a: Action, name: FileName)
    requires CallsFit(s) && Enabled(s, a) && !a.Open? && !a.Complete?
    ensures BeingWritten(Step(s, a), name) <==> BeingWritten(s, name)
  {
    if a.Recording? || a.Discard? {
      assert forall t :: Writes(Step(s, a), t, name) <==> Writes(s, t, name);
    } else {
      assert !Writes(Step(s, a), a.thread, name) by {
        OwnStaysNoWriter(s, a);
      }
      forall t | t != a.thread ensures Writes(Step(s, a), t, name) <==> Writes(s, t, name) {
        OthersUntouched(s, a, t);
      }
      OwnWasNoWriter(s, a);
    }
  }

  lemma OwnWasNoWriter(s: State, a: Action)
    requires CallsFit(s) && Enabled(s, a) && !a.Recording? && !a.Discard? && !a.Complete?
    ensures !At(s, a.thread, Writing)
  {}

  lemma OwnStaysNoWriter(s: State, a: Action)
    requires CallsFit(s) && Enabled(s, a) && !a.Recording? && !a.Discard? && !a.Open?
    ensures !At(Step(s, a), a.thread, Writing)
  {}

  /** Only opening, completing and discarding change a file. */
  lemma OthersKeepFiles(s: State, a: Action)
    requires Enabled(s, a) && !a.Open? && !a.Complete? && !a.Discard?
    ensures Step(s, a).store.files == s.store.files
  {}

  lemma OpeningFits(s: State, a: Action, name: FileName, cut: bool)
    requires Inv(s) && Enabled(s, a) && a.Open? && WholeFits(s, name, cut)
    ensures WholeFits(Step(s, a), name, cut)
  {
    var s' := Step(s, a);
    forall t | t != a.thread ensures Writes(s', t, name) <==> Writes(s, t, name) {
      OthersUntouched(s, a, t);
    }
    if Opens(s, a, name) {
      assert Writes(s', a.thread, name);
    } else {
      assert s'.store.files == s.store.files || Destination(s.calls[a.thread].request) != name;
      assert !Writes(s, a.thread, name) && !Writes(s', a.thread, name);
      assert BeingWritten(s', name) <==> BeingWritten(s, name);
    }
  }

  lemma CompletingFits(s: State, a: Action, name: FileName, cut: bool)
    requires Inv(s) && Enabled(s, a) && a.Complete? && WholeFits(s, name, cut)
    ensures WholeFits(Step(s, a), name, if Completes(s, a, name) then !a.whole else cut)
  {
    var s' := Step(s, a);
    forall t | t != a.thread ensures Writes(s', t, name) <==> Writes(s, t, name) {
      OthersUntouched(s, a, t);
    }
    assert !Writes(s', a.thread, name);
    if Completes(s, a, name) {
      assert Writes(s, a.thread, name);
      forall t ensures !Writes(s', t, name) {
        if Writes(s, t, name) {
          WritersAgree(s, t, a.thread, name);
        }
      }
    } else {
      assert !Writes(s, a.thread, name);
      assert BeingWritten(s', name) <==> BeingWritten(s, name);
    }
  }

  lemma StepKeepsWhole(s: State, a: Action, name: FileName, cut: bool)
    requires Inv(s) && Enabled(s, a) && WholeFits(s, name, cut)
    ensures WholeFits(Step(s, a), name, if Completes(s, a, name) then !a.whole else cut)
  {
    if a.Open? {
      OpeningFits(s, a, name, cut);
    } else if a.Complete? {
      CompletingFits(s, a, name, cut);
    } else {
      OthersKeepWriting(s, a, name);
      if !a.Discard? {
        OthersKeepFiles(s, a);
      }
    }
  }

  lemma {:induction false} RunKeepsWhole(s: State, actions: seq<Action>, name: FileName, cut: bool)
    requires Inv(s) && Feasible(s, actions) && Proper(actions) && WholeFits(s, name, cut)
    ensures WholeFits(Run(s, actions), name, LastCut(s, actions, name, cut))
    decreases |actions|
  {
    if actions != [] {
      var a := actions[0];
      StepKeepsInv(s, a);
      StepKeepsWhole(s, a, name, cut);
      assert forall i :: 0 <= i < |actions[1..]| ==> actions[1..][i] == actions[i + 1];
      RunKeepsWhole(Step(s, a), actions[1..], name, if Completes(s, a, name) then !a.whole else cut);
    }
  }

  /**
   * Under every interleaving, a cached file is whole exactly when it is not being written and the last write of it
   * to end was not cut short; what a lookup answers with is the file as it then is.
   */
  lemma WholeIff(actions: seq<Action>, name: FileName)
    requires Feasible(START, actions) && Proper(actions) && name in Run(START, actions).store.files
    ensures var s := Run(START, actions);
      s.store.files[name].whole <==> !BeingWritten(s, name) && !LastCut(START, actions, name, false)
  {
    RunKeepsWhole(START, actions, name, false);
  }

  /** What a lookup answers, first or after waiting: ready exactly with a file there, whole exactly as just said. */
  lemma LookupIsWholeIff(actions: seq<Action>, a: Action)
    requires Feasible(START, actions) && Proper(actions) && Enabled(Run(START, actions), a)
    requires a.Look? || a.LookAgain?
    ensures var s := Run(START, actions); var s' := Step(s, a); var r := s.calls[a.thread].request;
      && s'.store == s.store
      && (At(s', a.thread, Answered(Found(r))) <==> Destination(r) in s.store.files)
      && (At(s', a.thread, Answered(Found(r))) ==>
          (WholeAt(s'.store.files, Destination(r)) <==>
           !BeingWritten(s, Destination(r)) && !LastCut(START, actions, Destination(r), false)))
  {
    var s := Run(START, actions);
    var name := Destination(s.calls[a.thread].request);
    if name in s.store.files {
      WholeIff(actions, name);
    }
  }

  /** What each step answers, in its own terms: without a file a first lookup goes on only with a client. */
  lemma StepAnswers(s: State, a: Action)
    requires Enabled(s, a) && !a.Recording? && !a.Discard? && !a.Enter?
    requires a.thread in s.calls
    ensures var r, stage := s.calls[a.thread].request, Step(s, a).calls[a.thread].stage;
      && (a.Look? && Destination(r) !in s.store.files && a.connected ==> stage == Missed)
      && (a.Look? && Destination(r) !in s.store.files && !a.connected ==> stage == Answered(Failed))
      && (a.LookAgain? && Destination(r) !in s.store.files ==> stage == Answered(Failed))
      && (a.GiveUp? ==> stage == Answered(Failed))
      && (a.Complete? ==> stage == Answered(if a.whole then Found(r) else Failed))
      && (a.Open? ==> stage == if a.opens then Writing else Answered(Failed))
      && (a.EndWithout? ==> stage == Answered(
            if r.secret.content.size <= BoundedDownload.MAX_DOWNLOAD_BYTES && r.secret.content.mediaId == "" &&
               r.secret.content.thumbId == "" && r.secret.content.inline == [] then Pending(r.key) else Failed))
  {}

  /** Recording and removing files touch the store only, and only that part of it. */
  lemma StoreSteps(s: State, msg: PhoneMessage, names: set<FileName>)
    ensures var t := Step(s, Recording(msg));
      t == s.(store := t.store) && t.store.files == s.store.files && t.store.cache == Record(s.store.cache, msg)
    ensures var t := Step(s, Discard(names));
      && t == s.(store := t.store) && t.store.cache == s.store.cache
      && (forall f :: f in t.store.files <==> f in s.store.files && f !in names)
      && (forall f :: f in t.store.files ==> t.store.files[f] == s.store.files[f])
  {}

  /** A call begins with the routes its key has at that moment. */
  lemma EnterLooksUp(s: State, t: Thread, key: string)
    requires Enabled(s, Enter(t, key))
    ensures var call := Step(s, Enter(t, key)).calls[t];
      call.request.key == key && call.request.secret == s.store.cache.secrets[key] && call.stage == Entered
  {}

  // --- a call that meets no other ---

  /** The steps of a call on its own, from its entry to the close of its channel. */
  function AloneSteps(t: Thread, r: Request, delivered: bool, disk: CachePruning.Disk): seq<Action> {
    [Enter(t, r.key), Look(t, true), Join(t)] + Download(t, r, delivered, disk) + [Release(t), Close(t)]
  }

  function Download(t: Thread, r: Request, delivered: bool, disk: CachePruning.Disk): seq<Action> {
    if !Arrives(r, delivered) then [EndWithout(t)]
    else if disk.Rejects? then [Open(t, false)]
    else [Open(t, true), Complete(t, disk.Accepts?)]
  }

  /** The actions lead from one state to the other. */
  ghost predicate Leads(s: State, actions: seq<Action>, end: State) {
    Feasible(s, actions) && Run(s, actions) == end
  }

  lemma LeadsOne(s: State, a: Action)
    requires Enabled(s, a)
    ensures Leads(s, [a], Step(s, a))
  {
    assert [a][1..] == [];
    assert Feasible(Step(s, a), []) && Run(Step(s, a), []) == Step(s, a);
  }

  lemma {:induction false} LeadsOn(s: State, early: seq<Action>, mid: State, late: seq<Action>, end: State)
    requires Leads(s, early, mid) && Leads(mid, late, end)
    ensures Leads(s, early + late, end)
    decreases |early|
  {
    if early == [] {
      assert [] + late == late;
    } else {
      assert (early + late)[0] == early[0] && (early + late)[1..] == early[1..] + late;
      LeadsOn(Step(s, early[0]), early[1..], mid, late, end);
    }
  }

  lemma LeadsTwo(s: State, a: Action, b: Action)
    requires Enabled(s, a) && Enabled(Step(s, a), b)
    ensures Leads(s, [a, b], Step(Step(s, a), b))
  {
    LeadsOne(s, a);
    LeadsOne(Step(s, a), b);
    LeadsOn(s, [a], Step(s, a), [b], Step(Step(s, a), b));
    assert [a] + [b] == [a, b];
  }

  predicate Owning(s: State, t: Thread, key: string) {
    t in s.flight.threads && s.flight.threads[t].Owning? && s.flight.threads[t].key == key
  }

  /** The state of a thread that registered for a free key. */
  function Registered(s: State, t: Thread, r: Request): State {
    s.(flight := s.flight.(
         threads := s.flight.threads[t := Flight.Owning(r.key, s.flight.made)],
         inflight := s.flight.inflight[r.key := s.flight.made],
         made := s.flight.made + 1),
       calls := s.calls[t := Call(r, Fetching)])
  }

  lemma BeginsLooking(s: State, t: Thread, key: string)
    requires t !in s.calls && key in s.store.cache.secrets
    ensures var r := Request(key, s.store.cache.secrets[key]);
      Destination(r) !in s.store.files ==>
      Leads(s, [Enter(t, key), Look(t, true)], s.(calls := s.calls[t := Call(r, Missed)]))
    ensures var r := Request(key, s.store.cache.secrets[key]);
      Destination(r) in s.store.files ==>
      Leads(s, [Enter(t, key), Look(t, true)], s.(calls := s.calls[t := Call(r, Answered(Found(r)))]))
  {
    LeadsTwo(s, Enter(t, key), Look(t, true));
  }

  lemma Registers(s: State, t: Thread, r: Request)
    requires t in s.calls && s.calls[t] == Call(r, Missed) && t !in s.flight.threads && r.key !in s.flight.inflight
    ensures Leads(s, [Join(t)], Registered(s, t, r))
  {
    LeadsOne(s, Join(t));
  }

  /** The download of a call that has the key amounts to the object's download. */
  lemma Downloads(s: State, t: Thread, r: Request, delivered: bool, disk: CachePruning.Disk)
    requires t in s.calls && s.calls[t] == Call(r, Fetching)
    ensures Leads(s, Download(t, r, delivered, disk), State(
      Finished(s.store, r, delivered, disk), s.flight,
      s.calls[t := Call(r, Answered(AnswerOf(r, delivered, disk)))]))
  {
    if !Arrives(r, delivered) {
      LeadsOne(s, EndWithout(t));
    } else if disk.Rejects? {
      LeadsOne(s, Open(t, false));
    } else {
      LeadsTwo(s, Open(t, true), Complete(t, disk.Accepts?));
    }
  }

  /** The state after the holder of a key let go of it. */
  function LetGo(s: State, t: Thread, key: string): State
    requires Owning(s, t, key)
  {
    var c := s.flight.threads[t].channel;
    s.(flight := s.flight.(
      threads := s.flight.threads[t := Flight.Returned],
      inflight := s.flight.inflight - {key},
      closed := s.flight.closed + {c},
      broken := s.flight.broken || c in s.flight.closed))
  }

  lemma LetsGo(s: State, t: Thread, key: string)
    requires t in s.calls && s.calls[t].stage.Answered? && Owning(s, t, key)
    ensures Leads(s, [Release(t), Close(t)], LetGo(s, t, key))
  {
    LeadsTwo(s, Release(t), Close(t));
    assert s.flight.threads[t := Flight.Closing(s.flight.threads[t].channel)][t := Flight.Returned] ==
      s.flight.threads[t := Flight.Returned];
  }

  /** What other calls see of a change: nothing of their own. */
  ghost predicate SameForOthers(s: State, end: State, t: Thread) {
    forall u :: u != t ==>
      (u in end.calls <==> u in s.calls) && (u in s.calls ==> end.calls[u] == s.calls[u]) &&
      (u in end.flight.threads <==> u in s.flight.threads) &&
      (u in s.flight.threads ==> end.flight.threads[u] == s.flight.threads[u])
  }

  /** A call that finds nothing and meets no other leaves store and table as the object's own download does. */
  lemma AloneIsFinished(s: State, t: Thread, key: string, delivered: bool, disk: CachePruning.Disk)
    requires t !in s.calls && t !in s.flight.threads
    requires key in s.store.cache.secrets && key !in s.flight.inflight
    requires Destination(Request(key, s.store.cache.secrets[key])) !in s.store.files
    ensures var r := Request(key, s.store.cache.secrets[key]);
      exists end :: (
        Leads(s, AloneSteps(t, r, delivered, disk), end) &&
        end.store == Finished(s.store, r, delivered, disk) && end.flight.inflight == s.flight.inflight &&
        At(end, t, Answered(AnswerOf(r, delivered, disk))) && SameForOthers(s, end, t))
  {
    var r := Request(key, s.store.cache.secrets[key]);
    var s2 := Registered(s.(calls := s.calls[t := Call(r, Missed)]), t, r);
    var answered := Call(r, Answered(AnswerOf(r, delivered, disk)));
    var s3 := State(Finished(s2.store, r, delivered, disk), s2.flight, s2.calls[t := answered]);
    BeginsAlone(s, t, key);
    Downloads(s2, t, r, delivered, disk);
    LetsGo(s3, t, key);
    var begin := [Enter(t, key), Look(t, true), Join(t)];
    LeadsOn(s, begin, s2, Download(t, r, delivered, disk), s3);
    LeadsOn(s, begin + Download(t, r, delivered, disk), s3, [Release(t), Close(t)], LetGo(s3, t, key));
    LettingGoShowsNoOther(s, t, r, s3);
  }

  lemma BeginsAlone(s: State, t: Thread, key: string)
    requires t !in s.calls && t !in s.flight.threads
    requires key in s.store.cache.secrets && key !in s.flight.inflight
    requires Destination(Request(key, s.store.cache.secrets[key])) !in s.store.files
    ensures var r := Request(key, s.store.cache.secrets[key]);
      Leads(
        s, [Enter(t, key), Look(t, true), Join(t)],
        Registered(s.(calls := s.calls[t := Call(r, Missed)]), t, r))
  {
    var r := Request(key, s.store.cache.secrets[key]);
    var s1 := s.(calls := s.calls[t := Call(r, Missed)]);
    BeginsLooking(s, t, key);
    Registers(s1, t, r);
    LeadsOn(s, [Enter(t, key), Look(t, true)], s1, [Join(t)], Registered(s1, t, r));
    assert [Enter(t, key), Look(t, true)] + [Join(t)] == [Enter(t, key), Look(t, true), Join(t)];
  }

  lemma LettingGoShowsNoOther(s: State, t: Thread, r: Request, s3: State)
    requires t !in s.calls && t !in s.flight.threads && r.key !in s.flight.inflight
    requires t in s3.calls && s3.calls == s.calls[t := s3.calls[t]]
    requires s3.flight == Registered(s.(calls := s.calls[t := Call(r, Missed)]), t, r).flight
    ensures Owning(s3, t, r.key) && SameForOthers(s, LetGo(s3, t, r.key), t)
    ensures LetGo(s3, t, r.key).flight.inflight == s.flight.inflight
  {}
}
