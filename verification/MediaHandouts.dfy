/** What callers end up with: releases, files handed out and later changed, files handed out before they are whole. */
module MediaHandouts {
  import opened Sequences
  import opened AttachmentCache
  import opened MediaRoutes
  import opened MediaCalls
  import BoundedDownload
  import CachePruning
  import Flight = SingleFlight

  // --- letting go of a key ---

  /** How a call that has a key can settle its answer at once, writing nothing new. */
  function Settling(s: State, h: Thread): seq<Action>
    requires h in s.calls
  {
    match s.calls[h].stage
    case Fetching => [if Arrives(s.calls[h].request, true) then Open(h, false) else EndWithout(h)]
    case Writing => [Complete(h, true)]
    case _ => []
  }

  lemma Settles(s: State, h: Thread) returns (end: State)
    requires h in s.calls && (s.calls[h].stage.Fetching? || s.calls[h].stage.Writing? || s.calls[h].stage.Answered?)
    ensures Leads(s, Settling(s, h), end) && end.flight == s.flight
    ensures h in end.calls && end.calls == s.calls[h := end.calls[h]] && end.calls[h].stage.Answered?
  {
    var steps := Settling(s, h);
    if steps == [] {
      end := s;
      assert Leads(s, [], s);
    } else {
      LeadsOne(s, steps[0]);
      assert steps == [steps[0]];
      end := Step(s, steps[0]);
    }
  }

  /** The steps by which whoever has a channel lets go of it. */
  function Releasing(s: State, h: Thread): seq<Action>
    requires h in s.calls && h in s.flight.threads
  {
    if s.flight.threads[h].Owning? then Settling(s, h) + [Release(h), Close(h)] else [Close(h)]
  }

  lemma OwnerSettled(s: State, h: Thread, key: string)
    requires CallsFit(s) && Owning(s, h, key)
    ensures h in s.calls
    ensures s.calls[h].stage.Fetching? || s.calls[h].stage.Writing? || s.calls[h].stage.Answered?
  {
    assert StageFits(s, h);
  }

  /** Whoever has a key can let go of it, and leaves every other call as it is. */
  lemma OwnerLetsGo(s: State, h: Thread, key: string) returns (end: State)
    requires CallsFit(s) && Owning(s, h, key)
    ensures h in s.calls && Leads(s, Settling(s, h) + [Release(h), Close(h)], end)
    ensures key !in end.flight.inflight && s.flight.threads[h].channel in end.flight.closed
    ensures SameForOthers(s, end, h)
  {
    OwnerSettled(s, h, key);
    var mid := Settles(s, h);
    LetsGo(mid, h, key);
    end := LetGo(mid, h, key);
    LeadsOn(s, Settling(s, h), mid, [Release(h), Close(h)], end);
  }

  /** t can wake once h, who has the channel t waits on, took steps that h can take on its own. */
  ghost predicate ReleasedBy(s: State, t: Thread, h: Thread) {
    && t in s.flight.threads && h in s.calls && h in s.flight.threads && h != t
    && Feasible(s, Releasing(s, h)) && Enabled(Run(s, Releasing(s, h)), Wake(t))
  }

  /** No wake-up is lost in the whole of a call: whoever waits can wake now, or some live call can release it. */
  lemma WaiterIsReleased(actions: seq<Action>, t: Thread)
    requires Feasible(START, actions) && Proper(actions) && At(Run(START, actions), t, Waiting)
    ensures Enabled(Run(START, actions), Wake(t)) || exists h :: ReleasedBy(Run(START, actions), t, h)
  {
    RunKeepsInv(START, actions);
    var s := Run(START, actions);
    assert StageFits(s, t);
    var c := s.flight.threads[t].channel;
    if c !in s.flight.closed {
      var h :| Flight.Holds(s.flight, h, c);
      HolderReleases(s, t, h);
      assert ReleasedBy(s, t, h);
    }
  }

  lemma HolderReleases(s: State, t: Thread, h: Thread)
    requires Inv(s) && At(s, t, Waiting) && t in s.flight.threads && s.flight.threads[t].Waiting?
    requires Flight.Holds(s.flight, h, s.flight.threads[t].channel)
    ensures ReleasedBy(s, t, h)
  {
    if s.flight.threads[h].Owning? {
      OwnerReleases(s, t, h);
    } else {
      LeadsOne(s, Close(h));
    }
  }

  lemma OwnerReleases(s: State, t: Thread, h: Thread)
    requires CallsFit(s) && At(s, t, Waiting) && t in s.flight.threads && s.flight.threads[t].Waiting?
    requires h in s.flight.threads && s.flight.threads[h].Owning?
    requires s.flight.threads[h].channel == s.flight.threads[t].channel
    ensures ReleasedBy(s, t, h)
  {
    var end := OwnerLetsGo(s, h, s.flight.threads[h].key);
    assert end.calls[t] == s.calls[t] && end.flight.threads[t] == s.flight.threads[t];
    assert Run(s, Releasing(s, h)) == end;
  }

  // --- files already handed out ---

  /** A call that has missed the file and can still open it. */
  ghost predicate Straggler(s: State, t: Thread, name: FileName) {
    t in s.calls && Destination(s.calls[t].request) == name &&
    (s.calls[t].stage.Writing? ||
     (Arrives(s.calls[t].request, true) && (s.calls[t].stage.Missed? || s.calls[t].stage.Fetching?)))
  }

  /** A step that neither cuts a write short nor removes the file. */
  ghost predicate Tame(a: Action, name: FileName) {
    && (a.Complete? ==> a.whole)
    && (a.Discard? ==> name !in a.names)
    && (a.Recording? ==> ProperIds(a.msg.parts))
  }

  ghost predicate AllTame(actions: seq<Action>, name: FileName) {
    forall i :: 0 <= i < |actions| ==> Tame(actions[i], name)
  }

  /** Whoever looks while the file is there is answered with it, so no straggler is added. */
  lemma NoNewStraggler(s: State, a: Action, t: Thread, name: FileName)
    requires CallsFit(s) && Enabled(s, a) && name in s.store.files && Straggler(Step(s, a), t, name)
    ensures Straggler(s, t, name)
  {
    if !a.Recording? && !a.Discard? && t != a.thread {
      OthersUntouched(s, a, t);
    }
  }

  lemma FileStays(s: State, a: Action, name: FileName)
    requires CallsFit(s) && Enabled(s, a) && Tame(a, name) && WholeAt(s.store.files, name)
    requires forall t :: !Straggler(s, t, name)
    ensures WholeAt(Step(s, a).store.files, name)
  {
    if a.Open? || a.Complete? {
      assert !Straggler(s, a.thread, name);
    } else if !a.Discard? {
      OthersKeepFiles(s, a);
    }
  }

  lemma {:induction false} FileStaysOn(s: State, actions: seq<Action>, name: FileName)
    requires Inv(s) && Feasible(s, actions) && AllTame(actions, name) && WholeAt(s.store.files, name)
    requires forall t :: !Straggler(s, t, name)
    ensures WholeAt(Run(s, actions).store.files, name)
    decreases |actions|
  {
    if actions != [] {
      var a, rest := actions[0], actions[1..];
      assert Tame(a, name) && forall i :: 0 <= i < |rest| ==> rest[i] == actions[i + 1];
      FileStays(s, a, name);
      forall t ensures !Straggler(Step(s, a), t, name) {
        if Straggler(Step(s, a), t, name) {
          NoNewStraggler(s, a, t, name);
        }
      }
      StepKeepsInv(s, a);
      FileStaysOn(Step(s, a), rest, name);
    }
  }

  /** The file is emptied under those it was handed to, without any write being cut short. */
  ghost predicate Empties(s: State, actions: seq<Action>, name: FileName) {
    AllTame(actions, name) && Feasible(s, actions) && !WholeAt(Run(s, actions).store.files, name)
  }

  lemma FetcherReopens(s: State, t: Thread, name: FileName)
    requires Straggler(s, t, name) && s.calls[t].stage.Fetching?
    ensures Empties(s, [Open(t, true)], name)
  {
    LeadsOne(s, Open(t, true));
  }

  lemma MisserReopens(s: State, t: Thread, name: FileName)
    requires Straggler(s, t, name) && s.calls[t].stage.Missed? && t !in s.flight.threads
    requires s.calls[t].request.key !in s.flight.inflight
    ensures Empties(s, [Join(t), Open(t, true)], name)
  {
    var r := s.calls[t].request;
    Registers(s, t, r);
    var mid := Registered(s, t, r);
    LeadsOne(mid, Open(t, true));
    LeadsOn(s, [Join(t)], mid, [Open(t, true)], Step(mid, Open(t, true)));
    assert [Join(t)] + [Open(t, true)] == [Join(t), Open(t, true)];
  }

  lemma EmptiesLater(s: State, early: seq<Action>, mid: State, late: seq<Action>, name: FileName)
    requires Leads(s, early, mid) && AllTame(early, name) && Empties(mid, late, name)
    ensures Empties(s, early + late, name)
  {
    LeadsOn(s, early, mid, late, Run(mid, late));
  }

  lemma LettingGoIsTame(s: State, h: Thread, name: FileName)
    requires h in s.calls
    ensures AllTame(Settling(s, h) + [Release(h), Close(h)], name)
  {}

  lemma MisserUntouched(s: State, end: State, t: Thread, h: Thread, name: FileName)
    requires CallsFit(s) && Straggler(s, t, name) && s.calls[t].stage.Missed? && t != h && SameForOthers(s, end, h)
    ensures Straggler(end, t, name) && end.calls[t] == s.calls[t] && t !in end.flight.threads
  {
    assert StageFits(s, t);
  }

  /** While another call has its key, that one lets go first. */
  lemma BusyMisserReopens(s: State, t: Thread, name: FileName, h: Thread)
    requires Inv(s) && Straggler(s, t, name) && s.calls[t].stage.Missed? && Owning(s, h, s.calls[t].request.key)
    ensures exists actions :: Empties(s, actions, name)
  {
    OwnerSettled(s, h, s.calls[t].request.key);
    var letGo := OwnerLetsGo(s, h, s.calls[t].request.key);
    MisserUntouched(s, letGo, t, h, name);
    MisserReopens(letGo, t, name);
    LettingGoIsTame(s, h, name);
    EmptiesLater(s, Settling(s, h) + [Release(h), Close(h)], letGo, [Join(t), Open(t, true)], name);
  }

  lemma StragglerReopens(s: State, t: Thread, name: FileName)
    requires Inv(s) && Straggler(s, t, name) && !s.calls[t].stage.Writing?
    ensures exists actions :: Empties(s, actions, name)
  {
    assert StageFits(s, t);
    var key := s.calls[t].request.key;
    if s.calls[t].stage.Fetching? {
      FetcherReopens(s, t, name);
    } else if key !in s.flight.inflight {
      MisserReopens(s, t, name);
    } else {
      var h :| h in s.flight.threads && s.flight.threads[h] == Flight.Owning(key, s.flight.inflight[key]);
      BusyMisserReopens(s, t, name, h);
    }
  }

  /**
   * A whole file that was handed out stays whole, over all runs that neither remove it nor cut a write short, exactly
   * when no call is left that looked before it was there and can still open it.
   */
  lemma HandedOutStaysIff(history: seq<Action>, name: FileName)
    requires Feasible(START, history) && Proper(history) && WholeAt(Run(START, history).store.files, name)
    ensures var s := Run(START, history);
      (forall t :: !Straggler(s, t, name)) <==>
      forall actions :: Feasible(s, actions) && AllTame(actions, name) ==> WholeAt(Run(s, actions).store.files, name)
  {
    var s := Run(START, history);
    RunKeepsInv(START, history);
    if forall t :: !Straggler(s, t, name) {
      forall actions | Feasible(s, actions) && AllTame(actions, name)
        ensures WholeAt(Run(s, actions).store.files, name)
      {
        FileStaysOn(s, actions, name);
      }
    } else {
      var t :| Straggler(s, t, name);
      WholeIff(history, name);
      assert !Writes(s, t, name);
      StragglerReopens(s, t, name);
      var actions :| Empties(s, actions, name);
    }
  }

  // --- runs that show it ---

  function Photo(id: string, media: MediaContent): PhoneMessage {
    PhoneMessage(id, [Media("", media)])
  }

  function PhotoRequest(id: string, media: MediaContent): Request {
    Request(media.mediaId, Secret(media, id, ""))
  }

  /** The state in which only this photo was recorded. */
  function PhotoKnown(id: string, media: MediaContent): State {
    START.(store := Store(CacheState(map[media.mediaId := Secret(media, id, "")], [media.mediaId], {}), map[]))
  }

  lemma PhotoIsRecorded(id: string, media: MediaContent)
    requires media.mediaId != ""
    ensures Leads(START, [Recording(Photo(id, media))], PhotoKnown(id, media))
  {
    var msg := Photo(id, media);
    assert msg.parts[..0] == [] && AddParts(EMPTY_CACHE, id, []) == EMPTY_CACHE;
    assert AddParts(EMPTY_CACHE, id, msg.parts) == AddPart(EMPTY_CACHE, id, msg.parts[0]);
    LeadsOne(START, Recording(msg));
  }

  /** One call is writing the photo when the other one looks; no write ever fails. */
  function LookWhileWriting(id: string, media: MediaContent): seq<Action> {
    [Recording(Photo(id, media))] + [Enter(0, media.mediaId), Look(0, true)] + [Join(0)] + [Open(0, true)] +
    [Enter(1, media.mediaId), Look(1, true)]
  }

  /** In that run the second call is answered with a file that is not whole. */
  lemma AnsweredBeforeWhole(id: string, media: MediaContent)
    requires media.mediaId != "" && media.size <= BoundedDownload.MAX_DOWNLOAD_BYTES
    ensures var r := PhotoRequest(id, media); var actions := LookWhileWriting(id, media);
      && (forall i :: 0 <= i < |actions| ==> !actions[i].Complete?)
      && Feasible(START, actions) && At(Run(START, actions), 1, Answered(Found(r)))
      && Destination(r) in Run(START, actions).store.files
      && !WholeAt(Run(START, actions).store.files, Destination(r))
  {
    var r := PhotoRequest(id, media);
    var s1 := PhotoKnown(id, media);
    var s2 := s1.(calls := s1.calls[0 := Call(r, Missed)]);
    var s3 := Registered(s2, 0, r);
    var s4 := State(Opened(s3.store, r), s3.flight, s3.calls[0 := Call(r, Writing)]);
    var s5 := s4.(calls := s4.calls[1 := Call(r, Answered(Found(r)))]);
    PhotoIsRecorded(id, media);
    BeginsLooking(s1, 0, media.mediaId);
    LeadsOn(START, [Recording(Photo(id, media))], s1, [Enter(0, media.mediaId), Look(0, true)], s2);
    Registers(s2, 0, r);
    LeadsOn(START, [Recording(Photo(id, media))] + [Enter(0, media.mediaId), Look(0, true)], s2, [Join(0)], s3);
    LeadsOne(s3, Open(0, true));
    LeadsOn(
      START, [Recording(Photo(id, media))] + [Enter(0, media.mediaId), Look(0, true)] + [Join(0)], s3,
      [Open(0, true)], s4);
    BeginsLooking(s4, 1, media.mediaId);
    LeadsOn(
      START, [Recording(Photo(id, media))] + [Enter(0, media.mediaId), Look(0, true)] + [Join(0)] + [Open(0, true)], s4,
      [Enter(1, media.mediaId), Look(1, true)], s5);
  }

  /** Both calls look before either downloads; the first is alone with the key until it is answered. */
  function HandOut(id: string, media: MediaContent): seq<Action> {
    [Recording(Photo(id, media))] + [Enter(1, media.mediaId), Look(1, true)] +
    AloneSteps(0, PhotoRequest(id, media), true, CachePruning.Accepts)
  }

  /** From there the other call empties the whole file that the first one was answered with. */
  lemma HandedOutThenEmptied(id: string, media: MediaContent) returns (mid: State)
    requires media.mediaId != "" && media.size <= BoundedDownload.MAX_DOWNLOAD_BYTES
    ensures var r := PhotoRequest(id, media);
      && Leads(START, HandOut(id, media), mid)
      && At(mid, 0, Answered(Found(r))) && WholeAt(mid.store.files, Destination(r))
      && Empties(mid, [Join(1), Open(1, true)], Destination(r))
  {
    var r := PhotoRequest(id, media);
    var steps := AloneSteps(0, r, true, CachePruning.Accepts);
    var s1 := PhotoKnown(id, media);
    var s2 := s1.(calls := s1.calls[1 := Call(r, Missed)]);
    PhotoIsRecorded(id, media);
    BeginsLooking(s1, 1, media.mediaId);
    LeadsOn(START, [Recording(Photo(id, media))], s1, [Enter(1, media.mediaId), Look(1, true)], s2);
    AloneIsFinished(s2, 0, media.mediaId, true, CachePruning.Accepts);
    mid :| Leads(s2, steps, mid) && mid.store == Finished(s2.store, r, true, CachePruning.Accepts) &&
      mid.flight.inflight == s2.flight.inflight && At(mid, 0, Answered(Found(r))) && SameForOthers(s2, mid, 0);
    LeadsOn(
      START, [Recording(Photo(id, media))] + [Enter(1, media.mediaId), Look(1, true)], s2, steps, mid);
    MisserReopens(mid, 1, Destination(r));
  }

  /** A call that waited is answered with what its owner failed to write, while the owner's own caller sees an error. */
  lemma WaiterGetsCutFile(s: State, h: Thread, t: Thread, name: FileName)
    requires Inv(s) && Writes(s, h, name) && name in s.store.files
    requires At(s, t, Waiting) && Destination(s.calls[t].request) == name
    requires h in s.flight.threads && s.flight.threads[h].Owning?
    requires t in s.flight.threads && s.flight.threads[t].Waiting?
    requires s.flight.threads[t].channel == s.flight.threads[h].channel
    ensures exists end :: (
      Leads(s, [Complete(h, false)] + [Release(h), Close(h)] + [Wake(t), LookAgain(t)], end) &&
      At(end, h, Answered(Failed)) && At(end, t, Answered(Found(s.calls[t].request))) &&
      name in end.store.files && !WholeAt(end.store.files, name))
  {
    var s1 := Step(s, Complete(h, false));
    LeadsOne(s, Complete(h, false));
    CutLeavesFile(s, h, name);
    var s2 := LetGo(s1, h, s.flight.threads[h].key);
    LetsGo(s1, h, s.flight.threads[h].key);
    LeadsOn(s, [Complete(h, false)], s1, [Release(h), Close(h)], s2);
    WokenFinds(s2, t, name);
    var end := Step(Step(s2, Wake(t)), LookAgain(t));
    LeadsOn(s, [Complete(h, false)] + [Release(h), Close(h)], s2, [Wake(t), LookAgain(t)], end);
  }

  lemma CutLeavesFile(s: State, h: Thread, name: FileName)
    requires Writes(s, h, name) && name in s.store.files
    ensures var s1 := Step(s, Complete(h, false));
      && s1.flight == s.flight && s1.calls == s.calls[h := s.calls[h].(stage := Answered(Failed))]
      && name in s1.store.files && !s1.store.files[name].whole
  {}

  lemma WokenFinds(s: State, t: Thread, name: FileName)
    requires At(s, t, Waiting) && Flight.Enabled(s.flight, Flight.Wake(t))
    requires Destination(s.calls[t].request) == name && name in s.store.files
    ensures Enabled(s, Wake(t)) && Enabled(Step(s, Wake(t)), LookAgain(t))
    ensures var end := Step(Step(s, Wake(t)), LookAgain(t));
      && Leads(s, [Wake(t), LookAgain(t)], end)
      && end.store == s.store
      && end.calls == s.calls[t := s.calls[t].(stage := Answered(Found(s.calls[t].request)))]
  {
    LeadsTwo(s, Wake(t), LookAgain(t));
  }

  // --- a mark that outlives its key ---

  const NOT_UPLOADED := MediaContent("", [], "", [], [], "", "", 0)

  /** While a call is about to ask for an original, a message with many attachments pushes its key out. */
  function AskAfterEviction(id: string, partId: string, other: string): seq<Action> {
    [Recording(PhoneMessage(id, [Media(partId, NOT_UPLOADED)]))] +
    [Enter(0, "part:" + partId), Look(0, true)] + [Join(0)] +
    [Recording(PhoneMessage(other, FillerParts(MAX_SECRETS)))] + [EndWithout(0)]
  }

  /** In that run a request mark is left for a key no longer known. */
  lemma MarkOutlivesKey(id: string, partId: string, other: string)
    requires id != "" && partId != ""
    ensures var actions := AskAfterEviction(id, partId, other);
      && Feasible(START, actions)
      && Run(START, actions).store.cache.requested == {"part:" + partId}
      && "part:" + partId !in Run(START, actions).store.cache.secrets
  {
    var many := PhoneMessage(other, FillerParts(MAX_SECRETS));
    var begin := [Recording(PhoneMessage(id, [Media(partId, NOT_UPLOADED)]))] +
      [Enter(0, "part:" + partId), Look(0, true)] + [Join(0)];
    var s3 := AboutToAsk(id, partId);
    var s4 := s3.(store := Store(Record(s3.store.cache, many), map[]));
    LeadsOne(s3, Recording(many));
    LeadsOn(START, begin, s3, [Recording(many)], s4);
    LeadsOne(s4, EndWithout(0));
    LeadsOn(START, begin + [Recording(many)], s4, [EndWithout(0)], Step(s4, EndWithout(0)));
    KeyIsPushedOut(s3.store.cache, "part:" + partId, other);
  }

  lemma AboutToAsk(id: string, partId: string) returns (end: State)
    requires id != "" && partId != ""
    ensures var key := "part:" + partId; var r := Request(key, Secret(NOT_UPLOADED, id, partId));
      && Leads(
        START,
        [Recording(PhoneMessage(id, [Media(partId, NOT_UPLOADED)]))] + [Enter(0, key), Look(0, true)] + [Join(0)], end)
      && end.store == Store(CacheState(map[key := r.secret], [key], {}), map[])
      && 0 in end.calls && end.calls[0] == Call(r, Fetching)
  {
    var key := "part:" + partId;
    var r := Request(key, Secret(NOT_UPLOADED, id, partId));
    var msg := PhoneMessage(id, [Media(partId, NOT_UPLOADED)]);
    var s1 := START.(store := Store(CacheState(map[key := r.secret], [key], {}), map[]));
    assert msg.parts[..0] == [] && AddParts(EMPTY_CACHE, id, []) == EMPTY_CACHE;
    assert AddParts(EMPTY_CACHE, id, msg.parts) == AddPart(EMPTY_CACHE, id, msg.parts[0]);
    LeadsOne(START, Recording(msg));
    var s2 := s1.(calls := s1.calls[0 := Call(r, Missed)]);
    BeginsLooking(s1, 0, key);
    LeadsOn(START, [Recording(msg)], s1, [Enter(0, key), Look(0, true)], s2);
    Registers(s2, 0, r);
    end := Registered(s2, 0, r);
    LeadsOn(START, [Recording(msg)] + [Enter(0, key), Look(0, true)], s2, [Join(0)], end);
  }

  lemma KeyIsPushedOut(known: CacheState, key: string, other: string)
    requires Valid(known) && known.requested == {} && known.secrets.Keys == {key} && key != "" && key[0] == 'p'
    ensures var full := Record(known, PhoneMessage(other, FillerParts(MAX_SECRETS)));
      key !in full.secrets && full.requested == {}
  {
    assert forall i: nat :: Filler(i)[0] == 'f';
    FillersTakeOver(known, other);
    var many := PhoneMessage(other, FillerParts(MAX_SECRETS));
    var full := Record(known, many);
    assert forall i :: 0 <= i < |full.order| ==> full.order[i][0] == 'f';
    assert key !in Elements(full.order);
    AddPartsEffect(known, many.id, many.parts);
    TrimCutsTheFront(AddParts(known, many.id, many.parts));
  }
}
