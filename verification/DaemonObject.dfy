/** The daemon object: the handlers of the source, in place, each proved to take the step the model describes. */
module DaemonObject {
  import opened Sequences
  import opened ConversationOrder
  import Index = ConversationIndex
  import opened Lifecycle

  /** What the relay answered to a request for a pairing code. */
  datatype Login = Code(qr: string) | Refused(message: string)

  class Daemon {
    var convs: ConversationMap
    var order: seq<string>
    var tried: set<string>
    var avatars: map<string, string>
    var status: Status
    var paired: bool
    var generation: nat
    var auth: AuthData
    var file: Option<AuthData>
    var mediaDir: bool
    var started: nat
    var cancelled: set<nat>
    var pairCancel: Option<nat>
    ghost var pushed: seq<Pushed>
    ghost var emitted: seq<Conversation>

    ghost function Cache(): Index.IndexState
      reads this
    {
      Index.IndexState(convs, order, tried, avatars)
    }

    ghost function Model(): DaemonState
      reads this
    {
      DaemonState(
        Cache(), status, Session(paired, generation, auth, file, mediaDir),
        Loops(started, cancelled, pairCancel), pushed)
    }

    ghost predicate Valid()
      reads this
    {
      Index.Valid(Cache())
    }

    constructor ()
      ensures Valid() && Model() == NEVER_PAIRED && emitted == []
    {
      convs, order, tried, avatars := map[], [], {}, map[];
      status, paired, generation, auth, file := FIRST_STATUS, false, 0, NO_AUTH, None;
      mediaDir, started, cancelled, pairCancel := true, 0, {}, None;
      pushed, emitted := [], [];
      new;
      IndexIsTopIds([], map[]);
    }

    // --- conversation cache ---

    /** Walks the map in whatever order it comes, sorts, and cuts to the limit. */
    method Reorder()
      requires KeyedById(convs)
      modifies this`order
      ensures order == TopIds(convs)
    {
      var ids: seq<string> := [];
      var rest := convs.Keys;
      while rest != {}
        invariant rest <= convs.Keys && Elements(ids) == convs.Keys - rest && Distinct(ids)
        decreases rest
      {
        var id :| id in rest;
        assert id !in Elements(ids) && Elements(ids + [id]) == Elements(ids) + {id};
        ids := ids + [id];
        rest := rest - {id};
      }
      ids := SortIds(ids, convs);
      RankingUnique(ids, Ranking(convs), convs);
      order := if |ids| > CONV_LIST_LIMIT then ids[..CONV_LIST_LIMIT] else ids;
    }

    /** Pushes one conversation event. */
    ghost method Emit(c: Conversation)
      modifies this`emitted
      ensures emitted == old(emitted) + [c]
    {
      emitted := emitted + [c];
    }

    method List() returns (list: seq<Conversation>)
      requires Valid()
      ensures list == Index.ServedList(Cache())
    {
      TopIdsIsIndex(convs);
      list := [];
      for i := 0 to |order|
        invariant list == Index.ServedList(Cache())[..i]
      {
        list := list + [convs[order[i]]];
      }
    }

    /** The served list, or its first entries when a smaller limit is asked for. */
    method Conversations(limit: int) returns (list: seq<Conversation>)
      requires Valid()
      ensures list <= Index.ServedList(Cache())
      ensures |list| == if 0 < limit < |order| then limit else |order|
    {
      list := List();
      if 0 < limit < |list| {
        list := list[..limit];
      }
    }

    method UpsertConversation(c: Conversation)
      requires Valid()
      modifies this
      ensures Valid() && Model() == Step(old(Model()), Op.Conversations(Index.Upsert(c)))
      ensures emitted == old(emitted) + Index.Emitted(old(Cache()), Index.Upsert(c))
      ensures c.id in convs && Index.StoredAs(convs[c.id], c, old(avatars))
      ensures convs - {c.id} == old(convs) - {c.id} && emitted == old(emitted) + [convs[c.id]]
    {
      Index.StepKeepsValid(Cache(), Index.Upsert(c));
      UpsertInCache(c);
      Emit(convs[c.id]);
      PushStatus();
    }

    method UpsertInCache(c: Conversation)
      requires KeyedById(convs)
      modifies this`convs, this`order
      ensures Cache() == Index.Step(old(Cache()), Index.Upsert(c))
      ensures c.id in convs && Index.StoredAs(convs[c.id], c, old(avatars))
      ensures convs - {c.id} == old(convs) - {c.id}
    {
      var w := Index.FromPhone(c, avatars);
      convs := convs[w.id := w];
      Reorder();
    }

    /** Moves a known conversation up for a message that is not out of date. */
    method TouchInCache(m: Index.Touch)
      requires KeyedById(convs) && m.conversationId in convs
      modifies this`convs, this`order
      ensures Cache() == Index.Step(old(Cache()), Index.TouchBy(m))
    {
      var conv := convs[m.conversationId];
      if m.timestamp >= conv.timestamp {
        conv := conv.(timestamp := m.timestamp, previewMine := m.fromMe);
        if m.text != "" {
          conv := conv.(preview := m.text);
        } else if m.hasAttachment {
          conv := conv.(preview := "Attachment");
        }
        if !m.fromMe {
          conv := conv.(unread := true);
        }
        assert conv == Index.Touched(old(convs)[m.conversationId], m);
        convs := convs[m.conversationId := conv];
        Reorder();
      }
    }

    method TouchConversation(m: Index.Touch)
      requires Valid()
      modifies this
      ensures Valid() && Model() == Step(old(Model()), Op.Conversations(Index.TouchBy(m)))
      ensures emitted == old(emitted) + Index.Emitted(old(Cache()), Index.TouchBy(m))
    {
      Index.StepKeepsValid(Cache(), Index.TouchBy(m));
      if m.conversationId !in convs {
        return;
      }
      TouchInCache(m);
      Emit(convs[m.conversationId]);
      PushStatus();
    }

    /** Clears the flag once the phone accepted it; the order is not rebuilt. */
    method MarkRead(id: string, present: bool, accepted: bool) returns (ok: bool)
      requires Valid()
      modifies this
      ensures Valid() && ok == (present && old(status).state.Connected? && accepted)
      ensures Model() == if ok then Step(old(Model()), Op.Conversations(Index.MarkRead(id))) else old(Model())
      ensures emitted == old(emitted) + if ok then Index.Emitted(old(Cache()), Index.MarkRead(id)) else []
    {
      ok := RequireClient(present);
      ok := ok && accepted;
      if !ok {
        return;
      }
      ClearUnread(id);
    }

    method ClearUnread(id: string)
      requires Valid()
      modifies this
      ensures Valid() && Model() == Step(old(Model()), Op.Conversations(Index.MarkRead(id)))
      ensures emitted == old(emitted) + Index.Emitted(old(Cache()), Index.MarkRead(id))
    {
      Index.StepKeepsValid(Cache(), Index.MarkRead(id));
      if id in convs && convs[id].unread {
        convs := convs[id := convs[id].(unread := false)];
      }
      assert id in old(convs) ==> convs == old(convs)[id := old(convs)[id].(unread := false)];
      if id in convs {
        Emit(convs[id]);
      }
      PushStatus();
    }

    /** Marks a picture as attempted; a second attempt is refused for good. */
    method ClaimAvatar(id: string) returns (granted: bool)
      requires Valid()
      modifies this
      ensures Valid() && Model() == Step(old(Model()), Op.Conversations(Index.ClaimAvatar(id)))
      ensures granted == (id !in old(tried)) && emitted == old(emitted)
    {
      Index.StepKeepsValid(Cache(), Index.ClaimAvatar(id));
      granted := id !in tried;
      tried := tried + {id};
    }

    /** Patches the conversation in the map without rebuilding the order. */
    method AvatarLanded(id: string, path: string)
      requires Valid()
      modifies this
      ensures Valid() && Model() == Step(old(Model()), Op.Conversations(Index.AvatarLanded(id, path)))
      ensures emitted == old(emitted) + Index.Emitted(old(Cache()), Index.AvatarLanded(id, path))
    {
      Index.StepKeepsValid(Cache(), Index.AvatarLanded(id, path));
      avatars := avatars[id := path];
      if id in convs {
        var w := convs[id].(avatarPath := path);
        convs := convs[id := w];
        Emit(w);
      }
    }

    /** Rebuilds the map from a list, later entries winning, and the order with it. */
    method ReplaceInCache(list: seq<Conversation>)
      modifies this`convs, this`order
      ensures KeyedById(old(convs)) ==> Cache() == Index.Step(old(Cache()), Index.ReplaceAll(list))
      ensures KeyedById(convs) && order == TopIds(convs)
    {
      Index.FromListKeyed(list, avatars);
      convs := map[];
      for i := 0 to |list|
        invariant convs == Index.FromList(list[..i], avatars)
      {
        assert list[..i + 1][..i] == list[..i];
        var w := Index.FromPhone(list[i], avatars);
        convs := convs[w.id := w];
      }
      assert list[..|list|] == list;
      Reorder();
    }

    method EmitAll(list: seq<Conversation>)
      modifies this`emitted
      ensures emitted == old(emitted) + list
    {
      for i := 0 to |list|
        invariant emitted == old(emitted) + list[..i]
      {
        Emit(list[i]);
      }
      assert list[..|list|] == list;
    }

    method ReplaceConversations(list: seq<Conversation>)
      requires Valid()
      modifies this`convs, this`order, this`emitted
      ensures Valid() && Cache() == Index.Step(old(Cache()), Index.ReplaceAll(list))
      ensures emitted == old(emitted) + Index.Emitted(old(Cache()), Index.ReplaceAll(list))
      ensures forall id :: id in convs <==> exists k: nat :: Index.LastOf(list, id, k)
      ensures forall id, k: nat :: Index.LastOf(list, id, k) ==>
        id in convs && Index.StoredAs(convs[id], list[k], old(avatars))
    {
      Index.StepKeepsValid(Cache(), Index.ReplaceAll(list));
      forall id {
        Index.ReplacementStores(Cache(), list, id);
      }
      ReplaceInCache(list);
      var served := List();
      EmitAll(served);
    }

    /** A full listing asked of the phone replaces the cache and pushes the status. */
    method Refreshed(list: seq<Conversation>)
      requires Valid()
      modifies this
      ensures Valid() && Model() == Step(old(Model()), Op.Conversations(Index.ReplaceAll(list)))
      ensures emitted == old(emitted) + Index.Emitted(old(Cache()), Index.ReplaceAll(list))
    {
      ReplaceConversations(list);
      PushStatus();
    }

    // --- status ---

    /** Counts the unread conversations by walking the map. */
    method UnreadCount() returns (n: nat)
      ensures n == Lifecycle.UnreadCount(convs)
    {
      n := 0;
      var rest := convs.Keys;
      ghost var seen: set<string> := {};
      while rest != {}
        invariant rest <= convs.Keys && seen == set id | id in convs && id !in rest && convs[id].unread
        invariant n == |seen|
        decreases rest
      {
        var id :| id in rest;
        rest := rest - {id};
        if convs[id].unread {
          n := n + 1;
          seen := seen + {id};
        }
      }
      assert seen == set id | id in convs && convs[id].unread;
    }

    ghost method PushAsIs()
      modifies this`pushed
      ensures Model() == Push(old(Model()))
    {
      pushed := pushed + [Pushed(status, Lifecycle.UnreadCount(convs))];
    }

    method PushStatus()
      modifies this`status, this`pushed
      ensures Model() == PublishStatus(old(Model()))
    {
      var n := UnreadCount();
      status := status.(unread := n);
      PushAsIs();
    }

    /** The status as asked for by a client: always with a fresh count. */
    method CurrentStatus() returns (st: Status)
      modifies this`status
      ensures st == status == old(status).(unread := Lifecycle.UnreadCount(convs))
    {
      var n := UnreadCount();
      status := status.(unread := n);
      st := status;
    }

    method SetState(state: ConnState, error: string)
      modifies this`status, this`pushed
      ensures Model() == Lifecycle.SetState(old(Model()), state, error)
    {
      status := status.(state := state, error := error, hint := "");
      if !state.Pairing? {
        status := status.(qrUrl := "");
      }
      if !state.GaiaPairing? {
        status := status.(emoji := "");
      }
      PushStatus();
    }

    method ChangeState(change: StateChange)
      requires Valid()
      modifies this
      ensures Valid() && Model() == Step(old(Model()), Change(change)) && emitted == old(emitted)
    {
      var (state, error) := Target(change);
      SetState(state, error);
    }

    method PhoneAnswers(ok: bool)
      requires Valid()
      modifies this
      ensures Valid() && Model() == Step(old(Model()), Op.PhoneAnswers(ok)) && emitted == old(emitted)
    {
      status := status.(phoneOk := ok);
      PushStatus();
    }

    method ClientReady(list: seq<Conversation>, now: int)
      requires Valid()
      modifies this
      ensures Valid() && Model() == Step(old(Model()), Op.ClientReady(list, now))
      ensures emitted == old(emitted) + Index.Emitted(old(Cache()), Index.ReplaceAll(list))
    {
      ReplaceConversations(list);
      status := status.(lastSync := now);
      SetState(Connected, "");
    }

    // --- session ---

    /** saved says whether the write, were it tried, would succeed. */
    method SaveSession(saved: bool)
      modifies this`file
      ensures Model() == old(Model()).(session := Lifecycle.SaveSession(old(Model()).session, saved))
    {
      if !paired {
        return;
      }
      if saved {
        file := Some(auth);
      }
    }

    method ClearSession(outcome: Cleared) returns (ok: bool)
      modifies this`file, this`mediaDir
      ensures Model() == old(Model()).(session := Lifecycle.ClearSession(old(Model()).session, outcome))
      ensures ok == outcome.AllCleared?
    {
      if outcome.FileKept? {
        return false;
      }
      file := None;
      ok := outcome.AllCleared?;
      if ok {
        mediaDir := false;
      }
    }

    /** A process start on the session file that an earlier process left. */
    constructor Start(earlier: Daemon, connectError: Option<string>)
      requires earlier.Valid()
      ensures Valid() && Model() == Step(earlier.Model(), Op.Start(connectError)) && emitted == []
    {
      convs, order, tried, avatars := map[], [], {}, map[];
      status, generation, file := FIRST_STATUS, 0, earlier.file;
      auth := if earlier.file.Some? then earlier.file.value else NO_AUTH;
      paired := earlier.file.Some? && IsPaired(earlier.file.value);
      mediaDir, started, cancelled, pairCancel := true, 0, {}, None;
      pushed, emitted := [], [];
      new;
      IndexIsTopIds([], map[]);
      if !paired {
        SetState(Unpaired, "");
      } else {
        SetState(Connecting, "");
        if connectError.Some? {
          SetState(Failing, connectError.value);
        }
      }
    }

    method HandlePairSuccessful(saved: bool)
      requires Valid()
      modifies this
      ensures Valid() && Model() == Step(old(Model()), PairSuccessful(saved)) && emitted == old(emitted)
    {
      StopPairRefresh();
      paired := true;
      generation := generation + 1;
      SaveSession(saved);
      SetState(Connected, "");
    }

    method HandleLoggedOut(outcome: Cleared)
      requires Valid()
      modifies this
      ensures Valid() && Model() == Step(old(Model()), LoggedOut(outcome)) && emitted == old(emitted)
    {
      paired := false;
      var ignored := ClearSession(outcome);
      SetState(Unpaired, LOGGED_OUT_ADVICE);
    }

    method Unpair(outcome: Cleared) returns (ok: bool)
      requires Valid()
      modifies this
      ensures Valid() && Model() == Step(old(Model()), Op.Unpair(outcome)) && emitted == old(emitted)
      ensures ok == outcome.AllCleared?
    {
      Index.StepKeepsValid(Cache(), Index.Forget);
      StopPairRefresh();
      ok := ClearSession(outcome);
      if !ok {
        return;
      }
      ForgetConversations();
      SetState(Unpaired, "");
    }

    method ForgetConversations()
      requires KeyedById(convs)
      modifies this`convs, this`order
      ensures Model() == old(Model()).(index := Index.Step(old(Cache()), Index.Forget))
    {
      convs := map[];
      order := [];
    }

    // --- pairing flows ---

    method StopPairRefresh()
      modifies this`cancelled, this`pairCancel
      ensures Model() == old(Model()).(loops := Lifecycle.StopPairRefresh(old(Model()).loops))
    {
      var cancel := pairCancel;
      pairCancel := None;
      if cancel.Some? {
        cancelled := cancelled + {cancel.value};
      }
    }

    /** Asks for a QR code, or shows why there is none; without a client nothing happens. */
    method StartPairing(present: bool, login: Login) returns (ok: bool)
      requires Valid()
      modifies this
      ensures Valid() && emitted == old(emitted) && ok == (present && login.Code?)
      ensures Model() ==
        if !present then old(Model())
        else if login.Refused? then Step(old(Model()), Change(StartPairingFailed(login.message)))
        else Step(old(Model()), Op.StartPairing(login.qr))
    {
      if !present {
        return false;
      }
      if login.Refused? {
        SetState(Failing, login.message);
        return false;
      }
      ShowCode(login.qr);
      StartPairRefresh();
      ok := true;
    }

    method ShowCode(qr: string)
      modifies this`status, this`pushed
      ensures Model() == OnStartPairing(old(Model()), qr)
    {
      status := status.(state := Pairing, qrUrl := qr, error := "");
      PushAsIs();
    }

    method StartPairRefresh()
      modifies this`started, this`cancelled, this`pairCancel
      ensures Model() == old(Model()).(loops := Lifecycle.StartPairRefresh(old(Model()).loops))
    {
      StopPairRefresh();
      pairCancel := Some(started);
      started := started + 1;
    }

    method RefreshQr(qr: string)
      requires Valid()
      modifies this
      ensures Valid() && Model() == Step(old(Model()), QrRefreshed(qr)) && emitted == old(emitted)
    {
      if !status.state.Pairing? {
        return;
      }
      status := status.(qrUrl := qr);
      PushAsIs();
    }

    /** Begins the Google flow with cookies that passed validation. */
    method StartGaiaPairing(cookies: map<string, string>)
      requires Valid()
      modifies this
      ensures Valid() && Model() == Step(old(Model()), StartGaia(cookies)) && emitted == old(emitted)
    {
      StopPairRefresh();
      auth := auth.(cookies := cookies);
      status := status.(state := GaiaPairing, error := "", qrUrl := "", emoji := "");
      PushAsIs();
    }

    /** Takes over refreshed cookies and saves the session with them. */
    method InstallCookies(cookies: map<string, string>, saved: bool)
      requires Valid()
      modifies this
      ensures Valid() && Model() == Step(old(Model()), CookiesRefreshed(cookies, saved)) && emitted == old(emitted)
      ensures paired && saved ==> file == Some(auth) && auth.cookies == cookies
    {
      auth := auth.(cookies := cookies);
      SaveSession(saved);
    }

    method NoteProfile(name: string)
      requires Valid()
      modifies this
      ensures Valid() && Model() == Step(old(Model()), ProfileChosen(name)) && emitted == old(emitted)
    {
      status := status.(profile := name);
    }

    method ShowGaiaEmoji(emoji: string)
      requires Valid()
      modifies this
      ensures Valid() && Model() == Step(old(Model()), GaiaEmoji(emoji)) && emitted == old(emitted)
    {
      status := status.(emoji := emoji);
      PushAsIs();
    }

    method SetPairError(message: string, hint: string)
      requires Valid()
      modifies this
      ensures Valid() && Model() == Step(old(Model()), PairError(message, hint)) && emitted == old(emitted)
    {
      status := status.(state := Failing, error := message, hint := hint);
      PushAsIs();
    }

    /** Commands need a client and a connected state. */
    method RequireClient(present: bool) returns (ok: bool)
      ensures ok == (present && status.state.Connected?)
    {
      ok := present && status.state.Connected?;
    }
  }

  /** A process start: a session file that cannot be opened at all ends it, a missing or unusable one does not. */
  method StartProcess(earlier: Daemon, opens: bool, connectError: Option<string>) returns (d: Daemon?)
    requires earlier.Valid()
    ensures d == null <==> !opens
    ensures d != null ==> fresh(d) && d.Valid() && d.emitted == []
    ensures d != null ==> d.Model() == Step(earlier.Model(), Op.Start(connectError))
  {
    if !opens {
      return null;
    }
    d := new Daemon.Start(earlier, connectError);
  }

  /** The library sort of the identifiers under the daemon's comparator. */
  method SortIds(ids: seq<string>, convs: ConversationMap) returns (out: seq<string>)
    requires KeyedById(convs) && Distinct(ids) && Elements(ids) == convs.Keys
    ensures IsRanking(out, convs)
  {
    out := [];
    for n := 0 to |ids|
      invariant Ranked(out, convs)
      invariant forall id :: id in out <==> id in ids[..n]
    {
      assert ids[n] in Elements(ids);
      assert ids[..n + 1] == ids[..n] + [ids[n]];
      InsertRanks(out, ids[n], convs);
      out := Insert(out, ids[n], convs);
    }
    assert ids[..|ids|] == ids;
    forall id | id in convs ensures id in out {
      assert id in Elements(ids);
    }
  }
}
