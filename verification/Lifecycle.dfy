/**
 * The daemon's life: pairing, session file, connection status. Every handler is one atomic step; the phone,
 * Google and the file system appear as the inputs of those steps.
 */
module Lifecycle {
  import opened Sequences
  import opened ConversationOrder
  import Index = ConversationIndex

  datatype ConnState = Unpaired | Pairing | GaiaPairing | Connecting | Connected | Disconnected | Failing

  datatype Status = Status(
    state: ConnState, unread: nat, phoneOk: bool, qrUrl: string, emoji: string,
    hint: string, profile: string, error: string, lastSync: int)

  /** Which identities the credentials hold so far; only a completed pairing fills in the browser device. */
  datatype AuthData = AuthData(token: bool, browser: bool, cookies: map<string, string>)

  /** How clearing the session went: the file may stay, or go while the cached media stay. */
  datatype Cleared = AllCleared | FileKept | MediaKept

  /** A status as pushed, next to the number of unread conversations in the map at that moment. */
  datatype Pushed = Pushed(status: Status, unreadInMap: nat)

  /** Credentials in memory and on disk; generation counts the pairings completed in this process. */
  datatype Session = Session(paired: bool, generation: nat, auth: AuthData, file: Option<AuthData>, mediaDir: bool)

  /** QR refresh loops begun, those cancelled, and the one that can still be cancelled. */
  datatype Loops = Loops(started: nat, cancelled: set<nat>, pairCancel: Option<nat>)

  /** pushed lists every status sent to subscribers by this process. */
  datatype DaemonState = DaemonState(
    index: Index.IndexState, status: Status, session: Session, loops: Loops, pushed: seq<Pushed>)

  /** Why the session is being saved. */
  datatype SaveReason = Stopping | TokenRefreshed | GaiaFinished | Maintenance

  /** What moves the daemon to another state outright. */
  datatype StateChange =
    | SyncBegins
    | ListenLost
    | ListenRecovered
    | ListenFatal(message: string)
    | StartPairingFailed(message: string)
    | QrRefreshFailed(message: string)
    | QrTimedOut
    | GaiaTimedOut
    | GaiaFailed(advice: string)
    | CookiesUnavailable

  datatype Op =
    | Start(connectError: Option<string>)
    | Save(reason: SaveReason, saved: bool)
    | Change(change: StateChange)
    | PhoneAnswers(ok: bool)
    | ClientReady(list: seq<Conversation>, now: int)
    | Conversations(op: Index.IndexOp)
    | PairSuccessful(saved: bool)
    | LoggedOut(cleared: Cleared)
    | Unpair(cleared: Cleared)
    | StartPairing(qr: string)
    | QrRefreshed(qr: string)
    | StartGaia(cookies: map<string, string>)
    | CookiesRefreshed(cookies: map<string, string>, saved: bool)
    | GaiaEmoji(emoji: string)
    | PairError(message: string, hint: string)
    | ProfileChosen(name: string)
    | AuthChanged(auth: AuthData)

  const FIRST_STATUS := Status(Unpaired, 0, true, "", "", "", "", "", 0)
  const NO_AUTH := AuthData(false, false, map[])

  const GAIA_TIMEOUT_ADVICE :=
    "the phone never confirmed. Open Google Messages on the phone "
    + "(Settings > Device pairing) and keep it on screen, then pair again."
  const LOGGED_OUT_ADVICE := "Google signed this device out — pair again"
  const COOKIES_ADVICE :=
    "Google sign-in expired. Open messages.google.com/web in your browser to refresh it."

  predicate IsPaired(auth: AuthData) {
    auth.token && auth.browser
  }

  // --- session and loops ---

  /** The session is written only once pairing completed; a failed write leaves the old file. */
  function SaveSession(x: Session, saved: bool): Session {
    if x.paired && saved then x.(file := Some(x.auth)) else x
  }

  /** Removes the file and then the media directory, which only a process start creates. */
  function ClearSession(x: Session, cleared: Cleared): Session {
    if cleared.FileKept? then x else x.(file := None, mediaDir := x.mediaDir && cleared.MediaKept?)
  }

  function WithCookies(x: Session, cookies: map<string, string>): Session {
    x.(auth := x.auth.(cookies := cookies))
  }

  /** A fresh process loads whatever session file is there, and creates the media directory. */
  function LoadSession(x: Session): Session {
    var loaded := x.file.Some? && IsPaired(x.file.value);
    Session(loaded, 0, if x.file.Some? then x.file.value else NO_AUTH, x.file, true)
  }

  /** Unpairing leaves paired as it was. */
  function SessionStep(x: Session, op: Op): Session {
    match op
    case Start(_) => LoadSession(x)
    case Save(_, saved) => SaveSession(x, saved)
    case CookiesRefreshed(cookies, saved) => SaveSession(WithCookies(x, cookies), saved)
    case PairSuccessful(saved) => SaveSession(x.(paired := true, generation := x.generation + 1), saved)
    case LoggedOut(cleared) => ClearSession(x.(paired := false), cleared)
    case Unpair(cleared) => ClearSession(x, cleared)
    case StartGaia(cookies) => WithCookies(x, cookies)
    case AuthChanged(auth) => x.(auth := auth)
    case _ => x
  }

  function StopPairRefresh(l: Loops): Loops {
    match l.pairCancel
    case Some(i) => l.(cancelled := l.cancelled + {i}, pairCancel := None)
    case None => l
  }

  /** Begins a refresh loop after stopping the previous one. */
  function StartPairRefresh(l: Loops): Loops {
    var t := StopPairRefresh(l);
    t.(started := t.started + 1, pairCancel := Some(t.started))
  }

  const NO_LOOPS := Loops(0, {}, None)

  predicate StopsRefresh(op: Op) {
    op.PairSuccessful? || op.Unpair? || op.StartGaia?
  }

  function LoopStep(l: Loops, op: Op): Loops {
    if op.Start? then NO_LOOPS
    else if op.StartPairing? then StartPairRefresh(l)
    else if StopsRefresh(op) then StopPairRefresh(l)
    else l
  }

  // --- cache and status ---

  ghost function UnreadCount(convs: ConversationMap): nat {
    |set id | id in convs && convs[id].unread|
  }

  ghost function Push(s: DaemonState): DaemonState {
    s.(pushed := s.pushed + [Pushed(s.status, UnreadCount(s.index.convs))])
  }

  ghost function PublishStatus(s: DaemonState): DaemonState {
    Push(s.(status := s.status.(unread := UnreadCount(s.index.convs))))
  }

  /** A new state drops the hint, and the QR code and emoji of any other state. */
  ghost function SetState(s: DaemonState, state: ConnState, error: string): DaemonState {
    PublishStatus(s.(status := s.status.(
      state := state, error := error, hint := "",
      qrUrl := if state.Pairing? then s.status.qrUrl else "",
      emoji := if state.GaiaPairing? then s.status.emoji else "")))
  }

  /** Whether a writer of the conversation cache is followed by a status push. */
  predicate PushesStatus(s: Index.IndexState, op: Index.IndexOp) {
    match op
    case TouchBy(m) => m.conversationId in s.convs
    case ReplaceAll(_) => true
    case Upsert(_) => true
    case MarkRead(_) => true
    case _ => false
  }

  /** The state a change leads to, and the message shown with it. */
  function Target(change: StateChange): (ConnState, string) {
    match change
    case SyncBegins => (Connected, "")
    case ListenLost => (Disconnected, "connection interrupted")
    case ListenRecovered => (Connected, "")
    case ListenFatal(message) => (Failing, message)
    case StartPairingFailed(message) => (Failing, message)
    case QrRefreshFailed(message) => (Failing, "pairing code expired: " + message)
    case QrTimedOut => (Unpaired, "pairing timed out")
    case GaiaTimedOut => (Unpaired, GAIA_TIMEOUT_ADVICE)
    case GaiaFailed(advice) => (Failing, advice)
    case CookiesUnavailable => (Failing, COOKIES_ADVICE)
  }

  ghost function OnClientReady(s: DaemonState, list: seq<Conversation>, now: int): DaemonState
    requires KeyedById(s.index.convs)
  {
    var t := s.(index := Index.Step(s.index, Index.ReplaceAll(list)), status := s.status.(lastSync := now));
    SetState(t, Connected, "")
  }

  /** Forgetting the cache is part of unpairing, never a step of its own. */
  ghost function OnConversations(s: DaemonState, op: Index.IndexOp): DaemonState
    requires KeyedById(s.index.convs)
  {
    if op.Forget? then s
    else
      var t := s.(index := Index.Step(s.index, op));
      if PushesStatus(s.index, op) then PublishStatus(t) else t
  }

  /** A session that could not be cleared stops unpairing half way. */
  ghost function OnUnpair(s: DaemonState, cleared: Cleared): DaemonState
    requires KeyedById(s.index.convs)
  {
    if !cleared.AllCleared? then s
    else SetState(s.(index := Index.Step(s.index, Index.Forget)), Unpaired, "")
  }

  ghost function OnStart(s: DaemonState, connectError: Option<string>): DaemonState {
    var t := DaemonState(Index.EMPTY_INDEX, FIRST_STATUS, s.session, s.loops, []);
    if !s.session.paired then SetState(t, Unpaired, "")
    else
      match connectError
      case None => SetState(t, Connecting, "")
      case Some(e) => SetState(SetState(t, Connecting, ""), Failing, e)
  }

  /** Neither pairing flow clears the hint of an earlier error. */
  ghost function OnStartPairing(s: DaemonState, qr: string): DaemonState {
    Push(s.(status := s.status.(state := Pairing, qrUrl := qr, error := "")))
  }

  ghost function OnQrRefreshed(s: DaemonState, qr: string): DaemonState {
    if !s.status.state.Pairing? then s else Push(s.(status := s.status.(qrUrl := qr)))
  }

  ghost function OnStartGaia(s: DaemonState): DaemonState {
    Push(s.(status := s.status.(state := GaiaPairing, error := "", qrUrl := "", emoji := "")))
  }

  /** Keeps whatever QR code was shown. */
  ghost function OnPairError(s: DaemonState, message: string, hint: string): DaemonState {
    Push(s.(status := s.status.(state := Failing, error := message, hint := hint)))
  }

  /** What a step does to the cache and the status, and what it pushes. */
  ghost function Show(s: DaemonState, op: Op): DaemonState
    requires KeyedById(s.index.convs)
  {
    match op
    case Start(connectError) => OnStart(s, connectError)
    case Change(change) => SetState(s, Target(change).0, Target(change).1)
    case PhoneAnswers(ok) => PublishStatus(s.(status := s.status.(phoneOk := ok)))
    case ClientReady(list, now) => OnClientReady(s, list, now)
    case Conversations(iop) => OnConversations(s, iop)
    case PairSuccessful(_) => SetState(s, Connected, "")
    case LoggedOut(_) => SetState(s, Unpaired, LOGGED_OUT_ADVICE)
    case Unpair(cleared) => OnUnpair(s, cleared)
    case StartPairing(qr) => OnStartPairing(s, qr)
    case QrRefreshed(qr) => OnQrRefreshed(s, qr)
    case StartGaia(_) => OnStartGaia(s)
    case GaiaEmoji(emoji) => Push(s.(status := s.status.(emoji := emoji)))
    case PairError(message, hint) => OnPairError(s, message, hint)
    case ProfileChosen(name) => s.(status := s.status.(profile := name))
    case _ => s
  }

  /** Session, loops, then cache and status: none of the three reads what another one writes in the same step. */
  ghost function Step(s: DaemonState, op: Op): DaemonState
    requires KeyedById(s.index.convs)
  {
    Show(s.(session := SessionStep(s.session, op), loops := LoopStep(s.loops, op)), op)
  }

  lemma StepKeepsKeyed(s: DaemonState, op: Op)
    requires KeyedById(s.index.convs)
    ensures KeyedById(Step(s, op).index.convs)
  {}

  ghost function Run(s: DaemonState, ops: seq<Op>): (s': DaemonState)
    requires KeyedById(s.index.convs)
    ensures KeyedById(s'.index.convs)
    decreases |ops|
  {
    if ops == [] then s
    else
      StepKeepsKeyed(s, ops[0]);
      Run(Step(s, ops[0]), ops[1..])
  }

  /** A machine on which nothing was ever paired, and a process that just began on it. */
  ghost const NEVER_PAIRED: DaemonState :=
    DaemonState(Index.EMPTY_INDEX, FIRST_STATUS, Session(false, 0, NO_AUTH, None, true), NO_LOOPS, [])

  // --- status ---

  /** What the status fields may hold in each state. */
  ghost predicate StatusFits(st: Status) {
    && (st.qrUrl != "" ==> st.state.Pairing? || st.state.Failing?)
    && (st.hint != "" ==> st.state.Failing? || st.state.Pairing? || st.state.GaiaPairing?)
    && (st.state.Connected? ==> st.error == "" && st.hint == "" && st.qrUrl == "")
  }

  /** A QR refresh loop that was begun and not cancelled. */
  predicate Running(l: Loops, i: nat) {
    i < l.started && i !in l.cancelled
  }

  /** Every loop but the one that can be cancelled is cancelled. */
  ghost predicate LoopsFit(l: Loops) {
    forall i: nat :: Running(l, i) ==> l.pairCancel == Some(i)
  }

  /** Everything but the status now showing. */
  ghost predicate Core(s: DaemonState) {
    Index.Valid(s.index) && forall p :: p in s.pushed ==> StatusFits(p.status) && p.status.unread == p.unreadInMap
  }

  ghost predicate Shown(s: DaemonState) {
    Core(s) && StatusFits(s.status) && s.status.unread == UnreadCount(s.index.convs)
  }

  ghost predicate Inv(s: DaemonState) {
    Shown(s) && LoopsFit(s.loops)
  }

  lemma LoopStepKeepsFit(l: Loops, op: Op)
    requires LoopsFit(l)
    ensures LoopsFit(LoopStep(l, op))
    ensures StopsRefresh(op) ==> forall i: nat :: !Running(LoopStep(l, op), i)
  {}

  lemma PushKeepsShown(s: DaemonState)
    requires Shown(s)
    ensures Shown(Push(s))
  {}

  lemma PublishShows(s: DaemonState)
    requires Core(s) && StatusFits(s.status)
    ensures Shown(PublishStatus(s))
  {
    PushKeepsShown(s.(status := s.status.(unread := UnreadCount(s.index.convs))));
  }

  lemma SetStateShows(s: DaemonState, state: ConnState, error: string)
    requires Core(s) && !state.Pairing? && (state.Connected? ==> error == "")
    ensures Shown(SetState(s, state, error))
  {
    PublishShows(s.(status := s.status.(
      state := state, error := error, hint := "", qrUrl := "",
      emoji := if state.GaiaPairing? then s.status.emoji else "")));
  }

  lemma NoneUnread()
    ensures UnreadCount(map[]) == 0
  {
    var none: ConversationMap := map[];
    assert (set id | id in none && none[id].unread) == {};
  }

  /** Writers that push no status leave the number of unread conversations alone. */
  lemma SilentWritersKeepUnread(s: Index.IndexState, op: Index.IndexOp)
    requires KeyedById(s.convs) && !op.Forget? && !PushesStatus(s, op)
    ensures UnreadCount(Index.Step(s, op).convs) == UnreadCount(s.convs)
  {
    var convs := Index.Step(s, op).convs;
    assert (set id | id in convs && convs[id].unread) == (set id | id in s.convs && s.convs[id].unread);
  }

  lemma StartShows(s: DaemonState, connectError: Option<string>)
    ensures Shown(OnStart(s, connectError))
  {
    NoneUnread();
    IndexIsTopIds([], map[]);
    var t := DaemonState(Index.EMPTY_INDEX, FIRST_STATUS, s.session, s.loops, []);
    SetStateShows(t, Unpaired, "");
    SetStateShows(t, Connecting, "");
    if connectError.Some? {
      SetStateShows(SetState(t, Connecting, ""), Failing, connectError.value);
    }
  }

  lemma UnpairShows(s: DaemonState, cleared: Cleared)
    requires Shown(s)
    ensures Shown(OnUnpair(s, cleared))
  {
    Index.StepKeepsValid(s.index, Index.Forget);
    SetStateShows(s.(index := Index.Step(s.index, Index.Forget)), Unpaired, "");
  }

  lemma ClientReadyShows(s: DaemonState, list: seq<Conversation>, now: int)
    requires Shown(s)
    ensures Shown(OnClientReady(s, list, now))
  {
    Index.StepKeepsValid(s.index, Index.ReplaceAll(list));
    SetStateShows(
      s.(index := Index.Step(s.index, Index.ReplaceAll(list)), status := s.status.(lastSync := now)), Connected, "");
  }

  lemma ConversationsShow(s: DaemonState, op: Index.IndexOp)
    requires Shown(s)
    ensures Shown(OnConversations(s, op))
  {
    Index.StepKeepsValid(s.index, op);
    if !op.Forget? {
      if PushesStatus(s.index, op) {
        PublishShows(s.(index := Index.Step(s.index, op)));
      } else {
        SilentWritersKeepUnread(s.index, op);
      }
    }
  }

  /** The pairing flows push a status whose unread number they do not recompute. */
  lemma PairingFlowsShow(s: DaemonState, qr: string)
    requires Shown(s)
    ensures Shown(OnStartPairing(s, qr)) && Shown(OnQrRefreshed(s, qr)) && Shown(OnStartGaia(s))
  {
    PushKeepsShown(s.(status := s.status.(state := Pairing, qrUrl := qr, error := "")));
    PushKeepsShown(s.(status := s.status.(state := GaiaPairing, error := "", qrUrl := "", emoji := "")));
    if s.status.state.Pairing? {
      PushKeepsShown(s.(status := s.status.(qrUrl := qr)));
    }
  }

  lemma PairErrorShows(s: DaemonState, message: string, hint: string)
    requires Shown(s)
    ensures Shown(OnPairError(s, message, hint))
  {
    PushKeepsShown(s.(status := s.status.(state := Failing, error := message, hint := hint)));
  }

  predicate InPairing(op: Op) {
    op.StartPairing? || op.QrRefreshed? || op.StartGaia? || op.GaiaEmoji? || op.PairError? || op.ProfileChosen?
  }

  lemma PairingKeepsShown(s: DaemonState, op: Op)
    requires Shown(s) && InPairing(op)
    ensures Shown(Show(s, op))
  {
    match op
    case StartPairing(qr) => PairingFlowsShow(s, qr);
    case QrRefreshed(qr) => PairingFlowsShow(s, qr);
    case StartGaia(_) => PairingFlowsShow(s, "");
    case GaiaEmoji(emoji) => PushKeepsShown(s.(status := s.status.(emoji := emoji)));
    case PairError(message, hint) => PairErrorShows(s, message, hint);
    case ProfileChosen(_) =>
  }

  lemma ShowKeepsShown(s: DaemonState, op: Op)
    requires Shown(s)
    ensures Shown(Show(s, op))
  {
    if InPairing(op) {
      PairingKeepsShown(s, op);
    } else {
      OthersKeepShown(s, op);
    }
  }

  lemma OthersKeepShown(s: DaemonState, op: Op)
    requires Shown(s) && !InPairing(op)
    ensures Shown(Show(s, op))
  {
    match op
    case Start(connectError) => StartShows(s, connectError);
    case Change(change) => SetStateShows(s, Target(change).0, Target(change).1);
    case PhoneAnswers(ok) => PublishShows(s.(status := s.status.(phoneOk := ok)));
    case ClientReady(list, now) => ClientReadyShows(s, list, now);
    case Conversations(iop) => ConversationsShow(s, iop);
    case PairSuccessful(_) => SetStateShows(s, Connected, "");
    case LoggedOut(_) => SetStateShows(s, Unpaired, LOGGED_OUT_ADVICE);
    case Unpair(cleared) => UnpairShows(s, cleared);
    case _ =>
  }

  /** Showing a step leaves session and loops as they are. */
  lemma ShowOnlyShows(s: DaemonState, op: Op)
    requires KeyedById(s.index.convs)
    ensures Show(s, op).session == s.session && Show(s, op).loops == s.loops
  {}

  lemma StepOfParts(s: DaemonState, op: Op)
    requires KeyedById(s.index.convs)
    ensures Step(s, op).session == SessionStep(s.session, op) && Step(s, op).loops == LoopStep(s.loops, op)
  {
    ShowOnlyShows(s.(session := SessionStep(s.session, op), loops := LoopStep(s.loops, op)), op);
  }

  lemma StepKeepsInv(s: DaemonState, op: Op)
    requires Inv(s)
    ensures Inv(Step(s, op))
  {
    ShowKeepsShown(s.(session := SessionStep(s.session, op), loops := LoopStep(s.loops, op)), op);
    StepOfParts(s, op);
    LoopStepKeepsFit(s.loops, op);
  }

  lemma {:induction false} RunKeepsInv(s: DaemonState, ops: seq<Op>)
    requires Inv(s)
    ensures Inv(Run(s, ops))
    decreases |ops|
  {
    if ops != [] {
      StepKeepsInv(s, ops[0]);
      RunKeepsInv(Step(s, ops[0]), ops[1..]);
    }
  }

  lemma NeverPairedHolds()
    ensures Inv(NEVER_PAIRED)
  {
    NoneUnread();
    IndexIsTopIds([], map[]);
  }

  /**
   * In every reachable state, and in every status ever pushed: a QR code is shown only while pairing or in error,
   * a hint only in error or while pairing, a connected status carries neither nor an error, and the unread number
   * is exact, although five of the pushes do not recompute it. At most one QR refresh loop is left uncancelled.
   */
  lemma StatusAlwaysFits(ops: seq<Op>)
    ensures var s := Run(NEVER_PAIRED, ops);
      && StatusFits(s.status) && s.status.unread == UnreadCount(s.index.convs)
      && (forall p :: p in s.pushed ==> StatusFits(p.status) && p.status.unread == p.unreadInMap)
      && (forall i: nat, j: nat :: Running(s.loops, i) && Running(s.loops, j) ==> i == j)
      && IsIndex(s.index.order, s.index.convs)
  {
    NeverPairedHolds();
    RunKeepsInv(NEVER_PAIRED, ops);
    TopIdsIsIndex(Run(NEVER_PAIRED, ops).index.convs);
  }

  /** Once a pairing completed, was taken back, or moved to the Google flow, no QR refresh loop is left running. */
  lemma NoRefreshLoopLeft(ops: seq<Op>, op: Op)
    requires StopsRefresh(op)
    ensures forall i: nat :: !Running(Step(Run(NEVER_PAIRED, ops), op).loops, i)
  {
    NeverPairedHolds();
    RunKeepsInv(NEVER_PAIRED, ops);
    LoopStepKeepsFit(Run(NEVER_PAIRED, ops).loops, op);
    StepOfParts(Run(NEVER_PAIRED, ops), op);
  }

  /** The bounds are tight: an error keeps the QR code shown, and both pairing flows keep the hint of an error. */
  lemma StatusBoundsAreTight(s: DaemonState, qr: string, message: string, hint: string,
                             cookies: map<string, string>)
    requires KeyedById(s.index.convs)
    ensures Step(Step(s, StartPairing(qr)), PairError(message, hint)).status.qrUrl == qr
    ensures Step(Step(s, PairError(message, hint)), StartPairing(qr)).status.hint == hint
    ensures Step(Step(s, PairError(message, hint)), StartGaia(cookies)).status.hint == hint
  {}

  ghost predicate EmojiFits(st: Status) {
    st.emoji != "" ==> st.state.GaiaPairing? || st.state.Pairing? || st.state.Failing?
  }

  /** The emoji callback runs in a state that does not show emojis. */
  predicate LateEmoji(s: DaemonState, op: Op) {
    op.GaiaEmoji? && op.emoji != "" &&
    !(s.status.state.GaiaPairing? || s.status.state.Pairing? || s.status.state.Failing?)
  }

  ghost predicate NoLateEmoji(s: DaemonState, ops: seq<Op>)
    requires KeyedById(s.index.convs)
    decreases |ops|
  {
    ops == [] || (!LateEmoji(s, ops[0]) && NoLateEmoji(Step(s, ops[0]), ops[1..]))
  }

  lemma EmojiFitsIffNotLate(s: DaemonState, op: Op)
    requires KeyedById(s.index.convs) && EmojiFits(s.status)
    ensures EmojiFits(Step(s, op).status) <==> !LateEmoji(s, op)
  {}

  /** Without late callbacks an emoji is shown only while pairing or in error; each late one breaks that at once. */
  lemma {:induction false} EmojiFitsUnlessLate(s: DaemonState, ops: seq<Op>)
    requires KeyedById(s.index.convs) && EmojiFits(s.status) && NoLateEmoji(s, ops)
    ensures EmojiFits(Run(s, ops).status)
    decreases |ops|
  {
    if ops != [] {
      EmojiFitsIffNotLate(s, ops[0]);
      EmojiFitsUnlessLate(Step(s, ops[0]), ops[1..]);
    }
  }

  /** The emoji is not covered by that promise: a late callback shows it on a connected status. */
  lemma EmojiWhileConnected(ops: seq<Op>, emoji: string)
    ensures var s := Step(Step(Run(NEVER_PAIRED, ops), Change(ListenRecovered)), GaiaEmoji(emoji));
      s.status.state.Connected? && s.status.emoji == emoji
  {}

  // --- what each handler shows ---

  /** The whole status but unread number, profile and time of the last sync. */
  ghost predicate Reads(st: Status, state: ConnState, error: string, hint: string, qr: string, emoji: string) {
    st.state == state && st.error == error && st.hint == hint && st.qrUrl == qr && st.emoji == emoji
  }

  /** What every status keeps of the one before, and that the last push is the status now showing, freshly counted. */
  ghost predicate Pushes(s: DaemonState, t: DaemonState) {
    && t.pushed == s.pushed + [Pushed(t.status, UnreadCount(t.index.convs))]
    && t.status.profile == s.status.profile
  }

  /** The state and the message that each change shows; what pairing showed before is gone. */
  lemma ChangesShow(s: DaemonState, change: StateChange)
    requires KeyedById(s.index.convs)
    ensures var st := Step(s, Change(change)).status;
      && st.hint == "" && st.qrUrl == "" && st.emoji == ""
      && match change
         case SyncBegins => st.state == Connected && st.error == ""
         case ListenRecovered => st.state == Connected && st.error == ""
         case ListenLost => st.state == Disconnected && st.error == "connection interrupted"
         case ListenFatal(message) => st.state == Failing && st.error == message
         case StartPairingFailed(message) => st.state == Failing && st.error == message
         case GaiaFailed(advice) => st.state == Failing && st.error == advice
         case QrRefreshFailed(message) => st.state == Failing && st.error == "pairing code expired: " + message
         case QrTimedOut => st.state == Unpaired && st.error == "pairing timed out"
         case GaiaTimedOut => st.state == Unpaired && st.error == GAIA_TIMEOUT_ADVICE
         case CookiesUnavailable => st.state == Failing && st.error == COOKIES_ADVICE
  {}

  /** A change of state touches neither cache nor session, and pushes its status once with a fresh count. */
  lemma ChangesOnlyShow(s: DaemonState, change: StateChange)
    requires KeyedById(s.index.convs)
    ensures var t := Step(s, Change(change));
      && t.index == s.index && t.session == s.session && t.loops == s.loops && Pushes(s, t)
      && t.status.unread == UnreadCount(s.index.convs)
      && t.status.phoneOk == s.status.phoneOk && t.status.lastSync == s.status.lastSync
  {}

  /** Pairing and its end: what is shown after each handler, and that it is pushed. */
  lemma PairingEndsShow(s: DaemonState, saved: bool, cleared: Cleared)
    requires KeyedById(s.index.convs)
    ensures var t := Step(s, PairSuccessful(saved));
      Reads(t.status, Connected, "", "", "", "") && Pushes(s, t) && t.index == s.index
    ensures var t := Step(s, LoggedOut(cleared));
      Reads(t.status, Unpaired, LOGGED_OUT_ADVICE, "", "", "") && Pushes(s, t) && t.index == s.index
  {}

  lemma UnpairingShows(s: DaemonState, cleared: Cleared)
    requires KeyedById(s.index.convs)
    ensures var t := Step(s, Unpair(cleared));
      if cleared.AllCleared?
      then Reads(t.status, Unpaired, "", "", "", "") && Pushes(s, t) && t.index.convs == map[] && t.index.order == []
      else t.status == s.status && t.pushed == s.pushed && t.index == s.index
  {}

  lemma PairingBeginsShow(s: DaemonState, qr: string, cookies: map<string, string>, message: string, hint: string)
    requires KeyedById(s.index.convs)
    ensures var t := Step(s, StartPairing(qr));
      Reads(t.status, Pairing, "", s.status.hint, qr, s.status.emoji) && Pushes(s, t) && t.index == s.index
    ensures var t := Step(s, StartGaia(cookies));
      Reads(t.status, GaiaPairing, "", s.status.hint, "", "") && Pushes(s, t) && t.index == s.index
    ensures var t := Step(s, PairError(message, hint));
      Reads(t.status, Failing, message, hint, s.status.qrUrl, s.status.emoji) && Pushes(s, t) && t.index == s.index
  {}

  /** Later news of a pairing: a refreshed code only while pairing, an emoji at any time, a profile without a push. */
  lemma PairingNewsShows(s: DaemonState, text: string)
    requires KeyedById(s.index.convs)
    ensures var t := Step(s, QrRefreshed(text));
      if s.status.state.Pairing? then t.status == s.status.(qrUrl := text) && Pushes(s, t) else t == s
    ensures var t := Step(s, GaiaEmoji(text)); t.status == s.status.(emoji := text) && Pushes(s, t)
    ensures Step(s, ProfileChosen(text)) == s.(status := s.status.(profile := text))
  {}

  /** Which writers of the cache are followed by a push of the status: all but claims, pictures and unknown messages. */
  lemma WritersShow(s: DaemonState, iop: Index.IndexOp)
    requires KeyedById(s.index.convs) && !iop.Forget?
    ensures var t := Step(s, Conversations(iop));
      && t.index == Index.Step(s.index, iop) && t.session == s.session && t.loops == s.loops
      && (iop.ReplaceAll? || iop.Upsert? || iop.MarkRead? ||
          (iop.TouchBy? && iop.message.conversationId in s.index.convs) ==>
          Pushes(s, t) && t.status == s.status.(unread := UnreadCount(t.index.convs)))
      && (iop.ClaimAvatar? || iop.AvatarLanded? ||
          (iop.TouchBy? && iop.message.conversationId !in s.index.convs) ==>
          t.pushed == s.pushed && t.status == s.status)
  {}

  /** A start shows whether a usable session was found and whether the connection came up; syncing shows the time. */
  lemma StartAndSyncShow(s: DaemonState, message: string, ok: bool, list: seq<Conversation>, now: int)
    requires KeyedById(s.index.convs)
    ensures var t := Step(s, Start(None));
      t.index == Index.EMPTY_INDEX && Reads(t.status, if t.session.paired then Connecting else Unpaired, "", "", "", "")
    ensures var t := Step(s, Start(Some(message)));
      if t.session.paired then Reads(t.status, Failing, message, "", "", "")
      else Reads(t.status, Unpaired, "", "", "", "")
    ensures var t := Step(s, ClientReady(list, now));
      && Reads(t.status, Connected, "", "", "", "") && t.status.lastSync == now && Pushes(s, t)
      && t.index == Index.Step(s.index, Index.ReplaceAll(list))
    ensures var t := Step(s, PhoneAnswers(ok));
      t.status == s.status.(phoneOk := ok, unread := UnreadCount(s.index.convs)) && Pushes(s, t)
  {}

  lemma CountWithout<T>(a: set<T>, b: set<T>, x: T)
    requires a - {x} == b - {x}
    ensures |b| == |a| - (if x in a then 1 else 0) + (if x in b then 1 else 0)
  {
    assert a == (a - {x}) + (if x in a then {x} else {});
    assert b == (b - {x}) + (if x in b then {x} else {});
  }

  /** The unread number moves with the one conversation that is replaced. */
  lemma UnreadCountMoves(convs: ConversationMap, id: string, c: Conversation)
    ensures UnreadCount(convs[id := c]) ==
      UnreadCount(convs) - (if id in convs && convs[id].unread then 1 else 0) + (if c.unread then 1 else 0)
  {
    var after := convs[id := c];
    CountWithout((set x | x in convs && convs[x].unread), (set x | x in after && after[x].unread), id);
  }

  lemma OnlyNewLoopRuns(l: Loops, i: nat)
    requires LoopsFit(l) && LoopsStarted(l)
    ensures Running(StartPairRefresh(l), i) <==> i == l.started
  {
    assert i < l.started ==> Running(l, i) || i in l.cancelled;
  }

  /** Beginning to pair leaves exactly the new refresh loop running. */
  lemma OneLoopAfterStart(ops: seq<Op>, qr: string, i: nat)
    ensures var s := Run(NEVER_PAIRED, ops);
      Running(Step(s, StartPairing(qr)).loops, i) <==> i == s.loops.started
  {
    NeverPairedHolds();
    RunKeepsInv(NEVER_PAIRED, ops);
    StepOfParts(Run(NEVER_PAIRED, ops), StartPairing(qr));
    StartedFrom(NEVER_PAIRED, ops);
    OnlyNewLoopRuns(Run(NEVER_PAIRED, ops).loops, i);
  }

  ghost predicate LoopsStarted(l: Loops) {
    (forall i :: i in l.cancelled ==> i < l.started) && (l.pairCancel.Some? ==> l.pairCancel.value < l.started)
  }

  lemma {:induction false} StartedFrom(s: DaemonState, ops: seq<Op>)
    requires KeyedById(s.index.convs) && LoopsStarted(s.loops)
    ensures LoopsStarted(Run(s, ops).loops)
    decreases |ops|
  {
    if ops != [] {
      StepOfParts(s, ops[0]);
      StartedFrom(Step(s, ops[0]), ops[1..]);
    }
  }
}
