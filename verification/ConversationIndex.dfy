/** The conversation cache of the daemon: a map, and a served order that only some writers rebuild. */
module ConversationIndex {
  import opened ConversationOrder
  import opened Sequences

  /** The part of an incoming message that moves a conversation. */
  datatype Touch = Touch(conversationId: string, timestamp: int, fromMe: bool, text: string, hasAttachment: bool)

  /** tried and avatars are the avatar store: attempts made, and pictures that landed. */
  datatype IndexState = IndexState(
    convs: ConversationMap, order: seq<string>, tried: set<string>, avatars: map<string, string>)

  datatype IndexOp =
    | ReplaceAll(list: seq<Conversation>)
    | Upsert(conv: Conversation)
    | TouchBy(message: Touch)
    | MarkRead(id: string)
    | ClaimAvatar(id: string)
    | AvatarLanded(id: string, path: string)
    | Forget

  const EMPTY_INDEX := IndexState(map[], [], {}, map[])

  /** A conversation as converted from the phone: it carries no picture, only one already cached is added. */
  function FromPhone(c: Conversation, avatars: map<string, string>): Conversation {
    c.(avatarPath := if c.id in avatars then avatars[c.id] else "")
  }

  /** The map built from a list, later entries overwriting earlier ones of the same identifier. */
  function FromList(list: seq<Conversation>, avatars: map<string, string>): ConversationMap {
    if list == [] then map[]
    else
      var c := FromPhone(list[|list| - 1], avatars);
      FromList(list[..|list| - 1], avatars)[c.id := c]
  }

  function Touched(c: Conversation, m: Touch): Conversation {
    c.(timestamp := m.timestamp,
       previewMine := m.fromMe,
       preview := if m.text != "" then m.text else if m.hasAttachment then "Attachment" else c.preview,
       unread := c.unread || !m.fromMe)
  }

  lemma FromListKeyed(list: seq<Conversation>, avatars: map<string, string>)
    ensures KeyedById(FromList(list, avatars))
    ensures forall id :: id in FromList(list, avatars) && id in avatars ==>
      FromList(list, avatars)[id].avatarPath == avatars[id]
  {}

  /** The entry of an identifier is the last of it in the list. */
  ghost predicate LastOf(list: seq<Conversation>, id: string, k: nat) {
    k < |list| && list[k].id == id && forall j :: k < j < |list| ==> list[j].id != id
  }

  /** stored is the conversation given, with the cached picture of its identifier, or none, in place of its own. */
  ghost predicate StoredAs(stored: Conversation, given: Conversation, avatars: map<string, string>) {
    && stored.(avatarPath := given.avatarPath) == given
    && (given.id in avatars ==> stored.avatarPath == avatars[given.id])
    && (given.id !in avatars ==> stored.avatarPath == "")
  }

  /** A replacement knows exactly the identifiers of its list, each by its last entry and its cached picture. */
  lemma {:induction false} FromListTakesTheLast(list: seq<Conversation>, avatars: map<string, string>, id: string)
    ensures id in FromList(list, avatars) <==> exists k: nat :: LastOf(list, id, k)
    ensures forall k: nat :: LastOf(list, id, k) ==>
      id in FromList(list, avatars) && StoredAs(FromList(list, avatars)[id], list[k], avatars)
  {
    if list != [] {
      var n := |list| - 1;
      var early := list[..n];
      FromListTakesTheLast(early, avatars, id);
      if list[n].id == id {
        assert LastOf(list, id, n);
        assert forall k: nat :: LastOf(list, id, k) ==> k == n;
      } else {
        assert forall k: nat :: LastOf(list, id, k) <==> LastOf(early, id, k);
      }
    }
  }

  /** One writer, atomically. Mark-read, a landed picture and an out-of-date message keep the old order. */
  ghost function Step(s: IndexState, op: IndexOp): (s': IndexState)
    requires KeyedById(s.convs)
    ensures KeyedById(s'.convs)
  {
    match op
    case ReplaceAll(list) =>
      FromListKeyed(list, s.avatars);
      var convs := FromList(list, s.avatars);
      s.(convs := convs, order := TopIds(convs))
    case Upsert(conv) =>
      var convs := s.convs[conv.id := FromPhone(conv, s.avatars)];
      s.(convs := convs, order := TopIds(convs))
    case TouchBy(m) =>
      if m.conversationId in s.convs && m.timestamp >= s.convs[m.conversationId].timestamp then
        var convs := s.convs[m.conversationId := Touched(s.convs[m.conversationId], m)];
        s.(convs := convs, order := TopIds(convs))
      else s
    case MarkRead(id) =>
      if id in s.convs then s.(convs := s.convs[id := s.convs[id].(unread := false)]) else s
    case ClaimAvatar(id) => s.(tried := s.tried + {id})
    case AvatarLanded(id, path) =>
      s.(avatars := s.avatars[id := path],
         convs := if id in s.convs then s.convs[id := s.convs[id].(avatarPath := path)] else s.convs)
    case Forget => s.(convs := map[], order := [])
  }

  /** What an upsert stores, and that it touches nothing else. */
  lemma UpsertStores(s: IndexState, c: Conversation)
    requires KeyedById(s.convs)
    ensures var t := Step(s, Upsert(c));
      && c.id in t.convs && StoredAs(t.convs[c.id], c, s.avatars)
      && t.convs - {c.id} == s.convs - {c.id}
      && t.tried == s.tried && t.avatars == s.avatars
  {}

  /** A replacement stores its list, for each identifier the last entry, and leaves the pictures alone. */
  lemma ReplacementStores(s: IndexState, list: seq<Conversation>, id: string)
    requires KeyedById(s.convs)
    ensures var t := Step(s, ReplaceAll(list));
      && (id in t.convs <==> exists k: nat :: LastOf(list, id, k))
      && (forall k: nat :: LastOf(list, id, k) ==> id in t.convs && StoredAs(t.convs[id], list[k], s.avatars))
      && t.tried == s.tried && t.avatars == s.avatars
  {
    FromListTakesTheLast(list, s.avatars, id);
  }

  /** Marking read ends with the flag cleared and touches nothing else. */
  lemma MarkReadClears(s: IndexState, id: string)
    requires KeyedById(s.convs)
    ensures var t := Step(s, MarkRead(id));
      && t.convs.Keys == s.convs.Keys && t.convs - {id} == s.convs - {id}
      && (id in s.convs ==> !t.convs[id].unread && t.convs[id].(unread := s.convs[id].unread) == s.convs[id])
      && t.order == s.order && t.tried == s.tried && t.avatars == s.avatars
  {}

  /** A landed picture is remembered, and shown on its conversation, which otherwise stays as it is. */
  lemma LandingShows(s: IndexState, id: string, path: string)
    requires KeyedById(s.convs)
    ensures var t := Step(s, AvatarLanded(id, path));
      && t.convs.Keys == s.convs.Keys && t.convs - {id} == s.convs - {id}
      && (id in s.convs ==>
          t.convs[id].avatarPath == path && t.convs[id].(avatarPath := s.convs[id].avatarPath) == s.convs[id])
      && id in t.avatars && t.avatars[id] == path && t.avatars - {id} == s.avatars - {id}
      && t.order == s.order && t.tried == s.tried
  {}

  /** A claim marks one conversation as attempted; forgetting keeps attempts and pictures. */
  lemma ClaimAndForget(s: IndexState, id: string)
    requires KeyedById(s.convs)
    ensures var t := Step(s, ClaimAvatar(id));
      id in t.tried && t.tried - {id} == s.tried - {id} && t == s.(tried := t.tried)
    ensures var t := Step(s, Forget);
      t.convs == map[] && t.order == [] && t.avatars == s.avatars && t.tried == s.tried
  {}

  /** A message reaches a known conversation unless it is out of date, and no other. */
  lemma TouchStores(s: IndexState, m: Touch)
    requires KeyedById(s.convs)
    ensures var t, id := Step(s, TouchBy(m)), m.conversationId;
      && t.convs.Keys == s.convs.Keys && t.convs - {id} == s.convs - {id}
      && t.tried == s.tried && t.avatars == s.avatars
      && (id in s.convs && m.timestamp < s.convs[id].timestamp ==> t == s)
      && (id in s.convs && m.timestamp >= s.convs[id].timestamp ==>
        var c, d := s.convs[id], t.convs[id];
        && d.timestamp == m.timestamp && d.previewMine == m.fromMe
        && (d.unread <==> c.unread || !m.fromMe)
        && (HasPreview(m) ==> d.preview == PreviewOf(m)) && (!HasPreview(m) ==> d.preview == c.preview)
        && d.(timestamp := c.timestamp, previewMine := c.previewMine, unread := c.unread, preview := c.preview) == c)
  {}

  /** The conversation a writer is about, when it is about a single one. */
  function Subject(op: IndexOp): Option<string> {
    match op
    case Upsert(conv) => Some(conv.id)
    case TouchBy(m) => Some(m.conversationId)
    case MarkRead(id) => Some(id)
    case AvatarLanded(id, _) => Some(id)
    case ReplaceAll(_) => None
    case ClaimAvatar(_) => None
    case Forget => None
  }

  /** Conversation events pushed to subscribers by one writer, in order. */
  ghost function Emitted(s: IndexState, op: IndexOp): seq<Conversation>
    requires Valid(s)
  {
    StepKeepsValid(s, op);
    var s' := Step(s, op);
    if op.ReplaceAll? then ServedList(s')
    else match Subject(op)
      case Some(id) => if id in s'.convs then [s'.convs[id]] else []
      case None => []
  }

  /** Every writer about one known conversation pushes it as it then is; the others push nothing but a replacement. */
  lemma WritersPush(s: IndexState, c: Conversation, m: Touch, id: string, path: string)
    requires Valid(s)
    ensures var t := Step(s, Upsert(c)); c.id in t.convs && Emitted(s, Upsert(c)) == [t.convs[c.id]]
    ensures m.conversationId in s.convs ==> Emitted(s, TouchBy(m)) == [Step(s, TouchBy(m)).convs[m.conversationId]]
    ensures m.conversationId !in s.convs ==> Emitted(s, TouchBy(m)) == []
    ensures id in s.convs ==>
      Emitted(s, MarkRead(id)) == [Step(s, MarkRead(id)).convs[id]] &&
      Emitted(s, AvatarLanded(id, path)) == [Step(s, AvatarLanded(id, path)).convs[id]]
    ensures id !in s.convs ==> Emitted(s, MarkRead(id)) == [] && Emitted(s, AvatarLanded(id, path)) == []
    ensures Emitted(s, ClaimAvatar(id)) == [] && Emitted(s, Forget) == []
  {}

  /** Every landed picture is on its conversation, however often the phone has resent it since. */
  ghost predicate AvatarsKept(s: IndexState) {
    forall id :: id in s.convs && id in s.avatars ==> s.convs[id].avatarPath == s.avatars[id]
  }

  ghost predicate Valid(s: IndexState) {
    KeyedById(s.convs) && s.order == TopIds(s.convs) && AvatarsKept(s)
  }

  ghost function ServedList(s: IndexState): (list: seq<Conversation>)
    requires Valid(s)
    ensures |list| == |s.order| && forall i :: 0 <= i < |list| ==> list[i].id == s.order[i]
  {
    TopIdsIsIndex(s.convs);
    assert forall i :: 0 <= i < |s.order| ==> s.order[i] in s.order;
    seq(|s.order|, i requires 0 <= i < |s.order| => s.convs[s.order[i]])
  }

  /** A patch that leaves rank and pictures alone, or updates a picture with the store, needs no rebuild. */
  lemma PatchKeepsValid(s: IndexState, t: IndexState)
    requires Valid(s) && KeyedById(t.convs) && t.order == s.order && AvatarsKept(t) && t.convs.Keys == s.convs.Keys
    requires forall id :: id in s.convs ==> SameRankFields(s.convs[id], t.convs[id])
    ensures Valid(t)
  {
    TopIdsIgnoresOtherFields(s.convs, t.convs);
  }

  /** The order agrees with the map after every writer, including those that do not rebuild it. */
  lemma StepKeepsValid(s: IndexState, op: IndexOp)
    requires Valid(s)
    ensures Valid(Step(s, op))
  {
    match op
    case ReplaceAll(list) => FromListKeyed(list, s.avatars);
    case MarkRead(id) => PatchKeepsValid(s, Step(s, op));
    case AvatarLanded(id, path) => PatchKeepsValid(s, Step(s, op));
    case Forget => IndexIsTopIds([], map[]);
    case _ =>
  }

  ghost function Run(s: IndexState, ops: seq<IndexOp>): (s': IndexState)
    requires KeyedById(s.convs)
    ensures KeyedById(s'.convs)
    decreases |ops|
  {
    if ops == [] then s else Run(Step(s, ops[0]), ops[1..])
  }

  lemma {:induction false} RunKeepsValid(s: IndexState, ops: seq<IndexOp>)
    requires Valid(s)
    ensures Valid(Run(s, ops))
    decreases |ops|
  {
    if ops != [] {
      StepKeepsValid(s, ops[0]);
      RunKeepsValid(Step(s, ops[0]), ops[1..]);
    }
  }

  /** After any run the order lists exactly the best 50 conversations of the map, without repeats, best first. */
  lemma ServedOrderIsAlwaysTheIndex(ops: seq<IndexOp>)
    ensures var s := Run(EMPTY_INDEX, ops);
      IsIndex(s.order, s.convs) && Distinct(s.order) && KeyedById(s.convs) && AvatarsKept(s)
  {
    IndexIsTopIds([], map[]);
    RunKeepsValid(EMPTY_INDEX, ops);
    var s := Run(EMPTY_INDEX, ops);
    TopIdsIsIndex(s.convs);
    RankedIsDistinct(s.order, s.convs);
  }

  /** Two histories that end in the same map end in the same order. */
  lemma OrderDependsOnMapAlone(ops1: seq<IndexOp>, ops2: seq<IndexOp>)
    requires Run(EMPTY_INDEX, ops1).convs == Run(EMPTY_INDEX, ops2).convs
    ensures Run(EMPTY_INDEX, ops1).order == Run(EMPTY_INDEX, ops2).order
  {
    ServedOrderIsAlwaysTheIndex(ops1);
    ServedOrderIsAlwaysTheIndex(ops2);
    IndexIsTopIds(Run(EMPTY_INDEX, ops1).order, Run(EMPTY_INDEX, ops1).convs);
    IndexIsTopIds(Run(EMPTY_INDEX, ops2).order, Run(EMPTY_INDEX, ops2).convs);
  }

  // --- what a conversation shows after messages ---

  /** Every message of the list delivered to its conversation, in order of arrival. */
  function TouchedAll(c: Conversation, messages: seq<Touch>): Conversation {
    if messages == [] then c
    else Delivered(TouchedAll(c, messages[..|messages| - 1]), messages[|messages| - 1])
  }

  /** The last of the newest messages, none of them older than what the conversation showed. */
  ghost predicate IsNewest(c: Conversation, messages: seq<Touch>, k: nat) {
    k < |messages| && messages[k].timestamp >= c.timestamp &&
    (forall j :: 0 <= j < |messages| ==> messages[j].timestamp <= messages[k].timestamp) &&
    (forall j :: k < j < |messages| ==> messages[j].timestamp < messages[k].timestamp)
  }

  ghost predicate AllOlder(c: Conversation, messages: seq<Touch>) {
    forall j :: 0 <= j < |messages| ==> messages[j].timestamp < c.timestamp
  }

  ghost predicate ShowsMessage(t: Conversation, m: Touch) {
    t.timestamp == m.timestamp && t.previewMine == m.fromMe
  }

  /** Message j was not out of date when it arrived. */
  ghost predicate Timely(c: Conversation, messages: seq<Touch>, j: nat) {
    j < |messages| && messages[j].timestamp >= c.timestamp &&
    forall i :: 0 <= i < j ==> messages[i].timestamp <= messages[j].timestamp
  }

  predicate HasPreview(m: Touch) {
    m.text != "" || m.hasAttachment
  }

  function PreviewOf(m: Touch): string {
    if m.text != "" then m.text else "Attachment"
  }

  /** Message j is the last timely one with something to show. */
  ghost predicate GivesPreview(c: Conversation, messages: seq<Touch>, j: nat) {
    Timely(c, messages, j) && HasPreview(messages[j]) &&
    forall i :: j < i < |messages| && Timely(c, messages, i) ==> !HasPreview(messages[i])
  }

  ghost predicate NonePreviews(c: Conversation, messages: seq<Touch>) {
    forall j: nat :: Timely(c, messages, j) ==> !HasPreview(messages[j])
  }

  /** A timely message from someone else. */
  ghost predicate Unreads(c: Conversation, messages: seq<Touch>, j: nat) {
    Timely(c, messages, j) && !messages[j].fromMe
  }

  ghost predicate ShowsUnread(t: Conversation, c: Conversation, messages: seq<Touch>) {
    t.unread <==> c.unread || exists j: nat :: Unreads(c, messages, j)
  }

  /** A message with nothing to show leaves an older text under its own sender and time. */
  ghost predicate ShowsPreview(t: Conversation, c: Conversation, messages: seq<Touch>) {
    if NonePreviews(c, messages) then t.preview == c.preview
    else exists j: nat :: GivesPreview(c, messages, j) && t.preview == PreviewOf(messages[j])
  }

  /** t is what c became: it shows the newest of the messages, or is untouched when all are older than it was. */
  ghost predicate ShowsNewest(t: Conversation, c: Conversation, messages: seq<Touch>) {
    && t.id == c.id && t.pinned == c.pinned && t.avatarPath == c.avatarPath
    && (AllOlder(c, messages) ==> t == c)
    && (!AllOlder(c, messages) ==> exists k: nat :: IsNewest(c, messages, k) && ShowsMessage(t, messages[k]))
  }

  function Delivered(t: Conversation, m: Touch): Conversation {
    if m.timestamp >= t.timestamp then Touched(t, m) else t
  }

  lemma DeliveryShowsNewest(t: Conversation, c: Conversation, early: seq<Touch>, m: Touch)
    requires ShowsNewest(t, c, early)
    ensures ShowsNewest(Delivered(t, m), c, early + [m])
  {
    var messages := early + [m];
    assert messages[|early|] == m && forall j :: 0 <= j < |early| ==> messages[j] == early[j];
    if AllOlder(c, early) {
      assert m.timestamp >= c.timestamp ==> IsNewest(c, messages, |early|);
      assert AllOlder(c, messages) <==> m.timestamp < c.timestamp;
    } else {
      var k: nat :| IsNewest(c, early, k) && ShowsMessage(t, early[k]);
      assert !AllOlder(c, messages) by {
        assert messages[k].timestamp >= c.timestamp;
      }
      if m.timestamp >= t.timestamp {
        assert IsNewest(c, messages, |early|);
      } else {
        assert IsNewest(c, messages, k);
      }
    }
  }

  /** Whether a message is timely is settled by what arrived before it. */
  lemma TimelyWhenItArrives(t: Conversation, c: Conversation, early: seq<Touch>, m: Touch)
    requires ShowsNewest(t, c, early)
    ensures Timely(c, early + [m], |early|) <==> m.timestamp >= t.timestamp
    ensures forall j :: 0 <= j < |early| ==> (Timely(c, early + [m], j) <==> Timely(c, early, j))
  {
    var messages := early + [m];
    assert messages[|early|] == m && forall j :: 0 <= j < |early| ==> messages[j] == early[j];
    if !AllOlder(c, early) {
      var k: nat :| IsNewest(c, early, k) && ShowsMessage(t, early[k]);
    }
  }

  lemma DeliveryShowsUnread(t: Conversation, c: Conversation, early: seq<Touch>, m: Touch)
    requires ShowsNewest(t, c, early) && ShowsUnread(t, c, early)
    ensures ShowsUnread(Delivered(t, m), c, early + [m])
  {
    var messages, n := early + [m], |early|;
    TimelyWhenItArrives(t, c, early, m);
    assert Unreads(c, messages, n) <==> m.timestamp >= t.timestamp && !m.fromMe;
    assert forall j: nat :: j < n ==> (Unreads(c, messages, j) <==> Unreads(c, early, j));
  }

  lemma DeliveryShowsPreview(t: Conversation, c: Conversation, early: seq<Touch>, m: Touch)
    requires ShowsNewest(t, c, early) && ShowsPreview(t, c, early)
    ensures ShowsPreview(Delivered(t, m), c, early + [m])
  {
    var messages, n := early + [m], |early|;
    TimelyWhenItArrives(t, c, early, m);
    assert messages[n] == m && forall j :: 0 <= j < n ==> messages[j] == early[j];
    if m.timestamp >= t.timestamp && HasPreview(m) {
      assert GivesPreview(c, messages, n);
    } else if NonePreviews(c, early) {
      assert NonePreviews(c, messages);
    } else {
      var j: nat :| GivesPreview(c, early, j) && t.preview == PreviewOf(early[j]);
      assert GivesPreview(c, messages, j);
    }
  }

  /** However messages arrive, a conversation ends up showing the newest, and nothing older ever replaces it. */
  lemma {:induction false} NewestMessageShows(c: Conversation, messages: seq<Touch>)
    ensures ShowsNewest(TouchedAll(c, messages), c, messages)
    ensures ShowsUnread(TouchedAll(c, messages), c, messages)
    ensures ShowsPreview(TouchedAll(c, messages), c, messages)
  {
    if messages != [] {
      var n := |messages| - 1;
      NewestMessageShows(c, messages[..n]);
      DeliveryShowsUnread(TouchedAll(c, messages[..n]), c, messages[..n], messages[n]);
      DeliveryShowsPreview(TouchedAll(c, messages[..n]), c, messages[..n], messages[n]);
      DeliveryShowsNewest(TouchedAll(c, messages[..n]), c, messages[..n], messages[n]);
      assert messages == messages[..n] + [messages[n]];
    }
  }

  /** Delivering messages to one conversation changes that entry of the map as described, and no other. */
  lemma {:induction false} TouchesReachTheMap(s: IndexState, id: string, messages: seq<Touch>)
    requires KeyedById(s.convs) && id in s.convs
    requires forall j :: 0 <= j < |messages| ==> messages[j].conversationId == id
    ensures Run(s, Touches(messages)).convs == s.convs[id := TouchedAll(s.convs[id], messages)]
    decreases |messages|
  {
    if messages == [] {
      assert Touches(messages) == [];
    } else {
      var n := |messages| - 1;
      TouchesReachTheMap(s, id, messages[..n]);
      assert Touches(messages) == Touches(messages[..n]) + [TouchBy(messages[n])];
      RunThen(s, Touches(messages[..n]), TouchBy(messages[n]));
    }
  }

  function Touches(messages: seq<Touch>): seq<IndexOp> {
    seq(|messages|, i requires 0 <= i < |messages| => TouchBy(messages[i]))
  }

  lemma {:induction false} RunThen(s: IndexState, ops: seq<IndexOp>, op: IndexOp)
    requires KeyedById(s.convs)
    ensures Run(s, ops + [op]) == Step(Run(s, ops), op)
    decreases |ops|
  {
    if ops == [] {
      assert [] + [op] == [op] && [op][1..] == [];
      assert Run(Step(s, op), []) == Step(s, op);
    } else {
      assert (ops + [op])[1..] == ops[1..] + [op];
      RunThen(Step(s, ops[0]), ops[1..], op);
    }
  }
}
