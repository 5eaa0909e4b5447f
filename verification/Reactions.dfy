/** Who reacted to what: a capped record per message, and the toggle it drives. */
module Reactions {
  import opened Sequences
  import opened SliceQueue
  import opened ConversationOrder

  /** A reaction as the phone sends it: a custom emoji, or the name of a standard one. */
  datatype ReactionEntry = ReactionEntry(unicode: string, typeName: string, participants: seq<string>)

  datatype ReactionRecord = ReactionRecord(emoji: string, participants: seq<string>)

  datatype ReactionState = ReactionState(reactions: map<string, seq<ReactionRecord>>, order: seq<string>)

  /** One sighting of a message with the reactions it carries; none means they were all taken back. */
  datatype Sighting = Sighting(id: string, entries: seq<ReactionEntry>)

  const MAX_REACTION_RECORDS: nat := 4096
  const NO_REACTIONS := ReactionState(map[], [])

  function ReactionEmoji(e: ReactionEntry): string {
    if e.unicode != "" then e.unicode else e.typeName
  }

  function Records(entries: seq<ReactionEntry>): seq<ReactionRecord> {
    seq(|entries|, i requires 0 <= i < |entries| =>
      ReactionRecord(ReactionEmoji(entries[i]), entries[i].participants))
  }

  /** One record for each reaction, with its custom emoji or else the name of the standard one, and who left it. */
  ghost predicate AsSeen(records: seq<ReactionRecord>, entries: seq<ReactionEntry>) {
    |records| == |entries| &&
    forall i :: 0 <= i < |entries| ==>
      && (entries[i].unicode != "" ==> records[i].emoji == entries[i].unicode)
      && (entries[i].unicode == "" ==> records[i].emoji == entries[i].typeName)
      && records[i].participants == entries[i].participants
  }

  lemma {:induction false} TrimOnlyForgets(s: ReactionState)
    ensures forall id :: id in Trim(s).reactions ==> id in s.reactions && Trim(s).reactions[id] == s.reactions[id]
    decreases |s.order|
  {
    if |s.order| > MAX_REACTION_RECORDS {
      TrimOnlyForgets(DropOldest(s));
    }
  }

  /** What a sighting leaves of its own record, and that it changes no other but by forgetting it. */
  lemma RecordedAsSeen(s: ReactionState, m: Sighting)
    ensures m.id != "" && m.entries == [] ==> Record(s, m).reactions == s.reactions - {m.id}
    ensures m.id != "" && m.entries != [] && m.id in Record(s, m).reactions ==>
      AsSeen(Record(s, m).reactions[m.id], m.entries)
    ensures forall id :: id in Record(s, m).reactions && id != m.id ==>
      id in s.reactions && Record(s, m).reactions[id] == s.reactions[id]
  {
    TrimOnlyForgets(Stored(s, m));
  }

  /** A sighting with reactions, before the queue is trimmed. */
  function Stored(s: ReactionState, m: Sighting): ReactionState {
    s.(order := if m.id in s.reactions then s.order else s.order + [m.id],
       reactions := s.reactions[m.id := Records(m.entries)])
  }

  /** Clearing forgets the record but leaves the queue as it is. */
  function Record(s: ReactionState, m: Sighting): ReactionState {
    if m.id == "" then s
    else if m.entries == [] then s.(reactions := s.reactions - {m.id})
    else Trim(Stored(s, m))
  }

  function DropOldest(s: ReactionState): ReactionState
    requires s.order != []
  {
    ReactionState(s.reactions - {s.order[0]}, s.order[1..])
  }

  function Trim(s: ReactionState): ReactionState
    decreases |s.order|
  {
    if |s.order| <= MAX_REACTION_RECORDS then s else Trim(DropOldest(s))
  }

  /** From a queue within its limit, a sighting pushes out at most the front entry. */
  lemma StoringDropsAtMostOne(s: ReactionState, m: Sighting)
    requires |s.order| <= MAX_REACTION_RECORDS && m.id != "" && m.entries != []
    ensures var t := Stored(s, m);
      Record(s, m) == if |t.order| <= MAX_REACTION_RECORDS then t else DropOldest(t)
  {
    var t := Stored(s, m);
    if |t.order| > MAX_REACTION_RECORDS {
      assert Trim(DropOldest(t)) == DropOldest(t);
    }
  }

  function RecordAll(s: ReactionState, seen: seq<Sighting>): ReactionState {
    if seen == [] then s else Record(RecordAll(s, seen[..|seen| - 1]), seen[|seen| - 1])
  }

  /** The queue is within its limit and every recorded message is in it, maybe more than once. */
  ghost predicate Bounded(s: ReactionState) {
    |s.order| <= MAX_REACTION_RECORDS && s.reactions.Keys <= Elements(s.order)
  }

  lemma RecordKeepsBounded(s: ReactionState, m: Sighting)
    requires Bounded(s)
    ensures Bounded(Record(s, m))
  {
    if m.id != "" && m.entries != [] {
      StoringDropsAtMostOne(s, m);
      var order := Stored(s, m).order;
      assert forall id :: id in s.order ==> id in order;
      assert m.id in order by {
        if m.id in s.reactions { assert m.id in Elements(s.order); }
      }
      assert order != [] ==> order == [order[0]] + order[1..];
      assert forall id :: id in order && id != order[0] ==> id in order[1..];
    }
  }

  /** Over every run, clears and re-adds included, the queue and with it the map stay within the limit. */
  lemma {:induction false} AlwaysBounded(seen: seq<Sighting>)
    ensures var s := RecordAll(NO_REACTIONS, seen);
      Bounded(s) && |s.reactions| <= MAX_REACTION_RECORDS
  {
    var s := RecordAll(NO_REACTIONS, seen);
    if seen != [] {
      AlwaysBounded(seen[..|seen| - 1]);
      RecordKeepsBounded(RecordAll(NO_REACTIONS, seen[..|seen| - 1]), seen[|seen| - 1]);
    }
    ElementsCount(s.order);
    SubsetSize(s.reactions.Keys, Elements(s.order));
    assert |s.reactions| == |s.reactions.Keys|;
  }

  // --- runs without clears ---

  /** Messages recorded for the first time, or again after their eviction, in order. */
  ghost function InsertionLog(seen: seq<Sighting>): seq<string> {
    if seen == [] then []
    else
      var before, m := seen[..|seen| - 1], seen[|seen| - 1];
      InsertionLog(before) +
      (if m.id == "" || m.id in RecordAll(NO_REACTIONS, before).reactions then [] else [m.id])
  }

  ghost predicate NoClears(seen: seq<Sighting>) {
    forall i :: 0 <= i < |seen| ==> seen[i].entries != []
  }

  /** Without clears the queue is first in, first out: duplicate-free, the tail of the log, equal to the keys. */
  lemma {:induction false} FifoWithoutClears(seen: seq<Sighting>)
    requires NoClears(seen)
    ensures var s := RecordAll(NO_REACTIONS, seen);
      && Aligned(s)
      && s.order == LastN(InsertionLog(seen), MAX_REACTION_RECORDS)
  {
    if seen != [] {
      var before, m := seen[..|seen| - 1], seen[|seen| - 1];
      FifoWithoutClears(before);
      var s := RecordAll(NO_REACTIONS, before);
      LastNOfAppend(InsertionLog(before), if m.id == "" || m.id in s.reactions then [] else [m.id],
        MAX_REACTION_RECORDS);
      if m.id != "" {
        FifoStep(s, m);
      } else {
        assert InsertionLog(before) + [] == InsertionLog(before);
      }
    }
  }

  /** Queue and map hold the same identifiers, none of them queued twice. */
  ghost predicate Aligned(s: ReactionState) {
    Distinct(s.order) && Elements(s.order) == s.reactions.Keys
  }

  lemma StoringAligns(s: ReactionState, m: Sighting)
    requires Aligned(s)
    ensures Aligned(Stored(s, m))
    ensures Stored(s, m).order == s.order + (if m.id in s.reactions then [] else [m.id])
  {
    var order := Stored(s, m).order;
    assert m.id in s.reactions <==> m.id in Elements(s.order);
    assert m.id !in s.reactions ==> Elements(order) == Elements(s.order) + {m.id};
  }

  lemma FifoStep(s: ReactionState, m: Sighting)
    requires Aligned(s) && |s.order| <= MAX_REACTION_RECORDS
    requires m.id != "" && m.entries != []
    ensures Aligned(Record(s, m))
    ensures Record(s, m).order == LastN(s.order + (if m.id in s.reactions then [] else [m.id]), MAX_REACTION_RECORDS)
  {
    StoringDropsAtMostOne(s, m);
    StoringAligns(s, m);
    var order := Stored(s, m).order;
    if order != [] {
      TailElements(order);
    }
  }

  // --- what a clear can cost ---

  /** A message queued as new while an old entry of its own heads a full queue. */
  predicate LostOnArrival(s: ReactionState, id: string) {
    id !in s.reactions && |s.order| == MAX_REACTION_RECORDS && s.order[0] == id
  }

  /**
   * Recording a message loses the record it just stored exactly when its identifier is queued as new while an
   * old entry of the same identifier, left by a clear, stands at the front of a full queue.
   */
  lemma JustRecordedIsLostIff(s: ReactionState, m: Sighting)
    requires Bounded(s) && m.id != "" && m.entries != []
    ensures m.id !in Record(s, m).reactions <==> LostOnArrival(s, m.id)
    ensures m.id in Record(s, m).reactions ==> Record(s, m).reactions[m.id] == Records(m.entries)
  {
    StoringDropsAtMostOne(s, m);
    assert m.id !in s.reactions && s.order != [] ==> (s.order + [m.id])[0] == s.order[0];
  }

  function Fillers(e: ReactionEntry, n: nat): seq<Sighting> {
    if n == 0 then [] else Fillers(e, n - 1) + [Sighting(Filler(n - 1), [e])]
  }

  /** Behind a stale front entry, n new messages have queued up. */
  ghost predicate QueuedBehindStale(s: ReactionState, stale: string, n: nat) {
    |s.order| == n + 1 && s.order[0] == stale && |stale| == 1 &&
    forall id :: id in s.reactions ==> 2 <= |id| < n + 2
  }

  lemma FillerQueuesUp(s: ReactionState, stale: string, e: ReactionEntry, n: nat)
    requires QueuedBehindStale(s, stale, n) && n + 1 < MAX_REACTION_RECORDS
    ensures QueuedBehindStale(Record(s, Sighting(Filler(n), [e])), stale, n + 1)
  {
    StoringDropsAtMostOne(s, Sighting(Filler(n), [e]));
    assert (s.order + [Filler(n)])[0] == s.order[0];
  }

  lemma RecordAllThen(s: ReactionState, seen: seq<Sighting>, m: Sighting)
    ensures RecordAll(s, seen + [m]) == Record(RecordAll(s, seen), m)
  {
    assert (seen + [m])[..|seen|] == seen;
  }

  lemma OneMoreQueuesUp(s: ReactionState, stale: string, e: ReactionEntry, n: nat)
    requires 0 < n < MAX_REACTION_RECORDS && QueuedBehindStale(RecordAll(s, Fillers(e, n - 1)), stale, n - 1)
    ensures QueuedBehindStale(RecordAll(s, Fillers(e, n)), stale, n)
  {
    FillerQueuesUp(RecordAll(s, Fillers(e, n - 1)), stale, e, n - 1);
    RecordAllThen(s, Fillers(e, n - 1), Sighting(Filler(n - 1), [e]));
  }

  lemma {:induction false} FillersQueueUp(s: ReactionState, stale: string, e: ReactionEntry, n: nat)
    requires n < MAX_REACTION_RECORDS && QueuedBehindStale(s, stale, 0)
    ensures QueuedBehindStale(RecordAll(s, Fillers(e, n)), stale, n)
  {
    if n > 0 {
      FillersQueueUp(s, stale, e, n - 1);
      OneMoreQueuesUp(s, stale, e, n);
    } else {
      NoFillers(s, stale, e, n);
    }
  }

  lemma NoFillers(s: ReactionState, stale: string, e: ReactionEntry, n: nat)
    requires n == 0 && QueuedBehindStale(s, stale, 0)
    ensures QueuedBehindStale(RecordAll(s, Fillers(e, n)), stale, n)
  {}

  /** Stored once and cleared, a message leaves its queue entry behind. */
  lemma ClearLeavesEntry(stale: string, e: ReactionEntry)
    requires |stale| == 1
    ensures QueuedBehindStale(RecordAll(NO_REACTIONS, [Sighting(stale, [e])] + [Sighting(stale, [])]), stale, 0)
  {
    var start, clear := Sighting(stale, [e]), Sighting(stale, []);
    RecordAllThen(NO_REACTIONS, [start], clear);
    RecordAllThen(NO_REACTIONS, [], start);
    assert [] + [start] == [start];
    StoringDropsAtMostOne(NO_REACTIONS, start);
  }

  /** A run that ends by storing a record and loses it: store, clear, fill the queue, store again. */
  lemma ReaddedAfterClearIsLost(stale: string, e: ReactionEntry)
    requires |stale| == 1
    ensures var early := [Sighting(stale, [e])] + [Sighting(stale, [])];
      var seen := early + Fillers(e, MAX_REACTION_RECORDS - 1) + [Sighting(stale, [e])];
      stale !in RecordAll(NO_REACTIONS, seen).reactions
  {
    var early := [Sighting(stale, [e])] + [Sighting(stale, [])];
    var fill := Fillers(e, MAX_REACTION_RECORDS - 1);
    ClearLeavesEntry(stale, e);
    FillersQueueUp(RecordAll(NO_REACTIONS, early), stale, e, MAX_REACTION_RECORDS - 1);
    RecordAllAppend(NO_REACTIONS, early, fill);
    RecordAllThen(NO_REACTIONS, early + fill, Sighting(stale, [e]));
    AlwaysBounded(early + fill);
    JustRecordedIsLostIff(RecordAll(NO_REACTIONS, early + fill), Sighting(stale, [e]));
  }

  lemma {:induction false} RecordAllAppend(s: ReactionState, a: seq<Sighting>, b: seq<Sighting>)
    ensures RecordAll(s, a + b) == RecordAll(RecordAll(s, a), b)
  {
    if b == [] {
      assert a + b == a;
    } else {
      RecordAllAppend(s, a, b[..|b| - 1]);
      assert (a + b)[..|a + b| - 1] == a + b[..|b| - 1];
    }
  }

  // --- whose reaction is it ---

  /** The user's own identities in a conversation. */
  function SelfIds(c: Conversation): seq<string> {
    OwnParticipants(c.participants) + (if c.outgoingId != "" then [c.outgoingId] else [])
  }

  function OwnParticipants(ps: seq<Participant>): seq<string> {
    if ps == [] then []
    else
      var p := ps[|ps| - 1];
      OwnParticipants(ps[..|ps| - 1]) + (if p.isMe && p.id != "" then [p.id] else [])
  }

  /** One of the user's identities in a conversation: a participant marked so, or the one messages go out under. */
  predicate IsUser(c: Conversation, who: string) {
    who != "" && (who == c.outgoingId || exists p :: p in c.participants && p.isMe && p.id == who)
  }

  lemma {:induction false} OwnParticipantsIff(ps: seq<Participant>, who: string)
    ensures who in OwnParticipants(ps) <==> who != "" && exists p :: p in ps && p.isMe && p.id == who
  {
    if ps != [] {
      OwnParticipantsIff(ps[..|ps| - 1], who);
      assert ps == ps[..|ps| - 1] + [ps[|ps| - 1]];
    }
  }

  lemma SelfIdsAreTheUsers(c: Conversation)
    ensures forall who :: who in SelfIds(c) <==> IsUser(c, who)
  {
    forall who ensures who in SelfIds(c) <==> IsUser(c, who) {
      OwnParticipantsIff(c.participants, who);
    }
  }

  ghost predicate LeftByUser(r: ReactionRecord, c: Conversation) {
    exists who :: who in r.participants && IsUser(c, who)
  }

  /** Record i is the first on the message that the user left. */
  ghost predicate FirstOwn(reactions: map<string, seq<ReactionRecord>>, c: Conversation, messageId: string, i: nat) {
    messageId in reactions && i < |reactions[messageId]| && LeftByUser(reactions[messageId][i], c) &&
    forall j :: 0 <= j < i ==> !LeftByUser(reactions[messageId][j], c)
  }

  /** emoji is that of the first record the user left on the message, none when there is no such record. */
  ghost predicate OwnEmoji(
      reactions: map<string, seq<ReactionRecord>>, conv: Option<Conversation>, messageId: string, emoji: string)
  {
    if conv.Some? && exists i: nat :: FirstOwn(reactions, conv.value, messageId, i)
    then exists i: nat :: FirstOwn(reactions, conv.value, messageId, i) && emoji == reactions[messageId][i].emoji
    else emoji == ""
  }

  lemma {:induction false} MyReactionIsFirst(records: seq<ReactionRecord>, c: Conversation, i: nat)
    requires i <= |records| && forall j :: 0 <= j < i ==> !LeftByUser(records[j], c)
    ensures MyReaction(records, SelfIds(c)) == MyReaction(records[i..], SelfIds(c))
    ensures i < |records| && LeftByUser(records[i], c) ==> MyReaction(records, SelfIds(c)) == records[i].emoji
    ensures i == |records| ==> MyReaction(records, SelfIds(c)) == ""
    decreases i
  {
    SelfIdsAreTheUsers(c);
    if i > 0 {
      MyReactionIsFirst(records, c, i - 1);
      assert records[i - 1..][1..] == records[i..];
    } else {
      assert records[0..] == records;
    }
    if i < |records| {
      assert records[i..][0] == records[i];
    }
  }

  /** Looking the emoji up finds the user's own, as the conversation's fields tell it. */
  lemma MyReactionIsOwn(reactions: map<string, seq<ReactionRecord>>, conv: Option<Conversation>, messageId: string)
    ensures OwnEmoji(reactions, conv, messageId, MyReactionIn(reactions, conv, messageId))
  {
    if conv.Some? {
      var c, records := conv.value, Known(ReactionState(reactions, []), messageId);
      if exists i :: 0 <= i < |records| && LeftByUser(records[i], c) {
        var i := FirstLeft(records, c);
        assert FirstOwn(reactions, c, messageId, i);
        MyReactionIsFirst(records, c, i);
      } else {
        MyReactionIsFirst(records, c, |records|);
      }
    }
  }

  lemma FirstLeft(records: seq<ReactionRecord>, c: Conversation) returns (i: nat)
    requires exists k :: 0 <= k < |records| && LeftByUser(records[k], c)
    ensures i < |records| && LeftByUser(records[i], c) && forall j :: 0 <= j < i ==> !LeftByUser(records[j], c)
  {
    i := 0;
    while !LeftByUser(records[i], c)
      invariant i < |records| && forall j :: 0 <= j < i ==> !LeftByUser(records[j], c)
      decreases |records| - i
    {
      i := i + 1;
    }
  }

  /** The user's own emoji on a message, none when the conversation is unknown. */
  function MyReactionIn(reactions: map<string, seq<ReactionRecord>>, conv: Option<Conversation>, messageId: string)
    : string
  {
    if conv.None? then "" else MyReaction(Known(ReactionState(reactions, []), messageId), SelfIds(conv.value))
  }

  predicate HasSelf(r: ReactionRecord, mine: seq<string>) {
    exists p :: p in r.participants && p in mine
  }

  /** The emoji of the first record that one of the user's identities left, or none. */
  function MyReaction(records: seq<ReactionRecord>, mine: seq<string>): string {
    if records == [] then ""
    else if HasSelf(records[0], mine) then records[0].emoji
    else MyReaction(records[1..], mine)
  }

  // --- the toggle against the server ---

  /** What the server holds for one message: at most one reaction per participant. */
  type ServerReactions = map<string, string>

  datatype Action = Add | Remove | Switch
  datatype ReactionRequest = ReactionRequest(action: Action, emoji: string)

  /** The action is derived from what the user already has; nothing to remove sends nothing. */
  function ChooseAction(existing: string, emoji: string): Option<ReactionRequest> {
    if existing == "" && emoji == "" then None
    else if emoji == "" || emoji == existing then Some(ReactionRequest(Remove, existing))
    else if existing != "" then Some(ReactionRequest(Switch, emoji))
    else Some(ReactionRequest(Add, emoji))
  }

  /** An action is right for the server only in the situation it is meant for. */
  predicate Appropriate(server: ServerReactions, me: string, r: ReactionRequest) {
    match r.action
    case Add => me !in server && r.emoji != ""
    case Remove => me in server && server[me] == r.emoji
    case Switch => me in server && server[me] != r.emoji && r.emoji != ""
  }

  function Apply(server: ServerReactions, me: string, r: ReactionRequest): ServerReactions {
    if r.action.Remove? then server - {me} else server[me := r.emoji]
  }

  predicate Shown(records: seq<ReactionRecord>, who: string, emoji: string) {
    exists i :: 0 <= i < |records| && records[i].emoji == emoji && who in records[i].participants
  }

  /** The local records say of every participant exactly what the server holds. */
  ghost predicate Mirrors(records: seq<ReactionRecord>, server: ServerReactions) {
    (forall who :: who in server ==> server[who] != "" && Shown(records, who, server[who])) &&
    (forall i, who :: 0 <= i < |records| && who in records[i].participants ==>
      who in server && server[who] == records[i].emoji)
  }

  /** me is the one identity of the user that may have reacted. */
  ghost predicate OnlyMe(server: ServerReactions, mine: seq<string>, me: string) {
    me in mine && forall who :: who in mine && who in server ==> who == me
  }

  function Held(server: ServerReactions, me: string): string {
    if me in server then server[me] else ""
  }

  lemma {:induction false} FirstOfMineIsHeld(
      records: seq<ReactionRecord>, server: ServerReactions, mine: seq<string>, me: string)
    requires OnlyMe(server, mine, me)
    requires forall i, who :: 0 <= i < |records| && who in records[i].participants ==>
      who in server && server[who] == records[i].emoji
    ensures MyReaction(records, mine) ==
      if exists i :: 0 <= i < |records| && me in records[i].participants then server[me] else ""
  {
    if records != [] {
      var rest := records[1..];
      assert forall i :: 0 <= i < |rest| ==> rest[i] == records[i + 1];
      FirstOfMineIsHeld(rest, server, mine, me);
      if HasSelf(records[0], mine) {
        var p :| p in records[0].participants && p in mine;
        assert p == me;
      } else if exists i :: 0 <= i < |records| && me in records[i].participants {
        var i :| 0 <= i < |records| && me in records[i].participants;
        assert me in rest[i - 1].participants;
      }
    }
  }

  /** With mirrored records the daemon knows exactly which reaction of the user the server holds. */
  lemma MirroredReactionIsHeld(records: seq<ReactionRecord>, server: ServerReactions, mine: seq<string>, me: string)
    requires Mirrors(records, server) && OnlyMe(server, mine, me)
    ensures MyReaction(records, mine) == Held(server, me)
  {
    FirstOfMineIsHeld(records, server, mine, me);
  }

  /** A tap: chosen from the local records, applied by the server. */
  function Tap(records: seq<ReactionRecord>, server: ServerReactions, mine: seq<string>, me: string, emoji: string)
    : ServerReactions
  {
    match ChooseAction(MyReaction(records, mine), emoji)
    case None => server
    case Some(r) => Apply(server, me, r)
  }

  /** What tapping means: the same emoji, or none, takes back; anything else becomes the user's reaction. */
  function Toggled(held: string, emoji: string): string {
    if emoji == held then "" else emoji
  }

  /** The request sent is the right one for the server, and the user ends with the toggled emoji, nobody else moved. */
  lemma TapToggles(records: seq<ReactionRecord>, server: ServerReactions, mine: seq<string>, me: string, emoji: string)
    requires Mirrors(records, server) && OnlyMe(server, mine, me)
    ensures match ChooseAction(MyReaction(records, mine), emoji)
      case None => Held(server, me) == "" && emoji == ""
      case Some(r) => Appropriate(server, me, r)
    ensures var after := Tap(records, server, mine, me, emoji);
      && Held(after, me) == Toggled(Held(server, me), emoji)
      && after - {me} == server - {me}
      && OnlyMe(after, mine, me)
  {
    MirroredReactionIsHeld(records, server, mine, me);
  }

  /** Tapping one emoji twice, with the phone's echo in between, restores the start exactly from none or that emoji. */
  lemma TapTwice(records: seq<ReactionRecord>, echoed: seq<ReactionRecord>, server: ServerReactions,
                 mine: seq<string>, me: string, emoji: string)
    requires emoji != "" && Mirrors(records, server) && OnlyMe(server, mine, me)
    requires Mirrors(echoed, Tap(records, server, mine, me, emoji))
    ensures var twice := Tap(echoed, Tap(records, server, mine, me, emoji), mine, me, emoji);
      twice == server <==> Held(server, me) == "" || Held(server, me) == emoji
  {
    var once := Tap(records, server, mine, me, emoji);
    TapToggles(records, server, mine, me, emoji);
    TapToggles(echoed, once, mine, me, emoji);
    var twice := Tap(echoed, once, mine, me, emoji);
    assert twice - {me} == server - {me};
    if Held(twice, me) == Held(server, me) {
      assert me in server ==> server[me] != "";
      assert me in twice ==> twice[me] != "";
      SameElsewhere(twice, server, me);
    }
  }

  lemma SameElsewhere(a: ServerReactions, b: ServerReactions, me: string)
    requires a - {me} == b - {me} && (me in a <==> me in b) && (me in a ==> a[me] == b[me])
    ensures a == b
  {
    forall who | who in a || who in b ensures who in a && who in b && a[who] == b[who] {
      assert who == me || (who in a - {me} <==> who in b - {me});
      assert who == me || (a - {me})[who] == (b - {me})[who];
    }
  }

  function Known(s: ReactionState, id: string): seq<ReactionRecord> {
    if id in s.reactions then s.reactions[id] else []
  }

  /**
   * Whatever the daemon takes the user's reaction to be, the action it derives is right for the server exactly when
   * it took it for the one held, or held one, missed it for another, and a third was tapped.
   */
  lemma ActionRightIff(known: string, emoji: string, server: ServerReactions, me: string)
    requires ChooseAction(known, emoji).Some? && (me in server ==> server[me] != "")
    ensures var held := Held(server, me);
      Appropriate(server, me, ChooseAction(known, emoji).value) <==>
      known == held || (known != "" && held != "" && emoji != "" && emoji != known && emoji != held)
  {}

  /** Without a record, or in an unknown conversation, a tapped emoji is added, rightly only if the user has none. */
  lemma UnknownReactionAddsRightIff(emoji: string, server: ServerReactions, me: string)
    requires emoji != "" && (me in server ==> server[me] != "")
    ensures ChooseAction("", emoji) == Some(ReactionRequest(Add, emoji))
    ensures Appropriate(server, me, ChooseAction("", emoji).value) <==> me !in server
  {}

  /**
   * Right after a message was recorded as the server has it, a tapped emoji gets the right action exactly unless
   * the record was lost on arrival and the user holds a reaction; both can be told before the tap.
   */
  lemma TapAfterRecordingRightIff(s: ReactionState, m: Sighting, server: ServerReactions, mine: seq<string>,
                                  me: string, emoji: string)
    requires Bounded(s) && m.id != "" && m.entries != [] && emoji != ""
    requires Mirrors(Records(m.entries), server) && OnlyMe(server, mine, me)
    ensures var tap := ChooseAction(MyReaction(Known(Record(s, m), m.id), mine), emoji);
      tap.Some? && (Appropriate(server, me, tap.value) <==> !(LostOnArrival(s, m.id) && me in server))
  {
    JustRecordedIsLostIff(s, m);
    MirroredReactionIsHeld(Records(m.entries), server, mine, me);
    var known := MyReaction(Known(Record(s, m), m.id), mine);
    if LostOnArrival(s, m.id) {
      UnknownReactionAddsRightIff(emoji, server, me);
    } else {
      ActionRightIff(known, emoji, server, me);
    }
  }

  /** A record pushed out of the front by another message misleads the next tap in the same way. */
  lemma TapAfterEvictionRightIff(s: ReactionState, other: Sighting, id: string, server: ServerReactions,
                                 mine: seq<string>, me: string, emoji: string)
    requires Bounded(s) && id in s.reactions && other.id != "" && other.id != id && other.entries != []
    requires Mirrors(s.reactions[id], server) && OnlyMe(server, mine, me) && emoji != ""
    ensures var tap := ChooseAction(MyReaction(Known(Record(s, other), id), mine), emoji);
      var evicted := other.id !in s.reactions && |s.order| == MAX_REACTION_RECORDS && s.order[0] == id;
      tap.Some? && (Appropriate(server, me, tap.value) <==> !(evicted && me in server))
  {
    StoringDropsAtMostOne(s, other);
    MirroredReactionIsHeld(s.reactions[id], server, mine, me);
    assert s.order != [] ==> (s.order + [other.id])[0] == s.order[0];
    var known := MyReaction(Known(Record(s, other), id), mine);
    ActionRightIff(known, emoji, server, me);
  }

  /** One sighting of the user's own reaction, as the only one. */
  function OwnSighting(id: string, me: string, emoji: string): Sighting {
    Sighting(id, [ReactionEntry(emoji, "", [me])])
  }

  lemma OwnSightingMirrors(id: string, me: string, emoji: string)
    requires emoji != ""
    ensures Mirrors(Records(OwnSighting(id, me, emoji).entries), map[me := emoji])
  {
    var records := Records(OwnSighting(id, me, emoji).entries);
    assert records == [ReactionRecord(emoji, [me])];
    assert records[0].emoji == emoji && me in records[0].participants;
  }

  /**
   * The run that loses its last record, seen to its end: the server holds the user's emoji, the last sighting said
   * so, and tapping that emoji to take it back asks the server to add it instead.
   */
  lemma LostRecordMisleads(stale: string, me: string, emoji: string)
    requires |stale| == 1 && emoji != ""
    ensures var last := OwnSighting(stale, me, emoji);
      var early := [last] + [Sighting(stale, [])];
      var seen := early + Fillers(last.entries[0], MAX_REACTION_RECORDS - 1) + [last];
      var server: ServerReactions := map[me := emoji];
      && Mirrors(Records(last.entries), server)
      && var tap := ChooseAction(MyReaction(Known(RecordAll(NO_REACTIONS, seen), stale), [me]), emoji);
         tap == Some(ReactionRequest(Add, emoji)) && !Appropriate(server, me, tap.value)
  {
    var last := OwnSighting(stale, me, emoji);
    OwnSightingMirrors(stale, me, emoji);
    ReaddedAfterClearIsLost(stale, last.entries[0]);
    assert last == Sighting(stale, [last.entries[0]]);
    UnknownReactionAddsRightIff(emoji, map[me := emoji], me);
  }

  // --- the objects ---

  class ReactionStore {
    var reactions: map<string, seq<ReactionRecord>>
    const order: Queue<string>

    ghost predicate Valid()
      reads this, order
    {
      order.Valid()
    }

    ghost function State(): ReactionState
      requires Valid()
      reads this, order, order.buf
    {
      ReactionState(reactions, order.Contents())
    }

    constructor ()
      ensures Valid() && fresh(order) && fresh(order.buf) && State() == NO_REACTIONS
    {
      reactions := map[];
      order := new Queue<string>();
    }

    method RecordReactions(m: Sighting)
      requires Valid()
      modifies this, order, order.buf
      ensures Valid() && (order.buf == old(order.buf) || fresh(order.buf))
      ensures State() == Record(old(State()), m)
      ensures m.id == "" ==> reactions == old(reactions)
      ensures m.id != "" && m.entries == [] ==> reactions == old(reactions) - {m.id}
      ensures m.id != "" && m.entries != [] && m.id in reactions ==> AsSeen(reactions[m.id], m.entries)
      ensures forall id :: id in reactions && id != m.id ==> id in old(reactions) && reactions[id] == old(reactions)[id]
    {
      RecordedAsSeen(State(), m);
      if m.id == "" {
        return;
      }
      if m.entries == [] {
        reactions := reactions - {m.id};
        return;
      }
      var records := [];
      for i := 0 to |m.entries|
        invariant |records| == i && forall k :: 0 <= k < i ==> records[k] == Records(m.entries)[k]
      {
        records := records + [ReactionRecord(ReactionEmoji(m.entries[i]), m.entries[i].participants)];
      }
      assert records == Records(m.entries);
      if m.id !in reactions {
        order.Append(m.id);
      }
      reactions := reactions[m.id := records];
      TrimToLimit();
    }

    method ForgetOldest()
      requires Valid() && order.Contents() != []
      modifies this, order
      ensures Valid() && order.buf == old(order.buf)
      ensures State() == DropOldest(old(State()))
    {
      var oldest := order.DropFirst();
      reactions := reactions - {oldest};
    }

    method TrimToLimit()
      requires Valid()
      modifies this, order
      ensures Valid() && (order.buf == old(order.buf) || fresh(order.buf))
      ensures State() == Trim(old(State()))
      ensures order.Capacity() <= 4 * MAX_REACTION_RECORDS
    {
      while order.hi - order.lo > MAX_REACTION_RECORDS
        invariant Valid() && order.buf == old(order.buf)
        invariant Trim(State()) == Trim(old(State()))
        decreases |order.Contents()|
      {
        ForgetOldest();
      }
      order.CompactAbove(4 * MAX_REACTION_RECORDS);
    }

    /** The user's own emoji on a message, or none when the conversation is unknown or names no own identity. */
    method MyReactionOn(conv: Option<Conversation>, messageId: string) returns (emoji: string)
      ensures emoji == MyReactionIn(reactions, conv, messageId)
      ensures OwnEmoji(reactions, conv, messageId, emoji)
    {
      MyReactionIsOwn(reactions, conv, messageId);
      if conv.None? {
        return "";
      }
      var mine := OwnIdentities(conv.value);
      emoji := FirstLeftBy(messageId, mine);
    }

    method FirstLeftBy(messageId: string, mine: seq<string>) returns (emoji: string)
      ensures emoji == MyReaction(Known(ReactionState(reactions, []), messageId), mine)
    {
      var records := if messageId in reactions then reactions[messageId] else [];
      for i := 0 to |records|
        invariant MyReaction(records, mine) == MyReaction(records[i..], mine)
      {
        var found := AnyOf(records[i].participants, mine);
        if found {
          return records[i].emoji;
        }
        assert records[i..][1..] == records[i + 1..];
      }
      emoji := "";
    }
  }

  /** Collects the participants marked as the user, and the identity messages go out under. */
  method OwnIdentities(c: Conversation) returns (mine: seq<string>)
    ensures mine == SelfIds(c)
  {
    mine := [];
    var ps := c.participants;
    for i := 0 to |ps|
      invariant mine == OwnParticipants(ps[..i])
    {
      assert ps[..i + 1][..i] == ps[..i];
      if ps[i].isMe && ps[i].id != "" {
        mine := mine + [ps[i].id];
      }
    }
    assert ps[..|ps|] == ps;
    if c.outgoingId != "" {
      mine := mine + [c.outgoingId];
    }
  }

  method AnyOf(participants: seq<string>, mine: seq<string>) returns (found: bool)
    ensures found <==> exists p :: p in participants && p in mine
  {
    for i := 0 to |participants|
      invariant forall k :: 0 <= k < i ==> participants[k] !in mine
    {
      for j := 0 to |mine|
        invariant forall k :: 0 <= k < j ==> participants[i] != mine[k]
      {
        if participants[i] == mine[j] {
          assert participants[i] in participants && mine[j] in mine;
          return true;
        }
      }
    }
    found := false;
  }

  /** me is the one identity of the user that may have reacted, by the fields of the conversation. */
  ghost predicate OnlyUser(server: ServerReactions, c: Conversation, me: string) {
    IsUser(c, me) && forall who :: IsUser(c, who) && who in server ==> who == me
  }

  /** A reaction as shown in the panel. */
  datatype ShownReaction = ShownReaction(emoji: string, count: nat, mine: bool)

  /**
   * Flags, in the message itself, the reactions that carry the user's own emoji as the records have it; none when
   * the user has none or nothing is shown.
   */
  method MarkMyReactions(store: ReactionStore, conv: Option<Conversation>, messageId: string,
                         shown: array<ShownReaction>)
    modifies shown
    ensures exists own :: (
      OwnEmoji(store.reactions, conv, messageId, own) &&
      forall i :: 0 <= i < shown.Length ==>
        shown[i] == old(shown[i]).(mine := old(shown[i]).mine || (own != "" && old(shown[i]).emoji == own)))
  {
    MyReactionIsOwn(store.reactions, conv, messageId);
    if shown.Length == 0 {
      return;
    }
    var own := store.MyReactionOn(conv, messageId);
    if own == "" {
      return;
    }
    for i := 0 to shown.Length
      invariant forall k :: 0 <= k < i ==>
        shown[k] == old(shown[k]).(mine := old(shown[k]).mine || old(shown[k]).emoji == own)
      invariant forall k :: i <= k < shown.Length ==> shown[k] == old(shown[k])
    {
      if shown[i].emoji == own {
        shown[i] := shown[i].(mine := true);
      }
    }
  }

  /** Sends the request of a tap, derived from the records; accepted stands for the phone's answer. */
  method React(store: ReactionStore, connected: bool, conv: Option<Conversation>, messageId: string, emoji: string,
               accepted: bool)
    returns (sent: Option<ReactionRequest>, ok: bool)
    ensures connected && messageId != "" ==>
      exists own :: OwnEmoji(store.reactions, conv, messageId, own) && sent == ChooseAction(own, emoji)
    ensures !connected || messageId == "" ==> sent.None?
    ensures ok <==> connected && messageId != "" && (sent.None? || accepted)
    // where the records mirror the server, the request is the right one and toggles exactly the user's reaction
    ensures forall server, me :: (
      sent.Some? && conv.Some? &&
      Mirrors(if messageId in store.reactions then store.reactions[messageId] else [], server) &&
      OnlyUser(server, conv.value, me) ==>
      Appropriate(server, me, sent.value) &&
      Held(Apply(server, me, sent.value), me) == Toggled(Held(server, me), emoji))
  {
    if !connected || messageId == "" {
      return None, false;
    }
    var existing := store.MyReactionOn(conv, messageId);
    var action := Add;
    var chosen := emoji;
    if existing == "" && emoji == "" {
      return None, true;
    } else if emoji == "" || emoji == existing {
      action, chosen := Remove, existing;
    } else if existing != "" {
      action := Switch;
    }
    sent, ok := Some(ReactionRequest(action, chosen)), accepted;
    if conv.Some? {
      SelfIdsAreTheUsers(conv.value);
    }
    forall server, me | conv.Some? && Mirrors(Known(ReactionState(store.reactions, []), messageId), server) &&
      OnlyUser(server, conv.value, me)
      ensures Appropriate(server, me, sent.value)
      ensures Held(Apply(server, me, sent.value), me) == Toggled(Held(server, me), emoji)
    {
      TapToggles(Known(ReactionState(store.reactions, []), messageId), server, SelfIds(conv.value), me, emoji);
    }
  }
}
