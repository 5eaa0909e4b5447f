/** How far the panel's list, kept by merging what is pushed, agrees with what the daemon serves. */
module PanelFollowing {
  import opened Sequences
  import opened ConversationOrder
  import opened ConversationIndex
  import opened ClientReplica

  /** final is what the panel shows once it merged, in order, every event of the run. */
  ghost predicate Follows(client: ClientList, s: IndexState, ops: seq<IndexOp>, final: ClientList)
    requires Valid(s)
    decreases |ops|
  {
    if ops == [] then final == client
    else
      StepKeepsValid(s, ops[0]);
      exists mid: ClientList ::
        MergesTo(client, Emitted(s, ops[0]), mid) && Follows(mid, Step(s, ops[0]), ops[1..], final)
  }

  /** What the panel knows after the run: what it knew, with every pushed conversation laid over it. */
  ghost function KnownAfter(known: ConversationMap, s: IndexState, ops: seq<IndexOp>): (known': ConversationMap)
    requires KeyedById(known) && Valid(s)
    ensures KeyedById(known')
    decreases |ops|
  {
    if ops == [] then known
    else
      StepKeepsValid(s, ops[0]);
      KnownAfter(Overwrite(known, Emitted(s, ops[0])), Step(s, ops[0]), ops[1..])
  }

  /** No merge of the run meets a tie or an empty identifier in the panel. */
  ghost predicate Tieless(known: ConversationMap, s: IndexState, ops: seq<IndexOp>)
    requires KeyedById(known) && Valid(s)
    decreases |ops|
  {
    ops == [] ||
    (StepKeepsValid(s, ops[0]);
     Unambiguous(known, Emitted(s, ops[0])) &&
     Tieless(Overwrite(known, Emitted(s, ops[0])), Step(s, ops[0]), ops[1..]))
  }

  /** Whatever the writers are, the panel shows exactly what it knows, ranked. */
  lemma {:induction false} PanelShowsWhatItKnows(
      client: ClientList, known: ConversationMap, s: IndexState, ops: seq<IndexOp>, final: ClientList)
    requires KeyedById(known) && Valid(s) && client == FullList(known)
    requires Tieless(known, s, ops) && Follows(client, s, ops, final)
    ensures final == FullList(KnownAfter(known, s, ops))
    decreases |ops|
  {
    if ops != [] {
      var op := ops[0];
      StepKeepsValid(s, op);
      var mid: ClientList :|
        MergesTo(client, Emitted(s, op), mid) && Follows(mid, Step(s, op), ops[1..], final);
      MergesFollow(client, Emitted(s, op), mid, known);
      PanelShowsWhatItKnows(mid, Overwrite(known, Emitted(s, op)), Step(s, op), ops[1..], final);
    }
  }

  // --- what is known and what is served ---

  /** Each value of newer is still to be merged in or already there. */
  ghost predicate Owed(convs: ConversationMap, events: seq<Conversation>, newer: ConversationMap) {
    forall id :: id in newer ==> newer[id] in events || (id in convs && convs[id] == newer[id])
  }

  lemma OwedAfterOne(convs: ConversationMap, events: seq<Conversation>, newer: ConversationMap)
    requires KeyedById(newer) && Owed(convs, events, newer) && events != []
    requires events[0].id in newer && newer[events[0].id] == events[0]
    ensures Owed(convs[events[0].id := events[0]], events[1..], newer)
  {
    forall id | id in newer && newer[id] != events[0] ensures newer[id] in events ==> newer[id] in events[1..] {
      assert events == [events[0]] + events[1..];
    }
  }

  /** Merging in values that agree with newer amounts to laying newer's pushed part over the old map. */
  lemma {:induction false} OverwriteWith(convs: ConversationMap, events: seq<Conversation>, newer: ConversationMap)
    requires KeyedById(convs) && KeyedById(newer) && Owed(convs, events, newer)
    requires forall i :: 0 <= i < |events| ==> events[i].id in newer && newer[events[i].id] == events[i]
    ensures Overwrite(convs, events) == convs + newer
    decreases |events|
  {
    if events == [] {
      assert convs + newer == convs;
    } else {
      var next, rest := convs[events[0].id := events[0]], events[1..];
      OwedAfterOne(convs, events, newer);
      assert forall i :: 0 <= i < |rest| ==> rest[i] == events[i + 1];
      OverwriteWith(next, rest, newer);
      assert next + newer == convs + newer;
    }
  }

  lemma FullListInjective(a: ConversationMap, b: ConversationMap)
    requires KeyedById(a) && KeyedById(b) && FullList(a) == FullList(b)
    ensures a == b
  {
    FullListLists(a);
    FullListLists(b);
    var list := FullList(a);
    forall id | id in a ensures id in b && b[id] == a[id] {
      assert a[id] in list;
      var i :| 0 <= i < |list| && list[i] == a[id];
    }
    forall id | id in b ensures id in a {
      assert b[id] in list;
      var i :| 0 <= i < |list| && list[i] == b[id];
    }
  }

  /** The part of the map that is served. */
  ghost function Served(s: IndexState): (served: ConversationMap)
    requires KeyedById(s.convs)
    ensures KeyedById(served)
  {
    map id | id in s.order && id in s.convs :: s.convs[id]
  }

  lemma ServedIsKeyed(s: IndexState)
    requires Valid(s)
    ensures KeyedById(Served(s)) && Served(s).Keys == Elements(s.order)
    ensures Distinct(s.order) && Ranked(s.order, s.convs)
  {
    TopIdsIsIndex(s.convs);
    RankedIsDistinct(s.order, s.convs);
  }

  lemma ServedListIsFullList(s: IndexState)
    requires Valid(s)
    ensures KeyedById(Served(s)) && Served(s).Keys == Elements(s.order)
    ensures ServedList(s) == FullList(Served(s))
  {
    ServedIsKeyed(s);
    var list, served := ServedList(s), Served(s);
    assert forall i :: 0 <= i < |list| ==> s.order[i] in s.order && list[i] == served[s.order[i]];
    forall id | id in served ensures served[id] in list {
      var i :| 0 <= i < |s.order| && s.order[i] == id;
      assert list[i] == served[id];
    }
    assert Holds(list, served);
    ListsIsFullList(list, served);
  }

  lemma PrefixKnowsLess(list: ClientList, larger: ClientList, part: ConversationMap, known: ConversationMap)
    requires KeyedById(part) && Lists(list, part) && Lists(larger, known) && list <= larger
    ensures part.Keys <= known.Keys
  {
    forall id | id in part ensures id in known {
      assert part[id].id == id && part[id] in list;
      var i :| 0 <= i < |list| && list[i] == part[id];
      assert larger[i] == list[i];
    }
  }

  /** The panel's list starts with what is served exactly when it knows all of it, and is it when it knows no more. */
  lemma KnownListIsServedIff(known: ConversationMap, s: IndexState)
    requires KeyedById(known) && Valid(s) && PartOf(known, s.convs)
    ensures ServedList(s) <= FullList(known) <==> Elements(s.order) <= known.Keys
    ensures ServedList(s) == FullList(known) <==> Elements(s.order) == known.Keys
  {
    var list, served := ServedList(s), Served(s);
    ServedListIsFullList(s);
    if Elements(s.order) <= known.Keys {
      ServedStartsKnown(known, s);
    }
    if list <= FullList(known) {
      FullListLists(served);
      FullListLists(known);
      PrefixKnowsLess(list, FullList(known), served, known);
    }
    ServedListIsKnownIff(known, s);
  }

  lemma ServedListIsKnownIff(known: ConversationMap, s: IndexState)
    requires KeyedById(known) && Valid(s) && PartOf(known, s.convs)
    ensures ServedList(s) == FullList(known) <==> Elements(s.order) == known.Keys
  {
    ServedListIsFullList(s);
    if ServedList(s) == FullList(known) {
      FullListInjective(Served(s), known);
    }
    if Elements(s.order) == known.Keys {
      assert known == Served(s);
    }
  }

  /** Two ranked lists, all of the one ranking before all of the other, make the ranked list of both maps. */
  lemma ConcatIsFullList(a: ClientList, b: ClientList, before: ConversationMap, after: ConversationMap)
    requires KeyedById(before) && KeyedById(after) && Lists(a, before) && Lists(b, after)
    requires before.Keys !! after.Keys
    requires forall x, y :: x in before && y in after ==> Before(before[x], after[y])
    ensures KeyedById(before + after) && a + b == FullList(before + after)
  {
    var all, both := a + b, before + after;
    forall i, j | 0 <= i < j < |all| ensures Before(all[i], all[j]) {
      if i < |a| <= j {
        assert all[i].id in before && all[j].id in after;
      }
    }
    forall i, j | 0 <= i < j < |all| ensures all[i] != all[j] {
      BeforeTotal(all[i], all[j]);
    }
    forall id | id in both ensures both[id] in all {
      assert if id in after then after[id] in b else before[id] in a;
    }
    assert Holds(all, both);
    ListsIsFullList(all, both);
  }

  lemma ListStartsLarger(list: ClientList, part: ConversationMap, known: ConversationMap)
    requires KeyedById(part) && KeyedById(known) && PartOf(part, known) && Lists(list, part)
    requires forall x, y :: x in part && y in known && y !in part ==> Before(part[x], known[y])
    ensures list <= FullList(known)
  {
    var rest := known - part.Keys;
    PartAndRest(part, known);
    forall x, y | x in part && y in rest ensures Before(part[x], rest[y]) {
      assert y in known && y !in part;
    }
    FullListLists(rest);
    ConcatIsFullList(list, FullList(rest), part, rest);
    assert list + FullList(rest) == FullList(known);
  }

  lemma PartAndRest(part: ConversationMap, known: ConversationMap)
    requires PartOf(part, known)
    ensures part + (known - part.Keys) == known && part.Keys !! (known - part.Keys).Keys
  {}

  lemma ServedStartsKnown(known: ConversationMap, s: IndexState)
    requires KeyedById(known) && Valid(s) && PartOf(known, s.convs) && Elements(s.order) <= known.Keys
    ensures ServedList(s) <= FullList(known)
  {
    var list, served := ServedList(s), Served(s);
    ServedListIsFullList(s);
    FullListLists(served);
    forall x, y | x in served && y in known && y !in served ensures Before(served[x], known[y]) {
      ServedBeforeOmitted(s, x, y);
    }
    ListStartsLarger(list, served, known);
  }

  lemma ServedBeforeOmitted(s: IndexState, served: string, omitted: string)
    requires Valid(s) && served in s.order && served in s.convs && omitted in s.convs && omitted !in s.order
    ensures Before(s.convs[served], s.convs[omitted])
  {
    TopIdsIsIndex(s.convs);
  }

  // --- writers of single conversations ---

  ghost predicate PartOf(known: ConversationMap, convs: ConversationMap) {
    forall id :: id in known ==> id in convs && convs[id] == known[id]
  }

  predicate IsSingle(op: IndexOp) {
    !op.ReplaceAll? && !op.Forget?
  }

  ghost predicate SingleWriters(ops: seq<IndexOp>) {
    forall i :: 0 <= i < |ops| ==> IsSingle(ops[i])
  }

  ghost function IdsOf(list: seq<Conversation>): set<string> {
    set c | c in list :: c.id
  }

  /** The conversations pushed during a run. */
  ghost function PushedDuring(s: IndexState, ops: seq<IndexOp>): set<string>
    requires Valid(s)
    decreases |ops|
  {
    if ops == [] then {}
    else
      StepKeepsValid(s, ops[0]);
      IdsOf(Emitted(s, ops[0])) + PushedDuring(Step(s, ops[0]), ops[1..])
  }

  /** What a single writer pushes is exactly what it changed. */
  lemma EmittedIsTheChange(s: IndexState, op: IndexOp)
    requires Valid(s) && IsSingle(op)
    ensures Step(s, op).convs == (if Emitted(s, op) == [] then s.convs
                                  else s.convs[Emitted(s, op)[0].id := Emitted(s, op)[0]])
    ensures |Emitted(s, op)| <= 1
  {
    StepKeepsValid(s, op);
  }

  /** The panel's part and the map moved on by the same conversations. */
  ghost predicate MovesWith(
      known: ConversationMap, convs: ConversationMap, known': ConversationMap, convs': ConversationMap,
      ids: set<string>)
  {
    PartOf(known', convs') && known'.Keys == known.Keys + ids && convs'.Keys == convs.Keys + ids
  }

  lemma OverwriteAtMostOne(known: ConversationMap, convs: ConversationMap, events: seq<Conversation>)
    requires KeyedById(known) && PartOf(known, convs) && |events| <= 1
    ensures MovesWith(
      known, convs, Overwrite(known, events), if events == [] then convs else convs[events[0].id := events[0]],
      IdsOf(events))
  {
    if events == [] {
      assert IdsOf(events) == {};
    } else {
      assert events == [events[0]] && events[1..] == [];
      assert Overwrite(known[events[0].id := events[0]], []) == known[events[0].id := events[0]];
      assert IdsOf(events) == {events[0].id};
    }
  }

  lemma SingleWriterKeepsPart(known: ConversationMap, s: IndexState, op: IndexOp)
    requires KeyedById(known) && Valid(s) && PartOf(known, s.convs) && IsSingle(op)
    ensures MovesWith(
      known, s.convs, Overwrite(known, Emitted(s, op)), Step(s, op).convs, IdsOf(Emitted(s, op)))
  {
    EmittedIsTheChange(s, op);
    OverwriteAtMostOne(known, s.convs, Emitted(s, op));
  }

  lemma MovesOn(known: ConversationMap, convs: ConversationMap, known1: ConversationMap, convs1: ConversationMap,
                known2: ConversationMap, convs2: ConversationMap, ids1: set<string>, ids2: set<string>)
    requires MovesWith(known, convs, known1, convs1, ids1) && MovesWith(known1, convs1, known2, convs2, ids2)
    ensures MovesWith(known, convs, known2, convs2, ids1 + ids2)
  {}

  lemma {:induction false} SingleWritersKeepPart(known: ConversationMap, s: IndexState, ops: seq<IndexOp>)
    requires KeyedById(known) && Valid(s) && PartOf(known, s.convs) && SingleWriters(ops)
    ensures MovesWith(known, s.convs, KnownAfter(known, s, ops), Run(s, ops).convs, PushedDuring(s, ops))
    decreases |ops|
  {
    if ops != [] {
      var op, rest := ops[0], ops[1..];
      assert IsSingle(op) && forall i :: 0 <= i < |rest| ==> rest[i] == ops[i + 1];
      StepKeepsValid(s, op);
      SingleWriterKeepsPart(known, s, op);
      var t, known' := Step(s, op), Overwrite(known, Emitted(s, op));
      SingleWritersKeepPart(known', t, rest);
      MovesOn(
        known, s.convs, known', t.convs, KnownAfter(known', t, rest), Run(t, rest).convs, IdsOf(Emitted(s, op)),
        PushedDuring(t, rest));
    }
  }

  /**
   * A panel that begins with any part of the map, after any run of single-conversation writers: it shows, ranked and
   * up to date, that part and what was pushed since. What is served is at its head exactly if each conversation
   * served was among these, and a panel that began with the whole map shows the whole map.
   */
  lemma PanelFollowsDaemon(
      client: ClientList, known: ConversationMap, s: IndexState, ops: seq<IndexOp>, final: ClientList)
    requires KeyedById(known) && Valid(s) && PartOf(known, s.convs) && client == FullList(known)
    requires SingleWriters(ops) && Tieless(known, s, ops) && Follows(client, s, ops, final)
    ensures Valid(Run(s, ops)) && final == FullList(KnownAfter(known, s, ops))
    ensures ServedList(Run(s, ops)) <= final <==>
      Elements(Run(s, ops).order) <= known.Keys + PushedDuring(s, ops)
    ensures ServedList(Run(s, ops)) == final <==>
      Elements(Run(s, ops).order) == known.Keys + PushedDuring(s, ops)
    ensures known.Keys == s.convs.Keys ==>
      final == FullList(Run(s, ops).convs) && ServedList(Run(s, ops)) <= final
  {
    RunKeepsValid(s, ops);
    PanelShowsWhatItKnows(client, known, s, ops, final);
    SingleWritersKeepPart(known, s, ops);
    var s', known' := Run(s, ops), KnownAfter(known, s, ops);
    KnownListIsServedIff(known', s');
    if known.Keys == s.convs.Keys {
      assert known' == s'.convs;
      ServedIsKeyed(s');
    }
  }

  /** The panel just connected, or just paired, begins with what is served. */
  lemma ReconnectedPanelFollowsIff(client: ClientList, s: IndexState, ops: seq<IndexOp>, final: ClientList)
    requires Valid(s) && client == ServedList(s)
    requires SingleWriters(ops) && Tieless(Served(s), s, ops) && Follows(client, s, ops, final)
    ensures Valid(Run(s, ops))
    ensures ServedList(Run(s, ops)) <= final <==>
      Elements(Run(s, ops).order) <= Elements(s.order) + PushedDuring(s, ops)
  {
    ServedListIsFullList(s);
    PanelFollowsDaemon(client, Served(s), s, ops, final);
  }

  /** Of two lists of one length, what left the one makes room for something else in the other. */
  lemma SomethingNew(a: seq<string>, b: seq<string>, gone: string) returns (added: string)
    requires Distinct(a) && Distinct(b) && |a| == |b| && gone in a && gone !in b
    ensures added in b && added !in a
  {
    ElementsCount(a);
    ElementsCount(b);
    if Elements(b) <= Elements(a) {
      assert gone in Elements(a) && gone !in Elements(b);
      SubsetSize(Elements(b), Elements(a) - {gone});
    }
    added :| added in Elements(b) && added !in Elements(a);
  }

  /** A conversation that drops out of a full served order makes room for one that was not served. */
  lemma DroppedMakesRoom(s: IndexState, conv: Conversation) returns (seen: string)
    requires Valid(s) && conv.id in s.order && conv.id !in Step(s, Upsert(conv)).order
    ensures seen in Step(s, Upsert(conv)).order && seen !in s.order && seen != conv.id
  {
    StepKeepsValid(s, Upsert(conv));
    ServedIsKeyed(s);
    ServedIsKeyed(Step(s, Upsert(conv)));
    TopIdsIsIndex(s.convs);
    TopIdsIsIndex(Step(s, Upsert(conv)).convs);
    assert conv.id in s.convs && Step(s, Upsert(conv)).convs.Keys == s.convs.Keys;
    seen := SomethingNew(s.order, Step(s, Upsert(conv)).order, conv.id);
  }

  /** So the panel of a connection that began with the served list misses it, until the next listing or push of it. */
  lemma RevealedGoesUnseen(client: ClientList, s: IndexState, conv: Conversation, final: ClientList)
    requires Valid(s) && client == ServedList(s)
    requires conv.id in s.order && conv.id !in Step(s, Upsert(conv)).order
    requires Tieless(Served(s), s, [Upsert(conv)]) && Follows(client, s, [Upsert(conv)], final)
    ensures Valid(Run(s, [Upsert(conv)])) && !(ServedList(Run(s, [Upsert(conv)])) <= final)
  {
    var ops := [Upsert(conv)];
    var seen := DroppedMakesRoom(s, conv);
    ReconnectedPanelFollowsIff(client, s, ops, final);
    OneUpsert(s, conv);
    assert seen in Elements(Run(s, ops).order);
  }

  lemma OneUpsert(s: IndexState, conv: Conversation)
    requires Valid(s)
    ensures Run(s, [Upsert(conv)]) == Step(s, Upsert(conv)) && PushedDuring(s, [Upsert(conv)]) == {conv.id}
  {
    var ops := [Upsert(conv)];
    StepKeepsValid(s, ops[0]);
    assert ops[1..] == [] && PushedDuring(Step(s, ops[0]), []) == {};
    assert Run(s, ops) == Run(Step(s, ops[0]), []);
    assert IdsOf(Emitted(s, ops[0])) == {conv.id};
  }

  // --- wholesale replacement and unpairing ---

  lemma OverlayIsNewerIff(older: ConversationMap, newer: ConversationMap)
    requires KeyedById(older) && KeyedById(newer)
    ensures FullList(older + newer) == FullList(newer) <==> older.Keys <= newer.Keys
  {
    var merged := older + newer;
    assert merged.Keys == older.Keys + newer.Keys;
    if older.Keys <= newer.Keys {
      assert merged == newer;
    }
    if FullList(merged) == FullList(newer) {
      FullListInjective(merged, newer);
    }
  }

  lemma ReplacementEmitsServed(s: IndexState, list: seq<Conversation>)
    requires Valid(s)
    ensures Valid(Step(s, ReplaceAll(list)))
    ensures Emitted(s, ReplaceAll(list)) == ServedList(Step(s, ReplaceAll(list)))
  {
    StepKeepsValid(s, ReplaceAll(list));
  }

  /**
   * After a wholesale replacement of any size, whatever the panel knew before, it agrees exactly when all it knew is
   * still being served.
   */
  lemma ReplacementFollowedIffStillServed(
      client: ClientList, known: ConversationMap, s: IndexState, list: seq<Conversation>, s': IndexState,
      final: ClientList)
    requires KeyedById(known) && Valid(s) && client == FullList(known) && s' == Step(s, ReplaceAll(list))
    requires Unambiguous(known, Emitted(s, ReplaceAll(list)))
    requires MergesTo(client, Emitted(s, ReplaceAll(list)), final)
    ensures Valid(s') && final == FullList(known + Served(s'))
    ensures final == ServedList(s') <==> known.Keys <= Elements(s'.order)
  {
    ReplacementEmitsServed(s, list);
    ServedListIsFullList(s');
    FullListLists(Served(s'));
    MergesFollow(client, ServedList(s'), final, known);
    OverwriteWith(known, ServedList(s'), Served(s'));
    OverlayIsNewerIff(known, Served(s'));
  }

  lemma ForgetEmitsNothing(s: IndexState)
    requires Valid(s)
    ensures Emitted(s, Forget) == [] && Valid(Step(s, Forget)) && ServedList(Step(s, Forget)) == []
  {
    StepKeepsValid(s, Forget);
  }

  /** Unpairing pushes no conversation, so the panel keeps its whole list and agrees only if it was empty. */
  lemma ForgettingGoesUnnoticed(client: ClientList, s: IndexState, final: ClientList)
    requires Valid(s) && MergesTo(client, Emitted(s, Forget), final)
    ensures final == client && Valid(Step(s, Forget))
    ensures final == ServedList(Step(s, Forget)) <==> client == []
  {
    ForgetEmitsNothing(s);
  }
}
