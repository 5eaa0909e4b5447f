/** The panel's copy of the conversation list, kept up to date by merging one pushed conversation at a time. */
module ClientReplica {
  import opened Sequences
  import opened ConversationOrder
  import opened ConversationIndex

  type ClientList = seq<Conversation>

  /** The panel's comparator: pinned first, then newest. Unlike the daemon's it has no identifier tie-break. */
  predicate ClientBefore(a: Conversation, b: Conversation) {
    if a.pinned != b.pinned then a.pinned else a.timestamp > b.timestamp
  }

  ghost predicate ClientSorted(list: ClientList) {
    forall i, j :: 0 <= i < j < |list| ==> !ClientBefore(list[j], list[i])
  }

  /** What any sort under the panel's comparator may return; ties can come out either way. */
  ghost predicate SortOf(list: ClientList, out: ClientList) {
    multiset(out) == multiset(list) && ClientSorted(out)
  }

  /** Position of the first entry with this identifier, or the length of the list. */
  function Position(list: ClientList, id: string): (k: nat)
    ensures k <= |list|
    ensures k < |list| ==> list[k].id == id
    ensures forall i :: 0 <= i < k ==> list[i].id != id
  {
    if list == [] || list[0].id == id then 0 else 1 + Position(list[1..], id)
  }

  /** Overwrites the first entry of the same identifier, or appends. */
  function Splice(list: ClientList, conv: Conversation): ClientList {
    var k := Position(list, conv.id);
    if k < |list| then list[k := conv] else list + [conv]
  }

  /** One merge: conversations without an identifier are ignored. */
  ghost predicate MergeResult(list: ClientList, conv: Conversation, out: ClientList) {
    if conv.id == "" then out == list else SortOf(Splice(list, conv), out)
  }

  ghost predicate MergesTo(list: ClientList, events: seq<Conversation>, out: ClientList)
    decreases |events|
  {
    if events == [] then out == list
    else exists mid: ClientList :: MergeResult(list, events[0], mid) && MergesTo(mid, events[1..], out)
  }

  /** Every conversation of the map, best-ranked first. */
  ghost function FullList(convs: ConversationMap): ClientList
    requires KeyedById(convs)
  {
    var ids := Ranking(convs);
    assert forall i :: 0 <= i < |ids| ==> ids[i] in ids;
    seq(|ids|, i requires 0 <= i < |ids| => convs[ids[i]])
  }

  /** list holds exactly the values of convs, in strict rank order. */
  ghost predicate Lists(list: ClientList, convs: ConversationMap) {
    Holds(list, convs) && forall i, j :: 0 <= i < j < |list| ==> Before(list[i], list[j])
  }

  /** list holds exactly the values of convs, each once, in any order. */
  ghost predicate Holds(list: ClientList, convs: ConversationMap) {
    (forall i :: 0 <= i < |list| ==> list[i].id in convs && convs[list[i].id] == list[i]) &&
    (forall id {:trigger convs[id] in list} :: id in convs ==> convs[id] in list) &&
    Distinct(list)
  }

  lemma FullListLists(convs: ConversationMap)
    requires KeyedById(convs)
    ensures Lists(FullList(convs), convs) && ClientSorted(FullList(convs)) && |FullList(convs)| == |convs|
  {
    var ids, list := Ranking(convs), FullList(convs);
    RankedIsDistinct(ids, convs);
    RankingLength(ids, convs);
    assert forall i :: 0 <= i < |ids| ==> ids[i] in ids && list[i] == convs[ids[i]] && list[i].id == ids[i];
    forall id | id in convs ensures convs[id] in list {
      var i :| 0 <= i < |ids| && ids[i] == id;
      assert list[i] == convs[id];
    }
    forall i, j | 0 <= i < j < |list| ensures Before(list[i], list[j]) {
      assert Before(convs[ids[i]], convs[ids[j]]);
    }
  }

  function Ids(list: ClientList): seq<string> {
    seq(|list|, i requires 0 <= i < |list| => list[i].id)
  }

  lemma ListsIsFullList(list: ClientList, convs: ConversationMap)
    requires KeyedById(convs) && Lists(list, convs)
    ensures list == FullList(convs)
  {
    var ids := Ids(list);
    forall id | id in convs ensures id in ids {
      assert convs[id] in list;
      var i :| 0 <= i < |list| && list[i] == convs[id];
      assert ids[i] == id;
    }
    RankingUnique(ids, Ranking(convs), convs);
  }

  /** No two conversations share both pin and timestamp. */
  ghost predicate NoTies(convs: ConversationMap) {
    forall a, b :: a in convs && b in convs && a != b ==>
      convs[a].pinned != convs[b].pinned || convs[a].timestamp != convs[b].timestamp
  }

  lemma SpliceHolds(list: ClientList, conv: Conversation, convs: ConversationMap)
    requires KeyedById(convs) && Holds(list, convs)
    ensures Holds(Splice(list, conv), convs[conv.id := conv])
  {
    var k, out, convs' := Position(list, conv.id), Splice(list, conv), convs[conv.id := conv];
    forall id | id in convs' ensures convs'[id] in out {
      if id == conv.id {
        assert out[k] == conv;
      } else {
        assert convs[id] in list;
        var i :| 0 <= i < |list| && list[i] == convs[id];
        assert out[i] == list[i];
      }
    }
    if conv.id in convs {
      assert k < |list| by {
        assert convs[conv.id] in list;
        var i :| 0 <= i < |list| && list[i] == convs[conv.id];
      }
    }
    forall i, j | 0 <= i < j < |out| ensures out[i] != out[j] {
      assert i < |list|;
      if i != k && j != k {
        assert out[i] == list[i] && out[j] == list[j];
      } else if k < |list| {
        assert convs[list[i].id] == list[i] && convs[list[j].id] == list[j];
      }
    }
  }

  lemma SortHolds(list: ClientList, out: ClientList, convs: ConversationMap)
    requires Holds(list, convs) && SortOf(list, out)
    ensures Holds(out, convs)
  {
    PermutationKeepsDistinct(list, out);
    forall i | 0 <= i < |out| ensures out[i].id in convs && convs[out[i].id] == out[i] {
      assert out[i] in out;
    }
  }

  /** Without ties the panel's sort has one possible outcome, the daemon's ranking. */
  lemma SortedHoldsLists(out: ClientList, convs: ConversationMap)
    requires KeyedById(convs) && NoTies(convs) && Holds(out, convs) && ClientSorted(out)
    ensures Lists(out, convs)
  {
    forall i, j | 0 <= i < j < |out| ensures Before(out[i], out[j]) {
      assert convs[out[i].id] == out[i] && convs[out[j].id] == out[j];
    }
  }

  lemma MergeFollows(list: ClientList, conv: Conversation, out: ClientList, convs: ConversationMap)
    requires KeyedById(convs) && list == FullList(convs)
    requires conv.id != "" && NoTies(convs[conv.id := conv]) && MergeResult(list, conv, out)
    ensures out == FullList(convs[conv.id := conv])
  {
    var convs' := convs[conv.id := conv];
    FullListLists(convs);
    SpliceHolds(list, conv, convs);
    SortHolds(Splice(list, conv), out, convs');
    SortedHoldsLists(out, convs');
    ListsIsFullList(out, convs');
  }

  /** The map a sequence of pushed conversations amounts to, starting from convs. */
  ghost function Overwrite(convs: ConversationMap, events: seq<Conversation>): (out: ConversationMap)
    requires KeyedById(convs)
    ensures KeyedById(out)
    decreases |events|
  {
    if events == [] then convs else Overwrite(convs[events[0].id := events[0]], events[1..])
  }

  /** No merge along the way meets a tie or an empty identifier. */
  ghost predicate Unambiguous(convs: ConversationMap, events: seq<Conversation>)
    decreases |events|
  {
    events == [] ||
    (events[0].id != "" && NoTies(convs[events[0].id := events[0]]) &&
     Unambiguous(convs[events[0].id := events[0]], events[1..]))
  }

  /** Whatever the panel's sort does, merging keeps the list a full, ranked copy of the map. */
  lemma {:induction false} MergesFollow(
      list: ClientList, events: seq<Conversation>, out: ClientList, convs: ConversationMap)
    requires KeyedById(convs) && list == FullList(convs)
    requires Unambiguous(convs, events) && MergesTo(list, events, out)
    ensures out == FullList(Overwrite(convs, events))
    decreases |events|
  {
    if events != [] {
      var mid: ClientList :| MergeResult(list, events[0], mid) && MergesTo(mid, events[1..], out);
      MergeFollows(list, events[0], mid, convs);
      MergesFollow(mid, events[1..], out, convs[events[0].id := events[0]]);
    }
  }

  // --- where following fails ---

  /** Exchanging two tied entries of a sorted list gives another legitimate sort of it. */
  lemma SwapOfTied(list: ClientList, i: nat, j: nat)
    requires ClientSorted(list) && i < |list| && j < |list|
    requires list[i].pinned == list[j].pinned && list[i].timestamp == list[j].timestamp
    ensures SortOf(list, list[i := list[j]][j := list[i]])
  {
    var out := list[i := list[j]][j := list[i]];
    assert forall k :: 0 <= k < |list| ==>
      out[k].pinned == list[k].pinned && out[k].timestamp == list[k].timestamp;
  }

  lemma PlaceOf(list: ClientList, convs: ConversationMap, id: string) returns (i: nat)
    requires KeyedById(convs) && Holds(list, convs) && id in convs
    ensures i < |list| && list[i] == convs[id]
  {
    assert convs[id] in list;
    i :| 0 <= i < |list| && list[i] == convs[id];
  }

  /** Two lists that hold the same map are permutations of each other. */
  lemma HoldersArePermutations(a: ClientList, b: ClientList, convs: ConversationMap)
    requires KeyedById(convs) && Holds(a, convs) && Holds(b, convs)
    ensures multiset(a) == multiset(b)
  {
    forall c ensures multiset(a)[c] == multiset(b)[c] {
      DistinctMultiplicity(a, c);
      DistinctMultiplicity(b, c);
      if c in a {
        var i :| 0 <= i < |a| && a[i] == c;
        assert convs[c.id] in b;
      }
      if c in b {
        var i :| 0 <= i < |b| && b[i] == c;
        assert convs[c.id] in a;
      }
    }
  }

  /** A tie lets a sort of any list of the map come out differently from the ranking. */
  lemma TieAllowsAnotherOrder(list: ClientList, convs: ConversationMap, a: string, b: string)
    requires KeyedById(convs) && Holds(list, convs) && a in convs && b in convs && a != b
    requires convs[a].pinned == convs[b].pinned && convs[a].timestamp == convs[b].timestamp
    ensures exists out :: SortOf(list, out) && out != FullList(convs)
  {
    var full := FullList(convs);
    FullListLists(convs);
    HoldersArePermutations(list, full, convs);
    var i := PlaceOf(full, convs, a);
    var j := PlaceOf(full, convs, b);
    var out := full[i := full[j]][j := full[i]];
    SwapOfTied(full, i, j);
    assert SortOf(list, out);
    assert out[j] != full[j];
  }

  lemma NoTiesForcesOrder(list: ClientList, out: ClientList, convs: ConversationMap)
    requires KeyedById(convs) && Holds(list, convs) && NoTies(convs) && SortOf(list, out)
    ensures out == FullList(convs)
  {
    SortHolds(list, out, convs);
    SortedHoldsLists(out, convs);
    ListsIsFullList(out, convs);
  }

  /** The panel's order after a merge is forced, and is the daemon's, exactly when the map then has no ties. */
  lemma MergeForcedIffNoTies(list: ClientList, conv: Conversation, convs: ConversationMap)
    requires KeyedById(convs) && list == FullList(convs) && conv.id != ""
    ensures NoTies(convs[conv.id := conv]) <==>
      forall out :: MergeResult(list, conv, out) ==> out == FullList(convs[conv.id := conv])
  {
    var convs' := convs[conv.id := conv];
    FullListLists(convs);
    SpliceHolds(list, conv, convs);
    if NoTies(convs') {
      forall out | MergeResult(list, conv, out) ensures out == FullList(convs') {
        NoTiesForcesOrder(Splice(list, conv), out, convs');
      }
    } else {
      var a, b :| a in convs' && b in convs' && a != b &&
        convs'[a].pinned == convs'[b].pinned && convs'[a].timestamp == convs'[b].timestamp;
      TieAllowsAnotherOrder(Splice(list, conv), convs', a, b);
      var out :| SortOf(Splice(list, conv), out) && out != FullList(convs');
      assert MergeResult(list, conv, out);
    }
  }

  /** A sort of the ranked list itself is forced exactly when the map has no ties. */
  lemma OrderForcedIffNoTies(convs: ConversationMap)
    requires KeyedById(convs)
    ensures NoTies(convs) <==> forall out :: SortOf(FullList(convs), out) ==> out == FullList(convs)
  {
    var full := FullList(convs);
    FullListLists(convs);
    if NoTies(convs) {
      forall out | SortOf(full, out) ensures out == full {
        NoTiesForcesOrder(full, out, convs);
      }
    } else {
      var a, b :| a in convs && b in convs && a != b &&
        convs[a].pinned == convs[b].pinned && convs[a].timestamp == convs[b].timestamp;
      TieAllowsAnotherOrder(full, convs, a, b);
    }
  }

  // --- a sort that is stable ---

  predicate Tied(a: Conversation, b: Conversation) {
    a.pinned == b.pinned && a.timestamp == b.timestamp
  }

  ghost predicate Precedes(list: ClientList, a: Conversation, b: Conversation) {
    exists i, j :: 0 <= i < j < |list| && list[i] == a && list[j] == b
  }

  /** A stable sort leaves tied entries in the order it found them. */
  ghost predicate KeepsTies(list: ClientList, out: ClientList) {
    forall i, j :: 0 <= i < j < |list| && Tied(list[i], list[j]) ==> Precedes(out, list[i], list[j])
  }

  ghost predicate TiesInIdOrder(list: ClientList) {
    forall i, j :: 0 <= i < j < |list| && Tied(list[i], list[j]) ==> StringLess(list[i].id, list[j].id)
  }

  lemma StableSortRanks(list: ClientList, out: ClientList, convs: ConversationMap, i: nat, j: nat)
    requires KeyedById(convs) && Holds(list, convs) && Holds(out, convs) && ClientSorted(out) && KeepsTies(list, out)
    requires TiesInIdOrder(list) && i < j < |out|
    ensures Before(out[i], out[j])
  {
    assert convs[out[i].id] == out[i] && convs[out[j].id] == out[j];
    StringLessTotal(out[i].id, out[j].id);
    assert !Precedes(out, out[j], out[i]);
    if Tied(out[i], out[j]) {
      var x := PlaceOf(list, convs, out[i].id);
      var y := PlaceOf(list, convs, out[j].id);
      assert !(y < x);
    }
  }

  /** With a stable sort a merge follows the daemon exactly when it finds every tie already in identifier order. */
  lemma StableMergeFollowsIff(list: ClientList, conv: Conversation, out: ClientList, convs: ConversationMap)
    requires KeyedById(convs) && list == FullList(convs) && conv.id != ""
    requires MergeResult(list, conv, out) && KeepsTies(Splice(list, conv), out)
    ensures out == FullList(convs[conv.id := conv]) <==> TiesInIdOrder(Splice(list, conv))
  {
    var convs', spliced := convs[conv.id := conv], Splice(list, conv);
    FullListLists(convs);
    SpliceHolds(list, conv, convs);
    SortHolds(spliced, out, convs');
    if TiesInIdOrder(spliced) {
      forall i, j | 0 <= i < j < |out| ensures Before(out[i], out[j]) {
        StableSortRanks(spliced, out, convs', i, j);
      }
      ListsIsFullList(out, convs');
    }
    if out == FullList(convs') {
      FullListLists(convs');
      forall i, j | 0 <= i < j < |spliced| && Tied(spliced[i], spliced[j])
        ensures StringLess(spliced[i].id, spliced[j].id)
      {
        assert Precedes(out, spliced[i], spliced[j]);
      }
    }
  }

  /** A new conversation that ties with one shown, and should rank above it, stays behind it under a stable sort. */
  lemma AppendedTieStaysBehind(
      list: ClientList, shown: Conversation, conv: Conversation, out: ClientList, convs: ConversationMap)
    requires KeyedById(convs) && list == FullList(convs) && conv.id != "" && conv.id !in convs
    requires shown.id in convs && convs[shown.id] == shown && Tied(shown, conv) && StringLess(conv.id, shown.id)
    requires MergeResult(list, conv, out) && KeepsTies(Splice(list, conv), out)
    ensures out != FullList(convs[conv.id := conv])
  {
    FullListLists(convs);
    var i := PlaceOf(list, convs, shown.id);
    var spliced := Splice(list, conv);
    assert Position(list, conv.id) == |list|;
    assert spliced[i] == shown && spliced[|list|] == conv;
    StringLessTotal(conv.id, shown.id);
    StableMergeFollowsIff(list, conv, out, convs);
  }
}
