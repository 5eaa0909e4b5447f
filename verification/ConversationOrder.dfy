/** The order in which conversations are served: pinned first, then newest, then by identifier. */
module ConversationOrder {
  import opened Sequences

  datatype Participant = Participant(id: string, name: string, isMe: bool)

  datatype Conversation = Conversation(
    id: string, name: string, preview: string, previewMine: bool, timestamp: int, unread: bool,
    pinned: bool, avatarPath: string, outgoingId: string, participants: seq<Participant>)

  type ConversationMap = map<string, Conversation>

  /** How many conversations are held in the served order. */
  const CONV_LIST_LIMIT: nat := 50

  /** Lexicographic comparison, as on strings in the host language. */
  predicate StringLess(a: string, b: string) {
    if b == [] then false
    else if a == [] then true
    else a[0] < b[0] || (a[0] == b[0] && StringLess(a[1..], b[1..]))
  }

  lemma {:induction false} StringLessTotal(a: string, b: string)
    ensures a == b || StringLess(a, b) || StringLess(b, a)
    ensures !(StringLess(a, b) && StringLess(b, a))
    ensures a == b ==> !StringLess(a, b)
  {
    if a != [] && b != [] {
      StringLessTotal(a[1..], b[1..]);
      assert a == [a[0]] + a[1..] && b == [b[0]] + b[1..];
    }
  }

  lemma {:induction false} StringLessTransitive(a: string, b: string, c: string)
    requires StringLess(a, b) && StringLess(b, c)
    ensures StringLess(a, c)
  {
    if a != [] && a[0] == b[0] == c[0] {
      StringLessTransitive(a[1..], b[1..], c[1..]);
    }
  }

  /** a and b agree up to place i, where a ends or has the smaller character. */
  ghost predicate LessAt(a: string, b: string, i: nat) {
    i <= |a| && i < |b| && a[..i] == b[..i] && (i == |a| || a[i] < b[i])
  }

  lemma LessAtLater(a: string, b: string, i: nat)
    requires LessAt(a, b, i) && i > 0
    ensures a[0] == b[0] && LessAt(a[1..], b[1..], i - 1)
  {
    assert a[..i][0] == b[..i][0];
    assert a[1..][..i - 1] == a[..i][1..] && b[1..][..i - 1] == b[..i][1..];
  }

  lemma {:induction false} StringLessIff(a: string, b: string)
    ensures StringLess(a, b) <==> exists i: nat :: LessAt(a, b, i)
  {
    forall i: nat | LessAt(a, b, i) && i > 0 ensures a[0] == b[0] && LessAt(a[1..], b[1..], i - 1) {
      LessAtLater(a, b, i);
    }
    if b != [] && a == [] {
      assert LessAt(a, b, 0);
    } else if b != [] && a[0] < b[0] {
      assert LessAt(a, b, 0);
    } else if b != [] && a[0] == b[0] {
      StringLessIff(a[1..], b[1..]);
      if i: nat :| LessAt(a[1..], b[1..], i) {
        assert a[..i + 1] == [a[0]] + a[1..][..i] && b[..i + 1] == [b[0]] + b[1..][..i];
        assert LessAt(a, b, i + 1);
      }
    }
  }

  /** The comparator of the served list. */
  predicate Before(a: Conversation, b: Conversation) {
    if a.pinned != b.pinned then a.pinned
    else if a.timestamp != b.timestamp then a.timestamp > b.timestamp
    else StringLess(a.id, b.id)
  }

  /** Before is a strict order that decides between any two identifiers. */
  lemma BeforeTotal(a: Conversation, b: Conversation)
    ensures !(Before(a, b) && Before(b, a))
    ensures a.id != b.id ==> Before(a, b) || Before(b, a)
  {
    StringLessTotal(a.id, b.id);
  }

  lemma BeforeTransitive(a: Conversation, b: Conversation, c: Conversation)
    requires Before(a, b) && Before(b, c)
    ensures Before(a, c)
  {
    if StringLess(a.id, b.id) && StringLess(b.id, c.id) {
      StringLessTransitive(a.id, b.id, c.id);
    }
  }

  /** Pinned conversations come first, then newer ones, then the identifier that is first in lexicographic order. */
  lemma BeforeReads(a: Conversation, b: Conversation)
    ensures Before(a, b) <==>
      (a.pinned && !b.pinned) ||
      (a.pinned == b.pinned && a.timestamp > b.timestamp) ||
      (a.pinned == b.pinned && a.timestamp == b.timestamp && exists i: nat :: LessAt(a.id, b.id, i))
  {
    StringLessIff(a.id, b.id);
  }

  ghost predicate KeyedById(convs: ConversationMap) {
    forall id :: id in convs ==> convs[id].id == id
  }

  /** ids, all known to convs, are listed in strictly rising rank. */
  ghost predicate Ranked(ids: seq<string>, convs: ConversationMap) {
    (forall id :: id in ids ==> id in convs) &&
    forall i, j :: 0 <= i < j < |ids| ==> Before(convs[ids[i]], convs[ids[j]])
  }

  /** ids lists every conversation of the map, in rank order. */
  ghost predicate IsRanking(ids: seq<string>, convs: ConversationMap) {
    Ranked(ids, convs) && forall id :: id in convs ==> id in ids
  }

  lemma RankedIsDistinct(ids: seq<string>, convs: ConversationMap)
    requires Ranked(ids, convs)
    ensures Distinct(ids)
  {
    forall i, j | 0 <= i < j < |ids| ensures ids[i] != ids[j] {
      BeforeTotal(convs[ids[i]], convs[ids[j]]);
    }
  }

  lemma RankingLength(ids: seq<string>, convs: ConversationMap)
    requires IsRanking(ids, convs)
    ensures |ids| == |convs|
  {
    RankedIsDistinct(ids, convs);
    ElementsCount(ids);
    assert Elements(ids) == convs.Keys;
  }

  lemma {:induction false} RankedListsAgree(a: seq<string>, b: seq<string>, convs: ConversationMap)
    requires Ranked(a, convs) && Ranked(b, convs) && Elements(a) == Elements(b)
    ensures a == b
  {
    ElementsCount(a);
    RankedIsDistinct(a, convs);
    ElementsCount(b);
    RankedIsDistinct(b, convs);
    if a != [] {
      assert a[0] in Elements(a) && a[0] in b && b[0] in Elements(b) && b[0] in a;
      if a[0] != b[0] {
        BeforeTotal(convs[a[0]], convs[b[0]]);
        assert false;
      }
      TailElements(a);
      TailElements(b);
      RankedListsAgree(a[1..], b[1..], convs);
    }
  }

  /** Only one list ranks a given map, so the result cannot depend on how it was sorted. */
  lemma RankingUnique(a: seq<string>, b: seq<string>, convs: ConversationMap)
    requires IsRanking(a, convs) && IsRanking(b, convs)
    ensures a == b
  {
    assert Elements(a) == convs.Keys == Elements(b);
    RankedListsAgree(a, b, convs);
  }

  /** Puts id at its place in an already ranked list. */
  function Insert(ids: seq<string>, id: string, convs: ConversationMap): seq<string>
    requires id in convs && forall x :: x in ids ==> x in convs
  {
    if ids == [] || Before(convs[id], convs[ids[0]]) then [id] + ids
    else [ids[0]] + Insert(ids[1..], id, convs)
  }

  lemma {:induction false} InsertRanks(ids: seq<string>, id: string, convs: ConversationMap)
    requires KeyedById(convs) && Ranked(ids, convs) && id in convs && id !in ids
    ensures Ranked(Insert(ids, id, convs), convs)
    ensures forall x :: x in Insert(ids, id, convs) <==> x == id || x in ids
  {
    if ids != [] && !Before(convs[id], convs[ids[0]]) {
      InsertRanks(ids[1..], id, convs);
      BeforeTotal(convs[id], convs[ids[0]]);
      assert ids == [ids[0]] + ids[1..];
      var tail := Insert(ids[1..], id, convs);
      forall j | 0 <= j < |tail| ensures Before(convs[ids[0]], convs[tail[j]]) {
        assert tail[j] in tail;
      }
    } else if ids != [] {
      forall j | 0 <= j < |ids| ensures Before(convs[id], convs[ids[j]]) {
        if j > 0 { BeforeTransitive(convs[id], convs[ids[0]], convs[ids[j]]); }
      }
    }
  }

  lemma {:induction false} RankingExists(convs: ConversationMap)
    requires KeyedById(convs)
    ensures exists ids :: IsRanking(ids, convs)
    decreases |convs|
  {
    if |convs| == 0 {
      assert IsRanking([], convs);
    } else {
      var id :| id in convs;
      var rest := convs - {id};
      assert rest.Keys == convs.Keys - {id};
      RankingExists(rest);
      var ids :| IsRanking(ids, rest);
      InsertRanks(ids, id, convs);
      assert IsRanking(Insert(ids, id, convs), convs);
    }
  }

  /** The whole map in rank order. */
  ghost function Ranking(convs: ConversationMap): (ids: seq<string>)
    requires KeyedById(convs)
    ensures IsRanking(ids, convs)
  {
    RankingExists(convs);
    var ids :| IsRanking(ids, convs);
    ids
  }

  /** The identifiers that are served: the best-ranked CONV_LIST_LIMIT of them. */
  ghost function TopIds(convs: ConversationMap): seq<string>
    requires KeyedById(convs)
  {
    var ids := Ranking(convs);
    if |ids| <= CONV_LIST_LIMIT then ids else ids[..CONV_LIST_LIMIT]
  }

  /** What a served order promises, without naming how it was computed. */
  ghost predicate IsIndex(order: seq<string>, convs: ConversationMap) {
    Ranked(order, convs) &&
    |order| == (if |convs| <= CONV_LIST_LIMIT then |convs| else CONV_LIST_LIMIT) &&
    forall served, omitted :: served in order && omitted in convs && omitted !in order ==>
      Before(convs[served], convs[omitted])
  }

  lemma TopIdsIsIndex(convs: ConversationMap)
    requires KeyedById(convs)
    ensures IsIndex(TopIds(convs), convs)
  {
    var all, order := Ranking(convs), TopIds(convs);
    RankingLength(all, convs);
    forall served, omitted | served in order && omitted in convs && omitted !in order
      ensures Before(convs[served], convs[omitted])
    {
      var i :| 0 <= i < |order| && order[i] == served;
      var j :| 0 <= j < |all| && all[j] == omitted;
      assert order[i] == all[i];
      assert j >= |order|;
    }
  }

  /** An index continues, with what it leaves out, to the ranking of the whole map. */
  lemma IndexStartsRanking(order: seq<string>, convs: ConversationMap)
    requires KeyedById(convs) && IsIndex(order, convs)
    ensures order <= Ranking(convs)
  {
    var rest := map id | id in convs && id !in order :: convs[id];
    var tail := Ranking(rest);
    var all := order + tail;
    forall i | 0 <= i < |all| ensures all[i] in convs {
      assert all[i] in order || all[i] in tail;
    }
    forall i, j | 0 <= i < j < |all| ensures Before(convs[all[i]], convs[all[j]]) {
      if i < |order| <= j {
        assert all[i] in order && all[j] in rest;
      }
    }
    assert IsRanking(all, convs);
    RankingUnique(all, Ranking(convs), convs);
  }

  /** Exactly one list is an index of a map, and it is TopIds: the served order is a function of the map. */
  lemma IndexIsTopIds(order: seq<string>, convs: ConversationMap)
    requires KeyedById(convs)
    ensures IsIndex(order, convs) <==> order == TopIds(convs)
  {
    TopIdsIsIndex(convs);
    RankingLength(Ranking(convs), convs);
    if IsIndex(order, convs) {
      IndexStartsRanking(order, convs);
    }
  }

  ghost predicate SameRankFields(a: Conversation, b: Conversation) {
    a.id == b.id && a.pinned == b.pinned && a.timestamp == b.timestamp
  }

  /** A write that leaves identifier, pin and timestamp alone does not move anything in the order. */
  lemma TopIdsIgnoresOtherFields(before: ConversationMap, after: ConversationMap)
    requires KeyedById(before) && KeyedById(after) && before.Keys == after.Keys
    requires forall id :: id in before ==> SameRankFields(before[id], after[id])
    ensures TopIds(before) == TopIds(after)
  {
    var ids := Ranking(before);
    assert IsRanking(ids, after);
    RankingUnique(ids, Ranking(after), after);
  }
}
