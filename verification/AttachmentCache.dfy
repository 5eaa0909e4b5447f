/** What the daemon remembers about attachments: a capped map from attachment key to its download routes. */
module AttachmentCache {
  import opened Sequences
  import opened ByteStrings
  import opened SliceQueue

  datatype MediaContent = MediaContent(
    mediaId: string, mediaKey: Bytes, thumbId: string, thumbKey: Bytes,
    inline: Bytes, mimeType: string, name: string, size: int)

  /** A message part is text, media, or something neither reader looks at. */
  datatype Part = Text(content: string) | Media(actionId: string, media: MediaContent) | Other

  datatype PhoneMessage = PhoneMessage(id: string, parts: seq<Part>)

  datatype Secret = Secret(content: MediaContent, messageId: string, partId: string)

  datatype CacheState = CacheState(secrets: map<string, Secret>, order: seq<string>, requested: set<string>)

  const MAX_SECRETS: nat := 4096
  const EMPTY_CACHE := CacheState(map[], [], {})

  /** The handle of a media part: its media id, else its part id, else its message's id. */
  function AttachmentKey(messageId: string, partId: string, mediaId: string): (key: string)
    ensures key != ""
  {
    if mediaId != "" then mediaId
    else if partId != "" then "part:" + partId
    else "msg:" + messageId
  }

  /** Two media parts share a handle exactly when they name the same media, else part, else message. */
  lemma KeysCoincideIff(msg1: string, part1: string, media1: string, msg2: string, part2: string, media2: string)
    requires !("part:" <= media1 || "msg:" <= media1) && !("part:" <= media2 || "msg:" <= media2)
    ensures AttachmentKey(msg1, part1, media1) == AttachmentKey(msg2, part2, media2) <==>
      media1 == media2 && (media1 == "" ==> part1 == part2 && (part1 == "" ==> msg1 == msg2))
  {
    PrefixCancels("part:", part1, part2);
    PrefixCancels("msg:", msg1, msg2);
    assert "part:" <= "part:" + part1 && "part:" <= "part:" + part2;
    assert "msg:" <= "msg:" + msg1 && "msg:" <= "msg:" + msg2;
    assert ("part:" + part1)[0] != ("msg:" + msg2)[0] && ("msg:" + msg1)[0] != ("part:" + part2)[0];
  }

  lemma PrefixCancels(prefix: string, a: string, b: string)
    ensures prefix + a == prefix + b ==> a == b
  {
    assert (prefix + a)[|prefix|..] == a && (prefix + b)[|prefix|..] == b;
  }

  function KeyOf(messageId: string, part: Part): string
    requires part.Media?
  {
    AttachmentKey(messageId, part.actionId, part.media.mediaId)
  }

  function AddPart(s: CacheState, messageId: string, part: Part): CacheState {
    if !part.Media? then s
    else
      var key := KeyOf(messageId, part);
      s.(order := if key in s.secrets then s.order else s.order + [key],
         secrets := s.secrets[key := Secret(part.media, messageId, part.actionId)])
  }

  function AddParts(s: CacheState, messageId: string, parts: seq<Part>): CacheState {
    if parts == [] then s
    else AddPart(AddParts(s, messageId, parts[..|parts| - 1]), messageId, parts[|parts| - 1])
  }

  /** Forgets the key queued longest, with its secret and its full-size request mark. */
  function DropOldest(s: CacheState): CacheState
    requires s.order != []
  {
    CacheState(s.secrets - {s.order[0]}, s.order[1..], s.requested - {s.order[0]})
  }

  function Trim(s: CacheState): CacheState
    decreases |s.order|
  {
    if |s.order| <= MAX_SECRETS then s else Trim(DropOldest(s))
  }

  function Record(s: CacheState, msg: PhoneMessage): CacheState {
    Trim(AddParts(s, msg.id, msg.parts))
  }

  // --- what the queue and the map promise ---

  ghost predicate Valid(s: CacheState) {
    Distinct(s.order) && Elements(s.order) == s.secrets.Keys && |s.order| <= MAX_SECRETS
  }

  /** Keys a message brings that were not known, each once, in the order they appear. */
  function NewKeys(known: set<string>, messageId: string, parts: seq<Part>): seq<string> {
    if parts == [] then []
    else
      var part := parts[|parts| - 1];
      var before := NewKeys(known, messageId, parts[..|parts| - 1]);
      if part.Media? && KeyOf(messageId, part) !in known && KeyOf(messageId, part) !in before
      then before + [KeyOf(messageId, part)] else before
  }

  /** The last media part in the list that is filed under key. */
  function LastPart(messageId: string, parts: seq<Part>, key: string): Option<Secret> {
    if parts == [] then None
    else
      var part := parts[|parts| - 1];
      if part.Media? && KeyOf(messageId, part) == key then Some(Secret(part.media, messageId, part.actionId))
      else LastPart(messageId, parts[..|parts| - 1], key)
  }

  /** Part i is the last one filed under key. */
  ghost predicate LastFiled(messageId: string, parts: seq<Part>, key: string, i: nat) {
    i < |parts| && parts[i].Media? && KeyOf(messageId, parts[i]) == key &&
    forall j :: i < j < |parts| && parts[j].Media? ==> KeyOf(messageId, parts[j]) != key
  }

  /** What is remembered is the media of that part, with the message and the part it came from. */
  lemma {:induction false} LastPartSays(messageId: string, parts: seq<Part>, key: string)
    ensures LastPart(messageId, parts, key).Some? <==> exists i: nat :: LastFiled(messageId, parts, key, i)
    ensures forall i: nat :: LastFiled(messageId, parts, key, i) ==>
      var found := LastPart(messageId, parts, key);
      found.Some? && found.value.content == parts[i].media && found.value.messageId == messageId &&
      found.value.partId == parts[i].actionId
  {
    if parts != [] {
      var n := |parts| - 1;
      var early := parts[..n];
      LastPartSays(messageId, early, key);
      if parts[n].Media? && KeyOf(messageId, parts[n]) == key {
        assert LastFiled(messageId, parts, key, n);
        assert forall i: nat :: LastFiled(messageId, parts, key, i) ==> i == n;
      } else {
        assert forall i: nat :: LastFiled(messageId, parts, key, i) <==> LastFiled(messageId, early, key, i);
      }
    }
  }

  lemma {:induction false} AddPartsEffect(s: CacheState, messageId: string, parts: seq<Part>)
    requires Distinct(s.order) && Elements(s.order) == s.secrets.Keys
    ensures var a := AddParts(s, messageId, parts);
      && a.order == s.order + NewKeys(s.secrets.Keys, messageId, parts)
      && Distinct(a.order) && Elements(a.order) == a.secrets.Keys
      && a.requested == s.requested
      && (forall k :: k in a.secrets ==>
        match LastPart(messageId, parts, k)
        case Some(secret) => a.secrets[k] == secret
        case None => k in s.secrets && a.secrets[k] == s.secrets[k])
    ensures forall i :: 0 <= i < |parts| && parts[i].Media? ==>
      KeyOf(messageId, parts[i]) in AddParts(s, messageId, parts).secrets
  {
    if parts != [] {
      AddPartsEffect(s, messageId, parts[..|parts| - 1]);
      var b, a := AddParts(s, messageId, parts[..|parts| - 1]), AddParts(s, messageId, parts);
      if a.order != b.order {
        assert Elements(a.order) == Elements(b.order) + {a.order[|b.order|]};
      }
    }
  }

  /** Trimming keeps the last MAX_SECRETS places of the queue and forgets the rest in one go. */
  lemma {:induction false} TrimCutsTheFront(s: CacheState)
    ensures Trim(s).order == LastN(s.order, MAX_SECRETS)
    ensures var n := |s.order| - |Trim(s).order|; var gone := Elements(s.order[..n]);
      Trim(s).secrets == s.secrets - gone && Trim(s).requested == s.requested - gone
    decreases |s.order|
  {
    if |s.order| > MAX_SECRETS {
      var s1 := DropOldest(s);
      TrimCutsTheFront(s1);
      var n := |s.order| - MAX_SECRETS;
      assert s.order[..n] == [s.order[0]] + s1.order[..n - 1];
      assert Elements(s.order[..n]) == {s.order[0]} + Elements(s1.order[..n - 1]);
    } else {
      assert s.order[..0] == [];
    }
  }

  /** After trimming, exactly the keys in the last MAX_SECRETS places of the queue are known. */
  lemma TrimKeepsTheNewest(a: CacheState, i: nat)
    requires Distinct(a.order) && Elements(a.order) == a.secrets.Keys && i < |a.order|
    ensures Valid(Trim(a)) && Trim(a).order == LastN(a.order, MAX_SECRETS)
    ensures a.order[i] in Trim(a).secrets <==> |a.order| - i <= MAX_SECRETS
    ensures forall k :: k in Trim(a).secrets ==> Trim(a).secrets[k] == a.secrets[k]
  {
    TrimCutsTheFront(a);
    var n := |a.order| - |Trim(a).order|;
    DistinctSplits(a.order, n);
    assert Trim(a).order == a.order[n..];
    assert a.order[i] in Elements(a.order);
  }

  lemma RecordKeepsValid(s: CacheState, msg: PhoneMessage)
    requires Valid(s)
    ensures Valid(Record(s, msg))
    ensures Record(s, msg).order ==
      LastN(s.order + NewKeys(s.secrets.Keys, msg.id, msg.parts), MAX_SECRETS)
    ensures forall k :: k in Record(s, msg).secrets ==>
      k in AddParts(s, msg.id, msg.parts).secrets &&
      Record(s, msg).secrets[k] == AddParts(s, msg.id, msg.parts).secrets[k]
  {
    AddPartsEffect(s, msg.id, msg.parts);
    var a := AddParts(s, msg.id, msg.parts);
    if a.order != [] {
      TrimKeepsTheNewest(a, 0);
    }
  }

  // --- whole histories ---

  ghost function RecordAll(msgs: seq<PhoneMessage>): CacheState {
    if msgs == [] then EMPTY_CACHE else Record(RecordAll(msgs[..|msgs| - 1]), msgs[|msgs| - 1])
  }

  /** Every insertion ever made, in order; a key that was evicted and seen again appears again. */
  ghost function InsertionLog(msgs: seq<PhoneMessage>): seq<string> {
    if msgs == [] then []
    else
      var before, msg := msgs[..|msgs| - 1], msgs[|msgs| - 1];
      InsertionLog(before) + NewKeys(RecordAll(before).secrets.Keys, msg.id, msg.parts)
  }

  /** The last media part in the whole history that is filed under key. */
  ghost function LatestPart(msgs: seq<PhoneMessage>, key: string): Option<Secret> {
    if msgs == [] then None
    else
      var msg := msgs[|msgs| - 1];
      var here := LastPart(msg.id, msg.parts, key);
      if here.Some? then here else LatestPart(msgs[..|msgs| - 1], key)
  }

  /** The cache is the tail of the insertion log, and each key it knows has its latest part. */
  lemma {:induction false} CacheIsTailOfLog(msgs: seq<PhoneMessage>)
    ensures var s := RecordAll(msgs);
      && Valid(s)
      && s.order == LastN(InsertionLog(msgs), MAX_SECRETS)
      && (forall k :: k in s.secrets ==> LatestPart(msgs, k) == Some(s.secrets[k]))
  {
    if msgs != [] {
      var before, msg := msgs[..|msgs| - 1], msgs[|msgs| - 1];
      var s := RecordAll(before);
      CacheIsTailOfLog(before);
      RecordKeepsValid(s, msg);
      AddPartsEffect(s, msg.id, msg.parts);
      LastNOfAppend(InsertionLog(before), NewKeys(s.secrets.Keys, msg.id, msg.parts), MAX_SECRETS);
      TrimCutsTheFront(AddParts(s, msg.id, msg.parts));
    }
  }

  // --- attachments published with a message ---

  /** The attachment handles a converted message offers to the panel. */
  function PublishedKeys(messageId: string, parts: seq<Part>): seq<string> {
    if parts == [] then []
    else
      var part := parts[|parts| - 1];
      PublishedKeys(messageId, parts[..|parts| - 1]) + (if part.Media? then [KeyOf(messageId, part)] else [])
  }

  lemma PublishedOfOne(messageId: string, part: Part)
    ensures part.Media? ==>
      PublishedKeys(messageId, [part]) == [AttachmentKey(messageId, part.actionId, part.media.mediaId)]
    ensures !part.Media? ==> PublishedKeys(messageId, [part]) == []
  {
    assert [part][..0] == [];
  }

  /** A message publishes the handles of its media parts, in the order of the parts. */
  lemma {:induction false} PublishedInOrder(messageId: string, early: seq<Part>, late: seq<Part>)
    ensures PublishedKeys(messageId, early + late) ==
      PublishedKeys(messageId, early) + PublishedKeys(messageId, late)
    decreases |late|
  {
    if late == [] {
      assert early + late == early;
    } else {
      PublishedInOrder(messageId, early, late[..|late| - 1]);
      assert (early + late)[..|early + late| - 1] == early + late[..|late| - 1];
    }
  }

  lemma {:induction false} PublishedAreParts(messageId: string, parts: seq<Part>, key: string)
    ensures key in PublishedKeys(messageId, parts) <==>
      exists i :: 0 <= i < |parts| && parts[i].Media? && KeyOf(messageId, parts[i]) == key
  {
    if parts != [] {
      PublishedAreParts(messageId, parts[..|parts| - 1], key);
      assert parts == parts[..|parts| - 1] + [parts[|parts| - 1]];
    }
  }

  /** Entries of the queue that lie ahead of the last n places, and so go at the next trim. */
  ghost predicate Doomed(order: seq<string>, key: string, n: nat) {
    exists i :: 0 <= i < |order| - n && order[i] == key
  }

  /**
   * A handle published with a message can be fetched right after the message was recorded, exactly when it is
   * not queued ahead of the last MAX_SECRETS places: being seen again does not move a key back.
   */
  lemma PublishedKeyResolvesIff(s: CacheState, msg: PhoneMessage, key: string)
    requires Valid(s) && key in PublishedKeys(msg.id, msg.parts)
    ensures key in Record(s, msg).secrets <==>
      !Doomed(s.order + NewKeys(s.secrets.Keys, msg.id, msg.parts), key, MAX_SECRETS)
  {
    PublishedAreParts(msg.id, msg.parts, key);
    AddPartsEffect(s, msg.id, msg.parts);
    var a := AddParts(s, msg.id, msg.parts);
    assert key in a.secrets && key in Elements(a.order);
    var i :| 0 <= i < |a.order| && a.order[i] == key;
    TrimKeepsTheNewest(a, i);
  }

  /** Of the keys a message adds, the last MAX_SECRETS survive its own trim. */
  lemma NewestOfAMessageSurvive(s: CacheState, msg: PhoneMessage)
    requires Valid(s)
    ensures forall key :: key in LastN(NewKeys(s.secrets.Keys, msg.id, msg.parts), MAX_SECRETS) ==>
      key in Record(s, msg).secrets
  {
    RecordKeepsValid(s, msg);
    var added := NewKeys(s.secrets.Keys, msg.id, msg.parts);
    forall key | key in LastN(added, MAX_SECRETS) ensures key in Record(s, msg).secrets {
      var all, tail := s.order + added, LastN(added, MAX_SECRETS);
      var i :| 0 <= i < |tail| && tail[i] == key;
      assert all[|all| - |tail| + i] == key;
      assert key in LastN(all, MAX_SECRETS);
      assert key in Elements(Record(s, msg).order);
    }
  }

  /** With a full queue, a message that shows its oldest key again next to a new one loses the key it shows. */
  lemma SeenAgainYetForgotten(s: CacheState, msg: PhoneMessage, shown: MediaContent, added: MediaContent)
    requires Valid(s) && |s.order| == MAX_SECRETS
    requires shown.mediaId == s.order[0] != "" && added.mediaId != "" && added.mediaId !in s.secrets
    requires msg.parts == [Media("", shown), Media("", added)]
    ensures s.order[0] in PublishedKeys(msg.id, msg.parts)
    ensures s.order[0] !in Record(s, msg).secrets
  {
    assert s.order[0] in Elements(s.order);
    assert msg.parts[..1] == [Media("", shown)] && msg.parts[..1][..0] == [];
    assert NewKeys(s.secrets.Keys, msg.id, msg.parts[..1]) == [];
    assert NewKeys(s.secrets.Keys, msg.id, msg.parts) == [added.mediaId];
    assert PublishedKeys(msg.id, msg.parts[..1]) == [s.order[0]];
    assert (s.order + [added.mediaId])[0] == s.order[0];
    PublishedKeyResolvesIff(s, msg, s.order[0]);
  }

  function FillerPart(n: nat): Part {
    Media("", MediaContent(Filler(n), [], "", [], [], "", "", 0))
  }

  function FillerParts(n: nat): seq<Part> {
    seq(n, i requires 0 <= i < n => FillerPart(i))
  }

  function FillerIds(n: nat): seq<string> {
    seq(n, i requires 0 <= i < n => Filler(i))
  }

  lemma {:induction false} FillersAreNew(known: set<string>, messageId: string, n: nat)
    requires forall i: nat :: Filler(i) !in known
    ensures NewKeys(known, messageId, FillerParts(n)) == FillerIds(n)
  {
    if n > 0 {
      FillersAreNew(known, messageId, n - 1);
      assert FillerParts(n)[..n - 1] == FillerParts(n - 1) && FillerParts(n)[n - 1] == FillerPart(n - 1);
      assert FillerIds(n) == FillerIds(n - 1) + [Filler(n - 1)];
      var early := FillerIds(n - 1);
      assert forall i :: 0 <= i < |early| ==> |early[i]| == i + 2;
    }
  }

  /** One message with a full queue's worth of new attachments replaces everything known. */
  lemma FillersTakeOver(s: CacheState, messageId: string)
    requires Valid(s) && forall i: nat :: Filler(i) !in s.secrets
    ensures Valid(Record(s, PhoneMessage(messageId, FillerParts(MAX_SECRETS))))
    ensures Record(s, PhoneMessage(messageId, FillerParts(MAX_SECRETS))).order == FillerIds(MAX_SECRETS)
  {
    FillersAreNew(s.secrets.Keys, messageId, MAX_SECRETS);
    RecordKeepsValid(s, PhoneMessage(messageId, FillerParts(MAX_SECRETS)));
  }

  /** That happens from the start: a message fills the queue, the next one shows its first key next to a new one. */
  lemma SeenAgainFromTheStart(first: string, next: string, added: MediaContent)
    requires |added.mediaId| == 1
    ensures var again := PhoneMessage(next, [FillerPart(0), Media("", added)]);
      var msgs := [PhoneMessage(first, FillerParts(MAX_SECRETS)), again];
      Filler(0) in PublishedKeys(again.id, again.parts) && Filler(0) !in RecordAll(msgs).secrets
  {
    var full := PhoneMessage(first, FillerParts(MAX_SECRETS));
    var again := PhoneMessage(next, [FillerPart(0), Media("", added)]);
    var msgs := [full, again];
    assert msgs[..1] == [full] && [full][..0] == [];
    assert RecordAll([full]) == Record(EMPTY_CACHE, full);
    FillersTakeOver(EMPTY_CACHE, first);
    var s := RecordAll([full]);
    assert s.order[0] == Filler(0);
    assert added.mediaId !in Elements(s.order) by {
      assert forall i :: 0 <= i < |s.order| ==> |s.order[i]| == i + 2;
    }
    SeenAgainYetForgotten(s, again, FillerPart(0).media, added);
  }

  // --- asking the phone for the original ---

  datatype CacheOp = RecordOp(msg: PhoneMessage) | ClaimOp(key: string)

  ghost function CacheStep(s: CacheState, op: CacheOp): CacheState {
    match op
    case RecordOp(msg) => Record(s, msg)
    case ClaimOp(key) => s.(requested := s.requested + {key})
  }

  function Granted(s: CacheState, key: string): bool {
    key !in s.requested
  }

  ghost function CacheRun(s: CacheState, ops: seq<CacheOp>): CacheState
    decreases |ops|
  {
    if ops == [] then s else CacheRun(CacheStep(s, ops[0]), ops[1..])
  }

  /** Some step of the run drops key from the queue. */
  ghost predicate EvictedDuring(s: CacheState, ops: seq<CacheOp>, key: string)
    decreases |ops|
  {
    ops != [] &&
    ((key in s.order && key !in CacheStep(s, ops[0]).order) || EvictedDuring(CacheStep(s, ops[0]), ops[1..], key))
  }

  /** A mark survives every step that keeps its key queued. */
  lemma StepKeepsMark(s: CacheState, op: CacheOp, key: string)
    requires Valid(s) && key in s.requested && key in CacheStep(s, op).order
    ensures Valid(CacheStep(s, op)) && key in CacheStep(s, op).requested
  {
    if op.RecordOp? {
      RecordKeepsValid(s, op.msg);
      AddPartsEffect(s, op.msg.id, op.msg.parts);
      MarkSurvivesTrim(AddParts(s, op.msg.id, op.msg.parts), key);
    }
  }

  lemma MarkSurvivesTrim(a: CacheState, key: string)
    requires Distinct(a.order) && key in a.requested && key in Trim(a).order
    ensures key in Trim(a).requested
  {
    TrimCutsTheFront(a);
    var n := |a.order| - |Trim(a).order|;
    DistinctSplits(a.order, n);
    assert Trim(a).order == a.order[n..];
    assert key in Elements(a.order[n..]);
  }

  /** Once asked, the phone is not asked again for a known attachment until its key has been evicted. */
  lemma {:induction false} AskedOnceUntilEvicted(s: CacheState, ops: seq<CacheOp>, key: string)
    requires Valid(s) && key in s.order && key in s.requested
    requires !EvictedDuring(s, ops, key)
    ensures !Granted(CacheRun(s, ops), key)
    decreases |ops|
  {
    if ops != [] {
      StepKeepsMark(s, ops[0], key);
      AskedOnceUntilEvicted(CacheStep(s, ops[0]), ops[1..], key);
    }
  }

  /** The trim of this step drops key: from the queue, or of what the step itself had just queued. */
  ghost predicate Drops(s: CacheState, op: CacheOp, key: string) {
    op.RecordOp? && key in AddParts(s, op.msg.id, op.msg.parts).order && key !in Record(s, op.msg).order
  }

  /** A step leaves key marked exactly when it claims it, or it was marked and the step does not drop it. */
  lemma MarkStepIff(s: CacheState, op: CacheOp, key: string)
    requires Valid(s)
    ensures Valid(CacheStep(s, op))
    ensures key in CacheStep(s, op).requested <==> op == ClaimOp(key) || (key in s.requested && !Drops(s, op, key))
  {
    if op.RecordOp? {
      var a := AddParts(s, op.msg.id, op.msg.parts);
      RecordKeepsValid(s, op.msg);
      AddPartsEffect(s, op.msg.id, op.msg.parts);
      TrimUnmarksDropped(a, key);
    }
  }

  lemma TrimUnmarksDropped(a: CacheState, key: string)
    requires Distinct(a.order)
    ensures key in Trim(a).requested <==> key in a.requested && !(key in a.order && key !in Trim(a).order)
  {
    TrimCutsTheFront(a);
    var n := |a.order| - |Trim(a).order|;
    var gone, kept := a.order[..n], a.order[n..];
    DistinctSplits(a.order, n);
    assert a.order == gone + kept && Trim(a).order == kept;
    assert key in gone <==> key in Elements(gone);
    assert key in kept <==> key in Elements(kept);
  }

  /** The last claim of key in the run was not followed by a step that dropped it. */
  ghost predicate ClaimedSince(s: CacheState, ops: seq<CacheOp>, key: string)
    decreases |ops|
  {
    ops != [] &&
    var last := ops[|ops| - 1];
    (last == ClaimOp(key) ||
     (ClaimedSince(s, ops[..|ops| - 1], key) && !Drops(CacheRun(s, ops[..|ops| - 1]), last, key)))
  }

  lemma {:induction false} CacheRunThen(s: CacheState, ops: seq<CacheOp>, op: CacheOp)
    ensures CacheRun(s, ops + [op]) == CacheStep(CacheRun(s, ops), op)
    decreases |ops|
  {
    if ops == [] {
      assert [] + [op] == [op] && [op][1..] == [] && CacheRun(CacheStep(s, op), []) == CacheStep(s, op);
    } else {
      assert (ops + [op])[1..] == ops[1..] + [op];
      CacheRunThen(CacheStep(s, ops[0]), ops[1..], op);
    }
  }

  /** Over any run the phone is asked for an original unless it was since the key was last dropped. */
  lemma {:induction false} AskedUnlessClaimedSince(ops: seq<CacheOp>, key: string)
    ensures Valid(CacheRun(EMPTY_CACHE, ops))
    ensures Granted(CacheRun(EMPTY_CACHE, ops), key) <==> !ClaimedSince(EMPTY_CACHE, ops, key)
    decreases |ops|
  {
    if ops != [] {
      var early, last := ops[..|ops| - 1], ops[|ops| - 1];
      AskedUnlessClaimedSince(early, key);
      assert ops == early + [last];
      CacheRunThen(EMPTY_CACHE, early, last);
      MarkStepIff(CacheRun(EMPTY_CACHE, early), last, key);
    }
  }

  /** Marks stay within the known keys under every record, and under a claim exactly when its key is known. */
  lemma MarksWithinKeys(s: CacheState, op: CacheOp)
    requires Valid(s) && s.requested <= s.secrets.Keys
    ensures CacheStep(s, op).requested <= CacheStep(s, op).secrets.Keys <==> (op.RecordOp? || op.key in s.secrets)
  {
    if op.RecordOp? {
      AddPartsEffect(s, op.msg.id, op.msg.parts);
      var a := AddParts(s, op.msg.id, op.msg.parts);
      TrimCutsTheFront(a);
      assert forall k :: k in s.order ==> a.order[..|s.order|] == s.order && k in a.order;
      assert forall k :: k in s.secrets ==> k in Elements(s.order);
    } else {
      assert op.key in CacheStep(s, op).requested;
    }
  }

  // --- the cache object ---

  class MediaCache {
    var secrets: map<string, Secret>
    const order: Queue<string>
    var requested: set<string>

    ghost predicate Valid()
      reads this, order
    {
      order.Valid()
    }

    ghost function State(): CacheState
      requires Valid()
      reads this, order, order.buf
    {
      CacheState(secrets, order.Contents(), requested)
    }

    constructor ()
      ensures Valid() && fresh(order) && fresh(order.buf) && State() == EMPTY_CACHE
    {
      secrets, requested := map[], {};
      order := new Queue<string>();
    }

    method RecordMessage(msg: PhoneMessage)
      requires Valid()
      modifies this, order, order.buf
      ensures Valid() && (order.buf == old(order.buf) || fresh(order.buf))
      ensures State() == Record(old(State()), msg)
      ensures order.Capacity() <= 4 * MAX_SECRETS
    {
      for i := 0 to |msg.parts|
        invariant Valid() && (order.buf == old(order.buf) || fresh(order.buf))
        invariant State() == AddParts(old(State()), msg.id, msg.parts[..i])
      {
        assert msg.parts[..i + 1][..i] == msg.parts[..i];
        var part := msg.parts[i];
        if part.Media? {
          var key := KeyOf(msg.id, part);
          if key !in secrets {
            order.Append(key);
          }
          secrets := secrets[key := Secret(part.media, msg.id, part.actionId)];
        }
      }
      assert msg.parts[..|msg.parts|] == msg.parts;
      TrimToLimit();
    }

    method ForgetOldest()
      requires Valid() && order.Contents() != []
      modifies this, order
      ensures Valid() && order.buf == old(order.buf)
      ensures State() == DropOldest(old(State()))
    {
      var oldest := order.DropFirst();
      secrets := secrets - {oldest};
      requested := requested - {oldest};
    }

    method TrimToLimit()
      requires Valid()
      modifies this, order
      ensures Valid() && (order.buf == old(order.buf) || fresh(order.buf))
      ensures State() == Trim(old(State()))
      ensures order.Capacity() <= 4 * MAX_SECRETS
    {
      while order.hi - order.lo > MAX_SECRETS
        invariant Valid() && order.buf == old(order.buf)
        invariant Trim(State()) == Trim(old(State()))
        decreases |order.Contents()|
      {
        ForgetOldest();
      }
      order.CompactAbove(4 * MAX_SECRETS);
    }

    method ClaimFullSizeRequest(key: string) returns (granted: bool)
      requires Valid()
      modifies this`requested
      ensures Valid() && granted == Granted(old(State()), key) == (key !in old(requested))
      ensures State() == CacheStep(old(State()), ClaimOp(key))
    {
      if key in requested {
        return false;
      }
      requested := requested + {key};
      granted := true;
    }
  }

  /** Collects the attachments of a converted message; text parts are joined elsewhere. */
  method ConvertAttachments(msg: PhoneMessage) returns (keys: seq<string>)
    ensures keys == PublishedKeys(msg.id, msg.parts)
    ensures forall key :: key in keys ==> key != ""
  {
    keys := [];
    for i := 0 to |msg.parts|
      invariant keys == PublishedKeys(msg.id, msg.parts[..i])
      invariant forall key :: key in keys ==> key != ""
    {
      assert msg.parts[..i + 1][..i] == msg.parts[..i];
      if msg.parts[i].Media? {
        keys := keys + [KeyOf(msg.id, msg.parts[i])];
      }
    }
    assert msg.parts[..|msg.parts|] == msg.parts;
  }
}
