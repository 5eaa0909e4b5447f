/** How one attachment becomes a local file: the route its bytes take, and the file name they are cached under. */
module MediaRoutes {
  import opened Sequences
  import opened ConversationOrder
  import opened ByteStrings
  import opened AttachmentCache
  import opened BoundedDownload
  import opened CachePruning
  import Lifecycle
  import SessionFile

  datatype Route = FullSize | Thumbnail | Inline | AskPhone | Refused

  /** stem stands for the digest that the cache hashes it to. */
  datatype FileName = FileName(stem: string, ext: string)

  /** Which route wrote a cached file, for which attachment, and whether all of it was written. */
  datatype Origin = Origin(route: Route, key: string, whole: bool)

  /** A request keeps the routes it looked up when it began, however the cache changes meanwhile. */
  datatype Request = Request(key: string, secret: Secret)

  datatype Store = Store(cache: CacheState, files: map<FileName, Origin>)

  const NOTHING_STORED := Store(EMPTY_CACHE, map[])

  function ExtForMime(mime: string): string {
    if mime == "image/png" then ".png"
    else if mime == "image/gif" then ".gif"
    else if mime == "image/webp" then ".webp"
    else if mime == "image/jpeg" || mime == "image/jpg" then ".jpg"
    else if mime == "video/mp4" then ".mp4"
    else if mime == "audio/mp4" || mime == "audio/aac" then ".m4a"
    else if mime == "audio/mpeg" || mime == "audio/mp3" then ".mp3"
    else if mime == "audio/ogg" then ".ogg"
    else if mime == "audio/amr" then ".amr"
    else if mime == "audio/3gpp" then ".3ga"
    else ".bin"
  }

  /** Which types share an extension, and that every other type gets the one for unknown bytes. */
  lemma ExtensionsIff(mime: string)
    ensures ExtForMime(mime) == ".png" <==> mime == "image/png"
    ensures ExtForMime(mime) == ".gif" <==> mime == "image/gif"
    ensures ExtForMime(mime) == ".webp" <==> mime == "image/webp"
    ensures ExtForMime(mime) == ".jpg" <==> mime in {"image/jpeg", "image/jpg"}
    ensures ExtForMime(mime) == ".mp4" <==> mime == "video/mp4"
    ensures ExtForMime(mime) == ".m4a" <==> mime in {"audio/mp4", "audio/aac"}
    ensures ExtForMime(mime) == ".mp3" <==> mime in {"audio/mpeg", "audio/mp3"}
    ensures ExtForMime(mime) == ".ogg" <==> mime == "audio/ogg"
    ensures ExtForMime(mime) == ".amr" <==> mime == "audio/amr"
    ensures ExtForMime(mime) == ".3ga" <==> mime == "audio/3gpp"
    ensures ExtForMime(mime) in {
      ".png", ".gif", ".webp", ".jpg", ".mp4", ".m4a", ".mp3", ".ogg", ".amr", ".3ga", ".bin"}
  {}

  /** The full-size original first, then a thumbnail, and only then the bytes inlined in the message. */
  function RouteFor(c: MediaContent): Route {
    if c.size > MAX_DOWNLOAD_BYTES then Refused
    else if c.mediaId != "" then FullSize
    else if c.thumbId != "" then Thumbnail
    else if c.inline != [] then (if |c.inline| > MAX_DOWNLOAD_BYTES then Refused else Inline)
    else AskPhone
  }

  function HasFull(r: Request): bool {
    r.secret.content.mediaId != ""
  }

  /** Originals and stand-ins are cached under different names. */
  function Destination(r: Request): FileName {
    FileName(if HasFull(r) then r.key else r.key + "#thumb", ExtForMime(r.secret.content.mimeType))
  }

  /** Full-size requests carry the message and part they are about, and go out once per key. */
  function AfterAsking(cache: CacheState, r: Request): CacheState {
    if r.secret.partId == "" || r.secret.messageId == "" then cache
    else cache.(requested := cache.requested + {r.key})
  }

  /** Whether the route of a request ends in bytes to write. */
  function Arrives(r: Request, delivered: bool): bool {
    match RouteFor(r.secret.content)
    case FullSize => delivered
    case Thumbnail => delivered
    case Inline => true
    case AskPhone => false
    case Refused => false
  }

  /** Opening creates the file or empties it, so that it is not whole until all of it is written. */
  function Opened(s: Store, r: Request): Store {
    s.(files := s.files[Destination(r) := Origin(RouteFor(r.secret.content), r.key, false)])
  }

  /** The writing ends, unless the file was removed under it; after a stand-in the original is asked for. */
  function Closed(s: Store, r: Request, whole: bool): Store {
    var dest := Destination(r);
    s.(files := if dest in s.files then s.files[dest := s.files[dest].(whole := whole)] else s.files,
       cache := if whole && !RouteFor(r.secret.content).FullSize? then AfterAsking(s.cache, r) else s.cache)
  }

  /** What a call that found nothing and is alone with its key does, from its route to the end. */
  function Finished(s: Store, r: Request, delivered: bool, disk: Disk): Store {
    if RouteFor(r.secret.content).AskPhone? then s.(cache := AfterAsking(s.cache, r))
    else if !Arrives(r, delivered) || disk.Rejects? then s
    else Closed(Opened(s, r), r, disk.Accepts?)
  }

  // --- originals and stand-ins never meet ---

  predicate StandInKey(key: string) {
    "part:" <= key || "msg:" <= key
  }

  /** The stem under which a stand-in of an attachment without media id is cached. */
  ghost predicate StandInStem(stem: string) {
    exists key :: StandInKey(key) && stem == key + "#thumb"
  }

  /** What a key says about its routes: an attachment with a media id is filed under that id. */
  ghost predicate KeyFits(r: Request) {
    if HasFull(r) then r.key == r.secret.content.mediaId && !StandInStem(r.key) else StandInKey(r.key)
  }

  /** Media ids of a message that cannot be mistaken for the name of a cached stand-in. */
  ghost predicate ProperIds(parts: seq<Part>) {
    forall i :: 0 <= i < |parts| && parts[i].Media? ==> !StandInStem(parts[i].media.mediaId)
  }

  ghost predicate SecretsFit(secrets: map<string, Secret>) {
    forall k :: k in secrets ==> KeyFits(Request(k, secrets[k]))
  }

  /** Where a file came from shows in its name. */
  ghost predicate FilesFit(files: map<FileName, Origin>) {
    forall f :: f in files ==>
      if StandInStem(f.stem) then !files[f].route.FullSize? && f.stem == files[f].key + "#thumb"
      else files[f].route.FullSize? && f.stem == files[f].key
  }

  lemma FiledKeyFits(messageId: string, part: Part)
    requires part.Media? && !StandInStem(part.media.mediaId)
    ensures KeyFits(Request(KeyOf(messageId, part), Secret(part.media, messageId, part.actionId)))
  {
    assert "part:" <= "part:" + part.actionId && "msg:" <= "msg:" + messageId;
  }

  lemma {:induction false} AddPartsFit(s: CacheState, messageId: string, parts: seq<Part>)
    requires ProperIds(parts) && SecretsFit(s.secrets)
    ensures SecretsFit(AddParts(s, messageId, parts).secrets)
  {
    if parts != [] {
      var part := parts[|parts| - 1];
      var b, a := AddParts(s, messageId, parts[..|parts| - 1]), AddParts(s, messageId, parts);
      AddPartsFit(s, messageId, parts[..|parts| - 1]);
      assert SecretsFit(b.secrets);
      if part.Media? {
        FiledKeyFits(messageId, part);
        assert a.secrets == b.secrets[KeyOf(messageId, part) := Secret(part.media, messageId, part.actionId)];
      }
    }
  }

  /** A destination tells the key of the request and whether it is for the original. */
  lemma DestinationTellsKey(r: Request, other: Request)
    requires KeyFits(r) && KeyFits(other) && Destination(r) == Destination(other)
    ensures r.key == other.key && (HasFull(r) <==> HasFull(other))
  {
    if !HasFull(r) {
      assert StandInStem(r.key + "#thumb");
    }
    if !HasFull(other) {
      assert StandInStem(other.key + "#thumb");
    }
    if !HasFull(r) && !HasFull(other) {
      SuffixCancels(r.key, other.key, "#thumb");
    }
  }

  lemma RecordedKeysFit(cache: CacheState, msg: PhoneMessage)
    requires SecretsFit(cache.secrets) && ProperIds(msg.parts)
    ensures SecretsFit(Record(cache, msg).secrets)
  {
    AddPartsFit(cache, msg.id, msg.parts);
    var a, c := AddParts(cache, msg.id, msg.parts), Record(cache, msg);
    TrimCutsTheFront(a);
    assert forall k :: k in c.secrets ==> k in a.secrets && c.secrets[k] == a.secrets[k];
  }

  lemma OpeningKeepsFilesFit(s: Store, r: Request)
    requires FilesFit(s.files) && KeyFits(r) && Arrives(r, true)
    ensures FilesFit(Opened(s, r).files)
  {
    if !HasFull(r) {
      assert StandInStem(r.key + "#thumb");
    }
  }

  /** A file at a request's destination is for that attachment, and the original exactly if that was requested. */
  lemma FoundFileIsTheRequests(files: map<FileName, Origin>, r: Request)
    requires FilesFit(files) && KeyFits(r) && Destination(r) in files
    ensures files[Destination(r)].key == r.key && (files[Destination(r)].route.FullSize? <==> HasFull(r))
  {
    if !HasFull(r) {
      assert StandInStem(r.key + "#thumb");
      SuffixCancels(files[Destination(r)].key, r.key, "#thumb");
    }
  }

  lemma SuffixCancels(a: string, b: string, suffix: string)
    requires a + suffix == b + suffix
    ensures a == b
  {
    assert |a| == |b|;
    assert (a + suffix)[..|a|] == a && (b + suffix)[..|b|] == b;
  }

  /** An original and a stand-in share a name exactly when the media id spells the stand-in's name. */
  lemma NamesMeetIff(full: Request, standIn: Request)
    requires HasFull(full) && full.key == full.secret.content.mediaId
    requires !HasFull(standIn) && StandInKey(standIn.key)
    requires ExtForMime(full.secret.content.mimeType) == ExtForMime(standIn.secret.content.mimeType)
    ensures Destination(full) == Destination(standIn) <==> full.secret.content.mediaId == standIn.key + "#thumb"
    ensures Destination(full) == Destination(standIn) ==> StandInStem(full.secret.content.mediaId)
  {}

  predicate WholeAt(files: map<FileName, Origin>, name: FileName) {
    name in files && files[name].whole
  }

  // --- the media directory comes and goes with the session ---

  /**
   * Within one process, an attachment whose bytes arrive can be written exactly while no session clear has
   * removed the media directory: nothing but a restart creates it again.
   */
  lemma DownloadWrittenIff(
      earlier: Lifecycle.DaemonState, connectError: Option<string>, ops: seq<Lifecycle.Op>, s: Store, r: Request)
    requires KeyedById(earlier.index.convs) && SessionFile.NoRestart(ops)
    requires Arrives(r, true) && Destination(r) !in s.files
    ensures var d := Lifecycle.Run(Lifecycle.Step(earlier, Lifecycle.Start(connectError)), ops);
      WholeAt(Finished(s, r, true, OnDisk(d.session.mediaDir, Accepts)).files, Destination(r)) <==>
      SessionFile.KeepsMedia(ops)
  {
    Lifecycle.StepOfParts(earlier, Lifecycle.Start(connectError));
    SessionFile.MediaDirStaysIff(Lifecycle.Step(earlier, Lifecycle.Start(connectError)), ops);
  }

  /** Paired again after an unpair in the same process, the daemon is connected and can cache nothing. */
  lemma PairedAgainWithoutCache(d: Lifecycle.DaemonState, s: Store, r: Request, delivered: bool, disk: Disk)
    requires KeyedById(d.index.convs)
    ensures var after := Lifecycle.Step(
        Lifecycle.Step(d, Lifecycle.Unpair(Lifecycle.AllCleared)), Lifecycle.PairSuccessful(true));
      && after.session.paired && after.session.file == Some(d.session.auth) && after.status.state.Connected?
      && Finished(s, r, delivered, OnDisk(after.session.mediaDir, disk)).files == s.files
  {
    Lifecycle.StepOfParts(d, Lifecycle.Unpair(Lifecycle.AllCleared));
    Lifecycle.StepOfParts(
      Lifecycle.Step(d, Lifecycle.Unpair(Lifecycle.AllCleared)), Lifecycle.PairSuccessful(true));
  }

  // --- serving one request ---

  datatype Reply = Failed | Ready(key: string, name: FileName, thumbnail: bool) | Pending(key: string)

  /** The answer from a file that is there: a stand-in is marked as one, on a hit as after a download. */
  function Found(r: Request): Reply {
    Ready(r.key, Destination(r), !HasFull(r))
  }

  /** Another call may have the key: this one then gives up, or wakes to the files as they are by then. */
  datatype Turn = Free | GaveUp | Waited(files: map<FileName, Origin>)

  /** Bytes to write, by what the message says: inlined ones are used only where there is nothing to download. */
  predicate HasBytes(c: MediaContent, delivered: bool) {
    c.size <= MAX_DOWNLOAD_BYTES &&
    if c.mediaId != "" || c.thumbId != "" then delivered else 0 < |c.inline| <= MAX_DOWNLOAD_BYTES
  }

  /** The route of a file is the first one the message offers. */
  predicate RouteTold(route: Route, c: MediaContent) {
    && (route.FullSize? <==> c.mediaId != "")
    && (route.Thumbnail? <==> c.mediaId == "" && c.thumbId != "")
    && (route.Inline? <==> c.mediaId == "" && c.thumbId == "" && c.inline != [])
    && c.size <= MAX_DOWNLOAD_BYTES
  }

  /** Answer and file after a download, in terms of what the message says of the attachment. */
  ghost predicate Served(r: Request, reply: Reply, delivered: bool, disk: Disk, after: Store) {
    var c := r.secret.content;
    && (reply.Ready? <==> HasBytes(c, delivered) && disk.Accepts?)
    && (reply.Pending? <==>
        c.size <= MAX_DOWNLOAD_BYTES && c.mediaId == "" && c.thumbId == "" && c.inline == [])
    && (Destination(r) in after.files <==> HasBytes(c, delivered) && !disk.Rejects?)
    && (Destination(r) in after.files ==>
        RouteTold(after.files[Destination(r)].route, c) && after.files[Destination(r)].key == r.key &&
        (after.files[Destination(r)].whole <==> disk.Accepts?))
  }

  /** The same of the values: what one download leaves of a file that was not there, and what it asks of the phone. */
  lemma FinishedServes(s: Store, r: Request, delivered: bool, disk: Disk)
    requires Destination(r) !in s.files
    ensures var c, t := r.secret.content, Finished(s, r, delivered, disk);
      && Served(r, AnswerOf(r, delivered, disk), delivered, disk, t)
      && t.files - {Destination(r)} == s.files
      && t.cache == s.cache.(requested := t.cache.requested)
      && t.cache.requested == s.cache.requested + (
        if r.secret.partId != "" && r.secret.messageId != "" && c.mediaId == "" && c.size <= MAX_DOWNLOAD_BYTES &&
           (if c.thumbId == "" && c.inline == [] then true else HasBytes(c, delivered) && disk.Accepts?)
        then {r.key} else {})
  {}

  /** What a call that has the key to itself answers. */
  function AnswerOf(r: Request, delivered: bool, disk: Disk): Reply {
    if RouteFor(r.secret.content).AskPhone? then Pending(r.key)
    else if Arrives(r, delivered) && disk.Accepts? then Found(r)
    else Failed
  }

  class MediaStore {
    const cache: MediaCache
    var files: map<FileName, Origin>

    ghost predicate Valid()
      reads this, cache, cache.order
    {
      cache.Valid()
    }

    ghost function State(): Store
      requires Valid()
      reads this, cache, cache.order, cache.order.buf
    {
      Store(cache.State(), files)
    }

    constructor ()
      ensures Valid() && fresh(cache) && fresh(cache.order) && fresh(cache.order.buf) && State() == NOTHING_STORED
    {
      cache := new MediaCache();
      files := map[];
    }

    /**
     * Serves a request: connected is whether there is a live client, turn whether another call has the key, delivered
     * whether the download worked out, disk what becomes of the write. A cached file answers at once; a call that
     * waited looks once more; otherwise the route decides.
     */
    method Media(key: string, legacyId: string, connected: bool, turn: Turn, delivered: bool, disk: Disk)
      returns (reply: Reply)
      requires Valid()
      modifies this, cache`requested
      ensures Valid()
      ensures var k := if key == "" then legacyId else key;
        if k == "" || k !in old(cache.secrets) then reply.Failed? && State() == old(State())
        else
          var r := Request(k, old(cache.secrets)[k]);
          var c := r.secret.content;
          && (reply.Ready? ==> reply == Ready(k, Destination(r), c.mediaId == ""))
          && if Destination(r) in old(files) then reply.Ready? && State() == old(State())
          else if !connected || turn.GaveUp? then reply.Failed? && State() == old(State())
          else if turn.Waited? then
            && State() == old(State()).(files := turn.files)
            && (reply.Ready? <==> Destination(r) in turn.files) && !reply.Pending?
          else State() == Finished(old(State()), r, delivered, disk) && Served(r, reply, delivered, disk, State())
    {
      var k := if key == "" then legacyId else key;
      if k == "" || k !in cache.secrets {
        return Failed;
      }
      var r := Request(k, cache.secrets[k]);
      if Destination(r) in files {
        return Found(r);
      }
      if !connected || turn.GaveUp? {
        return Failed;
      }
      if turn.Waited? {
        files := turn.files;
        return if Destination(r) in files then Found(r) else Failed;
      }
      reply := Download(r, delivered, disk);
    }

    method Download(r: Request, delivered: bool, disk: Disk) returns (reply: Reply)
      requires Valid()
      modifies this, cache`requested
      requires Destination(r) !in files
      ensures Valid() && State() == Finished(old(State()), r, delivered, disk)
      ensures Served(r, reply, delivered, disk, State())
      ensures reply.Ready? ==> reply == Found(r)
    {
      if r.secret.content.size > MAX_DOWNLOAD_BYTES {
        return Failed;
      }
      var isThumb := false;
      var route;
      if r.secret.content.mediaId != "" {
        if !delivered {
          return Failed;
        }
        route := FullSize;
      } else if r.secret.content.thumbId != "" {
        if !delivered {
          return Failed;
        }
        route, isThumb := Thumbnail, true;
      } else if r.secret.content.inline != [] {
        if |r.secret.content.inline| > MAX_DOWNLOAD_BYTES {
          return Failed;
        }
        route, isThumb := Inline, true;
      } else {
        RequestFullSize(r);
        return Pending(r.key);
      }
      if disk.Rejects? {
        return Failed;
      }
      files := files[Destination(r) := Origin(route, r.key, disk.Accepts?)];
      if disk.CutsShort? {
        return Failed;
      }
      if isThumb {
        RequestFullSize(r);
      }
      reply := Ready(r.key, Destination(r), isThumb);
    }

    method RequestFullSize(r: Request)
      requires Valid()
      modifies cache`requested
      ensures Valid() && cache.State() == AfterAsking(old(cache.State()), r)
    {
      if r.secret.partId == "" || r.secret.messageId == "" {
        return;
      }
      var granted := cache.ClaimFullSizeRequest(r.key);
    }
  }

  // --- the trim a download triggers ---

  /** A file just written is newer than everything else that counts. */
  ghost predicate NewestYet(dir: Directory, now: int) {
    forall name :: name in dir && Counts(dir[name]) ==> dir[name].modified < now
  }

  /** A downloaded file outlives the trim it triggers exactly when it fits beside the files that cannot be removed. */
  lemma DownloadSurvivesIff(
      dir: Directory, name: string, body: Bytes, now: int, after: Directory, stuck: set<string>)
    requires NewestYet(dir, now) && name !in stuck
    requires NewestKept(Counted(Written(dir, name, |body|, now), AnyName), after, MAX_CACHE_BYTES, stuck)
    ensures name in after <==>
      TotalBytes(Immovable(Counted(Written(dir, name, |body|, now), AnyName), stuck)) + |body| <= MAX_CACHE_BYTES
  {
    assert StrictlyNewest(Counted(Written(dir, name, |body|, now), AnyName), name);
  }

  /** When no removal fails, every body that a bounded download accepts is still there after the trim. */
  lemma DownloadSurvivesItsTrim(dir: Directory, name: string, body: Bytes, now: int, after: Directory)
    requires NewestYet(dir, now) && |body| <= MAX_DOWNLOAD_BYTES
    requires NewestKept(Counted(Written(dir, name, |body|, now), AnyName), after, MAX_CACHE_BYTES, {})
    ensures name in after
  {
    DownloadSurvivesIff(dir, name, body, now, after, {});
    assert Immovable(Counted(Written(dir, name, |body|, now), AnyName), {}) == map[];
  }

  /** What a download came to; the decoder is the foreign decryption of a whole body. */
  function Plain(body: Bytes, decode: Bytes -> Option<Bytes>): Option<Bytes> {
    match decode(body)
    case Some(plain) => if |plain| > MAX_DOWNLOAD_BYTES then None else Some(plain)
    case None => None
  }

  /** What of a body of untrusted length is kept: nothing unless both it and what it decodes to fit. */
  ghost function Fetched(body: Bytes, declared: int, broken: bool, decode: Bytes -> Option<Bytes>): Option<Bytes> {
    if declared > MAX_DOWNLOAD_BYTES || |body| > MAX_DOWNLOAD_BYTES || broken then None else Plain(body, decode)
  }

  /** Reads and decodes a body. */
  method Fetch(body: Reader, declared: int, decode: Bytes -> Option<Bytes>) returns (plain: Option<Bytes>)
    modifies body
    ensures plain == Fetched(old(body.Remaining()), declared, body.broken, decode)
    ensures plain.Some? ==> plain == decode(old(body.Remaining())) && |plain.value| <= MAX_DOWNLOAD_BYTES
    ensures plain.Some? <==>
      declared <= MAX_DOWNLOAD_BYTES && |old(body.Remaining())| <= MAX_DOWNLOAD_BYTES && !body.broken &&
      decode(old(body.Remaining())).Some? && |decode(old(body.Remaining())).value| <= MAX_DOWNLOAD_BYTES
  {
    var r := ReadBoundedTo(MAX_DOWNLOAD_BYTES, declared, body);
    if !r.Body? {
      return None;
    }
    plain := decode(r.data);
    if plain.Some? && |plain.value| > MAX_DOWNLOAD_BYTES {
      plain := None;
    }
  }

  /** The file of a fresh write outlives the trim: it is not tried, cannot be removed, or fits beside what cannot. */
  ghost predicate Outlives(dir: Directory, name: string, size: nat, faults: TrimFaults) {
    !faults.mediaReadable || name in faults.mediaStuck ||
    TotalBytes(Immovable(Counted(dir, AnyName), faults.mediaStuck)) + size <= MAX_CACHE_BYTES
  }

  lemma FreshFileAfterTrim(dir: Directory, name: string, body: Bytes, now: int, after: Directory,
                           faults: TrimFaults, freed: int, failed: bool)
    requires NewestYet(dir, now) && |body| <= MAX_DOWNLOAD_BYTES
    requires Pruned(
      Written(dir, name, |body|, now), after, ListingOf(true, faults.mediaReadable), AnyName, MAX_CACHE_BYTES,
      faults.mediaStuck, freed, failed)
    ensures name in after <==> Outlives(Written(dir, name, |body|, now), name, |body|, faults)
    ensures name in after ==> after[name] == Written(dir, name, |body|, now)[name]
    ensures faults.mediaReadable && faults.mediaStuck == {} ==>
      name in after && TotalBytes(Counted(after, AnyName)) <= MAX_CACHE_BYTES
  {
    var kept := Written(dir, name, |body|, now);
    if faults.mediaReadable {
      assert StrictlyNewest(Counted(kept, AnyName), name);
      assert name in after <==> name in Counted(after, AnyName);
      if faults.mediaStuck == {} {
        DownloadSurvivesItsTrim(dir, name, body, now, Counted(after, AnyName));
      }
    }
  }

  /** From the response to the trimmed cache. A failed write trims nothing; a fresh file may be trimmed at once. */
  method DownloadToCache(
      body: Reader, declared: int, decode: Bytes -> Option<Bytes>, media: CacheDirectory, captures: CacheDirectory,
      name: string, now: int, disk: Disk, faults: TrimFaults)
    returns (written: bool)
    requires media != captures && media.Valid() && captures.Valid() && NewestYet(media.entries, now)
    modifies body, media`entries, captures`entries
    ensures media.Valid() && captures.Valid()
    ensures written <==>
      declared <= MAX_DOWNLOAD_BYTES && |old(body.Remaining())| <= MAX_DOWNLOAD_BYTES && !body.broken &&
      decode(old(body.Remaining())).Some? && |decode(old(body.Remaining())).value| <= MAX_DOWNLOAD_BYTES &&
      media.present && disk.Accepts?
    ensures name in media.entries && written ==>
      media.entries[name] == Entry(false, true, |decode(old(body.Remaining())).value|, now)
    ensures var plain := Fetched(old(body.Remaining()), declared, body.broken, decode);
      && (written <==> plain.Some? && OnDisk(media.present, disk).Accepts?)
      && (written ==>
        var kept := Written(old(media.entries), name, |plain.value|, now);
        && (name in media.entries <==> Outlives(kept, name, |plain.value|, faults))
        && (name in media.entries ==> media.entries[name] == kept[name]))
      && (written || captures.entries == old(captures.entries))
      && (written || media.entries ==
        if plain.None? then old(media.entries)
        else AfterWrite(old(media.entries), name, |plain.value|, now, OnDisk(media.present, disk)))
    ensures written && faults.mediaReadable && faults.mediaStuck == {} ==>
      name in media.entries && TotalBytes(Counted(media.entries, AnyName)) <= MAX_CACHE_BYTES
  {
    var plain := Fetch(body, declared, decode);
    if plain.None? {
      return false;
    }
    written := media.Write(name, |plain.value|, now, disk);
    if !written {
      return;
    }
    ghost var before := media.entries;
    var freed, failed := PruneCaches(media, captures, faults);
    ghost var mediaFreed, mediaFailed :| Pruned(
      before, media.entries, ListingOf(true, faults.mediaReadable), AnyName, MAX_CACHE_BYTES, faults.mediaStuck,
      mediaFreed, mediaFailed);
    FreshFileAfterTrim(
      old(media.entries), name, plain.value, now, media.entries, faults, mediaFreed, mediaFailed);
  }
}
