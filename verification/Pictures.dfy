/** Conversation pictures: what the index remembers of them, and which still have their file in the media directory. */
module Pictures {
  import opened Sequences
  import opened ConversationOrder
  import Index = ConversationIndex
  import opened Lifecycle
  import opened SessionFile
  import opened CachePruning

  /** files holds the names of the pictures in the media directory. */
  datatype Gallery = Gallery(daemon: DaemonState, files: set<string>)

  datatype PictureOp =
    | Handle(op: Op)
    | Fetch(id: string, arrives: bool, disk: Disk)
    | TrimTakes(names: set<string>)

  ghost const NO_PICTURES: Gallery := Gallery(NEVER_PAIRED, {})

  /** The identifier stands for the digest that the store hashes it to. */
  function PathFor(id: string): string {
    "avatar-" + id + ".png"
  }

  lemma PathsDiffer(a: string, b: string)
    ensures PathFor(a) == PathFor(b) <==> a == b
  {
    assert PathFor(a)[7..|PathFor(a)| - 4] == a && PathFor(b)[7..|PathFor(b)| - 4] == b;
  }

  /** Claims and landings are part of fetching a picture, never steps of their own. */
  predicate AboutPictures(op: Op) {
    op.Conversations? && (op.op.ClaimAvatar? || op.op.AvatarLanded?)
  }

  /** One attempt per conversation and process; only a picture written whole is remembered. */
  ghost function AfterFetch(g: Gallery, id: string, arrives: bool, disk: Disk): Gallery
    requires KeyedById(g.daemon.index.convs)
  {
    if id in g.daemon.index.tried then g
    else
      var d := g.daemon.(index := Index.Step(g.daemon.index, Index.ClaimAvatar(id)));
      var written := OnDisk(d.session.mediaDir, disk);
      if !arrives || written.Rejects? then Gallery(d, g.files)
      else if written.CutsShort? then Gallery(d, g.files + {PathFor(id)})
      else Gallery(
        d.(index := Index.Step(d.index, Index.AvatarLanded(id, PathFor(id)))), g.files + {PathFor(id)})
  }

  ghost function PictureStep(g: Gallery, op: PictureOp): Gallery
    requires KeyedById(g.daemon.index.convs)
  {
    match op
    case Handle(op) =>
      if AboutPictures(op) then g
      else Gallery(Step(g.daemon, op), if RemovesMedia(op) then {} else g.files)
    case Fetch(id, arrives, disk) => AfterFetch(g, id, arrives, disk)
    case TrimTakes(names) => g.(files := g.files - names)
  }

  ghost function PictureRun(g: Gallery, ops: seq<PictureOp>): (g': Gallery)
    requires KeyedById(g.daemon.index.convs)
    ensures KeyedById(g'.daemon.index.convs)
    decreases |ops|
  {
    if ops == [] then g
    else
      PictureStepKeyed(g, ops[0]);
      PictureRun(PictureStep(g, ops[0]), ops[1..])
  }

  lemma PictureStepKeyed(g: Gallery, op: PictureOp)
    requires KeyedById(g.daemon.index.convs)
    ensures KeyedById(PictureStep(g, op).daemon.index.convs)
  {
    if op.Handle? {
      StepKeepsKeyed(g.daemon, op.op);
    }
  }

  /** A picture remembered was attempted, and is shown on its conversation under its own name. */
  ghost predicate Remembered(s: Index.IndexState) {
    && Index.Valid(s)
    && (forall id :: id in s.avatars ==> id in s.tried && s.avatars[id] == PathFor(id))
  }

  /** Within a process no handler makes the store forget a picture, and a fresh process remembers none. */
  lemma HandlersKeepPictures(s: DaemonState, op: Op)
    requires KeyedById(s.index.convs) && !AboutPictures(op)
    ensures var t := Step(s, op).index;
      if op.Start? then t.avatars == map[] && t.tried == {}
      else t.avatars == s.index.avatars && t.tried == s.index.tried
  {}

  lemma HandlersKeepValid(s: DaemonState, op: Op)
    requires Index.Valid(s.index)
    ensures Index.Valid(Step(s, op).index)
  {
    match op
    case Start(_) => IndexIsTopIds([], map[]);
    case ClientReady(list, _) => Index.StepKeepsValid(s.index, Index.ReplaceAll(list));
    case Conversations(iop) => Index.StepKeepsValid(s.index, iop);
    case Unpair(_) => Index.StepKeepsValid(s.index, Index.Forget);
    case _ =>
  }

  lemma FetchKeepsRemembered(g: Gallery, id: string, arrives: bool, disk: Disk)
    requires Remembered(g.daemon.index)
    ensures Remembered(AfterFetch(g, id, arrives, disk).daemon.index)
  {
    var s := g.daemon.index;
    Index.StepKeepsValid(s, Index.ClaimAvatar(id));
    Index.StepKeepsValid(Index.Step(s, Index.ClaimAvatar(id)), Index.AvatarLanded(id, PathFor(id)));
  }

  /** An attempt is spent whatever comes of it; only what arrives and is written whole is remembered. */
  lemma FetchSpends(g: Gallery, id: string, arrives: bool, disk: Disk)
    requires KeyedById(g.daemon.index.convs)
    ensures var t := AfterFetch(g, id, arrives, disk);
      && t.daemon.index.tried == g.daemon.index.tried + {id}
      && (id in g.daemon.index.tried ==> t == g)
      && (id !in g.daemon.index.tried && arrives && g.daemon.session.mediaDir && disk.Accepts? ==>
          id in t.daemon.index.avatars && t.daemon.index.avatars[id] == PathFor(id) && PathFor(id) in t.files)
      && (!(arrives && g.daemon.session.mediaDir && disk.Accepts?) ==>
          t.daemon.index.avatars == g.daemon.index.avatars && t.daemon.index.convs == g.daemon.index.convs)
      && (!(arrives && g.daemon.session.mediaDir) || disk.Rejects? ==> t.files == g.files)
  {}

  lemma StepKeepsRemembered(g: Gallery, op: PictureOp)
    requires Remembered(g.daemon.index)
    ensures Remembered(PictureStep(g, op).daemon.index)
  {
    match op
    case Handle(op) =>
      if !AboutPictures(op) {
        HandlersKeepPictures(g.daemon, op);
        HandlersKeepValid(g.daemon, op);
      }
    case Fetch(id, arrives, disk) => FetchKeepsRemembered(g, id, arrives, disk);
    case TrimTakes(_) =>
  }

  /** The step deletes the picture of a conversation: it clears the session's media, or a trim takes the file. */
  predicate Deletes(op: PictureOp, id: string) {
    (op.Handle? && RemovesMedia(op.op)) || (op.TrimTakes? && PathFor(id) in op.names)
  }

  predicate Restarts(op: PictureOp) {
    op.Handle? && op.op.Start?
  }

  lemma StepKeepsPicture(g: Gallery, op: PictureOp, id: string)
    requires Remembered(g.daemon.index) && id in g.daemon.index.avatars && !Restarts(op)
    ensures var g' := PictureStep(g, op);
      id in g'.daemon.index.avatars && (PathFor(id) in g'.files <==> PathFor(id) in g.files && !Deletes(op, id))
  {
    match op
    case Handle(op) =>
      if !AboutPictures(op) {
        HandlersKeepPictures(g.daemon, op);
      }
    case Fetch(other, _, _) => PathsDiffer(id, other);
    case TrimTakes(_) =>
  }

  lemma {:induction false} PictureStays(g: Gallery, ops: seq<PictureOp>, id: string)
    requires Remembered(g.daemon.index) && id in g.daemon.index.avatars
    requires forall i :: 0 <= i < |ops| ==> !Restarts(ops[i])
    ensures var g' := PictureRun(g, ops);
      && Remembered(g'.daemon.index) && id in g'.daemon.index.avatars
      && (PathFor(id) in g'.files <==>
          PathFor(id) in g.files && forall i :: 0 <= i < |ops| ==> !Deletes(ops[i], id))
    decreases |ops|
  {
    if ops != [] {
      var rest := ops[1..];
      assert !Restarts(ops[0]) && forall i :: 0 <= i < |rest| ==> rest[i] == ops[i + 1];
      StepKeepsPicture(g, ops[0], id);
      StepKeepsRemembered(g, ops[0]);
      PictureStays(PictureStep(g, ops[0]), rest, id);
      assert (forall i :: 0 <= i < |ops| ==> !Deletes(ops[i], id)) <==>
        !Deletes(ops[0], id) && forall i :: 0 <= i < |rest| ==> !Deletes(rest[i], id);
    }
  }

  lemma {:induction false} RunKeepsRemembered(g: Gallery, ops: seq<PictureOp>)
    requires Remembered(g.daemon.index)
    ensures Remembered(PictureRun(g, ops).daemon.index)
    decreases |ops|
  {
    if ops != [] {
      StepKeepsRemembered(g, ops[0]);
      RunKeepsRemembered(PictureStep(g, ops[0]), ops[1..]);
    }
  }

  lemma Lands(g: Gallery, id: string) returns (landed: Gallery)
    requires Remembered(g.daemon.index) && id !in g.daemon.index.tried && g.daemon.session.mediaDir
    ensures landed == PictureStep(g, Fetch(id, true, Accepts))
    ensures Remembered(landed.daemon.index) && id in landed.daemon.index.avatars && PathFor(id) in landed.files
  {
    landed := PictureStep(g, Fetch(id, true, Accepts));
    FetchKeepsRemembered(g, id, true, Accepts);
  }

  lemma NamesItsFile(s: Index.IndexState, id: string)
    requires Remembered(s) && id in s.avatars
    ensures id in s.tried && (id in s.convs ==> s.convs[id].avatarPath == PathFor(id))
  {}

  /** A picture landed in g, and more happened in the same process. */
  lemma LandedHasFileIff(g: Gallery, id: string, ops: seq<PictureOp>, g': Gallery)
    requires Remembered(g.daemon.index) && id !in g.daemon.index.tried && g.daemon.session.mediaDir
    requires forall i :: 0 <= i < |ops| ==> !Restarts(ops[i])
    requires KeyedById(PictureStep(g, Fetch(id, true, Accepts)).daemon.index.convs)
    requires g' == PictureRun(PictureStep(g, Fetch(id, true, Accepts)), ops)
    ensures StillNamed(g', id)
    ensures PathFor(id) in g'.files <==> forall i :: 0 <= i < |ops| ==> !Deletes(ops[i], id)
  {
    var landed := Lands(g, id);
    PictureStays(landed, ops, id);
    NamesItsFile(g'.daemon.index, id);
  }

  /** No second attempt is made, and the conversation, if known, names the file. */
  ghost predicate StillNamed(g: Gallery, id: string) {
    var s := g.daemon.index;
    id in s.tried && (id in s.convs ==> s.convs[id].avatarPath == PathFor(id))
  }

  lemma {:induction false} PictureRunOn(g: Gallery, early: seq<PictureOp>, late: seq<PictureOp>)
    requires KeyedById(g.daemon.index.convs)
    ensures PictureRun(g, early + late) == PictureRun(PictureRun(g, early), late)
    decreases |early|
  {
    if early == [] {
      assert [] + late == late;
    } else {
      assert (early + late)[1..] == early[1..] + late;
      PictureStepKeyed(g, early[0]);
      PictureRunOn(PictureStep(g, early[0]), early[1..], late);
    }
  }

  /**
   * In any history from a clean machine in which a picture lands and no restart follows: its conversation, if known,
   * still names the file, no second attempt is ever made, and the file is there exactly while no session clear and no
   * trim took it.
   */
  lemma PictureHasFileIff(history: seq<PictureOp>, id: string, ops: seq<PictureOp>)
    requires id !in PictureRun(NO_PICTURES, history).daemon.index.tried
    requires PictureRun(NO_PICTURES, history).daemon.session.mediaDir
    requires forall i :: 0 <= i < |ops| ==> !Restarts(ops[i])
    ensures var g := PictureRun(NO_PICTURES, history + ([Fetch(id, true, Accepts)] + ops));
      StillNamed(g, id) &&
      (PathFor(id) in g.files <==> forall i :: 0 <= i < |ops| ==> !Deletes(ops[i], id))
  {
    var g, op := PictureRun(NO_PICTURES, history), Fetch(id, true, Accepts);
    IndexIsTopIds([], map[]);
    RunKeepsRemembered(NO_PICTURES, history);
    PictureRunOn(NO_PICTURES, history, [op] + ops);
    PictureStepKeyed(g, op);
    assert ([op] + ops)[1..] == ops;
    var g' := PictureRun(g, [op] + ops);
    assert g' == PictureRun(PictureStep(g, op), ops);
    LandedHasFileIff(g, id, ops, g');
  }
}
