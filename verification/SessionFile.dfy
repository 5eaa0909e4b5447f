/** What becomes of the session file and the media directory over whole runs, restarts included. */
module SessionFile {
  import opened Sequences
  import opened ConversationOrder
  import opened Lifecycle

  predicate Pairs(op: Op) {
    op.PairSuccessful?
  }

  ghost predicate NeverPairs(ops: seq<Op>) {
    forall i :: 0 <= i < |ops| ==> !Pairs(ops[i])
  }

  /** No logout of the run failed to remove the session file. */
  ghost predicate LogoutsRemoveFile(ops: seq<Op>) {
    forall i :: 0 <= i < |ops| && ops[i].LoggedOut? ==> !ops[i].cleared.FileKept?
  }

  ghost predicate NoRestart(ops: seq<Op>) {
    forall i :: 0 <= i < |ops| ==> !ops[i].Start?
  }

  function SessionRun(x: Session, ops: seq<Op>): Session
    decreases |ops|
  {
    if ops == [] then x else SessionRun(SessionStep(x, ops[0]), ops[1..])
  }

  lemma {:induction false} RunIsSessionRun(s: DaemonState, ops: seq<Op>)
    requires KeyedById(s.index.convs)
    ensures Run(s, ops).session == SessionRun(s.session, ops)
    decreases |ops|
  {
    if ops != [] {
      StepOfParts(s, ops[0]);
      RunIsSessionRun(Step(s, ops[0]), ops[1..]);
    }
  }

  lemma {:induction false} NoFileWithoutPairing(x: Session, ops: seq<Op>)
    requires !x.paired && x.file.None? && NeverPairs(ops)
    ensures !SessionRun(x, ops).paired && SessionRun(x, ops).file.None?
    decreases |ops|
  {
    if ops != [] {
      assert !Pairs(ops[0]) && forall i :: 0 <= i < |ops[1..]| ==> ops[1..][i] == ops[i + 1];
      NoFileWithoutPairing(SessionStep(x, ops[0]), ops[1..]);
    }
  }

  /** Unpaired and without a file, only a completed pairing can bring one. */
  lemma UnpairedStaysWithoutFile(s: DaemonState, ops: seq<Op>)
    requires KeyedById(s.index.convs) && !s.session.paired && s.session.file.None? && NeverPairs(ops)
    ensures !Run(s, ops).session.paired && Run(s, ops).session.file.None?
  {
    RunIsSessionRun(s, ops);
    NoFileWithoutPairing(s.session, ops);
  }

  /** A session file exists only after some pairing completed. */
  lemma FileNeedsPairing(ops: seq<Op>)
    ensures Run(NEVER_PAIRED, ops).session.file.Some? ==> exists i :: 0 <= i < |ops| && Pairs(ops[i])
  {
    if NeverPairs(ops) {
      UnpairedStaysWithoutFile(NEVER_PAIRED, ops);
    }
  }

  /** After a logout that removed the file, it stays away until the next completed pairing, whatever happens. */
  lemma LogoutStaysOut(s: DaemonState, cleared: Cleared, ops: seq<Op>)
    requires KeyedById(s.index.convs) && !cleared.FileKept? && NeverPairs(ops)
    ensures Run(Step(s, LoggedOut(cleared)), ops).session.file.None?
  {
    UnpairedStaysWithoutFile(Step(s, LoggedOut(cleared)), ops);
  }

  predicate FileGoesWithPaired(x: Session) {
    x.file.Some? && IsPaired(x.file.value) ==> x.paired
  }

  lemma {:induction false} FileImpliesPairedFrom(x: Session, ops: seq<Op>)
    requires LogoutsRemoveFile(ops) && FileGoesWithPaired(x)
    ensures FileGoesWithPaired(SessionRun(x, ops))
    ensures NoRestart(ops) && (x.file.Some? ==> x.paired) ==>
      (SessionRun(x, ops).file.Some? ==> SessionRun(x, ops).paired)
    decreases |ops|
  {
    if ops != [] {
      assert forall i :: 0 <= i < |ops[1..]| ==> ops[1..][i] == ops[i + 1];
      assert ops[0].LoggedOut? ==> !ops[0].cleared.FileKept?;
      assert NoRestart(ops) ==> !ops[0].Start?;
      FileImpliesPairedFrom(SessionStep(x, ops[0]), ops[1..]);
    }
  }

  /** A usable session file implies paired, across restarts; within one process any session file does. */
  lemma FileImpliesPaired(ops: seq<Op>)
    requires LogoutsRemoveFile(ops)
    ensures var s := Run(NEVER_PAIRED, ops);
      && (s.session.file.Some? && IsPaired(s.session.file.value) ==> s.session.paired)
      && (NoRestart(ops) && s.session.file.Some? ==> s.session.paired)
  {
    RunIsSessionRun(NEVER_PAIRED, ops);
    FileImpliesPairedFrom(NEVER_PAIRED.session, ops);
  }

  /** Whether a session with a file only while paired stays one: which steps break it, and when. */
  lemma FileImpliesPairedStepIff(s: DaemonState, op: Op)
    requires KeyedById(s.index.convs) && (s.session.file.Some? ==> s.session.paired)
    ensures var t := Step(s, op);
      (t.session.file.Some? ==> t.session.paired) <==>
      !(op.LoggedOut? && op.cleared.FileKept? && s.session.file.Some?) &&
      !(op.Start? && s.session.file.Some? && !IsPaired(s.session.file.value))
  {
    StepOfParts(s, op);
  }

  /** After a logout the file stays away until the next pairing unless there was one and its removal failed. */
  lemma LogoutStaysOutIff(s: DaemonState, cleared: Cleared)
    requires KeyedById(s.index.convs)
    ensures !(cleared.FileKept? && s.session.file.Some?) <==>
      forall ops :: NeverPairs(ops) ==> Run(Step(s, LoggedOut(cleared)), ops).session.file.None?
  {
    var t := Step(s, LoggedOut(cleared));
    StepOfParts(s, LoggedOut(cleared));
    if t.session.file.None? {
      forall ops | NeverPairs(ops) ensures Run(t, ops).session.file.None? {
        UnpairedStaysWithoutFile(t, ops);
      }
    } else {
      assert NeverPairs([]) && Run(t, []) == t;
    }
  }

  /** A logout whose file removal failed is undone by the next start exactly when the kept file is usable. */
  lemma FailedLogoutComesBackIff(s: DaemonState, cleared: Cleared, connectError: Option<string>)
    requires KeyedById(s.index.convs)
    ensures Run(s, [LoggedOut(cleared), Start(connectError)]).session.paired <==>
      cleared.FileKept? && s.session.file.Some? && IsPaired(s.session.file.value)
  {
    RunIsSessionRun(s, [LoggedOut(cleared), Start(connectError)]);
    TwoSessionSteps(s.session, LoggedOut(cleared), Start(connectError));
  }

  lemma TwoSessionSteps(x: Session, a: Op, b: Op)
    ensures SessionRun(x, [a, b]) == SessionStep(SessionStep(x, a), b)
  {
    assert [a, b][1..] == [b] && [b][1..] == [];
    var y := SessionStep(x, a);
    assert SessionRun(y, [b]) == SessionRun(SessionStep(y, b), []);
  }

  /** After an unpair the file stays away until the next pairing unless it was paired, or a removal failed. */
  lemma UnpairStaysGoneIff(s: DaemonState, cleared: Cleared)
    requires KeyedById(s.index.convs)
    ensures !s.session.paired && !(cleared.FileKept? && s.session.file.Some?) <==>
      forall ops :: NeverPairs(ops) ==> Run(Step(s, Unpair(cleared)), ops).session.file.None?
  {
    var t := Step(s, Unpair(cleared));
    StepOfParts(s, Unpair(cleared));
    if cleared.FileKept? && s.session.file.Some? {
      assert NeverPairs([]) && Run(t, []) == t;
    } else if !s.session.paired {
      forall ops | NeverPairs(ops) ensures Run(t, ops).session.file.None? {
        UnpairedStaysWithoutFile(t, ops);
      }
    } else {
      assert [Save(Stopping, true)][1..] == [];
      assert Run(t, [Save(Stopping, true)]) == Run(Step(t, Save(Stopping, true)), []);
      assert NeverPairs([Save(Stopping, true)]);
    }
  }

  lemma ThreeSessionSteps(x: Session, a: Op, b: Op, c: Op)
    ensures SessionRun(x, [a, b, c]) == SessionStep(SessionStep(SessionStep(x, a), b), c)
  {
    assert [a, b, c][1..] == [b, c] && [b, c][1..] == [c] && [c][1..] == [];
    var y := SessionStep(SessionStep(x, a), b);
    assert SessionRun(y, [c]) == SessionRun(SessionStep(y, c), []);
  }

  /** From any completed pairing: unpair, save for whatever reason, start again, and it is paired as before. */
  lemma UnpairedDeviceComesBack(s: DaemonState, cleared: Cleared, reason: SaveReason, connectError: Option<string>)
    requires KeyedById(s.index.convs) && s.session.paired && IsPaired(s.session.auth) && !cleared.FileKept?
    ensures Step(s, Unpair(cleared)).session.file.None?
    ensures var t := Run(s, [Unpair(cleared), Save(reason, true), Start(connectError)]);
      t.session.paired && t.session.file == Some(s.session.auth)
  {
    StepOfParts(s, Unpair(cleared));
    RunIsSessionRun(s, [Unpair(cleared), Save(reason, true), Start(connectError)]);
    ThreeSessionSteps(s.session, Unpair(cleared), Save(reason, true), Start(connectError));
  }

  // --- media directory ---

  /** A session clear that went through removes the media directory with everything in it. */
  predicate RemovesMedia(op: Op) {
    (op.LoggedOut? || op.Unpair?) && op.cleared.AllCleared?
  }

  ghost predicate KeepsMedia(ops: seq<Op>) {
    forall i :: 0 <= i < |ops| ==> !RemovesMedia(ops[i])
  }

  lemma {:induction false} MediaDirFrom(x: Session, ops: seq<Op>)
    requires NoRestart(ops)
    ensures SessionRun(x, ops).mediaDir <==> x.mediaDir && KeepsMedia(ops)
    decreases |ops|
  {
    if ops != [] {
      assert ops == [ops[0]] + ops[1..];
      assert KeepsMedia(ops) <==> !RemovesMedia(ops[0]) && KeepsMedia(ops[1..]);
      MediaDirFrom(SessionStep(x, ops[0]), ops[1..]);
    }
  }

  /** Within one process the media directory is there exactly while no session clear has removed it. */
  lemma MediaDirStaysIff(s: DaemonState, ops: seq<Op>)
    requires KeyedById(s.index.convs) && NoRestart(ops)
    ensures Run(s, ops).session.mediaDir <==> s.session.mediaDir && KeepsMedia(ops)
  {
    RunIsSessionRun(s, ops);
    MediaDirFrom(s.session, ops);
  }

  // --- pairings completed ---

  lemma {:induction false} GenerationFrom(x: Session, ops: seq<Op>)
    requires NoRestart(ops)
    ensures SessionRun(x, ops).generation >= x.generation
    ensures SessionRun(x, ops).generation == x.generation <==> NeverPairs(ops)
    decreases |ops|
  {
    if ops != [] {
      assert ops == [ops[0]] + ops[1..];
      assert NeverPairs(ops) <==> !Pairs(ops[0]) && NeverPairs(ops[1..]);
      GenerationFrom(SessionStep(x, ops[0]), ops[1..]);
    }
  }

  /** Within one process the pairing generation moves exactly when some pairing completed. */
  lemma GenerationMovesIffPaired(s: DaemonState, ops: seq<Op>)
    requires KeyedById(s.index.convs) && NoRestart(ops)
    ensures Run(s, ops).session.generation >= s.session.generation
    ensures Run(s, ops).session.generation == s.session.generation <==> NeverPairs(ops)
  {
    RunIsSessionRun(s, ops);
    GenerationFrom(s.session, ops);
  }

  // --- credentials ---

  /** A usable session file holds both the token and the browser device; nothing else is asked of it. */
  lemma StartReadsFile(s: DaemonState, connectError: Option<string>)
    requires KeyedById(s.index.convs)
    ensures var x, y := s.session, Step(s, Start(connectError)).session;
      && (x.file.Some? ==> y.auth == x.file.value)
      && (x.file.None? ==> !y.auth.token && !y.auth.browser && y.auth.cookies == map[])
      && (y.paired <==> x.file.Some? && x.file.value.token && x.file.value.browser)
      && y.file == x.file && y.generation == 0 && y.mediaDir
  {
    StepOfParts(s, Start(connectError));
  }

  /** Credentials come back from a save and a start: all that was in memory, cookies included. */
  lemma SavedComesBack(s: DaemonState, reason: SaveReason, connectError: Option<string>)
    requires KeyedById(s.index.convs) && s.session.paired
    ensures var t := Run(s, [Save(reason, true), Start(connectError)]).session;
      t.auth == s.session.auth && (t.paired <==> s.session.auth.token && s.session.auth.browser)
  {
    RunIsSessionRun(s, [Save(reason, true), Start(connectError)]);
    TwoSessionSteps(s.session, Save(reason, true), Start(connectError));
  }

  /** What reaches the file when: only a paired session whose write succeeds, with the credentials of that moment. */
  lemma WritesReachFile(s: DaemonState, reason: SaveReason, cookies: map<string, string>, saved: bool)
    requires KeyedById(s.index.convs)
    ensures var x, y := s.session, Step(s, Save(reason, saved)).session;
      y == x.(file := if x.paired && saved then Some(x.auth) else x.file)
    ensures var x, y := s.session, Step(s, CookiesRefreshed(cookies, saved)).session;
      && y.auth.cookies == cookies && y.auth.token == x.auth.token && y.auth.browser == x.auth.browser
      && y == x.(auth := y.auth, file := if x.paired && saved then Some(y.auth) else x.file)
    ensures var x, y := s.session, Step(s, PairSuccessful(saved)).session;
      && y.paired && y.generation == x.generation + 1
      && y == x.(paired := true, generation := y.generation, file := if saved then Some(x.auth) else x.file)
  {
    StepOfParts(s, Save(reason, saved));
    StepOfParts(s, CookiesRefreshed(cookies, saved));
    StepOfParts(s, PairSuccessful(saved));
  }

  /** What a logout and an unpair remove: the file unless that fails, then the media; never what is in memory. */
  lemma ClearsRemove(s: DaemonState, cleared: Cleared)
    requires KeyedById(s.index.convs)
    ensures var x, y := s.session, Step(s, LoggedOut(cleared)).session;
      && !y.paired && y.auth == x.auth && y.generation == x.generation
      && y.file == (if cleared.FileKept? then x.file else None)
      && y.mediaDir == (x.mediaDir && !cleared.AllCleared?)
    ensures var x, y := s.session, Step(s, Unpair(cleared)).session;
      && y.paired == x.paired && y.auth == x.auth && y.generation == x.generation
      && y.file == (if cleared.FileKept? then x.file else None)
      && y.mediaDir == (x.mediaDir && !cleared.AllCleared?)
  {
    StepOfParts(s, LoggedOut(cleared));
    StepOfParts(s, Unpair(cleared));
  }

  /** Every other step leaves the session alone, but for the credentials a pairing flow or the library puts in. */
  lemma OthersKeepSession(s: DaemonState, op: Op)
    requires KeyedById(s.index.convs)
    requires !op.Start? && !op.Save? && !op.CookiesRefreshed? && !op.PairSuccessful? && !op.LoggedOut? && !op.Unpair?
    ensures var x, y := s.session, Step(s, op).session;
      && y == x.(auth := y.auth)
      && (op.StartGaia? ==> y.auth.cookies == op.cookies && y.auth == x.auth.(cookies := y.auth.cookies))
      && (op.AuthChanged? ==> y.auth == op.auth)
      && (!op.StartGaia? && !op.AuthChanged? ==> y.auth == x.auth)
  {
    StepOfParts(s, op);
  }
}
