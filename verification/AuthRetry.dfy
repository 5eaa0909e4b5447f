/** Recovering from authentication failures: throttled cookie refreshes, throttled re-pairing, bounded retries. */
module AuthRetry {
  import opened Sequences
  import opened ConversationOrder
  import opened Lifecycle
  import opened SessionFile

  /** Seconds. */
  const COOKIE_REFRESH_INTERVAL: nat := 30
  const REPAIR_INTERVAL: nat := 300
  const REPAIR_POLLS: nat := 90

  // --- throttling ---

  /** A claim is accepted when none was before, or the last is at least an interval ago. */
  function Accepts(last: Option<int>, now: int, interval: nat): bool {
    last.None? || now - last.value >= interval
  }

  /** The accepted times among all claims ever made, by any number of callers. */
  function Accepted(last: Option<int>, claims: seq<int>, interval: nat): seq<int>
    decreases |claims|
  {
    if claims == [] then []
    else if Accepts(last, claims[0], interval) then [claims[0]] + Accepted(Some(claims[0]), claims[1..], interval)
    else Accepted(last, claims[1..], interval)
  }

  lemma {:induction false} AcceptedFollowLast(last: Option<int>, claims: seq<int>, interval: nat)
    ensures var a := Accepted(last, claims, interval);
      && (last.Some? && a != [] ==> a[0] >= last.value + interval)
      && (forall i :: 0 <= i < |a| - 1 ==> a[i + 1] >= a[i] + interval)
    decreases |claims|
  {
    if claims != [] {
      if Accepts(last, claims[0], interval) {
        AcceptedFollowLast(Some(claims[0]), claims[1..], interval);
      } else {
        AcceptedFollowLast(last, claims[1..], interval);
      }
    }
  }

  /** Accepted claims lie at least an interval apart, the further apart the more there are between them. */
  lemma {:induction false} AcceptedAreSpaced(claims: seq<int>, interval: nat, i: nat, j: nat)
    requires i <= j < |Accepted(None, claims, interval)|
    ensures Accepted(None, claims, interval)[j] - Accepted(None, claims, interval)[i] >= (j - i) * interval
    decreases j - i
  {
    if i < j {
      AcceptedAreSpaced(claims, interval, i, j - 1);
      AcceptedFollowLast(None, claims, interval);
      assert (j - i) * interval == (j - 1 - i) * interval + interval;
    }
  }

  /** Any window of a given width holds at most width / interval + 1 accepted claims. */
  lemma WindowHoldsFew(claims: seq<int>, interval: nat, i: nat, j: nat, width: nat)
    requires interval > 0 && i <= j < |Accepted(None, claims, interval)|
    requires Accepted(None, claims, interval)[j] - Accepted(None, claims, interval)[i] <= width
    ensures j - i + 1 <= width / interval + 1
  {
    AcceptedAreSpaced(claims, interval, i, j);
    DivideBound(j - i, interval, width);
  }

  lemma DivideBound(n: nat, d: nat, w: nat)
    requires d > 0 && n * d <= w
    ensures n <= w / d
  {
    assert w == (w / d) * d + w % d;
    assert w < (w / d + 1) * d;
    if n >= w / d + 1 {
      TimesMonotone(w / d + 1, n, d);
    }
  }

  lemma TimesMonotone(a: nat, b: nat, d: nat)
    requires a <= b
    ensures a * d <= b * d
  {}

  class CookieRefresher {
    var last: Option<int>
    var lastRepair: Option<int>
    ghost var refreshClaims: seq<int>
    ghost var repairClaims: seq<int>
    ghost var refreshes: seq<int>
    ghost var repairs: seq<int>

    /** What was accepted is what the throttle accepts of everything claimed, each kind on its own. */
    ghost predicate Valid()
      reads this
    {
      && refreshes == Accepted(None, refreshClaims, COOKIE_REFRESH_INTERVAL)
      && repairs == Accepted(None, repairClaims, REPAIR_INTERVAL)
      && last == LastOf(refreshes)
      && lastRepair == LastOf(repairs)
    }

    constructor ()
      ensures Valid() && refreshClaims == [] && repairClaims == []
    {
      last, lastRepair := None, None;
      refreshClaims, repairClaims, refreshes, repairs := [], [], [], [];
    }

    method ClaimRefresh(now: int) returns (granted: bool)
      requires Valid()
      modifies this
      ensures Valid() && refreshClaims == old(refreshClaims) + [now] && repairClaims == old(repairClaims)
      ensures refreshes == if granted then old(refreshes) + [now] else old(refreshes)
      ensures granted == Accepts(old(last), now, COOKIE_REFRESH_INTERVAL)
      ensures granted <==>
        old(refreshes) == [] || now - old(refreshes)[|old(refreshes)| - 1] >= COOKIE_REFRESH_INTERVAL
    {
      AcceptedOfAppend(None, refreshClaims, now, COOKIE_REFRESH_INTERVAL);
      refreshClaims := refreshClaims + [now];
      if last.Some? && now - last.value < COOKIE_REFRESH_INTERVAL {
        return false;
      }
      last := Some(now);
      refreshes := refreshes + [now];
      granted := true;
    }

    method ClaimRepair(now: int) returns (granted: bool)
      requires Valid()
      modifies this
      ensures Valid() && repairClaims == old(repairClaims) + [now] && refreshClaims == old(refreshClaims)
      ensures repairs == if granted then old(repairs) + [now] else old(repairs)
      ensures granted == Accepts(old(lastRepair), now, REPAIR_INTERVAL)
      ensures granted <==> old(repairs) == [] || now - old(repairs)[|old(repairs)| - 1] >= REPAIR_INTERVAL
    {
      AcceptedOfAppend(None, repairClaims, now, REPAIR_INTERVAL);
      repairClaims := repairClaims + [now];
      if lastRepair.Some? && now - lastRepair.value < REPAIR_INTERVAL {
        return false;
      }
      lastRepair := Some(now);
      repairs := repairs + [now];
      granted := true;
    }
  }

  function LastOf(times: seq<int>): Option<int> {
    if times == [] then None else Some(times[|times| - 1])
  }

  lemma {:induction false} AcceptedOfAppend(last: Option<int>, claims: seq<int>, now: int, interval: nat)
    ensures var a := Accepted(last, claims, interval);
      Accepted(last, claims + [now], interval) ==
      if Accepts(if a == [] then last else LastOf(a), now, interval) then a + [now] else a
    decreases |claims|
  {
    if claims == [] {
      assert [now][1..] == [] && [] + [now] == [now];
    } else {
      assert (claims + [now])[1..] == claims[1..] + [now];
      if Accepts(last, claims[0], interval) {
        AcceptedOfAppend(Some(claims[0]), claims[1..], now, interval);
      } else {
        AcceptedOfAppend(last, claims[1..], now, interval);
      }
    }
  }

  /** One more claim is accepted exactly when it is the first or an interval has passed since the last accepted. */
  lemma NextClaim(claims: seq<int>, now: int, interval: nat)
    ensures var a := Accepted(None, claims, interval);
      Accepted(None, claims + [now], interval) ==
      if a == [] || now - a[|a| - 1] >= interval then a + [now] else a
  {
    AcceptedOfAppend(None, claims, now, interval);
  }

  ghost predicate Covered(accepted: seq<int>, claim: int, interval: nat) {
    exists t :: t in accepted && claim - t < interval
  }

  /** No claim is refused without reason: each lies less than an interval after some accepted one, maybe itself. */
  lemma EveryClaimIsCovered(claims: seq<int>, k: nat, interval: nat)
    requires k < |claims| && interval > 0
    ensures Covered(Accepted(None, claims[..k + 1], interval), claims[k], interval)
  {
    assert claims[..k + 1] == claims[..k] + [claims[k]];
    NextClaim(claims[..k], claims[k], interval);
    var a := Accepted(None, claims[..k + 1], interval);
    assert a[|a| - 1] in a;
  }

  // --- re-pairing ---

  /** What one poll sees. */
  datatype Poll = Poll(generation: nat, state: ConnState)

  /** Poll i is the first that decides, and it shows a new generation. */
  ghost predicate DecidesAt(before: nat, polls: seq<Poll>, i: nat) {
    i < |polls| && polls[i].generation != before &&
    forall j :: 0 <= j < i ==> polls[j].generation == before && !(polls[j].state.Failing? || polls[j].state.Unpaired?)
  }

  /** A new generation is success; an error or unpaired state before it is not. */
  ghost predicate Succeeds(before: nat, polls: seq<Poll>) {
    exists i :: DecidesAt(before, polls, i)
  }

  /** Waits for the pairing itself: one look a second, and the generation is looked at before the state. */
  method AwaitPairing(before: nat, polls: seq<Poll>) returns (paired: bool)
    requires |polls| == REPAIR_POLLS
    ensures paired <==> Succeeds(before, polls)
  {
    for i := 0 to REPAIR_POLLS
      invariant forall j :: 0 <= j < i ==>
        polls[j].generation == before && !(polls[j].state.Failing? || polls[j].state.Unpaired?)
    {
      if polls[i].generation != before {
        assert DecidesAt(before, polls, i);
        return true;
      }
      if polls[i].state.Failing? || polls[i].state.Unpaired? {
        return false;
      }
    }
    paired := false;
  }

  /** Everything that happened before poll i, one batch of steps a second. */
  function UpTo(batches: seq<seq<Op>>, i: nat): seq<Op>
    requires i < |batches|
  {
    (if i == 0 then [] else UpTo(batches, i - 1)) + batches[i]
  }

  /** Poll i sees the daemon after everything that happened up to its second. */
  ghost predicate Observes(s: DaemonState, batches: seq<seq<Op>>, polls: seq<Poll>)
    requires KeyedById(s.index.convs)
  {
    |polls| == |batches| &&
    forall i :: 0 <= i < |polls| ==>
      var t := Run(s, UpTo(batches, i));
      polls[i] == Poll(t.session.generation, t.status.state)
  }

  /** A pairing completed between polls i - 1 and i, none before, and no earlier poll saw the attempt fail. */
  ghost predicate PairedBy(batches: seq<seq<Op>>, polls: seq<Poll>, i: nat) {
    i < |polls| == |batches| && !NeverPairs(UpTo(batches, i)) &&
    forall j :: 0 <= j < i ==> NeverPairs(UpTo(batches, j)) && !(polls[j].state.Failing? || polls[j].state.Unpaired?)
  }

  lemma PollTellsOfPairing(s: DaemonState, batches: seq<seq<Op>>, polls: seq<Poll>, i: nat)
    requires KeyedById(s.index.convs) && Observes(s, batches, polls) && i < |polls|
    requires NoRestart(UpTo(batches, i))
    ensures polls[i].generation == s.session.generation <==> NeverPairs(UpTo(batches, i))
  {
    GenerationMovesIffPaired(s, UpTo(batches, i));
  }

  /**
   * A re-pair reports success exactly when some pairing completed after it took note of the generation, and no
   * poll before that saw it fail: a connection that recovers by itself is never mistaken for it.
   */
  lemma RepairNeedsAPairing(s: DaemonState, batches: seq<seq<Op>>, polls: seq<Poll>)
    requires KeyedById(s.index.convs) && Observes(s, batches, polls)
    requires forall i :: 0 <= i < |batches| ==> NoRestart(UpTo(batches, i))
    ensures Succeeds(s.session.generation, polls) <==> exists i :: PairedBy(batches, polls, i)
  {
    var before := s.session.generation;
    forall i | 0 <= i < |polls| ensures polls[i].generation == before <==> NeverPairs(UpTo(batches, i)) {
      PollTellsOfPairing(s, batches, polls, i);
    }
    SameDecision(before, batches, polls);
  }

  lemma SameDecision(before: nat, batches: seq<seq<Op>>, polls: seq<Poll>)
    requires |polls| == |batches|
    requires forall i :: 0 <= i < |polls| ==> (polls[i].generation == before <==> NeverPairs(UpTo(batches, i)))
    ensures Succeeds(before, polls) <==> exists i :: PairedBy(batches, polls, i)
  {
    if i :| DecidesAt(before, polls, i) {
      assert PairedBy(batches, polls, i);
    }
    if i :| PairedBy(batches, polls, i) {
      assert DecidesAt(before, polls, i);
    }
  }

  // --- retrying a call ---

  /** An outcome of one call, or the text of its error. */
  datatype Attempt<T> = Done(value: T) | Fault(message: string)

  predicate Contains(s: string, part: string) {
    part <= s || (s != [] && Contains(s[1..], part))
  }

  /** Lower-casing as far as it yields ASCII: the dotted capital I and the Kelvin sign do so too. */
  function LowerChar(c: char): char {
    if 'A' <= c <= 'Z' then c - 'A' + 'a'
    else if c == '\U{0130}' then 'i'
    else if c == '\U{212A}' then 'k'
    else c
  }

  function Lower(s: string): string {
    seq(|s|, i requires 0 <= i < |s| => LowerChar(s[i]))
  }

  /** Lower-casing goes letter by letter, each capital to its small letter, the two capitals beyond ASCII included. */
  lemma LowersLetters(s: string, i: nat)
    requires i < |s|
    ensures |Lower(s)| == |s|
    ensures 'A' <= s[i] <= 'Z' ==> 'a' <= Lower(s)[i] <= 'z' && Lower(s)[i] - 'a' == s[i] - 'A'
    ensures Lower(s)[i] == s[i] <==> !('A' <= s[i] <= 'Z' || s[i] in {'\U{0130}', '\U{212A}'})
    ensures s[i] == '\U{0130}' ==> Lower(s)[i] == 'i'
    ensures s[i] == '\U{212A}' ==> Lower(s)[i] == 'k'
  {}

  predicate IsAuthError<T>(a: Attempt<T>) {
    a.Fault? &&
    var m := Lower(a.message);
    Contains(m, "401") || Contains(m, "invalid authentication") || Contains(m, "unauthenticated") ||
    Contains(m, "oauth 2 access token")
  }

  /** The marker of a session that fresh cookies cannot revive; it is looked for as written. */
  predicate IsSessionInvalid<T>(a: Attempt<T>) {
    a.Fault? && Contains(a.message, "SESSION_COOKIE_INVALID")
  }

  predicate PartAt(s: string, part: string, i: nat) {
    i + |part| <= |s| && s[i..i + |part|] == part
  }

  lemma {:induction false} ContainsIff(s: string, part: string)
    ensures Contains(s, part) <==> exists i: nat :: PartAt(s, part, i)
  {
    if part <= s {
      assert PartAt(s, part, 0);
    } else if s != [] {
      ContainsIff(s[1..], part);
      forall i: nat | i > 0 ensures PartAt(s, part, i) <==> PartAt(s[1..], part, i - 1) {
        if i + |part| <= |s| {
          assert s[1..][i - 1..i - 1 + |part|] == s[i..i + |part|];
        }
      }
      if i: nat :| PartAt(s[1..], part, i) {
        assert PartAt(s, part, i + 1);
      }
      if i: nat :| PartAt(s, part, i) {
        assert i > 0 && PartAt(s[1..], part, i - 1);
      }
    }
  }

  /** What the message of an authentication failure reads in it, in lower case. */
  const AUTH_MARKERS := {"401", "invalid authentication", "unauthenticated", "oauth 2 access token"}

  /** A call counts as unauthenticated exactly when one of the markers stands in its message, whatever its case. */
  lemma AuthErrorIff<T>(a: Attempt<T>)
    ensures IsAuthError(a) <==> a.Fault? && exists m, i: nat :: m in AUTH_MARKERS && PartAt(Lower(a.message), m, i)
    ensures IsSessionInvalid(a) <==> a.Fault? && exists i: nat :: PartAt(a.message, "SESSION_COOKIE_INVALID", i)
  {
    if a.Fault? {
      ContainsIff(a.message, "SESSION_COOKIE_INVALID");
      forall m | m in AUTH_MARKERS
        ensures Contains(Lower(a.message), m) <==> exists i: nat :: PartAt(Lower(a.message), m, i)
      {
        ContainsIff(Lower(a.message), m);
      }
      assert "401" in AUTH_MARKERS && "invalid authentication" in AUTH_MARKERS;
      assert "unauthenticated" in AUTH_MARKERS && "oauth 2 access token" in AUTH_MARKERS;
    }
  }

  /** The remote operation and the recoveries, with the outcomes they will have. */
  class Remote<T> {
    const outcomes: seq<Attempt<T>>
    const refreshWorks: bool
    const repairWorks: bool
    var calls: nat
    var refreshes: nat
    var repairs: nat

    constructor (outcomes: seq<Attempt<T>>, refreshWorks: bool, repairWorks: bool)
      ensures this.outcomes == outcomes && this.refreshWorks == refreshWorks && this.repairWorks == repairWorks
      ensures calls == refreshes == repairs == 0
    {
      this.outcomes, this.refreshWorks, this.repairWorks := outcomes, refreshWorks, repairWorks;
      calls, refreshes, repairs := 0, 0, 0;
    }

    method Call() returns (a: Attempt<T>)
      requires calls < |outcomes|
      modifies this`calls
      ensures calls == old(calls) + 1 && a == outcomes[old(calls)]
    {
      a := outcomes[calls];
      calls := calls + 1;
    }

    method RefreshCookies() returns (ok: bool)
      modifies this`refreshes
      ensures ok == refreshWorks && refreshes == old(refreshes) + 1
    {
      ok, refreshes := refreshWorks, refreshes + 1;
    }

    method RepairSession() returns (ok: bool)
      modifies this`repairs
      ensures ok == repairWorks && repairs == old(repairs) + 1
    {
      ok, repairs := repairWorks, repairs + 1;
    }
  }

  /** Runs the operation; after an authentication failure, tries fresh cookies, then a new pairing. */
  method WithAuthRetry<T>(remote: Remote<T>) returns (result: Attempt<T>)
    requires remote.calls == remote.refreshes == remote.repairs == 0 && |remote.outcomes| == 3
    modifies remote
    // one to three calls, and the result is the last call's
    ensures 1 <= remote.calls <= 3 && result == remote.outcomes[remote.calls - 1]
    // every call but the last ended in an authentication error, so an accepted call is never issued again
    ensures forall i :: 0 <= i < remote.calls - 1 ==> IsAuthError(remote.outcomes[i])
    // at most one recovery of each kind, and each further call answers for one that worked
    ensures remote.refreshes <= 1 && remote.repairs <= 1
    ensures remote.calls == 1 + (if remote.refreshWorks then remote.refreshes else 0) +
      (if remote.repairWorks then remote.repairs else 0)
    // cookies are tried unless the session is known to be dead, and giving up on an error means no recovery is left
    ensures remote.refreshes == 1 <==> IsAuthError(remote.outcomes[0]) && !IsSessionInvalid(remote.outcomes[0])
    ensures remote.repairs == 1 <==> (
      IsAuthError(remote.outcomes[0]) &&
      (IsSessionInvalid(remote.outcomes[0]) || (remote.refreshWorks && IsAuthError(remote.outcomes[1]))))
    ensures IsAuthError(result) ==> remote.repairs == 1 || (remote.refreshes == 1 && !remote.refreshWorks)
  {
    result := remote.Call();
    if !IsAuthError(result) {
      return;
    }
    if IsSessionInvalid(result) {
      var revived := remote.RepairSession();
      if revived {
        result := remote.Call();
      }
      return;
    }
    var refreshed := remote.RefreshCookies();
    if !refreshed {
      return;
    }
    result := remote.Call();
    if !IsAuthError(result) {
      return;
    }
    var revived := remote.RepairSession();
    if revived {
      result := remote.Call();
    }
  }
}
