/** Finding the browser profile to pair from, and what happens when none will do. */
module BrowserPairing {
  import opened Sequences
  import opened ConversationOrder
  import opened CookieHeader
  import opened Lifecycle
  import opened DaemonObject
  import SessionFile
  import AuthRetry

  type CookieMap = map<string, string>

  /** A profile whose cookies could be read, or why not. */
  datatype Profile = Readable(name: string, cookies: CookieMap) | Unreadable(name: string, reason: string)

  datatype Choice =
    | NoProfiles
    | Use(name: string, cookies: CookieMap)
    | NoneReadable(reasons: seq<string>)
    | Closest(name: string, missing: seq<string>)

  predicate Complete(p: Profile) {
    p.Readable? && Missing(p.cookies) == []
  }

  /** Why each profile that could not be read could not be. */
  function Reasons(profiles: seq<Profile>): seq<string> {
    if profiles == [] then []
    else
      var p := profiles[|profiles| - 1];
      Reasons(profiles[..|profiles| - 1]) + (if p.Unreadable? then [p.name + ": " + p.reason] else [])
  }

  /** Profile i is readable and misses fewest among the first n, the earliest of those that do. */
  ghost predicate ClosestAmong(profiles: seq<Profile>, n: nat, i: nat) {
    i < n <= |profiles| && profiles[i].Readable? &&
    (forall j :: 0 <= j < n && profiles[j].Readable? ==>
      |Missing(profiles[i].cookies)| <= |Missing(profiles[j].cookies)|) &&
    (forall j :: 0 <= j < i && profiles[j].Readable? ==>
      |Missing(profiles[i].cookies)| < |Missing(profiles[j].cookies)|)
  }

  ghost predicate FirstComplete(profiles: seq<Profile>, i: nat) {
    i < |profiles| && Complete(profiles[i]) && forall j :: 0 <= j < i ==> !Complete(profiles[j])
  }

  ghost predicate SomeComplete(profiles: seq<Profile>) {
    exists i :: 0 <= i < |profiles| && Complete(profiles[i])
  }

  /** Which choice answers for the profiles. */
  ghost predicate Chosen(profiles: seq<Profile>, choice: Choice) {
    match choice
    case NoProfiles => profiles == []
    case Use(name, cookies) =>
      exists i: nat :: FirstComplete(profiles, i) && profiles[i] == Readable(name, cookies)
    case NoneReadable(reasons) =>
      profiles != [] && NoneReads(profiles) && reasons == Reasons(profiles)
    case Closest(name, missing) =>
      !SomeComplete(profiles) && missing != [] &&
      exists i: nat :: (
        ClosestAmong(profiles, |profiles|, i) &&
        profiles[i].name == name && missing == Missing(profiles[i].cookies))
  }

  ghost predicate NoneReads(profiles: seq<Profile>) {
    forall i :: 0 <= i < |profiles| ==> profiles[i].Unreadable?
  }

  /** The first profile with every required cookie, else the closest one to name in the hint. */
  method ChooseProfile(profiles: seq<Profile>) returns (choice: Choice)
    ensures Chosen(profiles, choice)
  {
    if |profiles| == 0 {
      return NoProfiles;
    }
    var best: Option<nat> := None;
    var bestMissing: seq<string> := [];
    var reasons: seq<string> := [];
    for k := 0 to |profiles|
      invariant forall j :: 0 <= j < k ==> !Complete(profiles[j])
      invariant best.None? ==> reasons == Reasons(profiles[..k]) && forall j :: 0 <= j < k ==> profiles[j].Unreadable?
      invariant best.Some? ==> ClosestAmong(profiles, k, best.value)
      invariant best.Some? ==> bestMissing == Missing(profiles[best.value].cookies)
    {
      var p := profiles[k];
      assert profiles[..k + 1][..k] == profiles[..k];
      if p.Unreadable? {
        reasons := reasons + [p.name + ": " + p.reason];
      } else {
        var missing := MissingGaiaCookies(p.cookies);
        if |missing| == 0 {
          assert FirstComplete(profiles, k);
          return Use(p.name, p.cookies);
        }
        if best.None? || |missing| < |bestMissing| {
          best, bestMissing := Some(k), missing;
        }
      }
    }
    assert profiles[..|profiles|] == profiles;
    if best.None? {
      return NoneReadable(reasons);
    }
    assert ClosestAmong(profiles, |profiles|, best.value);
    choice := Closest(profiles[best.value].name, bestMissing);
  }

  /** Why pairing with a given cookie set is refused before anything is sent. */
  datatype Validation = Accepted | NoCookies | MissingCookies(names: seq<string>)

  method ValidateGaiaCookies(cookies: CookieMap) returns (v: Validation)
    ensures v.NoCookies? <==> cookies == map[]
    ensures v.Accepted? <==> cookies != map[] && Missing(cookies) == []
    ensures v.MissingCookies? ==> v.names == Missing(cookies)
  {
    if |cookies| == 0 {
      return NoCookies;
    }
    var missing := MissingGaiaCookies(cookies);
    v := if |missing| > 0 then MissingCookies(missing) else Accepted;
  }

  /** A profile that the search settles on is never refused by the validation that follows. */
  lemma ChosenCookiesAreAccepted(p: Profile)
    requires Complete(p)
    ensures p.cookies != map[]
  {
    MissingNames(p.cookies, |REQUIRED_COOKIES|, "SID");
    assert REQUIRED_COOKIES[..|REQUIRED_COOKIES|] == REQUIRED_COOKIES;
    assert REQUIRED_COOKIES[0] == "SID";
  }

  // --- pairing ---

  const NO_PROFILE_HINT := "Install or sign in to Chrome, Chromium, or Brave, then try again."
  const NOT_SIGNED_IN := "Not signed in to Google Messages"

  function JoinWith(parts: seq<string>, sep: string): string {
    if parts == [] then "" else if |parts| == 1 then parts[0] else parts[0] + sep + JoinWith(parts[1..], sep)
  }

  lemma {:induction false} JoinWithOneMore(parts: seq<string>, last: string, sep: string)
    ensures JoinWith(parts + [last], sep) == if parts == [] then last else JoinWith(parts, sep) + sep + last
  {
    if parts != [] {
      assert (parts + [last])[1..] == parts[1..] + [last];
      JoinWithOneMore(parts[1..], last, sep);
      if |parts| > 1 {
        assert JoinWith(parts + [last], sep) == parts[0] + sep + (JoinWith(parts[1..], sep) + sep + last);
      }
    }
  }

  /** Where no profile can be read, each gives its reason, in order. */
  lemma {:induction false} EachGivesItsReason(profiles: seq<Profile>)
    requires NoneReads(profiles)
    ensures |Reasons(profiles)| == |profiles|
    ensures forall i :: 0 <= i < |profiles| ==> Reasons(profiles)[i] == profiles[i].name + ": " + profiles[i].reason
  {
    if profiles != [] {
      EachGivesItsReason(profiles[..|profiles| - 1]);
    }
  }

  /** Signed in to Google but never to Messages is told apart: only Messages sets that cookie. */
  function SignInHint(name: string, missing: seq<string>): string {
    if missing == ["OSID"] then
      "You're signed in to Google in " + name + " but not to Messages. "
      + "Open messages.google.com/web there, let your conversations load, then try again."
    else "Open messages.google.com/web in " + name + ", sign in, let it load, then try again."
  }

  /** Who lacks nothing but the Messages cookie is told to be signed in to Google; everyone is told which profile. */
  lemma HintTellsApart(name: string, missing: seq<string>)
    ensures "You're signed in to Google in " + name <= SignInHint(name, missing) <==> missing == ["OSID"]
    ensures missing != ["OSID"] ==> "Open messages.google.com/web in " + name <= SignInHint(name, missing)
  {
    assert ("You're signed in to Google in " + name)[0] == 'Y';
    if missing != ["OSID"] {
      assert SignInHint(name, missing)[0] == 'O';
    }
  }

  /** The message and the hint that answer for profiles of which none is complete. */
  ghost predicate Explains(profiles: seq<Profile>, message: string, hint: string) {
    if profiles == [] then message == "No browser profile found" && hint == NO_PROFILE_HINT
    else if NoneReads(profiles) then
      message == "Could not read browser cookies" &&
      hint == "Make sure your login keyring is unlocked. " + JoinWith(Reasons(profiles), "; ")
    else
      message == NOT_SIGNED_IN &&
      exists i: nat :: (
        ClosestAmong(profiles, |profiles|, i) &&
        hint == SignInHint(profiles[i].name, Missing(profiles[i].cookies)))
  }

  /** The daemon once the Google flow has begun from a profile. */
  ghost function Begun(s: DaemonState, p: Profile): DaemonState
    requires KeyedById(s.index.convs) && p.Readable?
  {
    Step(Step(s, ProfileChosen(p.name)), StartGaia(p.cookies))
  }

  /** Begins the Google flow unless the cookies are refused or there is no client. */
  method StartGaiaPairing(d: Daemon, present: bool, cookies: CookieMap) returns (ok: bool)
    requires d.Valid()
    modifies d
    ensures d.Valid() && d.emitted == old(d.emitted)
    ensures ok <==> present && cookies != map[] && Missing(cookies) == []
    ensures d.Model() == if ok then Step(old(d.Model()), StartGaia(cookies)) else old(d.Model())
  {
    var v := ValidateGaiaCookies(cookies);
    if !v.Accepted? || !present {
      return false;
    }
    d.StartGaiaPairing(cookies);
    ok := true;
  }

  /** Notes the profile and begins from it. */
  method PairFrom(d: Daemon, present: bool, p: Profile) returns (ok: bool)
    requires d.Valid() && Complete(p)
    modifies d
    ensures d.Valid() && d.emitted == old(d.emitted) && ok == present
    ensures d.Model() == Attempted(old(d.Model()), present, p)
  {
    ChosenCookiesAreAccepted(p);
    d.NoteProfile(p.name);
    ok := StartGaiaPairing(d, present, p.cookies);
  }

  /** What an attempt from a profile leads to. */
  ghost function Attempted(s: DaemonState, present: bool, p: Profile): DaemonState
    requires KeyedById(s.index.convs) && p.Readable?
  {
    if present then Begun(s, p) else Step(s, ProfileChosen(p.name))
  }

  /** The message and hint for a choice that is no profile to use. */
  method Advice(profiles: seq<Profile>, choice: Choice) returns (message: string, hint: string)
    requires !choice.Use? && Chosen(profiles, choice)
    ensures Explains(profiles, message, hint)
  {
    match choice {
      case NoProfiles =>
        message, hint := "No browser profile found", NO_PROFILE_HINT;
      case NoneReadable(reasons) =>
        message := "Could not read browser cookies";
        hint := "Make sure your login keyring is unlocked. " + JoinWith(reasons, "; ");
      case Closest(name, missing) =>
        message, hint := NOT_SIGNED_IN, SignInHint(name, missing);
    }
  }

  /** Pairs from the first complete profile, or shows what the user can do about there being none. */
  method PairFromBrowser(d: Daemon, present: bool, profiles: seq<Profile>) returns (ok: bool)
    requires d.Valid()
    modifies d
    ensures d.Valid() && d.emitted == old(d.emitted)
    ensures ok <==> present && SomeComplete(profiles)
    ensures forall i: nat :: FirstComplete(profiles, i) ==> d.Model() == Attempted(old(d.Model()), present, profiles[i])
    ensures !SomeComplete(profiles) ==>
      exists message, hint :: (
        Explains(profiles, message, hint) && d.Model() == Step(old(d.Model()), PairError(message, hint)))
  {
    var choice := ChooseProfile(profiles);
    if choice.Use? {
      ghost var i: nat :| FirstComplete(profiles, i) && profiles[i] == Readable(choice.name, choice.cookies);
      ok := PairFrom(d, present, Readable(choice.name, choice.cookies));
      FirstIsUnique(profiles, i);
    } else {
      var message, hint := Advice(profiles, choice);
      d.SetPairError(message, hint);
      ok := false;
    }
  }

  lemma FirstIsUnique(profiles: seq<Profile>, i: nat)
    requires FirstComplete(profiles, i)
    ensures forall k: nat :: FirstComplete(profiles, k) ==> k == i
  {}

  // --- recovering ---

  /** Takes over the cookies of the first complete profile, at most once per interval. */
  method RefreshBrowserCookies(d: Daemon, refresher: AuthRetry.CookieRefresher, present: bool,
                               profiles: seq<Profile>, now: int, saved: bool)
    returns (ok: bool)
    requires d.Valid() && refresher.Valid()
    modifies d, refresher
    ensures d.Valid() && refresher.Valid() && d.emitted == old(d.emitted)
    ensures ok <==> (
      AuthRetry.Accepts(old(refresher.last), now, AuthRetry.COOKIE_REFRESH_INTERVAL) &&
      present && SomeComplete(profiles))
    ensures ok ==> forall i: nat :: FirstComplete(profiles, i) ==>
      d.Model() == Step(old(d.Model()), CookiesRefreshed(profiles[i].cookies, saved))
    ensures !ok ==> (
      d.Model() ==
      if AuthRetry.Accepts(old(refresher.last), now, AuthRetry.COOKIE_REFRESH_INTERVAL) && !SomeComplete(profiles)
      then Step(old(d.Model()), Change(CookiesUnavailable))
      else old(d.Model()))
  {
    var granted := refresher.ClaimRefresh(now);
    if !granted {
      return false;
    }
    var cookies := FindComplete(profiles);
    if cookies.None? {
      d.ChangeState(CookiesUnavailable);
      return false;
    }
    if !present {
      return false;
    }
    d.InstallCookies(cookies.value, saved);
    ok := true;
  }

  /** The cookies of the first profile that has all of them. */
  method FindComplete(profiles: seq<Profile>) returns (cookies: Option<CookieMap>)
    ensures cookies.Some? <==> SomeComplete(profiles)
    ensures cookies.Some? ==> exists i: nat :: FirstComplete(profiles, i) && profiles[i].cookies == cookies.value
  {
    for k := 0 to |profiles|
      invariant forall j :: 0 <= j < k ==> !Complete(profiles[j])
    {
      if profiles[k].Readable? {
        var missing := MissingGaiaCookies(profiles[k].cookies);
        if |missing| == 0 {
          assert FirstComplete(profiles, k);
          return Some(profiles[k].cookies);
        }
      }
    }
    cookies := None;
  }

  /**
   * Claims a re-pair, notes the generation, pairs from the browser, and waits. The batches are what the other
   * handlers do during the wait, second by second, and the polls are what is seen of it.
   */
  method RepairSession(d: Daemon, refresher: AuthRetry.CookieRefresher, present: bool, profiles: seq<Profile>,
                       now: int, ghost batches: seq<seq<Op>>, polls: seq<AuthRetry.Poll>)
    returns (paired: bool)
    requires d.Valid() && refresher.Valid() && |polls| == AuthRetry.REPAIR_POLLS
    requires forall i :: 0 <= i < |batches| ==> SessionFile.NoRestart(AuthRetry.UpTo(batches, i))
    requires forall i: nat :: FirstComplete(profiles, i) ==>
      AuthRetry.Observes(Begun(d.Model(), profiles[i]), batches, polls)
    modifies d, refresher
    ensures d.Valid() && refresher.Valid()
    ensures paired <==> (
      AuthRetry.Accepts(old(refresher.lastRepair), now, AuthRetry.REPAIR_INTERVAL) &&
      present && SomeComplete(profiles) &&
      exists i :: AuthRetry.PairedBy(batches, polls, i))
  {
    var granted := refresher.ClaimRepair(now);
    if !granted {
      return false;
    }
    var before := d.generation;
    var begun := PairFromBrowser(d, present, profiles);
    if !begun {
      return false;
    }
    ghost var first := FirstOf(profiles);
    StartKeepsGeneration(old(d.Model()), profiles[first]);
    AuthRetry.RepairNeedsAPairing(d.Model(), batches, polls);
    paired := AuthRetry.AwaitPairing(before, polls);
  }

  lemma StartKeepsGeneration(s: DaemonState, p: Profile)
    requires KeyedById(s.index.convs) && p.Readable?
    ensures Begun(s, p).session.generation == s.session.generation
  {
    StepOfParts(s, ProfileChosen(p.name));
    StepOfParts(Step(s, ProfileChosen(p.name)), StartGaia(p.cookies));
  }

  ghost function FirstOf(profiles: seq<Profile>): (i: nat)
    requires SomeComplete(profiles)
    ensures FirstComplete(profiles, i)
  {
    if Complete(profiles[0]) then 0
    else
      assert exists i :: 0 <= i < |profiles[1..]| && Complete(profiles[1..][i]) by {
        var k :| 0 <= k < |profiles| && Complete(profiles[k]);
        assert profiles[1..][k - 1] == profiles[k];
      }
      var i := FirstOf(profiles[1..]);
      assert forall j :: 0 < j < i + 1 ==> profiles[1..][j - 1] == profiles[j];
      i + 1
  }
}
