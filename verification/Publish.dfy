/**
 One publishing run on one phone, from the download to the check of the profile. What the phone shows and
 which calls fail is an arbitrary tape of replies; the clock only goes forward, and a sleep is never too short.
 */
module Publish {
  import opened Common
  import opened PublishFlow

  const COMPOSE_TIMEOUT := 180_000
  const UPLOAD_TIMEOUT := 480_000
  const UPLOAD_QUIET := 60_000
  const UPLOAD_STALL := 90_000
  const UNKNOWN_SCREEN_LIMIT := 8
  const SHARE_TAP_ATTEMPTS := 3
  const PROFILE_CHECKS := 3
  const PROFILE_CHECK_GAP := 20_000

  // ── What happens on the phone ────────────────────────────────────────────

  /** One thing the run did: read the screen, tap, type, read the profile, wait, ask which window is in front. */
  datatype Act =
    | Look(screen: Option<Screen>)
    | Touch(el: El, marks: Mark, done: bool)
    | Typed(done: bool)
    | Profile(view: Option<Snapshot>)
    | Slept(ms: nat)
    | Front(main: bool)

  /** One reply of the phone: what it would show, whether the call works, how long it takes. */
  datatype Reply = Reply(screen: Option<Screen>, view: Option<Snapshot>, works: bool, delay: nat)

  datatype Stage = Download | Push | Prepare | Compose | Upload | Verify | Finished

  datatype Posted = No | Yes | Unsure

  datatype Verdict = Verdict(app: bool, profile: Option<bool>)

  datatype Result = Result(ok: bool, stage: Stage, posted: Posted, retryable: bool, verdict: Option<Verdict>)

  /** What the wait for the upload keeps between two looks. */
  datatype Waiting = Waiting(offline: bool, lastPct: Option<nat>, lastPctChange: nat, lastActivity: nat)

  /** What one screen during the upload amounts to. */
  datatype Heard = Confirmed | Moving | Idle

  /** A stage goes on with a value, ends the run with a result, or throws. */
  datatype Flow<+T> = Go(value: T) | Return(result: Result) | Throw {
    predicate IsFailure() { !Go? }
    function PropagateFailure<U>(): Flow<U>
      requires IsFailure()
    {
      if Return? then Flow.Return(result) else Flow.Throw
    }
    function Extract(): T
      requires !IsFailure()
    {
      value
    }
  }

  // ── What a run may have done ─────────────────────────────────────────────

  predicate IsShare(a: Act) {
    a.Touch? && a.marks == MarksShare
  }

  /** Share-marked taps that came back without an error. */
  function Shares(acts: seq<Act>): nat {
    if acts == [] then 0
    else Shares(acts[..|acts| - 1]) + if IsShare(acts[|acts| - 1]) && acts[|acts| - 1].done then 1 else 0
  }

  ghost predicate CaptionTyped(acts: seq<Act>) {
    Typed(true) in acts
  }

  ghost predicate ShowsCompose(a: Act, platform: Platform) {
    a.Look? && a.screen.Some? && HasPostButton(a.screen.value, platform) && HasCaptionField(a.screen.value)
  }

  /** What was done before: the last act read a screen, and this is its post button. */
  ghost predicate OnPostButton(before: seq<Act>, el: El, platform: Platform) {
    var n := |before|;
    && n >= 1 && before[n - 1].Look? && before[n - 1].screen.Some?
    && FindPostButton(before[n - 1].screen.value, platform) == Some(el)
  }

  /** The compose screen was still there, and again three seconds later. */
  ghost predicate SeenTwice(before: seq<Act>, platform: Platform) {
    var n := |before|;
    && n >= 3
    && ShowsCompose(before[n - 3], platform) && before[n - 2] == Slept(3000) && ShowsCompose(before[n - 1], platform)
  }

  /** A share-marked tap on `el` is right after these acts. */
  ghost predicate ShareIsRight(before: seq<Act>, el: El, platform: Platform, hasCaption: bool) {
    && OnPostButton(before, el, platform)
    && (hasCaption ==> CaptionTyped(before))
    && (Shares(before) > 0 ==> SeenTwice(before, platform))
  }

  /** Every share-marked tap, completed or not, was right when it was made. */
  ghost predicate Careful(acts: seq<Act>, platform: Platform, hasCaption: bool) {
    acts == [] ||
    var n := |acts| - 1;
    && Careful(acts[..n], platform, hasCaption)
    && (IsShare(acts[n]) ==> ShareIsRight(acts[..n], acts[n].el, platform, hasCaption))
  }

  lemma {:induction false} CarefulAlways(acts: seq<Act>, platform: Platform, hasCaption: bool, i: nat)
    requires Careful(acts, platform, hasCaption) && i < |acts| && IsShare(acts[i])
    ensures ShareIsRight(acts[..i], acts[i].el, platform, hasCaption)
  {
    var n := |acts| - 1;
    if i < n {
      assert acts[..n][..i] == acts[..i];
      CarefulAlways(acts[..n], platform, hasCaption, i);
    }
  }

  /** A sleep and one more look. */
  ghost predicate LookedAfter(was: seq<Act>, acts: seq<Act>, ms: nat) {
    |acts| == |was| + 2 && was <= acts && acts[|acts| - 2] == Slept(ms)
  }

  lemma TwoLooks(seen: seq<Act>, acts: seq<Act>, platform: Platform)
    requires seen != [] && ShowsCompose(seen[|seen| - 1], platform)
    requires LookedAfter(seen, acts, 3000) && ShowsCompose(acts[|acts| - 1], platform)
    ensures |acts| >= 3 && SeenTwice(acts, platform)
  {
    assert acts[|acts| - 3] == seen[|seen| - 1];
  }

  /** After all the taps the profile showed a post that it did not show before them. */
  ghost predicate SeenOnProfile(acts: seq<Act>, b: nat, k: nat) {
    && b < k < |acts|
    && acts[b].Profile? && acts[b].view.Some? && acts[b].view.value.onProfile
    && ShowsNewPost(acts[k], acts[b].view.value)
    && Shares(acts[..b]) == 0 && Shares(acts[..k]) == Shares(acts)
  }

  /** A reading of the profile, without an upload, that shows a post which `base` does not. */
  ghost predicate ShowsNewPost(a: Act, base: Snapshot) {
    && a.Profile? && a.view.Some? && a.view.value.onProfile && a.view.value.uploading.None?
    && IsNewPost(base, a.view.value)
  }

  /** The app said so itself: a screen that confirms, without a percentage, or its main window in front. */
  ghost predicate AppSays(a: Act) {
    || a == Front(true)
    || (a.Look? && a.screen.Some? && !ShowsPercent(a.screen.value) && Confirms(a.screen.value))
  }

  /** No screen read from `from` on says that the app is offline. */
  ghost predicate Online(acts: seq<Act>, from: nat) {
    |acts| <= from ||
    var a := acts[|acts| - 1];
    && Online(acts[..|acts| - 1], from)
    && (a.Look? && a.screen.Some? ==> !ScreenHas(a.screen.value, AppOffline))
  }

  /** The profile, as read last from `from` on, still shows an upload. */
  ghost predicate LeftUploading(acts: seq<Act>, from: nat) {
    |acts| > from &&
    var a := acts[|acts| - 1];
    if a.Profile? then a.view.Some? && a.view.value.uploading.Some? else LeftUploading(acts[..|acts| - 1], from)
  }

  lemma {:induction false} LeftUploadingMeans(acts: seq<Act>, from: nat, i: nat)
    requires !LeftUploading(acts, from) && from <= i < |acts| && acts[i].Profile?
    requires forall j :: i < j < |acts| ==> !acts[j].Profile?
    ensures acts[i].view.Some? ==> acts[i].view.value.uploading.None?
  {
    if i < |acts| - 1 {
      LeftUploadingMeans(acts[..|acts| - 1], from, i);
    }
  }

  /** A reading of the profile that shows no upload, or nothing at all. */
  predicate IsSettled(a: Act) {
    a.Profile? && (a.view.Some? ==> a.view.value.uploading.None?)
  }

  function SettledReadings(acts: seq<Act>): nat {
    if acts == [] then 0
    else SettledReadings(acts[..|acts| - 1]) + if IsSettled(acts[|acts| - 1]) then 1 else 0
  }

  lemma OneMoreReading(acts: seq<Act>, a: Act)
    ensures SettledReadings(acts + [a]) == SettledReadings(acts) + if IsSettled(a) then 1 else 0
  {
    assert (acts + [a])[..|acts|] == acts;
  }

  /** How many screens have been read since the last tap or typing. */
  function IdleLooks(acts: seq<Act>): nat {
    if acts == [] || acts[|acts| - 1].Touch? || acts[|acts| - 1].Typed? then 0
    else IdleLooks(acts[..|acts| - 1]) + if acts[|acts| - 1].Look? then 1 else 0
  }

  lemma OneMoreLook(acts: seq<Act>, a: Act)
    ensures IdleLooks(acts + [a]) == if a.Touch? || a.Typed? then 0 else IdleLooks(acts) + if a.Look? then 1 else 0
  {
    assert (acts + [a])[..|acts|] == acts;
  }

  /** The app confirmed the post after `from`. */
  ghost predicate AppHeard(acts: seq<Act>, from: nat) {
    |acts| > from
    && (AppSays(acts[|acts| - 1]) || AppHeard(acts[..|acts| - 1], from))
  }

  /** After all the taps the app confirmed the post and was never seen offline, and no upload is stuck on the profile. */
  ghost predicate ConfirmedByApp(acts: seq<Act>, from: nat) {
    && from <= |acts| && Shares(acts[..from]) == Shares(acts)
    && Online(acts, from) && AppHeard(acts, from) && !LeftUploading(acts, from)
  }

  lemma {:induction false} OnlineMeans(acts: seq<Act>, from: nat, i: nat)
    requires Online(acts, from) && from <= i < |acts| && acts[i].Look? && acts[i].screen.Some?
    ensures !ScreenHas(acts[i].screen.value, AppOffline)
  {
    if i < |acts| - 1 {
      OnlineMeans(acts[..|acts| - 1], from, i);
    }
  }

  lemma {:induction false} AppHeardMeans(acts: seq<Act>, from: nat)
    returns (k: nat)
    requires AppHeard(acts, from)
    ensures from <= k < |acts| && AppSays(acts[k])
  {
    k := |acts| - 1;
    if !AppSays(acts[k]) {
      k := AppHeardMeans(acts[..k], from);
    }
  }

  /** Since act `n`, after the last tap, neither the profile nor the app has shown the post. */
  ghost predicate NothingShown(acts: seq<Act>, n: nat) {
    && n <= |acts|
    && !(AppHeard(acts, n) && Online(acts, n) && !LeftUploading(acts, n))
    && (acts != [] && acts[0].Profile? && acts[0].view.Some? && acts[0].view.value.onProfile ==>
          forall k :: n <= k < |acts| ==> !ShowsNewPost(acts[k], acts[0].view.value))
  }

  /** The run was checked to the end, one last look taken, and there was no evidence. */
  ghost predicate Unproven(acts: seq<Act>) {
    acts != [] && exists n :: 0 <= n < |acts| && Shares(acts[..n]) == Shares(acts) && NothingShown(acts[..|acts| - 1], n)
  }

  /** The evidence for a published post. */
  ghost predicate Proven(acts: seq<Act>) {
    || (exists b, k :: SeenOnProfile(acts, b, k))
    || (exists from :: ConfirmedByApp(acts, from))
  }

  lemma {:induction false} SharesGrow(acts: seq<Act>, k: nat)
    requires k <= |acts|
    ensures Shares(acts[..k]) <= Shares(acts)
  {
    if k < |acts| {
      var n := |acts| - 1;
      assert acts[..n][..k] == acts[..k];
      SharesGrow(acts[..n], k);
    } else {
      assert acts[..k] == acts;
    }
  }

  /** If the number of taps has not changed since `was`, it is the same everywhere in between. */
  lemma NoShareSince(was: seq<Act>, acts: seq<Act>, k: nat)
    requires was <= acts && |was| <= k <= |acts| && Shares(was) == Shares(acts)
    ensures Shares(acts[..k]) == Shares(acts)
  {
    SharesGrow(acts, k);
    SharesGrow(acts[..k], |was|);
    assert acts[..k][..|was|] == was;
  }

  lemma OneMore(acts: seq<Act>, a: Act, platform: Platform, hasCaption: bool)
    requires Careful(acts, platform, hasCaption)
    requires IsShare(a) ==> ShareIsRight(acts, a.el, platform, hasCaption)
    ensures Careful(acts + [a], platform, hasCaption)
    ensures (acts + [a])[..|acts|] == acts
    ensures Shares(acts + [a]) == Shares(acts) + if IsShare(a) && a.done then 1 else 0
  {
    assert (acts + [a])[..|acts|] == acts;
  }

  // ── The run ──────────────────────────────────────────────────────────────

  class Run {
    const platform: Platform
    const hasCaption: bool
    const tape: nat -> Reply
    var at: nat
    var clock: nat
    var acts: seq<Act>
    var stage: Stage
    var posted: Posted
    var st: FlowState
    var captionTyped: bool
    var inGallery: bool

    ghost predicate Valid()
      reads this
    {
      && Careful(acts, platform, hasCaption)
      && (st.captionDone ==> CaptionTyped(acts))
    }

    constructor (platform: Platform, hasCaption: bool, tape: nat -> Reply, clock: nat)
      ensures Valid() && acts == [] && st == INITIAL_FLOW && posted == No && !inGallery
      ensures this.platform == platform && this.hasCaption == hasCaption && this.tape == tape
    {
      this.platform, this.hasCaption, this.tape, this.clock := platform, hasCaption, tape, clock;
      at, acts, stage, posted, st, captionTyped, inGallery := 0, [], Download, No, INITIAL_FLOW, !hasCaption, false;
    }

    // ── Calls to the phone ─────────────────────────────────────────────────

    method Next() returns (r: Reply)
      modifies this`at, this`clock
      ensures clock >= old(clock)
    {
      r := tape(at);
      at, clock := at + 1, clock + r.delay;
    }

    /** A call whose failure throws and which leaves nothing to remember. */
    method Try() returns (works: bool)
      modifies this`at, this`clock
      ensures clock >= old(clock)
    {
      var r := Next();
      works := r.works;
    }

    method Sleep(ms: nat)
      requires Valid()
      modifies this`at, this`clock, this`acts
      ensures Valid() && (CaptionTyped(old(acts)) ==> CaptionTyped(acts)) && acts == old(acts) + [Slept(ms)] && Shares(acts) == Shares(old(acts))
      ensures acts[..|old(acts)|] == old(acts)
      ensures clock >= old(clock) + ms
    {
      var r := Next();
      clock := clock + ms;
      OneMore(acts, Slept(ms), platform, hasCaption);
      acts := acts + [Slept(ms)];
    }

    method Dump() returns (screen: Option<Screen>)
      requires Valid()
      modifies this`at, this`clock, this`acts
      ensures Valid() && (CaptionTyped(old(acts)) ==> CaptionTyped(acts)) && acts == old(acts) + [Look(screen)] && Shares(acts) == Shares(old(acts))
      ensures acts[..|old(acts)|] == old(acts)
      ensures clock >= old(clock)
    {
      var r := Next();
      screen := r.screen;
      OneMore(acts, Look(screen), platform, hasCaption);
      acts := acts + [Look(screen)];
    }

    method TapEl(el: El, marks: Mark) returns (done: bool)
      requires Valid()
      requires marks == MarksShare ==> ShareIsRight(acts, el, platform, hasCaption)
      modifies this`at, this`clock, this`acts
      ensures Valid() && (CaptionTyped(old(acts)) ==> CaptionTyped(acts)) && acts == old(acts) + [Touch(el, marks, done)]
      ensures acts[..|old(acts)|] == old(acts)
      ensures Shares(acts) == Shares(old(acts)) + if marks == MarksShare && done then 1 else 0
      ensures clock >= old(clock)
    {
      var r := Next();
      done := r.works;
      OneMore(acts, Touch(el, marks, done), platform, hasCaption);
      acts := acts + [Touch(el, marks, done)];
    }

    method TypeText() returns (done: bool)
      requires Valid()
      modifies this`at, this`clock, this`acts
      ensures Valid() && (CaptionTyped(old(acts)) ==> CaptionTyped(acts)) && acts == old(acts) + [Typed(done)] && Shares(acts) == Shares(old(acts))
      ensures done ==> CaptionTyped(acts)
      ensures clock >= old(clock)
    {
      var r := Next();
      done := r.works;
      OneMore(acts, Typed(done), platform, hasCaption);
      acts := acts + [Typed(done)];
    }

    method SnapshotProfile() returns (view: Option<Snapshot>)
      requires Valid()
      modifies this`at, this`clock, this`acts
      ensures Valid() && (CaptionTyped(old(acts)) ==> CaptionTyped(acts)) && acts == old(acts) + [Profile(view)] && Shares(acts) == Shares(old(acts))
      ensures acts[..|old(acts)|] == old(acts)
      ensures clock >= old(clock)
    {
      var r := Next();
      view := r.view;
      OneMore(acts, Profile(view), platform, hasCaption);
      acts := acts + [Profile(view)];
    }

    method MainInFront() returns (main: bool)
      requires Valid()
      modifies this`at, this`clock, this`acts
      ensures Valid() && (CaptionTyped(old(acts)) ==> CaptionTyped(acts)) && acts == old(acts) + [Front(main)] && Shares(acts) == Shares(old(acts))
      ensures acts[..|old(acts)|] == old(acts)
      ensures clock >= old(clock)
    {
      var r := Next();
      main := r.works;
      OneMore(acts, Front(main), platform, hasCaption);
      acts := acts + [Front(main)];
    }

    // ── The stages ─────────────────────────────────────────────────────────

    function Failed(retryable: bool): Result
      reads this
    {
      Result(false, stage, posted, retryable, None)
    }

    /** The compose screen, with nothing in the way. */
    ghost predicate ReadyToPost(s: Screen, state: FlowState) {
      !state.shareTapped && HasPostButton(s, platform) && HasCaptionField(s) && Unobstructed(platform, s, state)
    }

    /** A turn was of use: the missing caption is typed, or Share is tapped. */
    predicate Advanced(before: FlowState)
      reads this
    {
      if hasCaption && !before.captionDone then st.captionDone && !st.shareTapped else st.shareTapped
    }

    method NextAction(s: Screen, state: FlowState, withCaption: bool) returns (a: Action)
      ensures Safe(a, platform, s, state, withCaption)
      ensures a.Success? <==> state.shareTapped && Confirms(s)
      ensures ReadyToPost(s, state) ==> if withCaption && !state.captionDone then a.Caption? else a.Tap? && a.marks == MarksShare
    {
      a := Decide(platform, s, state, withCaption);
      DecisionIsSafe(platform, s, state, withCaption);
      SuccessIff(platform, s, state, withCaption);
      ComposeScreenIff(platform, s);
      if ReadyToPost(s, state) {
        ComposeScreenIsUsed(platform, s, state, withCaption);
      }
    }

    /** Nothing was shared yet; and what was answered says so. */
    ghost predicate BeforeShare()
      reads this
    {
      Valid() && Shares(acts) == 0 && posted == No && !st.shareTapped
    }

    /** Download, push and wake-up; any of them may throw. */
    method PushVideo() returns (works: bool)
      requires BeforeShare()
      modifies this`at, this`clock, this`stage, this`inGallery
      ensures BeforeShare() && clock >= old(clock) && (works ==> inGallery)
    {
      works := Try();
      if !works { return; }
      stage := Push;
      works := Try();
      if !works { return; }
      inGallery := true;
      stage := Prepare;
      works := Try();
    }

    /** The profile as it was before; nothing if it cannot be read or is not the profile. */
    method ReadBaseline() returns (baseline: Option<Snapshot>)
      requires BeforeShare() && acts == []
      modifies this`at, this`clock, this`acts
      ensures BeforeShare() && |acts| == 1
      ensures baseline.Some? ==> acts[0] == Profile(baseline) && baseline.value.onProfile
      ensures acts[0].Profile? && (baseline.None? ==> !(acts[0].view.Some? && acts[0].view.value.onProfile))
    {
      baseline := SnapshotProfile();
      if baseline.Some? && !baseline.value.onProfile {
        baseline := None;
      }
    }

    /** Push, and the app that is to be used. */
    method PushAndResolve() returns (o: Flow<()>)
      requires BeforeShare() && acts == []
      modifies this
      ensures BeforeShare() && acts == []
      ensures o.Return? ==> !o.result.ok && o.result.verdict.None? && o.result.posted == No
      ensures o.Go? ==> inGallery
    {
      var pushed := PushVideo();
      if !pushed { return Throw; }
      var resolved := Try();
      if !resolved { return Throw; }
      var installed := Try();
      o := if installed then Go(()) else Return(Failed(false));
    }

    /** Check of the network, and the share intent. */
    method StartShare() returns (o: Flow<()>)
      requires BeforeShare()
      modifies this`at, this`clock, this`acts
      ensures BeforeShare() && old(acts) <= acts
      ensures o.Return? ==> !o.result.ok && o.result.verdict.None? && o.result.posted == No
      ensures |acts| > |old(acts)| && acts[|old(acts)|].Look?
    {
      var before := Dump();
      if before.Some? && before.value.ofApp && IsAppOffline(before.value) {
        return Return(Failed(true));
      }
      var started := Try();
      if !started { return Throw; }
      Sleep(3500);
      o := Go(());
    }

    /** Push, baseline of the profile, check of the network, and the share intent. */
    method PrepareRun(canReadProfile: bool) returns (o: Flow<Option<Snapshot>>)
      requires BeforeShare() && acts == [] && st == INITIAL_FLOW
      modifies this
      ensures BeforeShare()
      ensures o.Return? ==> !o.result.ok && o.result.verdict.None? && o.result.posted == No
      ensures o.Go? ==> inGallery
      ensures o.Go? && o.value.Some? ==> |acts| > 0 && acts[0] == Profile(o.value) && o.value.value.onProfile
      ensures o.Go? ==> acts != [] && (acts[0].Profile? <==> canReadProfile)
      ensures o.Go? && o.value.None? && canReadProfile ==> !(acts[0].view.Some? && acts[0].view.value.onProfile)
    {
      var pushed :- PushAndResolve();
      var baseline: Option<Snapshot> := None;
      if canReadProfile {
        baseline := ReadBaseline();
      }
      var started :- StartShare();
      o := Go(baseline);
    }

    /** Taps the caption field and types into it. */
    method TypeInto(field: El) returns (o: Flow<()>)
      requires BeforeShare()
      modifies this`at, this`clock, this`acts
      ensures BeforeShare() && old(acts) <= acts
      ensures o.Return? ==> !o.result.ok && o.result.verdict.None? && !o.result.retryable && o.result.posted == No
      ensures o.Go? ==> CaptionTyped(acts)
      ensures clock >= old(clock) && (o.Go? ==> clock >= old(clock) + 700)
    {
      var tapped := TapEl(field, Plain);
      if !tapped { return Throw; }
      Sleep(700);
      var typed := TypeText();
      if !typed { return Return(Failed(false)); }
      o := Go(());
    }

    /** Types the caption, notes it, and looks whether it arrived. */
    method EnterCaption(field: El) returns (o: Flow<()>)
      requires BeforeShare()
      modifies this
      ensures BeforeShare() && inGallery == old(inGallery) && old(acts) <= acts
      ensures o.Return? ==> !o.result.ok && o.result.verdict.None? && !o.result.retryable && o.result.posted == No
      ensures clock >= old(clock) && (o.Go? ==> clock >= old(clock) + 700)
      ensures o.Go? ==> st == old(st).(captionDone := true)
    {
      var typed :- TypeInto(field);
      st := st.(captionDone := true);
      var landed := Dump();
      var matches := Try();
      captionTyped := landed.Some? && matches;
      o := Go(());
    }

    /** The post may exist; nothing else is decided. */
    ghost predicate Shared(taps: nat)
      reads this
    {
      Valid() && Shares(acts) == taps && posted == Unsure && st.shareTapped && (hasCaption ==> CaptionTyped(acts))
    }

    /** Before the first share-marked tap has come back, or just after. */
    ghost predicate InCompose()
      reads this
    {
      if st.shareTapped then Shared(1) else BeforeShare()
    }

    /** Taps what was decided on the screen read last, and notes what the tap stands for. */
    method Perform(el: El, marks: Mark, s: Screen) returns (done: bool)
      requires BeforeShare() && acts != [] && acts[|acts| - 1] == Look(Some(s))
      requires Safe(Tap(el, marks), platform, s, st, hasCaption)
      modifies this
      ensures InCompose() && inGallery == old(inGallery) && old(acts) <= acts
      ensures !done ==> BeforeShare()
      ensures done ==> (st.shareTapped <==> marks == MarksShare) && st.captionDone == old(st.captionDone)
      ensures clock >= old(clock)
    {
      done := TapEl(el, marks);
      if done {
        if marks == MarksTarget { st := st.(targetChosen := true); }
        if marks == MarksNext { st := st.(nextTaps := st.nextTaps + 1); }
        if marks == MarksShare { st, posted := st.(shareTapped := true), Unsure; }
      }
    }

    /** Acts on the screen just read; tells whether it was one to act on. */
    method ActOnCompose(s: Screen) returns (o: Flow<bool>)
      requires BeforeShare() && acts != [] && acts[|acts| - 1] == Look(Some(s))
      modifies this
      ensures inGallery == old(inGallery) && old(acts) <= acts
      ensures if o.Go? && o.value then InCompose() else BeforeShare()
      ensures o.Return? ==> !o.result.ok && o.result.verdict.None? && o.result.posted == No
      ensures clock >= old(clock) && (o.Go? && o.value ==> clock >= old(clock) + 700)
      ensures old(ReadyToPost(s, st)) && o.Go? ==> o.value && Advanced(old(st))
      ensures o.Return? ==> !o.result.retryable
      ensures o.Go? && !o.value ==> IdleLooks(acts) == IdleLooks(old(acts))
    {
      var action := NextAction(s, st, hasCaption);
      if action.Error? { return Return(Failed(action.retryable)); }
      if action.Caption? {
        var entered :- EnterCaption(action.el);
        return Go(true);
      }
      if action.Tap? {
        var tapped := Perform(action.el, action.marks, s);
        if !tapped { return Throw; }
        Sleep(2500);
        return Go(true);
      }
      if st.captionDone {
        Sleep(1000);
        OneMoreLook(old(acts), Slept(1000));
      }
      o := Go(false);
    }

    /** One turn of the walk: reads the screen and acts on it. `unknown` counts unrecognised screens in a row. */
    method ComposeStep(unknown: nat) returns (o: Flow<nat>)
      requires BeforeShare() && unknown <= IdleLooks(acts)
      modifies this
      ensures inGallery == old(inGallery) && old(acts) <= acts
      ensures if o.Go? then InCompose() else BeforeShare()
      ensures o.Return? ==> !o.result.ok && o.result.verdict.None? && o.result.posted == No
      ensures clock >= old(clock) && (o.Go? ==> clock >= old(clock) + 700)
      ensures |acts| > |old(acts)| && acts[|old(acts)|].Look?
      ensures var seen := acts[|old(acts)|].screen; seen.Some? && old(ReadyToPost(seen.value, st)) && o.Go? ==> Advanced(old(st))
      ensures o.Go? ==> o.value <= IdleLooks(acts)
      ensures o.Return? && o.result.retryable ==> IdleLooks(acts) >= 8
    {
      var screen := Dump();
      OneMoreLook(old(acts), Look(screen));
      if screen.Some? {
        var acted :- ActOnCompose(screen.value);
        if acted { return Go(0); }
      }
      if unknown + 1 >= UNKNOWN_SCREEN_LIMIT { return Return(Failed(true)); }
      ghost var idle := acts;
      Sleep(2000);
      OneMoreLook(idle, Slept(2000));
      o := Go(unknown + 1);
    }

    /** Walks the screens until the Share/Post button has been tapped. */
    method ComposeRun() returns (o: Flow<()>)
      requires BeforeShare()
      modifies this
      ensures inGallery == old(inGallery) && old(acts) <= acts
      ensures if o.Go? then Shared(1) else BeforeShare()
      ensures o.Return? ==> !o.result.ok && o.result.verdict.None? && o.result.posted == No
      ensures o.Return? && o.result.retryable ==> IdleLooks(acts) >= 8 || clock > old(clock) + 180_000
    {
      stage := Compose;
      var unknown: nat := 0;
      var deadline := clock + COMPOSE_TIMEOUT;
      while !st.shareTapped
        invariant unknown <= IdleLooks(acts)
        invariant InCompose() && inGallery == old(inGallery) && old(acts) <= acts
        decreases deadline + 1 - clock
      {
        if clock > deadline { return Return(Failed(true)); }
        unknown :- ComposeStep(unknown);
      }
      o := Go(());
    }

    /** Waits, then reads the screen; keeps it only if it is the compose screen. */
    method ComposingAfter(ms: nat) returns (screen: Option<Screen>)
      requires Valid()
      modifies this`at, this`clock, this`acts
      ensures Valid() && Shares(acts) == Shares(old(acts)) && (CaptionTyped(old(acts)) ==> CaptionTyped(acts))
      ensures LookedAfter(old(acts), acts, ms)
      ensures screen.Some? ==> acts[|acts| - 1] == Look(screen)
      ensures screen.Some? <==> ShowsCompose(acts[|acts| - 1], platform)
    {
      ghost var was := acts;
      Sleep(ms);
      ghost var slept := acts;
      var seen := Dump();
      assert acts[|was|] == slept[|was|] == Slept(ms);
      assert acts[..|was|] == slept[..|was|];
      if seen.Some? {
        ComposeScreenIff(platform, seen.value);
      }
      screen := if seen.Some? && IsComposeScreen(platform, seen.value) then seen else None;
    }

    /** Looks for the compose screen, and if it is there once more three seconds later. */
    method StillComposing() returns (screen: Option<Screen>)
      requires Valid()
      modifies this`at, this`clock, this`acts
      ensures Valid() && old(acts) <= acts && Shares(acts) == Shares(old(acts))
      ensures CaptionTyped(old(acts)) ==> CaptionTyped(acts)
      ensures screen.Some? ==> SeenTwice(acts, platform) && acts[|acts| - 1] == Look(screen)
      ensures acts != [] && (screen.None? ==> !ShowsCompose(acts[|acts| - 1], platform))
    {
      screen := ComposingAfter(5000);
      if screen.Some? {
        ghost var seen := acts;
        screen := ComposingAfter(3000);
        if screen.Some? {
          TwoLooks(seen, acts, platform);
        }
      }
    }

    /** Taps the button again, if it is still the thing to do on the screen just seen twice. */
    method TapAgain(s: Screen) returns (o: Flow<bool>)
      requires Shared(Shares(acts)) && Shares(acts) > 0
      requires SeenTwice(acts, platform) && acts[|acts| - 1] == Look(Some(s))
      modifies this`at, this`clock, this`acts
      ensures old(acts) <= acts && !o.Return?
      ensures Shares(acts) == Shares(old(acts)) + if o.Go? && o.value then 1 else 0
      ensures Shared(Shares(acts))
      ensures o.Go? && !o.value ==> acts == old(acts) && !ReadyToPost(s, st.(shareTapped := false))
    {
      var action := NextAction(s, st.(shareTapped := false), false);
      if !action.Tap? || action.marks != MarksShare { return Go(false); }
      var tapped := TapEl(action.el, MarksShare);
      o := if tapped then Go(true) else Throw;
    }

    /** The compose screen is still there, with nothing in the way of another tap. */
    ghost predicate StillReady(a: Act)
      reads this
    {
      ShowsCompose(a, platform) && ReadyToPost(a.screen.value, st.(shareTapped := false))
    }

    /** One look after the tap: true if it was made again, false if it has left the compose screen. */
    method ConfirmTurn(attempt: nat) returns (o: Flow<bool>)
      requires 1 <= attempt <= SHARE_TAP_ATTEMPTS && Shared(attempt)
      modifies this`at, this`clock, this`acts
      ensures old(acts) <= acts && Shared(if o.Go? && o.value then attempt + 1 else attempt)
      ensures o.Go? && o.value ==> attempt < SHARE_TAP_ATTEMPTS
      ensures o.Return? ==> o.result == Failed(false) && attempt == SHARE_TAP_ATTEMPTS && SeenTwice(acts, platform)
      ensures o.Go? && !o.value ==> acts != [] && !StillReady(acts[|acts| - 1])
    {
      var screen := StillComposing();
      if screen.None? { return Go(false); }
      if attempt >= SHARE_TAP_ATTEMPTS { return Return(Failed(false)); }
      o := TapAgain(screen.value);
    }

    /** The tap must have left the compose screen; if that is seen twice more, tap again, at most twice. */
    method ConfirmTap() returns (o: Flow<()>)
      requires Shared(1)
      modifies this`at, this`clock, this`acts
      ensures old(acts) <= acts
      ensures 1 <= Shares(acts) <= SHARE_TAP_ATTEMPTS && Shared(Shares(acts))
      ensures o.Return? ==> !o.result.ok && o.result.verdict.None? && !o.result.retryable && o.result.posted == Unsure
      ensures o.Return? ==> Shares(acts) == 3 && SeenTwice(acts, platform)
      ensures o.Go? ==> acts != [] && !StillReady(acts[|acts| - 1])
    {
      var attempt := 1;
      while true
        invariant 1 <= attempt <= SHARE_TAP_ATTEMPTS && Shared(attempt) && old(acts) <= acts
        decreases SHARE_TAP_ATTEMPTS - attempt
      {
        var again :- ConfirmTurn(attempt);
        if !again { break; }
        attempt := attempt + 1;
      }
      o := Go(());
    }

    /** What was seen of the upload: the app's word for it, whether it was ever offline, or left unfinished. */
    ghost predicate UploadSeen(before: seq<Act>, app: bool, offline: bool, stuck: bool)
      reads this
    {
      && before <= acts
      && (offline <==> !Online(acts, |before|)) && (stuck <==> LeftUploading(acts, |before|))
      && (app <==> !offline && AppHeard(acts, |before|))
    }

    /** The profile has not been read since. */
    ghost predicate NoReading(from: nat)
      reads this
    {
      forall k :: from <= k < |acts| ==> !acts[k].Profile?
    }

    /** A screen has just been read; what it amounts to is still open. */
    ghost predicate JustLooked(before: seq<Act>, screen: Option<Screen>, offline: bool)
      reads this
    {
      && before <= acts && |acts| > |before| && acts[|acts| - 1] == Look(screen)
      && (offline <==> !Online(acts, |before|)) && !LeftUploading(acts, |before|)
      && (!offline ==> !AppHeard(acts[..|acts| - 1], |before|))
    }

    /** Acts on a screen read during the upload; tells whether the app confirmed or something happened. */
    method ActOnUpload(s: Screen, quiet: bool, ghost before: seq<Act>, offline: bool) returns (o: Flow<Heard>)
      requires Shares(acts) > 0 && Shared(Shares(acts)) && NoReading(|before|) && JustLooked(before, Some(s), offline)
      requires quiet <==> !offline && UploadPercent(s.els).None?
      modifies this`at, this`clock, this`acts
      ensures NoReading(|before|) && Shares(acts) == Shares(old(acts)) && Shared(Shares(acts)) && before <= acts
      ensures o.Return? ==> !o.result.ok && o.result.verdict.None? && !o.result.retryable && o.result.posted == Unsure
      ensures o.Go? ==> UploadSeen(before, o.value == Confirmed, offline, false)
      ensures clock >= old(clock)
    {
      var action := NextAction(s, st, hasCaption);
      UploadPercentIff(s.els);
      assert AppSays(acts[|acts| - 1]) <==> !ShowsPercent(s) && Confirms(s);
      if action.Success? && quiet {
        return Go(Confirmed);
      }
      if action.Error? { return Return(Failed(false)); }
      if action.Tap? {
        var tapped := TapEl(action.el, action.marks);
        if !tapped { return Throw; }
        return Go(Moving);
      }
      o := Go(if action.Progress? && !offline then Moving else Idle);
    }

    /** Asks which window is in front. */
    method BackOnMain(ghost before: seq<Act>) returns (main: bool)
      requires Shares(acts) > 0 && Shared(Shares(acts)) && NoReading(|before|) && UploadSeen(before, false, false, false)
      modifies this`at, this`clock, this`acts
      ensures NoReading(|before|) && Shares(acts) == Shares(old(acts)) && Shared(Shares(acts))
      ensures UploadSeen(before, main, false, false)
      ensures clock >= old(clock)
    {
      main := MainInFront();
      assert main ==> AppSays(acts[|acts| - 1]);
    }

    /** Waits three seconds and reads the screen. */
    method LookAtUpload(ghost before: seq<Act>, offline: bool) returns (screen: Option<Screen>, stillOffline: bool)
      requires Shares(acts) > 0 && Shared(Shares(acts)) && NoReading(|before|) && UploadSeen(before, false, offline, false)
      modifies this`at, this`clock, this`acts
      ensures NoReading(|before|) && Shares(acts) == Shares(old(acts)) && Shared(Shares(acts)) && |acts| > |before|
      ensures JustLooked(before, screen, stillOffline) && clock >= old(clock) + 3000
    {
      Sleep(3000);
      screen := Dump();
      stillOffline := offline || (screen.Some? && IsAppOffline(screen.value));
    }

    /** One turn of the wait; `Some` ends it with whether the app confirmed. */
    method UploadStep(u: Waiting, ghost before: seq<Act>) returns (o: Flow<(Waiting, Option<bool>)>)
      requires Shares(acts) > 0 && Shared(Shares(acts)) && NoReading(|before|) && UploadSeen(before, false, u.offline, false)
      requires u.lastActivity <= clock && u.lastPctChange <= clock
      modifies this`at, this`clock, this`acts
      ensures NoReading(|before|) && Shares(acts) == Shares(old(acts)) && Shared(Shares(acts)) && before <= acts
      ensures o.Go? ==> u.lastActivity <= o.value.0.lastActivity <= clock && u.lastPctChange <= o.value.0.lastPctChange <= clock
      ensures o.Go? && o.value.1 == Some(false) ==> clock > o.value.0.lastPctChange + 90_000
      ensures o.Return? ==> !o.result.ok && o.result.verdict.None? && !o.result.retryable && o.result.posted == Unsure
      ensures o.Go? ==> UploadSeen(before, o.value.1 == Some(true), o.value.0.offline, false)
      ensures clock >= old(clock) + 3000
    {
      var screen, offline := LookAtUpload(before, u.offline);
      var w := u.(offline := offline);
      var pct: Option<nat> := if screen.Some? then UploadPercent(screen.value.els) else None;
      if pct.Some? && pct != w.lastPct {
        w := w.(lastPct := pct, lastPctChange := clock, lastActivity := clock);
      }
      if offline && clock - w.lastPctChange > UPLOAD_STALL { return Go((w, Some(false))); }
      if screen.Some? {
        var heard :- ActOnUpload(screen.value, !offline && pct.None?, before, offline);
        if heard == Confirmed { return Go((w, Some(true))); }
        if heard == Moving { w := w.(lastActivity := clock); }
      }
      if !offline && pct.None? {
        var main := BackOnMain(before);
        if main { return Go((w, Some(true))); }
      }
      o := Go((w, None));
    }

    /** Waits until the app confirms, stalls offline, or shows no progress for a minute. */
    method UploadRun() returns (o: Flow<(bool, bool)>)
      requires Shares(acts) > 0 && Shared(Shares(acts))
      modifies this
      ensures inGallery == old(inGallery) && old(acts) <= acts
      ensures NoReading(|old(acts)|) && Shares(acts) == Shares(old(acts)) && Shared(Shares(acts))
      ensures o.Return? ==> !o.result.ok && o.result.verdict.None? && !o.result.retryable && o.result.posted == Unsure
      ensures o.Go? ==> UploadSeen(old(acts), o.value.0, o.value.1, false)
      ensures o.Go? && !o.value.0 ==> clock >= old(clock) + 60_000
    {
      stage := Upload;
      var u := Waiting(false, None, clock, clock);
      var deadline := clock + UPLOAD_TIMEOUT;
      while clock < deadline && clock - u.lastActivity < UPLOAD_QUIET
        invariant NoReading(|old(acts)|) && Shares(acts) == Shares(old(acts)) && Shared(Shares(acts)) && inGallery == old(inGallery)
        invariant UploadSeen(old(acts), false, u.offline, false)
        invariant old(clock) <= u.lastActivity <= clock && old(clock) <= u.lastPctChange <= clock
        decreases deadline - clock
      {
        var turn :- UploadStep(u, old(acts));
        u := turn.0;
        if turn.1.Some? { return Go((turn.1.value, u.offline)); }
      }
      o := Go((false, u.offline));
    }

    /** A reading of the profile without an upload that shows a post which `base` does not. */
    ghost predicate NewPostRead(base: Snapshot, from: nat)
      reads this
    {
      exists k :: from <= k < |acts| && ShowsNewPost(acts[k], base)
    }

    /** One more reading of the profile. */
    method ReadProfile(ghost before: seq<Act>, ghost app: bool, ghost offline: bool, ghost stuck: bool)
      returns (after: Option<Snapshot>)
      requires Shares(acts) > 0 && Shared(Shares(acts)) && UploadSeen(before, app, offline, stuck)
      modifies this`at, this`clock, this`acts
      ensures Shares(acts) == Shares(old(acts)) && Shared(Shares(acts))
      ensures UploadSeen(before, app, offline, after.Some? && after.value.uploading.Some?)
      ensures acts == old(acts) + [Profile(after)] && clock >= old(clock)
      ensures SettledReadings(acts) == SettledReadings(old(acts)) + if IsSettled(Profile(after)) then 1 else 0
    {
      after := SnapshotProfile();
      OneMoreReading(old(acts), Profile(after));
    }

    method Pause(ms: nat, ghost before: seq<Act>, ghost app: bool, ghost offline: bool, ghost stuck: bool)
      requires Shares(acts) > 0 && Shared(Shares(acts)) && UploadSeen(before, app, offline, stuck)
      modifies this`at, this`clock, this`acts
      ensures Shares(acts) == Shares(old(acts)) && Shared(Shares(acts)) && UploadSeen(before, app, offline, stuck)
      ensures acts == old(acts) + [Slept(ms)] && clock >= old(clock) + ms
      ensures SettledReadings(acts) == SettledReadings(old(acts))
    {
      Sleep(ms);
      OneMoreReading(old(acts), Slept(ms));
    }

    /** Reads the profile once more after a pause. */
    method ReadLater(ghost before: seq<Act>, ghost app: bool, ghost offline: bool) returns (after: Option<Snapshot>)
      requires Shares(acts) > 0 && Shared(Shares(acts)) && UploadSeen(before, app, offline, true)
      modifies this`at, this`clock, this`acts
      ensures Shares(acts) == Shares(old(acts)) && Shared(Shares(acts))
      ensures UploadSeen(before, app, offline, after.Some? && after.value.uploading.Some?)
      ensures acts == old(acts) + [Slept(15_000), Profile(after)] && clock > old(clock)
      ensures SettledReadings(acts) == SettledReadings(old(acts)) + if IsSettled(Profile(after)) then 1 else 0
    {
      Pause(15_000, before, app, offline, true);
      after := ReadProfile(before, app, offline, true);
    }

    /** Reads the profile, again and again while the newest post still uploads and moves. */
    method ReadSettled(ghost before: seq<Act>, ghost app: bool, ghost offline: bool) returns (after: Option<Snapshot>)
      requires Shares(acts) > 0 && Shared(Shares(acts)) && UploadSeen(before, app, offline, false)
      modifies this`at, this`clock, this`acts
      ensures Shares(acts) == Shares(old(acts)) && Shared(Shares(acts))
      ensures UploadSeen(before, app, offline, after.Some? && after.value.uploading.Some?)
      ensures old(acts) <= acts && |acts| > |old(acts)| && acts[|acts| - 1] == Profile(after)
      ensures forall k :: |old(acts)| <= k < |acts| - 1 ==> !IsSettled(acts[k])
      ensures SettledReadings(acts) == SettledReadings(old(acts)) + if IsSettled(Profile(after)) then 1 else 0
    {
      after := ReadProfile(before, app, offline, false);
      var until, lastPct, lastChange := clock + UPLOAD_TIMEOUT, Option<nat>.None, clock;
      while after.Some? && after.value.uploading.Some? && clock < until
        invariant Shares(acts) == Shares(old(acts)) && Shared(Shares(acts))
        invariant UploadSeen(before, app, offline, after.Some? && after.value.uploading.Some?)
        invariant old(acts) <= acts && |acts| > |old(acts)| && acts[|acts| - 1] == Profile(after)
        invariant forall k :: |old(acts)| <= k < |acts| - 1 ==> !IsSettled(acts[k])
        invariant SettledReadings(acts) == SettledReadings(old(acts)) + if IsSettled(Profile(after)) then 1 else 0
        decreases until - clock
      {
        if after.value.uploading != lastPct {
          lastPct, lastChange := after.value.uploading, clock;
        }
        if clock - lastChange > UPLOAD_STALL { break; }
        after := ReadLater(before, app, offline);
      }
    }

    /** Looks for the new post on the profile, up to three times, and finds it exactly if a reading shows it. */
    method VerifyRun(base: Snapshot, ghost before: seq<Act>, ghost app: bool, ghost offline: bool)
      returns (profile: bool, stuckAt: Option<nat>)
      requires Shares(acts) > 0 && Shared(Shares(acts)) && UploadSeen(before, app, offline, false)
      modifies this`at, this`clock, this`acts
      ensures Shares(acts) == Shares(old(acts)) && Shared(Shares(acts))
      ensures UploadSeen(before, app, offline, stuckAt.Some?) && old(acts) <= acts
      ensures profile <==> NewPostRead(base, |old(acts)|)
      ensures profile ==> stuckAt.None?
      ensures !profile && stuckAt.None? ==> SettledReadings(acts) == SettledReadings(old(acts)) + 3
    {
      var i := 0;
      profile, stuckAt := false, None;
      while i < PROFILE_CHECKS
        invariant Shares(acts) == Shares(old(acts)) && Shared(Shares(acts)) && UploadSeen(before, app, offline, false)
        invariant old(acts) <= acts && !profile && stuckAt.None? && 0 <= i <= PROFILE_CHECKS
        invariant forall k :: |old(acts)| <= k < |acts| ==> !ShowsNewPost(acts[k], base)
        invariant SettledReadings(acts) == SettledReadings(old(acts)) + i
      {
        var after := ReadSettled(before, app, offline);
        if after.Some? && after.value.uploading.Some? { return false, after.value.uploading; }
        if after.Some? && after.value.onProfile && IsNewPost(base, after.value) {
          assert ShowsNewPost(acts[|acts| - 1], base);
          return true, None;
        }
        if i < PROFILE_CHECKS - 1 {
          Pause(PROFILE_CHECK_GAP, before, app, offline, false);
        }
        i := i + 1;
      }
    }

    /** What a run that answers "ok" has seen: the new post on the profile, or the app's word while online. */
    ghost predicate Seen()
      reads this
    {
      Shares(acts) > 0 && Proven(acts)
    }

    method CheckPost(baseline: Option<Snapshot>, app: bool, offline: bool, ghost before: seq<Act>)
      returns (confirmed: bool, profile: Option<bool>)
      requires Shares(acts) > 0 && Shared(Shares(acts)) && UploadSeen(before, app, offline, false) && Shares(before) == Shares(acts)
      requires baseline.Some? ==> acts[0] == Profile(baseline) && baseline.value.onProfile
      modifies this
      ensures Shares(acts) == Shares(old(acts)) && Shared(Shares(acts)) && inGallery == old(inGallery)
      ensures confirmed ==> Seen()
      ensures old(acts) <= acts
      ensures confirmed <==>
        || (baseline.Some? && NewPostRead(baseline.value, |old(acts)|))
        || (AppHeard(acts, |before|) && Online(acts, |before|) && !LeftUploading(acts, |before|))
      ensures baseline.Some? <==> profile.Some?
      ensures profile == Some(true) ==> confirmed && exists k :: SeenOnProfile(acts, 0, k)
      ensures before <= acts
    {
      stage := Verify;
      profile := None;
      var stuckAt: Option<nat> := None;
      ghost var was := acts;
      if baseline.Some? {
        var found: bool;
        found, stuckAt := VerifyRun(baseline.value, before, app, offline);
        profile := Some(found);
        if found {
          ghost var k :| |was| <= k < |acts| && ShowsNewPost(acts[k], baseline.value);
          NoShareSince(was, acts, k);
          assert acts[0] == was[0];
          assert SeenOnProfile(acts, 0, k);
        }
      }
      confirmed := profile == Some(true) || (app && stuckAt.None? && !offline);
      if confirmed && profile != Some(true) {
        assert acts[..|before|] == before;
        assert ConfirmedByApp(acts, |before|);
      }
    }

    /** Where a run without a confirmed post can end: nothing shared, or shared and still open. */
    ghost predicate Open()
      reads this
    {
      if Shares(acts) == 0 then BeforeShare() else Shared(Shares(acts)) && Shares(acts) <= SHARE_TAP_ATTEMPTS && inGallery
    }

    /** Up to the last tap on Share. */
    method ShareRun(canReadProfile: bool) returns (o: Flow<Option<Snapshot>>)
      requires BeforeShare() && acts == [] && st == INITIAL_FLOW
      modifies this
      ensures Open()
      ensures o.Return? ==> !o.result.ok && o.result.verdict.None? && o.result.posted == posted && (Shares(acts) > 0 ==> !o.result.retryable)
      ensures o.Go? ==> Shares(acts) > 0
      ensures o.Go? && o.value.Some? ==> acts[0] == Profile(o.value) && o.value.value.onProfile
      ensures o.Go? ==> acts != [] && (acts[0].Profile? <==> canReadProfile)
      ensures o.Go? && o.value.None? && canReadProfile ==> !(acts[0].view.Some? && acts[0].view.value.onProfile)
    {
      var baseline :- PrepareRun(canReadProfile);
      var composed :- ComposeRun();
      var left :- ConfirmTap();
      o := Go(baseline);
    }

    /** From the last tap on Share to the answer. */
    method FinishRun(baseline: Option<Snapshot>) returns (o: Flow<Result>)
      requires Open() && Shares(acts) > 0
      requires baseline.Some? ==> acts[0] == Profile(baseline) && baseline.value.onProfile
      requires baseline.None? && acts != [] && acts[0].Profile? ==> !(acts[0].view.Some? && acts[0].view.value.onProfile)
      modifies this
      ensures o.Return? && o.result.verdict.Some? ==> Unproven(acts)
      ensures 0 < Shares(acts) <= SHARE_TAP_ATTEMPTS && Valid()
      ensures o.Go? ==> posted == Yes && o.value.ok && o.value.posted == Yes && !o.value.retryable && Seen()
      ensures !o.Go? ==> Open()
      ensures o.Return? ==> !o.result.ok && o.result.posted == posted && !o.result.retryable
    {
      ghost var before := acts;
      var upload :- UploadRun();
      ghost var uploaded := acts;
      var confirmed, profile := CheckPost(baseline, upload.0, upload.1, before);
      var verdict := Verdict(upload.0, profile);
      if !confirmed {
        ghost var checked := acts;
        var last := Dump();
        assert acts[..|acts| - 1] == checked && acts[..|before|] == before;
        assert forall k :: |before| <= k < |uploaded| ==> checked[k] == uploaded[k];
        assert NothingShown(checked, |before|);
        return Return(Result(false, stage, posted, false, Some(verdict)));
      }
      stage, posted := Finished, Yes;
      o := Go(Result(true, stage, posted, false, Some(verdict)));
    }

    /** The whole run, with errors caught and the file removed unless the outcome is open. */
    method Execute(canReadProfile: bool) returns (r: Result)
      requires BeforeShare() && acts == [] && st == INITIAL_FLOW
      modifies this
      ensures Valid() && Shares(acts) <= SHARE_TAP_ATTEMPTS && r.posted == posted
      ensures posted == No <==> Shares(acts) == 0
      ensures r.ok <==> posted == Yes
      ensures r.ok ==> Seen()
      ensures r.retryable ==> Shares(acts) == 0
      ensures r.verdict.Some? ==> r.ok || Unproven(acts)
      ensures inGallery <==> posted == Unsure
    {
      var shared := ShareRun(canReadProfile);
      var o: Flow<Result>;
      if shared.Go? {
        o := FinishRun(shared.value);
      } else {
        o := shared.PropagateFailure();
      }
      if o.Go? {
        r := o.value;
      } else if o.Return? {
        r := o.result;
      } else {
        var screen := Dump();
        r := Result(false, stage, posted, posted == No, None);
      }
      if posted != Unsure {
        inGallery := false;
      }
    }
  }

  /** Where a video is to be published; the third platform is refused at once. */
  datatype Destination = App(platform: Platform) | YouTubeShorts

  /**
   For every phone, every clock and every failure: a run is declared retryable only if no Share tap has come
   back; it is declared published only if the profile or the app showed it; Share is tapped at most three
   times, each time on the post button of the screen just read, after the caption was typed, and again only
   when the compose screen was read twice more; and the file stays in the gallery exactly while the outcome
   is open.
   */
  method PublishToDevice(to: Destination, hasCaption: bool, hasUsername: bool, tape: nat -> Reply, clock: nat)
    returns (r: Result, acts: seq<Act>, kept: bool)
    ensures to.YouTubeShorts? ==> acts == [] && !r.ok && !r.retryable && r.posted == No
    ensures r.retryable ==> Shares(acts) == 0
    ensures r.posted == No <==> Shares(acts) == 0
    ensures r.ok <==> r.posted == Yes
    ensures r.ok ==> to.App? && Proven(acts)
    ensures r.verdict.Some? && !r.ok ==> Unproven(acts)
    ensures Shares(acts) <= SHARE_TAP_ATTEMPTS
    ensures to.App? ==> Careful(acts, to.platform, hasCaption)
    ensures kept <==> r.posted == Unsure
  {
    if to.YouTubeShorts? {
      return Result(false, Prepare, No, false, None), [], false;
    }
    var run := new Run(to.platform, hasCaption, tape, clock);
    r := run.Execute(to.platform == TikTok || hasUsername);
    acts, kept := run.acts, run.inGallery;
  }
}
