/**
 What the publishing run does next, decided from one dump of the screen. Which labels an element carries is
 part of the element: the vocabularies behind them are not modelled.
 */
module PublishFlow {
  import opened Common
  import opened ProfileStats

  datatype Platform = Instagram | TikTok

  /** The vocabularies that an element's text, description or resource id may match. */
  datatype Label =
    | PermissionAllowId | Allow | KeepEditing | LoggedOut
    | Next | NextId | Dismiss | PostConfirm | HomeNav
    | Target(Platform) | OtherTarget(Platform)
    | Post(Platform) | PostExcluded
    | CaptionId | CaptionFullId | CaptionHint
    | VideoRejected | UploadFailed | InProgress | Posted | AppOffline

  /** `labels` are the vocabularies matched; `percent` the number of a text like "58%". */
  datatype El = El(bounds: Bounds, enabled: bool, isEdit: bool, labels: set<Label>, percent: Option<nat>)

  /** `installer`: the dumped window belongs to the permission controller or the package installer. */
  datatype Screen = Screen(els: seq<El>, installer: bool, ofApp: bool)

  datatype FlowState = FlowState(targetChosen: bool, captionDone: bool, shareTapped: bool, nextTaps: nat)

  const INITIAL_FLOW := FlowState(false, false, false, 0)

  datatype Mark = Plain | MarksTarget | MarksNext | MarksShare

  datatype Action =
    | Tap(el: El, marks: Mark)
    | Caption(el: El)
    | Progress
    | Success
    | Error(retryable: bool)
    | Unknown

  // ── Finding elements ─────────────────────────────────────────────────────

  predicate IsVisible(e: El) {
    e.bounds.Width() > 2 && e.bounds.Height() > 2
  }

  /** The first visible and enabled element with a label. */
  function ByLabel(els: seq<El>, l: Label): (r: Option<El>)
    ensures r.Some? ==> r.value in els && IsVisible(r.value) && r.value.enabled && l in r.value.labels
  {
    if els == [] then None
    else if IsVisible(els[0]) && els[0].enabled && l in els[0].labels then Some(els[0])
    else ByLabel(els[1..], l)
  }

  predicate ScreenHas(s: Screen, l: Label) {
    exists e :: e in s.els && l in e.labels
  }

  /** The elements with the property, in their order. */
  function Filter(els: seq<El>, p: El -> bool): seq<El> {
    if els == [] then [] else (if p(els[0]) then [els[0]] else []) + Filter(els[1..], p)
  }

  lemma {:induction false} FilterAre(els: seq<El>, p: El -> bool, e: El)
    ensures e in Filter(els, p) <==> e in els && p(e)
  {
    if els != [] {
      FilterAre(els[1..], p, e);
    }
  }

  /** An element of the list stood somewhere, and those in front of it are still in front of it. */
  lemma {:induction false} FilterComesFrom(els: seq<El>, p: El -> bool, k: nat) returns (i: nat)
    requires k < |Filter(els, p)|
    ensures i < |els| && p(els[i]) && els[i] == Filter(els, p)[k]
    ensures forall j :: 0 <= j < i && p(els[j]) ==> els[j] in Filter(els, p)[..k]
  {
    var first := if p(els[0]) then 1 else 0;
    if k < first {
      i := 0;
    } else {
      var n := FilterComesFrom(els[1..], p, k - first);
      i := n + 1;
      forall j | 0 <= j < i && p(els[j]) ensures els[j] in Filter(els, p)[..k] {
        if j == 0 {
          assert Filter(els, p)[..k][0] == els[0];
        } else {
          var before := Filter(els[1..], p)[..k - first];
          assert els[j] == els[1..][j - 1] && els[j] in before;
          var m :| 0 <= m < |before| && before[m] == els[j];
          assert Filter(els, p)[..k][m + first] == els[j];
        }
      }
    }
  }

  function EditTexts(els: seq<El>): seq<El> {
    Filter(els, e => IsVisible(e) && e.isEdit)
  }

  predicate EditsCaption(s: Screen) {
    exists e :: e in EditTexts(s.els) && CaptionFullId in e.labels
  }

  function FirstCaption(fields: seq<El>): Option<El> {
    if fields == [] then None
    else if CaptionId in fields[0].labels || CaptionHint in fields[0].labels then Some(fields[0])
    else FirstCaption(fields[1..])
  }

  /** The field that looks like one for the caption, or the only field there is. */
  function CaptionField(s: Screen): Option<El> {
    var fields := EditTexts(s.els);
    var hinted := FirstCaption(fields);
    if hinted.Some? then hinted else if |fields| == 1 then Some(fields[0]) else None
  }

  predicate IsField(e: El, els: seq<El>) {
    e in els && IsVisible(e) && e.isEdit
  }

  lemma EditTextsAreFields(els: seq<El>, e: El)
    ensures e in EditTexts(els) <==> IsField(e, els)
  {
    FilterAre(els, x => IsVisible(x) && x.isEdit, e);
  }

  lemma {:induction false} FirstCaptionIsField(fields: seq<El>)
    ensures FirstCaption(fields).Some? ==> FirstCaption(fields).value in fields
  {
    if fields != [] {
      FirstCaptionIsField(fields[1..]);
    }
  }

  lemma CaptionFieldIsField(s: Screen)
    ensures CaptionField(s).Some? ==> IsField(CaptionField(s).value, s.els)
  {
    var fields := EditTexts(s.els);
    FirstCaptionIsField(fields);
    if CaptionField(s).Some? {
      EditTextsAreFields(s.els, CaptionField(s).value);
    }
  }

  // ── The Share/Post button ────────────────────────────────────────────────

  function ScreenHeight(els: seq<El>): int {
    if els == [] then 1
    else
      var h := ScreenHeight(els[..|els| - 1]);
      if els[|els| - 1].bounds.bottom > h then els[|els| - 1].bounds.bottom else h
  }

  predicate IsCandidate(e: El, platform: Platform) {
    IsVisible(e) && e.enabled && PostExcluded !in e.labels && Post(platform) in e.labels
  }

  predicate InLowerHalf(e: El, height: int) {
    2 * e.bounds.top >= height
  }

  function Candidates(els: seq<El>, platform: Platform): seq<El> {
    Filter(els, e => IsCandidate(e, platform))
  }

  function Lower(els: seq<El>, height: int): seq<El> {
    Filter(els, e => InLowerHalf(e, height))
  }

  /** The first of the elements that begin lowest on the screen. */
  function Lowest(els: seq<El>): El
    requires els != []
  {
    var n := |els| - 1;
    if n == 0 then els[0]
    else
      var r := Lowest(els[..n]);
      if els[n].bounds.top > r.bounds.top then els[n] else r
  }

  function FindPostButton(s: Screen, platform: Platform): Option<El> {
    var candidates := Candidates(s.els, platform);
    var lower := Lower(candidates, ScreenHeight(s.els));
    var pool := if lower != [] then lower else if platform == Instagram then candidates else [];
    if pool == [] then None else Some(Lowest(pool))
  }

  lemma CandidatesAre(els: seq<El>, platform: Platform, e: El)
    ensures e in Candidates(els, platform) <==> e in els && IsCandidate(e, platform)
  {
    FilterAre(els, x => IsCandidate(x, platform), e);
  }

  lemma LowerAre(els: seq<El>, height: int, e: El)
    ensures e in Lower(els, height) <==> e in els && InLowerHalf(e, height)
  {
    FilterAre(els, x => InLowerHalf(x, height), e);
  }

  lemma {:induction false} LowestIsFirst(els: seq<El>) returns (k: nat)
    requires els != []
    ensures k < |els| && els[k] == Lowest(els)
    ensures forall j :: 0 <= j < |els| ==> els[j].bounds.top <= els[k].bounds.top
    ensures forall j :: 0 <= j < k ==> els[j].bounds.top < els[k].bounds.top
  {
    var n := |els| - 1;
    k := 0;
    if n > 0 {
      k := LowestIsFirst(els[..n]);
      assert forall j :: 0 <= j < n ==> els[..n][j] == els[j];
      if els[n].bounds.top > els[k].bounds.top {
        k := n;
      }
    }
  }

  /** The screen reaches down to its lowest element. */
  lemma {:induction false} HeightIsLowestBottom(els: seq<El>, m: int)
    ensures ScreenHeight(els) <= m <==> 1 <= m && forall e :: e in els ==> e.bounds.bottom <= m
  {
    if els != [] {
      var n := |els| - 1;
      HeightIsLowestBottom(els[..n], m);
      assert forall e :: e in els <==> e in els[..n] || e == els[n];
    }
  }

  /** The element is at least as far from the top as from the bottom of every element. */
  ghost predicate BeginsInLowerHalf(e: El, els: seq<El>) {
    1 <= 2 * e.bounds.top && forall o :: o in els ==> o.bounds.bottom - e.bounds.top <= e.bounds.top
  }

  lemma LowerHalfIff(e: El, els: seq<El>)
    ensures InLowerHalf(e, ScreenHeight(els)) <==> BeginsInLowerHalf(e, els)
  {
    HeightIsLowestBottom(els, 2 * e.bounds.top);
  }

  /** The first of the candidates that begin lowest. */
  ghost predicate IsFirstLowest(els: seq<El>, platform: Platform, k: nat) {
    && k < |els| && IsCandidate(els[k], platform)
    && forall j :: 0 <= j < |els| && IsCandidate(els[j], platform) ==>
         els[j].bounds.top <= els[k].bounds.top && (j < k ==> els[j].bounds.top < els[k].bounds.top)
  }

  lemma FirstOfLower(s: Screen, platform: Platform) returns (k: nat)
    requires Lower(Candidates(s.els, platform), ScreenHeight(s.els)) != []
    ensures IsFirstLowest(s.els, platform, k) && InLowerHalf(s.els[k], ScreenHeight(s.els))
    ensures FindPostButton(s, platform) == Some(s.els[k])
  {
    var h, candidates := ScreenHeight(s.els), Candidates(s.els, platform);
    var lower := Lower(candidates, h);
    var l := LowestIsFirst(lower);
    var c := FilterComesFrom(candidates, x => InLowerHalf(x, h), l);
    k := FilterComesFrom(s.els, x => IsCandidate(x, platform), c);
    forall j | 0 <= j < |s.els| && IsCandidate(s.els[j], platform)
      ensures s.els[j].bounds.top <= s.els[k].bounds.top && (j < k ==> s.els[j].bounds.top < s.els[k].bounds.top)
    {
      CandidatesAre(s.els, platform, s.els[j]);
      LowerAre(candidates, h, s.els[j]);
    }
  }

  lemma FirstOfAll(s: Screen) returns (k: nat)
    requires Candidates(s.els, Instagram) != [] && Lower(Candidates(s.els, Instagram), ScreenHeight(s.els)) == []
    ensures IsFirstLowest(s.els, Instagram, k) && FindPostButton(s, Instagram) == Some(s.els[k])
  {
    var c := LowestIsFirst(Candidates(s.els, Instagram));
    k := FilterComesFrom(s.els, x => IsCandidate(x, Instagram), c);
    forall j | 0 <= j < |s.els| && IsCandidate(s.els[j], Instagram)
      ensures s.els[j].bounds.top <= s.els[k].bounds.top && (j < k ==> s.els[j].bounds.top < s.els[k].bounds.top)
    {
      CandidatesAre(s.els, Instagram, s.els[j]);
    }
  }

  /** There is a button to post with. */
  ghost predicate HasPostButton(s: Screen, platform: Platform) {
    exists e :: e in s.els && IsCandidate(e, platform) && (platform == Instagram || BeginsInLowerHalf(e, s.els))
  }

  /** The button is the first of the candidates that begin lowest on the screen; TikTok's is in the lower half. */
  lemma PostButtonIsLowest(s: Screen, platform: Platform) returns (k: nat)
    requires FindPostButton(s, platform).Some?
    ensures IsFirstLowest(s.els, platform, k) && FindPostButton(s, platform) == Some(s.els[k])
    ensures platform == TikTok ==> BeginsInLowerHalf(s.els[k], s.els)
  {
    if Lower(Candidates(s.els, platform), ScreenHeight(s.els)) != [] {
      k := FirstOfLower(s, platform);
      LowerHalfIff(s.els[k], s.els);
    } else {
      k := FirstOfAll(s);
    }
  }

  /** One is found whenever there is one to find. */
  lemma PostButtonIff(s: Screen, platform: Platform)
    ensures FindPostButton(s, platform).Some? <==> HasPostButton(s, platform)
  {
    if e :| e in s.els && IsCandidate(e, platform) && (platform == Instagram || BeginsInLowerHalf(e, s.els)) {
      CandidatesAre(s.els, platform, e);
      LowerAre(Candidates(s.els, platform), ScreenHeight(s.els), e);
      LowerHalfIff(e, s.els);
    }
    if FindPostButton(s, platform).Some? {
      var k := PostButtonIsLowest(s, platform);
      assert s.els[k] in s.els;
    }
  }

  /** The button found is an enabled, visible and unexcluded Share/Post label on the screen. */
  lemma PostButtonIsCandidate(s: Screen, platform: Platform)
    ensures var r := FindPostButton(s, platform);
            r.Some? ==> r.value in s.els && IsCandidate(r.value, platform)
  {
    if FindPostButton(s, platform).Some? {
      var k := PostButtonIsLowest(s, platform);
    }
  }

  predicate IsComposeScreen(platform: Platform, s: Screen) {
    FindPostButton(s, platform).Some? && CaptionField(s).Some?
  }

  // ── The decision ─────────────────────────────────────────────────────────

  function Decide(platform: Platform, s: Screen, st: FlowState, hasCaption: bool): Action {
    var byId := ByLabel(s.els, PermissionAllowId);
    var allow := if byId.Some? then byId else if s.installer then ByLabel(s.els, Allow) else None;
    var keep := ByLabel(s.els, KeepEditing);
    if allow.Some? then Tap(allow.value, Plain)
    else if keep.Some? then Tap(keep.value, Plain)
    else if st.shareTapped then DecideAfterShare(s)
    else DecideBeforeShare(platform, s, st, hasCaption)
  }

  function DecideBeforeShare(platform: Platform, s: Screen, st: FlowState, hasCaption: bool): Action {
    var target := ByLabel(s.els, Target(platform));
    var confirm := ByLabel(s.els, PostConfirm);
    if ByLabel(s.els, LoggedOut).Some? && !EditsCaption(s) then Error(false)
    else if ScreenHas(s, VideoRejected) then Error(false)
    else if !st.targetChosen && target.Some? && ScreenHas(s, OtherTarget(platform)) then Tap(target.value, MarksTarget)
    else if confirm.Some? && !EditsCaption(s) then Tap(confirm.value, Plain)
    else DecideCompose(platform, s, st, hasCaption)
  }

  function DecideCompose(platform: Platform, s: Screen, st: FlowState, hasCaption: bool): Action {
    var button := FindPostButton(s, platform);
    var field := CaptionField(s);
    var byLabel := ByLabel(s.els, Next);
    var next := if byLabel.Some? then byLabel else ByLabel(s.els, NextId);
    var dismiss := ByLabel(s.els, Dismiss);
    if button.Some? && field.Some? then
      if hasCaption && !st.captionDone then Caption(field.value) else Tap(button.value, MarksShare)
    else if next.Some? && st.nextTaps < 6 then Tap(next.value, MarksNext)
    else if button.Some? && (!hasCaption || st.captionDone) then Tap(button.value, MarksShare)
    else if dismiss.Some? then Tap(dismiss.value, Plain)
    else Unknown
  }

  function DecideAfterShare(s: Screen): Action {
    var confirm := ByLabel(s.els, PostConfirm);
    var dismiss := ByLabel(s.els, Dismiss);
    if ScreenHas(s, UploadFailed) then Error(false)
    else if confirm.Some? then Tap(confirm.value, Plain)
    else if ScreenHas(s, InProgress) then Progress
    else if ScreenHas(s, Posted) then Success
    else if (exists e :: e in s.els && IsVisible(e) && HomeNav in e.labels) && EditTexts(s.els) == [] then Success
    else if dismiss.Some? then Tap(dismiss.value, Plain)
    else Unknown
  }

  /**
   Share is tapped only before it was tapped, only on the post button and only with the caption in place; a
   caption is typed at most once and only if there is one; an error is never retryable; Next is tapped at
   most six times; and whatever is tapped is on the screen.
   */
  predicate Safe(a: Action, platform: Platform, s: Screen, st: FlowState, hasCaption: bool) {
    match a
    case Tap(el, marks) =>
      && el in s.els && IsVisible(el) && el.enabled
      && (marks != Plain ==> !st.shareTapped)
      && (marks == MarksShare ==> (hasCaption ==> st.captionDone) && FindPostButton(s, platform) == Some(el))
      && (marks == MarksNext ==> st.nextTaps < 6)
      && (marks == MarksTarget ==> !st.targetChosen)
    case Caption(el) => hasCaption && !st.captionDone && !st.shareTapped && el in s.els && IsVisible(el) && el.isEdit
    case Error(retryable) => !retryable
    case Progress => st.shareTapped
    case Success => st.shareTapped
    case Unknown => true
  }

  lemma {:induction false} ComposeIsSafe(platform: Platform, s: Screen, st: FlowState, hasCaption: bool)
    requires !st.shareTapped
    ensures Safe(DecideCompose(platform, s, st, hasCaption), platform, s, st, hasCaption)
  {
    PostButtonIsCandidate(s, platform);
    CaptionFieldIsField(s);
  }

  lemma AfterShareIsSafe(platform: Platform, s: Screen, st: FlowState, hasCaption: bool)
    requires st.shareTapped
    ensures Safe(DecideAfterShare(s), platform, s, st, hasCaption)
  {
  }

  lemma {:induction false} BeforeShareIsSafe(platform: Platform, s: Screen, st: FlowState, hasCaption: bool)
    requires !st.shareTapped
    ensures Safe(DecideBeforeShare(platform, s, st, hasCaption), platform, s, st, hasCaption)
  {
    ComposeIsSafe(platform, s, st, hasCaption);
  }

  /** Every decision on every screen is safe. */
  lemma {:induction false} DecisionIsSafe(platform: Platform, s: Screen, st: FlowState, hasCaption: bool)
    ensures Safe(Decide(platform, s, st, hasCaption), platform, s, st, hasCaption)
  {
    if st.shareTapped {
      AfterShareIsSafe(platform, s, st, hasCaption);
    } else {
      BeforeShareIsSafe(platform, s, st, hasCaption);
    }
  }

  // ── What is decided, by the labels on the screen ─────────────────────────

  /** The element is enabled, and more than two pixels wide and high. */
  predicate CanBeTapped(e: El) {
    e.enabled && e.bounds.left + 2 < e.bounds.right && e.bounds.top + 2 < e.bounds.bottom
  }

  /** Some element that can be tapped has the label. */
  ghost predicate Offers(s: Screen, l: Label) {
    exists e :: e in s.els && CanBeTapped(e) && l in e.labels
  }

  lemma {:induction false} ByLabelIff(els: seq<El>, l: Label)
    ensures ByLabel(els, l).Some? <==> exists e :: e in els && CanBeTapped(e) && l in e.labels
  {
    if els != [] {
      ByLabelIff(els[1..], l);
      assert forall e :: e in els <==> e == els[0] || e in els[1..];
    }
  }

  lemma OffersIff(s: Screen, l: Label)
    ensures ByLabel(s.els, l).Some? <==> Offers(s, l)
  {
    ByLabelIff(s.els, l);
  }

  /** A dialog of the system, or the app's question about the draft. */
  ghost predicate HasDialog(s: Screen) {
    Offers(s, PermissionAllowId) || (s.installer && Offers(s, Allow)) || Offers(s, KeepEditing)
  }

  ghost predicate EditsText(s: Screen) {
    exists e :: IsField(e, s.els)
  }

  ghost predicate EditsTheCaption(s: Screen) {
    exists e :: IsField(e, s.els) && CaptionFullId in e.labels
  }

  lemma EditsIff(s: Screen)
    ensures EditTexts(s.els) != [] <==> EditsText(s)
    ensures EditsCaption(s) <==> EditsTheCaption(s)
  {
    forall e ensures e in EditTexts(s.els) <==> IsField(e, s.els) {
      EditTextsAreFields(s.els, e);
    }
    if EditTexts(s.els) != [] {
      assert EditTexts(s.els)[0] in EditTexts(s.els);
    }
  }

  ghost predicate TapsOn(a: Action, l: Label) {
    a.Tap? && a.marks == Plain && l in a.el.labels
  }

  /** A dialog is answered before anything else: allow the permission, keep the draft. */
  lemma DialogsComeFirst(platform: Platform, s: Screen, st: FlowState, hasCaption: bool)
    requires HasDialog(s)
    ensures var a := Decide(platform, s, st, hasCaption);
            if Offers(s, PermissionAllowId) then TapsOn(a, PermissionAllowId)
            else if s.installer && Offers(s, Allow) then TapsOn(a, Allow)
            else TapsOn(a, KeepEditing)
  {
    OffersIff(s, PermissionAllowId);
    OffersIff(s, Allow);
    OffersIff(s, KeepEditing);
  }

  /** The app is back on a main screen: a tab of its navigation bar is visible, and no text is edited. */
  ghost predicate ShowsHome(s: Screen) {
    (exists e :: e in s.els && IsVisible(e) && HomeNav in e.labels) && !EditsText(s)
  }

  /**
   The app confirms the post on this screen: nothing to answer, no failure, nothing in progress, and either
   it says so or it is back on a main screen.
   */
  ghost predicate Confirms(s: Screen) {
    && !HasDialog(s) && !ScreenHas(s, UploadFailed) && !Offers(s, PostConfirm) && !ScreenHas(s, InProgress)
    && (ScreenHas(s, Posted) || ShowsHome(s))
  }

  /** What is decided after Share, on every screen without a dialog. */
  lemma AfterShareMeans(platform: Platform, s: Screen, st: FlowState, hasCaption: bool)
    requires st.shareTapped && !HasDialog(s)
    ensures var a := Decide(platform, s, st, hasCaption);
            var failed, asks, busy := ScreenHas(s, UploadFailed), Offers(s, PostConfirm), ScreenHas(s, InProgress);
            && (a.Error? <==> failed)
            && (TapsOn(a, PostConfirm) <==> !failed && asks)
            && (a.Progress? <==> !failed && !asks && busy)
            && (a.Success? <==> Confirms(s))
            && (a.Tap? && !TapsOn(a, PostConfirm) <==>
                  !failed && !asks && !busy && !Confirms(s) && Offers(s, Dismiss))
            && (a.Tap? && !TapsOn(a, PostConfirm) ==> TapsOn(a, Dismiss))
  {
    OffersIff(s, PermissionAllowId);
    OffersIff(s, Allow);
    OffersIff(s, KeepEditing);
    OffersIff(s, PostConfirm);
    OffersIff(s, Dismiss);
    EditsIff(s);
  }

  /** The app's confirmation is taken exactly from the screens that confirm, and only after Share. */
  lemma SuccessIff(platform: Platform, s: Screen, st: FlowState, hasCaption: bool)
    ensures Decide(platform, s, st, hasCaption).Success? <==> st.shareTapped && Confirms(s)
  {
    if HasDialog(s) {
      DialogsComeFirst(platform, s, st, hasCaption);
    } else if st.shareTapped {
      AfterShareMeans(platform, s, st, hasCaption);
    }
  }

  /** A screen of one line of text, read after Share. */
  lemma OneLineOfText(platform: Platform, st: FlowState, hasCaption: bool, e: El)
    requires st.shareTapped && !e.isEdit
    ensures var a := Decide(platform, Screen([e], false, true), st, hasCaption);
            && (e.labels == {UploadFailed} ==> a == Error(false))
            && (e.labels == {InProgress} ==> a == Progress)
            && (e.labels == {Posted} ==> a == Success)
            && (e.labels == {} ==> a == Unknown)
  {
    var s := Screen([e], false, true);
    assert e in s.els;
    forall l ensures ScreenHas(s, l) <==> l in e.labels {
    }
    forall l ensures ByLabel(s.els, l).Some? ==> l in e.labels {
    }
  }

  /** Logged out, or the video refused. */
  ghost predicate Refuses(s: Screen) {
    (Offers(s, LoggedOut) && !EditsTheCaption(s)) || ScreenHas(s, VideoRejected)
  }

  /** The app asks where to post, with the alternatives on the screen. */
  ghost predicate AsksTarget(platform: Platform, s: Screen, st: FlowState) {
    !st.targetChosen && Offers(s, Target(platform)) && ScreenHas(s, OtherTarget(platform))
  }

  ghost predicate AsksToConfirm(s: Screen) {
    Offers(s, PostConfirm) && !EditsTheCaption(s)
  }

  /** What comes before the compose screen itself is looked at. */
  lemma BeforeComposeMeans(platform: Platform, s: Screen, st: FlowState, hasCaption: bool)
    requires !st.shareTapped && !HasDialog(s)
    ensures var a := Decide(platform, s, st, hasCaption);
            && (a.Error? <==> Refuses(s))
            && (a.Tap? && a.marks == MarksTarget <==> !Refuses(s) && AsksTarget(platform, s, st))
            && (a.Tap? && a.marks == MarksTarget ==> Target(platform) in a.el.labels)
            && (!Refuses(s) && !AsksTarget(platform, s, st) && AsksToConfirm(s) ==> TapsOn(a, PostConfirm))
            && (!Refuses(s) && !AsksTarget(platform, s, st) && !AsksToConfirm(s)
                ==> a == DecideCompose(platform, s, st, hasCaption))
  {
    OffersIff(s, PermissionAllowId);
    OffersIff(s, Allow);
    OffersIff(s, KeepEditing);
    OffersIff(s, LoggedOut);
    OffersIff(s, Target(platform));
    OffersIff(s, PostConfirm);
    EditsIff(s);
  }

  /** There is a field for the caption: one that looks like it, or just one field. */
  ghost predicate HasCaptionField(s: Screen) {
    || (exists e :: IsField(e, s.els) && (CaptionId in e.labels || CaptionHint in e.labels))
    || |EditTexts(s.els)| == 1
  }

  lemma {:induction false} FirstCaptionIff(fields: seq<El>)
    ensures FirstCaption(fields).Some? <==> exists e :: e in fields && (CaptionId in e.labels || CaptionHint in e.labels)
    ensures FirstCaption(fields).Some? ==>
      CaptionId in FirstCaption(fields).value.labels || CaptionHint in FirstCaption(fields).value.labels
  {
    if fields != [] {
      FirstCaptionIff(fields[1..]);
      assert forall e :: e in fields <==> e == fields[0] || e in fields[1..];
    }
  }

  lemma CaptionFieldIff(s: Screen)
    ensures CaptionField(s).Some? <==> HasCaptionField(s)
    ensures CaptionField(s).Some? ==>
      || CaptionId in CaptionField(s).value.labels || CaptionHint in CaptionField(s).value.labels
      || !(exists e :: IsField(e, s.els) && (CaptionId in e.labels || CaptionHint in e.labels))
  {
    forall e ensures e in EditTexts(s.els) <==> IsField(e, s.els) {
      EditTextsAreFields(s.els, e);
    }
    FirstCaptionIff(EditTexts(s.els));
  }

  /** The compose screen is the one with a button to post with and a field for the caption. */
  lemma ComposeScreenIff(platform: Platform, s: Screen)
    ensures IsComposeScreen(platform, s) <==> HasPostButton(s, platform) && HasCaptionField(s)
  {
    PostButtonIff(s, platform);
    CaptionFieldIff(s);
  }

  /** What is done on the screens of the composer itself. */
  lemma ComposeMeans(platform: Platform, s: Screen, st: FlowState, hasCaption: bool)
    requires !st.shareTapped && !HasDialog(s) && !Refuses(s) && !AsksTarget(platform, s, st) && !AsksToConfirm(s)
    ensures var a := Decide(platform, s, st, hasCaption);
            var button, field := HasPostButton(s, platform), HasCaptionField(s);
            var next := (Offers(s, Next) || Offers(s, NextId)) && st.nextTaps < 6;
            var missing := hasCaption && !st.captionDone;
            && (a.Caption? <==> button && field && missing)
            && (a.Tap? && a.marks == MarksShare <==> button && !missing && (field || !next))
            && (a.Tap? && a.marks == MarksNext <==> !(button && field) && next)
            && (a.Tap? && a.marks == MarksNext ==> Next in a.el.labels || (NextId in a.el.labels && !Offers(s, Next)))
            && (a.Tap? && a.marks == Plain <==> !(button && (field || !missing)) && !next && Offers(s, Dismiss))
            && (a.Tap? && a.marks == Plain ==> Dismiss in a.el.labels)
            && (a.Unknown? <==> !(button && (field || !missing)) && !next && !Offers(s, Dismiss))
  {
    BeforeComposeMeans(platform, s, st, hasCaption);
    PostButtonIff(s, platform);
    CaptionFieldIff(s);
    OffersIff(s, Next);
    OffersIff(s, NextId);
    OffersIff(s, Dismiss);
  }

  /** Nothing stands between the run and its button. */
  ghost predicate Unobstructed(platform: Platform, s: Screen, st: FlowState) {
    !HasDialog(s) && !Refuses(s) && !AsksTarget(platform, s, st) && !AsksToConfirm(s)
  }

  /** The run makes progress: on an unobstructed compose screen it types what is missing, else it shares. */
  lemma ComposeScreenIsUsed(platform: Platform, s: Screen, st: FlowState, hasCaption: bool)
    requires IsComposeScreen(platform, s) && !st.shareTapped && Unobstructed(platform, s, st)
    ensures var a := Decide(platform, s, st, hasCaption);
            && (a.Caption? <==> hasCaption && !st.captionDone)
            && (a.Tap? && a.marks == MarksShare <==> !hasCaption || st.captionDone)
  {
    ComposeScreenIff(platform, s);
    ComposeMeans(platform, s, st, hasCaption);
  }

  // ── Checking the profile ─────────────────────────────────────────────────

  /** A reading of the account's profile: post count if shown, and views of the unpinned tiles, newest first. */
  datatype Snapshot = Snapshot(onProfile: bool, posts: Option<nat>, views: seq<Option<nat>>, uploading: Option<nat>)

  const FRESH_POST_MAX_VIEWS := 100

  predicate IsNewPost(before: Snapshot, after: Snapshot) {
    if before.posts.Some? && after.posts.Some? then after.posts.value > before.posts.value
    else if |before.views| < 9 && |after.views| > |before.views| then true
    else if |before.views| < 1 || |after.views| < 2 then false
    else if before.views[0].None? || after.views[1].None? then false
    else if after.views[1].value < before.views[0].value then false
    else
      after.views[0].None?
      || (after.views[0].value < before.views[0].value && after.views[0].value <= FRESH_POST_MAX_VIEWS)
  }

  function UnpinnedViews(tiles: seq<Tile>): (r: seq<Option<nat>>)
    ensures (forall t :: t in tiles ==> t.views.Some?) ==> forall i :: 0 <= i < |r| ==> r[i].Some?
  {
    if tiles == [] then []
    else (if tiles[0].pinned then [] else [tiles[0].views]) + UnpinnedViews(tiles[1..])
  }

  function SnapshotOf(p: Profile, posts: Option<nat>): Snapshot {
    Snapshot(p.onProfile, posts, UnpinnedViews(p.tiles), p.uploading)
  }

  /** The same posts some time later: none came or went, and views only grew. */
  predicate SamePosts(before: Snapshot, after: Snapshot) {
    && (before.posts.Some? && after.posts.Some? ==> after.posts == before.posts)
    && |after.views| == |before.views|
    && forall i :: 0 <= i < |before.views| && before.views[i].Some? && after.views[i].Some? ==>
         after.views[i].value >= before.views[i].value
  }

  /**
   The check is sound: a profile with the same posts as before and no upload in its grid is never taken for
   one with a new post, whatever dump it was read from.
   */
  lemma {:induction false} SamePostsAreNoNewPost(before: Snapshot, nodes: seq<Node>, screenW: int, screenH: int, posts: Option<nat>)
    requires Acyclic(nodes)
    requires var after := SnapshotOf(ProfileOf(nodes, screenW, screenH), posts);
             after.uploading.None? && SamePosts(before, after)
    ensures !IsNewPost(before, SnapshotOf(ProfileOf(nodes, screenW, screenH), posts))
  {
    NoUploadIffAllViewsKnown(nodes, screenW, screenH);
  }

  /** The upload badge matters: with it, the same posts can look like a new one. */
  lemma UploadingTileLooksNew()
    ensures exists before: Snapshot, after: Snapshot ::
      after.uploading.Some? && SamePosts(before, after) && IsNewPost(before, after)
  {
    var before := Snapshot(true, None, [Some(5), Some(7)], None);
    var after := Snapshot(true, None, [None, Some(7)], Some(96));
    assert after.uploading.Some? && SamePosts(before, after) && IsNewPost(before, after);
  }

  /**
   One more post: counted where both counts are known, and in front of the others, whose views only grew; a
   full grid loses its last tile.
   */
  predicate OnePostAdded(before: Snapshot, after: Snapshot) {
    && (before.posts.Some? && after.posts.Some? ==> after.posts.value == before.posts.value + 1)
    && (|after.views| == |before.views| + 1 || (|before.views| >= 9 && |after.views| == |before.views|))
    && forall i :: 0 <= i < |after.views| - 1 && before.views[i].Some? ==>
         after.views[i + 1].Some? && after.views[i + 1].value >= before.views[i].value
  }

  /**
   An added post is recognised exactly if it was counted, the grid grew, or the newest post before had a view
   count and the new one has none yet or clearly fewer.
   */
  lemma AddedPostIsSeenIff(before: Snapshot, after: Snapshot)
    requires OnePostAdded(before, after)
    ensures IsNewPost(before, after) <==>
      || (before.posts.Some? && after.posts.Some?)
      || |before.views| < 9
      || (before.views[0].Some?
          && (after.views[0].None?
              || (after.views[0].value < before.views[0].value && after.views[0].value <= FRESH_POST_MAX_VIEWS)))
  {
  }

  // ── Signals during the upload ────────────────────────────────────────────

  predicate IsAppOffline(s: Screen) {
    ScreenHas(s, AppOffline)
  }

  /** The first percentage up to a hundred on the screen. */
  function UploadPercent(els: seq<El>): Option<nat> {
    if els == [] then None
    else if els[0].percent.Some? && els[0].percent.value <= 100 then els[0].percent
    else UploadPercent(els[1..])
  }

  /** The screen shows a percentage. */
  ghost predicate ShowsPercent(s: Screen) {
    exists e :: e in s.els && e.percent.Some? && 0 <= e.percent.value <= 100
  }

  lemma {:induction false} UploadPercentIff(els: seq<El>)
    ensures UploadPercent(els).Some? <==> exists e :: e in els && e.percent.Some? && e.percent.value <= 100
    ensures UploadPercent(els).Some? ==> exists e :: e in els && e.percent == UploadPercent(els) && e.percent.value <= 100
  {
    if els != [] {
      UploadPercentIff(els[1..]);
      assert forall e :: e in els <==> e == els[0] || e in els[1..];
    }
  }
}
