/**
 * The map editor's map properties: the map description with its edit field,
 * and the list of game versions the map allows, chosen through a modal dialog
 * with one checkbox per version. The dialog accepts only while at least one
 * box is checked. Its modal run is driven by a sequence of user events.
 */
module MapProperties {
  import opened Rules

  /** A checkbox state that has a box for every version. */
  predicate Covers(checks: map<GameVersion, bool>)
  {
    forall v: GameVersion :: v in checks
  }

  ghost predicate AnyChecked(checks: map<GameVersion, bool>)
    requires Covers(checks)
  {
    exists v: GameVersion :: checks[v]
  }

  /** The checked versions of `vs`, in the order of `vs`. */
  function Selected(vs: seq<GameVersion>, checks: map<GameVersion, bool>): (r: seq<GameVersion>)
    requires Covers(checks)
    ensures |r| <= |vs|
    ensures forall i :: 0 <= i < |r| ==> checks[r[i]]
    decreases |vs|
  {
    if vs == [] then []
    else Selected(vs[..|vs| - 1], checks) + (if checks[vs[|vs| - 1]] then [vs[|vs| - 1]] else [])
  }

  /** `r` is `s` with some elements left out and the rest in their order. */
  ghost predicate IsSubsequence<T>(r: seq<T>, s: seq<T>)
    decreases |s|
  {
    if r == [] then true
    else if s == [] then false
    else (r[|r| - 1] == s[|s| - 1] && IsSubsequence(r[..|r| - 1], s[..|s| - 1]))
         || IsSubsequence(r, s[..|s| - 1])
  }

  lemma {:induction false} SelectedMembers(vs: seq<GameVersion>, checks: map<GameVersion, bool>)
    requires Covers(checks)
    ensures forall v :: v in Selected(vs, checks) <==> v in vs && checks[v]
    decreases |vs|
  {
    if vs != [] {
      var init := vs[..|vs| - 1];
      SelectedMembers(init, checks);
      assert vs == init + [vs[|vs| - 1]];
    }
  }

  lemma {:induction false} SelectedKeepsOrder(vs: seq<GameVersion>, checks: map<GameVersion, bool>)
    requires Covers(checks)
    ensures IsSubsequence(Selected(vs, checks), vs)
    decreases |vs|
  {
    if vs != [] {
      var init := vs[..|vs| - 1];
      SelectedKeepsOrder(init, checks);
      var r := Selected(vs, checks);
      if checks[vs[|vs| - 1]] {
        assert r[..|r| - 1] == Selected(init, checks);
      } else {
        assert r == Selected(init, checks);
      }
    }
  }

  lemma {:induction false} SelectedNoDuplicates(vs: seq<GameVersion>, checks: map<GameVersion, bool>)
    requires Covers(checks)
    requires NoDuplicates(vs)
    ensures NoDuplicates(Selected(vs, checks))
    decreases |vs|
  {
    if vs != [] {
      var init := vs[..|vs| - 1];
      var last := vs[|vs| - 1];
      assert NoDuplicates(init);
      SelectedNoDuplicates(init, checks);
      SelectedMembers(init, checks);
      assert last !in init;
    }
  }

  /** The selection depends only on the boxes of the versions in `vs`. */
  lemma {:induction false} SelectedSeesOnlyListed(vs: seq<GameVersion>, c1: map<GameVersion, bool>, c2: map<GameVersion, bool>)
    requires Covers(c1) && Covers(c2)
    requires forall v :: v in vs ==> c1[v] == c2[v]
    ensures Selected(vs, c1) == Selected(vs, c2)
    decreases |vs|
  {
    if vs != [] {
      var init := vs[..|vs| - 1];
      assert vs[|vs| - 1] in vs;
      SelectedSeesOnlyListed(init, c1, c2);
    }
  }

  /**
   * The list of allowed versions is empty exactly when no box is checked, and
   * holds each checked version once, in the order of `GameVersions`.
   */
  lemma AllowedVersionsOfChecks(checks: map<GameVersion, bool>)
    requires Covers(checks)
    ensures Selected(GameVersions, checks) != [] <==> AnyChecked(checks)
    ensures forall v :: v in Selected(GameVersions, checks) <==> checks[v]
    ensures NoDuplicates(Selected(GameVersions, checks))
    ensures IsSubsequence(Selected(GameVersions, checks), GameVersions)
  {
    GameVersionsListEveryVersionOnce();
    SelectedMembers(GameVersions, checks);
    SelectedNoDuplicates(GameVersions, checks);
    SelectedKeepsOrder(GameVersions, checks);
    if AnyChecked(checks) {
      var v :| checks[v];
      assert v in Selected(GameVersions, checks);
    }
  }

  /** The boxes the editor checks before showing the dialog: those of `allowed`. */
  function PrecheckOf(allowed: seq<GameVersion>): (checks: map<GameVersion, bool>)
    ensures Covers(checks)
    ensures forall v :: checks[v] == (v in allowed)
  {
    GameVersionsListEveryVersionOnce();
    map v: GameVersion | v in GameVersions :: v in allowed
  }

  /** What the user does while the dialog is shown. */
  datatype DialogEvent =
    | Toggle(version: GameVersion, on: bool)
    | PressConfirm
    | Close

  /** How a modal run of the dialog ends. */
  datatype SessionEnd = SessionEnd(accepted: bool, checks: map<GameVersion, bool>, errorVisible: bool)

  /** The end of a modal run that starts in the given state and sees `events`. */
  ghost function Session(checks: map<GameVersion, bool>, errorVisible: bool, events: seq<DialogEvent>): (r: SessionEnd)
    requires Covers(checks)
    ensures Covers(r.checks)
    decreases |events|
  {
    if events == [] then SessionEnd(false, checks, errorVisible)
    else match events[0]
      case Toggle(v, on) => Session(checks[v := on], errorVisible, events[1..])
      case PressConfirm =>
        if AnyChecked(checks) then SessionEnd(true, checks, errorVisible)
        else Session(checks, true, events[1..])
      case Close => SessionEnd(false, checks, errorVisible)
  }

  /** A run that ends accepted ends with at least one box checked. */
  lemma {:induction false} AcceptedSessionHasSelection(checks: map<GameVersion, bool>, errorVisible: bool, events: seq<DialogEvent>)
    requires Covers(checks)
    ensures Session(checks, errorVisible, events).accepted ==>
      Selected(GameVersions, Session(checks, errorVisible, events).checks) != []
    decreases |events|
  {
    if events != [] {
      match events[0]
      case Toggle(v, on) =>
        AcceptedSessionHasSelection(checks[v := on], errorVisible, events[1..]);
      case PressConfirm =>
        if AnyChecked(checks) {
          AllowedVersionsOfChecks(checks);
        } else {
          AcceptedSessionHasSelection(checks, true, events[1..]);
        }
      case Close =>
    }
  }

  /**
   * Confirming the pre-checked dialog unedited is accepted iff the old list is
   * non-empty; otherwise the warning shows and the run ends unaccepted.
   */
  lemma UneditedConfirm(allowed: seq<GameVersion>)
    ensures Session(PrecheckOf(allowed), false, [PressConfirm])
      == SessionEnd(allowed != [], PrecheckOf(allowed), allowed == [])
  {
    var checks := PrecheckOf(allowed);
    if allowed != [] {
      assert checks[allowed[0]];
    }
    assert AnyChecked(checks) == (allowed != []);
  }

  /**
   * The list an unedited confirm produces holds exactly the old list's
   * versions, and confirming unedited again produces the same list.
   */
  lemma UneditedConfirmIsIdempotent(allowed: seq<GameVersion>)
    ensures var once := Selected(GameVersions, PrecheckOf(allowed));
      && (forall v :: v in once <==> v in allowed)
      && Selected(GameVersions, PrecheckOf(once)) == once
  {
    var once := Selected(GameVersions, PrecheckOf(allowed));
    AllowedVersionsOfChecks(PrecheckOf(allowed));
    SelectedSeesOnlyListed(GameVersions, PrecheckOf(once), PrecheckOf(allowed));
  }

  class GameVersionDialog {
    var checks: map<GameVersion, bool>
    var errorVisible: bool
    var accepted: bool

    ghost predicate Valid()
      reads this
    {
      Covers(checks)
    }

    /** Every version's box starts checked; the warning starts hidden. */
    constructor ()
      ensures Valid() && (forall v :: checks[v]) && !errorVisible && !accepted
    {
      var boxes: map<GameVersion, bool> := map[];
      for i := 0 to |GameVersions|
        invariant forall j :: 0 <= j < i ==> GameVersions[j] in boxes
        invariant forall v :: v in boxes ==> boxes[v]
      {
        boxes := boxes[GameVersions[i] := true];
      }
      GameVersionsListEveryVersionOnce();
      forall v ensures v in boxes {
        assert GameVersions[VersionCode(v)] == v;
      }
      checks := boxes;
      errorVisible := false;
      accepted := false;
    }

    /** Whether `v`'s box is checked, i.e. whether `v` is among the allowed versions. */
    function IsChecked(v: GameVersion): (b: bool)
      reads this
      requires Valid()
      ensures b <==> v in Selected(GameVersions, checks)
    {
      AllowedVersionsOfChecks(checks);
      checks[v]
    }

    method SetChecked(v: GameVersion, on: bool)
      requires Valid()
      modifies this`checks
      ensures Valid() && checks == old(checks)[v := on]
      ensures IsChecked(v) == on
      ensures forall w :: w != v ==> IsChecked(w) == old(IsChecked(w))
    {
      checks := checks[v := on];
    }

    /** The checked versions, in the order of `GameVersions`. */
    method GetAllowedVersions() returns (list: seq<GameVersion>)
      requires Valid()
      ensures list == Selected(GameVersions, checks)
    {
      list := [];
      for i := 0 to |GameVersions|
        invariant list == Selected(GameVersions[..i], checks)
      {
        assert GameVersions[..i + 1][..i] == GameVersions[..i];
        if checks[GameVersions[i]] {
          list := list + [GameVersions[i]];
        }
      }
      assert GameVersions[..|GameVersions|] == GameVersions;
    }

    /** Accepts when some box is checked; otherwise shows the warning. */
    method TryConfirm()
      requires Valid()
      modifies this`accepted, this`errorVisible
      ensures AnyChecked(checks) ==> accepted && errorVisible == old(errorVisible)
      ensures !AnyChecked(checks) ==> errorVisible && accepted == old(accepted)
    {
      var checked := false;
      for i := 0 to |GameVersions|
        invariant checked <==> exists j :: 0 <= j < i && checks[GameVersions[j]]
      {
        checked := checked || checks[GameVersions[i]];
      }
      GameVersionsListEveryVersionOnce();
      if AnyChecked(checks) {
        var v :| checks[v];
        assert checks[GameVersions[VersionCode(v)]];
      }
      if checked {
        accepted := true;
      } else {
        errorVisible := true;
      }
    }

    /** The modal run: handles `events` until the dialog is accepted or closed. */
    method Exec(events: seq<DialogEvent>) returns (ok: bool)
      requires Valid() && !accepted
      modifies this
      ensures Valid() && ok == accepted
      ensures SessionEnd(ok, checks, errorVisible) == Session(old(checks), old(errorVisible), events)
    {
      var i := 0;
      var closed := false;
      while i < |events| && !accepted && !closed
        invariant 0 <= i <= |events|
        invariant Valid()
        invariant closed ==> !accepted
        invariant !accepted && !closed ==>
          Session(old(checks), old(errorVisible), events) == Session(checks, errorVisible, events[i..])
        invariant accepted || closed ==>
          Session(old(checks), old(errorVisible), events) == SessionEnd(accepted, checks, errorVisible)
      {
        assert events[i..][0] == events[i] && events[i..][1..] == events[i + 1..];
        match events[i] {
          case Toggle(v, on) => SetChecked(v, on);
          case PressConfirm => TryConfirm();
          case Close => closed := true;
        }
        i := i + 1;
      }
      ok := accepted;
    }
  }

  class MapPropertiesManager {
    var mapDescriptionRef: string
    var allowedVersions: seq<GameVersion>

    /** The text of the description edit field. */
    var displayedDescription: string

    var descriptionEnabled: bool
    var saveEnabled: bool
    var versionsEnabled: bool

    constructor (description: string, versions: seq<GameVersion>)
      ensures mapDescriptionRef == description && allowedVersions == versions
      ensures displayedDescription == description
      ensures !descriptionEnabled && !saveEnabled && !versionsEnabled
    {
      mapDescriptionRef := description;
      allowedVersions := versions;
      descriptionEnabled := false;
      saveEnabled := false;
      versionsEnabled := false;
      new;
      Refresh();
    }

    method Refresh()
      modifies this`displayedDescription
      ensures displayedDescription == mapDescriptionRef
    {
      displayedDescription := mapDescriptionRef;
    }

    method OnMapLoaded()
      modifies this
      ensures descriptionEnabled && saveEnabled && versionsEnabled
      ensures mapDescriptionRef == old(mapDescriptionRef) && allowedVersions == old(allowedVersions)
      ensures displayedDescription == mapDescriptionRef
    {
      descriptionEnabled := true;
      saveEnabled := true;
      versionsEnabled := true;
      Refresh();
    }

    /** Stores the edited text as the map description and shows it again. */
    method SaveMapDescription()
      modifies this`mapDescriptionRef, this`displayedDescription
      ensures mapDescriptionRef == old(displayedDescription)
      ensures displayedDescription == mapDescriptionRef
    {
      mapDescriptionRef := displayedDescription;
      Refresh();
    }

    /** A fresh dialog whose boxes are checked exactly for the allowed versions. */
    method PrecheckedDialog() returns (dialog: GameVersionDialog)
      ensures fresh(dialog) && dialog.Valid() && !dialog.accepted && !dialog.errorVisible
      ensures forall v :: dialog.IsChecked(v) <==> v in allowedVersions
      ensures dialog.checks == PrecheckOf(allowedVersions)
    {
      dialog := new GameVersionDialog();
      GameVersionsListEveryVersionOnce();
      for i := 0 to |GameVersions|
        invariant dialog.Valid() && !dialog.accepted && !dialog.errorVisible
        invariant forall j :: 0 <= j < i ==> dialog.checks[GameVersions[j]] == (GameVersions[j] in allowedVersions)
      {
        dialog.SetChecked(GameVersions[i], GameVersions[i] in allowedVersions);
      }
      forall v ensures dialog.checks[v] == (v in allowedVersions) {
        assert GameVersions[VersionCode(v)] == v;
      }
    }

    /**
     * Runs the dialog on `events`; if it is accepted the allowed versions
     * become the checked ones, which are then never empty.
     */
    method EditVersions(events: seq<DialogEvent>)
      modifies this`allowedVersions
      ensures var end := Session(PrecheckOf(old(allowedVersions)), false, events);
        && (end.accepted ==> allowedVersions == Selected(GameVersions, end.checks) && allowedVersions != [])
        && (!end.accepted ==> allowedVersions == old(allowedVersions))
    {
      var dialog := PrecheckedDialog();
      var ok := dialog.Exec(events);
      AcceptedSessionHasSelection(PrecheckOf(allowedVersions), false, events);
      if ok {
        allowedVersions := dialog.GetAllowedVersions();
      }
    }
  }
}
