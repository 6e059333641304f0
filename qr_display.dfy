/**
 * `QRDisplayController`: the share panel. Opening it deactivates the
 * background objects listed in `disableWhileOpen` that are active, and
 * remembers exactly those; closing it reactivates what it remembered. It
 * also keeps the last URL shown, copies it to the clipboard on request and
 * hands it to the browser.
 */
module QrDisplay {
  import opened Common
  import opened Text

  /** A scene object with its `activeSelf` flag. */
  class GameObject {
    var active: bool

    constructor (active: bool)
      ensures this.active == active
    {
      this.active := active;
    }
  }

  // ---------------------------------------------------------------------
  // The disable / restore bookkeeping on values
  // ---------------------------------------------------------------------

  /**
   * What the disabling loop records, given the flags before it: each listed
   * object that is active when the loop reaches it, so the first occurrence
   * of each active object, in list order. Objects without a flag (`null`
   * entries, the panel itself) are skipped.
   */
  function Recorded(list: seq<GameObject?>, f: map<GameObject, bool>): seq<GameObject>
    decreases |list|
  {
    if list == [] then []
    else
      var prev := Recorded(list[..|list| - 1], f);
      var go := list[|list| - 1];
      if go != null && go in f && f[go] && go !in prev then prev + [go] else prev
  }

  /** Every flag switched off. */
  function AllOff(f: map<GameObject, bool>): map<GameObject, bool>
  {
    map go | go in f :: false
  }

  /** The recorded objects switched back on. */
  function Restore(f: map<GameObject, bool>, recorded: seq<GameObject>): map<GameObject, bool>
  {
    map go | go in f :: f[go] || go in recorded
  }

  /** The panel's flag, the flags of the listed objects and the record `_disabled`. */
  datatype Scene = Scene(panelActive: bool, flags: map<GameObject, bool>, disabled: seq<GameObject>)

  /** `EnsurePanelOpen`: only a present, inactive panel opens, disabling the background. */
  function EnsureOpen(list: seq<GameObject?>, hasPanel: bool, s: Scene): Scene
  {
    if !hasPanel || s.panelActive then s
    else Scene(true, AllOff(s.flags), Recorded(list, s.flags))
  }

  /** `Close`: the panel goes inactive, recorded objects come back, the record empties. */
  function CloseScene(s: Scene): Scene
  {
    Scene(false, Restore(s.flags, s.disabled), [])
  }

  /** The record holds exactly the listed objects that were active, each once. */
  lemma {:induction false} RecordedExactlyActive(list: seq<GameObject?>, f: map<GameObject, bool>)
    ensures forall go :: go in Recorded(list, f) <==> go in list && go in f && f[go]
    ensures Distinct(Recorded(list, f))
    decreases |list|
  {
    if list != [] {
      var init := list[..|list| - 1];
      RecordedExactlyActive(init, f);
      assert list == init + [list[|list| - 1]];
      forall go
        ensures go in Recorded(list, f) <==> go in list && go in f && f[go]
      {
        if go in list && go !in init {
          assert go == list[|list| - 1];
        }
      }
      var prev := Recorded(init, f);
      var last := list[|list| - 1];
      if last != null && last in f && f[last] && last !in prev {
        var r := prev + [last];
        forall i, j | 0 <= i < j < |r|
          ensures r[i] != r[j]
        {
          if j == |prev| {
            assert r[i] == prev[i];
          } else {
            assert r[i] == prev[i] && r[j] == prev[j];
          }
        }
      }
    }
  }

  /** Opening twice disables only once: `SetPreview` then `ShowQR` records the background once. */
  lemma OpenTwiceIsOpenOnce(list: seq<GameObject?>, hasPanel: bool, s: Scene)
    ensures EnsureOpen(list, hasPanel, EnsureOpen(list, hasPanel, s)) == EnsureOpen(list, hasPanel, s)
  {
  }

  /** Opening leaves every listed object inactive and records those it switched off. */
  lemma OpenDisablesBackground(list: seq<GameObject?>, s: Scene)
    requires !s.panelActive
    ensures var n := EnsureOpen(list, true, s);
      && n.panelActive
      && (forall go :: go in n.flags ==> !n.flags[go])
      && (forall go :: go in n.disabled <==> go in list && go in s.flags && s.flags[go])
  {
    RecordedExactlyActive(list, s.flags);
  }

  /**
   * Opening a closed panel and closing it again gives every listed object
   * back its original flag and leaves the panel inactive.
   */
  lemma OpenThenCloseRestores(list: seq<GameObject?>, s: Scene)
    requires !s.panelActive
    requires forall go :: go in s.flags ==> go in list
    ensures CloseScene(EnsureOpen(list, true, s)) == Scene(false, s.flags, [])
  {
    RecordedExactlyActive(list, s.flags);
    var r := Restore(AllOff(s.flags), Recorded(list, s.flags));
    assert r.Keys == s.flags.Keys;
    assert forall go :: go in r ==> r[go] == s.flags[go];
  }

  /** The text `ShowQR` puts on the clipboard: the URL, when copying is on and it is not empty. */
  function ClipboardText(copyUrlToClipboard: bool, url: Option<string>): (r: Option<string>)
    ensures r.Some? <==> copyUrlToClipboard && url.Some? && url.value != []
    ensures r.Some? ==> r == url
  {
    if copyUrlToClipboard && !IsNullOrEmpty(url) then url else None
  }

  /** The URL `OpenURLInBrowser` opens: the last one shown, unless it is empty. */
  function BrowserUrl(lastUrl: Option<string>): (r: Option<string>)
    ensures r.Some? <==> lastUrl.Some? && lastUrl.value != []
    ensures r.Some? ==> r == lastUrl
  {
    if IsNullOrEmpty(lastUrl) then None else lastUrl
  }

  // ---------------------------------------------------------------------
  // The component, updating its fields in place
  // ---------------------------------------------------------------------

  class QRDisplayController {
    const panel: GameObject?
    const disableWhileOpen: seq<GameObject?>
    const copyUrlToClipboard: bool
    var disabled: seq<GameObject>
    var lastUrl: Option<string>
    var qrShown: bool
    var previewShown: bool

    /** The listed objects other than the panel. */
    function Objects(): set<GameObject>
    {
      set go: GameObject | go in disableWhileOpen && go != panel
    }

    function Flags(): map<GameObject, bool>
      reads Objects()
    {
      map go | go in Objects() :: go.active
    }

    function SceneOf(): Scene
      reads this, panel, Objects()
    {
      Scene(panel != null && panel.active, Flags(), disabled)
    }

    /** The record only holds listed objects. */
    ghost predicate Valid()
      reads this
    {
      forall go :: go in disabled ==> go in Objects()
    }

    constructor (panel: GameObject?, disableWhileOpen: seq<GameObject?>, copyUrlToClipboard: bool)
      ensures this.panel == panel && this.disableWhileOpen == disableWhileOpen
      ensures this.copyUrlToClipboard == copyUrlToClipboard
      ensures disabled == [] && lastUrl.None? && !qrShown && !previewShown && Valid()
    {
      this.panel := panel;
      this.disableWhileOpen := disableWhileOpen;
      this.copyUrlToClipboard := copyUrlToClipboard;
      disabled, lastUrl, qrShown, previewShown := [], None, false, false;
    }

    method EnsurePanelOpen()
      requires Valid()
      modifies this, panel, Objects()
      ensures Valid()
      ensures SceneOf() == EnsureOpen(disableWhileOpen, panel != null, old(SceneOf()))
      ensures lastUrl == old(lastUrl) && qrShown == old(qrShown) && previewShown == old(previewShown)
    {
      if panel == null || panel.active { return; }
      ghost var f0 := Flags();
      disabled := [];
      var i := 0;
      while i < |disableWhileOpen|
        invariant 0 <= i <= |disableWhileOpen|
        invariant !panel.active
        invariant disabled == Recorded(disableWhileOpen[..i], f0)
        invariant forall go :: go in disabled ==> go in Objects()
        invariant forall go :: go in Objects() ==> go.active == (f0[go] && go !in disabled)
        invariant lastUrl == old(lastUrl) && qrShown == old(qrShown) && previewShown == old(previewShown)
      {
        var go := disableWhileOpen[i];
        assert disableWhileOpen[..i + 1][..i] == disableWhileOpen[..i];
        if go != null && go.active {
          assert go in Objects();
          go.active := false;
          disabled := disabled + [go];
        }
        i := i + 1;
      }
      assert disableWhileOpen[..|disableWhileOpen|] == disableWhileOpen;
      RecordedExactlyActive(disableWhileOpen, f0);
      panel.active := true;
      assert Flags() == AllOff(f0);
    }

    /** `SetPreview(tex)`: opens the panel and shows the preview when there is a texture. */
    method SetPreview(hasTexture: bool)
      requires Valid()
      modifies this, panel, Objects()
      ensures Valid()
      ensures SceneOf() == EnsureOpen(disableWhileOpen, panel != null, old(SceneOf()))
      ensures previewShown == hasTexture && lastUrl == old(lastUrl) && qrShown == old(qrShown)
    {
      EnsurePanelOpen();
      previewShown := hasTexture;
    }

    /** `ShowQR(url)`: remembers the URL, returns what goes to the clipboard, opens the panel, shows the code. */
    method ShowQR(url: Option<string>) returns (copied: Option<string>)
      requires Valid()
      modifies this, panel, Objects()
      ensures Valid()
      ensures lastUrl == url && copied == ClipboardText(copyUrlToClipboard, url) && qrShown
      ensures SceneOf() == EnsureOpen(disableWhileOpen, panel != null, old(SceneOf()))
      ensures previewShown == old(previewShown)
    {
      lastUrl := url;
      copied := if copyUrlToClipboard && !IsNullOrEmpty(url) then url else None;
      EnsurePanelOpen();
      qrShown := true;
    }

    method Close()
      requires Valid()
      modifies this, panel, Objects()
      ensures Valid()
      ensures SceneOf() == CloseScene(old(SceneOf()))
      ensures !qrShown && !previewShown && lastUrl == old(lastUrl)
    {
      if panel != null { panel.active := false; }
      qrShown, previewShown := false, false;
      var i := 0;
      while i < |disabled|
        invariant 0 <= i <= |disabled|
        invariant disabled == old(disabled)
        invariant panel != null ==> !panel.active
        invariant forall go :: go in Objects() ==> go.active == (old(go.active) || go in disabled[..i])
        invariant !qrShown && !previewShown && lastUrl == old(lastUrl)
      {
        var go := disabled[i];
        assert disabled[..i + 1] == disabled[..i] + [go];
        go.active := true;
        i := i + 1;
      }
      assert disabled[..|disabled|] == disabled;
      ghost var restored := Restore(old(Flags()), old(disabled));
      assert Flags() == restored;
      disabled := [];
    }

    /** `OpenURLInBrowser`: returns the URL handed to the browser, if any. */
    method OpenURLInBrowser() returns (url: Option<string>)
      ensures url == BrowserUrl(lastUrl)
    {
      url := if IsNullOrEmpty(lastUrl) then None else lastUrl;
    }
  }
}
