/**
 Translation of a raw input key into a menu navigation intent. The key codes
 are the Linux input event codes the switch lists; Other stands for every code
 the switch does not list. The intents are the recovery UI's navigation
 constants (highlight up/down/first/last, scroll, invoke, home, back,
 sideload, refresh, and no action).
 */
module KeyTranslator {

  datatype Key =
    | KeyRightShift | KeyDown | KeyVolumeDown | KeyMenu | BtnNorth | BtnDpadDown
    | KeyUp | KeyVolumeUp | KeySearch | BtnWest | BtnDpadUp
    | KeyHome | KeyEnd
    | KeyPageUp | KeyScrollUp | KeyPageDown | KeyScrollDown
    | KeyEnter | KeyPower | BtnMouse | KeySend | BtnSouth | BtnStart
    | KeyHomepage | KeyLeftMeta | KeyRightMeta
    | KeyBackspace | KeyBack | KeyEsc
    | KeyAgain
    | KeyRefresh
    | Other

  datatype Intent =
    | NoAction | HighlightUp | HighlightDown | InvokeItem
    | HighlightFirst | HighlightLast | ScrollUp | ScrollDown
    | GoHome | GoBack | DoSideload | Refresh

  /** The intent for a key while the menu is (or is not) visible; hasThreeButtons is
      the UI's answer to whether the device has dedicated up, down and select keys. */
  function HandleMenuKey(key: Key, visible: bool, hasThreeButtons: bool): (r: Intent)
    ensures !visible ==> r == NoAction
    ensures visible && key.Other? ==> r == Fallback(hasThreeButtons)
  {
    if !visible then NoAction
    else
      match key
      case KeyRightShift | KeyDown | KeyVolumeDown | KeyMenu | BtnNorth | BtnDpadDown =>
        HighlightDown
      case KeyUp | KeyVolumeUp | KeySearch | BtnWest | BtnDpadUp =>
        HighlightUp
      case KeyHome => HighlightFirst
      case KeyEnd => HighlightLast
      case KeyPageUp | KeyScrollUp => ScrollUp
      case KeyPageDown | KeyScrollDown => ScrollDown
      case KeyEnter | KeyPower | BtnMouse | KeySend | BtnSouth | BtnStart =>
        InvokeItem
      case KeyHomepage | KeyLeftMeta | KeyRightMeta => GoHome
      case KeyBackspace | KeyBack | KeyEsc => GoBack
      case KeyAgain => DoSideload
      case KeyRefresh => Refresh
      case Other =>
        // With all of the listed keys present other keys are ignored;
        // otherwise any key moves the highlight down, so one key can cycle.
        Fallback(hasThreeButtons)
  }

  /** The intent of an unlisted key while the menu is visible. */
  function Fallback(hasThreeButtons: bool): (r: Intent)
    ensures r == NoAction <==> hasThreeButtons
    ensures r == NoAction || r == HighlightDown
  {
    if hasThreeButtons then NoAction else HighlightDown
  }

  /** The keys bound to each intent, as an independent table. */
  function KeyGroup(i: Intent): set<Key> {
    match i
    case HighlightDown => {KeyRightShift, KeyDown, KeyVolumeDown, KeyMenu, BtnNorth, BtnDpadDown}
    case HighlightUp => {KeyUp, KeyVolumeUp, KeySearch, BtnWest, BtnDpadUp}
    case HighlightFirst => {KeyHome}
    case HighlightLast => {KeyEnd}
    case ScrollUp => {KeyPageUp, KeyScrollUp}
    case ScrollDown => {KeyPageDown, KeyScrollDown}
    case InvokeItem => {KeyEnter, KeyPower, BtnMouse, KeySend, BtnSouth, BtnStart}
    case GoHome => {KeyHomepage, KeyLeftMeta, KeyRightMeta}
    case GoBack => {KeyBackspace, KeyBack, KeyEsc}
    case DoSideload => {KeyAgain}
    case Refresh => {KeyRefresh}
    case NoAction => {}
  }

  /** A key is listed when some intent's group holds it. */
  predicate IsBound(key: Key) {
    exists i: Intent :: key in KeyGroup(i)
  }

  /** Exactly the unlisted codes are unbound. */
  lemma BoundIffListed(key: Key)
    ensures IsBound(key) <==> !key.Other?
  {
    if !key.Other? {
      var i := HandleMenuKey(key, true, true);
      assert key in KeyGroup(i);
    }
  }

  /** Every key of a group is translated to that group's intent. */
  lemma GroupAgrees(i: Intent, key: Key, hasThreeButtons: bool)
    requires key in KeyGroup(i)
    ensures HandleMenuKey(key, true, hasThreeButtons) == i
  {
    match i
    case HighlightDown => HighlightDownGroup(key, hasThreeButtons);
    case HighlightUp => HighlightUpGroup(key, hasThreeButtons);
    case InvokeItem => InvokeItemGroup(key, hasThreeButtons);
    case _ =>
  }

  lemma HighlightDownGroup(key: Key, hasThreeButtons: bool)
    requires key in KeyGroup(HighlightDown)
    ensures HandleMenuKey(key, true, hasThreeButtons) == HighlightDown
  {
  }

  lemma HighlightUpGroup(key: Key, hasThreeButtons: bool)
    requires key in KeyGroup(HighlightUp)
    ensures HandleMenuKey(key, true, hasThreeButtons) == HighlightUp
  {
  }

  lemma InvokeItemGroup(key: Key, hasThreeButtons: bool)
    requires key in KeyGroup(InvokeItem)
    ensures HandleMenuKey(key, true, hasThreeButtons) == InvokeItem
  {
  }

  /** No key is bound to two intents. */
  lemma KeyGroupsDisjoint(i: Intent, j: Intent, key: Key)
    requires key in KeyGroup(i) && key in KeyGroup(j)
    ensures i == j
  {
    GroupAgrees(i, key, true);
    GroupAgrees(j, key, true);
  }

  /** While visible, a key yields intent i exactly when it is in i's group, or
      it is unlisted and i is the fallback. */
  lemma HandleMenuKeyMatchesTable(key: Key, hasThreeButtons: bool, i: Intent)
    ensures HandleMenuKey(key, true, hasThreeButtons) == i <==>
              key in KeyGroup(i) || (!IsBound(key) && i == Fallback(hasThreeButtons))
  {
    BoundIffListed(key);
    if key.Other? {
      assert forall j: Intent :: key !in KeyGroup(j);
    } else {
      var r := HandleMenuKey(key, true, hasThreeButtons);
      assert key in KeyGroup(r);
      if key in KeyGroup(i) {
        KeyGroupsDisjoint(i, r, key);
      }
    }
  }

  /** The answer for a listed key does not depend on the button count. */
  lemma ListedKeysIgnoreButtons(key: Key, visible: bool)
    requires !key.Other?
    ensures HandleMenuKey(key, visible, true) == HandleMenuKey(key, visible, false)
  {
  }

  /** Without three buttons every key moves the highlight somehow or acts on it:
      no visible key is ignored. */
  lemma NoKeyIgnoredWithoutThreeButtons(key: Key)
    ensures HandleMenuKey(key, true, false) != NoAction
  {
  }
}
