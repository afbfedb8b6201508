/** The content script's state on one admin page: the on/off flag, the
    debounce timer slot, the menu observer, the marker class and injected
    style on the document, and the top-level menu entries it rewrites in
    place. Each event the script reacts to is a method. */
module Cleaner {
  import opened Url
  import opened Classifier
  import opened MenuModel

  /** The message type the popup sends to switch the cleaner. */
  const TOGGLE_MESSAGE := "WP_ADMIN_MENU_CLEANER_TOGGLE"

  class Page {
    /** `location.pathname` and `location.search` of the page. */
    const path: string
    const search: string
    /** Whether `#adminmenu` and `#adminmenuwrap` exist. */
    const hasAdminMenu: bool
    const hasMenuWrap: bool
    /** The `li.menu-top` entries of `#adminmenu`, in document order (not
        read when `hasAdminMenu` is false). */
    const menu: array<TopItem>

    /** The script's `enabled` flag. */
    var enabled: bool
    /** `debTimer` holds a timer that has not fired yet. */
    var timerPending: bool
    /** The mutation observer is connected to the menu. */
    var observing: bool
    /** `<html>` has the `vgp-clean-admin` class. */
    var marker: bool
    /** The number of `<style id="vgp-clean-style">` elements. */
    var styleCount: nat

    /** The style is in the document at most once, and the observer is
        only ever connected on an admin page. */
    ghost predicate Valid()
      reads this
    {
      && styleCount <= 1
      && (observing ==> IsWPAdmin(path))
    }

    /** A freshly loaded page: the script starts enabled, with nothing
        scheduled, observed, marked or injected. */
    constructor (path: string, search: string, hasAdminMenu: bool, hasMenuWrap: bool, entries: seq<TopItem>)
      ensures Valid()
      ensures this.path == path && this.search == search
      ensures this.hasAdminMenu == hasAdminMenu && this.hasMenuWrap == hasMenuWrap
      ensures fresh(menu) && menu[..] == entries
      ensures enabled && !timerPending && !observing && !marker && styleCount == 0
    {
      this.path := path;
      this.search := search;
      this.hasAdminMenu := hasAdminMenu;
      this.hasMenuWrap := hasMenuWrap;
      menu := new TopItem[|entries|](i requires 0 <= i < |entries| => entries[i]);
      enabled := true;
      timerPending := false;
      observing := false;
      marker := false;
      styleCount := 0;
    }

    /** `injectCSS`: adds the style element unless one is already there. */
    method InjectCSS()
      modifies this`styleCount
      ensures styleCount == if old(styleCount) == 0 then 1 else old(styleCount)
    {
      if styleCount > 0 {
        return;
      }
      styleCount := styleCount + 1;
    }

    /** `applyCleanUp`: unless it is unforced while disabled, or the menu
        is absent, marks the document, rewrites every entry as the
        top-level and submenu rules say, and injects the style once. */
    method ApplyCleanUp(force: bool)
      requires Valid()
      modifies this`marker, this`styleCount, menu
      ensures Valid()
      ensures if (force || enabled) && hasAdminMenu then
                && marker && styleCount == 1
                && menu[..] == CleanedFor(old(menu[..]), path, search)
              else
                && marker == old(marker) && styleCount == old(styleCount)
                && menu[..] == old(menu[..])
    {
      if !force && !enabled {
        return;
      }
      if !hasAdminMenu {
        return;
      }
      marker := true;
      var keep := KeepSet(path, search);
      var allowed := CORE_MENU_SLUGS + keep;
      var i := 0;
      while i < menu.Length
        invariant 0 <= i <= menu.Length
        invariant forall k :: 0 <= k < i ==> menu[k] == CleanTopItem(old(menu[k]), allowed, keep)
        invariant forall k :: i <= k < menu.Length ==> menu[k] == old(menu[k])
        invariant marker && styleCount == old(styleCount)
      {
        var updated := CleanEntry(menu[i], allowed, keep);
        menu[i] := updated;
        i := i + 1;
      }
      assert menu[..] == Cleaned(old(menu[..]), allowed, keep);
      InjectCSS();
    }

    /** `cleanupStyles`: removes the marker class and the style, then, if
        the menu exists, clears the display of every top-level entry,
        submenu container and submenu entry. */
    method CleanupStyles()
      requires Valid()
      modifies this`marker, this`styleCount, menu
      ensures Valid()
      ensures !marker && styleCount == 0
      ensures menu[..] == if hasAdminMenu then Reverted(old(menu[..])) else old(menu[..])
    {
      marker := false;
      if styleCount > 0 {
        styleCount := styleCount - 1;
      }
      if !hasAdminMenu {
        return;
      }
      var i := 0;
      while i < menu.Length
        invariant 0 <= i <= menu.Length
        invariant forall k :: 0 <= k < i ==> menu[k] == RevertTopItem(old(menu[k]))
        invariant forall k :: i <= k < menu.Length ==> menu[k] == old(menu[k])
        invariant !marker && styleCount == 0
      {
        var li := menu[i].(display := SHOWN);
        if li.submenu.Some? {
          var entries := RevertSubmenu(li.submenu.value.entries);
          li := li.(submenu := Some(Submenu(SHOWN, entries)));
        }
        menu[i] := li;
        i := i + 1;
      }
      assert menu[..] == Reverted(old(menu[..]));
    }

    /** What `maybeApply` leaves behind, given the flag it reads: off an
        admin page nothing changes; when enabled, `applyCleanUp` ran (it
        does nothing without the menu) and the observer is connected if
        the menu or its wrapper exists; when disabled, the marker and style
        are gone, the menu is reverted and the observer is disconnected. */
    twostate predicate MaybeApplied()
      reads this, menu
    {
      if !IsWPAdmin(path) then
        && marker == old(marker) && styleCount == old(styleCount)
        && observing == old(observing) && menu[..] == old(menu[..])
      else if enabled then
        && observing == (old(observing) || hasMenuWrap || hasAdminMenu)
        && (hasAdminMenu ==> marker && styleCount == 1
                             && menu[..] == CleanedFor(old(menu[..]), path, search))
        && (!hasAdminMenu ==> marker == old(marker) && styleCount == old(styleCount)
                              && menu[..] == old(menu[..]))
      else
        && !observing && !marker && styleCount == 0
        && menu[..] == if hasAdminMenu then Reverted(old(menu[..])) else old(menu[..])
    }

    /** `maybeApply`: on an admin page, applies and starts observing the
        menu's wrapper when enabled, and reverts and disconnects when
        disabled; elsewhere it does nothing. */
    method MaybeApply(force: bool)
      requires Valid()
      modifies this`marker, this`styleCount, this`observing, menu
      ensures Valid()
      ensures MaybeApplied()
    {
      if !IsWPAdmin(path) {
        return;
      }
      if enabled {
        ApplyCleanUp(force);
        if hasMenuWrap || hasAdminMenu {
          observing := true;
        }
      } else {
        CleanupStyles();
        observing := false;
      }
    }

    /** `debounceApply`: cancels any pending timer and schedules a new one,
        so at most one run is pending. */
    method DebounceApply()
      modifies this`timerPending
      ensures timerPending
    {
      timerPending := true;
    }

    /** The observer's callback after a change inside the menu: it is only
        delivered while the observer is connected, and schedules a run
        while the cleaner is on. */
    method OnMenuMutation()
      requires Valid()
      modifies this`timerPending
      ensures Valid()
      ensures timerPending == (old(timerPending) || (observing && enabled))
    {
      if !observing {
        return;
      }
      if !enabled {
        return;
      }
      DebounceApply();
    }

    /** The pending timer fires: an unforced `applyCleanUp`. */
    method FireTimer()
      requires Valid()
      modifies this`timerPending, this`marker, this`styleCount, menu
      ensures Valid()
      ensures !timerPending
      ensures old(timerPending) && enabled && hasAdminMenu ==>
                marker && styleCount == 1 && menu[..] == CleanedFor(old(menu[..]), path, search)
      ensures !(old(timerPending) && enabled && hasAdminMenu) ==>
                marker == old(marker) && styleCount == old(styleCount) && menu[..] == old(menu[..])
    {
      if timerPending {
        timerPending := false;
        ApplyCleanUp(false);
      }
    }

    /** A runtime message: the popup's toggle sets the flag from its
        payload and forces `maybeApply`; other messages are ignored. The
        pending timer, if any, is left in place. */
    method OnMessage(kind: string, value: bool)
      requires Valid()
      modifies this`enabled, this`marker, this`styleCount, this`observing, menu
      ensures Valid()
      ensures kind != TOGGLE_MESSAGE ==>
                && enabled == old(enabled) && observing == old(observing)
                && marker == old(marker) && styleCount == old(styleCount) && menu[..] == old(menu[..])
      ensures kind == TOGGLE_MESSAGE ==> enabled == value && MaybeApplied()
    {
      if kind == TOGGLE_MESSAGE {
        enabled := value;
        MaybeApply(true);
      }
    }

    /** The stored flag has been read: a stored boolean replaces the
        default, then `maybeApply` runs unforced. */
    method OnStorageLoaded(stored: Option<bool>)
      requires Valid()
      modifies this`enabled, this`marker, this`styleCount, this`observing, menu
      ensures Valid()
      ensures enabled == if stored.Some? then stored.value else old(enabled)
      ensures MaybeApplied()
    {
      if stored.Some? {
        enabled := stored.value;
      }
      MaybeApply(false);
    }

    /** The window's `load` event: a forced `maybeApply`. */
    method OnLoad()
      requires Valid()
      modifies this`marker, this`styleCount, this`observing, menu
      ensures Valid()
      ensures MaybeApplied()
    {
      MaybeApply(true);
    }
  }

  /** Switching the cleaner off while a debounced run is pending leaves
      nothing hidden once the timer fires: the run is unforced, so it finds
      the cleaner disabled and does nothing. */
  method DisableWhileTimerPending(page: Page)
    requires page.Valid() && IsWPAdmin(page.path) && page.hasAdminMenu
    modifies page, page.menu
    ensures page.Valid() && !page.enabled && !page.timerPending
    ensures !page.marker && page.styleCount == 0
    ensures AllShown(page.menu[..])
  {
    page.OnMessage(TOGGLE_MESSAGE, false);
    page.FireTimer();
    RevertedAllShown(old(page.menu[..]));
  }

  /** Applying twice with the page unchanged gives what applying once
      gives. */
  method ApplyTwice(page: Page) returns (once: seq<TopItem>)
    requires page.Valid() && page.enabled && page.hasAdminMenu
    modifies page`marker, page`styleCount, page.menu
    ensures once == CleanedFor(old(page.menu[..]), page.path, page.search)
    ensures page.menu[..] == once
    ensures page.marker && page.styleCount == 1
  {
    page.ApplyCleanUp(false);
    once := page.menu[..];
    page.ApplyCleanUp(false);
    var keep := KeepSet(page.path, page.search);
    CleanIdempotent(old(page.menu[..]), Allowed(keep), keep);
  }

  /** Applying, then switching off, gives back a menu on which nothing had
      been hidden before. */
  method ApplyThenDisable(page: Page)
    requires page.Valid() && page.enabled && page.hasAdminMenu && IsWPAdmin(page.path)
    requires AllShown(page.menu[..])
    modifies page`enabled, page`marker, page`styleCount, page`observing, page.menu
    ensures page.menu[..] == old(page.menu[..])
    ensures !page.enabled && !page.observing && !page.marker && page.styleCount == 0
  {
    page.ApplyCleanUp(false);
    page.OnMessage(TOGGLE_MESSAGE, false);
    ApplyRevertRoundTrip(old(page.menu[..]), page.path, page.search);
  }
}
