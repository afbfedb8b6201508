# WordPress admin menu cleaner, modelled in Dafny

The browser extension's content script declutters the WordPress admin
menu (`#adminmenu`). It hides every top-level entry except a fixed list of
core screens and the entries for the page being viewed. It cleans the
submenus of the entries it keeps. It re-runs, debounced, when the menu
changes. When the popup switches it off, it removes its marker class and
style and clears the inline `display` of every menu entry, submenu and
submenu `li`, including any the host page had set; a menu that had no
display set before is restored exactly.

The model has four modules, one per part of `content.js`:

- `Url` (url.dfy): the link normalisation. A URL's pathname and search
  become a menu slug: the last `/`-separated path segment, then `?` and
  the query when the query is non-empty. It also holds the `post_type`
  lookup (a `&`/`=` split of the query, first match wins) and the
  `/wp-admin/` page test.
- `Classifier` (classifier.dfy): `CORE_MENU_SLUGS` and the keep-set of the
  current page (`currentMenuSlugsToKeep`). The post editor and term
  screens add a parent entry, Pages or Posts, chosen by `post_type`.
- `MenuModel` (menu.dfy): the menu as values. Each top-level entry has a
  link, an optional submenu and a `display`. The show/hide pass
  (`Cleaned`) and the revert pass (`Reverted`) are functions on the menu.
  The per-entry and per-submenu loops are methods proved equal to them.
- `Cleaner` (cleaner.dfy): class `Page`, the script's state on one page.
  It holds the `enabled` flag, the debounce timer slot, the observer
  connection, the marker class, the injected style and the top-level
  menu array. That array is rewritten in place by `applyCleanUp` and
  `cleanupStyles`. Each event the script reacts to is a method: storage
  read, toggle message, menu mutation, timer firing, window load.

Three behaviours of the code worth knowing:

- Both passes return early on an `href` that fails to parse, so the entry
  keeps whatever display it had (content.js:134-137, content.js:176-179).
  `TopLevelRule` and `SubmenuRule` state this.
- A toggle message does not cancel a pending debounced run
  (content.js:38-43). `DisableWhileTimerPending` proves the late run is
  harmless: it is unforced, finds the cleaner disabled, and leaves nothing
  hidden.
- On `/wp-admin/` itself the current slug is empty, so the keep-set holds
  the empty string (`AdminRootKeepsEmptySlug`).

## Model

| member | source | states |
|---|---|---|
| `Url.Split` | content.js:81 | `split('/')` always yields at least one piece, and no piece contains the separator |
| `Url.JoinSplit` | content.js:81 | joining the pieces of a split with the separator gives the original string back |
| `Url.SplitJoin` | content.js:81 | splitting a join of separator-free pieces gives the pieces back |
| `Url.LastSegmentIsFinalSegment` | content.js:81 | the last segment has no `/`, ends the path, and is either the whole path or preceded by `/` (the longest `/`-free suffix) |
| `Url.TrailingSlashEmptySegment` | content.js:81 | a path ending in `/` has an empty last segment |
| `Url.SlugRoundTrip` | content.js:80-83 | cutting a slug at its first `?` gives back the path's last segment and the query (the pathname holds no raw `?`) |
| `Url.SlugHasQueryMark` | content.js:80-83 | a slug contains `?` exactly when the URL's query is non-empty |
| `Url.SlugInjective` | content.js:80-83 | two URLs have the same slug iff their last path segments and their queries are equal |
| `Url.Cut` | content.js:97-98 | cutting at the first `=`: the name part has no `=`, and name, `=`, value rebuild the piece; a piece with no `=` is all name and has an empty value |
| `Url.LookupFirst` | content.js:97-98 | `get(name)` is absent iff no pair has the name; otherwise it is the value of the first pair with that name |
| `Classifier.KeepsCurrentPage` | content.js:92-117 | the current page's slug is always kept; a screen that is neither a post editor nor a term screen keeps nothing else |
| `Classifier.EditorScreenParent` | content.js:95-115 | a post editor (`post.php`, `post-new.php`) or term screen (`edit-tags.php`) keeps itself and exactly one parent: `edit.php?post_type=page` iff `post_type` is `page`, `edit.php` iff it is not |
| `Classifier.PostEditScenario` | content.js:77-118 | `/wp-admin/post.php?post=5&action=edit` keeps exactly `post.php?post=5&action=edit` and `edit.php` |
| `Classifier.NewPageScenario` | content.js:77-118 | `/wp-admin/post-new.php?post_type=page` keeps exactly `post-new.php?post_type=page` and `edit.php?post_type=page` |
| `Classifier.AdminRootKeepsEmptySlug` | content.js:80-92 | on `/wp-admin/` with no query the keep-set is exactly the empty slug |
| `Classifier.AdminScreenSlug` | content.js:80-83 | the slug of `/wp-admin/<screen>?<query>` is `<screen>?<query>` |
| `MenuModel.CleanSubmenu` | content.js:120-147 | the submenu loop produces exactly the submenu pass's result for every `li` |
| `MenuModel.CleanEntry` | content.js:165-192 | the per-entry callback produces exactly the top-level pass's result for one `li.menu-top` |
| `MenuModel.RevertSubmenu` | content.js:225-227 | the revert loop clears the display of every submenu `li` |
| `MenuModel.TopLevelRule` | content.js:161-182 | after the pass, an entry with a parseable link is shown iff its slug is core or kept or its link is `current`, and hidden otherwise; an entry without a link or with an unparseable one is unchanged; no link changes |
| `MenuModel.CoreEntriesShown` | content.js:161-182 | an entry whose slug is in `CORE_MENU_SLUGS` is shown on every page |
| `MenuModel.PluginsAlwaysShown` | content.js:7-23 | the `plugins.php` entry is shown whatever page is open |
| `MenuModel.SubmenuRule` | content.js:139-191 | a submenu is untouched unless its parent is kept; under a kept parent the container is shown, each `li` with a parseable link is shown iff its slug is allowed or kept or it or its link is `current` and set to `none` otherwise, the others keep their display, and no link or `li` `current` flag changes |
| `MenuModel.TopKeptMonotone` | content.js:181-182 | allowing more slugs never turns a kept top-level entry into a hidden one |
| `MenuModel.SubKeptMonotone` | content.js:139-145 | allowing or keeping more slugs never turns a kept submenu `li` into a hidden one |
| `MenuModel.CleanedMonotone` | content.js:120-193 | with larger allow- and keep-sets, every entry and submenu `li` the pass shows is still shown |
| `MenuModel.CleanIdempotent` | content.js:164-193 | running the pass twice with the same sets gives the same menu as running it once |
| `MenuModel.RevertUndoesClean` | content.js:211-229 | the pass only changes displays: clearing all displays after it equals clearing them before it |
| `MenuModel.RevertedAllShown` | content.js:216-229 | after the revert nothing has a display set and no link changed; a menu that had no display set is left as it was |
| `MenuModel.ApplyRevertRoundTrip` | content.js:164-229 | apply, then revert, gives back a menu that had no display set |
| `Cleaner.Page.constructor` | content.js:26-51 | the script starts enabled, with no timer pending, no observer, no marker and no style |
| `Cleaner.Page.InjectCSS` | content.js:199-209 | the style element is added only when none is present, so it is never there twice |
| `Cleaner.Page.ApplyCleanUp` | content.js:149-197 | unforced while disabled, or without `#adminmenu`: nothing changes; otherwise the marker is set, the style is present once, and the menu is the pass's result for the current page |
| `Cleaner.Page.CleanupStyles` | content.js:211-230 | the marker and the style are removed; with `#adminmenu` present, every display is cleared |
| `Cleaner.Page.MaybeApply` | content.js:57-70 | off `/wp-admin/` nothing changes; when enabled it applies and connects the observer if the wrapper or menu exists; when disabled it reverts and disconnects |
| `Cleaner.Page.DebounceApply` | content.js:52-55 | afterwards exactly one run is pending |
| `Cleaner.Page.OnMenuMutation` | content.js:46-49 | a run is scheduled only while the observer is connected and the cleaner is enabled |
| `Cleaner.Page.FireTimer` | content.js:54 | the pending run is an unforced apply: it rewrites the menu only when enabled and the menu exists, and otherwise changes nothing |
| `Cleaner.Page.OnMessage` | content.js:38-43 | a toggle message sets the flag to its payload and forces `maybeApply`; any other message changes nothing |
| `Cleaner.Page.OnStorageLoaded` | content.js:30-35 | a stored boolean replaces the flag, then `maybeApply` runs |
| `Cleaner.Page.OnLoad` | content.js:233 | the window's `load` event forces `maybeApply` |
| `Cleaner.DisableWhileTimerPending` | content.js:149-153 | disabling while a debounced run is pending, then letting it fire, leaves every entry, submenu and submenu `li` shown and no marker or style |
| `Cleaner.ApplyTwice` | content.js:149-197 | two applies on an unchanged page leave the menu as one apply does |
| `Cleaner.ApplyThenDisable` | content.js:211-229 | applying and then toggling off restores a menu that had no display set |

## Left out

- `popup.js`: checkbox and label wiring around `chrome.storage.sync` and `chrome.tabs` messaging; it has no menu logic.
- The `chrome.storage` and `chrome.runtime` calls themselves (content.js:30-43). The read result is an input to `OnStorageLoaded`: a stored boolean or nothing. A toggle message is an input to `OnMessage`: its type and its payload, already a boolean. The `!!` coercion of other payload values is not modelled.
- `MutationObserver` and `setTimeout` timing. The debounce is one "run pending" flag that a mutation sets, replacing any earlier timer, and that `FireTimer` consumes. The 50 ms delay, which mutations the observer reports, and host changes to the menu's structure between runs are not modelled.
- `new URL` and `URLSearchParams` parsing. Links are given by their parsed pathname and search, or as unparseable. The current page's URL is assumed to parse. Percent-decoding and `+` handling of query values are not modelled.
- The CSS text, and the DOM selectors (`:scope > a.menu-top`, `.wp-submenu`, `li`), are left out. Each entry's first matching link, first submenu and flat list of submenu `li`s are fields of the datatypes. The style is a count of elements with its id.
- In-place updates of submenu entries. Submenu `li`s are values inside their top-level entry. `CleanSubmenu` and `RevertSubmenu` return the new list, which `ApplyCleanUp` and `CleanupStyles` store back into the menu array. A `li` shared between two submenus, which would alias, is not modelled.
- URL changes while the script runs. `Page.path` and `Page.search` are fixed for the life of a `Page`, while the code reads `location` afresh on every run (content.js:74, content.js:80). In-page navigation that changes the URL between runs is not modelled, so `ApplyTwice` and every later run use the keep-set of the URL the page was loaded with.
- Which element the observer watches (`#adminmenuwrap` or `#adminmenu`): only whether it is connected is modelled.
