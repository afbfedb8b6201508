/** The admin menu as the cleaner sees it, and what its show/hide pass and
    its revert pass make of it, stated as functions on the menu's value. */
module MenuModel {
  import opened Url
  import opened Classifier

  /** `style.display` of an element: "" leaves it to the stylesheet. */
  type Display = string

  const SHOWN: Display := ""
  const HIDDEN: Display := "none"

  /** An entry's link: missing, present with an `href` that does not parse
      as a URL, or parsed into its pathname and search, with whether the
      link has the host's `current` class. */
  datatype Link = NoLink | BadHref | Href(path: string, search: string, current: bool)

  /** An `li` of a submenu, and whether the `li` itself has `current`. */
  datatype SubItem = SubItem(link: Link, liCurrent: bool, display: Display)

  /** A `.wp-submenu` container and its `li` entries, in document order. */
  datatype Submenu = Submenu(display: Display, entries: seq<SubItem>)

  /** An `li.menu-top`: its `:scope > a.menu-top` link and its first
      `.wp-submenu`, if any. */
  datatype TopItem = TopItem(link: Link, submenu: Option<Submenu>, display: Display)

  function LinkSlug(link: Link): string
    requires link.Href?
  {
    Slug(link.path, link.search)
  }

  /** The top-level rule: kept when the slug is allowed or the link is the
      host's current one. */
  predicate TopKept(link: Link, allowed: set<string>)
    requires link.Href?
  {
    LinkSlug(link) in allowed || link.current
  }

  /** The submenu rule: kept when the slug is allowed or current, or the
      link or its `li` is the host's current one. */
  predicate SubKept(item: SubItem, allowed: set<string>, keep: set<string>)
    requires item.link.Href?
  {
    var slug := LinkSlug(item.link);
    slug in allowed || slug in keep || item.link.current || item.liCurrent
  }

  function Visibility(kept: bool): Display
  {
    if kept then SHOWN else HIDDEN
  }

  /** One submenu `li` after the submenu pass; an entry without a link or
      with an unparseable one is left as it was. */
  function CleanSubItem(item: SubItem, allowed: set<string>, keep: set<string>): SubItem
  {
    if item.link.Href? then item.(display := Visibility(SubKept(item, allowed, keep)))
    else item
  }

  function CleanedEntries(entries: seq<SubItem>, allowed: set<string>, keep: set<string>): seq<SubItem>
  {
    seq(|entries|, k requires 0 <= k < |entries| => CleanSubItem(entries[k], allowed, keep))
  }

  /** One `li.menu-top` after the top-level pass: its display follows the
      top-level rule, and a kept entry's submenu is shown and cleaned. */
  function CleanTopItem(item: TopItem, allowed: set<string>, keep: set<string>): TopItem
  {
    if !item.link.Href? then item
    else
      var kept := TopKept(item.link, allowed);
      var shown := item.(display := Visibility(kept));
      if kept && item.submenu.Some? then
        shown.(submenu := Some(Submenu(SHOWN, CleanedEntries(item.submenu.value.entries, allowed, keep))))
      else shown
  }

  /** The menu after `applyCleanUp`'s walk with the given sets. */
  function Cleaned(menu: seq<TopItem>, allowed: set<string>, keep: set<string>): seq<TopItem>
  {
    seq(|menu|, i requires 0 <= i < |menu| => CleanTopItem(menu[i], allowed, keep))
  }

  /** The menu after the walk for the page at `path` and `search`. */
  function CleanedFor(menu: seq<TopItem>, path: string, search: string): seq<TopItem>
  {
    var keep := KeepSet(path, search);
    Cleaned(menu, Allowed(keep), keep)
  }

  function RevertedEntries(entries: seq<SubItem>): seq<SubItem>
  {
    seq(|entries|, k requires 0 <= k < |entries| => entries[k].(display := SHOWN))
  }

  function RevertTopItem(item: TopItem): TopItem
  {
    var sub := if item.submenu.Some?
               then Some(Submenu(SHOWN, RevertedEntries(item.submenu.value.entries)))
               else None;
    item.(display := SHOWN, submenu := sub)
  }

  /** The menu after `cleanupStyles`' walk: every display cleared. */
  function Reverted(menu: seq<TopItem>): seq<TopItem>
  {
    seq(|menu|, i requires 0 <= i < |menu| => RevertTopItem(menu[i]))
  }

  /** The submenu container and its entries have no display set. */
  predicate SubmenuShown(sub: Submenu)
  {
    sub.display == SHOWN && forall k :: 0 <= k < |sub.entries| ==> sub.entries[k].display == SHOWN
  }

  /** No top-level entry, submenu or submenu entry has a display set. */
  predicate AllShown(menu: seq<TopItem>)
  {
    forall i :: 0 <= i < |menu| ==>
      menu[i].display == SHOWN && (menu[i].submenu.Some? ==> SubmenuShown(menu[i].submenu.value))
  }

  /** `cleanSubmenu`: the submenu pass over a kept entry's `li`s. */
  method CleanSubmenu(entries: seq<SubItem>, allowed: set<string>, keep: set<string>)
    returns (cleaned: seq<SubItem>)
    ensures cleaned == CleanedEntries(entries, allowed, keep)
  {
    cleaned := [];
    var k := 0;
    while k < |entries|
      invariant 0 <= k <= |entries|
      invariant cleaned == CleanedEntries(entries[..k], allowed, keep)
    {
      var li := entries[k];
      var next := li;
      match li.link {
        case NoLink =>
        case BadHref =>
        case Href(path, search, linkCurrent) =>
          var hrefRel := Slug(path, search);
          var shouldKeep := hrefRel in allowed || hrefRel in keep || linkCurrent || li.liCurrent;
          next := li.(display := if shouldKeep then SHOWN else HIDDEN);
      }
      assert entries[..k + 1] == entries[..k] + [li];
      cleaned := cleaned + [next];
      k := k + 1;
    }
    assert entries[..k] == entries;
  }

  /** The top-level pass's callback for one `li.menu-top`: an entry with
      a parseable link is shown or hidden by the top-level rule, and a kept
      entry's submenu is shown and cleaned. */
  method CleanEntry(li: TopItem, allowed: set<string>, keep: set<string>) returns (updated: TopItem)
    ensures updated == CleanTopItem(li, allowed, keep)
  {
    updated := li;
    match li.link {
      case NoLink =>
      case BadHref =>
      case Href(linkPath, linkSearch, linkCurrent) =>
        var hrefRel := Slug(linkPath, linkSearch);
        var shouldKeep := hrefRel in allowed || linkCurrent;
        updated := li.(display := if shouldKeep then SHOWN else HIDDEN);
        if shouldKeep && li.submenu.Some? {
          var entries := CleanSubmenu(li.submenu.value.entries, allowed, keep);
          updated := updated.(submenu := Some(Submenu(SHOWN, entries)));
        }
    }
  }

  /** The revert pass over one submenu's `li`s. */
  method RevertSubmenu(entries: seq<SubItem>) returns (reverted: seq<SubItem>)
    ensures reverted == RevertedEntries(entries)
  {
    reverted := [];
    var k := 0;
    while k < |entries|
      invariant 0 <= k <= |entries|
      invariant reverted == RevertedEntries(entries[..k])
    {
      assert entries[..k + 1] == entries[..k] + [entries[k]];
      reverted := reverted + [entries[k].(display := SHOWN)];
      k := k + 1;
    }
    assert entries[..k] == entries;
  }

  /** The top-level rule: an entry with a parseable link is shown iff its
      slug is a core slug or kept for the page or its link is current, and
      hidden otherwise; any other entry keeps its display. */
  lemma TopLevelRule(menu: seq<TopItem>, path: string, search: string, i: int)
    requires 0 <= i < |menu|
    ensures var after := CleanedFor(menu, path, search)[i];
      var link := menu[i].link;
      && after.link == link
      && (link.Href? ==>
            && (after.display == SHOWN <==>
                  LinkSlug(link) in CORE_MENU_SLUGS || LinkSlug(link) in KeepSet(path, search) || link.current)
            && (after.display == SHOWN || after.display == HIDDEN))
      && (!link.Href? ==> after == menu[i])
  {
  }

  /** Core entries such as `plugins.php` are shown on every page. */
  lemma CoreEntriesShown(menu: seq<TopItem>, path: string, search: string, i: int)
    requires 0 <= i < |menu| && menu[i].link.Href?
    requires LinkSlug(menu[i].link) in CORE_MENU_SLUGS
    ensures CleanedFor(menu, path, search)[i].display == SHOWN
  {
  }

  /** The Plugins entry is never hidden, whatever page is open. */
  lemma PluginsAlwaysShown(menu: seq<TopItem>, path: string, search: string, i: int)
    requires 0 <= i < |menu| && menu[i].link.Href?
    requires LinkSlug(menu[i].link) == "plugins.php"
    ensures CleanedFor(menu, path, search)[i].display == SHOWN
  {
    CoreEntriesShown(menu, path, search, i);
  }

  /** Submenus are touched only under kept entries; there the container is
      shown and each `li` with a parseable link is shown iff its slug is
      allowed or kept or it is marked current, the rest left as they were. */
  lemma SubmenuRule(menu: seq<TopItem>, allowed: set<string>, keep: set<string>, i: int)
    requires 0 <= i < |menu|
    ensures var before := menu[i];
      var after := Cleaned(menu, allowed, keep)[i];
      && after.submenu.Some? == before.submenu.Some?
      && (!(before.link.Href? && TopKept(before.link, allowed)) ==> after.submenu == before.submenu)
      && (before.link.Href? && TopKept(before.link, allowed) && before.submenu.Some? ==>
            var was := before.submenu.value.entries;
            var now := after.submenu.value.entries;
            && after.submenu.value.display == SHOWN
            && |now| == |was|
            && forall k :: 0 <= k < |was| ==>
                 && now[k].link == was[k].link
                 && now[k].liCurrent == was[k].liCurrent
                 && (was[k].link.Href? ==>
                       && (now[k].display == SHOWN <==> SubKept(was[k], allowed, keep))
                       && (now[k].display == SHOWN || now[k].display == HIDDEN))
                 && (!was[k].link.Href? ==> now[k] == was[k]))
  {
  }

  /** Allowing more slugs never hides a top-level entry that was shown. */
  lemma TopKeptMonotone(link: Link, a1: set<string>, a2: set<string>)
    requires link.Href? && a1 <= a2
    ensures TopKept(link, a1) ==> TopKept(link, a2)
  {
  }

  /** Allowing or keeping more slugs never hides a submenu `li` that was
      shown. */
  lemma SubKeptMonotone(item: SubItem, a1: set<string>, k1: set<string>, a2: set<string>, k2: set<string>)
    requires item.link.Href? && a1 <= a2 && k1 <= k2
    ensures SubKept(item, a1, k1) ==> SubKept(item, a2, k2)
  {
  }

  /** The whole pass is monotone in its sets: an entry, or an `li` under
      it, that the pass shows with the smaller sets it also shows with the
      larger ones. */
  lemma {:induction false} CleanedMonotone(menu: seq<TopItem>, a1: set<string>, k1: set<string>,
                                           a2: set<string>, k2: set<string>, i: int)
    requires a1 <= a2 && k1 <= k2 && 0 <= i < |menu| && menu[i].link.Href?
    ensures var small := Cleaned(menu, a1, k1)[i];
      var large := Cleaned(menu, a2, k2)[i];
      && (small.display == SHOWN ==> large.display == SHOWN)
      && (small.display == SHOWN && menu[i].submenu.Some? ==>
            forall k :: 0 <= k < |menu[i].submenu.value.entries| && menu[i].submenu.value.entries[k].link.Href? ==>
              small.submenu.value.entries[k].display == SHOWN ==> large.submenu.value.entries[k].display == SHOWN)
  {
    var item := menu[i];
    TopKeptMonotone(item.link, a1, a2);
    if TopKept(item.link, a1) && item.submenu.Some? {
      var entries := item.submenu.value.entries;
      forall k | 0 <= k < |entries| && entries[k].link.Href?
        ensures CleanSubItem(entries[k], a1, k1).display == SHOWN ==> CleanSubItem(entries[k], a2, k2).display == SHOWN
      {
        SubKeptMonotone(entries[k], a1, k1, a2, k2);
      }
    }
  }

  /** Running the walk a second time changes nothing. */
  lemma {:induction false} CleanIdempotent(menu: seq<TopItem>, allowed: set<string>, keep: set<string>)
    ensures Cleaned(Cleaned(menu, allowed, keep), allowed, keep) == Cleaned(menu, allowed, keep)
  {
    var once := Cleaned(menu, allowed, keep);
    forall i | 0 <= i < |menu|
      ensures CleanTopItem(once[i], allowed, keep) == once[i]
    {
      var item := menu[i];
      if item.link.Href? && TopKept(item.link, allowed) && item.submenu.Some? {
        var entries := item.submenu.value.entries;
        var cleaned := CleanedEntries(entries, allowed, keep);
        assert CleanedEntries(cleaned, allowed, keep) == cleaned;
      }
    }
  }

  /** The walk only ever changes displays: clearing all displays after it
      gives what clearing them before it gives. */
  lemma {:induction false} RevertUndoesClean(menu: seq<TopItem>, allowed: set<string>, keep: set<string>)
    ensures Reverted(Cleaned(menu, allowed, keep)) == Reverted(menu)
  {
    var once := Cleaned(menu, allowed, keep);
    forall i | 0 <= i < |menu|
      ensures RevertTopItem(once[i]) == RevertTopItem(menu[i])
    {
      var item := menu[i];
      if item.link.Href? && TopKept(item.link, allowed) && item.submenu.Some? {
        var entries := item.submenu.value.entries;
        assert RevertedEntries(CleanedEntries(entries, allowed, keep)) == RevertedEntries(entries);
      }
    }
  }

  /** Clearing every display leaves nothing hidden, changes no link, and
      gives back a menu that had no display set. */
  lemma {:induction false} RevertedAllShown(menu: seq<TopItem>)
    ensures AllShown(Reverted(menu))
    ensures |Reverted(menu)| == |menu|
    ensures forall i :: 0 <= i < |menu| ==> Reverted(menu)[i].link == menu[i].link
    ensures AllShown(menu) ==> Reverted(menu) == menu
  {
    if AllShown(menu) {
      forall i | 0 <= i < |menu| ensures RevertTopItem(menu[i]) == menu[i] {
        if menu[i].submenu.Some? {
          var sub := menu[i].submenu.value;
          assert RevertedEntries(sub.entries) == sub.entries;
        }
      }
    }
  }

  /** Apply then revert is the identity on a menu that had no display set. */
  lemma ApplyRevertRoundTrip(menu: seq<TopItem>, path: string, search: string)
    requires AllShown(menu)
    ensures Reverted(CleanedFor(menu, path, search)) == menu
  {
    var keep := KeepSet(path, search);
    RevertUndoesClean(menu, Allowed(keep), keep);
    RevertedAllShown(menu);
  }
}
