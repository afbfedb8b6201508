/** Which menu slugs the cleaner keeps: the fixed list of core WordPress
    admin entries, and the entries that belong to the page being viewed. */
module Classifier {
  import opened Url

  /** Top-level core entries (Dashboard, Posts, Media, Pages, Comments,
      Appearance, Plugins, Users, Tools, Settings) and two companions. */
  const CORE_MENU_SLUGS: set<string> := {
    "index.php",
    "edit.php",
    "upload.php",
    "edit.php?post_type=page",
    "edit-comments.php",
    "themes.php",
    "plugins.php",
    "users.php",
    "tools.php",
    "options-general.php",
    "profile.php",
    "update-core.php"
  }

  /** The Posts entry. */
  const POSTS_SLUG := "edit.php"
  /** The Pages entry. */
  const PAGES_SLUG := "edit.php?post_type=page"

  /** `/^post(-new)?\.php/`: the post editor screens. */
  predicate IsPostEditor(rel: string)
  {
    StartsWith(rel, "post.php") || StartsWith(rel, "post-new.php")
  }

  /** The term screens, which WordPress files under their content type. */
  predicate IsTermScreen(rel: string)
  {
    StartsWith(rel, "edit-tags.php")
  }

  /** The parent entry of an editor or term screen, from its `post_type`
      parameter (absent or any type but `page` means Posts). */
  function ParentFor(postType: Option<string>): string
  {
    if postType == Some("page") then PAGES_SLUG else POSTS_SLUG
  }

  /** `currentMenuSlugsToKeep`: the current page's slug, plus the parent
      entry of a post editor or term screen. The page URL is given by its
      pathname and search strings. */
  function KeepSet(path: string, search: string): set<string>
  {
    var rel := Slug(path, search);
    var postType := GetParam(QueryOf(search), "post_type");
    var keep := {rel};
    var keep := if IsPostEditor(rel) then keep + {ParentFor(postType)} else keep;
    if IsTermScreen(rel) then keep + {ParentFor(postType)} else keep
  }

  /** The set of slugs the top-level pass keeps: core plus current. */
  function Allowed(keep: set<string>): set<string>
  {
    CORE_MENU_SLUGS + keep
  }

  /** The two parent slugs are not editor or term screens themselves. */
  lemma ParentsAreNotEditors(rel: string)
    requires IsPostEditor(rel) || IsTermScreen(rel)
    ensures rel != POSTS_SLUG && rel != PAGES_SLUG
  {
    if IsPostEditor(rel) {
      assert rel[0] == 'p' != POSTS_SLUG[0];
    } else {
      assert rel[4] == '-' != POSTS_SLUG[4];
    }
  }

  /** The current page's slug is always kept, and nothing else is kept on
      a screen that is neither a post editor nor a term screen. */
  lemma KeepsCurrentPage(path: string, search: string)
    ensures Slug(path, search) in KeepSet(path, search)
    ensures !IsPostEditor(Slug(path, search)) && !IsTermScreen(Slug(path, search))
            ==> KeepSet(path, search) == {Slug(path, search)}
  {
  }

  /** A post editor or term screen keeps exactly one parent besides
      itself: Pages when `post_type` is `page`, Posts otherwise. */
  lemma EditorScreenParent(path: string, search: string)
    requires IsPostEditor(Slug(path, search)) || IsTermScreen(Slug(path, search))
    ensures var postType := GetParam(QueryOf(search), "post_type");
      && KeepSet(path, search) == {Slug(path, search), ParentFor(postType)}
      && (PAGES_SLUG in KeepSet(path, search) <==> postType == Some("page"))
      && (POSTS_SLUG in KeepSet(path, search) <==> postType != Some("page"))
  {
    var rel := Slug(path, search);
    ParentsAreNotEditors(rel);
  }

  /** The page `/wp-admin/post.php?post=5&action=edit` keeps itself and
      Posts. */
  lemma PostEditScenario(path: string, search: string)
    requires path == "/wp-admin/post.php" && search == "?post=5&action=edit"
    ensures KeepSet(path, search) == {"post.php?post=5&action=edit", "edit.php"}
  {
    var rel := "post.php?post=5&action=edit";
    var query := "post=5&action=edit";
    AdminScreenSlug("post.php", query, path, search, rel);
    assert IsPostEditor(rel) && !IsTermScreen(rel) by {
      assert rel[..8] == "post.php";
      assert rel[0] == 'p';
    }
    PostEditQueryType(query);
    EditorScreenParent(path, search);
  }

  /** The page `/wp-admin/post-new.php?post_type=page` keeps itself and
      Pages. */
  lemma NewPageScenario(path: string, search: string)
    requires path == "/wp-admin/post-new.php" && search == "?post_type=page"
    ensures KeepSet(path, search) == {"post-new.php?post_type=page", "edit.php?post_type=page"}
  {
    var rel := "post-new.php?post_type=page";
    var query := "post_type=page";
    AdminScreenSlug("post-new.php", query, path, search, rel);
    assert IsPostEditor(rel) && !IsTermScreen(rel) by {
      assert rel[..12] == "post-new.php";
      assert rel[0] == 'p';
    }
    NewPageQueryType(query);
    EditorScreenParent(path, search);
  }

  lemma PostEditQueryType(query: string)
    requires query == "post=5&action=edit"
    ensures GetParam(query, "post_type") == None
  {
    TwoPairParams("post", "5", "action", "edit", query);
    var ps := [Param("post", "5"), Param("action", "edit")];
    assert ps[0].name != "post_type" && ps[1].name != "post_type";
    LookupFirst(ps, "post_type");
  }

  lemma NewPageQueryType(query: string)
    requires query == "post_type=page"
    ensures GetParam(query, "post_type") == Some("page")
  {
    SplitNoSeparator(query, '&');
    OnePairParams("post_type", "page", query);
  }

  /** On the admin root `/wp-admin/` the current slug is empty, so the
      keep-set holds the empty slug: an entry whose link also ends in `/`
      and has no query is kept there. */
  lemma AdminRootKeepsEmptySlug(path: string, search: string)
    requires path == "/wp-admin/" && search == ""
    ensures KeepSet(path, search) == {""}
  {
    TrailingSlashEmptySegment(path);
    assert Slug(path, search) == "";
  }

  /** The slug of `/wp-admin/<screen>?<query>` is `<screen>?<query>`. */
  lemma AdminScreenSlug(screen: string, query: string, path: string, search: string, rel: string)
    requires '/' !in screen && query != ""
    requires path == "/wp-admin/" + screen && search == "?" + query
    requires rel == screen + "?" + query
    ensures Slug(path, search) == rel
    ensures QueryOf(search) == query
  {
    var parts := ["", "wp-admin", screen];
    SplitJoin(parts, '/');
    assert Join(parts[2..], '/') == screen;
    assert Join(parts[1..], '/') == "wp-admin" + "/" + screen;
    assert Join(parts, '/') == "" + "/" + ("wp-admin" + "/" + screen);
    assert Join(parts, '/') == path;
    assert QueryOf(search) == query;
  }
}
