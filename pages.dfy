/**
 * `ur_create_page`: find or create the page a plugin option points to,
 * over a store of posts and options. The stored page is kept if it is still
 * a visible page; otherwise a visible page with the same content (or slug)
 * is reused, else a trashed one is republished, else a new page is inserted.
 */
module Pages {
  import opened Strings

  /** The columns of a post the page lookup reads or writes. */
  datatype Post = Post(postType: string, status: string, name: string, title: string, content: string, parent: nat)

  /** Statuses that do not count as a page in place. */
  const HiddenStatuses: set<string> := {"pending", "trash", "future", "auto-draft"}

  /** `post_type = 'page' AND post_status NOT IN ( 'pending', 'trash', 'future', 'auto-draft' )`. */
  predicate Live(p: Post)
  {
    p.postType == "page" && p.status !in HiddenStatuses
  }

  /** `post_type = 'page' AND post_status = 'trash'`. */
  predicate Trashed(p: Post)
  {
    p.postType == "page" && p.status == "trash"
  }

  /** The search key: the content as a substring when it is non-empty, else the slug as the post name. */
  predicate Matches(p: Post, slug: string, content: string)
  {
    if |content| > 0 then Contains(p.content, content) else p.name == slug
  }

  /** PHP truthiness of an option name: "" and "0" are false. */
  predicate Truthy(option: string)
  {
    option != "" && option != "0"
  }

  /**
   * The option holds a positive id of a visible page. `get_option` answers
   * false for an empty or "0" option name, so such a name never holds one.
   */
  predicate StoredValid(posts: map<nat, Post>, options: map<string, int>, option: string)
  {
    Truthy(option) && option in options && options[option] > 0 && options[option] as nat in posts && Live(posts[options[option] as nat])
  }

  predicate HasLiveMatch(posts: map<nat, Post>, slug: string, content: string)
  {
    exists id :: id in posts && Live(posts[id]) && Matches(posts[id], slug, content)
  }

  predicate HasTrashedMatch(posts: map<nat, Post>, slug: string, content: string)
  {
    exists id :: id in posts && Trashed(posts[id]) && Matches(posts[id], slug, content)
  }

  /** Republishing a trashed page makes it visible and keeps what it matches. */
  lemma Republish(p: Post, slug: string, content: string)
    requires Trashed(p)
    ensures Live(p.(status := "publish")) && !Live(p)
    ensures Matches(p.(status := "publish"), slug, content) == Matches(p, slug, content)
  {
    assert "trash" in HiddenStatuses;
  }

  /** A page created for a slug, or for a non-empty content, is found by the next search for it. */
  lemma NewPageMatches(slug: string, title: string, content: string, parent: nat)
    ensures Live(Post("page", "publish", slug, title, content, parent))
    ensures Matches(Post("page", "publish", slug, title, content, parent), slug, content)
  {
    assert "publish" !in HiddenStatuses;
    if |content| > 0 {
      assert OccursAt(content, content, 0) by { assert content[0..|content|] == content; }
    }
  }

  /** The posts table and the options table of a site. */
  class Store {
    var posts: map<nat, Post>
    var options: map<string, int>
    var nextId: nat

    /** Post ids are positive and below the next id to assign. */
    ghost predicate Valid()
      reads this
    {
      nextId > 0 && forall id :: id in posts ==> 0 < id < nextId
    }

    constructor()
      ensures Valid() && posts == map[] && options == map[]
    {
      posts := map[];
      options := map[];
      nextId := 1;
    }

    /**
     * `ur_create_page($slug, $option, $page_title, $page_content, $post_parent)`.
     * The two `LIMIT 1` searches return some matching row.
     */
    method CreatePage(slug: string, option: string, title: string, content: string, parent: nat) returns (id: nat)
      requires Valid()
      modifies this
      ensures Valid()
      ensures id in posts && Live(posts[id]) && id > 0
      // The stored page is still in place: nothing changes.
      ensures old(StoredValid(posts, options, option)) ==>
        id == old(options[option]) && posts == old(posts) && options == old(options) && nextId == old(nextId)
      // Otherwise the page returned matches the slug or content, and a truthy option is set to it.
      ensures !old(StoredValid(posts, options, option)) ==>
        && Matches(posts[id], slug, content)
        && options == (if Truthy(option) then old(options)[option := id] else old(options))
      // A visible match is reused as it is.
      ensures !old(StoredValid(posts, options, option)) && old(HasLiveMatch(posts, slug, content)) ==>
        id in old(posts) && posts == old(posts) && nextId == old(nextId)
      // Otherwise a trashed match is republished.
      ensures (!old(StoredValid(posts, options, option)) && !old(HasLiveMatch(posts, slug, content))
        && old(HasTrashedMatch(posts, slug, content))) ==>
        id in old(posts) && Trashed(old(posts)[id]) && posts == old(posts)[id := old(posts)[id].(status := "publish")]
        && nextId == old(nextId)
      // Otherwise a new page is inserted under a fresh id.
      ensures (!old(StoredValid(posts, options, option)) && !old(HasLiveMatch(posts, slug, content))
        && !old(HasTrashedMatch(posts, slug, content))) ==>
        id == old(nextId) && id !in old(posts) && nextId == old(nextId) + 1
        && posts == old(posts)[id := Post("page", "publish", slug, title, content, parent)]
    {
      if StoredValid(posts, options, option) {
        return options[option] as nat;
      }
      if HasLiveMatch(posts, slug, content) {
        var found :| found in posts && Live(posts[found]) && Matches(posts[found], slug, content);
        if Truthy(option) {
          options := options[option := found as int];
        }
        return found;
      }
      if HasTrashedMatch(posts, slug, content) {
        var trashed :| trashed in posts && Trashed(posts[trashed]) && Matches(posts[trashed], slug, content);
        Republish(posts[trashed], slug, content);
        posts := posts[trashed := posts[trashed].(status := "publish")];
        id := trashed;
      } else {
        NewPageMatches(slug, title, content, parent);
        id := nextId;
        posts := posts[id := Post("page", "publish", slug, title, content, parent)];
        nextId := nextId + 1;
      }
      if Truthy(option) {
        options := options[option := id as int];
      }
    }
  }

  /** Calling `ur_create_page` twice with the same arguments creates at most one page. */
  method CreatePageTwice(store: Store, slug: string, option: string, title: string, content: string, parent: nat)
    returns (first: nat, second: nat)
    requires store.Valid()
    modifies store
    ensures store.Valid()
    ensures |store.posts.Keys| <= |old(store.posts.Keys)| + 1
    ensures Truthy(option) ==> second == first && option in store.options && store.options[option] == first
  {
    var before := store.posts.Keys;
    first := store.CreatePage(slug, option, title, content, parent);
    var middle := store.posts.Keys;
    assert |middle| <= |before| + 1 by {
      if middle != before {
        assert middle == before + {first};
      }
    }
    assert HasLiveMatch(store.posts, slug, content) || StoredValid(store.posts, store.options, option);
    second := store.CreatePage(slug, option, title, content, parent);
    assert store.posts.Keys == middle;
  }
}
