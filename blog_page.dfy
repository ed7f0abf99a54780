/**
  The blog index page: filtering the posts by the category in the query
  string, and the heading and messages chosen from the selected category.
 */
module BlogPage {
  import opened Wrappers
  import opened Text

  datatype Category = Category(id: string, title: string, slug: string, description: Option<string>)

  datatype Post = Post(id: string, title: string, categories: seq<Category>)

  predicate InCategory(post: Post, slug: string) {
    exists c :: c in post.categories && c.slug == slug
  }

  /** `filteredPosts`; `category` is the query parameter. */
  function FilteredPosts(posts: seq<Post>, category: Option<string>): seq<Post> {
    if !Truthy(category) then posts
    else PostsIn(posts, category.value)
  }

  /** The posts with some category of the given slug, in order. */
  function PostsIn(posts: seq<Post>, slug: string): seq<Post> {
    if posts == [] then []
    else
      var rest := PostsIn(posts[..|posts| - 1], slug);
      if InCategory(posts[|posts| - 1], slug) then rest + [posts[|posts| - 1]] else rest
  }

  /** With no category every post is listed. */
  lemma NoCategoryListsAll(posts: seq<Post>, category: Option<string>)
    requires !Truthy(category)
    ensures FilteredPosts(posts, category) == posts
  {
  }

  /** With a category a post is listed exactly when it has a category of
      that slug, and filtering keeps the order (filtering a concatenation
      concatenates the filtered parts). */
  lemma {:induction false} CategoryFilter(posts: seq<Post>, more: seq<Post>, slug: string)
    ensures forall p :: p in PostsIn(posts, slug) <==> p in posts && InCategory(p, slug)
    ensures PostsIn(posts + more, slug) == PostsIn(posts, slug) + PostsIn(more, slug)
    decreases |posts| + |more|
  {
    if posts != [] {
      CategoryFilter(posts[..|posts| - 1], [], slug);
      assert posts == posts[..|posts| - 1] + [posts[|posts| - 1]];
    }
    if more != [] {
      CategoryFilter(posts, more[..|more| - 1], slug);
      assert (posts + more)[..|posts + more| - 1] == posts + more[..|more| - 1];
    } else {
      assert posts + more == posts;
    }
  }

  /** `categories.find(...)` by slug. */
  function FindBySlug(categories: seq<Category>, slug: string): (r: Option<Category>)
    ensures r.Some? ==> r.value in categories && r.value.slug == slug
    ensures r.None? ==> forall c :: c in categories ==> c.slug != slug
    ensures r.Some? ==> exists i :: 0 <= i < |categories| && categories[i] == r.value
                                 && forall j :: 0 <= j < i ==> categories[j].slug != slug
  {
    if categories == [] then None
    else if categories[0].slug == slug then Some(categories[0])
    else
      var r := FindBySlug(categories[1..], slug);
      if r.Some? then
        var i :| 0 <= i < |categories[1..]| && categories[1..][i] == r.value
                 && forall j :: 0 <= j < i ==> categories[1..][j].slug != slug;
        assert categories[i + 1] == r.value;
        r
      else r
  }

  /** `selectedCategory`. */
  function SelectedCategory(categories: seq<Category>, category: Option<string>): Option<Category> {
    if Truthy(category) then FindBySlug(categories, category.value) else None
  }

  const DefaultHeading := "Mobile App Insights"
  const DefaultSubtext := "Discover the latest trends, tips, and insights in mobile app development"
  const NoPostsAtAll := "No blog posts are available at the moment."

  function Heading(selected: Option<Category>): string {
    if selected.Some? then selected.value.title else DefaultHeading
  }

  function Subtext(selected: Option<Category>): string {
    if selected.Some? then OrElse(selected.value.description, "Articles about " + ToLower(selected.value.title))
    else DefaultSubtext
  }

  function EmptyMessage(selected: Option<Category>): string {
    if selected.Some? then "No posts found in the " + selected.value.title + " category." else NoPostsAtAll
  }

  /** The texts follow the selected category: its title as heading, its
      description or a generated line as subtext, a category-specific
      empty-state line; without one, the fixed defaults. */
  lemma HeaderTexts(categories: seq<Category>, category: Option<string>)
    ensures var sel := SelectedCategory(categories, category);
      && (sel.Some? ==> Truthy(category) && sel.value in categories && sel.value.slug == category.value)
      && (sel.None? ==> Heading(sel) == DefaultHeading && Subtext(sel) == DefaultSubtext && EmptyMessage(sel) == NoPostsAtAll)
      && (sel.Some? ==> Heading(sel) == sel.value.title)
      && (sel.Some? && Truthy(sel.value.description) ==> Subtext(sel) == sel.value.description.value)
      && (sel.Some? && !Truthy(sel.value.description) ==>
            Subtext(sel) == "Articles about " + ToLower(sel.value.title))
      && (sel.Some? ==> Contains(EmptyMessage(sel), sel.value.title))
  {
    var sel := SelectedCategory(categories, category);
    if sel.Some? {
      var m := EmptyMessage(sel);
      var n := |"No posts found in the "|;
      assert m[n..n + |sel.value.title|] == sel.value.title;
      assert OccursAt(m, sel.value.title, n);
    }
  }
}
