/** The blog list page: the category list drawn from the posts, the search
    and category filter over the posts, and the selection of a post to
    read, fetched in full by its slug with the list entry as fallback. */
module Blog {
  import opened Wrappers
  import opened JsStrings
  import opened Seqs

  /** The fields of a post the page reads. */
  datatype ListedPost = ListedPost(id: string, title: string, slug: string, content: Option<string>,
                                   excerpt: Option<string>, categoryName: Option<string>)

  function CategoryOf(p: ListedPost): string
  {
    OrEmpty(p.categoryName)
  }

  /** `[...new Set(posts.map(post => post.category_name).filter(Boolean))]`;
      a missing category and an empty one are both dropped by the filter. */
  function AllCategories(posts: seq<ListedPost>): seq<string>
  {
    Distinct(Filter(Map(posts, CategoryOf), Truthy))
  }

  /** The categories have no repeats and no empty value; a name is listed
      exactly when some post carries it; and they appear in the order the
      posts first name them. */
  lemma AllCategoriesFacts(posts: seq<ListedPost>)
    ensures NoDuplicates(AllCategories(posts))
    ensures forall c :: c in AllCategories(posts) ==> c != ""
    ensures forall c :: c in AllCategories(posts) <==> c != "" && exists i :: 0 <= i < |posts| && posts[i].categoryName == Some(c)
    ensures IsSubsequence(AllCategories(posts), Filter(Map(posts, CategoryOf), Truthy))
    ensures InFirstOccurrenceOrder(AllCategories(posts), Filter(Map(posts, CategoryOf), Truthy))
  {
    var names := Map(posts, CategoryOf);
    var present := Filter(names, Truthy);
    DistinctFacts(present);
    forall c
      ensures c in AllCategories(posts) <==> c != "" && exists i :: 0 <= i < |posts| && posts[i].categoryName == Some(c)
    {
      if c in AllCategories(posts) {
        assert c in present;
        var i :| 0 <= i < |names| && names[i] == c;
        assert posts[i].categoryName == Some(c);
      }
      if c != "" && exists i :: 0 <= i < |posts| && posts[i].categoryName == Some(c) {
        var i :| 0 <= i < |posts| && posts[i].categoryName == Some(c);
        assert names[i] == c;
      }
    }
  }

  predicate MatchesSearch(p: ListedPost, searchTerm: string)
  {
    ContainsIgnoringCase(p.title, searchTerm) || ContainsIgnoringCase(OrEmpty(p.excerpt), searchTerm)
  }

  predicate MatchesCategory(p: ListedPost, selectedCategory: string)
  {
    selectedCategory == "" || p.categoryName == Some(selectedCategory)
  }

  /** The filter callback. */
  predicate Keeps(p: ListedPost, searchTerm: string, selectedCategory: string)
  {
    MatchesSearch(p, searchTerm) && MatchesCategory(p, selectedCategory)
  }

  /** `filteredPosts`. */
  function FilteredPosts(posts: seq<ListedPost>, searchTerm: string, selectedCategory: string): seq<ListedPost>
  {
    Filter(posts, p => Keeps(p, searchTerm, selectedCategory))
  }

  /** The shown posts are the order-preserving selection of the posts whose
      title or excerpt contains the search term, ignoring case, and that
      carry the selected category when one is selected. */
  lemma FilteredPostsFacts(posts: seq<ListedPost>, searchTerm: string, selectedCategory: string)
    ensures var r := FilteredPosts(posts, searchTerm, selectedCategory);
            IsSubsequence(r, posts) &&
            (forall i :: 0 <= i < |r| ==>
               (ContainsIgnoringCase(r[i].title, searchTerm) || ContainsIgnoringCase(OrEmpty(r[i].excerpt), searchTerm)) &&
               (selectedCategory != "" ==> r[i].categoryName == Some(selectedCategory))) &&
            (forall i :: 0 <= i < |posts| && Keeps(posts[i], searchTerm, selectedCategory) ==> posts[i] in r)
  {
    FilterIsOrderedSelection(posts, p => Keeps(p, searchTerm, selectedCategory));
  }

  /** With no search term and no category every post is shown, in order. */
  lemma EmptyFilterKeepsAll(posts: seq<ListedPost>)
    ensures FilteredPosts(posts, "", "") == posts
  {
    assert Lower("") == "";
    forall i | 0 <= i < |posts|
      ensures MatchesSearch(posts[i], "")
    {
      ContainsEmpty(Lower(posts[i].title));
    }
    FilterKeepAll(posts, p => Keeps(p, "", ""));
  }

  /** The post shown after a selection: the full post when the fetch by
      slug found one, the list entry otherwise. */
  function Selected(listed: ListedPost, fetched: Option<ListedPost>): ListedPost
  {
    match fetched
      case Some(full) => full
      case None => listed
  }

  class BlogPage {
    const posts: seq<ListedPost>
    var selectedPost: Option<ListedPost>
    var searchTerm: string
    var selectedCategory: string
    var loadingPost: bool
    /** Every value `loadingPost` has been set to, in order. */
    var loadingFlags: seq<bool>

    constructor (posts: seq<ListedPost>)
      ensures this.posts == posts
      ensures selectedPost.None? && searchTerm == "" && selectedCategory == "" && !loadingPost && loadingFlags == []
    {
      this.posts := posts;
      selectedPost := None;
      searchTerm := "";
      selectedCategory := "";
      loadingPost := false;
      loadingFlags := [];
    }

    function Shown(): seq<ListedPost>
      reads this
    {
      FilteredPosts(posts, searchTerm, selectedCategory)
    }

    /** `handlePostSelect(post)`, given what the fetch by `post.slug` gave:
        a post, or nothing when it found none or failed. */
    method HandlePostSelect(post: ListedPost, fetched: Option<ListedPost>)
      modifies this
      ensures selectedPost == Some(Selected(post, fetched))
      ensures !loadingPost && loadingFlags == old(loadingFlags) + [true, false]
      ensures searchTerm == old(searchTerm) && selectedCategory == old(selectedCategory)
    {
      loadingPost := true;
      loadingFlags := loadingFlags + [true];
      if fetched.Some? {
        selectedPost := fetched;
      } else {
        selectedPost := Some(post);
      }
      loadingPost := false;
      loadingFlags := loadingFlags + [false];
    }

    /** `handleBackToList`: no post selected and no filter, so every post
        is listed again. */
    method HandleBackToList()
      modifies this
      ensures selectedPost.None? && searchTerm == "" && selectedCategory == ""
      ensures loadingPost == old(loadingPost) && loadingFlags == old(loadingFlags)
      ensures Shown() == posts
    {
      selectedPost := None;
      searchTerm := "";
      selectedCategory := "";
      EmptyFilterKeepsAll(posts);
    }
  }
}
