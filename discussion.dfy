/** The discussion board page (frontend/src/pages/Discussion.js): a list of
    posts held by the page, a category filter and a search box over it, a
    form that prepends a new post, and a like toggle. The page's sample
    posts are static data and are not part of this model. */
module Discussion {
  import opened Common
  import opened Seqs
  import opened Text

  datatype Post = Post(
    id: int,
    title: string,
    author: string,
    date: string,
    category: string,
    content: string,
    likes: int,
    replies: int,
    isLiked: bool)

  /** The new-post form. */
  datatype Draft = Draft(title: string, content: string, category: string)

  const EmptyDraft := Draft("", "", "General")

  /** A post passes the category filter and the case-insensitive search. */
  predicate Shown(p: Post, filter: string, searchTerm: string) {
    && (filter == "All" || p.category == filter)
    && (Contains(Lower(p.title), Lower(searchTerm)) || Contains(Lower(p.content), Lower(searchTerm)))
  }

  /** `getFilteredPosts`. */
  function FilteredPosts(posts: seq<Post>, filter: string, searchTerm: string): (r: seq<Post>)
    ensures forall p :: p in r <==> p in posts && Shown(p, filter, searchTerm)
    ensures IsSubsequence(r, posts)
  {
    FilterIsSubsequence(posts, (p: Post) => Shown(p, filter, searchTerm));
    Filter(posts, (p: Post) => Shown(p, filter, searchTerm))
  }

  /** With the 'All' filter and an empty search every post is shown, in
      order. */
  lemma AllWithEmptySearchShowsEverything(posts: seq<Post>)
    ensures FilteredPosts(posts, "All", "") == posts
  {
    forall k | 0 <= k < |posts| ensures Shown(posts[k], "All", "") {
      assert Lower("") == "";
      assert [] <= Lower(posts[k].title);
    }
    FilterKeepsAll(posts, (p: Post) => Shown(p, "All", ""));
  }

  /** The post `handleAddPost` builds from the form at time `now`. */
  function NewPost(d: Draft, now: int): (p: Post)
    ensures p.title == d.title && p.content == d.content && p.category == d.category
    ensures p.likes == 0 && p.replies == 0 && !p.isLiked && p.id == now
  {
    Post(now, d.title, "You", "Just now", d.category, d.content, 0, 0, false)
  }

  /** A post after a click on its like button. */
  function Liked(p: Post): (r: Post)
    ensures r.isLiked == !p.isLiked
    ensures r.likes == if p.isLiked then p.likes - 1 else p.likes + 1
    ensures r.(likes := p.likes, isLiked := p.isLiked) == p
  {
    p.(likes := if p.isLiked then p.likes - 1 else p.likes + 1, isLiked := !p.isLiked)
  }

  /** `toggleLike(id)` on the list. */
  function ToggledLike(posts: seq<Post>, id: int): (r: seq<Post>)
    ensures |r| == |posts|
    ensures forall k :: 0 <= k < |posts| ==> r[k] == if posts[k].id == id then Liked(posts[k]) else posts[k]
  {
    seq(|posts|, k requires 0 <= k < |posts| => if posts[k].id == id then Liked(posts[k]) else posts[k])
  }

  /** Liking twice undoes the first like. */
  lemma ToggleLikeTwice(posts: seq<Post>, id: int)
    ensures ToggledLike(ToggledLike(posts, id), id) == posts
  {
    var once := ToggledLike(posts, id);
    var twice := ToggledLike(once, id);
    forall k | 0 <= k < |posts| ensures twice[k] == posts[k] {
      if posts[k].id == id {
        assert once[k] == Liked(posts[k]);
      }
    }
  }

  /** The page's state. */
  class DiscussionPage {
    var posts: seq<Post>
    var showModal: bool
    var newPost: Draft

    constructor ()
      ensures posts == [] && !showModal && newPost == EmptyDraft
    {
      posts := [];
      showModal := false;
      newPost := EmptyDraft;
    }

    /** `handleAddPost` at time `now`: a form with an empty title or empty
        content changes nothing; otherwise the new post goes first, the
        form closes and is reset. */
    method HandleAddPost(now: int)
      modifies this
      ensures !Truthy(old(newPost.title)) || !Truthy(old(newPost.content)) ==>
        posts == old(posts) && showModal == old(showModal) && newPost == old(newPost)
      ensures Truthy(old(newPost.title)) && Truthy(old(newPost.content)) ==>
        posts == [NewPost(old(newPost), now)] + old(posts) && !showModal && newPost == EmptyDraft
    {
      if !Truthy(newPost.title) || !Truthy(newPost.content) {
        return;
      }
      var saved := NewPost(newPost, now);
      posts := [saved] + posts;
      showModal := false;
      newPost := EmptyDraft;
    }

    /** `toggleLike(id)`. */
    method ToggleLike(id: int)
      modifies this
      ensures posts == ToggledLike(old(posts), id)
      ensures showModal == old(showModal) && newPost == old(newPost)
    {
      posts := ToggledLike(posts, id);
    }
  }
}
