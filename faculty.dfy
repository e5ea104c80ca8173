/** The faculty feed page (frontend/src/pages/Faculty.js): the posts of one
    faculty, loaded once, with new posts prepended and deleted posts
    filtered out. A post's fields other than its id belong to the post
    components and are carried as they are. */
module Faculty {
  import opened Common
  import opened Seqs
  import opened UserModel
  import AuthContext

  datatype FeedPost = FeedPost(id: string, content: string)

  /** The post form is offered only to a signed-in user of this faculty. */
  predicate CanPost(user: Option<Profile>, facultyName: string) {
    user.Some? && user.value.faculty == facultyName
  }

  /** A signed-in user is offered the form on the page of their own
      faculty and on no other; a client with no user is offered it nowhere. */
  lemma PostFormOnOwnFacultyOnly(user: Option<Profile>, facultyName: string)
    ensures user.None? ==> !CanPost(user, facultyName)
    ensures user.Some? ==> (CanPost(user, facultyName) <==> facultyName == user.value.faculty)
  {
  }

  /** The form follows the client's session: only an authenticated client
      is offered it, and after logout no faculty page offers it. */
  lemma PostFormFollowsSession(s: AuthContext.State, facultyName: string)
    requires AuthContext.Consistent(s)
    ensures CanPost(s.user, facultyName) ==> s.isAuthenticated
    ensures !CanPost(AuthContext.AfterLogout(s).user, facultyName)
  {
  }

  /** `deletePost(id)` on the list. */
  function WithoutPost(posts: seq<FeedPost>, id: string): (r: seq<FeedPost>)
    ensures forall p :: p in r <==> p in posts && p.id != id
    ensures IsSubsequence(r, posts)
  {
    FilterIsSubsequence(posts, (p: FeedPost) => p.id != id);
    Filter(posts, (p: FeedPost) => p.id != id)
  }

  /** Deleting an id no post has leaves the list as it is. */
  lemma DeleteAbsentKeepsPosts(posts: seq<FeedPost>, id: string)
    requires forall k :: 0 <= k < |posts| ==> posts[k].id != id
    ensures WithoutPost(posts, id) == posts
  {
    FilterKeepsAll(posts, (p: FeedPost) => p.id != id);
  }

  /** Deleting a post just added removes it again. */
  lemma DeleteUndoesAdd(posts: seq<FeedPost>, p: FeedPost)
    requires forall k :: 0 <= k < |posts| ==> posts[k].id != p.id
    ensures WithoutPost([p] + posts, p.id) == posts
  {
    assert ([p] + posts)[1..] == posts;
    DeleteAbsentKeepsPosts(posts, p.id);
  }

  class FacultyPage {
    const facultyName: string
    var posts: seq<FeedPost>
    var loading: bool

    constructor (facultyName: string)
      ensures this.facultyName == facultyName && posts == [] && loading
    {
      this.facultyName := facultyName;
      posts := [];
      loading := true;
    }

    /** The fetch on mount: the reply's posts, or none when the request
        fails; loading ends either way. */
    method FetchPosts(reply: Option<seq<FeedPost>>)
      modifies this
      ensures reply.Some? ==> posts == reply.value
      ensures reply.None? ==> posts == old(posts)
      ensures !loading
    {
      if reply.Some? {
        posts := reply.value;
      }
      loading := false;
    }

    /** `addPost`: the new post goes first. */
    method AddPost(p: FeedPost)
      modifies this
      ensures posts == [p] + old(posts)
      ensures loading == old(loading)
    {
      posts := [p] + posts;
    }

    /** `deletePost(id)`. */
    method DeletePost(id: string)
      modifies this
      ensures posts == WithoutPost(old(posts), id)
      ensures loading == old(loading)
    {
      posts := WithoutPost(posts, id);
    }
  }
}
