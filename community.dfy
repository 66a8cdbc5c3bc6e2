/**
 * The Community Bench feed: searching the posts, toggling a like, and publishing a phenotyper
 * capture as a new post.
 */
module Community {
  import opened Wrappers
  import opened Seqs
  import opened Strings
  import opened Types

  // ------------------------------------------------------------------
  // Search

  /** Some tag of the post contains the (already lowercased) query. */
  predicate SomeTagMatches(tags: seq<string>, lower: string) {
    exists k :: 0 <= k < |tags| && Contains(ToLower(tags[k]), lower)
  }

  /** A post matches when its title, author, description or one of its tags contains the query, ignoring case. */
  predicate PostMatches(p: Post, lower: string) {
    || Contains(ToLower(p.title), lower)
    || Contains(ToLower(p.user), lower)
    || Contains(ToLower(p.description), lower)
    || SomeTagMatches(p.tags, lower)
  }

  /** The visible feed: every post for an empty query, otherwise the matching posts in feed order. */
  function FilteredPosts(posts: seq<Post>, query: string): (r: seq<Post>)
    ensures query == "" ==> r == posts
    ensures |r| <= |posts|
    ensures query != "" ==> forall p :: p in r <==> p in posts && PostMatches(p, ToLower(query))
  {
    if query == "" then posts
    else Filter(posts, (p: Post) => PostMatches(p, ToLower(query)))
  }

  /** Search keeps the feed's order: the result is a subsequence of the posts. */
  lemma FilteredIsSubsequence(posts: seq<Post>, query: string)
    ensures IsSubsequence(FilteredPosts(posts, query), posts)
  {
    if query != "" {
      FilterIsSubsequence(posts, (p: Post) => PostMatches(p, ToLower(query)));
    } else {
      SubsequenceRefl(posts);
    }
  }

  lemma {:induction false} SubsequenceRefl<T>(s: seq<T>)
    ensures IsSubsequence(s, s)
    decreases |s|
  {
    if s != [] {
      SubsequenceRefl(s[1..]);
    }
  }

  // ------------------------------------------------------------------
  // Likes

  /** An absent like flag counts as not liked. */
  predicate Liked(p: Post) { p.isLiked == Some(true) }

  /** Toggling one post's like: the count moves by one and the flag flips. */
  function ToggleLike(p: Post): (r: Post)
    ensures r == p.(likes := r.likes, isLiked := r.isLiked)
    ensures r.likes == if Liked(p) then p.likes - 1 else p.likes + 1
    ensures Liked(r) <==> !Liked(p)
    ensures r.isLiked.Some?
  {
    p.(likes := if Liked(p) then p.likes - 1 else p.likes + 1, isLiked := Some(!Liked(p)))
  }

  /** A like reaches only the posts with that id. */
  function HandleLike(posts: seq<Post>, id: int): (r: seq<Post>)
    ensures |r| == |posts|
    ensures forall k :: 0 <= k < |r| && posts[k].id != id ==> r[k] == posts[k]
    ensures forall k :: 0 <= k < |r| && posts[k].id == id ==> r[k] == ToggleLike(posts[k])
  {
    seq(|posts|, k requires 0 <= k < |posts| => if posts[k].id == id then ToggleLike(posts[k]) else posts[k])
  }

  /** Liking twice restores every like count, and every flag that was set. */
  lemma LikeTwiceRestores(posts: seq<Post>, id: int)
    ensures var r := HandleLike(HandleLike(posts, id), id);
      && |r| == |posts|
      && (forall k :: 0 <= k < |r| ==> r[k].likes == posts[k].likes && (Liked(r[k]) <==> Liked(posts[k])))
      && (forall k :: 0 <= k < |r| && posts[k].isLiked.Some? ==> r[k] == posts[k])
  {
    var once := HandleLike(posts, id);
    var r := HandleLike(once, id);
    forall k | 0 <= k < |r| && posts[k].isLiked.Some?
      ensures r[k] == posts[k]
    {
      if posts[k].id == id {
        var p := posts[k];
        assert r[k] == ToggleLike(ToggleLike(p));
        var t := ToggleLike(p);
        assert ToggleLike(t).isLiked == Some(!Liked(t));
        assert Liked(p) <==> p.isLiked.value;
      }
    }
  }

  // ------------------------------------------------------------------
  // Publishing

  datatype Tab = Feed | Tool

  /** The publishing form and the bench's tab. */
  datatype Bench = Bench(tab: Tab, selectedImage: Option<string>, showPostModal: bool, postTitle: string, postDesc: string)

  const DefaultDescription: string := "Shared from 3D Phenotyper Lab."
  const NewPostTag: string := "New Discovery"

  /** A capture can be published once an image is selected and the title is not empty. */
  predicate CanPublish(b: Bench) {
    b.selectedImage.Some? && b.selectedImage.value != "" && b.postTitle != ""
  }

  /** The post a publish creates; `now` stands for the clock reading that serves as its id. */
  function NewPost(b: Bench, profile: UserProfile, now: int): (r: Post)
    requires CanPublish(b)
    ensures r.id == now && r.user == profile.name && r.userId == profile.name && r.avatar == profile.avatar
    ensures r.title == b.postTitle && r.image == b.selectedImage.value
    ensures r.description == if b.postDesc == "" then DefaultDescription else b.postDesc
    ensures r.likes == 0 && r.comments == 0 && r.isLiked == Some(false) && r.tags == [NewPostTag]
    ensures r.timestamp == "Just now"
  {
    Post(now, profile.name, profile.name, profile.avatar, b.postTitle,
         if b.postDesc != "" then b.postDesc else DefaultDescription,
         b.selectedImage.value, 0, 0, "Just now", Some(false), [NewPostTag])
  }

  /**
   * Publishing: without an image or a title nothing happens; otherwise the new post goes to the top
   * of the feed, the modal closes, the feed tab opens and the form is cleared (the image stays selected).
   */
  function HandlePublish(posts: seq<Post>, b: Bench, profile: UserProfile, now: int): (r: (seq<Post>, Bench))
    ensures !CanPublish(b) ==> r == (posts, b)
    ensures CanPublish(b) ==> r.0 == [NewPost(b, profile, now)] + posts
    ensures CanPublish(b) ==> r.1 == b.(tab := Feed, showPostModal := false, postTitle := "", postDesc := "")
  {
    if !CanPublish(b) then (posts, b)
    else ([NewPost(b, profile, now)] + posts, b.(showPostModal := false, tab := Feed, postTitle := "", postDesc := ""))
  }

  /** A publish adds exactly one post and cannot be repeated without a new title. */
  lemma PublishOnce(posts: seq<Post>, b: Bench, profile: UserProfile, now: int, later: int)
    requires CanPublish(b)
    ensures var (feed, form) := HandlePublish(posts, b, profile, now);
      |feed| == |posts| + 1 && feed[1..] == posts && HandlePublish(feed, form, profile, later) == (feed, form)
  {
  }

  /** The new post shows in a search for its title. */
  lemma PublishedPostIsFound(posts: seq<Post>, b: Bench, profile: UserProfile, now: int)
    requires CanPublish(b)
    ensures NewPost(b, profile, now) in FilteredPosts(HandlePublish(posts, b, profile, now).0, b.postTitle)
  {
    var lower := ToLower(b.postTitle);
    assert StartsWith(ToLower(b.postTitle)[0..], lower);
    assert Contains(ToLower(b.postTitle), lower);
  }
}
