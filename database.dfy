/**
 * The post repository of `src/firebase/database.js` over an abstract
 * document store. The collection is a map from document id to `Post`; the
 * writes are methods of `BlogStore`, with the store's server time passed in
 * as `now` and an exception thrown by the store passed in as `failure`. The
 * reads are pipelines over what `getDocs` returned: the documents of the
 * collection in the store's own order, or the message of the exception.
 */
module Database {
  import opened Wrappers
  import opened Posts
  import Seqs
  import Sorting

  /** `getBlogPost`'s error for a missing document. */
  const PostNotFound: string := "Post not found"
  /** The store's error for `updateDoc` on a missing document (its text is abbreviated here). */
  const NoDocumentToUpdate: string := "No document to update"
  /** `getRecentBlogPosts`' default `limitCount`. */
  const DefaultRecentCount: int := 5

  /**
   * The document `createBlogPost` writes: the caller's fields, then server
   * time for both dates, zero counters and the two flags defaulted to false.
   */
  function NewPost(postData: Post, now: int): (p: Post)
    ensures p.publishDate == Some(now) && p.lastModified == Some(now)
    ensures p.viewCount == Some(0) && p.likeCount == Some(0)
    ensures p.isPublished == Some(Truthy(postData.isPublished))
    ensures p.isMandatoryReading == Some(Truthy(postData.isMandatoryReading))
    ensures p.title == postData.title && p.excerpt == postData.excerpt
    ensures p.content == postData.content && p.featuredImage == postData.featuredImage
    ensures p.tags == postData.tags && p.category == postData.category
  {
    Merge(postData, NoFields.(
      publishDate := Some(now),
      lastModified := Some(now),
      viewCount := Some(0),
      likeCount := Some(0),
      isPublished := Some(Truthy(postData.isPublished)),
      isMandatoryReading := Some(Truthy(postData.isMandatoryReading))))
  }

  /** The object `updateBlogPost` hands to `updateDoc`: the caller's fields plus `lastModified`. */
  function Stamped(updateData: Post, now: int): Post
  {
    updateData.(lastModified := Some(now))
  }

  /**
   * The document after `updateBlogPost`: `lastModified` is the server time, a
   * field the caller supplied takes the supplied value, every other field
   * keeps its stored value.
   */
  lemma UpdatedFields(stored: Post, updateData: Post, now: int)
    ensures Merge(stored, Stamped(updateData, now)).lastModified == Some(now)
    ensures Merge(stored, Stamped(updateData, now)).title == if updateData.title.Some? then updateData.title else stored.title
    ensures Merge(stored, Stamped(updateData, now)).excerpt == if updateData.excerpt.Some? then updateData.excerpt else stored.excerpt
    ensures Merge(stored, Stamped(updateData, now)).content == if updateData.content.Some? then updateData.content else stored.content
    ensures Merge(stored, Stamped(updateData, now)).featuredImage == if updateData.featuredImage.Some? then updateData.featuredImage else stored.featuredImage
    ensures Merge(stored, Stamped(updateData, now)).tags == if updateData.tags.Some? then updateData.tags else stored.tags
    ensures Merge(stored, Stamped(updateData, now)).category == if updateData.category.Some? then updateData.category else stored.category
    ensures Merge(stored, Stamped(updateData, now)).isPublished == if updateData.isPublished.Some? then updateData.isPublished else stored.isPublished
    ensures Merge(stored, Stamped(updateData, now)).isMandatoryReading == if updateData.isMandatoryReading.Some? then updateData.isMandatoryReading else stored.isMandatoryReading
    ensures Merge(stored, Stamped(updateData, now)).publishDate == if updateData.publishDate.Some? then updateData.publishDate else stored.publishDate
    ensures Merge(stored, Stamped(updateData, now)).viewCount == if updateData.viewCount.Some? then updateData.viewCount else stored.viewCount
    ensures Merge(stored, Stamped(updateData, now)).likeCount == if updateData.likeCount.Some? then updateData.likeCount else stored.likeCount
    ensures Merge(stored, Stamped(updateData, now)) == Merge(Merge(stored, updateData), NoFields.(lastModified := Some(now)))
  {
  }

  /** `increment(1)`: a missing counter counts as zero. */
  function Bumped(counter: Option<int>): (c: Option<int>)
    ensures c.Some? && c.value == counter.GetOr(0) + 1
  {
    Some(counter.GetOr(0) + 1)
  }

  class BlogStore {
    /** The `blogPosts` collection. */
    var posts: map<string, Post>

    constructor ()
      ensures posts == map[]
    {
      posts := map[];
    }

    /** `createBlogPost`; `newId` is the id the store assigns, which it keeps unique. */
    method CreateBlogPost(postData: Post, now: int, newId: string, failure: Option<string>) returns (r: Outcome<string>)
      requires newId !in posts
      modifies this
      ensures failure.Some? ==> r == Err(failure.value) && posts == old(posts)
      ensures failure.None? ==> r == Ok(newId) && posts == old(posts)[newId := NewPost(postData, now)]
    {
      if failure.Some? {
        return Err(failure.value);
      }
      posts := posts[newId := NewPost(postData, now)];
      r := Ok(newId);
    }

    /** `updateBlogPost`: merges the supplied fields into an existing document. */
    method UpdateBlogPost(postId: string, updateData: Post, now: int, failure: Option<string>) returns (r: Status)
      modifies this
      ensures failure.Some? ==> r == Failure(failure.value) && posts == old(posts)
      ensures failure.None? && postId !in old(posts) ==> r == Failure(NoDocumentToUpdate) && posts == old(posts)
      ensures failure.None? && postId in old(posts) ==>
        r == Success && posts == old(posts)[postId := Merge(old(posts)[postId], Stamped(updateData, now))]
    {
      if failure.Some? {
        return Failure(failure.value);
      }
      if postId !in posts {
        return Failure(NoDocumentToUpdate);
      }
      posts := posts[postId := Merge(posts[postId], Stamped(updateData, now))];
      r := Success;
    }

    /** `deleteBlogPost`: a hard delete; deleting a missing document succeeds. */
    method DeleteBlogPost(postId: string, failure: Option<string>) returns (r: Status)
      modifies this
      ensures failure.Some? ==> r == Failure(failure.value) && posts == old(posts)
      ensures failure.None? ==> r == Success && posts == old(posts) - {postId}
    {
      if failure.Some? {
        return Failure(failure.value);
      }
      posts := posts - {postId};
      r := Success;
    }

    /** `incrementViewCount`: raises that post's view counter by one and changes nothing else. */
    method IncrementViewCount(postId: string, failure: Option<string>) returns (r: Status)
      modifies this
      ensures failure.Some? ==> r == Failure(failure.value) && posts == old(posts)
      ensures failure.None? && postId !in old(posts) ==> r == Failure(NoDocumentToUpdate) && posts == old(posts)
      ensures failure.None? && postId in old(posts) ==>
        r == Success &&
        posts == old(posts)[postId := old(posts)[postId].(viewCount := Bumped(old(posts)[postId].viewCount))]
    {
      if failure.Some? {
        return Failure(failure.value);
      }
      if postId !in posts {
        return Failure(NoDocumentToUpdate);
      }
      posts := posts[postId := posts[postId].(viewCount := Bumped(posts[postId].viewCount))];
      r := Success;
    }

    /** `incrementLikeCount`: raises that post's like counter by one and changes nothing else. */
    method IncrementLikeCount(postId: string, failure: Option<string>) returns (r: Status)
      modifies this
      ensures failure.Some? ==> r == Failure(failure.value) && posts == old(posts)
      ensures failure.None? && postId !in old(posts) ==> r == Failure(NoDocumentToUpdate) && posts == old(posts)
      ensures failure.None? && postId in old(posts) ==>
        r == Success &&
        posts == old(posts)[postId := old(posts)[postId].(likeCount := Bumped(old(posts)[postId].likeCount))]
    {
      if failure.Some? {
        return Failure(failure.value);
      }
      if postId !in posts {
        return Failure(NoDocumentToUpdate);
      }
      posts := posts[postId := posts[postId].(likeCount := Bumped(posts[postId].likeCount))];
      r := Success;
    }
  }

  /** `getBlogPost`: the stored document tagged with its id, or "Post not found". */
  function GetBlogPost(posts: map<string, Post>, postId: string, failure: Option<string>): (r: Outcome<Entry>)
    ensures failure.Some? ==> r == Err(failure.value)
    ensures failure.None? ==> (r.Ok? <==> postId in posts)
    ensures r.Ok? ==> r.value.id == postId && postId in posts && r.value.post == posts[postId]
    ensures failure.None? && postId !in posts ==> r == Err(PostNotFound)
  {
    if failure.Some? then Err(failure.value)
    else if postId in posts then Ok(Entry(postId, posts[postId]))
    else Err(PostNotFound)
  }

  /** Reading back what a successful create, update or delete wrote. */
  lemma ReadAfterWrite(posts: map<string, Post>, postId: string, postData: Post, now: int)
    ensures GetBlogPost(posts - {postId}, postId, None) == Err(PostNotFound)
    ensures GetBlogPost(posts[postId := NewPost(postData, now)], postId, None) == Ok(Entry(postId, NewPost(postData, now)))
    ensures postId in posts ==>
      GetBlogPost(posts[postId := Merge(posts[postId], Stamped(postData, now))], postId, None)
        == Ok(Entry(postId, Merge(posts[postId], Stamped(postData, now))))
  {
  }

  /**
   * `timestampToDate`: the stored time, or the current clock reading when the
   * field is absent. `now` is that reading.
   */
  function TimestampToDate(timestamp: Option<int>, now: int): (t: int)
    ensures timestamp.Some? ==> t == timestamp.value
    ensures timestamp.None? ==> t == now
  {
    if timestamp.Some? then timestamp.value else now
  }

  /** `docs` is the whole collection `posts`, each document once, in some order. */
  ghost predicate Lists(docs: seq<Entry>, posts: map<string, Post>)
  {
    && (forall i :: 0 <= i < |docs| ==> docs[i].id in posts && posts[docs[i].id] == docs[i].post)
    && (forall i, j :: 0 <= i < j < |docs| ==> docs[i].id != docs[j].id)
    && (forall id :: id in posts ==> exists i :: 0 <= i < |docs| && docs[i].id == id)
  }

  predicate IsPublished(e: Entry)
  {
    Truthy(e.post.isPublished)
  }

  /** The documents matched by `where('isPublished', '==', true)`, in store order. */
  function PublishedQuery(docs: seq<Entry>): seq<Entry>
  {
    Seqs.Filter(docs, IsPublished)
  }

  /** `getAllBlogPosts`: the published posts, newest `publishDate` first (missing counts as 0). */
  function GetAllBlogPosts(snapshot: Outcome<seq<Entry>>): (r: Outcome<seq<Entry>>)
    ensures snapshot.Err? ==> r == Err(snapshot.message)
    ensures snapshot.Ok? ==> r.Ok?
    ensures r.Ok? ==> Sorting.SortedDesc(r.value, PublishKey)
    ensures r.Ok? ==> multiset(r.value) == multiset(PublishedQuery(snapshot.value))
    ensures r.Ok? ==> forall e :: e in r.value <==> e in snapshot.value && IsPublished(e)
  {
    match snapshot
    case Err(m) => Err(m)
    case Ok(docs) =>
      var sorted := Sorting.SortDesc(PublishedQuery(docs), PublishKey);
      assert forall e :: e in sorted <==> e in multiset(PublishedQuery(docs));
      Ok(sorted)
  }

  /** `getRecentBlogPosts(limitCount)`: the first `limitCount` posts of `getAllBlogPosts`, with `slice`'s rules. */
  function GetRecentBlogPosts(snapshot: Outcome<seq<Entry>>, limitCount: int): (r: Outcome<seq<Entry>>)
    ensures snapshot.Err? ==> r == Err(snapshot.message)
    ensures snapshot.Ok? ==> r.Ok? && r.value <= GetAllBlogPosts(snapshot).value
    ensures snapshot.Ok? && limitCount >= 0 ==>
      |r.value| == if limitCount < |PublishedQuery(snapshot.value)| then limitCount else |PublishedQuery(snapshot.value)|
    ensures snapshot.Ok? && limitCount < 0 ==>
      |r.value| == if |PublishedQuery(snapshot.value)| + limitCount < 0 then 0 else |PublishedQuery(snapshot.value)| + limitCount
  {
    match GetAllBlogPosts(snapshot)
    case Err(m) => Err(m)
    case Ok(sorted) =>
      assert |sorted| == |multiset(sorted)| == |PublishedQuery(snapshot.value)|;
      Ok(Seqs.SlicePrefix(sorted, limitCount))
  }

  /** `getRecentBlogPosts()` with its default of five posts. */
  function GetRecentBlogPostsDefault(snapshot: Outcome<seq<Entry>>): (r: Outcome<seq<Entry>>)
    ensures r.Ok? ==> |r.value| <= DefaultRecentCount
    ensures r == GetRecentBlogPosts(snapshot, DefaultRecentCount)
  {
    GetRecentBlogPosts(snapshot, DefaultRecentCount)
  }

  predicate IsMandatoryReading(e: Entry)
  {
    Truthy(e.post.isMandatoryReading)
  }

  /** `getMandatoryReadingPosts`: published posts with `isMandatoryReading === true`, newest first. */
  function GetMandatoryReadingPosts(snapshot: Outcome<seq<Entry>>): (r: Outcome<seq<Entry>>)
    ensures snapshot.Err? ==> r == Err(snapshot.message)
    ensures snapshot.Ok? ==> r.Ok?
    ensures r.Ok? ==> Sorting.SortedDesc(r.value, PublishKey)
    ensures r.Ok? ==> multiset(r.value) == multiset(Seqs.Filter(GetAllBlogPosts(snapshot).value, IsMandatoryReading))
    ensures r.Ok? ==> forall e :: e in r.value <==> e in snapshot.value && IsPublished(e) && IsMandatoryReading(e)
  {
    match snapshot
    case Err(m) => Err(m)
    case Ok(docs) =>
      var mandatory := Seqs.Filter(PublishedQuery(docs), IsMandatoryReading);
      var sorted := Sorting.SortDesc(mandatory, PublishKey);
      Seqs.FilterPermutation(GetAllBlogPosts(snapshot).value, PublishedQuery(docs), IsMandatoryReading);
      assert forall e :: e in sorted <==> e in multiset(mandatory);
      Ok(sorted)
  }

  /** The documents matched by `where('isPublished', '==', true)` and `where('tags', 'array-contains', tag)`. */
  function CategoryQuery(docs: seq<Entry>, tag: string): seq<Entry>
  {
    Seqs.Filter(docs, e => IsPublished(e) && HasTag(e.post, tag))
  }

  /** `getPostsByCategory(category)`: published posts whose `tags` (not `category`) contain it, newest first. */
  function GetPostsByCategory(snapshot: Outcome<seq<Entry>>, category: string): (r: Outcome<seq<Entry>>)
    ensures snapshot.Err? ==> r == Err(snapshot.message)
    ensures snapshot.Ok? ==> r.Ok?
    ensures r.Ok? ==> Sorting.SortedDesc(r.value, PublishKey)
    ensures r.Ok? ==> multiset(r.value) == multiset(CategoryQuery(snapshot.value, category))
    ensures r.Ok? ==> forall e :: e in r.value <==> e in snapshot.value && IsPublished(e) && HasTag(e.post, category)
  {
    match snapshot
    case Err(m) => Err(m)
    case Ok(docs) =>
      var sorted := Sorting.SortDesc(CategoryQuery(docs, category), PublishKey);
      assert forall e :: e in sorted <==> e in multiset(CategoryQuery(docs, category));
      Ok(sorted)
  }

  /** `getAllBlogPostsAdmin`: every post, published or not, newest `lastModified` first (missing counts as 0). */
  function GetAllBlogPostsAdmin(snapshot: Outcome<seq<Entry>>): (r: Outcome<seq<Entry>>)
    ensures snapshot.Err? ==> r == Err(snapshot.message)
    ensures snapshot.Ok? ==> r.Ok?
    ensures r.Ok? ==> Sorting.SortedDesc(r.value, LastModifiedKey)
    ensures r.Ok? ==> multiset(r.value) == multiset(snapshot.value)
  {
    match snapshot
    case Err(m) => Err(m)
    case Ok(docs) => Ok(Sorting.SortDesc(docs, LastModifiedKey))
  }

  /**
   * `getFeaturedPost`: no post (and no error) when nothing is published,
   * otherwise a published post with the latest `publishDate`.
   */
  function GetFeaturedPost(snapshot: Outcome<seq<Entry>>): (r: Outcome<Option<Entry>>)
    ensures snapshot.Err? ==> r == Err(snapshot.message)
    ensures snapshot.Ok? ==> r.Ok?
    ensures r.Ok? ==> (r.value.None? <==> forall e :: e in snapshot.value ==> !IsPublished(e))
    ensures r.Ok? && r.value.Some? ==>
      && r.value.value in snapshot.value && IsPublished(r.value.value)
      && forall e :: e in snapshot.value && IsPublished(e) ==> PublishKey(e) <= PublishKey(r.value.value)
  {
    match snapshot
    case Err(m) => Err(m)
    case Ok(docs) =>
      var published := PublishedQuery(docs);
      if published == [] then Ok(None)
      else
        Sorting.SortDescHeadIsMax(published, PublishKey);
        var sorted := Sorting.SortDesc(published, PublishKey);
        assert sorted[0] in multiset(published);
        Ok(Some(sorted[0]))
  }

  /** The featured post is the first post of `getAllBlogPosts`. */
  lemma FeaturedIsFirstPublished(snapshot: Outcome<seq<Entry>>)
    requires snapshot.Ok?
    ensures GetFeaturedPost(snapshot).value.Some? <==> GetAllBlogPosts(snapshot).value != []
    ensures GetFeaturedPost(snapshot).value.Some? ==>
      GetFeaturedPost(snapshot).value.value == GetAllBlogPosts(snapshot).value[0]
  {
    var published := PublishedQuery(snapshot.value);
    if published != [] {
      assert |GetAllBlogPosts(snapshot).value| == |published| by {
        assert |multiset(GetAllBlogPosts(snapshot).value)| == |multiset(published)|;
      }
    }
  }

  /** The tags of one document, when it has a `tags` array (`if (data.tags)`). */
  function TagsOf(e: Entry): seq<string>
  {
    if e.post.tags.Some? then e.post.tags.value else []
  }

  /** `allTags` after the `forEach` over `docs`: their tag arrays pushed one after another. */
  function FlattenTags(docs: seq<Entry>): (r: seq<string>)
    ensures forall k :: 0 <= k < |r| ==> exists e :: e in docs && HasTag(e.post, r[k])
  {
    if docs == [] then []
    else
      var init := FlattenTags(docs[..|docs| - 1]);
      var last := docs[|docs| - 1];
      var r := init + TagsOf(last);
      forall k | 0 <= k < |r| ensures exists e :: e in docs && HasTag(e.post, r[k]) {
        if k < |init| {
          var e :| e in docs[..|docs| - 1] && HasTag(e.post, init[k]);
          assert e in docs;
        } else {
          assert r[k] == TagsOf(last)[k - |init|];
          assert HasTag(last.post, r[k]);
        }
      }
      r
  }

  lemma {:induction false} FlattenTagsMembers(docs: seq<Entry>, t: string)
    ensures t in FlattenTags(docs) <==> exists e :: e in docs && HasTag(e.post, t)
  {
    if docs != [] && exists e :: e in docs && HasTag(e.post, t) {
      var init := docs[..|docs| - 1];
      var last := docs[|docs| - 1];
      var e :| e in docs && HasTag(e.post, t);
      assert docs == init + [last];
      if e != last {
        assert e in init;
        FlattenTagsMembers(init, t);
      }
    }
  }

  /** `t` is a tag of some published document. */
  ghost predicate PublishedTag(docs: seq<Entry>, t: string)
  {
    exists e :: e in docs && IsPublished(e) && HasTag(e.post, t)
  }

  lemma PublishedTagsFlattened(docs: seq<Entry>)
    ensures forall t :: t in FlattenTags(PublishedQuery(docs)) <==> PublishedTag(docs, t)
  {
    forall t ensures t in FlattenTags(PublishedQuery(docs)) <==> PublishedTag(docs, t) {
      FlattenTagsMembers(PublishedQuery(docs), t);
    }
  }

  /**
   * `getAllCategories`: the tags of all published posts, deduplicated and
   * sorted ascending, so strictly ascending and holding exactly the union of
   * those tags.
   */
  method GetAllCategories(snapshot: Outcome<seq<Entry>>) returns (r: Outcome<seq<string>>)
    ensures snapshot.Err? ==> r == Err(snapshot.message)
    ensures snapshot.Ok? ==> r.Ok? && Sorting.StrictlyAscending(r.value)
    ensures snapshot.Ok? ==> forall t :: t in r.value <==> PublishedTag(snapshot.value, t)
  {
    if snapshot.Err? {
      return Err(snapshot.message);
    }
    var docs := PublishedQuery(snapshot.value);
    var allTags: seq<string> := [];
    var i := 0;
    while i < |docs|
      invariant 0 <= i <= |docs|
      invariant allTags == FlattenTags(docs[..i])
    {
      assert docs[..i + 1][..i] == docs[..i];
      if docs[i].post.tags.Some? {
        allTags := allTags + docs[i].post.tags.value;
      }
      i := i + 1;
    }
    assert docs[..i] == docs;
    PublishedTagsFlattened(snapshot.value);
    r := Ok(Sorting.SortUnique(allTags));
  }

  /**
   * A draft just written by `createBlogPost` is listed for the admin but not
   * publicly.
   */
  lemma CreatedDraftIsAdminOnly(docs: seq<Entry>, posts: map<string, Post>, postId: string, postData: Post, now: int)
    requires !Truthy(postData.isPublished)
    requires Lists(docs, posts[postId := NewPost(postData, now)])
    ensures Entry(postId, NewPost(postData, now)) in GetAllBlogPostsAdmin(Ok(docs)).value
    ensures forall e :: e in GetAllBlogPosts(Ok(docs)).value ==> e.id != postId
  {
    var stored := posts[postId := NewPost(postData, now)];
    assert postId in stored;
    var i :| 0 <= i < |docs| && docs[i].id == postId;
    assert docs[i] == Entry(postId, NewPost(postData, now));
    assert docs[i] in multiset(docs);
    forall e | e in GetAllBlogPosts(Ok(docs)).value ensures e.id != postId {
      var k :| 0 <= k < |docs| && docs[k] == e;
      assert IsPublished(e) && e.post == stored[e.id];
    }
  }

  /** Once an update sets `isPublished`, the post is listed publicly with the updated fields. */
  lemma UpdatedToPublishedIsListed(docs: seq<Entry>, posts: map<string, Post>, postId: string, updateData: Post, now: int)
    requires postId in posts
    requires updateData.isPublished == Some(true)
    requires Lists(docs, posts[postId := Merge(posts[postId], Stamped(updateData, now))])
    ensures Entry(postId, Merge(posts[postId], Stamped(updateData, now))) in GetAllBlogPosts(Ok(docs)).value
  {
    var stored := posts[postId := Merge(posts[postId], Stamped(updateData, now))];
    assert postId in stored;
    var i :| 0 <= i < |docs| && docs[i].id == postId;
    assert docs[i] == Entry(postId, stored[postId]);
  }

  /** After `deleteBlogPost` the post is in no list and cannot be read. */
  lemma DeletedPostIsGone(docs: seq<Entry>, posts: map<string, Post>, postId: string)
    requires Lists(docs, posts - {postId})
    ensures forall e :: e in GetAllBlogPostsAdmin(Ok(docs)).value ==> e.id != postId
    ensures forall e :: e in GetAllBlogPosts(Ok(docs)).value ==> e.id != postId
    ensures GetBlogPost(posts - {postId}, postId, None) == Err(PostNotFound)
  {
    forall e | e in GetAllBlogPostsAdmin(Ok(docs)).value ensures e.id != postId {
      assert e in multiset(docs);
      var k :| 0 <= k < |docs| && docs[k] == e;
    }
  }
}
