/**
 * The admin overview of `src/components/admin/AdminDashboard.tsx`: the list
 * of all posts, its status filter, the statistics cards and the delete and
 * publish/unpublish actions. The clock reading `now` is a parameter; the
 * confirmation dialog's answer is the `confirmed` parameter.
 */
module Dashboard {
  import opened Wrappers
  import opened Posts
  import Seqs
  import Database

  /** The badge of a post: `'draft'`, `'scheduled'` or `'published'`. */
  datatype PostStatus = Draft | Scheduled | Published

  /**
   * `getPostStatus`: a post whose `isPublished` is not true is a draft; a
   * published post whose date lies in the future is scheduled; every other
   * post, including one without a date, is published.
   */
  function GetPostStatus(p: Post, now: int): (s: PostStatus)
    ensures s == Draft <==> !Truthy(p.isPublished)
    ensures s == Scheduled <==> Truthy(p.isPublished) && p.publishDate.Some? && p.publishDate.value > now
    ensures s == Published <==> Truthy(p.isPublished) && (p.publishDate.None? || p.publishDate.value <= now)
  {
    var publishDate := Database.TimestampToDate(p.publishDate, now);
    if !Truthy(p.isPublished) then Draft
    else if publishDate > now then Scheduled
    else Published
  }

  /** A scheduled post turns published once the clock reaches its date, and stays published. */
  lemma StatusOverTime(p: Post, now: int, later: int)
    requires now <= later
    ensures GetPostStatus(p, now) == Published ==> GetPostStatus(p, later) == Published
    ensures GetPostStatus(p, now) == Draft ==> GetPostStatus(p, later) == Draft
    ensures GetPostStatus(p, now) == Scheduled && later >= p.publishDate.value ==> GetPostStatus(p, later) == Published
    ensures GetPostStatus(p, later) == Scheduled ==> GetPostStatus(p, now) == Scheduled
  {
  }

  /**
   * The public list hides drafts only: a post the dashboard calls scheduled
   * is listed publicly before its date.
   */
  lemma ScheduledIsPublic(docs: seq<Entry>, e: Entry, now: int)
    requires e in docs
    ensures GetPostStatus(e.post, now) == Scheduled ==> e in Database.GetAllBlogPosts(Ok(docs)).value
    ensures e in Database.GetAllBlogPosts(Ok(docs)).value <==> GetPostStatus(e.post, now) != Draft
  {
  }

  /** The filter buttons: `'all'` or one status. */
  datatype StatusFilter = All | Only(status: PostStatus)

  predicate Shown(filter: StatusFilter, e: Entry, now: int)
  {
    filter.All? || GetPostStatus(e.post, now) == filter.status
  }

  /** `filteredPosts`: the posts the filter lets through, in list order; `'all'` shows the whole list. */
  function FilteredPosts(posts: seq<Entry>, filter: StatusFilter, now: int): (r: seq<Entry>)
    ensures filter.All? ==> r == posts
    ensures forall e :: e in r <==> e in posts && (filter.All? || GetPostStatus(e.post, now) == filter.status)
    ensures forall e :: multiset(r)[e] == if Shown(filter, e, now) then multiset(posts)[e] else 0
    ensures |r| <= |posts|
  {
    Seqs.FilterKeepsAll(posts, e => Shown(filter, e, now));
    Seqs.Filter(posts, e => Shown(filter, e, now))
  }

  /** The filtered cards keep the list's order: filtering two runs of posts filters each in turn. */
  lemma FilteredPostsKeepOrder(a: seq<Entry>, b: seq<Entry>, filter: StatusFilter, now: int)
    ensures FilteredPosts(a + b, filter, now) == FilteredPosts(a, filter, now) + FilteredPosts(b, filter, now)
  {
    Seqs.FilterAppend(a, b, e => Shown(filter, e, now));
  }

  /** The number shown on a status card: `posts.filter(p => getPostStatus(p) === status).length`. */
  function CountStatus(posts: seq<Entry>, status: PostStatus, now: int): (c: nat)
    ensures c <= |posts|
    ensures c == 0 <==> forall e :: e in posts ==> GetPostStatus(e.post, now) != status
  {
    |FilteredPosts(posts, Only(status), now)|
  }

  /** Every post has exactly one status, so the three counts add up to the list's length. */
  lemma {:induction false} StatusCountsPartition(posts: seq<Entry>, now: int)
    ensures CountStatus(posts, Draft, now) + CountStatus(posts, Scheduled, now) + CountStatus(posts, Published, now) == |posts|
  {
    if posts != [] {
      StatusCountsPartition(posts[1..], now);
      CountStep(posts, Draft, now);
      CountStep(posts, Scheduled, now);
      CountStep(posts, Published, now);
    }
  }

  /** The head of the list adds one to its own status's count. */
  lemma CountStep(posts: seq<Entry>, status: PostStatus, now: int)
    requires posts != []
    ensures CountStatus(posts, status, now)
      == (if GetPostStatus(posts[0].post, now) == status then 1 else 0) + CountStatus(posts[1..], status, now)
  {
  }

  /** `post.likeCount || 0`. */
  function Likes(e: Entry): int
  {
    e.post.likeCount.GetOr(0)
  }

  /** `posts.reduce((sum, post) => sum + (post.likeCount || 0), 0)`. */
  function TotalLikes(posts: seq<Entry>): (t: int)
    ensures posts == [] ==> t == 0
    ensures |posts| == 1 ==> t == posts[0].post.likeCount.GetOr(0)
  {
    assert |posts| == 1 ==> Seqs.Sum(posts[1..], Likes) == 0 by {
      if |posts| == 1 {
        assert posts[1..] == [];
      }
    }
    Seqs.Sum(posts, Likes)
  }

  /** The total of two runs of posts is the sum of their totals. */
  lemma TotalLikesAppend(a: seq<Entry>, b: seq<Entry>)
    ensures TotalLikes(a + b) == TotalLikes(a) + TotalLikes(b)
  {
    Seqs.SumAppend(a, b, Likes);
  }

  /** With no negative count, the total is at least every single count, and at least zero. */
  lemma TotalLikesBound(posts: seq<Entry>)
    ensures (forall e :: e in posts ==> Likes(e) >= 0) ==>
      TotalLikes(posts) >= 0 && forall e :: e in posts ==> Likes(e) <= TotalLikes(posts)
  {
    if forall e :: e in posts ==> Likes(e) >= 0 {
      Seqs.SumNonNegative(posts, Likes);
      forall e | e in posts ensures Likes(e) <= TotalLikes(posts) {
        var i :| 0 <= i < |posts| && posts[i] == e;
      }
    }
  }

  /** The four cards: all posts, published ones, drafts and the sum of likes. */
  datatype Stats = Stats(total: nat, published: nat, drafts: nat, totalLikes: int)

  /**
   * The statistics cards. Scheduled posts count in the total but on neither
   * status card, and the like total is never negative while no count is.
   */
  function ComputeStats(posts: seq<Entry>, now: int): (s: Stats)
    ensures s.total == |posts|
    ensures s.published == CountStatus(posts, Published, now) && s.drafts == CountStatus(posts, Draft, now)
    ensures s.totalLikes == TotalLikes(posts)
    ensures s.published + s.drafts + CountStatus(posts, Scheduled, now) == s.total
    ensures (forall e :: e in posts ==> Likes(e) >= 0) ==> s.totalLikes >= 0
    ensures (forall e :: e in posts ==> Likes(e) >= 0) ==> forall e :: e in posts ==> Likes(e) <= s.totalLikes
  {
    StatusCountsPartition(posts, now);
    TotalLikesBound(posts);
    Stats(|posts|, CountStatus(posts, Published, now), CountStatus(posts, Draft, now), TotalLikes(posts))
  }

  /** `posts.filter(post => post.id !== postId)`: the list once the post is deleted. */
  function RemovePost(posts: seq<Entry>, postId: string): (r: seq<Entry>)
    ensures forall e :: e in r <==> e in posts && e.id != postId
    ensures forall e :: multiset(r)[e] == if e.id != postId then multiset(posts)[e] else 0
    ensures |r| <= |posts|
  {
    Seqs.Filter(posts, (e: Entry) => e.id != postId)
  }

  /** The remaining posts keep their order: removing from two runs of posts removes from each in turn. */
  lemma RemovePostKeepsOrder(a: seq<Entry>, b: seq<Entry>, postId: string)
    ensures RemovePost(a + b, postId) == RemovePost(a, postId) + RemovePost(b, postId)
  {
    Seqs.FilterAppend(a, b, (e: Entry) => e.id != postId);
  }

  /** The entries carrying `postId`. */
  function WithId(posts: seq<Entry>, postId: string): seq<Entry>
  {
    Seqs.Filter(posts, (e: Entry) => e.id == postId)
  }

  /** Deleting a post takes exactly its likes off the total. */
  lemma {:induction false} RemovePostLikes(posts: seq<Entry>, postId: string)
    ensures TotalLikes(RemovePost(posts, postId)) + TotalLikes(WithId(posts, postId)) == TotalLikes(posts)
  {
    if posts != [] {
      RemovePostLikes(posts[1..], postId);
      var kept, removed := RemovePost(posts, postId), WithId(posts, postId);
      if posts[0].id == postId {
        assert removed == [posts[0]] + WithId(posts[1..], postId);
        assert kept == RemovePost(posts[1..], postId);
        TotalLikesCons(removed);
      } else {
        assert removed == WithId(posts[1..], postId);
        assert kept == [posts[0]] + RemovePost(posts[1..], postId);
        TotalLikesCons(kept);
      }
      TotalLikesCons(posts);
    }
  }

  /** The total of a non-empty list: the first post's likes plus the rest's total. */
  lemma TotalLikesCons(posts: seq<Entry>)
    requires posts != []
    ensures TotalLikes(posts) == Likes(posts[0]) + TotalLikes(posts[1..])
  {
  }

  /** The object `handleTogglePublish` sends: `{ isPublished: !post.isPublished }`. */
  function ToggleData(post: Entry): (d: Post)
    ensures d.isPublished == Some(!Truthy(post.post.isPublished))
    ensures forall stored :: Merge(stored, d) == stored.(isPublished := Some(!Truthy(post.post.isPublished)))
  {
    NoFields.(isPublished := Some(!Truthy(post.post.isPublished)))
  }

  /** The entry with its flag flipped, `{ ...p, isPublished: !p.isPublished }`. */
  function Flipped(e: Entry): Entry
  {
    Entry(e.id, e.post.(isPublished := Some(!Truthy(e.post.isPublished))))
  }

  /**
   * The list after a successful toggle: every entry with the id has its
   * flag flipped, so its status moves between draft and not draft; the
   * others are kept, all in place.
   */
  function Toggled(posts: seq<Entry>, postId: string): (r: seq<Entry>)
    ensures |r| == |posts|
    ensures forall i :: 0 <= i < |r| ==> r[i].id == posts[i].id
    ensures forall i :: 0 <= i < |r| && posts[i].id != postId ==> r[i] == posts[i]
    ensures forall i :: 0 <= i < |r| && posts[i].id == postId ==>
      r[i].post == posts[i].post.(isPublished := Some(!Truthy(posts[i].post.isPublished)))
    ensures forall i, now :: 0 <= i < |r| && posts[i].id == postId ==>
      (GetPostStatus(r[i].post, now) == Draft <==> GetPostStatus(posts[i].post, now) != Draft)
  {
    seq(|posts|, i requires 0 <= i < |posts| => if posts[i].id == postId then Flipped(posts[i]) else posts[i])
  }

  /**
   * When the card clicked shows the stored flag, the list and the store
   * agree on the flag after the toggle.
   */
  lemma ToggleAgreesWithStore(posts: seq<Entry>, stored: Post, post: Entry, now: int)
    requires forall e :: e in posts && e.id == post.id ==> Truthy(e.post.isPublished) == Truthy(post.post.isPublished)
    requires Truthy(stored.isPublished) == Truthy(post.post.isPublished)
    ensures forall i :: 0 <= i < |posts| && posts[i].id == post.id ==>
      Toggled(posts, post.id)[i].post.isPublished == Merge(stored, Database.Stamped(ToggleData(post), now)).isPublished
  {
    forall i | 0 <= i < |posts| && posts[i].id == post.id
      ensures Toggled(posts, post.id)[i].post.isPublished == Merge(stored, Database.Stamped(ToggleData(post), now)).isPublished
    {
      assert posts[i] in posts;
    }
  }

  /** Toggling twice restores every flag that was set. */
  lemma ToggleTwice(posts: seq<Entry>, postId: string)
    requires forall e :: e in posts ==> e.post.isPublished.Some?
    ensures Toggled(Toggled(posts, postId), postId) == posts
  {
    var r := Toggled(Toggled(posts, postId), postId);
    forall i | 0 <= i < |posts| ensures r[i] == posts[i] {
      assert posts[i] in posts;
      var b := posts[i].post.isPublished.value;
      if posts[i].id == postId {
        assert r[i] == Flipped(Flipped(posts[i]));
        assert Flipped(Flipped(posts[i])).post.isPublished == Some(b);
      }
    }
  }

  class AdminDashboard {
    var posts: seq<Entry>
    var loading: bool
    var filter: StatusFilter

    /** The initial state: empty list, loading, no filter. */
    constructor ()
      ensures posts == [] && loading && filter == All
    {
      posts := [];
      loading := true;
      filter := All;
    }

    /**
     * `fetchPosts`: the admin list, most recently modified first; on a failed
     * read the list stays as it was. Loading is off afterwards either way.
     */
    method FetchPosts(snapshot: Outcome<seq<Entry>>)
      modifies this`posts, this`loading
      ensures !loading
      ensures snapshot.Ok? ==> posts == Database.GetAllBlogPostsAdmin(snapshot).value
      ensures snapshot.Ok? ==> multiset(posts) == multiset(snapshot.value)
      ensures snapshot.Err? ==> posts == old(posts)
    {
      loading := true;
      var result := Database.GetAllBlogPostsAdmin(snapshot);
      if result.Ok? {
        posts := result.value;
      }
      loading := false;
    }

    /** A filter button. */
    method SetFilter(f: StatusFilter)
      modifies this`filter
      ensures filter == f
    {
      filter := f;
    }

    /** The cards the dashboard shows, in list order. */
    function Visible(now: int): (r: seq<Entry>)
      reads this`posts, this`filter
      ensures forall e :: e in r <==> e in posts && Shown(filter, e, now)
    {
      FilteredPosts(posts, filter, now)
    }

    /**
     * `handleDelete`: without confirmation nothing happens; otherwise the post
     * is deleted and, on success, dropped from the list. Returns whether the
     * delete was issued.
     */
    method HandleDelete(postId: string, confirmed: bool, store: Database.BlogStore, failure: Option<string>)
      returns (issued: bool)
      modifies this`posts, store
      ensures issued == confirmed
      ensures !confirmed || failure.Some? ==> posts == old(posts) && store.posts == old(store.posts)
      ensures confirmed && failure.None? ==>
        store.posts == old(store.posts) - {postId} && posts == RemovePost(old(posts), postId)
    {
      if !confirmed {
        return false;
      }
      issued := true;
      var result := store.DeleteBlogPost(postId, failure);
      if result.Success? {
        posts := RemovePost(posts, postId);
      }
    }

    /**
     * `handleTogglePublish`: sends the flipped flag; on success flips the
     * flag of the listed entries locally, leaving their `lastModified` as it
     * was; on failure nothing changes.
     */
    method HandleTogglePublish(post: Entry, store: Database.BlogStore, now: int, failure: Option<string>)
      modifies this`posts, store
      ensures failure.None? && post.id in old(store.posts) ==>
        && store.posts == old(store.posts)[post.id := Merge(old(store.posts)[post.id], Database.Stamped(ToggleData(post), now))]
        && posts == Toggled(old(posts), post.id)
      ensures failure.Some? || post.id !in old(store.posts) ==>
        store.posts == old(store.posts) && posts == old(posts)
    {
      var result := store.UpdateBlogPost(post.id, ToggleData(post), now, failure);
      if result.Success? {
        posts := Toggled(posts, post.id);
      }
    }
  }
}
