/**
 * The blog post document as the repository stores it in the `blogPosts`
 * collection. Every field of a JavaScript document may be missing, so each is
 * an `Option`; timestamps are integers (milliseconds since the epoch).
 */
module Posts {
  import opened Wrappers

  datatype Post = Post(
    title: Option<string>,
    excerpt: Option<string>,
    content: Option<string>,
    featuredImage: Option<string>,
    tags: Option<seq<string>>,
    category: Option<string>,
    isPublished: Option<bool>,
    isMandatoryReading: Option<bool>,
    publishDate: Option<int>,
    lastModified: Option<int>,
    viewCount: Option<int>,
    likeCount: Option<int>)

  /** A document without any field; as a patch, it sets nothing. */
  const NoFields := Post(None, None, None, None, None, None, None, None, None, None, None, None)

  /** A post as read from a snapshot: `{ id: doc.id, ...doc.data() }`. */
  datatype Entry = Entry(id: string, post: Post)

  /** JavaScript truthiness of an optional boolean (`x || false`, `x === true`). */
  predicate Truthy(b: Option<bool>)
  {
    b == Some(true)
  }

  function Pick<T>(patch: Option<T>, base: Option<T>): Option<T>
  {
    if patch.Some? then patch else base
  }

  /**
   * The object spread `{ ...base, ...patch }`: every field the patch carries
   * wins, every other field keeps the base's value.
   */
  function Merge(base: Post, patch: Post): (r: Post)
    ensures patch == NoFields ==> r == base
    ensures base == NoFields ==> r == patch
    ensures patch.title.Some? ==> r.title == patch.title
    ensures patch.isPublished.Some? ==> r.isPublished == patch.isPublished
    ensures patch.lastModified.Some? ==> r.lastModified == patch.lastModified
  {
    Post(
      Pick(patch.title, base.title),
      Pick(patch.excerpt, base.excerpt),
      Pick(patch.content, base.content),
      Pick(patch.featuredImage, base.featuredImage),
      Pick(patch.tags, base.tags),
      Pick(patch.category, base.category),
      Pick(patch.isPublished, base.isPublished),
      Pick(patch.isMandatoryReading, base.isMandatoryReading),
      Pick(patch.publishDate, base.publishDate),
      Pick(patch.lastModified, base.lastModified),
      Pick(patch.viewCount, base.viewCount),
      Pick(patch.likeCount, base.likeCount))
  }

  /** The sort key of the public lists: `publishDate?.toDate() || new Date(0)`. */
  function PublishKey(e: Entry): (k: int)
    ensures e.post.publishDate.None? ==> k == 0
    ensures e.post.publishDate.Some? ==> k == e.post.publishDate.value
  {
    e.post.publishDate.GetOr(0)
  }

  /** The sort key of the admin list: `lastModified?.toDate() || new Date(0)`. */
  function LastModifiedKey(e: Entry): (k: int)
    ensures e.post.lastModified.None? ==> k == 0
    ensures e.post.lastModified.Some? ==> k == e.post.lastModified.value
  {
    e.post.lastModified.GetOr(0)
  }

  /** The `where('tags', 'array-contains', tag)` predicate: the field is an array holding `tag`. */
  predicate HasTag(p: Post, tag: string)
  {
    p.tags.Some? && tag in p.tags.value
  }
}
