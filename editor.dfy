/**
 * The authoring form of `src/components/blog/PostEditor.tsx`: the state the
 * component keeps and the handlers that update it. Timers, navigation and the
 * rich-text widget are not part of the model; remote calls go to a
 * `Database.BlogStore` or to the upload model, with the server time, the
 * clock reading and the store's answers passed in.
 */
module Editor {
  import opened Wrappers
  import opened Posts
  import Text
  import Seqs
  import Database
  import Storage

  const TitleRequired: string := "El título es requerido"
  const ContentRequired: string := "El contenido es requerido"
  const CategoryRequired: string := "La categoría es requerida"
  const ImageTooLarge: string := "La imagen debe ser menor a 5MB"
  const NotAnImage: string := "Solo se permiten archivos de imagen"
  const ImageUploaded: string := "Imagen subida exitosamente"
  const AutoSaved: string := "Guardado automáticamente"
  const SavedPublished: string := "Post publicado exitosamente"
  const SavedDraft: string := "Post guardado como borrador"

  /** The largest accepted image: 5 MiB. */
  const MaxImageBytes: nat := 5 * 1024 * 1024
  /** How many characters of the content a synthesized excerpt keeps. */
  const ExcerptLength: nat := 150

  predicate Blank(s: string)
  {
    Text.Trim(s) == []
  }

  /** Every tag occurs at most once. */
  ghost predicate NoDuplicates(s: seq<string>)
  {
    forall t :: multiset(s)[t] <= 1
  }

  /** `tags.filter(tag => tag !== tagToRemove)`. */
  function RemoveAll(tags: seq<string>, tag: string): (r: seq<string>)
    ensures tag !in r
    ensures forall t :: t in r <==> t in tags && t != tag
  {
    Seqs.Filter(tags, t => t != tag)
  }

  /** Removing a tag keeps a duplicate-free list duplicate-free. */
  lemma RemoveAllKeepsNoDuplicates(tags: seq<string>, tag: string)
    requires NoDuplicates(tags)
    ensures NoDuplicates(RemoveAll(tags, tag))
  {
    forall t ensures multiset(RemoveAll(tags, tag))[t] <= 1 {
      assert multiset(tags)[t] <= 1;
    }
  }

  /** Removing keeps the remaining tags in their order: it commutes with concatenation. */
  lemma RemoveAllKeepsOrder(a: seq<string>, b: seq<string>, tag: string)
    ensures RemoveAll(a + b, tag) == RemoveAll(a, tag) + RemoveAll(b, tag)
    ensures tag !in a ==> RemoveAll(a, tag) == a
  {
    Seqs.FilterAppend(a, b, t => t != tag);
    Seqs.FilterKeepsAll(a, t => t != tag);
  }

  /**
   * `excerpt.trim() || content.substring(0, 150) + '...'`: the trimmed excerpt
   * if it is not empty, otherwise the first 150 characters of the content
   * followed by an ellipsis, which is appended even to a short content.
   */
  function Excerpt(excerpt: string, content: string): (r: string)
    ensures !Blank(excerpt) ==> r == Text.Trim(excerpt)
    ensures Blank(excerpt) ==> |r| == (if |content| < ExcerptLength then |content| else ExcerptLength) + 3
    ensures Blank(excerpt) ==> r[..|r| - 3] <= content && r[|r| - 3..] == "..."
    ensures Blank(excerpt) && |content| <= ExcerptLength ==> r == content + "..."
  {
    var trimmed := Text.Trim(excerpt);
    if trimmed != [] then trimmed else Text.Take(content, ExcerptLength) + "..."
  }

  class PostEditor {
    /** The `postId` route parameter: set when editing an existing post. */
    const postId: Option<string>

    var title: string
    var excerpt: string
    var content: string
    var featuredImage: string
    var tags: seq<string>
    var category: string
    var isPublished: bool
    var isMandatoryReading: bool
    /** The scheduling field, as a timestamp. */
    var publishDate: int

    var loading: bool
    var initialLoading: bool
    var uploading: bool
    var error: string
    var success: string
    var availableCategories: seq<string>
    var newTag: string

    /** The initial state; `now` is the clock reading that seeds the scheduling field. */
    constructor (postId: Option<string>, now: int)
      ensures this.postId == postId
      ensures title == "" && excerpt == "" && content == "" && featuredImage == "" && category == ""
      ensures tags == [] && !isPublished && !isMandatoryReading && publishDate == now
      ensures !loading && initialLoading == postId.Some? && !uploading
      ensures error == "" && success == "" && newTag == "" && availableCategories == []
    {
      this.postId := postId;
      title, excerpt, content, featuredImage, category := "", "", "", "", "";
      tags := [];
      isPublished, isMandatoryReading := false, false;
      publishDate := now;
      loading, initialLoading, uploading := false, postId.Some?, false;
      error, success, newTag := "", "", "";
      availableCategories := [];
    }

    /**
     * `loadPost`: copies the stored post into the form, with `''`, `[]` and
     * `false` for missing fields; on an error only the message is kept.
     */
    method LoadPost(store: Database.BlogStore, failure: Option<string>)
      requires postId.Some?
      modifies this
      ensures !initialLoading
      ensures var r := Database.GetBlogPost(store.posts, postId.value, failure);
        r.Err? ==>
          && error == r.message && title == old(title) && tags == old(tags) && content == old(content)
          && excerpt == old(excerpt) && featuredImage == old(featuredImage) && category == old(category)
          && isPublished == old(isPublished) && isMandatoryReading == old(isMandatoryReading)
          && publishDate == old(publishDate)
      ensures var r := Database.GetBlogPost(store.posts, postId.value, failure);
        r.Ok? ==> Shows(r.value.post, old(publishDate)) && error == old(error)
      ensures loading == old(loading) && uploading == old(uploading) && success == old(success)
      ensures newTag == old(newTag) && availableCategories == old(availableCategories)
    {
      var result := Database.GetBlogPost(store.posts, postId.value, failure);
      if result.Err? {
        error := result.message;
      } else {
        Populate(result.value.post);
      }
      initialLoading := false;
    }

    /** The form holds `p`'s fields, with the defaults of `loadPost` for missing ones. */
    ghost predicate Shows(p: Post, previousDate: int)
      reads this
    {
      && title == p.title.GetOr("") && excerpt == p.excerpt.GetOr("")
      && content == p.content.GetOr("") && featuredImage == p.featuredImage.GetOr("")
      && tags == p.tags.GetOr([]) && category == p.category.GetOr("")
      && isPublished == Truthy(p.isPublished) && isMandatoryReading == Truthy(p.isMandatoryReading)
      && publishDate == p.publishDate.GetOr(previousDate)
    }

    method Populate(p: Post)
      modifies this`title, this`excerpt, this`content, this`featuredImage, this`tags, this`category
      modifies this`isPublished, this`isMandatoryReading, this`publishDate
      ensures Shows(p, old(publishDate))
    {
      title := p.title.GetOr("");
      excerpt := p.excerpt.GetOr("");
      content := p.content.GetOr("");
      featuredImage := p.featuredImage.GetOr("");
      tags := p.tags.GetOr([]);
      category := p.category.GetOr("");
      isPublished := Truthy(p.isPublished);
      isMandatoryReading := Truthy(p.isMandatoryReading);
      if p.publishDate.Some? {
        publishDate := p.publishDate.value;
      }
    }

    /** `loadCategories`: the categories list, which is `[]` when the read failed. */
    method LoadCategories(result: Outcome<seq<string>>)
      modifies this`availableCategories
      ensures availableCategories == if result.Ok? then result.value else []
    {
      availableCategories := if result.Ok? then result.value else [];
    }

    /**
     * `handleAddTag`: appends the trimmed new tag and clears the input when it
     * is non-empty and not yet present; otherwise nothing changes.
     */
    method HandleAddTag()
      modifies this`tags, this`newTag
      ensures var t := Text.Trim(old(newTag));
        if t != [] && t !in old(tags) then tags == old(tags) + [t] && newTag == ""
        else tags == old(tags) && newTag == old(newTag)
      ensures NoDuplicates(old(tags)) ==> NoDuplicates(tags)
      ensures forall t :: t in tags ==> t in old(tags) || t == Text.Trim(old(newTag))
    {
      var t := Text.Trim(newTag);
      if t != [] && t !in tags {
        tags := tags + [t];
        newTag := "";
      }
    }

    /** `handleRemoveTag`: drops every occurrence of `tag`, the rest in order. */
    method HandleRemoveTag(tag: string)
      modifies this`tags
      ensures tags == RemoveAll(old(tags), tag)
      ensures NoDuplicates(old(tags)) ==> NoDuplicates(tags)
    {
      if NoDuplicates(tags) {
        RemoveAllKeepsNoDuplicates(tags, tag);
      }
      tags := RemoveAll(tags, tag);
    }

    /** The "remove image" button: clears the reference only; the uploaded object stays in storage. */
    method HandleRemoveImage()
      modifies this`featuredImage
      ensures featuredImage == ""
    {
      featuredImage := "";
    }

    /** The first check of `handleSave` that fails, in the order title, content, category. */
    function SaveValidation(): (r: Option<string>)
      reads this`title, this`content, this`category
      ensures r.None? <==> !Blank(title) && !Blank(content) && !Blank(category)
      ensures r == Some(TitleRequired) <==> Blank(title)
      ensures r == Some(ContentRequired) <==> !Blank(title) && Blank(content)
      ensures r == Some(CategoryRequired) <==> !Blank(title) && !Blank(content) && Blank(category)
    {
      if Blank(title) then Some(TitleRequired)
      else if Blank(content) then Some(ContentRequired)
      else if Blank(category) then Some(CategoryRequired)
      else None
    }

    /** The `postData` object `handleSave(publish)` sends. */
    function SaveData(publish: bool): (p: Post)
      reads this`title, this`excerpt, this`content, this`featuredImage, this`tags, this`category
      reads this`isMandatoryReading, this`publishDate
      ensures p.title == Some(Text.Trim(title)) && p.category == Some(Text.Trim(category))
      ensures p.content == Some(content) && p.excerpt == Some(Excerpt(excerpt, content))
      ensures p.isPublished == Some(publish) && p.publishDate == Some(publishDate)
      ensures p.featuredImage == Some(featuredImage) && p.tags == Some(tags)
      ensures p.isMandatoryReading == Some(isMandatoryReading)
      ensures p.viewCount.None? && p.likeCount.None? && p.lastModified.None?
    {
      NoFields.(
        title := Some(Text.Trim(title)),
        excerpt := Some(Excerpt(excerpt, content)),
        content := Some(content),
        featuredImage := Some(featuredImage),
        tags := Some(tags),
        category := Some(Text.Trim(category)),
        isPublished := Some(publish),
        isMandatoryReading := Some(isMandatoryReading),
        publishDate := Some(publishDate))
    }

    /**
     * `handleSave(publish)`: validates, then updates the bound post or creates
     * a new one, and reports the outcome. Returns whether a write was issued.
     */
    method HandleSave(publish: bool, store: Database.BlogStore, now: int, newId: string, failure: Option<string>)
      returns (issued: bool)
      requires postId.None? ==> newId !in store.posts
      modifies this`loading, this`error, this`success, store
      ensures issued <==> old(SaveValidation()).None?
      ensures !issued ==> error == old(SaveValidation()).value && store.posts == old(store.posts)
      ensures !issued ==> loading == old(loading) && success == old(success)
      ensures issued ==> !loading
      ensures issued ==> var r := SaveEffect(old(store.posts), postId, old(SaveData(publish)), now, newId, failure);
        && store.posts == r.posts
        && (r.failed.Some? ==> error == r.failed.value && success == old(success))
        && (r.failed.None? ==> error == "" && success == (if publish then SavedPublished else SavedDraft))
    {
      var invalid := SaveValidation();
      var postData := SaveData(publish);
      if invalid.Some? {
        error := invalid.value;
        return false;
      }
      issued := true;
      loading := true;
      error := "";
      var failed := Submit(postData, store, now, newId, failure);
      if failed.Some? {
        error := failed.value;
      } else {
        success := if publish then SavedPublished else SavedDraft;
      }
      loading := false;
    }

    /** The `try` block of `handleSave`: the update or create call and the error it reports. */
    method Submit(postData: Post, store: Database.BlogStore, now: int, newId: string, failure: Option<string>)
      returns (failed: Option<string>)
      requires postId.None? ==> newId !in store.posts
      modifies store
      ensures SaveResult(store.posts, failed) == SaveEffect(old(store.posts), postId, postData, now, newId, failure)
    {
      if postId.Some? {
        var status := store.UpdateBlogPost(postId.value, postData, now, failure);
        failed := if status.Failure? then Some(status.error) else None;
      } else {
        var created := store.CreateBlogPost(postData, now, newId, failure);
        failed := if created.Err? then Some(created.message) else None;
      }
    }

    /** The object `handleAutoSave` sends: no scheduling date and no synthesized excerpt. */
    function AutoSaveData(): (p: Post)
      reads this`title, this`excerpt, this`content, this`featuredImage, this`tags, this`category
      reads this`isPublished, this`isMandatoryReading
      ensures p.title == Some(Text.Trim(title)) && p.excerpt == Some(Text.Trim(excerpt))
      ensures p.category == Some(category) && p.content == Some(content)
      ensures p.featuredImage == Some(featuredImage) && p.tags == Some(tags)
      ensures p.isPublished == Some(isPublished) && p.isMandatoryReading == Some(isMandatoryReading)
      ensures p.publishDate.None? && p.viewCount.None? && p.likeCount.None? && p.lastModified.None?
    {
      NoFields.(
        title := Some(Text.Trim(title)),
        excerpt := Some(Text.Trim(excerpt)),
        content := Some(content),
        featuredImage := Some(featuredImage),
        tags := Some(tags),
        category := Some(category),
        isPublished := Some(isPublished),
        isMandatoryReading := Some(isMandatoryReading))
    }

    /**
     * `handleAutoSave`: without a bound post or with a blank title nothing
     * happens; otherwise the form is sent as an update and the "saved"
     * indicator is set, whatever the update returned.
     */
    method HandleAutoSave(store: Database.BlogStore, now: int, failure: Option<string>) returns (issued: bool)
      modifies this`success, store
      ensures issued <==> postId.Some? && !Blank(title)
      ensures !issued ==> store.posts == old(store.posts) && success == old(success)
      ensures issued ==> success == AutoSaved
      ensures issued && failure.None? && postId.value in old(store.posts) ==>
        && store.posts == old(store.posts)[postId.value := Merge(old(store.posts)[postId.value], Database.Stamped(AutoSaveData(), now))]
        && store.posts[postId.value].publishDate == old(store.posts)[postId.value].publishDate
        && store.posts[postId.value].viewCount == old(store.posts)[postId.value].viewCount
        && store.posts[postId.value].likeCount == old(store.posts)[postId.value].likeCount
      ensures issued && (failure.Some? || postId.value !in old(store.posts)) ==> store.posts == old(store.posts)
    {
      if postId.None? || Blank(title) {
        return false;
      }
      var _ := store.UpdateBlogPost(postId.value, AutoSaveData(), now, failure);
      success := AutoSaved;
      issued := true;
    }

    /**
     * `handleImageUpload`: rejects a file over 5 MiB, then a type not starting
     * with `image/`, before any upload; otherwise uploads to the default folder
     * and keeps the returned URL. Returns whether an upload was issued.
     */
    method HandleImageUpload(file: Option<Storage.File>, stamp: nat, answer: Outcome<string>) returns (issued: bool)
      modifies this`error, this`success, this`featuredImage, this`uploading
      ensures issued <==> file.Some? && file.value.size <= MaxImageBytes && Text.StartsWith(file.value.mimeType, "image/")
      ensures file.Some? && file.value.size > MaxImageBytes ==> error == ImageTooLarge
      ensures file.Some? && file.value.size <= MaxImageBytes && !Text.StartsWith(file.value.mimeType, "image/") ==>
        error == NotAnImage
      ensures !issued ==> featuredImage == old(featuredImage) && success == old(success) && uploading == old(uploading)
      ensures file.None? ==> error == old(error)
      ensures issued ==> !uploading
      ensures issued && answer.Ok? ==> featuredImage == answer.value && error == "" && success == ImageUploaded
      ensures issued && answer.Err? ==> error == answer.message && featuredImage == old(featuredImage) && success == old(success)
    {
      if file.None? {
        return false;
      }
      var f := file.value;
      if f.size > MaxImageBytes {
        error := ImageTooLarge;
        return false;
      }
      if !Text.StartsWith(f.mimeType, "image/") {
        error := NotAnImage;
        return false;
      }
      issued := true;
      uploading := true;
      error := "";
      var result := Storage.UploadImage(f, Storage.DefaultFolder, stamp, answer);
      if result.error.Some? {
        error := result.error.value;
      } else {
        featuredImage := result.url.value;
        success := ImageUploaded;
      }
      uploading := false;
    }
  }

  /** The store after the write `handleSave` issues, and the message it reports when the write fails. */
  datatype SaveResult = SaveResult(posts: map<string, Post>, failed: Option<string>)

  /** The id of the document a save writes: the bound post, or the id the store assigns. */
  function SavedId(postId: Option<string>, newId: string): string
  {
    if postId.Some? then postId.value else newId
  }

  /**
   * The write of `handleSave`: `updateBlogPost` for a bound post, otherwise
   * `createBlogPost`. A failure leaves the store as it was and is reported;
   * a success writes exactly one document and touches no other.
   */
  function SaveEffect(posts: map<string, Post>, postId: Option<string>, postData: Post, now: int, newId: string, failure: Option<string>): (r: SaveResult)
    ensures failure.Some? ==> r == SaveResult(posts, failure)
    ensures failure.None? && postId.Some? && postId.value !in posts ==>
      r == SaveResult(posts, Some(Database.NoDocumentToUpdate))
    ensures r.failed.Some? ==> r.posts == posts
    ensures r.failed.None? <==> failure.None? && (postId.Some? ==> postId.value in posts)
    ensures r.failed.None? && postId.None? ==> newId in r.posts && r.posts[newId] == Database.NewPost(postData, now)
    ensures r.failed.None? && postId.Some? ==>
      postId.value in posts && postId.value in r.posts && r.posts[postId.value] == Merge(posts[postId.value], Database.Stamped(postData, now))
  {
    if failure.Some? then SaveResult(posts, failure)
    else if postId.Some? then
      if postId.value !in posts then SaveResult(posts, Some(Database.NoDocumentToUpdate))
      else SaveResult(posts[postId.value := Merge(posts[postId.value], Database.Stamped(postData, now))], None)
    else SaveResult(posts[newId := Database.NewPost(postData, now)], None)
  }

  /**
   * A save that went through writes exactly one document, the bound post or
   * the new id, stamped with the server time and carrying the title, content
   * and publish flag it was given; no other document changes.
   */
  lemma SaveWritesOneDocument(posts: map<string, Post>, postId: Option<string>, postData: Post, now: int, newId: string)
    requires SaveEffect(posts, postId, postData, now, newId, None).failed.None?
    ensures var r := SaveEffect(posts, postId, postData, now, newId, None); var id := SavedId(postId, newId);
      && r.posts.Keys == posts.Keys + {id}
      && (forall k :: k in posts && k != id ==> r.posts[k] == posts[k])
      && r.posts[id].lastModified == Some(now)
      && (postData.title.Some? ==> r.posts[id].title == postData.title)
      && (postData.content.Some? ==> r.posts[id].content == postData.content)
      && (postData.isPublished.Some? ==> Truthy(r.posts[id].isPublished) == Truthy(postData.isPublished))
  {
  }

  /**
   * After a save that went through, the saved post is in the public list
   * exactly when it was saved with `publish`, and always in the admin list.
   */
  lemma SavedPostVisibility(docs: seq<Entry>, posts: map<string, Post>, postId: Option<string>, postData: Post, now: int, newId: string, publish: bool)
    requires postData.isPublished == Some(publish)
    requires SaveEffect(posts, postId, postData, now, newId, None).failed.None?
    requires Database.Lists(docs, SaveEffect(posts, postId, postData, now, newId, None).posts)
    ensures (exists e :: e in Database.GetAllBlogPosts(Ok(docs)).value && e.id == SavedId(postId, newId)) <==> publish
    ensures exists e :: e in Database.GetAllBlogPostsAdmin(Ok(docs)).value && e.id == SavedId(postId, newId)
  {
    var stored := SaveEffect(posts, postId, postData, now, newId, None).posts;
    var id := SavedId(postId, newId);
    SaveWritesOneDocument(posts, postId, postData, now, newId);
    assert id in stored;
    var i :| 0 <= i < |docs| && docs[i].id == id;
    assert docs[i] == Entry(id, stored[id]);
    assert Database.IsPublished(docs[i]) <==> publish;
    assert docs[i] in multiset(docs);
    assert docs[i] in Database.GetAllBlogPostsAdmin(Ok(docs)).value;
    if publish {
      assert docs[i] in Database.GetAllBlogPosts(Ok(docs)).value;
    } else {
      forall e | e in Database.GetAllBlogPosts(Ok(docs)).value ensures e.id != id {
        var k :| 0 <= k < |docs| && docs[k] == e;
      }
    }
  }

  /**
   * A new post never keeps the form's scheduling date: `createBlogPost`
   * overwrites `publishDate` with the server time, so scheduling only takes
   * effect when an existing post is saved again.
   */
  lemma CreateIgnoresSchedule(posts: map<string, Post>, postData: Post, now: int, newId: string)
    requires SaveEffect(posts, None, postData, now, newId, None).failed.None?
    ensures SaveEffect(posts, None, postData, now, newId, None).posts[newId].publishDate == Some(now)
  {
  }

  /** A draft save of a bound post unpublishes it, whatever it was before. */
  lemma DraftSaveUnpublishes(stored: Post, data: Post, now: int)
    requires data.isPublished == Some(false)
    ensures !Truthy(Merge(stored, Database.Stamped(data, now)).isPublished)
  {
  }

}
