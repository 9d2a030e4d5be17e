# Blog post repository, editor and admin guards — a Dafny model

This project models the core of a small blog built as a React front end over
a hosted document store, a blob store and an authentication service. It covers:

- **The post repository** (`src/firebase/database.js`).
  - The writes are create, update, delete and the two counter increments. They are methods of
    `Database.BlogStore`, a class holding the collection as a map from document id to `Post`.
  - The reads are functions over the documents a query returns. Each one filters, sorts
    (newest first, a missing date counting as the epoch), truncates or collects tags.
- **The authoring form** (`src/components/blog/PostEditor.tsx`).
  - Class `Editor.PostEditor` holds the form state.
  - It has handlers for tags, loading, saving, auto-saving and image upload.
- **The admin dashboard** (`src/components/admin/AdminDashboard.tsx`).
  - The status of a post: draft, scheduled or published.
  - The status filter and the statistics cards.
  - The local list updates after a delete or a publish toggle.
- **The two admin gates.**
  - `Guard.ProtectedRoute` (`src/components/ProtectedRoute.tsx`): loading, then a redirect with a login modal, or the protected children.
  - `Admin.AdminIntegration` (`src/components/admin/AdminIntegration.tsx`): a hidden trigger, the dashboard view and the editor view.
- **Upload result handling** (`src/firebase/storage.js`): the storage path, and how a batch of uploads is split into successes and errors.

## Inputs

The remote services appear only as inputs:

- The server time of a write is a parameter `now`.
- A write or read that throws is a `failure: Option<string>` argument, or an `Outcome` holding the thrown message.
- The collection's documents, in the store's order, are an `Outcome<seq<Entry>>` snapshot; each read applies its query's `where` filter itself (`Database.PublishedQuery`, `Database.CategoryQuery`).
- The id the store assigns to a new document is a parameter `newId`.
- The millisecond clock used in object names is `stamp`.
- What the blob store answered is an `Outcome<string>`.
- The administrator check `isAdmin` of the auth module is a function value given to each gate's constructor.

## Data

A stored document is a `Posts.Post` record with one `Option` per field. `None` stands for a field the
document does not have. `Posts.Merge` is the object spread `{ ...base, ...patch }`.
`Posts.Truthy` is JavaScript truthiness of an optional boolean.
Timestamps are integers.

## Behaviour of note

The model keeps these behaviours of the code as written:

- A post created from the editor does not keep its scheduling date. `createBlogPost` overwrites `publishDate` with the server time (`Editor.CreateIgnoresSchedule`), so a future date takes effect only when an existing post is saved again.
- The category query matches on `tags`, not on `category`.
- Auto-save writes the form's `isPublished` back to the store (`Editor.PostEditor.AutoSaveData` with `Database.UpdatedFields`), so a publish toggle made on the dashboard while the editor is open is undone by the next auto-save.
- Public lists hide drafts only. A post the dashboard calls scheduled is listed publicly before its date (`Dashboard.ScheduledIsPublic`).

## Model

| member | source | states |
|---|---|---|
| Posts.Merge | src/firebase/database.js:44-47 | the object spread: an empty patch leaves the document as it was, a patch spread onto an empty document is copied, and the title, flag and lastModified the patch carries win (the field-by-field rule of an update is UpdatedFields) |
| Posts.PublishKey | src/firebase/database.js:111-112 | the public lists' sort key is publishDate, a missing date counting as the epoch 0 |
| Posts.LastModifiedKey | src/firebase/database.js:291-292 | the admin list's sort key is lastModified, a missing date counting as the epoch 0 |
| Database.NewPost | src/firebase/database.js:25-33 | a new document has viewCount and likeCount 0, publishDate and lastModified equal to the server time, isPublished and isMandatoryReading true only when the caller's value was true; title, excerpt, content, image, tags and category are the caller's |
| Database.UpdatedFields | src/firebase/database.js:44-47 | after an update lastModified is the server time and, for each of the other eleven fields, a field the caller supplied takes the supplied value and a field not supplied keeps the stored one |
| Database.Bumped | src/firebase/database.js:243-245 | an increment yields the old counter plus one, a missing counter counting as 0 |
| Database.BlogStore.constructor | src/firebase/database.js:20 | the collection starts empty |
| Database.BlogStore.CreateBlogPost | src/firebase/database.js:23-38 | on success returns the new id and adds exactly that document (NewPost); on failure returns the message and leaves the store unchanged |
| Database.BlogStore.UpdateBlogPost | src/firebase/database.js:41-52 | merges the fields plus lastModified into an existing document and touches no other; fails without change when the document is missing or the write fails |
| Database.BlogStore.DeleteBlogPost | src/firebase/database.js:55-63 | on success the id is gone from the store and nothing else changes; on failure nothing changes |
| Database.BlogStore.IncrementViewCount | src/firebase/database.js:240-250 | raises only that post's view counter, by one; fails without change on a missing post |
| Database.BlogStore.IncrementLikeCount | src/firebase/database.js:253-263 | raises only that post's like counter, by one; fails without change on a missing post |
| Database.GetBlogPost | src/firebase/database.js:66-82 | a stored id yields its document tagged with that id; a missing id yields "Post not found"; a thrown error is passed on |
| Database.ReadAfterWrite | src/firebase/database.js:23-82 | after a delete the id reads as "Post not found"; after a create it reads back as the new document; after an update it reads back as the stored document merged with the update and the server time |
| Database.TimestampToDate | src/firebase/database.js:347-352 | a stored time is returned as is; an absent one reads as the current time |
| Database.GetAllBlogPosts | src/firebase/database.js:85-123 | a permutation of exactly the documents with isPublished true, sorted by publishDate descending with a missing date as 0; a failed read returns its message |
| Database.GetRecentBlogPosts | src/firebase/database.js:127-154 | a prefix of the public list; for n >= 0 of length min(n, number of published posts); for negative n, slice's rule: that number plus n, but at least 0 |
| Database.GetRecentBlogPostsDefault | src/firebase/database.js:127 | without an argument at most five posts are returned |
| Database.GetMandatoryReadingPosts | src/firebase/database.js:157-184 | exactly the published posts with isMandatoryReading true, as a permutation of the public list filtered by that flag, sorted by publishDate descending |
| Database.GetPostsByCategory | src/firebase/database.js:187-213 | exactly the published posts whose tags contain the category, sorted by publishDate descending |
| Database.GetAllBlogPostsAdmin | src/firebase/database.js:266-303 | a permutation of every document, drafts included, sorted by lastModified descending with a missing value as 0 |
| Database.GetFeaturedPost | src/firebase/database.js:306-344 | no post and no error when nothing is published; otherwise a published post whose publishDate is at least every other published post's |
| Database.FeaturedIsFirstPublished | src/firebase/database.js:318-335 | the featured post is exactly the head of the public list, and exists exactly when that list is non-empty |
| Database.FlattenTagsMembers | src/firebase/database.js:222-228 | a tag is in the flattened list exactly when some document's tags contain it |
| Database.FlattenTags | src/firebase/database.js:222-228 | every tag pushed into the list is a tag of some document of the query |
| Database.PublishedTagsFlattened | src/firebase/database.js:218-228 | the tags collected from the published query are exactly the tags of published documents |
| Database.GetAllCategories | src/firebase/database.js:216-237 | the loop collects every published post's tags; the result is strictly ascending, so it has no duplicates, and holds exactly the union of the published posts' tags |
| Database.CreatedDraftIsAdminOnly | src/firebase/database.js:23-38 | a draft just created appears in the admin list but in no public list |
| Database.UpdatedToPublishedIsListed | src/firebase/database.js:41-52 | once an update sets isPublished true, the updated document is in the public list |
| Database.DeletedPostIsGone | src/firebase/database.js:55-63 | after a delete the post is in neither list and reads as "Post not found" |
| Sorting.SortDesc | src/firebase/database.js:110-114 | the comparator sort yields a non-increasing order by key that is a permutation of its input |
| Sorting.SortDescHeadIsMax | src/firebase/database.js:318-335 | the first element of the sorted list has the largest key of the input |
| Sorting.SortUnique | src/firebase/database.js:231 | `[...new Set(tags)].sort()` is strictly ascending and holds exactly the input's elements |
| Sorting.StrictlyAscendingHasNoDuplicates | src/firebase/database.js:231 | a strictly ascending list has no duplicates |
| Sorting.StrictlyAscendingUnique | src/firebase/database.js:231 | two strictly ascending lists with the same elements are equal, so the categories list is determined by the set of tags |
| Text.LessTotal | src/firebase/database.js:231 | the default string order is total and asymmetric |
| Text.Less | src/firebase/database.js:231 | the default string order puts a proper prefix first and never relates a string to itself |
| Text.LessTransitive | src/firebase/database.js:231 | the default string order is transitive |
| Seqs.SlicePrefix | src/firebase/database.js:148 | `slice(0, n)` is a prefix of the list with the clamped length of the JavaScript rules |
| Seqs.Filter | src/firebase/storage.js:54-55 | `filter` keeps exactly the elements satisfying the predicate, each as often as in the input, in order |
| Seqs.FilterAppend | src/components/blog/PostEditor.tsx:185 | filtering distributes over concatenation, so kept elements keep their relative order |
| Text.Trim | src/components/blog/PostEditor.tsx:178 | `trim` returns a slice of the input with no whitespace at either end, and everything dropped before and after it is whitespace |
| Text.TrimIsEmptyIffBlank | src/components/blog/PostEditor.tsx:196-209 | a trimmed string is empty exactly when every character is whitespace |
| Text.TrimIdempotent | src/components/blog/PostEditor.tsx:178 | trimming twice is trimming once |
| Editor.PostEditor.constructor | src/components/blog/PostEditor.tsx:29-47 | the empty form, with initialLoading set exactly when a post id is bound |
| Editor.PostEditor.LoadPost | src/components/blog/PostEditor.tsx:89-117 | on success the form shows the stored fields, with '', [] and false for missing ones and the previous date kept when publishDate is missing; on an error the message is set and every form field keeps its value; initialLoading ends either way |
| Editor.PostEditor.LoadCategories | src/components/blog/PostEditor.tsx:60-68 | the category suggestions are the categories read, or [] when the read failed |
| Editor.PostEditor.HandleAddTag | src/components/blog/PostEditor.tsx:177-182 | appends the trimmed tag and clears the input only when the trimmed tag is non-empty and new, otherwise changes nothing; a duplicate-free tag list stays duplicate-free |
| Editor.RemoveAll | src/components/blog/PostEditor.tsx:185 | the removed tag is gone and every other tag is kept |
| Editor.RemoveAllKeepsNoDuplicates | src/components/blog/PostEditor.tsx:184-186 | removing a tag keeps a duplicate-free list duplicate-free |
| Editor.RemoveAllKeepsOrder | src/components/blog/PostEditor.tsx:184-186 | removal commutes with concatenation, so the other tags stay in order |
| Editor.PostEditor.HandleRemoveTag | src/components/blog/PostEditor.tsx:184-186 | the tag list loses every occurrence of the tag and stays duplicate-free |
| Editor.PostEditor.HandleRemoveImage | src/components/blog/PostEditor.tsx:375 | removing the image only clears the reference |
| Editor.PostEditor.SaveValidation | src/components/blog/PostEditor.tsx:196-209 | the title is checked first, then the content, then the category, each blank after trimming; the first blank one gives its message, and none blank passes |
| Editor.Excerpt | src/components/blog/PostEditor.tsx:217 | the trimmed excerpt when it is non-empty, otherwise the first min(150, length) characters of the content followed by "...", even for a short content |
| Editor.PostEditor.SaveData | src/components/blog/PostEditor.tsx:215-225 | the saved record has title and category trimmed, content, image, tags and the mandatory-reading flag as in the form, the synthesized excerpt, isPublished equal to the publish argument, the form's date, and no counters or lastModified |
| Editor.PostEditor.HandleSave | src/components/blog/PostEditor.tsx:195-247 | a write is issued exactly when validation passes; otherwise only the error is set; after a write the store is as SaveEffect says, the error or the success message follows its outcome, and loading is off |
| Editor.PostEditor.Submit | src/components/blog/PostEditor.tsx:227-232 | the update or create call leaves the store and reports the error exactly as SaveEffect says |
| Editor.SaveEffect | src/components/blog/PostEditor.tsx:227-236 | an update when a post id is bound, a create otherwise; a failure leaves the store unchanged and is reported; updating a missing id fails with "No document to update"; a success stores the merged record under the bound id, or the new record under the new id |
| Editor.SaveWritesOneDocument | src/components/blog/PostEditor.tsx:227-232 | a successful save adds at most the saved id to the store, leaves every other document as it was, stamps lastModified with the server time, and keeps the given title, content and publish flag |
| Editor.SavedPostVisibility | src/components/blog/PostEditor.tsx:222 | after a successful save the post is in the public list exactly when it was saved with publish, and always in the admin list |
| Editor.CreateIgnoresSchedule | src/firebase/database.js:27 | a post saved for the first time gets the server time as publishDate, not the form's date |
| Editor.DraftSaveUnpublishes | src/components/blog/PostEditor.tsx:222 | a draft save of a bound post leaves it unpublished |
| Editor.PostEditor.AutoSaveData | src/components/blog/PostEditor.tsx:123-132 | auto-save sends title and excerpt trimmed, category untrimmed, content, image, tags and both flags as in the form, no publishDate and no synthesized excerpt |
| Editor.PostEditor.HandleAutoSave | src/components/blog/PostEditor.tsx:119-140 | nothing happens without a bound post or with a blank title; otherwise the update is sent, leaving publishDate and the counters as stored, and the "saved" indicator is set whatever the outcome |
| Editor.PostEditor.HandleImageUpload | src/components/blog/PostEditor.tsx:142-175 | a file over 5 MiB is rejected before the type is looked at, then a type not starting with "image/"; neither issues an upload; an upload's URL becomes the featured image, its error becomes the message |
| Storage.ObjectPath | src/firebase/storage.js:14-15 | the path is the folder, "/", then the object name |
| Storage.ObjectName | src/firebase/storage.js:14 | the object name is the decimal digits of the clock reading, a "-", then the file name |
| Storage.ObjectNameRoundTrip | src/firebase/storage.js:14 | the object name splits back at its first "-" into the timestamp's digits, which read back as the timestamp, and the file name |
| Storage.UploadImage | src/firebase/storage.js:11-35 | on success the URL and the path under the folder, with no error; on failure no URL, no path and the message |
| Storage.UploadAll | src/firebase/storage.js:51-52 | one result per file, in file order |
| Storage.UploadAllAppend | src/firebase/storage.js:51-52 | uploading two runs of files gives the first run's results followed by the second's |
| Storage.UploadMultipleImages | src/firebase/storage.js:49-69 | uploads hold exactly the results without error, and errors exactly those with one, each with its multiplicity among the per-file results; together they are as many as the files; success exactly when there are no errors; a thrown batch gives no uploads, one error and no success |
| Storage.PartitionSizes | src/firebase/storage.js:54-55 | every result is a success or an error, so the two counts add up |
| Storage.UploadedHaveUrls | src/firebase/storage.js:23-27 | every successful result carries its URL |
| Storage.BatchKeepsOrder | src/firebase/storage.js:54-55 | successes and errors each keep their input order: the batch of two runs of files lists the first run's successes, and errors, before the second's |
| Dashboard.GetPostStatus | src/components/admin/AdminDashboard.tsx:93-100 | draft exactly when isPublished is not true; scheduled exactly when published with a date strictly after now; published otherwise, including a date equal to now or no date |
| Dashboard.StatusOverTime | src/components/admin/AdminDashboard.tsx:93-100 | as the clock advances a published post stays published, a draft stays a draft, and a scheduled post becomes published once its date is reached |
| Dashboard.ScheduledIsPublic | src/firebase/database.js:88-92 | the public list holds exactly the posts the dashboard does not call drafts, scheduled ones included |
| Dashboard.FilteredPosts | src/components/admin/AdminDashboard.tsx:102-105 | "all" keeps the list as it is; any other filter keeps exactly the posts with that status, each as often as in the list |
| Dashboard.FilteredPostsKeepOrder | src/components/admin/AdminDashboard.tsx:102-105 | the filtered posts keep the list's order: filtering two runs of posts filters each in turn |
| Dashboard.CountStatus | src/components/admin/AdminDashboard.tsx:207-221 | a status card shows at most the number of posts, and 0 exactly when no post has that status |
| Dashboard.StatusCountsPartition | src/components/admin/AdminDashboard.tsx:207-221 | the draft, scheduled and published counts add up to the number of posts |
| Dashboard.TotalLikes | src/components/admin/AdminDashboard.tsx:231 | the like total of no posts is 0 and of one post is its likeCount, a missing count as 0 |
| Dashboard.TotalLikesAppend | src/components/admin/AdminDashboard.tsx:231 | the like total of two runs of posts is the sum of their totals, so with TotalLikes it is the sum of every likeCount |
| Dashboard.TotalLikesBound | src/components/admin/AdminDashboard.tsx:231 | with no negative count the like total is non-negative and at least each post's count |
| Dashboard.ComputeStats | src/components/admin/AdminDashboard.tsx:192-237 | the total card is the list's length, the published and draft cards are the counts of those statuses, the like card is TotalLikes; published plus drafts plus scheduled equals the total; the like total is bounded as above |
| Dashboard.RemovePost | src/components/admin/AdminDashboard.tsx:64 | exactly the entries with another id remain, each as often as before |
| Dashboard.RemovePostKeepsOrder | src/components/admin/AdminDashboard.tsx:64 | the remaining posts keep their order: removing from two runs of posts removes from each in turn |
| Dashboard.RemovePostLikes | src/components/admin/AdminDashboard.tsx:64 | deleting a post takes exactly its likes off the total |
| Dashboard.ToggleData | src/components/admin/AdminDashboard.tsx:72 | the toggle sends only the negated flag, an absent flag counting as false: merged into any stored document it changes isPublished and nothing else |
| Dashboard.Toggled | src/components/admin/AdminDashboard.tsx:76-80 | same length and ids; entries with another id are unchanged; an entry with the id keeps every field but isPublished, which is negated, so it moves between draft and not draft |
| Dashboard.ToggleAgreesWithStore | src/components/admin/AdminDashboard.tsx:71-84 | when the clicked card shows the stored flag, the list and the store agree on the flag after the toggle |
| Dashboard.ToggleTwice | src/components/admin/AdminDashboard.tsx:76-80 | toggling twice restores a list whose flags are all set |
| Dashboard.AdminDashboard.constructor | src/components/admin/AdminDashboard.tsx:26-28 | empty list, loading, filter "all" |
| Dashboard.AdminDashboard.FetchPosts | src/components/admin/AdminDashboard.tsx:35-50 | the list becomes the admin list, a permutation of the documents, or stays as it was on an error; loading is off afterwards |
| Dashboard.AdminDashboard.SetFilter | src/components/admin/AdminDashboard.tsx:249 | a filter button sets the filter |
| Dashboard.AdminDashboard.Visible | src/components/admin/AdminDashboard.tsx:282 | the cards shown are exactly the listed posts the filter lets through |
| Dashboard.AdminDashboard.HandleDelete | src/components/admin/AdminDashboard.tsx:60-69 | without confirmation nothing happens; a confirmed, successful delete removes the document and the list entries with its id; a failure changes nothing |
| Dashboard.AdminDashboard.HandleTogglePublish | src/components/admin/AdminDashboard.tsx:71-84 | on success the stored flag is negated and the list is Toggled; on failure neither changes |
| Guard.Render | src/components/ProtectedRoute.tsx:37-58 | the spinner exactly while loading; the children exactly for a signed-in administrator; otherwise the redirect home with the modal as the state says |
| Guard.NonAdminLooksSignedOut | src/components/ProtectedRoute.tsx:45-56 | a signed-in non-administrator sees exactly what a signed-out visitor sees |
| Guard.ProtectedRoute.constructor | src/components/ProtectedRoute.tsx:12-14 | the wrapper starts loading and shows only the spinner |
| Guard.ProtectedRoute.OnAuthStateChange | src/components/ProtectedRoute.tsx:17-24 | every callback stores the user and ends loading; a missing or non-admin user opens the modal, an administrator leaves it alone; afterwards the children show exactly for an administrator |
| Guard.ProtectedRoute.HandleLoginSuccess | src/components/ProtectedRoute.tsx:29-31 | only closes the modal |
| Guard.ProtectedRoute.HandleLoginClose | src/components/ProtectedRoute.tsx:33-35 | only closes the modal |
| Admin.Render | src/components/admin/AdminIntegration.tsx:65-114 | the trigger exactly when no user is stored and the view is hidden; the dashboard or the editor exactly when a user is stored and the view says so; nothing otherwise |
| Admin.AdminScreensNeedAdmin | src/components/admin/AdminIntegration.tsx:17-62 | in the state the handlers keep, the dashboard and the editor show only to an administrator, and the screen is blank only between a login and its callback |
| Admin.AdminIntegration.constructor | src/components/admin/AdminIntegration.tsx:12-15 | no user, modal closed, view hidden, no post being edited |
| Admin.AdminIntegration.OnAuthStateChange | src/components/admin/AdminIntegration.tsx:17-29 | an administrator is stored and a hidden view becomes the dashboard, other views stay; anyone else clears the user, hides the view and drops the edited post |
| Admin.AdminIntegration.HandleLoginSuccess | src/components/admin/AdminIntegration.tsx:34-36 | switches to the dashboard view |
| Admin.AdminIntegration.HandleLogout | src/components/admin/AdminIntegration.tsx:38-42 | clears the user and the edited post and hides the view, so the trigger shows until the next auth callback |
| Admin.AdminIntegration.LogoutAndResubscribe | src/components/admin/AdminIntegration.tsx:17-42 | logging out does not sign out: the auth effect re-subscribes on the view change and replays the session's user, so a signed-in administrator is back on the dashboard, anyone else stays on the trigger |
| Admin.AdminIntegration.HandleCreatePost | src/components/admin/AdminIntegration.tsx:44-47 | the editor view with no post |
| Admin.AdminIntegration.HandleEditPost | src/components/admin/AdminIntegration.tsx:49-52 | the editor view with the given post, which a signed-in administrator then sees |
| Admin.AdminIntegration.HandleSavePost | src/components/admin/AdminIntegration.tsx:54-57 | back to the dashboard with no post being edited |
| Admin.AdminIntegration.HandleCancelEdit | src/components/admin/AdminIntegration.tsx:59-62 | back to the dashboard with no post being edited |
| Admin.AdminIntegration.HandleTriggerClick | src/components/admin/AdminIntegration.tsx:71-75 | only a triple click opens the login modal |
| Admin.AdminIntegration.HandleModalClose | src/components/admin/AdminIntegration.tsx:85 | closes the login modal |

## Left out

- The document store, blob store and auth SDK calls themselves. They become the parameters listed above.
- `deleteImage` (src/firebase/storage.js:38-46): it only forwards a path to the blob store's delete and reports the outcome, and no core component calls it.
- Timers and navigation:
  - the 30-second auto-save debounce;
  - the timeouts that clear success messages;
  - the redirects after a save, a failed load or a logout.
- Concurrency: parallel requests, races between auto-save and save, and stale updates after a view unmounts. Every handler runs to completion before the next.
- Date and locale conversion:
  - the scheduling field is an integer timestamp, not the `toISOString().slice(0, 16)` text;
  - `toLocaleDateString` is not modelled;
  - the clock does not advance between the two clock reads of `getPostStatus`.
- Database.TimestampToDate: a stored value that is not a timestamp (it lacks `toDate`) is not modelled; every stored date is an integer or absent.
- Mis-typed document fields, such as a string where a boolean is expected. A stored `id` field, which would shadow the document id in `{ id, ...data }`, is also not modelled.
- Text.Less: compares characters as code points, where JavaScript's default sort compares UTF-16 code units. The two orders differ only for characters outside the Basic Multilingual Plane.
- Text.Take: counts characters, where `substring` counts UTF-16 code units.
- Database.BlogStore.UpdateBlogPost: the store's message for a missing document is abbreviated to the constant `NoDocumentToUpdate`.
- Sorting.SortDesc: fixes one order for posts with equal dates. The store's order of equal-keyed documents is unspecified, so only sortedness and permutation are claimed.
- The `catch` blocks of `handleSave`, `handleImageUpload` and `loadPost` ("Error al guardar el post" and the like). The repository functions they wrap never throw, so these blocks are unreachable.
- The read functions' `{ posts: [], error }` failure shape: a failed read is `Err(message)`, and its empty payload is implied.
- An empty error message counting as no error in the `if (result.error)` checks. The model treats every failure as an error.
- Editor.PostEditor.LoadPost: the `post` state field, which is set but not read by the modelled handlers, is not kept.
- The form's plain field setters (title, content and so on), the rich-text widget, the status badges and labels, and the empty-list messages.
- The auth effect of `AdminIntegration` subscribes again on every change of the view, and each new subscription reports the current user. The model replays that callback only after a logout (`Admin.AdminIntegration.LogoutAndResubscribe`); after the other view changes the replay is not modelled, and for an administrator it would leave the view as it is.
- `AdminLoginModal`: its success path calls `onLoginSuccess` and then `onClose`. The model keeps the two as separate handlers.
