# shake-onigiri frontend core, modelled in Dafny

shake-onigiri is a blog on the Sui ledger. Posts are encrypted with Seal
threshold encryption and stored as Walrus blobs, and readers can review
them. This project models the logic of the web client that decides what
the reader sees and what the author submits. It covers three parts.

- **Read-model reconstruction** (`ShakeClient`, `PostReviews`). These
  modules rebuild `User`, `Post`, `PostMetadata` and `Review` records
  from decoded ledger objects. For the reviews of a post this means:
  - every distinct reviewer is resolved once;
  - malformed reviews are dropped;
  - each review's vote-count map is folded into two tallies;
  - the viewer's own vote is found.
- **The publish flow of the new-post page** (`Cook`). This module covers:
  - the title check and then the content check;
  - the `pending` flag;
  - the encryption identifier, which is hex(policy-object bytes ++ 5-byte nonce);
  - the request for threshold-2 encryption;
  - the post transaction;
  - the new post's id, taken from the transaction's object changes.
- **The post card** (`PostCard`). This module covers:
  - title truncation;
  - the fallback chains for the thumbnail, the displayed name and the
    avatar letter.

Shared pieces live in two modules:
- `Common` holds `Option`/`Result`, bytes, JavaScript truthiness of an
  optional string, and JavaScript's `String.prototype.trim`, including its
  whitespace set.
- `Hex` holds the hex encoding and its inverse. The inverse is the reference
  for what an encoded identifier contains.

Everything the client asks of the outside world is an input of the model:
ledger reads, user lookups, the random nonce, the outcome of encryption
and of the transaction, the aggregator URL and the address shortener.

The loops of the source are methods, each proved against a function that
specifies it:
- the author loop is `PostReviews.ResolveAuthors`;
- the tally loop is `PostReviews.TallyVotes`;
- the vote scan with `break` is `PostReviews.FindViewerVote`;
- the review map and filter is `PostReviews.BuildReviews`.

The form's `pending` state is the field of a class,
`Cook.CreatePostForm`. Its `HandleSave` records every observable step in
an effect trace. Its invariant `Valid` says that the flag is always what
the trace's last `SetPending` set.

Two behaviours of the code are easy to misread, and the model keeps them
as written:
- `fetchPost` always throws when the metadata object cannot be read; it
  never returns a post without metadata.
- `fetchUser` and `fetchUserByUserId` decode different field names
  (`name`/`profile_image_id` against `username`/`image`).

## Model

| member | source | states |
|---|---|---|
| Common.Trim | packages/frontend/src/pages/cook.tsx:81 | `s.trim()` is `s` without its leading and trailing whitespace: a contiguous run of `s` with only whitespace before and after it, which neither starts nor ends with whitespace |
| Common.IsBlank | packages/frontend/src/pages/cook.tsx:81-89 | `!s.trim()` holds exactly when stripping the leading whitespace already leaves nothing |
| Common.BlankIffAllWhitespace | packages/frontend/src/pages/cook.tsx:81 | `!s.trim()` holds exactly when every character of `s` is JavaScript whitespace (the empty string included) |
| Hex.ToHex | packages/frontend/src/pages/cook.tsx:96-101 | `toHex` writes two digits per byte, so the text is twice as long as the bytes |
| Hex.ToHexAppend | packages/frontend/src/pages/cook.tsx:96-101 | hex of a concatenation is the concatenation of the hex encodings, so the identifier starts with the encoding of the policy bytes |
| Hex.FromHexToHex | packages/frontend/src/pages/cook.tsx:96-101 | decoding the hex text gives back exactly the bytes that were encoded |
| Hex.ToHexInjective | packages/frontend/src/pages/cook.tsx:96-101 | different byte strings never get the same hex text |
| Types.DecodeTag | packages/frontend/src/lib/shake-client.ts:256-261 | the variant `Helpful` and only it decodes to Helpful, `NotHelpful` and only it to NotHelpful; any other name is kept as Other |
| ShakeClient.UserFrom | packages/frontend/src/lib/shake-client.ts:32-38 | the record's id is the object's; its name, image and bio are present exactly when the fields they are read from are present, and then hold those fields' values |
| ShakeClient.FetchUser | packages/frontend/src/lib/shake-client.ts:28-39 | null exactly when the owner holds no User object; otherwise id, name (`name`), image (`profile_image_id`) and bio come from the first object |
| ShakeClient.FetchUserReadsFirstOnly | packages/frontend/src/lib/shake-client.ts:28 | objects after the first one never change the result |
| ShakeClient.FetchUserByUserId | packages/frontend/src/lib/shake-client.ts:42-59 | an unreadable object is an error naming the id; otherwise the name comes from `username` and the image from `image` |
| ShakeClient.UserReadersAgree | packages/frontend/src/lib/shake-client.ts:32-38 | the two user readers build the same record from one object exactly when its `name`/`username` fields agree and its `profile_image_id`/`image` fields agree |
| ShakeClient.PostFrom | packages/frontend/src/lib/shake-client.ts:79-88 | id, title, thumbnail, post blob and creation time are the object's, the author is the one given, and there is no metadata |
| ShakeClient.FetchUserPosts | packages/frontend/src/lib/shake-client.ts:78-90 | one post per owned object, in the same order, each carrying the object's fields, authored by the queried address, and without metadata |
| ShakeClient.FetchUserPostsAppend | packages/frontend/src/lib/shake-client.ts:78-90 | listing concatenated objects lists each part in turn (order is kept) |
| ShakeClient.MetadataFrom | packages/frontend/src/lib/shake-client.ts:118-122 | a missing price becomes 0 and missing review contents become the empty list; present values are kept |
| ShakeClient.FetchPost | packages/frontend/src/lib/shake-client.ts:93-137 | an unreadable post fails naming its id; an unknown owner fails with the `InvalidPostOwner` error (`Invalid post owner`) after reading only the post; an unreadable metadata object fails naming the metadata id; success exactly when the post is readable, its owner is an address and the linked metadata is readable; the post then has that author and the decoded metadata |
| ShakeClient.FetchPostAgreesWithListing | packages/frontend/src/lib/shake-client.ts:124-132 | a post fetched by id equals, apart from its metadata, the post that listing its owner's objects yields |
| ShakeClient.CreateReview | packages/frontend/src/lib/shake-client.ts:186-197 | refused with the empty-review message exactly when the content is whitespace only; otherwise the call carries the content untrimmed |
| PostReviews.ReviewerOf | packages/frontend/src/lib/shake-client.ts:217-219 | an answer yields an address exactly when it has fields and a reviewer that is non-empty and not `'unknown'`, and then it is that reviewer |
| PostReviews.ReviewerAddresses | packages/frontend/src/lib/shake-client.ts:217-219 | the collected addresses are never empty nor `'unknown'`, and there are no more of them than answers |
| PostReviews.ReviewerAddressesSpec | packages/frontend/src/lib/shake-client.ts:217-219 | an address is collected exactly when some answer names it as a reviewer that is non-empty and not `'unknown'` |
| PostReviews.Unique | packages/frontend/src/lib/shake-client.ts:220 | `[...new Set(s)]` holds no duplicates and exactly the elements of `s` |
| PostReviews.UniqueKeepsFirstOccurrenceOrder | packages/frontend/src/lib/shake-client.ts:220 | the addresses of `[...new Set(s)]` stand in the order of their first occurrences in `s` |
| PostReviews.FirstFailure | packages/frontend/src/lib/shake-client.ts:223-226 | every lookup before the returned index succeeds and the lookup at it fails |
| PostReviews.AuthorMap | packages/frontend/src/lib/shake-client.ts:221-226 | only addresses that were looked up become keys of the author map |
| PostReviews.AuthorMapSpec | packages/frontend/src/lib/shake-client.ts:221-226 | the map's keys are exactly the looked-up addresses and each maps to what `fetchUser` answered for it |
| PostReviews.ResolveAuthors | packages/frontend/src/lib/shake-client.ts:221-226 | the loop looks addresses up in order, stops at the first failed read, and when none fails builds the author map |
| PostReviews.AuthorMapKeys | packages/frontend/src/lib/shake-client.ts:217-226 | the author map's keys are exactly the resolvable reviewers of the batch |
| PostReviews.TagCount | packages/frontend/src/lib/shake-client.ts:250-261 | the count left for a tag is 0 or the value of some entry that carries the tag |
| PostReviews.TagCountAbsent | packages/frontend/src/lib/shake-client.ts:243-263 | a tag that no entry carries counts 0 |
| PostReviews.TagCountLast | packages/frontend/src/lib/shake-client.ts:250-261 | the count of a tag is the value of the last entry that carries it |
| PostReviews.TagCountSkips | packages/frontend/src/lib/shake-client.ts:252-261 | an entry without fields or with another tag changes the count nowhere it stands |
| PostReviews.TallyVotes | packages/frontend/src/lib/shake-client.ts:243-264 | the tally loop leaves both counts as the fold defines them, and 0 for a missing map |
| PostReviews.FirstVote | packages/frontend/src/lib/shake-client.ts:268-273 | a vote found is the decoded value of some entry keyed by the voter |
| PostReviews.ViewerVote | packages/frontend/src/lib/shake-client.ts:266-275 | a vote is found only when a viewer is given and the review has a per-voter map |
| PostReviews.FirstVoteAbsent | packages/frontend/src/lib/shake-client.ts:266-275 | no vote is found exactly when no entry is keyed by the viewer |
| PostReviews.FirstVoteFirst | packages/frontend/src/lib/shake-client.ts:268-273 | the vote found is that of the first entry keyed by the viewer; later ones are ignored |
| PostReviews.FirstVoteIsLookup | packages/frontend/src/lib/shake-client.ts:266-275 | with unique voter keys the scan returns the vote stored under the viewer, wherever it stands |
| PostReviews.FindViewerVote | packages/frontend/src/lib/shake-client.ts:266-275 | the scan with `break` returns the first matching entry's vote |
| PostReviews.IsWellFormed | packages/frontend/src/lib/shake-client.ts:231 | an answer kept as a review has fields, and its reviewer is the address the author loop resolved |
| PostReviews.MakeReview | packages/frontend/src/lib/shake-client.ts:235-290 | own review exactly when a viewer is given and equals the reviewer; counts are the tallies; the vote is only sought with a viewer and a voter map; an unresolved author becomes the anonymous name without an image |
| PostReviews.OwnReviewIgnoresVotes | packages/frontend/src/lib/shake-client.ts:241 | whose review it is never depends on the voter map |
| PostReviews.BuildReview | packages/frontend/src/lib/shake-client.ts:229-292 | a review exactly for an answer with fields, id, content and a reviewer other than `'unknown'`, and then the one specified |
| PostReviews.ReviewsFrom | packages/frontend/src/lib/shake-client.ts:228-293 | never more reviews than answers |
| PostReviews.ReviewsFromCount | packages/frontend/src/lib/shake-client.ts:231-233 | kept reviews plus dropped answers make up all answers |
| PostReviews.ReviewsFromAppend | packages/frontend/src/lib/shake-client.ts:228-293 | the reviews of concatenated answers are the reviews of each part in turn (input order is kept) |
| PostReviews.BuildReviews | packages/frontend/src/lib/shake-client.ts:228-293 | the map-and-filter yields exactly the reviews of the well-formed answers in order |
| PostReviews.FetchPostReviews | packages/frontend/src/lib/shake-client.ts:208-301 | a failed read yields no reviews; each distinct resolvable reviewer is looked up at most once, in the order `Unique` gives; a failed lookup yields no reviews; otherwise the reviews of the well-formed answers |
| PostReviews.TwoReviewScenario | packages/frontend/src/lib/shake-client.ts:228-293 | on a two-review batch read by the second reviewer, both reviews are kept in order with their tallies, only the second is the viewer's, and no vote of another voter is taken as the viewer's |
| Cook.EncryptionId | packages/frontend/src/pages/cook.tsx:94-101 | the identifier has two digits for each policy byte and each nonce byte |
| Cook.EncryptionIdShape | packages/frontend/src/pages/cook.tsx:94-101 | the identifier bytes are the policy bytes and 5 nonce bytes; the hex text is twice as long, starts with the policy's hex, and decodes back to those bytes |
| Cook.EncryptionIdUnique | packages/frontend/src/pages/cook.tsx:94-101 | two different nonces give two different identifiers |
| Cook.FindCreatedPost | packages/frontend/src/pages/cook.tsx:120-123 | a post id found is the object id of some change that created a `<package>::blog::Post` |
| Cook.CreatedPostId | packages/frontend/src/pages/cook.tsx:120-123 | no post id when the transaction reports no object changes |
| Cook.FindCreatedPostAbsent | packages/frontend/src/pages/cook.tsx:120-123 | the post id is undefined exactly when no change is a created `<package>::blog::Post` |
| Cook.FindCreatedPostFirst | packages/frontend/src/pages/cook.tsx:120-123 | the post id is that of the first created post; later matches are ignored |
| Cook.ProceedEffects | packages/frontend/src/pages/cook.tsx:91-131 | past the checks: mark pending, draw the nonce, request encryption; any further step happens exactly when encryption produced a ciphertext; 3 to 7 steps in all |
| Cook.SaveEffects | packages/frontend/src/pages/cook.tsx:81-131 | the first step is an alert exactly when the title or the content is blank, and then it is the only step; otherwise the steps past the checks follow |
| Cook.PendingAfterAppend | packages/frontend/src/pages/cook.tsx:92-124 | the pending flag after two runs of steps is the flag after the first, carried through the second |
| Cook.BlankTitleStops | packages/frontend/src/pages/cook.tsx:81-84 | a whitespace-only title gives one alert and nothing else, and leaves `pending` unchanged |
| Cook.BlankContentStops | packages/frontend/src/pages/cook.tsx:86-89 | with a title, a whitespace-only content gives one alert and nothing else, and leaves `pending` unchanged |
| Cook.AfterEncryptionSteps | packages/frontend/src/pages/cook.tsx:110-131 | after encryption is requested there is no alert and no second encryption |
| Cook.SaveProceeds | packages/frontend/src/pages/cook.tsx:81-92 | with a title and a content the handler goes past both checks |
| Cook.SaveEncryptsOnce | packages/frontend/src/pages/cook.tsx:92-108 | `pending` is set first, and exactly one encryption is requested, with threshold 2, the package id and the derived identifier |
| Cook.ProceedEncryptsOnce | packages/frontend/src/pages/cook.tsx:103-131 | past the checks the third step requests encryption with threshold 2, the package id, the derived identifier and the content, and no other step encrypts or alerts |
| Cook.ProceedPending | packages/frontend/src/pages/cook.tsx:118-135 | past the checks, `pending` ends false exactly when the success callback ran |
| Cook.PendingClearedOnlyOnSuccess | packages/frontend/src/pages/cook.tsx:91-135 | `pending` returns to false only on success; the error callback and the catch block leave it true |
| Cook.SaveAfterChecks | packages/frontend/src/pages/cook.tsx:91-135 | the steps past the checks, appended to any trace, leave the flag as the success callback decides |
| Cook.CreatePostForm.constructor | packages/frontend/src/pages/cook.tsx:75 | the form starts not pending, with no steps taken |
| Cook.CreatePostForm.HandleSave | packages/frontend/src/pages/cook.tsx:77-136 | the steps taken are exactly the steps `SaveEffects` lists, in order, and the flag stays in step with the trace |
| Cook.CreatePostForm.Publish | packages/frontend/src/pages/cook.tsx:91-135 | past the checks: mark pending, draw the nonce, encrypt, build, submit, and on success clear the flag and navigate to `/<post id>`; the flag stays in step with the trace |
| PostCard.TruncateTitle | packages/frontend/src/components/posts/post-card.tsx:14-17 | a title that fits is unchanged; a longer one becomes its first `maxLength` characters and `...`; the limit defaults to 50 |
| PostCard.TruncateTitleBounds | packages/frontend/src/components/posts/post-card.tsx:14-17 | the result is at most `maxLength + 3` long, and exactly that when cut; it starts with the first `min(len, maxLength)` characters |
| PostCard.TruncateTitleIdempotent | packages/frontend/src/components/posts/post-card.tsx:14-17 | truncating twice with the same limit is truncating once |
| PostCard.BlobUrlInjective | packages/frontend/src/components/posts/post-card.tsx:39-57 | two blob ids with the same URL on one aggregator are the same id |
| PostCard.ThumbnailOf | packages/frontend/src/components/posts/post-card.tsx:39-57 | the post's thumbnail URL when it has a non-empty one; otherwise the user's image URL when that is non-empty; otherwise the placeholder icon |
| PostCard.ThumbnailFallback | packages/frontend/src/components/posts/post-card.tsx:39-57 | the placeholder exactly when neither the post nor the user has a non-empty image; the post's thumbnail wins; without one the user's image is shown when non-empty; an image shown is only ever one of those two |
| PostCard.DisplayName | packages/frontend/src/components/posts/post-card.tsx:79 | a non-empty username is shown, otherwise the shortened address |
| PostCard.AvatarInitial | packages/frontend/src/components/posts/post-card.tsx:76 | at most one character, empty exactly when there is no non-empty username and the address is empty |
| PostCard.AvatarImageOf | packages/frontend/src/components/posts/post-card.tsx:71-75 | an avatar image exactly when the user has a non-empty image; its source is that image's blob URL and its alt text the displayed name |
| PostCard.AvatarInitialFallback | packages/frontend/src/components/posts/post-card.tsx:76 | one character, from the non-empty username, else from the address; empty only when both are; with a username it is the first letter of the shown name |
| PostCard.PostCardView | packages/frontend/src/components/posts/post-card.tsx:31-33 | nothing is rendered exactly when the author lookup answered null |
| PostCard.CardShownIffAuthorHasUser | packages/frontend/src/components/posts/post-card.tsx:26-36 | a card is shown exactly when the author owns a User object, and it links to the same `/<id>` route the publish flow navigates to |
| PostCard.CardImagesAgree | packages/frontend/src/components/posts/post-card.tsx:47-75 | without a post thumbnail, the top image and the avatar image are both the user's image URL, or both absent |
| PostCard.CardTexts | packages/frontend/src/components/posts/post-card.tsx:63-79 | the card title is at most 53 characters; the avatar's alt text is the shown name; with a username the avatar letter starts the shown name |

## Left out

- Network I/O: every `SuiClient` read and the transaction execution are
  inputs of the model. These are the owned-object queries, `getObject`,
  `multiGetObjects` and `signAndExecuteTransaction`. Their answers appear
  as sequences, options or functions from id to answer.
- `objResToFields` and `objResToOwner` belong to an external library.
  Only the shape of what they return is modelled: optional fields, owners
  as `Address | Unknown`, and vote variants as their names.
- `fetchPostContent`, `createPaidPost` and `createFreePost`: blob reads
  over HTTP and pass-throughs to the transaction builders, which are not
  part of this model.
- `voteForReview` only forwards its arguments to a transaction builder
  that is not part of this model, so it has nothing to state.
- Transaction construction (`BlogModule.*`, and the `createPost` that
  `cook.tsx` calls but the client library does not export) is one
  recorded step, `BuildPostTransaction`. It either returns or throws.
- Seal encryption, the key-server list and `crypto.getRandomValues` are
  inputs: the nonce and the ciphertext, or none when encryption throws.
  The content passed to encryption is recorded as a string. Its UTF-8
  encoding by `TextEncoder` is not modelled.
- `fromHex` of the configured policy-object id is not modelled. The
  configuration holds the policy object's bytes directly.
- Date formatting with `toLocaleString('ja-JP')` depends on the locale,
  so `createdAt` is kept as the ledger's raw value. `Number(...)` parsing
  of prices and counts is modelled as already-decoded naturals.
- The inner `try`/`catch` of `fetchPostReviews`
  (packages/frontend/src/lib/shake-client.ts:247-279) only catches errors
  from malformed entries. The decoded shapes here are typed, so that path
  cannot arise.
- Logging, React hooks, JSX layout and CSS classes are left out. `alert`
  and `navigate` are recorded as steps.
- `truncateAddress` is defined outside this model and is a parameter.
  `AGGREGATOR` is a parameter as well.
- The `if (!user) return` guard at
  packages/frontend/src/pages/cook.tsx:78 is not modelled. The form is
  built with the signed-in user, so the guard never fires in the model.
- Strings are sequences of Unicode code points. JavaScript's `length`,
  `substring` and `charAt` count UTF-16 code units, so titles with
  characters outside the Basic Multilingual Plane are cut at a different
  place.
- PostCard.TruncateTitle: `maxLength` is a natural number. The component
  only uses the default of 50. JavaScript would turn a negative limit into
  `"..."`.
- Cook.CreatePostForm.HandleSave and Cook.CreatePostForm.Publish: the
  `onSuccess` and `onError` callbacks of `signAndExecuteTransaction`
  (packages/frontend/src/pages/cook.tsx:112-131) are collapsed into the
  call. In the code the mutation returns at once and the callbacks run
  later. So the window in which `pending` is still true after the handler
  has returned is not modelled. Nor is a second save that starts before
  the first one's callback fires.
- ShakeClient.FetchUserPosts: `getOwnedObjects` answers one page at a
  time, and the code reads neither `hasNextPage` nor `nextCursor`. So
  `owned` is the first page of the address's Post objects, and posts on
  later pages are never listed, in the code or in the model.
- `packages/frontend/src/main.tsx` only sets up routing and providers.
