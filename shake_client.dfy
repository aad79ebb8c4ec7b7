/**
 * The read-model builders of the client library: a user by owner address or
 * by object id, the posts an address owns, one post with its metadata, and
 * the input check before a review transaction is built.
 *
 * Every ledger read is an input: either the decoded answer, or a function
 * from object id to the decoded answer (None where the object cannot be read
 * or decoded, which the library lets surface as a thrown error).
 */
module ShakeClient {
  import opened Common
  import opened Types

  const EmptyReviewMessage: string := "レビュー内容を入力してください"

  /** Why a single-object fetch failed: `InvalidPostOwner` is the `Invalid post owner` error. */
  datatype FetchError = InvalidPostOwner | ObjectUnavailable(id: string)

  /** The value of a named field, or None when the object has no such field. */
  function Field(fields: map<string, string>, name: string): (r: Option<string>)
    ensures r.Some? <==> name in fields
    ensures r.Some? ==> r.value == fields[name]
  {
    if name in fields then Some(fields[name]) else None
  }

  /** A User record from a User object, taking the name and image from the given fields. */
  function UserFrom(obj: UserObject, nameField: string, imageField: string): (u: User)
    ensures u.id == obj.id
    ensures u.username.Some? <==> nameField in obj.fields
    ensures u.image.Some? <==> imageField in obj.fields
    ensures u.bio.Some? <==> "bio" in obj.fields
    ensures u.username.Some? ==> u.username.value == obj.fields[nameField]
    ensures u.image.Some? ==> u.image.value == obj.fields[imageField]
    ensures u.bio.Some? ==> u.bio.value == obj.fields["bio"]
  {
    User(obj.id, Field(obj.fields, nameField), Field(obj.fields, imageField), Field(obj.fields, "bio"))
  }

  /**
   * `fetchUser`: `owned` is the list of User objects the address owns. No
   * object means no user; otherwise the first object is decoded, with the
   * name from `name` and the image from `profile_image_id`.
   */
  function FetchUser(owned: seq<UserObject>): (r: Option<User>)
    ensures r.None? <==> owned == []
    ensures r.Some? ==> r.value.id == owned[0].id
    ensures r.Some? ==> r.value.username == Field(owned[0].fields, "name")
    ensures r.Some? ==> r.value.image == Field(owned[0].fields, "profile_image_id")
    ensures r.Some? ==> r.value.bio == Field(owned[0].fields, "bio")
  {
    if owned == [] then None else Some(UserFrom(owned[0], "name", "profile_image_id"))
  }

  /** Only the first owned User object matters. */
  lemma FetchUserReadsFirstOnly(first: UserObject, rest: seq<UserObject>)
    ensures FetchUser([first] + rest) == FetchUser([first])
  {
  }

  /**
   * `fetchUserByUserId`: the object read under `userId`, decoded with the name
   * from `username` and the image from `image`; an unreadable object is an error.
   */
  function FetchUserByUserId(userId: string, read: Option<UserObject>): (r: Result<User, FetchError>)
    ensures r.Failure? <==> read.None?
    ensures r.Failure? ==> r.error == ObjectUnavailable(userId)
    ensures r.Success? ==> r.value.id == read.value.id
    ensures r.Success? ==> r.value.username == Field(read.value.fields, "username")
    ensures r.Success? ==> r.value.image == Field(read.value.fields, "image")
    ensures r.Success? ==> r.value.bio == Field(read.value.fields, "bio")
  {
    match read
    case None => Failure(ObjectUnavailable(userId))
    case Some(obj) => Success(UserFrom(obj, "username", "image"))
  }

  /**
   * The two user readers decode the same object to the same record exactly
   * when the object's `name` and `username` fields agree and so do its
   * `profile_image_id` and `image` fields.
   */
  lemma UserReadersAgree(obj: UserObject)
    ensures FetchUser([obj]) == Some(FetchUserByUserId(obj.id, Some(obj)).value)
        <==> Field(obj.fields, "name") == Field(obj.fields, "username")
             && Field(obj.fields, "profile_image_id") == Field(obj.fields, "image")
  {
  }

  /** The Post record for a Post object whose author is known, without metadata. */
  function PostFrom(obj: PostObject, author: string): (p: Post)
    ensures p.id == obj.id && p.author == author && p.metadata.None?
    ensures p.title == obj.title && p.thumbnailBlobId == obj.thumbnailBlobId
    ensures p.postBlobId == obj.postBlobId && p.createdAt == obj.createdAt
  {
    Post(obj.id, author, obj.thumbnailBlobId, obj.title, obj.postBlobId, obj.createdAt, None)
  }

  /**
   * `fetchUserPosts`: one post per owned Post object, in the order of the
   * objects, each written by the queried address and without metadata.
   * `owned` is the first page of the owner query's answer: the source reads
   * neither `hasNextPage` nor `nextCursor`, so later pages are never listed.
   */
  function FetchUserPosts(userAddress: string, owned: seq<PostObject>): (r: seq<Post>)
    ensures |r| == |owned|
    ensures forall i | 0 <= i < |r| ::
      r[i].id == owned[i].id && r[i].author == userAddress && r[i].metadata.None?
      && r[i].title == owned[i].title && r[i].thumbnailBlobId == owned[i].thumbnailBlobId
      && r[i].postBlobId == owned[i].postBlobId && r[i].createdAt == owned[i].createdAt
  {
    seq(|owned|, i requires 0 <= i < |owned| => PostFrom(owned[i], userAddress))
  }

  /** Listing a concatenation of owned objects lists each part in turn. */
  lemma FetchUserPostsAppend(userAddress: string, a: seq<PostObject>, b: seq<PostObject>)
    ensures FetchUserPosts(userAddress, a + b) == FetchUserPosts(userAddress, a) + FetchUserPosts(userAddress, b)
  {
    var l, r := FetchUserPosts(userAddress, a + b), FetchUserPosts(userAddress, a) + FetchUserPosts(userAddress, b);
    assert |l| == |r|;
    forall i | 0 <= i < |l|
      ensures l[i] == r[i]
    {
      if i < |a| {
        assert (a + b)[i] == a[i];
      } else {
        assert (a + b)[i] == b[i - |a|];
      }
    }
  }

  /**
   * The metadata record of a PostMetadata object: a missing price is 0 and a
   * missing review list is empty.
   */
  function MetadataFrom(obj: MetadataObject): (m: PostMetadata)
    ensures m.id == obj.id
    ensures m.price == 0 <==> obj.price.None? || obj.price.value == 0
    ensures obj.price.Some? ==> m.price == obj.price.value
    ensures m.reviews == [] <==> obj.reviewContents.None? || obj.reviewContents.value == []
    ensures obj.reviewContents.Some? ==> m.reviews == obj.reviewContents.value
  {
    PostMetadata(
      obj.id,
      if obj.price.Some? then obj.price.value else 0,
      if obj.reviewContents.Some? then obj.reviewContents.value else [])
  }

  /** The answer of `fetchPost` and the object ids it read, in order. */
  datatype FetchPostOutcome = FetchPostOutcome(result: Result<Post, FetchError>, readIds: seq<string>)

  /**
   * `fetchPost`: read the Post object, reject an unknown owner before anything
   * else is read, then read the linked metadata object and attach it.
   */
  function FetchPost(
    postId: string,
    readPost: string -> Option<PostRead>,
    readMetadata: string -> Option<MetadataObject>): (r: FetchPostOutcome)
    ensures 1 <= |r.readIds| <= 2 && r.readIds[0] == postId
    ensures readPost(postId).None? ==> r == FetchPostOutcome(Failure(ObjectUnavailable(postId)), [postId])
    ensures readPost(postId).Some? && readPost(postId).value.owner.Unknown?
      ==> r == FetchPostOutcome(Failure(InvalidPostOwner), [postId])
    ensures |r.readIds| == 2 ==> r.readIds[1] == readPost(postId).value.post.postMetadataId
    ensures readPost(postId).Some? && readPost(postId).value.owner.Address?
      && readMetadata(readPost(postId).value.post.postMetadataId).None?
      ==> r.result == Failure(ObjectUnavailable(readPost(postId).value.post.postMetadataId))
    ensures r.result.Success? <==>
      readPost(postId).Some? && readPost(postId).value.owner.Address?
      && readMetadata(readPost(postId).value.post.postMetadataId).Some?
    ensures r.result.Success? ==>
      var read := readPost(postId).value;
      r.result.value == PostFrom(read.post, read.owner.address)
        .(metadata := Some(MetadataFrom(readMetadata(read.post.postMetadataId).value)))
  {
    match readPost(postId)
    case None => FetchPostOutcome(Failure(ObjectUnavailable(postId)), [postId])
    case Some(read) =>
      match read.owner
      case Unknown => FetchPostOutcome(Failure(InvalidPostOwner), [postId])
      case Address(author) =>
        var metadataId := read.post.postMetadataId;
        match readMetadata(metadataId)
        case None => FetchPostOutcome(Failure(ObjectUnavailable(metadataId)), [postId, metadataId])
        case Some(meta) =>
          FetchPostOutcome(
            Success(PostFrom(read.post, author).(metadata := Some(MetadataFrom(meta)))),
            [postId, metadataId])
  }

  /**
   * The detail fetch agrees with the owner listing: a post fetched by id whose
   * owner is the address `a` is the post that listing `a`'s objects yields for
   * the same object, with the metadata added.
   */
  lemma FetchPostAgreesWithListing(
    postId: string,
    readPost: string -> Option<PostRead>,
    readMetadata: string -> Option<MetadataObject>,
    a: string)
    requires readPost(postId).Some? && readPost(postId).value.owner == Address(a)
    requires readMetadata(readPost(postId).value.post.postMetadataId).Some?
    ensures FetchPost(postId, readPost, readMetadata).result.Success?
    ensures FetchPost(postId, readPost, readMetadata).result.value.(metadata := None)
         == FetchUserPosts(a, [readPost(postId).value.post])[0]
  {
  }

  /** The call `createReview` adds to the transaction. */
  datatype ReviewCall = ReviewCall(packageId: string, postMetadataId: string, content: string)

  /**
   * `createReview`: whitespace-only content is refused before any call is
   * built; otherwise the content is passed on as given, untrimmed.
   */
  function CreateReview(packageId: string, postMetadataId: string, content: string): (r: Result<ReviewCall, string>)
    ensures r.Failure? <==> AllWhitespace(content)
    ensures r.Failure? ==> r.error == EmptyReviewMessage
    ensures r.Success? ==> r.value == ReviewCall(packageId, postMetadataId, content)
  {
    BlankIffAllWhitespace(content);
    if IsBlank(content) then Failure(EmptyReviewMessage)
    else Success(ReviewCall(packageId, postMetadataId, content))
  }
}
