/**
 * The records of the application (`User`, `Post`, `PostMetadata`, `Review`,
 * `ReviewAuthor`, `ReviewReaction`) and the decoded shapes of the ledger
 * objects they are built from.
 *
 * A decoded object is what the client sees after the object decoder has
 * unwrapped the ledger's `fields` nesting. A property that JavaScript would
 * read as `undefined` is an `Option`; numeric strings appear already parsed.
 */
module Types {
  import opened Common

  /** The owner of a ledger object. `Unknown` is never an address. */
  datatype Owner = Address(address: string) | Unknown

  /** A review vote. Any variant name other than the two known ones is kept as `Other`. */
  datatype VoteTag = Helpful | NotHelpful | Other(variant: string)

  /** Reads an enum variant name as a vote tag. */
  function DecodeTag(variant: string): (t: VoteTag)
    ensures t == Helpful <==> variant == "Helpful"
    ensures t == NotHelpful <==> variant == "NotHelpful"
    ensures t.Other? ==> t.variant == variant
  {
    if variant == "Helpful" then Helpful
    else if variant == "NotHelpful" then NotHelpful
    else Other(variant)
  }

  // ----- application records -----

  datatype User = User(id: string, username: Option<string>, image: Option<string>, bio: Option<string>)

  datatype PostMetadata = PostMetadata(id: string, price: nat, reviews: seq<string>)

  datatype Post = Post(
    id: string,
    author: string,
    thumbnailBlobId: Option<string>,
    title: string,
    postBlobId: string,
    createdAt: string,
    metadata: Option<PostMetadata>)

  datatype ReviewAuthor = ReviewAuthor(name: Option<string>, image: Option<string>)

  datatype Review = Review(
    id: string,
    content: string,
    author: ReviewAuthor,
    createdAt: string,
    helpfulCount: nat,
    notHelpfulCount: nat,
    isCurrentUserReview: bool,
    currentUserVote: Option<VoteTag>)

  // ----- decoded ledger objects -----

  /** A User object: its id and its flat string fields by name. */
  datatype UserObject = UserObject(id: string, fields: map<string, string>)

  /** A blog Post object. */
  datatype PostObject = PostObject(
    id: string,
    title: string,
    thumbnailBlobId: Option<string>,
    postBlobId: string,
    createdAt: string,
    postMetadataId: string)

  /** A Post object read together with its owner. */
  datatype PostRead = PostRead(post: PostObject, owner: Owner)

  /** A PostMetadata object; `reviewContents` is the `contents` array of its `reviews` set. */
  datatype MetadataObject = MetadataObject(id: string, price: Option<nat>, reviewContents: Option<seq<string>>)

  /** One entry of a review's vote-count map: the tag's variant name and the count. */
  datatype CountFields = CountFields(key: string, value: nat)

  /** One entry of a review's per-voter map: the voter's address and the vote's variant name. */
  datatype VoterFields = VoterFields(key: string, value: string)

  /**
   * The fields of a Review object. An entry of either map is None when it has
   * no `fields`; a map is None when its `fields.contents` is missing.
   */
  datatype ReviewFields = ReviewFields(
    id: Option<string>,
    content: Option<string>,
    reviewer: Option<string>,
    createdAt: string,
    voteCounts: Option<seq<Option<CountFields>>>,
    votes: Option<seq<Option<VoterFields>>>)

  /** One answer of the batched read: the decoded fields, or None when there are none. */
  type ReviewObject = Option<ReviewFields>
}
