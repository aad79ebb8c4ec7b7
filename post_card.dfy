/**
 * What a post card shows: the title cut to a fixed length, a thumbnail that
 * falls back from the post's own image to the author's image to a placeholder
 * icon, and the author's name and avatar, which fall back from the user record
 * to the author's address.
 *
 * The card is a pure function of the post, the author lookup's answer, the
 * blob aggregator's base URL and the address-shortening helper, which is a
 * parameter because its definition is not part of this model.
 */
module PostCard {
  import opened Common
  import opened Types
  import ShakeClient
  import Cook

  const DefaultTitleLength: nat := 50
  const Ellipsis: string := "..."

  // ----- the title -----

  /** `truncateTitle(title, maxLength)`: at most `maxLength` characters of the title, marked when cut. */
  function TruncateTitle(title: string, maxLength: nat := DefaultTitleLength): (r: string)
    ensures |title| <= maxLength ==> r == title
    ensures |title| > maxLength ==> r == title[..maxLength] + Ellipsis
  {
    if |title| <= maxLength then title else title[..maxLength] + Ellipsis
  }

  function Min(a: nat, b: nat): nat
  {
    if a <= b then a else b
  }

  /**
   * The shown title is never longer than the limit plus the marker, always
   * starts with as much of the title as the limit allows, and is exactly the
   * limit plus the marker long when the title was cut.
   */
  lemma TruncateTitleBounds(title: string, maxLength: nat)
    ensures |TruncateTitle(title, maxLength)| <= maxLength + |Ellipsis|
    ensures title[..Min(|title|, maxLength)] <= TruncateTitle(title, maxLength)
    ensures |title| > maxLength ==> |TruncateTitle(title, maxLength)| == maxLength + |Ellipsis|
  {
    var r := TruncateTitle(title, maxLength);
    if |title| > maxLength {
      assert r[..maxLength] == title[..maxLength];
    }
  }

  /** Cutting an already cut title changes nothing. */
  lemma TruncateTitleIdempotent(title: string, maxLength: nat)
    ensures TruncateTitle(TruncateTitle(title, maxLength), maxLength) == TruncateTitle(title, maxLength)
  {
    if |title| > maxLength {
      var r := TruncateTitle(title, maxLength);
      assert r[..maxLength] == title[..maxLength];
    }
  }

  // ----- images -----

  /** The URL of a blob on the aggregator: `<aggregator>/v1/blobs/<blobId>`. */
  function BlobUrl(aggregator: string, blobId: string): (url: string)
    ensures |url| == |aggregator| + 10 + |blobId|
  {
    aggregator + "/v1/blobs/" + blobId
  }

  /** The blob id back from a blob URL on the same aggregator. */
  lemma BlobUrlInjective(aggregator: string, id1: string, id2: string)
    requires BlobUrl(aggregator, id1) == BlobUrl(aggregator, id2)
    ensures id1 == id2
  {
    var n := |aggregator| + 10;
    assert BlobUrl(aggregator, id1)[n..] == id1;
    assert BlobUrl(aggregator, id2)[n..] == id2;
  }

  /** The top of the card: an image from the aggregator, or the placeholder icon. */
  datatype Thumbnail = BlobImage(src: string) | PlaceholderIcon

  /** The post's own thumbnail when it has a non-empty one, else the author's image, else the icon. */
  function ThumbnailOf(aggregator: string, post: Post, user: User): (t: Thumbnail)
    ensures t.PlaceholderIcon? <==> !Truthy(post.thumbnailBlobId) && !Truthy(user.image)
    ensures Truthy(post.thumbnailBlobId) ==> t == BlobImage(BlobUrl(aggregator, post.thumbnailBlobId.value))
    ensures !Truthy(post.thumbnailBlobId) && Truthy(user.image) ==> t == BlobImage(BlobUrl(aggregator, user.image.value))
  {
    if Truthy(post.thumbnailBlobId) then BlobImage(BlobUrl(aggregator, post.thumbnailBlobId.value))
    else if Truthy(user.image) then BlobImage(BlobUrl(aggregator, user.image.value))
    else PlaceholderIcon
  }

  /**
   * The thumbnail fallback chain: the placeholder exactly when neither the
   * post nor the author has a non-empty image; the post's image wins over
   * the author's; the author's image shows only when the post has none.
   */
  lemma ThumbnailFallback(aggregator: string, post: Post, user: User)
    ensures ThumbnailOf(aggregator, post, user).PlaceholderIcon?
        <==> !Truthy(post.thumbnailBlobId) && !Truthy(user.image)
    ensures Truthy(post.thumbnailBlobId)
        ==> ThumbnailOf(aggregator, post, user) == BlobImage(BlobUrl(aggregator, post.thumbnailBlobId.value))
    ensures !Truthy(post.thumbnailBlobId) && Truthy(user.image)
        ==> ThumbnailOf(aggregator, post, user) == BlobImage(BlobUrl(aggregator, user.image.value))
    ensures forall id :: ThumbnailOf(aggregator, post, user) == BlobImage(BlobUrl(aggregator, id)) ==>
      ((Truthy(post.thumbnailBlobId) && id == post.thumbnailBlobId.value)
       || (!Truthy(post.thumbnailBlobId) && Truthy(user.image) && id == user.image.value))
  {
    forall id | ThumbnailOf(aggregator, post, user) == BlobImage(BlobUrl(aggregator, id))
      ensures (Truthy(post.thumbnailBlobId) && id == post.thumbnailBlobId.value)
           || (!Truthy(post.thumbnailBlobId) && Truthy(user.image) && id == user.image.value)
    {
      if Truthy(post.thumbnailBlobId) {
        BlobUrlInjective(aggregator, id, post.thumbnailBlobId.value);
      } else {
        BlobUrlInjective(aggregator, id, user.image.value);
      }
    }
  }

  // ----- the author line -----

  /** `user.username || truncateAddress(post.author)`: the name shown beside the avatar and used as its alt text. */
  function DisplayName(user: User, author: string, truncateAddress: string -> string): (name: string)
    ensures Truthy(user.username) ==> name == user.username.value
    ensures !Truthy(user.username) ==> name == truncateAddress(author)
  {
    if Truthy(user.username) then user.username.value else truncateAddress(author)
  }

  /** The first character of a string, or the empty string for an empty one (`s.charAt(0)`). */
  function CharAt0(s: string): (r: string)
    ensures r <= s && |r| == Min(|s|, 1)
  {
    if s == [] then "" else [s[0]]
  }

  /** `user.username?.charAt(0) || post.author.charAt(0)`: the letter in the avatar when there is no image. */
  function AvatarInitial(user: User, author: string): (r: string)
    ensures |r| <= 1
    ensures r == "" <==> !Truthy(user.username) && author == ""
  {
    if Truthy(user.username) then CharAt0(user.username.value) else CharAt0(author)
  }

  /**
   * The avatar letter is one character, taken from the username when it is
   * non-empty and from the address otherwise; it is empty only when both
   * are. With a username it is the first letter of the displayed name.
   */
  lemma AvatarInitialFallback(user: User, author: string, truncateAddress: string -> string)
    ensures |AvatarInitial(user, author)| <= 1
    ensures AvatarInitial(user, author) == "" <==> !Truthy(user.username) && author == ""
    ensures Truthy(user.username) ==> AvatarInitial(user, author) == [user.username.value[0]]
    ensures !Truthy(user.username) && author != "" ==> AvatarInitial(user, author) == [author[0]]
    ensures Truthy(user.username) ==> AvatarInitial(user, author) <= DisplayName(user, author, truncateAddress)
  {
  }

  /** The avatar's image: its source and its alt text. */
  datatype AvatarImage = AvatarImage(src: string, alt: string)

  /** An image in the avatar only when the author has a non-empty image. */
  function AvatarImageOf(aggregator: string, post: Post, user: User, truncateAddress: string -> string): (a: Option<AvatarImage>)
    ensures a.Some? <==> Truthy(user.image)
    ensures a.Some? ==> a.value.src == BlobUrl(aggregator, user.image.value)
    ensures a.Some? ==> a.value.alt == DisplayName(user, post.author, truncateAddress)
  {
    if Truthy(user.image)
    then Some(AvatarImage(BlobUrl(aggregator, user.image.value), DisplayName(user, post.author, truncateAddress)))
    else None
  }

  // ----- the card -----

  /** Everything the card shows, and where it links to. */
  datatype CardView = CardView(
    href: string,
    thumbnail: Thumbnail,
    title: string,
    avatarImage: Option<AvatarImage>,
    avatarFallback: string,
    name: string,
    createdAt: string)

  /** `PostCard({ post })` given the author lookup's answer: nothing without a user. */
  function PostCardView(
    aggregator: string, post: Post, user: Option<User>, truncateAddress: string -> string): (r: Option<CardView>)
    ensures r.None? <==> user.None?
  {
    match user
    case None => None
    case Some(u) =>
      Some(CardView(
        "/" + post.id,
        ThumbnailOf(aggregator, post, u),
        TruncateTitle(post.title),
        AvatarImageOf(aggregator, post, u, truncateAddress),
        AvatarInitial(u, post.author),
        DisplayName(u, post.author, truncateAddress),
        post.createdAt))
  }

  /**
   * The author lookup answers null when the address owns no User object, so
   * a card is shown exactly when the author has one; it then links to the
   * route the publish flow navigates to for the same post id.
   */
  lemma CardShownIffAuthorHasUser(
    aggregator: string, post: Post, owned: seq<UserObject>, truncateAddress: string -> string)
    ensures PostCardView(aggregator, post, ShakeClient.FetchUser(owned), truncateAddress).Some? <==> owned != []
    ensures owned != [] ==>
      PostCardView(aggregator, post, ShakeClient.FetchUser(owned), truncateAddress).value.href
        == Cook.PostPath(Some(post.id))
  {
  }

  /**
   * Without a post thumbnail, the top image and the avatar image agree: both
   * show the author's image, or neither shows an image.
   */
  lemma CardImagesAgree(aggregator: string, post: Post, user: User, truncateAddress: string -> string)
    requires !Truthy(post.thumbnailBlobId)
    ensures var card := PostCardView(aggregator, post, Some(user), truncateAddress).value;
      && (card.thumbnail.PlaceholderIcon? <==> card.avatarImage.None?)
      && (card.avatarImage.Some? ==> card.thumbnail == BlobImage(card.avatarImage.value.src))
      && (card.avatarImage.Some? ==> card.thumbnail == BlobImage(BlobUrl(aggregator, user.image.value)))
  {
  }

  /** The card's title and the avatar's alt text are the shortened title and the displayed name. */
  lemma CardTexts(aggregator: string, post: Post, user: User, truncateAddress: string -> string)
    ensures var card := PostCardView(aggregator, post, Some(user), truncateAddress).value;
      && |card.title| <= DefaultTitleLength + |Ellipsis|
      && (card.avatarImage.Some? ==> card.avatarImage.value.alt == card.name)
      && (Truthy(user.username) ==> card.avatarFallback <= card.name)
  {
    TruncateTitleBounds(post.title, DefaultTitleLength);
  }
}
