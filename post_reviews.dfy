/**
 * `fetchPostReviews`: rebuild the reviews of a post from one batched read of
 * its review objects, resolving every distinct reviewer once, folding each
 * review's vote-count map into two tallies and finding the viewer's own vote.
 *
 * The batched read and the per-address user reads are inputs. The loops of
 * the source stay loops: the author loop, the tally loop and the vote scan
 * are methods, each proved against a function that states what it computes.
 */
module PostReviews {
  import opened Common
  import opened Types
  import ShakeClient

  const AnonymousName: string := "匿名ユーザー"
  const UnknownAddress: string := "unknown"

  /** The answer of the batched read: one decoded answer per review id, or a failed read. */
  datatype BatchRead = Fetched(objects: seq<ReviewObject>) | ReadFailed

  /** The read behind `fetchUser(addr)`: the User objects `addr` owns, or None when the read fails. */
  type OwnedUsers = string -> Option<seq<UserObject>>

  // ----- reviewer addresses -----

  /** An address worth resolving: non-empty and not the unknown-owner marker. */
  predicate IsResolvable(addr: string)
  {
    addr != "" && addr != UnknownAddress
  }

  /** The reviewer of one answer, when it is an address worth resolving. */
  function ReviewerOf(o: ReviewObject): (r: Option<string>)
    ensures r.Some? <==> o.Some? && o.value.reviewer.Some? && IsResolvable(o.value.reviewer.value)
    ensures r.Some? ==> r == o.value.reviewer
  {
    if o.Some? && o.value.reviewer.Some? && IsResolvable(o.value.reviewer.value) then o.value.reviewer else None
  }

  /** The resolvable reviewer addresses of all answers, in the order of the answers. */
  function ReviewerAddresses(objs: seq<ReviewObject>): (r: seq<string>)
    ensures |r| <= |objs|
    ensures forall a | a in r :: IsResolvable(a)
  {
    if objs == [] then []
    else
      var n := |objs| - 1;
      ReviewerAddresses(objs[..n]) + (if ReviewerOf(objs[n]).Some? then [ReviewerOf(objs[n]).value] else [])
  }

  /** An address is collected exactly when some answer names it as a resolvable reviewer. */
  lemma {:induction false} ReviewerAddressesSpec(objs: seq<ReviewObject>, a: string)
    ensures a in ReviewerAddresses(objs) <==> exists i | 0 <= i < |objs| :: ReviewerOf(objs[i]) == Some(a)
  {
    if objs != [] {
      var n := |objs| - 1;
      ReviewerAddressesSpec(objs[..n], a);
      if exists i | 0 <= i < |objs| :: ReviewerOf(objs[i]) == Some(a) {
        var i :| 0 <= i < |objs| && ReviewerOf(objs[i]) == Some(a);
        if i < n {
          assert objs[..n][i] == objs[i];
        }
      }
      if exists i | 0 <= i < n :: ReviewerOf(objs[..n][i]) == Some(a) {
        var i :| 0 <= i < n && ReviewerOf(objs[..n][i]) == Some(a);
        assert objs[i] == objs[..n][i];
      }
    }
  }

  predicate NoDuplicates(s: seq<string>)
  {
    forall i, j | 0 <= i < j < |s| :: s[i] != s[j]
  }

  /** The position of the first occurrence of `x` in `s`. */
  function FirstIndex(s: seq<string>, x: string): (k: nat)
    requires x in s
    ensures k < |s| && s[k] == x && x !in s[..k]
  {
    if s[0] == x then 0
    else
      assert x in s[1..];
      var k := 1 + FirstIndex(s[1..], x);
      assert s[..k] == [s[0]] + s[1..][..k - 1];
      k
  }

  /** An element of a prefix first occurs in the whole sequence where it first occurs in the prefix. */
  lemma FirstIndexPrefix(s: seq<string>, n: nat, x: string)
    requires n <= |s| && x in s[..n]
    ensures FirstIndex(s, x) == FirstIndex(s[..n], x)
  {
    var k, k' := FirstIndex(s, x), FirstIndex(s[..n], x);
    assert s[..n][k'] == s[k'];
  }

  /** `[...new Set(s)]`: each element once, at the place of its first occurrence. */
  function Unique(s: seq<string>): (r: seq<string>)
    ensures NoDuplicates(r)
    ensures forall x :: x in r <==> x in s
  {
    if s == [] then []
    else
      var n := |s| - 1;
      var d := Unique(s[..n]);
      assert forall x :: x in s <==> x in s[..n] || x == s[n];
      if s[n] in d then d else d + [s[n]]
  }

  /** The elements of `Unique(s)` stand in the order of their first occurrences in `s`. */
  lemma {:induction false} UniqueKeepsFirstOccurrenceOrder(s: seq<string>)
    ensures forall i, j | 0 <= i < j < |Unique(s)| :: FirstIndex(s, Unique(s)[i]) < FirstIndex(s, Unique(s)[j])
  {
    if s != [] {
      var n := |s| - 1;
      var d := Unique(s[..n]);
      UniqueKeepsFirstOccurrenceOrder(s[..n]);
      forall x | x in d
        ensures FirstIndex(s, x) == FirstIndex(s[..n], x) < n
      {
        FirstIndexPrefix(s, n, x);
      }
      if s[n] !in d {
        var k := FirstIndex(s, s[n]);
        var r := d + [s[n]];
        assert r == Unique(s);
        forall i, j | 0 <= i < j < |r|
          ensures FirstIndex(s, r[i]) < FirstIndex(s, r[j])
        {
          assert r[i] == d[i];
          if j < |d| {
            assert r[j] == d[j];
          }
        }
      }
    }
  }

  // ----- author resolution -----

  /** What `fetchUser(addr)` yields when its read succeeds. */
  function ResolvedUser(ownedUsers: OwnedUsers, addr: string): Option<User>
  {
    match ownedUsers(addr)
    case None => None
    case Some(owned) => ShakeClient.FetchUser(owned)
  }

  /** The index of the first address whose read fails, or the length when none does. */
  function FirstFailure(addrs: seq<string>, ownedUsers: OwnedUsers): (k: nat)
    ensures k <= |addrs|
    ensures forall j | 0 <= j < k :: ownedUsers(addrs[j]).Some?
    ensures k < |addrs| ==> ownedUsers(addrs[k]).None?
  {
    if addrs == [] || ownedUsers(addrs[0]).None? then 0 else 1 + FirstFailure(addrs[1..], ownedUsers)
  }

  /** The addresses looked up, in order: all of them, or up to and including the first failure. */
  function Attempted(addrs: seq<string>, ownedUsers: OwnedUsers): seq<string>
  {
    var k := FirstFailure(addrs, ownedUsers);
    if k < |addrs| then addrs[..k + 1] else addrs
  }

  /** The author map after resolving `addrs` in order. */
  function AuthorMap(addrs: seq<string>, ownedUsers: OwnedUsers): (m: map<string, Option<User>>)
    ensures forall a | a in m :: a in addrs
  {
    if addrs == [] then map[]
    else
      var n := |addrs| - 1;
      AuthorMap(addrs[..n], ownedUsers)[addrs[n] := ResolvedUser(ownedUsers, addrs[n])]
  }

  /** The map's keys are exactly the resolved addresses, each mapped to what its lookup answered. */
  lemma {:induction false} AuthorMapSpec(addrs: seq<string>, ownedUsers: OwnedUsers)
    ensures forall a :: a in AuthorMap(addrs, ownedUsers) <==> a in addrs
    ensures forall a | a in AuthorMap(addrs, ownedUsers) :: AuthorMap(addrs, ownedUsers)[a] == ResolvedUser(ownedUsers, a)
  {
    if addrs != [] {
      var n := |addrs| - 1;
      AuthorMapSpec(addrs[..n], ownedUsers);
      assert forall a :: a in addrs <==> a in addrs[..n] || a == addrs[n];
    }
  }

  /**
   * The author loop: look up each address in turn and record the answer. A
   * failed read ends the loop (the error propagates to the caller).
   */
  method ResolveAuthors(addrs: seq<string>, ownedUsers: OwnedUsers)
    returns (authors: map<string, Option<User>>, lookups: seq<string>, ok: bool)
    ensures lookups == Attempted(addrs, ownedUsers)
    ensures ok <==> FirstFailure(addrs, ownedUsers) == |addrs|
    ensures ok ==> authors == AuthorMap(addrs, ownedUsers)
  {
    ghost var k := FirstFailure(addrs, ownedUsers);
    authors, lookups, ok := map[], [], true;
    var i := 0;
    while i < |addrs|
      invariant 0 <= i <= k
      invariant lookups == addrs[..i]
      invariant authors == AuthorMap(addrs[..i], ownedUsers)
    {
      var addr := addrs[i];
      lookups := lookups + [addr];
      var owned := ownedUsers(addr);
      if owned.None? {
        assert i == k;
        assert lookups == addrs[..k + 1];
        ok := false;
        return;
      }
      authors := authors[addr := ShakeClient.FetchUser(owned.value)];
      AuthorMapStep(addrs, i, ownedUsers);
      assert addrs[..i + 1] == addrs[..i] + [addr];
      i := i + 1;
    }
    assert addrs[..i] == addrs;
  }

  /** One more address in the loop adds one entry to the map. */
  lemma AuthorMapStep(addrs: seq<string>, i: nat, ownedUsers: OwnedUsers)
    requires i < |addrs| && ownedUsers(addrs[i]).Some?
    ensures AuthorMap(addrs[..i + 1], ownedUsers)
         == AuthorMap(addrs[..i], ownedUsers)[addrs[i] := ShakeClient.FetchUser(ownedUsers(addrs[i]).value)]
  {
    assert addrs[..i + 1][..i] == addrs[..i];
  }

  // ----- vote tallies -----

  /** Entry `i` of a vote-count map is present and carries `tag`. */
  predicate TaggedAt(entries: seq<Option<CountFields>>, i: int, tag: VoteTag)
    requires 0 <= i < |entries|
  {
    entries[i].Some? && DecodeTag(entries[i].value.key) == tag
  }

  /** The count that folding `entries` leaves for `tag`: each tagged entry overwrites the last. */
  function TagCount(entries: seq<Option<CountFields>>, tag: VoteTag): (r: nat)
    ensures r == 0 || exists i | 0 <= i < |entries| :: TaggedAt(entries, i, tag) && entries[i].value.value == r
  {
    if entries == [] then 0
    else
      var n := |entries| - 1;
      if TaggedAt(entries, n, tag) then entries[n].value.value else TagCount(entries[..n], tag)
  }

  /** The count for `tag` of a review whose vote-count map may be missing. */
  function Tally(counts: Option<seq<Option<CountFields>>>, tag: VoteTag): nat
  {
    if counts.Some? then TagCount(counts.value, tag) else 0
  }

  /** No entry carries the tag: its count is 0. */
  lemma {:induction false} TagCountAbsent(entries: seq<Option<CountFields>>, tag: VoteTag)
    requires forall i | 0 <= i < |entries| :: !TaggedAt(entries, i, tag)
    ensures TagCount(entries, tag) == 0
  {
    if entries != [] {
      var n := |entries| - 1;
      assert forall i | 0 <= i < n :: TaggedAt(entries[..n], i, tag) == TaggedAt(entries, i, tag);
      TagCountAbsent(entries[..n], tag);
    }
  }

  /** Entry `i` is the last that carries the tag: the count is its value. */
  lemma {:induction false} TagCountLast(entries: seq<Option<CountFields>>, tag: VoteTag, i: nat)
    requires i < |entries| && TaggedAt(entries, i, tag)
    requires forall j | i < j < |entries| :: !TaggedAt(entries, j, tag)
    ensures TagCount(entries, tag) == entries[i].value.value
  {
    var n := |entries| - 1;
    if i < n {
      assert forall j | i < j < n :: TaggedAt(entries[..n], j, tag) == TaggedAt(entries, j, tag);
      assert TaggedAt(entries[..n], i, tag);
      TagCountLast(entries[..n], tag, i);
    }
  }

  /** An entry that is missing or carries another tag changes nothing, wherever it stands. */
  lemma {:induction false} TagCountSkips(
    before: seq<Option<CountFields>>, x: Option<CountFields>, after: seq<Option<CountFields>>, tag: VoteTag)
    requires !(x.Some? && DecodeTag(x.value.key) == tag)
    ensures TagCount(before + [x] + after, tag) == TagCount(before + after, tag)
    decreases |after|
  {
    var s, t := before + [x] + after, before + after;
    if after == [] {
      assert s[..|s| - 1] == before && t == before;
    } else {
      var m := |after| - 1;
      var s', t' := s[..|s| - 1], t[..|t| - 1];
      assert s[|s| - 1] == after[m] && t[|t| - 1] == after[m];
      assert s' == before + [x] + after[..m];
      assert t' == before + after[..m];
      TagCountSkips(before, x, after[..m], tag);
      assert TagCount(s, tag) == if TaggedAt(s, |s| - 1, tag) then after[m].value.value else TagCount(s', tag);
      assert TagCount(t, tag) == if TaggedAt(t, |t| - 1, tag) then after[m].value.value else TagCount(t', tag);
    }
  }

  /** The tally loop: both counts in one pass over the vote-count map. */
  method TallyVotes(counts: Option<seq<Option<CountFields>>>) returns (helpful: nat, notHelpful: nat)
    ensures helpful == Tally(counts, Helpful)
    ensures notHelpful == Tally(counts, NotHelpful)
  {
    helpful, notHelpful := 0, 0;
    if counts.Some? {
      var entries := counts.value;
      for i := 0 to |entries|
        invariant helpful == TagCount(entries[..i], Helpful)
        invariant notHelpful == TagCount(entries[..i], NotHelpful)
      {
        assert entries[..i + 1][..i] == entries[..i];
        var item := entries[i];
        if item.Some? {
          var key := item.value.key;
          if key == "Helpful" {
            helpful := item.value.value;
          } else if key == "NotHelpful" {
            notHelpful := item.value.value;
          }
        }
      }
      assert entries[..|entries|] == entries;
    }
  }

  // ----- the viewer's own vote -----

  /** Entry `i` of a per-voter map is present and keyed by `voter`. */
  predicate VotedAt(entries: seq<Option<VoterFields>>, i: int, voter: string)
    requires 0 <= i < |entries|
  {
    entries[i].Some? && entries[i].value.key == voter
  }

  /** The vote of the first entry keyed by `voter`, if any. */
  function FirstVote(entries: seq<Option<VoterFields>>, voter: string): (r: Option<VoteTag>)
    ensures r.Some? ==> exists i | 0 <= i < |entries| ::
      VotedAt(entries, i, voter) && r.value == DecodeTag(entries[i].value.value)
  {
    if entries == [] then None
    else if VotedAt(entries, 0, voter) then Some(DecodeTag(entries[0].value.value))
    else FirstVote(entries[1..], voter)
  }

  /** There is no vote exactly when no entry is keyed by the voter. */
  lemma {:induction false} FirstVoteAbsent(entries: seq<Option<VoterFields>>, voter: string)
    ensures FirstVote(entries, voter).None? <==> forall i | 0 <= i < |entries| :: !VotedAt(entries, i, voter)
  {
    if entries != [] && !VotedAt(entries, 0, voter) {
      var rest := entries[1..];
      FirstVoteAbsent(rest, voter);
      if forall i | 0 <= i < |rest| :: !VotedAt(rest, i, voter) {
        forall i | 0 <= i < |entries|
          ensures !VotedAt(entries, i, voter)
        {
          if i > 0 {
            assert !VotedAt(rest, i - 1, voter);
          }
        }
      } else {
        var i :| 0 <= i < |rest| && VotedAt(rest, i, voter);
        assert VotedAt(entries, i + 1, voter);
      }
    }
  }

  /** The vote is that of the first entry keyed by the voter; later entries are ignored. */
  lemma {:induction false} FirstVoteFirst(entries: seq<Option<VoterFields>>, voter: string, i: nat)
    requires i < |entries| && VotedAt(entries, i, voter)
    requires forall j | 0 <= j < i :: !VotedAt(entries, j, voter)
    ensures FirstVote(entries, voter) == Some(DecodeTag(entries[i].value.value))
  {
    if i > 0 {
      assert forall j | 0 <= j < i - 1 :: VotedAt(entries[1..], j, voter) == VotedAt(entries, j + 1, voter);
      FirstVoteFirst(entries[1..], voter, i - 1);
    }
  }

  /** Voters are unique keys of the map. */
  predicate UniqueVoters(entries: seq<Option<VoterFields>>)
  {
    forall i, j | 0 <= i < j < |entries| && entries[i].Some? && entries[j].Some? :: entries[i].value.key != entries[j].value.key
  }

  /** With unique voter keys the scan is a keyed lookup: whichever entry holds the voter, its vote is found. */
  lemma FirstVoteIsLookup(entries: seq<Option<VoterFields>>, voter: string, i: nat)
    requires UniqueVoters(entries)
    requires i < |entries| && VotedAt(entries, i, voter)
    ensures FirstVote(entries, voter) == Some(DecodeTag(entries[i].value.value))
  {
    FirstVoteFirst(entries, voter, i);
  }

  /** The vote scan: stop at the first entry keyed by the viewer. */
  method FindViewerVote(entries: seq<Option<VoterFields>>, viewer: string) returns (vote: Option<VoteTag>)
    ensures vote == FirstVote(entries, viewer)
  {
    vote := None;
    var i := 0;
    while i < |entries|
      invariant 0 <= i <= |entries|
      invariant FirstVote(entries[i..], viewer) == FirstVote(entries, viewer)
    {
      var item := entries[i];
      if item.Some? && item.value.key == viewer {
        vote := Some(DecodeTag(item.value.value));
        break;
      }
      assert entries[i..][1..] == entries[i + 1..];
      i := i + 1;
    }
  }

  // ----- one review -----

  /** An answer becomes a review: it has fields, an id, a content and a reviewer other than `'unknown'`. */
  predicate IsWellFormed(o: ReviewObject)
    ensures IsWellFormed(o) ==> o.Some? && ReviewerOf(o) == o.value.reviewer
  {
    o.Some? && o.value.id.Some? && Truthy(o.value.content) && Truthy(o.value.reviewer)
    && o.value.reviewer.value != UnknownAddress
  }

  /** The viewer's vote: only looked for when a viewer is given and the per-voter map is present. */
  function ViewerVote(f: ReviewFields, viewer: Option<string>): (r: Option<VoteTag>)
    ensures r.Some? ==> Truthy(viewer) && f.votes.Some?
  {
    if Truthy(viewer) && f.votes.Some? then FirstVote(f.votes.value, viewer.value) else None
  }

  /** The review built from a well-formed answer. */
  function MakeReview(o: ReviewObject, authors: map<string, Option<User>>, viewer: Option<string>): (r: Review)
    requires IsWellFormed(o)
    ensures r.id == o.value.id.value && r.content == o.value.content.value && r.createdAt == o.value.createdAt
    ensures r.isCurrentUserReview <==> Truthy(viewer) && viewer.value == o.value.reviewer.value
    ensures r.helpfulCount == Tally(o.value.voteCounts, Helpful)
    ensures r.notHelpfulCount == Tally(o.value.voteCounts, NotHelpful)
    ensures r.currentUserVote.Some? ==> Truthy(viewer) && o.value.votes.Some?
    ensures r.currentUserVote == ViewerVote(o.value, viewer)
    ensures var addr := o.value.reviewer.value;
      if addr in authors && authors[addr].Some?
      then r.author == ReviewAuthor(authors[addr].value.username, authors[addr].value.image)
      else r.author == ReviewAuthor(Some(AnonymousName), None)
  {
    var f := o.value;
    var addr := f.reviewer.value;
    var author := if addr in authors then authors[addr] else None;
    Review(
      f.id.value,
      f.content.value,
      ReviewAuthor(
        if author.Some? then author.value.username else Some(AnonymousName),
        if author.Some? then author.value.image else None),
      f.createdAt,
      Tally(f.voteCounts, Helpful),
      Tally(f.voteCounts, NotHelpful),
      Truthy(viewer) && viewer.value == addr,
      ViewerVote(f, viewer))
  }

  /** Whose review it is depends on the reviewer alone, never on who voted. */
  lemma OwnReviewIgnoresVotes(
    f: ReviewFields, votes: Option<seq<Option<VoterFields>>>,
    authors: map<string, Option<User>>, viewer: Option<string>)
    requires IsWellFormed(Some(f))
    ensures MakeReview(Some(f.(votes := votes)), authors, viewer).isCurrentUserReview
         == MakeReview(Some(f), authors, viewer).isCurrentUserReview
  {
  }

  /** One iteration of the mapping: the review of a well-formed answer, nothing otherwise. */
  method BuildReview(o: ReviewObject, authors: map<string, Option<User>>, viewer: Option<string>)
    returns (r: Option<Review>)
    ensures r.Some? <==> IsWellFormed(o)
    ensures r.Some? ==> r.value == MakeReview(o, authors, viewer)
  {
    if !IsWellFormed(o) {
      return None;
    }
    var f := o.value;
    var addr := f.reviewer.value;
    var author := if addr in authors then authors[addr] else None;
    var authorData := ReviewAuthor(
      if author.Some? then author.value.username else Some(AnonymousName),
      if author.Some? then author.value.image else None);
    var isCurrentUserReview := Truthy(viewer) && viewer.value == addr;
    var helpful, notHelpful := TallyVotes(f.voteCounts);
    var vote: Option<VoteTag> := None;
    if Truthy(viewer) && f.votes.Some? {
      vote := FindViewerVote(f.votes.value, viewer.value);
    }
    r := Some(Review(f.id.value, f.content.value, authorData, f.createdAt, helpful, notHelpful, isCurrentUserReview, vote));
  }

  // ----- the whole batch -----

  /** The reviews of the well-formed answers, in the order of the answers. */
  function ReviewsFrom(objs: seq<ReviewObject>, authors: map<string, Option<User>>, viewer: Option<string>): (r: seq<Review>)
    ensures |r| <= |objs|
  {
    if objs == [] then []
    else
      var n := |objs| - 1;
      ReviewsFrom(objs[..n], authors, viewer) + (if IsWellFormed(objs[n]) then [MakeReview(objs[n], authors, viewer)] else [])
  }

  /** The number of answers that are dropped. */
  function MalformedCount(objs: seq<ReviewObject>): nat
  {
    if objs == [] then 0
    else MalformedCount(objs[..|objs| - 1]) + (if IsWellFormed(objs[|objs| - 1]) then 0 else 1)
  }

  /** Exactly the malformed answers are dropped. */
  lemma {:induction false} ReviewsFromCount(objs: seq<ReviewObject>, authors: map<string, Option<User>>, viewer: Option<string>)
    ensures |ReviewsFrom(objs, authors, viewer)| + MalformedCount(objs) == |objs|
  {
    if objs != [] {
      ReviewsFromCount(objs[..|objs| - 1], authors, viewer);
    }
  }

  /** Reviews keep the order of the answers: the reviews of a concatenation are the reviews of each part in turn. */
  lemma {:induction false} ReviewsFromAppend(
    a: seq<ReviewObject>, b: seq<ReviewObject>, authors: map<string, Option<User>>, viewer: Option<string>)
    ensures ReviewsFrom(a + b, authors, viewer) == ReviewsFrom(a, authors, viewer) + ReviewsFrom(b, authors, viewer)
    decreases |b|
  {
    if b == [] {
      assert a + b == a;
    } else {
      var n := |b| - 1;
      assert (a + b)[..|a + b| - 1] == a + b[..n];
      assert (a + b)[|a + b| - 1] == b[n];
      ReviewsFromAppend(a, b[..n], authors, viewer);
    }
  }

  /**
   * `fetchPostReviews`. A failed batch read, or a failed read while resolving
   * the reviewers, yields no reviews. Otherwise each distinct resolvable
   * reviewer is looked up once, in order of first appearance, and the
   * well-formed answers become reviews in their original order. `lookups`
   * lists the addresses passed to `fetchUser`, in call order.
   */
  method FetchPostReviews(batch: BatchRead, viewer: Option<string>, ownedUsers: OwnedUsers)
    returns (reviews: seq<Review>, lookups: seq<string>)
    ensures batch.ReadFailed? ==> reviews == [] && lookups == []
    ensures NoDuplicates(lookups)
    ensures forall a | a in lookups :: IsResolvable(a)
    ensures batch.Fetched? ==>
      var addrs := Unique(ReviewerAddresses(batch.objects));
      && lookups == Attempted(addrs, ownedUsers)
      && reviews == if FirstFailure(addrs, ownedUsers) < |addrs| then []
                    else ReviewsFrom(batch.objects, AuthorMap(addrs, ownedUsers), viewer)
    ensures batch.Fetched? ==> |reviews| <= |batch.objects|
  {
    if batch.ReadFailed? {
      return [], [];
    }
    var objs := batch.objects;
    var addrs := Unique(ReviewerAddresses(objs));
    var authors, ok;
    authors, lookups, ok := ResolveAuthors(addrs, ownedUsers);
    AttemptedIsPrefix(addrs, ownedUsers);
    if !ok {
      return [], lookups;
    }
    reviews := BuildReviews(objs, authors, viewer);
  }

  /** The lookups are a prefix of the addresses, so they inherit their properties. */
  lemma AttemptedIsPrefix(addrs: seq<string>, ownedUsers: OwnedUsers)
    requires NoDuplicates(addrs) && forall a | a in addrs :: IsResolvable(a)
    ensures NoDuplicates(Attempted(addrs, ownedUsers))
    ensures forall a | a in Attempted(addrs, ownedUsers) :: IsResolvable(a)
  {
    var l := Attempted(addrs, ownedUsers);
    assert l <= addrs;
    forall a | a in l
      ensures a in addrs
    {
      var i :| 0 <= i < |l| && l[i] == a;
      assert addrs[i] == a;
    }
  }

  /** `reviewObjects.map(...).filter(r => !!r)`: build each review and keep the present ones. */
  method BuildReviews(objs: seq<ReviewObject>, authors: map<string, Option<User>>, viewer: Option<string>)
    returns (reviews: seq<Review>)
    ensures reviews == ReviewsFrom(objs, authors, viewer)
  {
    reviews := [];
    for i := 0 to |objs|
      invariant reviews == ReviewsFrom(objs[..i], authors, viewer)
    {
      assert objs[..i + 1][..i] == objs[..i];
      var r := BuildReview(objs[i], authors, viewer);
      if r.Some? {
        reviews := reviews + [r.value];
      }
    }
    assert objs[..|objs|] == objs;
  }

  /** The author map holds exactly the distinct resolvable reviewers of the batch. */
  lemma AuthorMapKeys(objs: seq<ReviewObject>, ownedUsers: OwnedUsers, a: string)
    ensures a in AuthorMap(Unique(ReviewerAddresses(objs)), ownedUsers)
        <==> exists i | 0 <= i < |objs| :: ReviewerOf(objs[i]) == Some(a)
  {
    ReviewerAddressesSpec(objs, a);
    AuthorMapSpec(Unique(ReviewerAddresses(objs)), ownedUsers);
  }

  /**
   * Two answers, the viewer `V` wrote the second one and voted on neither; `X`
   * wrote the first and voted on it. Both are kept, in order; only the second
   * is the viewer's; the viewer has no vote on the first.
   */
  lemma TwoReviewScenario(authors: map<string, Option<User>>)
    ensures
      var a := Some(ReviewFields(Some("A"), Some("good"), Some("X"), "1",
        Some([Some(CountFields("Helpful", 3)), Some(CountFields("NotHelpful", 1))]),
        Some([Some(VoterFields("X", "Helpful"))])));
      var b := Some(ReviewFields(Some("B"), Some("fine"), Some("V"), "2",
        Some([Some(CountFields("Helpful", 0)), Some(CountFields("NotHelpful", 0))]),
        Some([])));
      var r := ReviewsFrom([a, b], authors, Some("V"));
      && |r| == 2 && r[0].id == "A" && r[1].id == "B"
      && r[0].helpfulCount == 3 && r[0].notHelpfulCount == 1
      && !r[0].isCurrentUserReview && r[0].currentUserVote.None?
      && r[1].isCurrentUserReview
  {
    var a := Some(ReviewFields(Some("A"), Some("good"), Some("X"), "1",
      Some([Some(CountFields("Helpful", 3)), Some(CountFields("NotHelpful", 1))]),
      Some([Some(VoterFields("X", "Helpful"))])));
    var b := Some(ReviewFields(Some("B"), Some("fine"), Some("V"), "2",
      Some([Some(CountFields("Helpful", 0)), Some(CountFields("NotHelpful", 0))]),
      Some([])));
    ReviewsFromAppend([a], [b], authors, Some("V"));
    assert [a, b][..1] == [a];
  }
}
