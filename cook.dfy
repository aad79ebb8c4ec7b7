/**
 * The publish flow of the new-post page: `handleSave` checks the title and
 * then the content, marks the form pending, derives the encryption
 * identifier from the policy object and a fresh 5-byte nonce, asks for
 * threshold encryption, builds and submits the post transaction, and on
 * success clears the pending mark and navigates to the new post.
 *
 * Everything the handler asks of the outside world is an input: the nonce,
 * whether encryption and transaction building return, and how the submitted
 * transaction ends. Each observable step is recorded as an `Effect`, so the
 * order of steps can be stated.
 */
module Cook {
  import opened Common
  import opened Types
  import Hex

  const NonceLength: nat := 5
  const EncryptionThreshold: nat := 2
  const TitleRequiredMessage: string := "タイトルを入力してください"
  const ContentRequiredMessage: string := "本文を入力してください"
  const Chain: string := "sui:testnet"

  /** The deployment constants: the package id and the bytes of the payment-policy object. */
  datatype Config = Config(packageId: string, policyObject: seq<byte>)

  // ----- the encryption identifier -----

  /** The identifier under which the content is encrypted: hex of the policy bytes followed by the nonce. */
  function EncryptionId(policyObject: seq<byte>, nonce: seq<byte>): (id: string)
    ensures |id| == 2 * (|policyObject| + |nonce|)
  {
    Hex.ToHex(policyObject + nonce)
  }

  /**
   * The identifier encodes |policy| + 5 bytes in twice as many digits, starts
   * with the encoding of the policy object, and decodes back to the policy
   * bytes followed by the nonce.
   */
  lemma EncryptionIdShape(policyObject: seq<byte>, nonce: seq<byte>)
    requires |nonce| == NonceLength
    ensures |policyObject + nonce| == |policyObject| + NonceLength
    ensures |EncryptionId(policyObject, nonce)| == 2 * (|policyObject| + NonceLength)
    ensures Hex.ToHex(policyObject) <= EncryptionId(policyObject, nonce)
    ensures Hex.FromHex(EncryptionId(policyObject, nonce)) == Some(policyObject + nonce)
  {
    Hex.ToHexAppend(policyObject, nonce);
    Hex.FromHexToHex(policyObject + nonce);
  }

  /** Different nonces under the same policy object give different identifiers. */
  lemma EncryptionIdUnique(policyObject: seq<byte>, nonce1: seq<byte>, nonce2: seq<byte>)
    requires nonce1 != nonce2
    ensures EncryptionId(policyObject, nonce1) != EncryptionId(policyObject, nonce2)
  {
    assert policyObject + nonce1 != policyObject + nonce2 by {
      assert (policyObject + nonce1)[|policyObject|..] == nonce1;
      assert (policyObject + nonce2)[|policyObject|..] == nonce2;
    }
    Hex.FromHexToHex(policyObject + nonce1);
    Hex.FromHexToHex(policyObject + nonce2);
  }

  // ----- the new post's id -----

  datatype ChangeKind = Created | Mutated | Transferred | Deleted | Wrapped | Published

  /** One entry of a transaction's object changes. */
  datatype ObjectChange = ObjectChange(kind: ChangeKind, objectType: string, objectId: string)

  /** The Move type of a post: `<package>::blog::Post`. */
  function PostType(packageId: string): string
  {
    packageId + "::blog::Post"
  }

  predicate IsCreatedPost(change: ObjectChange, packageId: string)
  {
    change.kind == Created && change.objectType == PostType(packageId)
  }

  /** `changes.find(...)?.objectId`: the id of the first created post. */
  function FindCreatedPost(changes: seq<ObjectChange>, packageId: string): (r: Option<string>)
    ensures r.Some? ==> exists i | 0 <= i < |changes| ::
      IsCreatedPost(changes[i], packageId) && changes[i].objectId == r.value
  {
    if changes == [] then None
    else if IsCreatedPost(changes[0], packageId) then Some(changes[0].objectId)
    else FindCreatedPost(changes[1..], packageId)
  }

  /** `result.objectChanges?.find(...)?.objectId`: also undefined when the list itself is missing. */
  function CreatedPostId(changes: Option<seq<ObjectChange>>, packageId: string): (r: Option<string>)
    ensures changes.None? ==> r.None?
  {
    if changes.Some? then FindCreatedPost(changes.value, packageId) else None
  }

  /** There is no post id exactly when no change is a created post. */
  lemma {:induction false} FindCreatedPostAbsent(changes: seq<ObjectChange>, packageId: string)
    ensures FindCreatedPost(changes, packageId).None?
        <==> forall i | 0 <= i < |changes| :: !IsCreatedPost(changes[i], packageId)
  {
    if changes != [] && !IsCreatedPost(changes[0], packageId) {
      var rest := changes[1..];
      FindCreatedPostAbsent(rest, packageId);
      if !forall i | 0 <= i < |rest| :: !IsCreatedPost(rest[i], packageId) {
        var i :| 0 <= i < |rest| && IsCreatedPost(rest[i], packageId);
        assert IsCreatedPost(changes[i + 1], packageId);
      }
    }
  }

  /** The post id is that of the first created post; later matches are ignored. */
  lemma {:induction false} FindCreatedPostFirst(changes: seq<ObjectChange>, packageId: string, i: nat)
    requires i < |changes| && IsCreatedPost(changes[i], packageId)
    requires forall j | 0 <= j < i :: !IsCreatedPost(changes[j], packageId)
    ensures FindCreatedPost(changes, packageId) == Some(changes[i].objectId)
  {
    if i > 0 {
      assert forall j | 0 <= j < i - 1 :: changes[1..][j] == changes[j + 1];
      FindCreatedPostFirst(changes[1..], packageId, i - 1);
    }
  }

  /** The route navigated to: `/${postId}`, which reads `/undefined` without an id. */
  function PostPath(postId: Option<string>): string
  {
    "/" + if postId.Some? then postId.value else "undefined"
  }

  // ----- the handler -----

  /** How the submitted transaction ends: the success callback with the object changes, or the error callback. */
  datatype Execution = Executed(objectChanges: Option<seq<ObjectChange>>) | ExecutionFailed

  /**
   * What the outside world answers during one save: the random nonce, the
   * ciphertext (None when encryption throws), whether building the
   * transaction returns, and how execution ends.
   */
  datatype SaveEnvironment = SaveEnvironment(
    nonce: seq<byte>,
    ciphertext: Option<seq<byte>>,
    transactionBuilt: bool,
    execution: Execution)

  /** An observable step of the handler. */
  datatype Effect =
    | Alert(message: string)
    | SetPending(value: bool)
    | DrawNonce(length: nat)
    | Encrypt(threshold: nat, packageId: string, id: string, plaintext: string)
    | BuildPostTransaction(userId: string, title: string, ciphertext: seq<byte>)
    | SignAndExecute(chain: string)
    | Navigate(path: string)

  /** The steps after the transaction was submitted. */
  function AfterExecution(config: Config, execution: Execution): seq<Effect>
  {
    match execution
    case ExecutionFailed => []
    case Executed(changes) => [SetPending(false), Navigate(PostPath(CreatedPostId(changes, config.packageId)))]
  }

  /** The steps after encryption was requested. */
  function AfterEncryption(user: User, config: Config, title: string, env: SaveEnvironment): seq<Effect>
  {
    match env.ciphertext
    case None => []
    case Some(ciphertext) =>
      [BuildPostTransaction(user.id, title, ciphertext)]
      + if env.transactionBuilt then [SignAndExecute(Chain)] + AfterExecution(config, env.execution) else []
  }

  /** The steps once both inputs passed their checks: mark pending, draw the nonce, ask for encryption, go on. */
  function ProceedEffects(user: User, config: Config, title: string, content: string, env: SaveEnvironment): (r: seq<Effect>)
    ensures 3 <= |r| <= 7
    ensures r[0] == SetPending(true) && r[1] == DrawNonce(|env.nonce|) && r[2].Encrypt?
    ensures |r| > 3 <==> env.ciphertext.Some?
  {
    [ SetPending(true),
      DrawNonce(|env.nonce|),
      Encrypt(EncryptionThreshold, config.packageId, EncryptionId(config.policyObject, env.nonce), content) ]
    + AfterEncryption(user, config, title, env)
  }

  /** All the steps of one call of the handler, in order. */
  function SaveEffects(user: User, config: Config, title: string, content: string, env: SaveEnvironment): (r: seq<Effect>)
    ensures r != []
    ensures r[0].Alert? <==> IsBlank(title) || IsBlank(content)
    ensures r[0].Alert? ==> |r| == 1
  {
    if IsBlank(title) then [Alert(TitleRequiredMessage)]
    else if IsBlank(content) then [Alert(ContentRequiredMessage)]
    else ProceedEffects(user, config, title, content, env)
  }

  /** The pending flag after a sequence of steps: the last `SetPending` wins. */
  function PendingAfter(pending: bool, effects: seq<Effect>): bool
  {
    if effects == [] then pending
    else if effects[|effects| - 1].SetPending? then effects[|effects| - 1].value
    else PendingAfter(pending, effects[..|effects| - 1])
  }

  lemma {:induction false} PendingAfterAppend(pending: bool, a: seq<Effect>, b: seq<Effect>)
    ensures PendingAfter(pending, a + b) == PendingAfter(PendingAfter(pending, a), b)
    decreases |b|
  {
    if b == [] {
      assert a + b == a;
    } else {
      var n := |b| - 1;
      assert (a + b)[..|a + b| - 1] == a + b[..n];
      assert (a + b)[|a + b| - 1] == b[n];
      PendingAfterAppend(pending, a, b[..n]);
    }
  }

  /** An alert leaves the flag as it was. */
  lemma PendingAfterAlert(pending: bool, message: string)
    ensures PendingAfter(pending, [Alert(message)]) == pending
  {
    assert [Alert(message)][..0] == [];
  }

  /** A whitespace-only title stops the handler at once, whatever the content: one alert, nothing else. */
  lemma BlankTitleStops(user: User, config: Config, title: string, content: string, env: SaveEnvironment, pending: bool)
    requires AllWhitespace(title)
    ensures SaveEffects(user, config, title, content, env) == [Alert(TitleRequiredMessage)]
    ensures PendingAfter(pending, SaveEffects(user, config, title, content, env)) == pending
  {
    BlankIffAllWhitespace(title);
    assert IsBlank(title);
    PendingAfterAlert(pending, TitleRequiredMessage);
  }

  /** The content is checked only after the title passes; a whitespace-only content also stops at once. */
  lemma BlankContentStops(user: User, config: Config, title: string, content: string, env: SaveEnvironment, pending: bool)
    requires !AllWhitespace(title) && AllWhitespace(content)
    ensures SaveEffects(user, config, title, content, env) == [Alert(ContentRequiredMessage)]
    ensures PendingAfter(pending, SaveEffects(user, config, title, content, env)) == pending
  {
    BlankIffAllWhitespace(title);
    BlankIffAllWhitespace(content);
    assert !IsBlank(title) && IsBlank(content);
    PendingAfterAlert(pending, ContentRequiredMessage);
  }

  /** After encryption was requested there is no further alert and no further encryption. */
  lemma AfterEncryptionSteps(user: User, config: Config, title: string, env: SaveEnvironment)
    ensures forall e | e in AfterEncryption(user, config, title, env) :: !e.Encrypt? && !e.Alert?
  {
  }

  /** With a title and a content, the handler goes past both checks. */
  lemma SaveProceeds(user: User, config: Config, title: string, content: string, env: SaveEnvironment)
    requires !AllWhitespace(title) && !AllWhitespace(content)
    ensures SaveEffects(user, config, title, content, env) == ProceedEffects(user, config, title, content, env)
  {
    BlankIffAllWhitespace(title);
    BlankIffAllWhitespace(content);
  }

  /**
   * With a title and a content, the form is marked pending before anything
   * else, and then exactly one encryption is requested: threshold 2, the
   * package id, and the identifier derived from the policy object and nonce.
   */
  lemma SaveEncryptsOnce(user: User, config: Config, title: string, content: string, env: SaveEnvironment)
    requires !AllWhitespace(title) && !AllWhitespace(content)
    ensures var e := SaveEffects(user, config, title, content, env);
      && |e| >= 3
      && e[0] == SetPending(true)
      && e[2] == Encrypt(2, config.packageId, EncryptionId(config.policyObject, env.nonce), content)
      && forall i | 0 <= i < |e| && i != 2 :: !e[i].Encrypt? && !e[i].Alert?
  {
    SaveProceeds(user, config, title, content, env);
    ProceedEncryptsOnce(user, config, title, content, env);
  }

  /** Past the checks, the only encryption request is the third step and no step is an alert. */
  lemma ProceedEncryptsOnce(user: User, config: Config, title: string, content: string, env: SaveEnvironment)
    ensures var e := ProceedEffects(user, config, title, content, env);
      && e[2] == Encrypt(2, config.packageId, EncryptionId(config.policyObject, env.nonce), content)
      && forall i | 0 <= i < |e| && i != 2 :: !e[i].Encrypt? && !e[i].Alert?
  {
    var tail := AfterEncryption(user, config, title, env);
    AfterEncryptionSteps(user, config, title, env);
    var e := ProceedEffects(user, config, title, content, env);
    forall i | 3 <= i < |e|
      ensures !e[i].Encrypt? && !e[i].Alert?
    {
      assert e[i] == tail[i - 3];
    }
  }

  /** Past the checks, the flag is set first and cleared only by the success callback. */
  lemma ProceedPending(user: User, config: Config, title: string, content: string, env: SaveEnvironment, pending: bool)
    ensures PendingAfter(pending, ProceedEffects(user, config, title, content, env))
        == !(env.ciphertext.Some? && env.transactionBuilt && env.execution.Executed?)
  {
    var head := [SetPending(true), DrawNonce(|env.nonce|),
      Encrypt(EncryptionThreshold, config.packageId, EncryptionId(config.policyObject, env.nonce), content)];
    var tail := AfterEncryption(user, config, title, env);
    PendingAfterAppend(pending, head, tail);
    var marked := [SetPending(true), DrawNonce(|env.nonce|)];
    assert marked[..1] == [SetPending(true)];
    assert PendingAfter(pending, marked) == true;
    assert head[..|head| - 1] == marked;
    assert PendingAfter(pending, head) == true;
    if env.ciphertext.Some? {
      var build := [BuildPostTransaction(user.id, title, env.ciphertext.value)];
      assert PendingAfter(true, build) == true by { assert build[..0] == []; }
      if env.transactionBuilt {
        var front := build + [SignAndExecute(Chain)];
        var rest := AfterExecution(config, env.execution);
        assert tail == front + rest;
        PendingAfterAppend(true, front, rest);
        assert front[..1] == build;
        if env.execution.Executed? {
          assert rest[..1] == [SetPending(false)];
        }
      }
    }
  }

  /**
   * With a title and a content, the pending flag ends false exactly when the
   * success callback ran; a thrown error or the error callback leave it true.
   */
  lemma PendingClearedOnlyOnSuccess(
    user: User, config: Config, title: string, content: string, env: SaveEnvironment, pending: bool)
    requires !AllWhitespace(title) && !AllWhitespace(content)
    ensures PendingAfter(pending, SaveEffects(user, config, title, content, env))
        == !(env.ciphertext.Some? && env.transactionBuilt && env.execution.Executed?)
  {
    SaveProceeds(user, config, title, content, env);
    ProceedPending(user, config, title, content, env, pending);
  }

  /**
   * Appending the steps of a save that passed both checks to a log whose flag
   * is `pending` leaves the flag as the success callback decides.
   */
  lemma SaveAfterChecks(
    user: User, config: Config, title: string, content: string, env: SaveEnvironment,
    log: seq<Effect>, pending: bool)
    requires !IsBlank(title) && !IsBlank(content)
    requires pending == PendingAfter(false, log)
    ensures SaveEffects(user, config, title, content, env) == ProceedEffects(user, config, title, content, env)
    ensures PendingAfter(false, log + ProceedEffects(user, config, title, content, env))
         == PendingAfter(pending, ProceedEffects(user, config, title, content, env))
         == !(env.ciphertext.Some? && env.transactionBuilt && env.execution.Executed?)
  {
    PendingAfterAppend(false, log, ProceedEffects(user, config, title, content, env));
    ProceedPending(user, config, title, content, env, pending);
  }

  /** The form's state: the pending flag and the steps taken so far. */
  class CreatePostForm {
    const user: User
    const config: Config
    var pending: bool
    var effects: seq<Effect>

    /** The flag always agrees with the steps taken since the form was created. */
    ghost predicate Valid()
      reads this
    {
      pending == PendingAfter(false, effects)
    }

    constructor (user: User, config: Config)
      ensures Valid()
      ensures this.user == user && this.config == config
      ensures !pending && effects == []
    {
      this.user := user;
      this.config := config;
      pending := false;
      effects := [];
    }

    /** `handleSave(title, content)`. */
    method HandleSave(title: string, content: string, env: SaveEnvironment)
      requires Valid()
      requires |env.nonce| == NonceLength
      modifies this
      ensures Valid()
      ensures effects == old(effects) + SaveEffects(user, config, title, content, env)
      ensures pending == PendingAfter(old(pending), SaveEffects(user, config, title, content, env))
    {
      ghost var before := effects;
      if IsBlank(title) {
        effects := effects + [Alert(TitleRequiredMessage)];
        PendingAfterAppend(false, before, [Alert(TitleRequiredMessage)]);
        return;
      }
      if IsBlank(content) {
        effects := effects + [Alert(ContentRequiredMessage)];
        PendingAfterAppend(false, before, [Alert(ContentRequiredMessage)]);
        return;
      }
      Publish(title, content, env);
      SaveAfterChecks(user, config, title, content, env, before, old(pending));
    }

    /** The part of `handleSave` after both checks passed: encrypt, submit, and on success leave. */
    method Publish(title: string, content: string, env: SaveEnvironment)
      requires Valid()
      modifies this
      ensures Valid()
      ensures effects == old(effects) + ProceedEffects(user, config, title, content, env)
      ensures pending == !(env.ciphertext.Some? && env.transactionBuilt && env.execution.Executed?)
    {
      ghost var steps := ProceedEffects(user, config, title, content, env);
      ghost var before, p0 := effects, pending;
      var log: seq<Effect> := [];
      pending := true;
      log := log + [SetPending(true)];
      var nonce := env.nonce;
      log := log + [DrawNonce(|nonce|)];
      var id := EncryptionId(config.policyObject, nonce);
      log := log + [Encrypt(EncryptionThreshold, config.packageId, id, content)];
      assert log == steps[..3];
      ghost var marked := log;
      if env.ciphertext.Some? {
        var encryptedBytes := env.ciphertext.value;
        log := log + [BuildPostTransaction(user.id, title, encryptedBytes)];
        if env.transactionBuilt {
          log := log + [SignAndExecute(Chain)];
          match env.execution {
            case ExecutionFailed =>
            case Executed(changes) =>
              var postId := CreatedPostId(changes, config.packageId);
              pending := false;
              log := log + [SetPending(false)];
              log := log + [Navigate(PostPath(postId))];
          }
        }
      }
      assert log == marked + steps[3..];
      assert steps[..3] + steps[3..] == steps;
      effects := effects + log;
      PendingAfterAppend(false, before, steps);
      ProceedPending(user, config, title, content, env, p0);
    }
  }
}
