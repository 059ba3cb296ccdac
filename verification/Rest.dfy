/** The retry recursion of the REST client (discordgo/restapi.go, request and RequestWithLockedBucket). */
module Rest {
  import opened Outcome
  import opened RateLimit

  /** What one attempt meets after the request could be built. */
  datatype Reply =
    | TransportError
    | Response(status: int, headers: Headers, bodyReadable: bool, retryAfter: Option<nat>)

  const OK := 200
  const CREATED := 201
  const NO_CONTENT := 204
  const BAD_GATEWAY := 502
  const TOO_MANY := 429

  /** The request's settings. `bucketCustom`: the bucket has a custom limit, so headers are not parsed. */
  datatype Config = Config(maxRestRetries: int, retryOnRateLimit: bool)

  datatype Answer = Body | BadRequest | Failed | BadHeaders | BodyError | ExceededRetries | RateLimited | RestError

  /** The reply got through Release and ReadAll. */
  predicate Received(r: Reply, custom: bool) {
    r.Response? && (custom || Readable(r.headers)) && r.bodyReadable
  }

  predicate IsBadGateway(r: Reply, custom: bool) {
    Received(r, custom) && r.status == BAD_GATEWAY
  }

  predicate IsRateLimit(r: Reply, custom: bool) {
    Received(r, custom) && r.status == TOO_MANY && r.retryAfter.Some?
  }

  /** The kinds of reply the client may answer by asking again. */
  predicate MayRetry(cfg: Config, custom: bool, r: Reply) {
    IsBadGateway(r, custom) || (IsRateLimit(r, custom) && cfg.retryOnRateLimit)
  }

  /** How many of the replies are 502s. */
  function BadGateways(rs: seq<Reply>, custom: bool): (n: nat)
    ensures n <= |rs|
  {
    if rs == [] then 0 else (if IsBadGateway(rs[0], custom) then 1 else 0) + BadGateways(rs[1..], custom)
  }

  /** How many 502s may still be retried. */
  function Budget(cfg: Config, sequence: int): nat {
    if cfg.maxRestRetries > sequence then cfg.maxRestRetries - sequence else 0
  }

  /** Exactly the first `n` replies are retried: each of them may be, no more than the budget of them are
      502s however they interleave with rate limits, and the next reply may not be retried or is a 502
      that finds the budget spent. */
  ghost predicate RetriesExactly(cfg: Config, custom: bool, sequence: int, rs: seq<Reply>, n: nat) {
    && n <= |rs|
    && (forall i :: 0 <= i < n ==> MayRetry(cfg, custom, rs[i]))
    && BadGateways(rs[..n], custom) <= Budget(cfg, sequence)
    && (n < |rs| && MayRetry(cfg, custom, rs[n]) ==>
          IsBadGateway(rs[n], custom) && BadGateways(rs[..n], custom) == Budget(cfg, sequence))
  }

  lemma {:induction false} BadGatewaysSplit(a: seq<Reply>, b: seq<Reply>, custom: bool)
    ensures BadGateways(a + b, custom) == BadGateways(a, custom) + BadGateways(b, custom)
  {
    if a == [] {
      assert a + b == b;
    } else {
      BadGatewaysSplit(a[1..], b, custom);
      assert (a + b)[1..] == a[1..] + b;
    }
  }

  /** Retrying past the point where the client stops would exceed the budget. */
  lemma FurtherIsTooFar(cfg: Config, custom: bool, sequence: int, rs: seq<Reply>, m: nat, n: nat)
    requires RetriesExactly(cfg, custom, sequence, rs, m) && m < n <= |rs| && MayRetry(cfg, custom, rs[m])
    ensures BadGateways(rs[..n], custom) > Budget(cfg, sequence)
  {
    BadGatewaysSplit(rs[..m], rs[m..n], custom);
    assert rs[..n] == rs[..m] + rs[m..n];
    assert rs[m..n][0] == rs[m];
  }

  /** The number of retries is determined by the replies. */
  lemma RetriesUnique(cfg: Config, custom: bool, sequence: int, rs: seq<Reply>, m: nat, n: nat)
    requires RetriesExactly(cfg, custom, sequence, rs, m) && RetriesExactly(cfg, custom, sequence, rs, n)
    ensures m == n
  {
    if m < n {
      FurtherIsTooFar(cfg, custom, sequence, rs, m, n);
    } else if n < m {
      FurtherIsTooFar(cfg, custom, sequence, rs, n, m);
    }
  }

  /** One retry followed by the retries of the rest. */
  lemma RetriesStep(cfg: Config, custom: bool, sequence: int, rs: seq<Reply>, n: nat)
    requires rs != [] && MayRetry(cfg, custom, rs[0])
    requires IsBadGateway(rs[0], custom) ==> sequence < cfg.maxRestRetries
    requires RetriesExactly(cfg, custom, if IsBadGateway(rs[0], custom) then sequence + 1 else sequence, rs[1..], n)
    ensures RetriesExactly(cfg, custom, sequence, rs, n + 1)
  {
    assert rs[..n + 1][1..] == rs[1..][..n];
    forall i | 0 <= i < n + 1
      ensures MayRetry(cfg, custom, rs[i])
    {
      assert i > 0 ==> rs[i] == rs[1..][i - 1];
    }
    assert n + 1 < |rs| ==> rs[1..][n] == rs[n + 1];
  }

  /** What the caller gets when a reply is not retried. */
  function AnswerTo(custom: bool, r: Reply): Answer {
    if r.TransportError? then Failed
    else if !custom && !Readable(r.headers) then BadHeaders
    else if !r.bodyReadable then BodyError
    else if r.status == OK || r.status == CREATED || r.status == NO_CONTENT then Body
    else if r.status == BAD_GATEWAY then ExceededRetries
    else if r.status == TOO_MANY then if r.retryAfter.Some? then RateLimited else BodyError
    else RestError
  }

  function AnswerAfter(custom: bool, rs: seq<Reply>, n: nat): Answer
    requires n <= |rs|
  {
    AnswerTo(custom, if n == |rs| then TransportError else rs[n])
  }

  /** The reply at which a request stops; when the replies have run out the transport fails. */
  function Deciding(rs: seq<Reply>, n: nat): Reply
    requires n <= |rs|
  {
    if n == |rs| then TransportError else rs[n]
  }

  /** What each answer says about the reply that decided it, and the other way round. */
  ghost predicate AnswersRightly(custom: bool, r: Reply, answer: Answer) {
    && (answer == Body <==> Received(r, custom) && r.status in {200, 201, 204})
    && (answer == ExceededRetries <==> Received(r, custom) && r.status == 502)
    && (answer == RateLimited <==> Received(r, custom) && r.status == 429 && r.retryAfter.Some?)
    && (answer == RestError <==> Received(r, custom) && r.status !in {200, 201, 204, 429, 502})
    && (answer == Failed <==> r.TransportError?)
    && (answer == BadHeaders <==> r.Response? && !custom && !Readable(r.headers))
    && (answer == BodyError <==>
          && r.Response? && (custom || Readable(r.headers))
          && (!r.bodyReadable || (r.status == 429 && r.retryAfter.None?)))
  }

  /** The retries and the answer, from the replies alone. */
  ghost predicate EndsRightly(cfg: Config, custom: bool, sequence: int, rs: seq<Reply>, n: nat, answer: Answer) {
    && n <= |rs| && answer != BadRequest && AnswersRightly(custom, Deciding(rs, n), answer)
    && (forall i :: 0 <= i < n ==>
          && Received(rs[i], custom)
          && (rs[i].status == 502 || (rs[i].status == 429 && rs[i].retryAfter.Some? && cfg.retryOnRateLimit)))
    && (answer == ExceededRetries ==> BadGateways(rs[..n], custom) == Budget(cfg, sequence))
    && (answer == RateLimited ==> !cfg.retryOnRateLimit)
  }

  lemma EndsAsTheRepliesSay(cfg: Config, custom: bool, sequence: int, rs: seq<Reply>, n: nat)
    requires RetriesExactly(cfg, custom, sequence, rs, n)
    ensures EndsRightly(cfg, custom, sequence, rs, n, AnswerAfter(custom, rs, n))
  {
  }

  /** The number of calls left that a reply's readable headers give. */
  predicate Left(r: Reply, left: int) {
    r.Response? && Readable(r.headers) && r.headers.remaining == Number(left)
  }

  /** How many of the replies are 502s, counted by position. */
  lemma {:induction false} BadGatewaysCounted(rs: seq<Reply>, custom: bool)
    ensures BadGateways(rs, custom) == |set i | 0 <= i < |rs| && Received(rs[i], custom) && rs[i].status == 502|
  {
    if rs != [] {
      var n := |rs| - 1;
      BadGatewaysCounted(rs[..n], custom);
      BadGatewaysSplit(rs[..n], [rs[n]], custom);
      assert rs == rs[..n] + [rs[n]] && [rs[n]][1..] == [];
      var before := set i | 0 <= i < n && Received(rs[..n][i], custom) && rs[..n][i].status == 502;
      assert before == set i | 0 <= i < n && Received(rs[i], custom) && rs[i].status == 502;
      var all := set i | 0 <= i < |rs| && Received(rs[i], custom) && rs[i].status == 502;
      assert all == if IsBadGateway(rs[n], custom) then before + {n} else before;
    }
  }

  /** How long the retried rate limits ask the client to wait. */
  function Pauses(rs: seq<Reply>, custom: bool): nat {
    if rs == [] then 0
    else (if IsRateLimit(rs[0], custom) then rs[0].retryAfter.value else 0) + Pauses(rs[1..], custom)
  }

  /** The recursion over a finite list of replies; when they run out the transport fails. The bucket
      arrives locked, is handed back before every retry and taken again for it, and ends unlocked. */
  method RequestWithLockedBucket(b: Bucket, badRequest: bool, cfg: Config, sequence: int, replies: seq<Reply>)
    returns (answer: Answer, sends: nat, retries: nat)
    requires b.locked
    modifies b, b.world
    decreases |replies|
    ensures !b.locked
    ensures b.acquired == old(b.acquired) + retries && b.released == old(b.released) + retries + 1
    ensures badRequest ==> answer == BadRequest && sends == retries == 0
    ensures !badRequest ==>
              && sends == retries + 1
              && RetriesExactly(cfg, b.customRateLimit.Some?, sequence, replies, retries)
              && answer == AnswerAfter(b.customRateLimit.Some?, replies, retries)
              && EndsRightly(cfg, b.customRateLimit.Some?, sequence, replies, retries, answer)
              && b.world.now >= old(b.world.now) + Pauses(replies[..retries], b.customRateLimit.Some?)
              && (b.customRateLimit.None? ==>
                    forall left :: Left(Deciding(replies, retries), left) ==> b.remaining == left)
  {
    if badRequest {
      var _, _ := b.Release(None);
      return BadRequest, 0, 0;
    }
    var custom := b.customRateLimit.Some?;
    var r := if replies == [] then TransportError else replies[0];
    var again := Attempt(b, cfg, sequence, r);
    assert replies[..0] == [];
    if !again {
      EndsAsTheRepliesSay(cfg, custom, sequence, replies, 0);
      return AnswerTo(custom, r), 1, 0;
    }
    ghost var _ := b.LockBucketObject();
    var next := if r.status == BAD_GATEWAY then sequence + 1 else sequence;
    answer, sends, retries := RequestWithLockedBucket(b, false, cfg, next, replies[1..]);
    RetriesStep(cfg, custom, sequence, replies, retries);
    assert replies[..retries + 1][1..] == replies[1..][..retries];
    sends, retries := sends + 1, retries + 1;
    EndsAsTheRepliesSay(cfg, custom, sequence, replies, retries);
  }

  /** One send: the bucket is released whatever comes back, and then the reply decides whether to retry. */
  method Attempt(b: Bucket, cfg: Config, sequence: int, r: Reply) returns (again: bool)
    requires b.locked
    modifies b, b.world
    ensures !b.locked && b.acquired == old(b.acquired) && b.released == old(b.released) + 1
    ensures again <==> MayRetry(cfg, b.customRateLimit.Some?, r)
                       && (IsBadGateway(r, b.customRateLimit.Some?) ==> sequence < cfg.maxRestRetries)
    ensures b.world.now >= old(b.world.now)
    ensures b.customRateLimit.None? ==> forall left :: Left(r, left) ==> b.remaining == left
    ensures again && IsRateLimit(r, b.customRateLimit.Some?) ==> b.world.now >= old(b.world.now) + r.retryAfter.value
  {
    var ok, _ := b.Release(if r.TransportError? then None else Some(r.headers));
    if r.TransportError? || !ok || !r.bodyReadable {
      return false;
    }
    if r.status == BAD_GATEWAY {
      return sequence < cfg.maxRestRetries;
    }
    if r.status == TOO_MANY && r.retryAfter.Some? && cfg.retryOnRateLimit {
      b.world.Sleep(r.retryAfter.value);
      return true;
    }
    again := false;
  }

  /** A whole request from an unlocked bucket: as many acquisitions as releases, exactly the retriable prefix
      of the replies retried, and as many sends as one plus the retried 502s plus the retried rate limits. */
  method Request(b: Bucket, badRequest: bool, cfg: Config, replies: seq<Reply>)
    returns (answer: Answer, sends: nat, retries: nat, gateways: nat, rateLimits: nat)
    requires !b.locked
    modifies b, b.world
    ensures !b.locked
    ensures b.acquired - old(b.acquired) == b.released - old(b.released) == 1 + retries
    ensures badRequest ==> answer == BadRequest && sends == retries == 0
    ensures !badRequest ==>
              && sends == 1 + retries
              && RetriesExactly(cfg, b.customRateLimit.Some?, 0, replies, retries)
              && answer == AnswerAfter(b.customRateLimit.Some?, replies, retries)
              && EndsRightly(cfg, b.customRateLimit.Some?, 0, replies, retries, answer)
              && b.world.now >= old(b.world.now) + Pauses(replies[..retries], b.customRateLimit.Some?)
              && (b.customRateLimit.None? ==>
                    forall left :: Left(Deciding(replies, retries), left) ==> b.remaining == left)
    ensures retries <= |replies|
    ensures gateways == BadGateways(replies[..retries], b.customRateLimit.Some?) && retries == gateways + rateLimits
    ensures gateways <= if cfg.maxRestRetries > 0 then cfg.maxRestRetries else 0
    ensures answer == ExceededRetries ==> gateways == if cfg.maxRestRetries > 0 then cfg.maxRestRetries else 0
    ensures !cfg.retryOnRateLimit ==> rateLimits == 0
  {
    ghost var _ := b.LockBucketObject();
    answer, sends, retries := RequestWithLockedBucket(b, badRequest, cfg, 0, replies);
    var custom := b.customRateLimit.Some?;
    gateways := BadGateways(replies[..retries], custom);
    rateLimits := retries - gateways;
    if !badRequest && !cfg.retryOnRateLimit {
      OnlyGateways(cfg, custom, replies[..retries]);
    }
  }

  lemma {:induction false} OnlyGateways(cfg: Config, custom: bool, rs: seq<Reply>)
    requires !cfg.retryOnRateLimit && forall i :: 0 <= i < |rs| ==> MayRetry(cfg, custom, rs[i])
    ensures BadGateways(rs, custom) == |rs|
  {
    if rs != [] {
      OnlyGateways(cfg, custom, rs[1..]);
    }
  }
}
