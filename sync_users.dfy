/** The user synchronisation run, made sequential: a producer pages through the
    upstream listing by cursor, retrying each page a bounded number of times,
    and pushes every mapped record onto the channel; workers then take every
    record off the channel and upsert it into the store, keyed by id.

    The upstream is an oracle: the n-th call to the listing endpoint gets the
    n-th scripted answer, and every call past the end of the script gets an
    empty page (the upstream has no more users). */
module SyncUsers {
  import opened Wrappers
  import opened Entities

  /** The run's configuration. */
  datatype SyncConfig = SyncConfig(
    usersPerPage: int,
    workerPoolSize: int,
    maximumFetchRetries: nat,
    delayBetweenUpsertsMS: int,
    maximumConsecutiveEmpty: nat)

  /** The constants the program runs with. */
  const Defaults := SyncConfig(30, 5, 3, 200, 1)

  /** A retry bound and an empty-page threshold of at least one. */
  predicate ValidConfig(config: SyncConfig) {
    config.maximumFetchRetries >= 1 && config.maximumConsecutiveEmpty >= 1
  }

  /** One answer of the upstream listing endpoint. */
  datatype FetchOutcome = FetchFailed | Fetched(users: seq<GitHubUser>)

  /** The answer to the n-th call. */
  function Answer(upstream: seq<FetchOutcome>, n: nat): FetchOutcome {
    if n < |upstream| then upstream[n] else Fetched([])
  }

  /** The arguments of one call to the listing endpoint. */
  datatype FetchRequest = FetchRequest(since: int, perPage: int)

  /** Why the producer stopped. */
  datatype StopReason = RetriesExhausted | NoMoreUsers

  // ---------------------------------------------------------------------------
  // Mapping and the running maximum

  /** The record the producer sends for an upstream entry: every field but the node id. */
  function SyncRecord(g: GitHubUser): (u: User)
    ensures u == CopyAll(g).(nodeId := "")
  {
    User(g.login, g.id, "", g.avatarUrl, g.url, g.htmlUrl, g.userType, g.userViewType, g.siteAdmin)
  }

  function SyncRecords(batch: seq<GitHubUser>): seq<User> {
    seq(|batch|, i requires 0 <= i < |batch| => SyncRecord(batch[i]))
  }

  function IdsOf(batch: seq<GitHubUser>): seq<int> {
    seq(|batch|, i requires 0 <= i < |batch| => batch[i].id)
  }

  function RecordIds(records: seq<User>): seq<int> {
    seq(|records|, i requires 0 <= i < |records| => records[i].id)
  }

  function Max(a: int, b: int): int {
    if a >= b then a else b
  }

  /** The running maximum: `start` raised to every id, taken in order. */
  function MaxId(start: int, ids: seq<int>): int {
    if ids == [] then start else Max(MaxId(start, ids[..|ids| - 1]), ids[|ids| - 1])
  }

  /** The running maximum is the largest of `start` and the ids. */
  lemma {:induction false} MaxIdIsMaximum(start: int, ids: seq<int>)
    ensures start <= MaxId(start, ids)
    ensures forall i :: 0 <= i < |ids| ==> ids[i] <= MaxId(start, ids)
    ensures MaxId(start, ids) == start || exists i :: 0 <= i < |ids| && ids[i] == MaxId(start, ids)
  {
    if ids != [] {
      var init := ids[..|ids| - 1];
      MaxIdIsMaximum(start, init);
      assert forall i :: 0 <= i < |init| ==> ids[i] == init[i];
      if MaxId(start, ids) != start && MaxId(start, ids) != ids[|ids| - 1] {
        var i :| 0 <= i < |init| && init[i] == MaxId(start, init);
        assert ids[i] == MaxId(start, ids);
      }
    }
  }

  /** Folding two pieces one after the other is folding their concatenation. */
  lemma {:induction false} MaxIdConcat(start: int, a: seq<int>, b: seq<int>)
    ensures MaxId(start, a + b) == MaxId(MaxId(start, a), b)
  {
    if b == [] {
      assert a + b == a;
    } else {
      MaxIdConcat(start, a, b[..|b| - 1]);
      assert (a + b)[..|a + b| - 1] == a + b[..|b| - 1];
    }
  }

  lemma RecordIdsOfSyncRecords(batch: seq<GitHubUser>)
    ensures RecordIds(SyncRecords(batch)) == IdsOf(batch)
  {
  }

  lemma RecordIdsConcat(a: seq<User>, b: seq<User>)
    ensures RecordIds(a + b) == RecordIds(a) + RecordIds(b)
  {
  }

  // ---------------------------------------------------------------------------
  // Rounds: one page of the producer, with its retries

  /** One page: the cursor it was requested with, the failed attempts, and the
      page the first successful attempt returned (none when all attempts failed). */
  datatype Round = Round(since: int, failures: nat, page: Option<seq<GitHubUser>>)

  function Attempts(r: Round): nat {
    r.failures + if r.page.Some? then 1 else 0
  }

  /** At most the configured number of attempts, and a round without a page used all of them. */
  predicate RoundBounded(r: Round, config: SyncConfig) {
    Attempts(r) <= config.maximumFetchRetries &&
    (r.page.None? ==> r.failures == config.maximumFetchRetries)
  }

  /** The upstream answers a round consumed: its failures, then its page. */
  function RoundAnswers(r: Round): seq<FetchOutcome> {
    seq(r.failures, _ => FetchFailed) + if r.page.Some? then [Fetched(r.page.value)] else []
  }

  /** Every attempt of a round asks for a full page since the round's cursor. */
  function RoundRequests(r: Round, perPage: int): seq<FetchRequest> {
    seq(Attempts(r), _ => FetchRequest(r.since, perPage))
  }

  /** The sleep after the k-th failed attempt lasts k seconds. */
  function RoundSleeps(r: Round): seq<int> {
    seq(r.failures, k => k + 1)
  }

  function RoundRecords(r: Round): seq<User> {
    if r.page.Some? then SyncRecords(r.page.value) else []
  }

  function PageIds(r: Round): seq<int> {
    if r.page.Some? then IdsOf(r.page.value) else []
  }

  function Answers(rounds: seq<Round>): seq<FetchOutcome> {
    if rounds == [] then [] else Answers(rounds[..|rounds| - 1]) + RoundAnswers(rounds[|rounds| - 1])
  }

  function Requests(rounds: seq<Round>, perPage: int): seq<FetchRequest> {
    if rounds == [] then []
    else Requests(rounds[..|rounds| - 1], perPage) + RoundRequests(rounds[|rounds| - 1], perPage)
  }

  function Sleeps(rounds: seq<Round>): seq<int> {
    if rounds == [] then [] else Sleeps(rounds[..|rounds| - 1]) + RoundSleeps(rounds[|rounds| - 1])
  }

  /** Everything sent on the channel, in order. */
  function Dispatched(rounds: seq<Round>): seq<User> {
    if rounds == [] then [] else Dispatched(rounds[..|rounds| - 1]) + RoundRecords(rounds[|rounds| - 1])
  }

  /** The cursor once the rounds are processed. */
  function CursorAfter(rounds: seq<Round>): int {
    if rounds == [] then 0
    else MaxId(rounds[|rounds| - 1].since, PageIds(rounds[|rounds| - 1]))
  }

  /** The number of empty pages at the end of the rounds. */
  function TrailingEmpty(rounds: seq<Round>): nat {
    if rounds == [] || rounds[|rounds| - 1].page != Some([]) then 0
    else 1 + TrailingEmpty(rounds[..|rounds| - 1])
  }

  /** The rounds consumed the upstream's answers in order, none skipped. */
  ghost predicate AnswersFollow(upstream: seq<FetchOutcome>, rounds: seq<Round>) {
    forall k :: 0 <= k < |Answers(rounds)| ==> Answers(rounds)[k] == Answer(upstream, k)
  }

  /** The answers are the upstream's, in order, starting with call `next`. */
  ghost predicate AnswersFrom(upstream: seq<FetchOutcome>, next: nat, answers: seq<FetchOutcome>) {
    forall k :: 0 <= k < |answers| ==> answers[k] == Answer(upstream, next + k)
  }

  /** Every round was requested with the cursor left by the rounds before it. */
  ghost predicate CursorChained(rounds: seq<Round>) {
    forall i {:trigger CursorBefore(rounds, i)} :: 0 <= i < |rounds| ==> rounds[i].since == CursorBefore(rounds, i)
  }

  /** The cursor left by the rounds before the i-th. */
  function CursorBefore(rounds: seq<Round>, i: nat): int
    requires i <= |rounds|
  {
    CursorAfter(rounds[..i])
  }

  lemma AppendRound(rounds: seq<Round>, r: Round, perPage: int)
    ensures (rounds + [r])[..|rounds|] == rounds
    ensures forall i :: 0 <= i <= |rounds| ==> (rounds + [r])[..i] == rounds[..i]
    ensures Answers(rounds + [r]) == Answers(rounds) + RoundAnswers(r)
    ensures Dispatched(rounds + [r]) == Dispatched(rounds) + RoundRecords(r)
    ensures Sleeps(rounds + [r]) == Sleeps(rounds) + RoundSleeps(r)
    ensures Requests(rounds + [r], perPage) == Requests(rounds, perPage) + RoundRequests(r, perPage)
    ensures CursorAfter(rounds + [r]) == MaxId(r.since, PageIds(r))
    ensures TrailingEmpty(rounds + [r]) == if r.page == Some([]) then TrailingEmpty(rounds) + 1 else 0
  {
    assert (rounds + [r])[..|rounds|] == rounds;
  }

  // ---------------------------------------------------------------------------
  // The producer

  /** The retry loop for one page: call the upstream until an attempt succeeds
      or the attempts run out, sleeping k seconds after the k-th failure. */
  method FetchWithRetry(upstream: seq<FetchOutcome>, next: nat, since: int, config: SyncConfig)
    returns (round: Round, requests: seq<FetchRequest>, sleeps: seq<int>)
    requires config.maximumFetchRetries >= 1
    ensures round.since == since
    ensures RoundBounded(round, config)
    ensures AnswersFrom(upstream, next, RoundAnswers(round))
    ensures requests == RoundRequests(round, config.usersPerPage)
    ensures sleeps == RoundSleeps(round)
  {
    var lastFetchFailed := false;
    var fetchedUsers: seq<GitHubUser> := [];
    var failures := 0;
    requests, sleeps := [], [];
    var attempt := 1;
    while attempt <= config.maximumFetchRetries
      invariant 1 <= attempt <= config.maximumFetchRetries + 1
      invariant failures == attempt - 1
      invariant lastFetchFailed <==> failures > 0
      invariant forall k :: next <= k < next + failures ==> Answer(upstream, k) == FetchFailed
      invariant requests == seq(failures, _ => FetchRequest(since, config.usersPerPage))
      invariant sleeps == seq(failures, k => k + 1)
    {
      requests := requests + [FetchRequest(since, config.usersPerPage)];
      var outcome := Answer(upstream, next + failures);
      if outcome.FetchFailed? {
        lastFetchFailed := true;
        sleeps := sleeps + [attempt];
        failures := failures + 1;
        attempt := attempt + 1;
      } else {
        fetchedUsers := outcome.users;
        lastFetchFailed := false;
        round := Round(since, failures, Some(fetchedUsers));
        assert RoundAnswers(round) == seq(failures, _ => FetchFailed) + [outcome];
        assert forall k :: 0 <= k < failures ==> RoundAnswers(round)[k] == Answer(upstream, next + k);
        return;
      }
    }
    round := Round(since, failures, None);
    assert forall k :: 0 <= k < failures ==> RoundAnswers(round)[k] == Answer(upstream, next + k);
  }

  /** The loop over one non-empty page: send every mapped record in order and
      raise the cursor candidate to each id. */
  method DispatchBatch(fetchedUsers: seq<GitHubUser>, lastFetchedID: int, channel: seq<User>)
    returns (sent: seq<User>, nextSinceID: int)
    ensures sent == channel + SyncRecords(fetchedUsers)
    ensures nextSinceID == MaxId(lastFetchedID, IdsOf(fetchedUsers))
  {
    nextSinceID := lastFetchedID;
    sent := channel;
    for i := 0 to |fetchedUsers|
      invariant sent == channel + SyncRecords(fetchedUsers[..i])
      invariant nextSinceID == MaxId(lastFetchedID, IdsOf(fetchedUsers[..i]))
    {
      assert IdsOf(fetchedUsers[..i + 1]) == IdsOf(fetchedUsers[..i]) + [fetchedUsers[i].id];
      assert SyncRecords(fetchedUsers[..i + 1]) == SyncRecords(fetchedUsers[..i]) + [SyncRecord(fetchedUsers[i])];
      if fetchedUsers[i].id > nextSinceID {
        nextSinceID := fetchedUsers[i].id;
      }
      sent := sent + [SyncRecord(fetchedUsers[i])];
    }
    assert fetchedUsers[..|fetchedUsers|] == fetchedUsers;
  }

  /** The rounds so far keep to the retry bound, consumed the upstream in order
      and chained their cursors. */
  ghost predicate Consistent(upstream: seq<FetchOutcome>, rounds: seq<Round>, config: SyncConfig) {
    (forall i :: 0 <= i < |rounds| ==> RoundBounded(rounds[i], config)) &&
    AnswersFollow(upstream, rounds) && CursorChained(rounds)
  }

  /** A round fetched with the current cursor from the next unconsumed answer keeps the rounds consistent. */
  lemma ExtendRounds(upstream: seq<FetchOutcome>, rounds: seq<Round>, round: Round, config: SyncConfig)
    requires Consistent(upstream, rounds, config)
    requires round.since == CursorAfter(rounds) && RoundBounded(round, config)
    requires AnswersFrom(upstream, |Answers(rounds)|, RoundAnswers(round))
    ensures Consistent(upstream, rounds + [round], config)
  {
    ExtendAnswersFollow(upstream, rounds, round);
    ExtendChained(rounds, round);
  }

  lemma ExtendAnswersFollow(upstream: seq<FetchOutcome>, rounds: seq<Round>, round: Round)
    requires AnswersFollow(upstream, rounds)
    requires AnswersFrom(upstream, |Answers(rounds)|, RoundAnswers(round))
    ensures AnswersFollow(upstream, rounds + [round])
  {
    var extended := rounds + [round];
    assert extended[..|rounds|] == rounds;
    assert Answers(extended) == Answers(rounds) + RoundAnswers(round);
    forall k | 0 <= k < |Answers(extended)|
      ensures Answers(extended)[k] == Answer(upstream, k)
    {
      if k >= |Answers(rounds)| {
        assert Answers(extended)[k] == RoundAnswers(round)[k - |Answers(rounds)|];
      } else {
        assert Answers(extended)[k] == Answers(rounds)[k];
      }
    }
  }

  lemma ExtendChained(rounds: seq<Round>, round: Round)
    requires CursorChained(rounds) && round.since == CursorAfter(rounds)
    ensures CursorChained(rounds + [round])
  {
    var extended := rounds + [round];
    forall i | 0 <= i < |extended|
      ensures extended[i].since == CursorBefore(extended, i)
    {
      assert extended[..i] == rounds[..i];
      if i < |rounds| {
        assert extended[i] == rounds[i] && rounds[i].since == CursorBefore(rounds, i);
      }
    }
  }

  /** A non-empty page lies within the scripted answers (past the end every page is empty). */
  lemma NonEmptyPageWithinUpstream(upstream: seq<FetchOutcome>, next: nat, round: Round)
    requires AnswersFrom(upstream, next, RoundAnswers(round))
    requires round.page.Some? && |round.page.value| > 0
    ensures next + Attempts(round) <= |upstream|
  {
    assert RoundAnswers(round)[round.failures] == Fetched(round.page.value);
  }

  /** No prefix of the rounds reached the empty-page threshold: the producer had no reason to stop. */
  ghost predicate NeverStopped(rounds: seq<Round>, threshold: nat) {
    forall i :: 0 <= i <= |rounds| ==> TrailingEmpty(rounds[..i]) < threshold
  }

  lemma ExtendNeverStopped(rounds: seq<Round>, r: Round, threshold: nat)
    requires NeverStopped(rounds, threshold)
    requires TrailingEmpty(rounds + [r]) < threshold
    ensures NeverStopped(rounds + [r], threshold)
  {
    var extended := rounds + [r];
    forall i | 0 <= i <= |extended| ensures TrailingEmpty(extended[..i]) < threshold {
      if i <= |rounds| {
        assert extended[..i] == rounds[..i];
      } else {
        assert extended[..i] == extended;
      }
    }
  }

  /** The producer has not stopped after these rounds: every one of them got a
      page and the empty-page threshold was never reached. */
  ghost predicate Running(rounds: seq<Round>, config: SyncConfig) {
    (forall i :: 0 <= i < |rounds| ==> rounds[i].page.Some?) &&
    NeverStopped(rounds, config.maximumConsecutiveEmpty)
  }

  /** What the producer has done is what its rounds say: the rounds are
      consistent, and the requests, the sleeps and the channel follow from them. */
  ghost predicate Produced(upstream: seq<FetchOutcome>, config: SyncConfig, rounds: seq<Round>,
                           requests: seq<FetchRequest>, sleeps: seq<int>, channel: seq<User>) {
    Consistent(upstream, rounds, config) &&
    requests == Requests(rounds, config.usersPerPage) && sleeps == Sleeps(rounds) &&
    channel == Dispatched(rounds)
  }

  /** One more round, fetched from the next unconsumed answer with the current cursor. */
  lemma ProduceRound(upstream: seq<FetchOutcome>, config: SyncConfig, rounds: seq<Round>,
                     requests: seq<FetchRequest>, sleeps: seq<int>, channel: seq<User>,
                     round: Round, roundRequests: seq<FetchRequest>, roundSleeps: seq<int>)
    requires Produced(upstream, config, rounds, requests, sleeps, channel)
    requires round.since == CursorAfter(rounds) && RoundBounded(round, config)
    requires AnswersFrom(upstream, |Answers(rounds)|, RoundAnswers(round))
    requires roundRequests == RoundRequests(round, config.usersPerPage) && roundSleeps == RoundSleeps(round)
    ensures Produced(upstream, config, rounds + [round], requests + roundRequests, sleeps + roundSleeps,
                     channel + RoundRecords(round))
    ensures |Answers(rounds + [round])| == |Answers(rounds)| + Attempts(round)
    ensures CursorAfter(rounds + [round]) == MaxId(round.since, PageIds(round))
    ensures TrailingEmpty(rounds + [round]) == if round.page == Some([]) then TrailingEmpty(rounds) + 1 else 0
    ensures (rounds + [round])[..|rounds|] == rounds
  {
    ExtendRounds(upstream, rounds, round, config);
    AppendRound(rounds, round, config.usersPerPage);
  }

  lemma ExtendRunning(rounds: seq<Round>, round: Round, config: SyncConfig)
    requires Running(rounds, config)
    requires round.page.Some? && TrailingEmpty(rounds + [round]) < config.maximumConsecutiveEmpty
    ensures Running(rounds + [round], config)
  {
    ExtendNeverStopped(rounds, round, config.maximumConsecutiveEmpty);
  }

  /** A round without a page, or with an empty one, leaves the cursor where it was. */
  lemma LastRound(previous: seq<Round>, round: Round, rounds: seq<Round>)
    requires rounds == previous + [round]
    requires round.page.None? || round.page == Some([])
    ensures |rounds| >= 1 && rounds[..|rounds| - 1] == previous && rounds[|rounds| - 1] == round
    ensures CursorAfter(rounds) == round.since
  {
    assert rounds[..|rounds| - 1] == previous;
    assert PageIds(round) == [];
  }

  /** One pass of the producer's outer loop up to the dispatch: fetch the next
      page with retries since the current cursor and record the round, its
      requests and its sleeps. */
  method FetchRound(upstream: seq<FetchOutcome>, config: SyncConfig, rounds: seq<Round>,
                    requests: seq<FetchRequest>, sleeps: seq<int>, channel: seq<User>,
                    next: nat, lastFetchedID: int)
    returns (round: Round, rounds': seq<Round>, requests': seq<FetchRequest>, sleeps': seq<int>, next': nat)
    requires ValidConfig(config)
    requires Produced(upstream, config, rounds, requests, sleeps, channel)
    requires next == |Answers(rounds)| && lastFetchedID == CursorAfter(rounds)
    ensures rounds' == rounds + [round] && rounds'[..|rounds|] == rounds
    ensures round.since == lastFetchedID && RoundBounded(round, config)
    ensures Produced(upstream, config, rounds', requests', sleeps', channel + RoundRecords(round))
    ensures next' == |Answers(rounds')| && next < next'
    ensures round.page.Some? && |round.page.value| > 0 ==> next' <= |upstream|
    ensures CursorAfter(rounds') == MaxId(round.since, PageIds(round))
    ensures TrailingEmpty(rounds') == if round.page == Some([]) then TrailingEmpty(rounds) + 1 else 0
  {
    var roundRequests, roundSleeps;
    round, roundRequests, roundSleeps := FetchWithRetry(upstream, next, lastFetchedID, config);
    ProduceRound(upstream, config, rounds, requests, sleeps, channel, round, roundRequests, roundSleeps);
    rounds' := rounds + [round];
    requests' := requests + roundRequests;
    sleeps' := sleeps + roundSleeps;
    next' := next + Attempts(round);
    if round.page.Some? && |round.page.value| > 0 {
      NonEmptyPageWithinUpstream(upstream, next, round);
    }
  }

  /** The producer: page through the upstream until the retries for a page run
      out or enough consecutive pages come back empty. */
  method RunProducer(upstream: seq<FetchOutcome>, config: SyncConfig)
    returns (rounds: seq<Round>, channel: seq<User>, requests: seq<FetchRequest>, sleeps: seq<int>,
             cursor: int, stop: StopReason)
    requires ValidConfig(config)
    ensures |rounds| >= 1
    ensures Consistent(upstream, rounds, config)
    ensures Running(rounds[..|rounds| - 1], config)
    ensures stop == RetriesExhausted <==> rounds[|rounds| - 1].page.None?
    ensures stop == NoMoreUsers ==> TrailingEmpty(rounds) == config.maximumConsecutiveEmpty
    ensures cursor == rounds[|rounds| - 1].since == CursorAfter(rounds)
    ensures requests == Requests(rounds, config.usersPerPage)
    ensures sleeps == Sleeps(rounds)
    ensures channel == Dispatched(rounds)
  {
    rounds, channel, requests, sleeps := [], [], [], [];
    var lastFetchedID := 0;
    var consecutiveEmptyBatches := 0;
    var next := 0;
    while true
      invariant next == |Answers(rounds)|
      invariant lastFetchedID == CursorAfter(rounds)
      invariant consecutiveEmptyBatches == TrailingEmpty(rounds) < config.maximumConsecutiveEmpty
      invariant Running(rounds, config)
      invariant Produced(upstream, config, rounds, requests, sleeps, channel)
      decreases if next <= |upstream| then |upstream| - next else 0,
                config.maximumConsecutiveEmpty - consecutiveEmptyBatches
    {
      ghost var previous := rounds;
      var round;
      round, rounds, requests, sleeps, next :=
        FetchRound(upstream, config, rounds, requests, sleeps, channel, next, lastFetchedID);

      if round.page.None? {
        assert channel + RoundRecords(round) == channel;
        LastRound(previous, round, rounds);
        stop := RetriesExhausted;
        break;
      }
      var fetchedUsers := round.page.value;
      if |fetchedUsers| == 0 {
        assert channel + RoundRecords(round) == channel;
        consecutiveEmptyBatches := consecutiveEmptyBatches + 1;
        if consecutiveEmptyBatches >= config.maximumConsecutiveEmpty {
          LastRound(previous, round, rounds);
          stop := NoMoreUsers;
          break;
        }
        ExtendRunning(previous, round, config);
        continue;
      }
      consecutiveEmptyBatches := 0;
      ExtendRunning(previous, round, config);
      channel, lastFetchedID := DispatchBatch(fetchedUsers, lastFetchedID, channel);
    }
    cursor := lastFetchedID;
  }

  /** A page whose ids are all at or below the cursor leaves the cursor where
      it was, so the next page is requested since the same id: an upstream that
      kept answering such a page would keep the producer asking for it and
      sending the same records again. */
  lemma StalePageKeepsCursor(rounds: seq<Round>, round: Round)
    requires round.page.Some?
    requires forall k :: 0 <= k < |round.page.value| ==> round.page.value[k].id <= round.since
    ensures CursorAfter(rounds + [round]) == round.since
    ensures round.page.value != [] ==> TrailingEmpty(rounds + [round]) == 0
  {
    AppendRound(rounds, round, 0);
    var ids := PageIds(round);
    MaxIdIsMaximum(round.since, ids);
  }

  /** With an empty-page threshold of 1, no page before the last came back
      empty, and the producer stops for lack of users exactly when the last
      page is empty. */
  lemma ThresholdOneStopsAtFirstEmptyPage(rounds: seq<Round>, config: SyncConfig)
    requires config.maximumConsecutiveEmpty == 1
    requires |rounds| >= 1 && Running(rounds[..|rounds| - 1], config)
    ensures forall i :: 0 <= i < |rounds| - 1 ==> rounds[i].page.Some? && rounds[i].page.value != []
    ensures TrailingEmpty(rounds) == config.maximumConsecutiveEmpty <==> rounds[|rounds| - 1].page == Some([])
  {
    var init := rounds[..|rounds| - 1];
    forall i | 0 <= i < |rounds| - 1 ensures rounds[i].page.Some? && rounds[i].page.value != [] {
      var prefix := init[..i + 1];
      assert TrailingEmpty(prefix) < 1;
      assert prefix[|prefix| - 1] == init[i] == rounds[i];
    }
    assert init[..|init|] == init;
    assert TrailingEmpty(init) == 0;
    assert rounds[..|rounds| - 1] == init;
  }

  /** The program's own configuration is a valid one, and its threshold is 1. */
  lemma DefaultsStopAtFirstEmptyPage(rounds: seq<Round>)
    requires |rounds| >= 1 && Running(rounds[..|rounds| - 1], Defaults)
    ensures ValidConfig(Defaults)
    ensures forall i :: 0 <= i < |rounds| - 1 ==> rounds[i].page.Some? && rounds[i].page.value != []
    ensures TrailingEmpty(rounds) == Defaults.maximumConsecutiveEmpty <==> rounds[|rounds| - 1].page == Some([])
  {
    ThresholdOneStopsAtFirstEmptyPage(rounds, Defaults);
  }

  /** The cursor never decreases from one round to a later one. */
  lemma {:induction false} CursorMonotone(rounds: seq<Round>)
    requires CursorChained(rounds)
    ensures forall i, j :: 0 <= i <= j < |rounds| ==> rounds[i].since <= rounds[j].since
    ensures forall i :: 0 <= i < |rounds| ==> rounds[i].since <= CursorAfter(rounds)
  {
    if rounds != [] {
      var n := |rounds| - 1;
      var init := rounds[..n];
      var last := rounds[n];
      ChainedInit(rounds);
      CursorMonotone(init);
      MaxIdIsMaximum(last.since, PageIds(last));
      assert last.since == CursorBefore(rounds, n) == CursorAfter(init);
      forall i, j | 0 <= i <= j < |rounds| ensures rounds[i].since <= rounds[j].since {
        if j < n {
          assert rounds[i] == init[i] && rounds[j] == init[j];
        } else if i < n {
          assert rounds[i] == init[i];
        }
      }
    }
  }

  /** Dropping the last round keeps the cursors chained. */
  lemma ChainedInit(rounds: seq<Round>)
    requires CursorChained(rounds) && |rounds| > 0
    ensures CursorChained(rounds[..|rounds| - 1])
  {
    var init := rounds[..|rounds| - 1];
    forall i | 0 <= i < |init| ensures init[i].since == CursorBefore(init, i) {
      assert rounds[..i] == init[..i];
      assert rounds[i].since == CursorBefore(rounds, i);
    }
  }

  /** The cursor is the largest id ever sent on the channel (or 0 when none was). */
  lemma {:induction false} CursorIsMaxDispatchedId(rounds: seq<Round>)
    requires CursorChained(rounds)
    ensures CursorAfter(rounds) == MaxId(0, RecordIds(Dispatched(rounds)))
  {
    if rounds != [] {
      var init := rounds[..|rounds| - 1];
      var last := rounds[|rounds| - 1];
      ChainedInit(rounds);
      CursorIsMaxDispatchedId(init);
      assert last.since == CursorBefore(rounds, |rounds| - 1) == CursorAfter(init);
      RecordIdsConcat(Dispatched(init), RoundRecords(last));
      if last.page.Some? {
        RecordIdsOfSyncRecords(last.page.value);
      }
      assert RecordIds(RoundRecords(last)) == PageIds(last);
      MaxIdConcat(0, RecordIds(Dispatched(init)), PageIds(last));
    }
  }

  // ---------------------------------------------------------------------------
  // The workers and the store

  /** The store after upserting the records in order: each write replaces the row with its id. */
  function UpsertAll(rows: map<int, User>, records: seq<User>): (table: map<int, User>)
    ensures rows.Keys <= table.Keys
    ensures forall k :: 0 <= k < |records| ==> records[k].id in table
    ensures |records| > 0 ==> table[records[|records| - 1].id] == records[|records| - 1]
  {
    if records == [] then rows
    else
      var last := records[|records| - 1];
      UpsertAll(rows, records[..|records| - 1])[last.id := last]
  }

  /** The ids the records carry. */
  function IdSet(records: seq<User>): set<int> {
    if records == [] then {} else IdSet(records[..|records| - 1]) + {records[|records| - 1].id}
  }

  /** No later record has the same id as the one at index i. */
  ghost predicate LastWithId(records: seq<User>, i: int)
    requires 0 <= i < |records|
  {
    forall j :: i < j < |records| ==> records[j].id != records[i].id
  }

  /** The records whose upsert call succeeded (call k is the k-th record). */
  function Succeeded(records: seq<User>, failing: set<nat>): seq<User> {
    if records == [] then []
    else Succeeded(records[..|records| - 1], failing) +
         if |records| - 1 in failing then [] else [records[|records| - 1]]
  }

  /** The records whose upsert call failed and was logged. */
  function Logged(records: seq<User>, failing: set<nat>): seq<User> {
    if records == [] then []
    else Logged(records[..|records| - 1], failing) +
         if |records| - 1 in failing then [records[|records| - 1]] else []
  }

  /** Upserting adds exactly the records' ids to the stored ones. */
  lemma {:induction false} UpsertAllKeys(rows: map<int, User>, records: seq<User>)
    ensures UpsertAll(rows, records).Keys == rows.Keys + IdSet(records)
  {
    if records != [] {
      UpsertAllKeys(rows, records[..|records| - 1]);
    }
  }

  /** Last write wins: an id holds the last record that carries it. */
  lemma {:induction false} UpsertAllLast(rows: map<int, User>, records: seq<User>, i: int)
    requires 0 <= i < |records| && LastWithId(records, i)
    ensures records[i].id in UpsertAll(rows, records)
    ensures UpsertAll(rows, records)[records[i].id] == records[i]
  {
    var init := records[..|records| - 1];
    if i < |records| - 1 {
      assert records[|records| - 1].id != records[i].id;
      assert init[i] == records[i];
      assert LastWithId(init, i);
      UpsertAllLast(rows, init, i);
    }
  }

  /** An id no record carries keeps its old row, or stays absent. */
  lemma {:induction false} UpsertAllUntouched(rows: map<int, User>, records: seq<User>, id: int)
    requires id !in IdSet(records)
    ensures id in UpsertAll(rows, records) <==> id in rows
    ensures id in rows ==> UpsertAll(rows, records)[id] == rows[id]
  {
    if records != [] {
      UpsertAllUntouched(rows, records[..|records| - 1], id);
    }
  }

  /** Every id the records carry has a last record carrying it. */
  lemma {:induction false} LastRecordExists(records: seq<User>, id: int)
    requires id in IdSet(records)
    ensures exists i :: 0 <= i < |records| && records[i].id == id && LastWithId(records, i)
  {
    var init := records[..|records| - 1];
    var last := records[|records| - 1];
    if last.id != id {
      LastRecordExists(init, id);
      var i :| 0 <= i < |init| && init[i].id == id && LastWithId(init, i);
      assert records[i] == init[i];
      assert LastWithId(records, i);
    } else {
      assert LastWithId(records, |records| - 1);
    }
  }

  /** Re-running the same upserts (the next sync over the same range) changes nothing. */
  lemma ResyncIsIdempotent(rows: map<int, User>, records: seq<User>)
    ensures UpsertAll(UpsertAll(rows, records), records) == UpsertAll(rows, records)
  {
    var once := UpsertAll(rows, records);
    var twice := UpsertAll(once, records);
    UpsertAllKeys(rows, records);
    UpsertAllKeys(once, records);
    forall id | id in twice ensures twice[id] == once[id] {
      if id in IdSet(records) {
        LastRecordExists(records, id);
        var i :| 0 <= i < |records| && records[i].id == id && LastWithId(records, i);
        UpsertAllLast(rows, records, i);
        UpsertAllLast(once, records, i);
      } else {
        UpsertAllUntouched(once, records, id);
      }
    }
  }

  predicate DistinctIds(records: seq<User>) {
    forall i, j :: 0 <= i < j < |records| ==> records[i].id != records[j].id
  }

  /** Every record's id is in the id set. */
  lemma {:induction false} IdSetHas(records: seq<User>, u: User)
    requires u in records
    ensures u.id in IdSet(records)
  {
    var init := records[..|records| - 1];
    if u != records[|records| - 1] {
      assert records == init + [records[|records| - 1]];
      IdSetHas(init, u);
    }
  }

  /** Every id in the id set belongs to one of the records. */
  lemma {:induction false} RecordWithId(records: seq<User>, id: int) returns (u: User)
    requires id in IdSet(records)
    ensures u in records && u.id == id
  {
    var init := records[..|records| - 1];
    if records[|records| - 1].id == id {
      u := records[|records| - 1];
    } else {
      u := RecordWithId(init, id);
      assert records == init + [records[|records| - 1]];
    }
  }

  /** Two orders of the same records carry the same ids. */
  lemma SameRecordsSameIds(a: seq<User>, b: seq<User>)
    requires multiset(a) == multiset(b)
    ensures IdSet(a) == IdSet(b)
    ensures forall u :: u in a <==> u in b
  {
    forall u ensures u in a <==> u in b {
      assert u in a <==> u in multiset(a);
      assert u in b <==> u in multiset(b);
    }
    forall id | id in IdSet(a) ensures id in IdSet(b) {
      var u := RecordWithId(a, id);
      IdSetHas(b, u);
    }
    forall id | id in IdSet(b) ensures id in IdSet(a) {
      var u := RecordWithId(b, id);
      IdSetHas(a, u);
    }
  }

  /** With distinct ids, the store holds each upserted record under its id. */
  lemma DistinctUpsertHoldsEach(rows: map<int, User>, records: seq<User>, u: User)
    requires DistinctIds(records) && u in records
    ensures u.id in UpsertAll(rows, records) && UpsertAll(rows, records)[u.id] == u
  {
    var i :| 0 <= i < |records| && records[i] == u;
    assert LastWithId(records, i);
    UpsertAllLast(rows, records, i);
  }

  /** With distinct ids, the order in which the workers happen to upsert does not
      matter: any two orders of the same records leave the same store. */
  lemma UpsertOrderIrrelevant(rows: map<int, User>, a: seq<User>, b: seq<User>)
    requires multiset(a) == multiset(b)
    requires DistinctIds(a) && DistinctIds(b)
    ensures UpsertAll(rows, a) == UpsertAll(rows, b)
  {
    SameRecordsSameIds(a, b);
    UpsertAllKeys(rows, a);
    UpsertAllKeys(rows, b);
    forall id | id in UpsertAll(rows, a) ensures UpsertAll(rows, a)[id] == UpsertAll(rows, b)[id] {
      if id in IdSet(a) {
        var u := RecordWithId(a, id);
        DistinctUpsertHoldsEach(rows, a, u);
        DistinctUpsertHoldsEach(rows, b, u);
      } else {
        UpsertAllUntouched(rows, a, id);
        UpsertAllUntouched(rows, b, id);
      }
    }
  }

  lemma UpsertAllAppend(rows: map<int, User>, records: seq<User>, r: User)
    ensures UpsertAll(rows, records + [r]) == UpsertAll(rows, records)[r.id := r]
  {
    assert (records + [r])[..|records|] == records;
  }

  lemma SplitAppend(records: seq<User>, r: User, failing: set<nat>)
    ensures Succeeded(records + [r], failing) == Succeeded(records, failing) + if |records| in failing then [] else [r]
    ensures Logged(records + [r], failing) == Logged(records, failing) + if |records| in failing then [r] else []
  {
    assert (records + [r])[..|records|] == records;
  }

  /** Taking the k-th record off the channel: it joins the logged failures or
      the successful upserts, depending on its call. */
  lemma DrainStep(rows: map<int, User>, channel: seq<User>, k: nat, failing: set<nat>)
    requires k < |channel|
    ensures channel[..k + 1] == channel[..k] + [channel[k]]
    ensures Logged(channel[..k + 1], failing) ==
      Logged(channel[..k], failing) + if k in failing then [channel[k]] else []
    ensures UpsertAll(rows, Succeeded(channel[..k + 1], failing)) ==
      if k in failing then UpsertAll(rows, Succeeded(channel[..k], failing))
      else UpsertAll(rows, Succeeded(channel[..k], failing))[channel[k].id := channel[k]]
  {
    var done := channel[..k];
    var record := channel[k];
    assert channel[..k + 1] == done + [record];
    var succeeded := Succeeded(done, failing);
    SplitAppend(done, record, failing);
    UpsertAllAppend(rows, succeeded, record);
    if k in failing {
      assert Succeeded(done + [record], failing) == succeeded;
    } else {
      assert Succeeded(done + [record], failing) == succeeded + [record];
    }
  }

  /** The pauses of a worker that handled n records: one of the same length after each. */
  function Pauses(n: nat, delayMs: int): (pauses: seq<int>)
    ensures |pauses| == n && forall i :: 0 <= i < n ==> pauses[i] == delayMs
  {
    if n == 0 then [] else Pauses(n - 1, delayMs) + [delayMs]
  }

  /** One worker's loop, made sequential: take every record off the channel in
      order, upsert it, log a failure and carry on, and pause after each record. */
  method DrainChannel(channel: seq<User>, rows: map<int, User>, failing: set<nat>, delayMs: int)
    returns (stored: map<int, User>, upserted: seq<User>, logged: seq<User>, pausesMs: seq<int>)
    ensures upserted == channel
    ensures logged == Logged(channel, failing)
    ensures stored == UpsertAll(rows, Succeeded(channel, failing))
    ensures pausesMs == Pauses(|channel|, delayMs)
  {
    stored, upserted, logged, pausesMs := rows, [], [], [];
    var k := 0;
    while k < |channel|
      invariant 0 <= k <= |channel|
      invariant upserted == channel[..k]
      invariant logged == Logged(channel[..k], failing)
      invariant stored == UpsertAll(rows, Succeeded(channel[..k], failing))
      invariant pausesMs == Pauses(k, delayMs)
    {
      var userRecord := channel[k];
      DrainStep(rows, channel, k, failing);
      if k in failing {
        logged := logged + [userRecord];
      } else {
        stored := stored[userRecord.id := userRecord];
      }
      upserted := upserted + [userRecord];
      pausesMs := pausesMs + [delayMs];
      k := k + 1;
    }
    assert channel[..k] == channel;
  }

  /** The whole run: the producer fills the channel and closes it, the workers
      drain it; the store ends with the successful upserts of every record sent,
      and the cursor is the largest id sent. */
  method Synchronize(upstream: seq<FetchOutcome>, rows: map<int, User>, failing: set<nat>, config: SyncConfig)
    returns (rounds: seq<Round>, channel: seq<User>, stored: map<int, User>, cursor: int, stop: StopReason)
    requires ValidConfig(config)
    ensures |rounds| >= 1 && Consistent(upstream, rounds, config)
    ensures stop == RetriesExhausted <==> rounds[|rounds| - 1].page.None?
    ensures channel == Dispatched(rounds)
    ensures stored == UpsertAll(rows, Succeeded(channel, failing))
    ensures cursor == MaxId(0, RecordIds(channel))
  {
    var requests, sleeps;
    rounds, channel, requests, sleeps, cursor, stop := RunProducer(upstream, config);
    CursorIsMaxDispatchedId(rounds);
    var upserted, logged, pausesMs;
    stored, upserted, logged, pausesMs := DrainChannel(channel, rows, failing, config.delayBetweenUpsertsMS);
  }
}
