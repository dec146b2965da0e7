/** Any run of one miner connection: job sends, submissions and judgements in any interleaving.
    No nonce passes twice, trust is earned, no block is lost; no work is credited twice on Xatum and
    Getwork, and on Stratum exactly unless one nonce is credited under two jobs with the same work. */
module ShareRuns {
  import opened GoTypes
  import opened Target
  import opened BlockMiner
  import opened ShareMachine

  datatype Key = Key(id: Id, nonce: u64)

  /** A job as it was sent. */
  datatype Offer = Offer(bm: Block, diff: u64, chainDiff: u64)

  /** What a credited share counts for whom. */
  datatype Report = Report(wallet: Bytes, diff: u64)

  datatype Step =
    | Send(blockDiff: u64, blob: Block, id: Id, at: real)
    | Authorize(wallet: Bytes, difficulty: u64)
    | Handshake(wallet: Bytes, next: Float)
    | Submit(data: Bytes, claimed: Option<Hash>, allowed: bool, at: real, nowMs: int)
    | Process(task: nat, algo: Bytes, lucky: bool, at: real)

  /** The connection and everything that ever happened on it. */
  datatype World = World(
    conn: Conn,
    sent: map<Id, Offer>,   // every job ever sent, by its id
    authorizes: nat,
    passed: seq<Key>,       // every (job id, nonce) that passed the nonce check
    queued: seq<Task>,      // every accepted submission, and the pair it was accepted under
    keys: seq<Key>,
    done: set<nat>,         // the queued submissions that have been judged
    credited: seq<nat>,     // those that were credited
    reports: seq<Report>,   // what was reported for each of them
    blocks: seq<Task>,      // those whose block went to the daemon
    base: int,              // the score after the last reset, 0 before any
    recomputed: nat,        // shares credited after recomputing the hash
    sinceReset: nat)        // the same since the last reset

  function Connected(now: real, initialDifficulty: u64): World {
    World(Conn([], Fin(initialDifficulty as real), now, 0, []), map[], 0, [], [], [], {}, [], [], [], 0, 0, 0)
  }

  function AfterSubmit(env: Env, minerId: Id, w: World, s: Step): World
    requires s.Submit?
  {
    var (c, v) := ShareMachine.Submit(env, w.conn, s.data, s.claimed, minerId, s.allowed, s.at, s.nowMs);
    if v.BadTime? && |s.data| == LENGTH then
      w.(conn := c, passed := w.passed + [Key(JobId(s.data), Nonce(s.data))])
    else if v.Accepted? && |s.data| == LENGTH then
      var k := Key(JobId(s.data), Nonce(s.data));
      w.(conn := c, passed := w.passed + [k], queued := w.queued + [v.task], keys := w.keys + [k])
    else w.(conn := c)
  }

  function AfterProcess(env: Env, w: World, s: Step): World
    requires s.Process?
  {
    if s.task >= |w.queued| || s.task in w.done then w
    else
      var t := w.queued[s.task];
      var (c, o) := Judge(env, w.conn, t, s.algo, s.lucky, s.at);
      var judged := w.(conn := c, done := w.done + {s.task});
      if o.Credited? then
        judged.(credited := w.credited + [s.task],
                reports := w.reports + [Report(o.wallet, o.diff)],
                blocks := if o.block.Some? then w.blocks + [t] else w.blocks,
                recomputed := w.recomputed + (if o.recomputed then 1 else 0),
                sinceReset := w.sinceReset + (if o.recomputed then 1 else 0))
      else if o.WrongHash? || (o.BelowTarget? && t.claimed.None?) then
        judged.(base := NegateI32(env.trustScore), sinceReset := 0)
      else judged
  }

  /** The block of a job as it is sent. */
  function JobBlock(env: Env, blob: Block, id: Id): Block {
    WithExtraNonce(blob, JobNonce(env, id))
  }

  function OfferOf(env: Env, c: Conn, blockDiff: u64, blob: Block, id: Id, at: real): Offer {
    Offer(JobBlock(env, blob, id), JobDiff(env, c, blockDiff, at), blockDiff)
  }

  function After(env: Env, minerId: Id, w: World, s: Step): World {
    match s
    case Send(blockDiff, blob, id, at) =>
      w.(conn := SendTo(env, w.conn, blockDiff, blob, id, at), sent := w.sent[id := OfferOf(env, w.conn, blockDiff, blob, id, at)])
    case Authorize(wallet, difficulty) => w.(conn := AuthorizeTo(w.conn, wallet, difficulty), authorizes := w.authorizes + 1)
    case Handshake(wallet, next) => w.(conn := w.conn.(wallet := wallet, nextDiff := next))
    case Submit(_, _, _, _, _) => AfterSubmit(env, minerId, w, s)
    case Process(_, _, _, _) => AfterProcess(env, w, s)
  }

  function Run(env: Env, minerId: Id, start: World, steps: seq<Step>): World {
    if steps == [] then start
    else After(env, minerId, Run(env, minerId, start, steps[..|steps| - 1]), steps[|steps| - 1])
  }

  /** Job ids are random: nonzero, and different from every earlier one. Chain difficulty is
      positive. */
  ghost predicate FreshSend(w: World, s: Step) {
    s.Send? ==> s.id != NO_ID && s.id !in w.sent && s.blockDiff >= 1
  }

  ghost predicate FreshRun(env: Env, minerId: Id, start: World, steps: seq<Step>) {
    steps == []
    || (FreshRun(env, minerId, start, steps[..|steps| - 1])
        && FreshSend(Run(env, minerId, start, steps[..|steps| - 1]), steps[|steps| - 1]))
  }

  // ----- the jobs -----

  /** A stub from an authorize has no id; every real job has a sent id, the pool nonce, a share
      difficulty between 1 and the block's, and remembers every nonce that passed under its id. */
  ghost predicate JobOk(env: Env, sent: map<Id, Offer>, passed: seq<Key>, j: ConnJob) {
    JobId(j.bm) == NO_ID
    || (&& JobId(j.bm) in sent && sent[JobId(j.bm)] == Offer(j.bm, j.diff, j.chainDiff)
        && PoolNonce(j.bm) == env.poolNonce
        && 1 <= j.diff <= j.chainDiff
        && forall k :: k in passed && k.id == JobId(j.bm) ==> k.nonce in j.nonces)
  }

  ghost predicate JobsOk(env: Env, w: World) {
    && (forall j :: j in w.conn.jobs ==> JobOk(env, w.sent, w.passed, j))
    && (forall i, j :: 0 <= i < j < |w.conn.jobs| ==>
          JobId(w.conn.jobs[i].bm) != JobId(w.conn.jobs[j].bm) || JobId(w.conn.jobs[i].bm) == NO_ID)
    && |w.conn.jobs| <= MAX_PAST_JOBS + w.authorizes
  }

  ghost predicate TaskOk(minerId: Id, sent: map<Id, Offer>, t: Task, k: Key) {
    && k.id in sent && t.diff == sent[k.id].diff && t.chainDiff == sent[k.id].chainDiff
    && Nonce(t.bm) == k.nonce
    && 1 <= t.diff <= t.chainDiff
    && (minerId == NO_ID ==> JobId(t.bm) == k.id)
  }

  ghost predicate KeysOk(minerId: Id, w: World) {
    && Distinct(w.passed)
    && (forall k :: k in w.passed ==> k.id in w.sent && k.id != NO_ID)
    && |w.keys| == |w.queued|
    && Distinct(w.keys)
    && (forall k :: k in w.keys ==> k in w.passed)
    && (forall i :: 0 <= i < |w.queued| ==> TaskOk(minerId, w.sent, w.queued[i], w.keys[i]))
  }

  ghost predicate CreditsOk(w: World) {
    && Distinct(w.credited)
    && (forall i :: i in w.credited ==> i in w.done)
    && (forall i :: i in w.done ==> i < |w.queued|)
    && |w.reports| == |w.credited|
    && (forall p :: 0 <= p < |w.credited| ==> w.credited[p] < |w.queued| && w.reports[p].diff == w.queued[w.credited[p]].diff)
  }

  /** Every block sent to the daemon has a recomputed hash that meets its chain difficulty. */
  ghost predicate BlocksOk(env: Env, w: World) {
    forall t :: t in w.blocks ==> t in w.queued && ProvenBlock(env, t)
  }

  ghost predicate ProvenBlock(env: Env, t: Task) {
    exists algo: Bytes, h: Hash :: HonestHash(env, t, algo, h) && CheckDiff(h, t.chainDiff)
  }

  /** Either enough shares were recomputed since the last reset, or the score counts them. */
  ghost predicate TrustOk(env: Env, w: World) {
    && (w.sinceReset >= env.trustScore - w.base || w.conn.score == w.base + w.sinceReset)
    && (w.base == NegateI32(env.trustScore) || (w.base == 0 && w.sinceReset == w.recomputed))
    && w.sinceReset <= w.recomputed
  }

  ghost predicate Invariant(env: Env, minerId: Id, w: World) {
    JobsOk(env, w) && KeysOk(minerId, w) && CreditsOk(w) && TrustOk(env, w) && BlocksOk(env, w)
  }

  // -- sending

  lemma JobDiffRange(env: Env, c: Conn, blockDiff: u64, now: real)
    requires ValidEnv(env) && blockDiff >= 1
    ensures 1 <= JobDiff(env, c, blockDiff, now) <= blockDiff
  {
  }

  lemma JobNonceParts(env: Env, blob: Block, id: Id)
    ensures var bm := WithExtraNonce(blob, JobNonce(env, id));
            JobId(bm) == id && PoolNonce(bm) == env.poolNonce
  {
    ExtraNonceLaws(blob, JobNonce(env, id));
  }

  lemma PushedJobs(jobs: seq<ConnJob>, job: ConnJob)
    ensures forall j :: j in PushJob(jobs, job) ==> j in jobs || j == job
    ensures |PushJob(jobs, job)| <= if |jobs| < MAX_PAST_JOBS then |jobs| + 1 else |jobs|
  {
  }

  /** Two places of the new list: both old, in the same order, or the later one is the new job. */
  lemma PushedPair(jobs: seq<ConnJob>, job: ConnJob, i: nat, j: nat) returns (a: nat, b: nat)
    requires i < j < |PushJob(jobs, job)|
    ensures a < b <= |jobs| && jobs[a] == PushJob(jobs, job)[i]
    ensures PushJob(jobs, job)[j] == if b == |jobs| then job else jobs[b]
  {
    var off := if |jobs| + 1 > MAX_PAST_JOBS then 1 else 0;
    a, b := i + off, j + off;
  }

  lemma SendKeepsJobs(env: Env, w: World, s: Step)
    requires ValidEnv(env) && s.Send? && FreshSend(w, s)
    requires JobsOk(env, w) && forall k :: k in w.passed ==> k.id in w.sent
    ensures JobsOk(env, w.(conn := SendTo(env, w.conn, s.blockDiff, s.blob, s.id, s.at), sent := w.sent[s.id := OfferOf(env, w.conn, s.blockDiff, s.blob, s.id, s.at)]))
  {
    hide JobDiff, WithExtraNonce, JobNonce, PushJob, Value;
    var job := NewJob(env, w.conn, s.blockDiff, s.blob, s.id, s.at);
    JobDiffRange(env, w.conn, s.blockDiff, s.at);
    JobNonceParts(env, s.blob, s.id);
    PushedJobs(w.conn.jobs, job);
    var jobs, sent := PushJob(w.conn.jobs, job), w.sent[s.id := OfferOf(env, w.conn, s.blockDiff, s.blob, s.id, s.at)];
    forall j | j in jobs
      ensures JobOk(env, sent, w.passed, j)
    {
      if j != job { assert JobOk(env, w.sent, w.passed, j); }
    }
    forall i, j | 0 <= i < j < |jobs|
      ensures JobId(jobs[i].bm) != JobId(jobs[j].bm) || JobId(jobs[i].bm) == NO_ID
    {
      var a, b := PushedPair(w.conn.jobs, job, i, j);
      assert w.conn.jobs[a] in w.conn.jobs && JobOk(env, w.sent, w.passed, w.conn.jobs[a]);
    }
  }

  lemma AuthorizeKeepsJobs(env: Env, w: World, wallet: Bytes, diff: u64)
    requires JobsOk(env, w)
    ensures JobsOk(env, w.(conn := AuthorizeTo(w.conn, wallet, diff), authorizes := w.authorizes + 1))
  {
    hide Value;
    StubHasNoId();
  }

  lemma StubHasNoId()
    ensures JobId(EMPTY_BLOCK) == NO_ID
  {
  }

  // -- submitting

  /** What passing the nonce check means. */
  lemma PassedNonceCheck(env: Env, minerId: Id, c: Conn, s: Step)
    requires s.Submit? && |s.data| == LENGTH
    ensures var (c', v) := ShareMachine.Submit(env, c, s.data, s.claimed, minerId, s.allowed, s.at, s.nowMs);
            (v.BadTime? || v.Accepted?) ==>
              exists i :: 0 <= i < |c.jobs|
                && JobId(c.jobs[i].bm) == JobId(s.data) != NO_ID
                && Nonce(s.data) !in c.jobs[i].nonces
                && c' == c.(jobs := c.jobs[i := c.jobs[i].(nonces := c.jobs[i].nonces + [Nonce(s.data)])])
                && (v.Accepted? ==> v.task == Task(Hashed(s.data, minerId), s.claimed, c.jobs[i].diff, c.jobs[i].chainDiff))
  {
    hide Value, WithJobId, Wrap64;
    JobIdLaws(s.data, minerId);
  }

  lemma OtherVerdictsKeepJobs(env: Env, minerId: Id, c: Conn, s: Step)
    requires s.Submit?
    ensures var (c', v) := ShareMachine.Submit(env, c, s.data, s.claimed, minerId, s.allowed, s.at, s.nowMs);
            && c'.score == c.score
            && ((v.BadTime? || v.Accepted?) ==> |s.data| == LENGTH)
            && (!(v.BadTime? || v.Accepted?) ==> c'.jobs == c.jobs)
  {
    hide Value, WithJobId, Wrap64;
  }

  /** Writing the nonce down under the only job with the id keeps the jobs' promise. */
  lemma NonceWrittenDown(env: Env, w: World, i: nat, k: Key)
    requires JobsOk(env, w) && i < |w.conn.jobs| && JobId(w.conn.jobs[i].bm) == k.id != NO_ID
    ensures var jobs := w.conn.jobs[i := w.conn.jobs[i].(nonces := w.conn.jobs[i].nonces + [k.nonce])];
            JobsOk(env, w.(conn := w.conn.(jobs := jobs), passed := w.passed + [k]))
  {
    hide Value;
    var old_ := w.conn.jobs;
    var jobs := old_[i := old_[i].(nonces := old_[i].nonces + [k.nonce])];
    forall a | 0 <= a < |jobs|
      ensures JobOk(env, w.sent, w.passed + [k], jobs[a])
    {
      assert old_[a] in old_ && JobOk(env, w.sent, w.passed, old_[a]);
    }
  }

  lemma DistinctAppend<T(!new)>(s: seq<T>, x: T)
    requires Distinct(s) && x !in s
    ensures Distinct(s + [x])
  {
  }

  lemma SubmitKeepsInvariant(env: Env, minerId: Id, w: World, s: Step)
    requires s.Submit? && Invariant(env, minerId, w)
    ensures Invariant(env, minerId, AfterSubmit(env, minerId, w, s))
  {
    hide Value, WithJobId, Wrap64, ShareMachine.Submit, JobOk, JobsOk, Distinct, ProvenBlock;
    var (c, v) := ShareMachine.Submit(env, w.conn, s.data, s.claimed, minerId, s.allowed, s.at, s.nowMs);
    OtherVerdictsKeepJobs(env, minerId, w.conn, s);
    if v.BadTime? || v.Accepted? {
      PassedNonceCheck(env, minerId, w.conn, s);
      var k := Key(JobId(s.data), Nonce(s.data));
      var i :| 0 <= i < |w.conn.jobs|
        && JobId(w.conn.jobs[i].bm) == k.id != NO_ID
        && k.nonce !in w.conn.jobs[i].nonces
        && c == w.conn.(jobs := w.conn.jobs[i := w.conn.jobs[i].(nonces := w.conn.jobs[i].nonces + [k.nonce])])
        && (v.Accepted? ==> v.task == Task(Hashed(s.data, minerId), s.claimed, w.conn.jobs[i].diff, w.conn.jobs[i].chainDiff));
      LiveJob(env, w, i);
      NonceWrittenDown(env, w, i, k);
      assert k !in w.passed;
      DistinctAppend(w.passed, k);
      if v.Accepted? {
        assert k !in w.keys;
        DistinctAppend(w.keys, k);
        JobIdLaws(s.data, minerId);
      }
      JobsOkIgnoresRest(env, w.(conn := c, passed := w.passed + [k]), AfterSubmit(env, minerId, w, s));
    } else {
      JobsOkIgnoresRest(env, w, AfterSubmit(env, minerId, w, s));
    }
  }

  lemma LiveJob(env: Env, w: World, i: nat)
    requires JobsOk(env, w) && i < |w.conn.jobs| && JobId(w.conn.jobs[i].bm) != NO_ID
    ensures var j := w.conn.jobs[i];
            && JobId(j.bm) in w.sent && w.sent[JobId(j.bm)] == Offer(j.bm, j.diff, j.chainDiff) && PoolNonce(j.bm) == env.poolNonce && 1 <= j.diff <= j.chainDiff
            && forall k :: k in w.passed && k.id == JobId(j.bm) ==> k.nonce in j.nonces
  {
    assert w.conn.jobs[i] in w.conn.jobs;
  }

  lemma JobsOkIgnoresRest(env: Env, w: World, w': World)
    requires JobsOk(env, w)
    requires w'.conn.jobs == w.conn.jobs && w'.sent == w.sent && w'.passed == w.passed && w'.authorizes == w.authorizes
    ensures JobsOk(env, w')
  {
  }

  // -- judging

  /** How a judgement moves the score: one up for a credit, reset for a proven lie. A credit
      without recomputation needs the trust score. */
  lemma JudgeScores(env: Env, c: Conn, t: Task, algo: Bytes, lucky: bool, now: real)
    ensures var (c', o) := Judge(env, c, t, algo, lucky, now);
            && c'.jobs == c.jobs && c'.wallet == c.wallet
            && (o.Credited? ==> o.wallet == c.wallet && o.diff == t.diff)
            && (o.Credited? ==> c'.score == WrapI32(c.score + 1) && (!o.recomputed ==> c.score >= env.trustScore))
            && (o.WrongHash? || (o.BelowTarget? && t.claimed.None?) ==> c'.score == NegateI32(env.trustScore))
            && (!o.Credited? && !o.WrongHash? && !(o.BelowTarget? && t.claimed.None?) ==> c'.score == c.score)
  {
    hide CheckDiff, WrapI32, NegateI32;
  }

  /** Counting up, the score reaches the trust score before it can wrap around. */
  lemma TrustAfterCredit(env: Env, w: World, w': World, recomputed: bool)
    requires TrustOk(env, w)
    requires w'.conn.score == WrapI32(w.conn.score + 1) && w'.base == w.base
    requires !recomputed ==> w.conn.score >= env.trustScore
    requires w'.sinceReset == w.sinceReset + (if recomputed then 1 else 0)
    requires w'.recomputed == w.recomputed + (if recomputed then 1 else 0)
    ensures TrustOk(env, w')
  {
  }

  lemma SentIsProven(env: Env, minerId: Id, c: Conn, sent: map<Id, Offer>, t: Task, k: Key, s: Step)
    requires s.Process? && TaskOk(minerId, sent, t, k)
    ensures var o := Judge(env, c, t, s.algo, s.lucky, s.at).1;
            o.Credited? && o.block.Some? ==> ProvenBlock(env, t)
  {
    hide Judge, CheckDiff, HonestHash;
    BlockSentExactly(env, c, t, s.algo, s.lucky, s.at);
  }

  lemma ProcessKeepsInvariant(env: Env, minerId: Id, w: World, s: Step)
    requires s.Process? && Invariant(env, minerId, w)
    ensures Invariant(env, minerId, AfterProcess(env, w, s))
  {
    hide Judge, JobsOk, NegateI32, WrapI32, Distinct, TaskOk, HonestHash, ProvenBlock, CheckDiff;
    var w' := AfterProcess(env, w, s);
    if s.task < |w.queued| && s.task !in w.done {
      var t := w.queued[s.task];
      var (c, o) := Judge(env, w.conn, t, s.algo, s.lucky, s.at);
      assert TaskOk(minerId, w.sent, t, w.keys[s.task]);
      SentIsProven(env, minerId, w.conn, w.sent, t, w.keys[s.task], s);
      JudgeScores(env, w.conn, t, s.algo, s.lucky, s.at);
      JobsOkIgnoresRest(env, w, w');
      if o.Credited? {
        TrustAfterCredit(env, w, w', o.recomputed);
        DistinctAppend(w.credited, s.task);
      }
    }
  }

  lemma SendKeepsKeys(env: Env, minerId: Id, w: World, s: Step)
    requires s.Send? && FreshSend(w, s) && KeysOk(minerId, w)
    ensures KeysOk(minerId, After(env, minerId, w, s))
  {
    hide SendTo, OfferOf, Value, Distinct;
    var sent := w.sent[s.id := OfferOf(env, w.conn, s.blockDiff, s.blob, s.id, s.at)];
    forall i | 0 <= i < |w.queued|
      ensures TaskOk(minerId, sent, w.queued[i], w.keys[i])
    {
      assert TaskOk(minerId, w.sent, w.queued[i], w.keys[i]);
    }
  }

  lemma StepKeepsInvariant(env: Env, minerId: Id, w: World, s: Step)
    requires ValidEnv(env) && Invariant(env, minerId, w) && FreshSend(w, s)
    ensures Invariant(env, minerId, After(env, minerId, w, s))
  {
    hide AfterSubmit, AfterProcess, JobsOk, Distinct, TaskOk, PushJob, NewJob, ProvenBlock;
    match s
    case Send(_, _, _, _) =>
      SendKeepsJobs(env, w, s);
      SendKeepsKeys(env, minerId, w, s);
    case Authorize(wallet, difficulty) => AuthorizeKeepsJobs(env, w, wallet, difficulty);
    case Handshake(_, _) => JobsOkIgnoresRest(env, w, After(env, minerId, w, s));
    case Submit(_, _, _, _, _) => SubmitKeepsInvariant(env, minerId, w, s);
    case Process(_, _, _, _) => ProcessKeepsInvariant(env, minerId, w, s);
  }

  lemma {:induction false} InvariantHolds(env: Env, minerId: Id, now: real, initial: u64, steps: seq<Step>)
    requires ValidEnv(env) && FreshRun(env, minerId, Connected(now, initial), steps)
    ensures Invariant(env, minerId, Run(env, minerId, Connected(now, initial), steps))
  {
    hide After, FreshSend;
    if steps != [] {
      var n := |steps| - 1;
      InvariantHolds(env, minerId, now, initial, steps[..n]);
      StepKeepsInvariant(env, minerId, Run(env, minerId, Connected(now, initial), steps[..n]), steps[n]);
    }
  }

  // ----- what holds over every run -----

  /** No (job id, nonce) pair ever passes the nonce check twice, evicted jobs included, and the job
      window holds at most six jobs plus one stub for each authorize. */
  lemma NoPairPassesTwice(env: Env, minerId: Id, now: real, initial: u64, steps: seq<Step>)
    requires ValidEnv(env) && FreshRun(env, minerId, Connected(now, initial), steps)
    ensures var w := Run(env, minerId, Connected(now, initial), steps);
            && (forall i, j :: 0 <= i < j < |w.passed| ==> w.passed[i] != w.passed[j])
            && |w.conn.jobs| <= 6 + w.authorizes
  {
    InvariantHolds(env, minerId, now, initial, steps);
  }

  /** A credited share moves the next difficulty to a weighted mean of the old one and the measured
      one, the latter never below the configured minimum. It stays finite if and only if it was and
      the clock has moved since the last share (or a negative share target makes an infinite rate
      count as the minimum). */
  lemma RetargetStaysBetween(env: Env, c: Conn, diff: u64, now: real)
    ensures var target := AtLeast(Goal(env, HashRate(diff, now - c.lastShare)), env.minDifficulty);
            var old_, next := c.nextDiff, Retarget(env, c, diff, now).nextDiff;
            && (target.Fin? ==> target.r >= env.minDifficulty as real)
            && (target.Fin? <==> now != c.lastShare || (diff > 0 && env.shareTarget < 0.0))
            && (next.Fin? <==> old_.Fin? && target.Fin?)
            && (next.Fin? ==>
                  && (old_.r <= target.r ==> old_.r <= next.r <= target.r)
                  && (target.r <= old_.r ==> target.r <= next.r <= old_.r))
            && (next.NaN? <==>
                  || old_.NaN? || (now == c.lastShare && (diff == 0 || env.shareTarget == 0.0))
                  || (old_.NegInf? && target.Inf?))
  {
  }

  /** A share is credited without recomputing its hash only after the trust score's worth of
      recomputed shares, since the start and, after a reset, twice as many since the reset. */
  lemma TrustIsEarned(env: Env, minerId: Id, now: real, initial: u64, steps: seq<Step>, s: Step)
    requires ValidEnv(env) && FreshRun(env, minerId, Connected(now, initial), steps)
    ensures var w := Run(env, minerId, Connected(now, initial), steps);
            s.Process? && s.task < |w.queued| ==>
              var o := Judge(env, w.conn, w.queued[s.task], s.algo, s.lucky, s.at).1;
              o.Credited? && !o.recomputed ==>
                && w.conn.score >= env.trustScore
                && w.recomputed >= env.trustScore
                && w.sinceReset >= env.trustScore - w.base
                && (w.base != 0 && env.trustScore >= 0 ==> w.sinceReset >= 2 * env.trustScore)
  {
    hide Judge, JobsOk, KeysOk, CreditsOk, TrustOk, NegateI32, Run, FreshRun;
    InvariantHolds(env, minerId, now, initial, steps);
    var w := Run(env, minerId, Connected(now, initial), steps);
    if s.Process? && s.task < |w.queued| {
      JudgeScores(env, w.conn, w.queued[s.task], s.algo, s.lucky, s.at);
    }
    if w.conn.score >= env.trustScore {
      TrustedScore(env, w);
    }
  }

  lemma TrustedScore(env: Env, w: World)
    requires TrustOk(env, w) && w.conn.score >= env.trustScore
    ensures w.recomputed >= env.trustScore
    ensures w.sinceReset >= env.trustScore - w.base
    ensures w.base != 0 && env.trustScore >= 0 ==> w.sinceReset >= 2 * env.trustScore
  {
    hide NegateI32;
    Negation(env.trustScore);
  }

  lemma Negation(x: i32)
    ensures x >= 0 ==> NegateI32(x) == 0 - x
  {
    var n: int := x;
    if n > 0 { assert (0 - n) % TWO32 == TWO32 - n by { assert 0 - n == (0 - 1) * TWO32 + (TWO32 - n); } }
  }

  // ----- blocks -----

  /** The recomputed hash is there, not blank, and the one the miner claimed, if it claimed one. */
  ghost predicate HonestHash(env: Env, t: Task, algo: Bytes, h: Hash) {
    PowHash(env, t.bm, algo) == Some(h) && h != NO_HASH && (t.claimed.Some? ==> t.claimed.value == h)
  }

  /** For a task whose share difficulty is between 1 and the chain's, the block goes to the daemon
      if and only if its recomputed hash meets the chain difficulty: no block is lost to the share
      check and none is sent on the miner's word. */
  lemma BlockSentExactly(env: Env, c: Conn, t: Task, algo: Bytes, lucky: bool, now: real)
    requires 1 <= t.diff <= t.chainDiff
    ensures var o := Judge(env, c, t, algo, lucky, now).1;
            && ((o.Credited? && o.block.Some?)
                 <==> exists h: Hash :: HonestHash(env, t, algo, h) && CheckDiff(h, t.chainDiff))
            && (o.Credited? && o.block.Some? ==> o.block.value == t.bm && o.recomputed && o.diff == t.diff)
  {
    hide CheckDiff, WrapI32, Retarget;
    if h: Hash :| HonestHash(env, t, algo, h) && CheckDiff(h, t.chainDiff) {
      CheckDiffAntitone(h, t.diff, t.chainDiff);
    }
    var o := Judge(env, c, t, algo, lucky, now).1;
    if o.Credited? && o.block.Some? {
      var h := if t.claimed.None? then PowHash(env, t.bm, algo).value else t.claimed.value;
      assert HonestHash(env, t, algo, h) && CheckDiff(h, t.chainDiff);
    }
  }

  /** The same for every submission any run accepts. */
  lemma NoBlockIsLost(env: Env, minerId: Id, now: real, initial: u64, steps: seq<Step>, i: nat, algo: Bytes, lucky: bool, at: real)
    requires ValidEnv(env) && FreshRun(env, minerId, Connected(now, initial), steps)
    ensures var w := Run(env, minerId, Connected(now, initial), steps);
            i < |w.queued| ==>
              var t := w.queued[i];
              var o := Judge(env, w.conn, t, algo, lucky, at).1;
              ((o.Credited? && o.block == Some(t.bm))
               <==> exists h: Hash :: HonestHash(env, t, algo, h) && CheckDiff(h, t.chainDiff))
  {
    hide Judge, JobsOk, TrustOk, HonestHash, CheckDiff;
    InvariantHolds(env, minerId, now, initial, steps);
    var w := Run(env, minerId, Connected(now, initial), steps);
    if i < |w.queued| {
      assert TaskOk(minerId, w.sent, w.queued[i], w.keys[i]);
      BlockSentExactly(env, w.conn, w.queued[i], algo, lucky, at);
    }
  }

  /** An honest hash that meets the share difficulty is always credited, and a recomputed credit
      is always an honest hash that meets it. */
  lemma HonestShareCredited(env: Env, c: Conn, t: Task, algo: Bytes, lucky: bool, now: real)
    ensures var o := Judge(env, c, t, algo, lucky, now).1;
            && (forall h: Hash :: HonestHash(env, t, algo, h) && CheckDiff(h, t.diff) ==> o.Credited?)
            && (o.Credited? && o.recomputed ==> exists h: Hash :: HonestHash(env, t, algo, h) && CheckDiff(h, t.diff))
  {
    hide CheckDiff, WrapI32, Retarget;
    var o := Judge(env, c, t, algo, lucky, now).1;
    if o.Credited? && o.recomputed {
      var h := if t.claimed.None? then PowHash(env, t.bm, algo).value else t.claimed.value;
      assert HonestHash(env, t, algo, h) && CheckDiff(h, t.diff);
    }
  }

  /** On every run, whatever went to the daemon was accepted from the miner and has a recomputed hash
      that meets the chain difficulty. */
  lemma BlocksAreProven(env: Env, minerId: Id, now: real, initial: u64, steps: seq<Step>, t: Task)
    requires ValidEnv(env) && FreshRun(env, minerId, Connected(now, initial), steps)
    ensures var w := Run(env, minerId, Connected(now, initial), steps);
            t in w.blocks ==> t in w.queued && ProvenBlock(env, t)
  {
    hide ProvenBlock, JobsOk, KeysOk, TrustOk;
    InvariantHolds(env, minerId, now, initial, steps);
  }
}
