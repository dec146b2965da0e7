/** What a connection promises its miner, in terms of the bytes submitted, the jobs sent and the steps
    taken: what is sent as a job, which submission is accepted, which share is credited, for how much
    and to whom. */
module SubmissionRuns {
  import opened GoTypes
  import opened Target
  import opened BlockMiner
  import opened ShareMachine
  import opened ShareRuns
  import opened StratumRuns

  // ----- jobs -----

  /** The difficulty wanted of a miner: it fades while no share arrives, but not below the minimum. */
  function Wanted(r: real, pause: real, min: u64): real {
    var faded := if pause > 1.0 then r / (1.0 + pause / 40.0) else r;
    if faded < min as real then min as real else faded
  }

  lemma WantedIs(env: Env, c: Conn, now: real)
    requires c.nextDiff.Fin?
    ensures NextDiff(env, c, now) == Fin(Wanted(c.nextDiff.r, now - c.lastShare, env.minDifficulty))
  {
  }

  lemma JobDiffIs(env: Env, c: Conn, blockDiff: u64, now: real)
    requires c.nextDiff.Fin?
    ensures var wanted := Wanted(c.nextDiff.r, now - c.lastShare, env.minDifficulty);
            wanted < TWO64 as real ==> JobDiff(env, c, blockDiff, now) == Min(wanted.Floor, blockDiff)
  {
    hide Wanted, NextDiff;
    WantedIs(env, c, now);
    AtLeastMinimum(c.nextDiff.r, now - c.lastShare, env.minDifficulty);
  }

  lemma AtLeastMinimum(r: real, pause: real, min: u64)
    ensures Wanted(r, pause, min) >= min as real
  {
  }

  /** A job that is sent is the last one kept, the oldest one goes when there were six, and the others
      stay. It carries the template's work under its own id, with the pool nonce, an empty list of
      nonces, and the wanted difficulty, at most the chain's. */
  lemma JobSentExactly(env: Env, c: Conn, blockDiff: u64, blob: Block, id: Id, now: real)
    ensures var c' := SendTo(env, c, blockDiff, blob, id, now);
            && c' == c.(jobs := c'.jobs) && c'.jobs != []
            && var job := c'.jobs[|c'.jobs| - 1];
               && c'.jobs == (if |c.jobs| >= 6 then c.jobs[1..] else c.jobs) + [job]
               && job.nonces == [] && job.chainDiff == blockDiff
               && ExtraNonce(job.bm) == id + env.poolNonce + Zeros(8)
               && JobId(job.bm) == id && PoolNonce(job.bm) == env.poolNonce
               && Workhash(job.bm) == Workhash(blob) && Timestamp(job.bm) == Timestamp(blob)
               && Nonce(job.bm) == Nonce(blob) && PublicKey(job.bm) == PublicKey(blob)
               && (c.nextDiff.Fin? ==>
                     var wanted := Wanted(c.nextDiff.r, now - c.lastShare, env.minDifficulty);
                     wanted < TWO64 as real ==> job.diff == Min(wanted.Floor, blockDiff))
  {
    hide JobDiff, Wanted, WithExtraNonce, Value, Wrap64, Zeros;
    var job := NewJob(env, c, blockDiff, blob, id, now);
    ExtraNonceLaws(blob, JobNonce(env, id));
    JobNonceParts(env, blob, id);
    if c.nextDiff.Fin? { JobDiffIs(env, c, blockDiff, now); }
    if |c.jobs| >= 6 { assert (c.jobs + [job])[1..] == c.jobs[1..] + [job]; }
  }

  /** A miner that authorizes with a difficulty gets it for its first job, within the pool's minimum and
      the chain's difficulty. */
  lemma AuthorizedDifficulty(env: Env, c: Conn, wallet: Bytes, diff: u64, blockDiff: u64, blob: Block, id: Id, now: real)
    requires now - c.lastShare <= 1.0
    ensures var c' := SendTo(env, AuthorizeTo(c, wallet, diff), blockDiff, blob, id, now);
            && c'.jobs != [] && c'.wallet == wallet
            && c'.jobs[|c'.jobs| - 1].diff == Min(if diff < env.minDifficulty then env.minDifficulty else diff, blockDiff)
  {
    hide SendTo;
    JobSentExactly(env, AuthorizeTo(c, wallet, diff), blockDiff, blob, id, now);
  }

  /** The weights of the retarget: a new connection moves faster than one with 15 shares behind it. */
  lemma RetargetWeights(env: Env, c: Conn, diff: u64, now: real)
    ensures var target := AtLeast(Goal(env, HashRate(diff, now - c.lastShare)), env.minDifficulty);
            var next := Retarget(env, c, diff, now).nextDiff;
            var k := if 0 <= c.score < 5 then 5.0 else if c.score < 15 then 12.0 else 20.0;
            && Retarget(env, c, diff, now) == c.(lastShare := now, nextDiff := next)
            && (next.Fin? && c.nextDiff.Fin? && target.Fin? ==> next.r * k == c.nextDiff.r * (k - 1.0) + target.r)
            && (now != c.lastShare && diff as real / (now - c.lastShare) * env.shareTarget >= env.minDifficulty as real ==>
                  target == Fin(diff as real / (now - c.lastShare) * env.shareTarget))
  {
  }

  // ----- which submission is accepted -----

  /** What the bytes alone must satisfy. */
  predicate Usable(env: Env, s: Step) {
    && s.Submit? && s.allowed && |s.data| == LENGTH
    && PoolNonce(s.data) == env.poolNonce && JobId(s.data) != NO_ID
  }

  /** Job j is the one submitted for, with its work, and has not seen the nonce. */
  predicate NewFor(c: Conn, s: Step, j: nat)
    requires s.Submit? && |s.data| == LENGTH
  {
    && j < |c.jobs| && JobId(c.jobs[j].bm) == JobId(s.data)
    && Workhash(s.data) == Workhash(c.jobs[j].bm) && PublicKey(s.data) == PublicKey(c.jobs[j].bm)
    && Nonce(s.data) !in c.jobs[j].nonces
  }

  /** Not before the job's timestamp and at most ten seconds ahead. */
  predicate InTime(c: Conn, s: Step, j: nat)
    requires s.Submit? && |s.data| == LENGTH && j < |c.jobs|
  {
    Timestamp(c.jobs[j].bm) <= Timestamp(s.data) <= (s.nowMs + 10000) % TWO64
  }

  /** What is hashed for a submission: its own bytes, with the miner's id for the job id on Stratum. */
  predicate HashedFor(minerId: Id, data: Block, bm: Block) {
    && (minerId == NO_ID ==> bm == data)
    && (minerId != NO_ID ==>
          && JobId(bm) == minerId && ExtraNonce(bm) == minerId + ExtraNonce(data)[16..]
          && Workhash(bm) == Workhash(data) && Timestamp(bm) == Timestamp(data)
          && Nonce(bm) == Nonce(data) && PublicKey(bm) == PublicKey(data))
  }

  lemma HashedIs(minerId: Id, data: Block)
    ensures HashedFor(minerId, data, Hashed(data, minerId))
    ensures Workhash(Hashed(data, minerId)) == Workhash(data) && Timestamp(Hashed(data, minerId)) == Timestamp(data)
    ensures Nonce(Hashed(data, minerId)) == Nonce(data) && PublicKey(Hashed(data, minerId)) == PublicKey(data)
  {
    hide Value, WithJobId, Wrap64;
    JobIdLaws(data, minerId);
  }

  /** The jobs after the nonce was written down under job j. */
  predicate WrittenDown(c: Conn, c': Conn, s: Step, j: nat)
    requires s.Submit? && |s.data| == LENGTH && j < |c.jobs|
  {
    c' == c.(jobs := c.jobs[j := c.jobs[j].(nonces := c.jobs[j].nonces + [Nonce(s.data)])])
  }

  lemma SubmitFinds(env: Env, minerId: Id, w: World, s: Step, j: nat)
    requires JobsOk(env, w) && Usable(env, s) && NewFor(w.conn, s, j)
    ensures var (c, v) := ShareMachine.Submit(env, w.conn, s.data, s.claimed, minerId, s.allowed, s.at, s.nowMs);
            && WrittenDown(w.conn, c, s, j)
            && (InTime(w.conn, s, j) ==>
                  v == Accepted(Task(Hashed(s.data, minerId), s.claimed, w.conn.jobs[j].diff, w.conn.jobs[j].chainDiff)))
            && (!InTime(w.conn, s, j) ==> v == BadTime)
  {
    hide Value, Hashed, Workhash, PublicKey, PoolNonce, JobsOk, Wrap64;
    OnlyJobWithId(env, w, j);
    HashedIs(minerId, s.data);
    AheadIs(s.nowMs);
  }

  lemma AheadIs(nowMs: int)
    ensures Wrap64(nowMs + FUTURE_LIMIT_MS) == (nowMs + 10000) % TWO64
  {
  }

  /** No live job has the id submitted. */
  predicate Outdated(env: Env, c: Conn, s: Step) {
    Usable(env, s) && forall j :: j in c.jobs ==> JobId(j.bm) != JobId(s.data)
  }

  /** Without such a job the submission is refused before its nonce is written down. */
  lemma SubmitRefuses(env: Env, minerId: Id, c: Conn, s: Step)
    requires s.Submit? && !(Usable(env, s) && exists j: nat :: NewFor(c, s, j))
    ensures var (c', v) := ShareMachine.Submit(env, c, s.data, s.claimed, minerId, s.allowed, s.at, s.nowMs);
            && !v.Accepted? && !v.BadTime?
            && c' == (if Outdated(env, c, s) then c.(lastShare := s.at) else c)
  {
    hide Value, Hashed, Workhash, PublicKey, PoolNonce, Wrap64;
    if Usable(env, s) {
      HashedIs(minerId, s.data);
      var i := FindJob(c.jobs, JobId(s.data));
      assert !NewFor(c, s, i);
      if i < |c.jobs| { assert c.jobs[i] in c.jobs; }
    }
  }

  /** A submission is queued if and only if it is allowed, has 112 bytes, the pool nonce and a nonzero job
      id, and some live job has this id, the same work hash and public key, has not seen the nonce, and
      the timestamp is not before the job's and at most ten seconds ahead. What is queued are its bytes,
      with the job's difficulties. The nonce is written down even when only the timestamp is wrong; else
      nothing changes, except that an outdated submission restarts the pause since the last share. */
  ghost predicate AcceptedRight(env: Env, minerId: Id, w: World, s: Step)
    requires s.Submit?
  {
    var w' := After(env, minerId, w, s);
    && w.queued <= w'.queued
    && (|w'.queued| > |w.queued| <==>
          Usable(env, s) && exists j: nat :: NewFor(w.conn, s, j) && InTime(w.conn, s, j))
    && (|w'.passed| > |w.passed| <==> Usable(env, s) && exists j: nat :: NewFor(w.conn, s, j))
    && (!(Usable(env, s) && exists j: nat :: NewFor(w.conn, s, j)) ==>
          w'.conn == if Outdated(env, w.conn, s) then w.conn.(lastShare := s.at) else w.conn)
    && forall j: nat :: Usable(env, s) && NewFor(w.conn, s, j) ==>
         && WrittenDown(w.conn, w'.conn, s, j)
         && w'.passed == w.passed + [Key(JobId(s.data), Nonce(s.data))]
         && (InTime(w.conn, s, j) ==>
               && |w'.queued| == |w.queued| + 1
               && w'.keys == w.keys + [Key(JobId(s.data), Nonce(s.data))]
               && var t := w'.queued[|w.queued|];
                  && HashedFor(minerId, s.data, t.bm) && t.claimed == s.claimed
                  && t.diff == w.conn.jobs[j].diff && t.chainDiff == w.conn.jobs[j].chainDiff)
  }

  /** On every run and for every kind of connection. */
  lemma AcceptedExactly(env: Env, minerId: Id, now: real, initial: u64, steps: seq<Step>, s: Step)
    requires ValidEnv(env) && FreshRun(env, minerId, Connected(now, initial), steps) && s.Submit?
    ensures AcceptedRight(env, minerId, Run(env, minerId, Connected(now, initial), steps), s)
  {
    hide AcceptedRight, Invariant;
    InvariantHolds(env, minerId, now, initial, steps);
    AcceptedInState(env, minerId, Run(env, minerId, Connected(now, initial), steps), s);
  }

  lemma AcceptedInState(env: Env, minerId: Id, w: World, s: Step)
    requires Invariant(env, minerId, w) && s.Submit?
    ensures AcceptedRight(env, minerId, w, s)
  {
    hide JobsOk, KeysOk, CreditsOk, TrustOk, BlocksOk, ShareMachine.Submit, NewFor, InTime, Outdated, HashedFor, WrittenDown, Hashed, Value, Wrap64;
    if Usable(env, s) && exists j: nat :: NewFor(w.conn, s, j) {
      forall j: nat | NewFor(w.conn, s, j)
        ensures j < |w.conn.jobs|
        ensures var (c, v) := ShareMachine.Submit(env, w.conn, s.data, s.claimed, minerId, s.allowed, s.at, s.nowMs);
                && WrittenDown(w.conn, c, s, j)
                && (InTime(w.conn, s, j) ==>
                      v == Accepted(Task(Hashed(s.data, minerId), s.claimed, w.conn.jobs[j].diff, w.conn.jobs[j].chainDiff)))
                && (!InTime(w.conn, s, j) ==> v == BadTime)
      {
        InsideJobs(w.conn, s, j);
        SubmitFinds(env, minerId, w, s, j);
      }
      HashedIs(minerId, s.data);
    } else {
      SubmitRefuses(env, minerId, w.conn, s);
    }
  }

  lemma InsideJobs(c: Conn, s: Step, j: nat)
    requires s.Submit? && |s.data| == LENGTH && NewFor(c, s, j)
    ensures j < |c.jobs|
  {
  }

  // ----- which share is credited -----

  /** A hash that a share may be credited for: not blank, the one claimed if one was claimed, and meeting
      the share's difficulty. */
  predicate GoodFor(t: Task, h: Hash) {
    h != NO_HASH && (t.claimed.Some? ==> t.claimed.value == h) && CheckDiff(h, t.diff)
  }

  /** The pool computes the hash itself: none was claimed, it would find a block, the connection is not
      trusted yet, or the draw says so. */
  predicate Recomputes(env: Env, score: i32, t: Task, h: Hash, lucky: bool) {
    t.claimed.None? || CheckDiff(h, t.chainDiff) || score < env.trustScore || lucky
  }

  /** A queued submission that has not been judged is credited if and only if it has a good hash that,
      where the pool recomputes it, is the proof-of-work hash of its bytes. */
  lemma CreditedExactly(env: Env, minerId: Id, w: World, s: Step)
    requires s.Process? && s.task < |w.queued| && s.task !in w.done
    ensures var w', t := After(env, minerId, w, s), w.queued[s.task];
            && (w'.credited == (if |w'.credited| > |w.credited| then w.credited + [s.task] else w.credited))
            && (|w'.credited| > |w.credited| <==>
                  exists h: Hash :: GoodFor(t, h) && (Recomputes(env, w.conn.score, t, h, s.lucky) ==> env.pow(t.bm, s.algo) == Some(h)))
  {
    hide CheckDiff, WrapI32, Retarget, NegateI32;
    var t := w.queued[s.task];
    var (c, o) := Judge(env, w.conn, t, s.algo, s.lucky, s.at);
    if o.Credited? {
      var h := if t.claimed.None? then PowHash(env, t.bm, s.algo).value else t.claimed.value;
      assert GoodFor(t, h) && (Recomputes(env, w.conn.score, t, h, s.lucky) ==> env.pow(t.bm, s.algo) == Some(h));
    }
  }

  // ----- for how much, and to whom -----

  /** The wallet given last. */
  function LastWallet(steps: seq<Step>): Bytes {
    if steps == [] then []
    else
      match steps[|steps| - 1]
      case Authorize(wallet, _) => wallet
      case Handshake(wallet, _) => wallet
      case _ => LastWallet(steps[..|steps| - 1])
  }

  /** For each credit of a run, the wallet given last before it. */
  function WalletsDue(env: Env, minerId: Id, start: World, steps: seq<Step>): seq<Bytes> {
    if steps == [] then []
    else
      var init := steps[..|steps| - 1];
      WalletsDue(env, minerId, start, init)
        + if |Run(env, minerId, start, steps).credited| > |Run(env, minerId, start, init).credited| then [LastWallet(init)] else []
  }

  lemma StepWallet(env: Env, minerId: Id, w: World, s: Step)
    ensures var w' := After(env, minerId, w, s);
            && w'.conn.wallet == (match s case Authorize(wallet, _) => wallet case Handshake(wallet, _) => wallet case _ => w.conn.wallet)
            && w.reports <= w'.reports
            && |w'.reports| - |w.reports| == |w'.credited| - |w.credited| <= 1
            && (|w'.reports| > |w.reports| ==> w'.reports[|w.reports|].wallet == w.conn.wallet)
  {
    hide ShareMachine.Submit, Judge, PushJob, NewJob, OfferOf;
    match s
    case Submit(_, _, _, _, _) => SubmitKeepsWallet(env, minerId, w.conn, s);
    case Process(k, algo, lucky, at) =>
      if k < |w.queued| { JudgeScores(env, w.conn, w.queued[k], algo, lucky, at); }
    case _ =>
  }

  lemma SubmitKeepsWallet(env: Env, minerId: Id, c: Conn, s: Step)
    requires s.Submit?
    ensures ShareMachine.Submit(env, c, s.data, s.claimed, minerId, s.allowed, s.at, s.nowMs).0.wallet == c.wallet
  {
    hide Value, Hashed, Wrap64;
  }

  lemma {:induction false} WalletIsLast(env: Env, minerId: Id, now: real, initial: u64, steps: seq<Step>)
    ensures var w := Run(env, minerId, Connected(now, initial), steps);
            && w.conn.wallet == LastWallet(steps) && |w.reports| == |w.credited|
            && |WalletsDue(env, minerId, Connected(now, initial), steps)| == |w.reports|
            && forall p :: 0 <= p < |w.reports| ==>
                 w.reports[p].wallet == WalletsDue(env, minerId, Connected(now, initial), steps)[p]
  {
    hide After;
    if steps != [] {
      var n := |steps| - 1;
      WalletIsLast(env, minerId, now, initial, steps[..n]);
      StepWallet(env, minerId, Run(env, minerId, Connected(now, initial), steps[..n]), steps[n]);
    }
  }

  /** Over every run, each credit is reported once, with the difficulty at which its job was sent and for
      the wallet that the miner gave last before the judgement. */
  lemma CreditsAreReported(env: Env, minerId: Id, now: real, initial: u64, steps: seq<Step>)
    requires ValidEnv(env) && FreshRun(env, minerId, Connected(now, initial), steps)
    ensures var w := Run(env, minerId, Connected(now, initial), steps);
            var wallets := WalletsDue(env, minerId, Connected(now, initial), steps);
            && |w.reports| == |w.credited| == |wallets|
            && forall p :: 0 <= p < |w.reports| ==>
                 && w.credited[p] < |w.keys| && w.keys[w.credited[p]].id in w.sent
                 && w.reports[p] == Report(wallets[p], w.sent[w.keys[w.credited[p]].id].diff)
  {
    hide JobsOk, TrustOk, BlocksOk, Run, FreshRun, WalletsDue, Distinct;
    InvariantHolds(env, minerId, now, initial, steps);
    WalletIsLast(env, minerId, now, initial, steps);
    var w := Run(env, minerId, Connected(now, initial), steps);
    forall p | 0 <= p < |w.reports|
      ensures w.credited[p] < |w.keys| && w.keys[w.credited[p]].id in w.sent
      ensures w.reports[p].diff == w.sent[w.keys[w.credited[p]].id].diff
    {
      assert TaskOk(minerId, w.sent, w.queued[w.credited[p]], w.keys[w.credited[p]]);
    }
  }
}
