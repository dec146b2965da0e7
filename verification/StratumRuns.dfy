/** Stratum connections: the block rebuilt from a job id and a nonce, and which work can be credited
    twice, there and on the connections whose miners send whole blocks. */
module StratumRuns {
  import opened GoTypes
  import opened Target
  import opened BlockMiner
  import opened ShareMachine
  import opened ShareRuns

  // ----- the rebuilt block is the miner's -----

  /** What the miner hashes: the notified work hash and timestamp, its nonce, the subscribed extra
      nonce and the job's public key. */
  function StratumBlock(env: Env, job: Block, nonce: u64, minerId: Id): Block {
    Assemble(Workhash(job), Timestamp(job), nonce, MinerNonce(env, minerId), PublicKey(job))
  }

  lemma RebuiltParts(env: Env, job: Block, nonce: u64)
    ensures var data := WithExtraNonce(WithNonce(job, nonce), JobNonce(env, JobId(job)));
            && Workhash(data) == Workhash(job) && Timestamp(data) == Timestamp(job)
            && Nonce(data) == nonce && PublicKey(data) == PublicKey(job)
            && ExtraNonce(data) == JobNonce(env, JobId(job))
            && JobId(data) == JobId(job) && PoolNonce(data) == env.poolNonce
  {
    hide Value, BigEndian, Wrap64, WithNonce, WithExtraNonce;
    NonceLaws(job, nonce);
    ExtraNonceLaws(WithNonce(job, nonce), JobNonce(env, JobId(job)));
  }

  lemma HashedParts(env: Env, data: Block, minerId: Id)
    requires minerId != NO_ID
    requires ExtraNonce(data) == JobNonce(env, JobId(data))
    ensures Hashed(data, minerId)
         == Assemble(Workhash(data), Timestamp(data), Nonce(data), MinerNonce(env, minerId), PublicKey(data))
  {
    hide Value, BigEndian, Wrap64, WithJobId, Assemble;
    JobIdLaws(data, minerId);
    BlockIsItsParts(Hashed(data, minerId));
    assert ExtraNonce(data)[16..] == env.poolNonce + Zeros(8);
    assert minerId + (env.poolNonce + Zeros(8)) == minerId + env.poolNonce + Zeros(8);
  }

  lemma OnlyJobWithId(env: Env, w: World, i: nat)
    requires JobsOk(env, w) && i < |w.conn.jobs| && JobId(w.conn.jobs[i].bm) != NO_ID
    ensures FindJob(w.conn.jobs, JobId(w.conn.jobs[i].bm)) == i
  {
    hide Value;
    var jobs := w.conn.jobs;
    forall j | 0 <= j < |jobs| && j != i
      ensures JobId(jobs[j].bm) != JobId(jobs[i].bm)
    {
    }
  }

  /** A job id that no job has yields nothing to check. */
  lemma UnknownIdIsOutdated(env: Env, jobs: seq<ConnJob>, id: Id, nonce: u64)
    requires forall j :: j in jobs ==> JobId(j.bm) != id
    ensures StratumShare(env, jobs, id, nonce) == None
  {
    hide Value, BigEndian, Wrap64;
    assert Timestamp(EMPTY_BLOCK) == 0 by { BlankTimestamp(); }
  }

  lemma BlankTimestamp()
    ensures Timestamp(EMPTY_BLOCK) == 0
  {
    assert EMPTY_BLOCK[32..40] == Zeros(8) + [];
    ValueSkipsZeros(8, []);
  }

  /** The block Stratum rebuilds from a live job's id and a nonce is handed on exactly when the job
      has a timestamp, and then accepted exactly when the nonce is new for the job and the job's
      timestamp is not too far ahead; what is then hashed is byte for byte what the miner hashed. */
  lemma RebuiltAccepted(env: Env, minerId: Id, w: World, i: nat, nonce: u64, at: real, nowMs: int)
    requires JobsOk(env, w) && minerId != NO_ID
    ensures var c := w.conn;
            i < |c.jobs| && JobId(c.jobs[i].bm) != NO_ID ==>
              var job := c.jobs[i];
              var share := StratumShare(env, c.jobs, JobId(job.bm), nonce);
              && (share.Some? <==> Timestamp(job.bm) != 0)
              && (share.Some? ==>
                    var v := ShareMachine.Submit(env, c, share.value, None, minerId, true, at, nowMs).1;
                    && JobId(share.value) == JobId(job.bm) && Nonce(share.value) == nonce
                    && (v.Accepted? <==> nonce !in job.nonces && Timestamp(job.bm) <= Wrap64(nowMs + FUTURE_LIMIT_MS))
                    && (v.Accepted? ==> v.task == Task(StratumBlock(env, job.bm, nonce, minerId), None, job.diff, job.chainDiff)))
  {
    hide Value, BigEndian, Wrap64, WithNonce, WithExtraNonce, WithJobId, Assemble;
    if i < |w.conn.jobs| && JobId(w.conn.jobs[i].bm) != NO_ID {
      var job := w.conn.jobs[i];
      OnlyJobWithId(env, w, i);
      LiveJob(env, w, i);
      RebuiltParts(env, job.bm, nonce);
      var data := Rebuild(env, w.conn.jobs, JobId(job.bm), nonce);
      HashedParts(env, data, minerId);
      PartsOfAssembled(Workhash(data), Timestamp(data), Nonce(data), MinerNonce(env, minerId), PublicKey(data));
    }
  }

  /** The same for every job live on any run. */
  lemma StratumAgreesWithMiner(env: Env, minerId: Id, now: real, initial: u64, steps: seq<Step>,
                               i: nat, nonce: u64, at: real, nowMs: int)
    requires ValidEnv(env) && FreshRun(env, minerId, Connected(now, initial), steps)
    requires minerId != NO_ID
    ensures var c := Run(env, minerId, Connected(now, initial), steps).conn;
            i < |c.jobs| && JobId(c.jobs[i].bm) != NO_ID ==>
              var job := c.jobs[i];
              var share := StratumShare(env, c.jobs, JobId(job.bm), nonce);
              && (share.Some? <==> Timestamp(job.bm) != 0)
              && (share.Some? ==>
                    var v := ShareMachine.Submit(env, c, share.value, None, minerId, true, at, nowMs).1;
                    && (v.Accepted? <==> nonce !in job.nonces && Timestamp(job.bm) <= Wrap64(nowMs + FUTURE_LIMIT_MS))
                    && (v.Accepted? ==> v.task == Task(StratumBlock(env, job.bm, nonce, minerId), None, job.diff, job.chainDiff)))
  {
    hide JobsOk, KeysOk, TrustOk, BlocksOk, CreditsOk, ShareMachine.Submit, StratumShare, StratumBlock, Value, Wrap64;
    InvariantHolds(env, minerId, now, initial, steps);
    RebuiltAccepted(env, minerId, Run(env, minerId, Connected(now, initial), steps), i, nonce, at, nowMs);
  }

  // ----- which work is credited twice -----

  /** Two jobs a Stratum miner cannot tell apart: job id aside, the same bytes to hash. */
  predicate SameWork(a: Block, b: Block) {
    Workhash(a) == Workhash(b) && Timestamp(a) == Timestamp(b) && PublicKey(a) == PublicKey(b)
  }

  /** On Stratum the miner id replaces the job id, so two submissions hash the same bytes if and
      only if they have the same nonce and their jobs the same work. */
  lemma StratumSameBytes(env: Env, a: Block, b: Block, m: u64, n: u64, minerId: Id)
    ensures StratumBlock(env, a, m, minerId) == StratumBlock(env, b, n, minerId) <==> m == n && SameWork(a, b)
  {
    hide Value, BigEndian, Assemble, Wrap64;
    PartsOfAssembled(Workhash(a), Timestamp(a), m, MinerNonce(env, minerId), PublicKey(a));
    PartsOfAssembled(Workhash(b), Timestamp(b), n, MinerNonce(env, minerId), PublicKey(b));
  }

  /** A Stratum connection submits rebuilt blocks only, and claims no hash. */
  ghost predicate Rebuilt(env: Env, w: World, s: Step) {
    s.Submit? ==>
      s.claimed == None && exists id: Id, nonce: u64 :: StratumShare(env, w.conn.jobs, id, nonce) == Some(s.data)
  }

  ghost predicate RebuiltRun(env: Env, minerId: Id, start: World, steps: seq<Step>) {
    steps == []
    || (RebuiltRun(env, minerId, start, steps[..|steps| - 1])
        && Rebuilt(env, Run(env, minerId, start, steps[..|steps| - 1]), steps[|steps| - 1]))
  }

  /** A submission queued under k hashes what the miner hashed for k's job. */
  ghost predicate FromJob(env: Env, minerId: Id, sent: map<Id, Offer>, t: Task, k: Key) {
    k.id in sent && t.bm == StratumBlock(env, sent[k.id].bm, k.nonce, minerId)
  }

  ghost predicate AllFromJobs(env: Env, minerId: Id, w: World) {
    && |w.keys| == |w.queued|
    && forall i :: 0 <= i < |w.queued| ==> FromJob(env, minerId, w.sent, w.queued[i], w.keys[i])
  }

  /** What an accepted rebuilt block hashes. */
  lemma AcceptedFromJob(env: Env, minerId: Id, w: World, s: Step)
    requires s.Submit? && minerId != NO_ID && JobsOk(env, w) && Rebuilt(env, w, s)
    ensures var v := ShareMachine.Submit(env, w.conn, s.data, s.claimed, minerId, s.allowed, s.at, s.nowMs).1;
            v.Accepted? && |s.data| == LENGTH ==>
              FromJob(env, minerId, w.sent, v.task, Key(JobId(s.data), Nonce(s.data)))
  {
    hide Value, BigEndian, Wrap64, WithNonce, WithExtraNonce, WithJobId, Assemble;
    var jobs := w.conn.jobs;
    var id: Id, nonce: u64 :| StratumShare(env, jobs, id, nonce) == Some(s.data);
    var i := FindJob(jobs, id);
    if i == |jobs| {
      BlankTimestamp();
    } else if id != NO_ID {
      LiveJob(env, w, i);
      RebuiltParts(env, jobs[i].bm, nonce);
      HashedParts(env, s.data, minerId);
    } else {
      ExtraNonceLaws(WithNonce(jobs[i].bm, nonce), JobNonce(env, id));
    }
  }

  lemma StepKeepsFromJobs(env: Env, minerId: Id, w: World, s: Step)
    requires minerId != NO_ID && JobsOk(env, w) && FreshSend(w, s) && Rebuilt(env, w, s)
    requires AllFromJobs(env, minerId, w)
    ensures AllFromJobs(env, minerId, After(env, minerId, w, s))
  {
    hide JobsOk, Rebuilt, ShareMachine.Submit, Judge, StratumBlock, SendTo, AuthorizeTo, JobBlock, Value, Wrap64;
    if s.Submit? {
      AcceptedFromJob(env, minerId, w, s);
    }
  }

  lemma {:induction false} RunKeepsFromJobs(env: Env, minerId: Id, now: real, initial: u64, steps: seq<Step>)
    requires ValidEnv(env) && FreshRun(env, minerId, Connected(now, initial), steps)
    requires minerId != NO_ID && RebuiltRun(env, minerId, Connected(now, initial), steps)
    ensures AllFromJobs(env, minerId, Run(env, minerId, Connected(now, initial), steps))
  {
    hide After, FreshSend, Rebuilt, FromJob, JobsOk, KeysOk, CreditsOk, TrustOk, BlocksOk;
    if steps != [] {
      var n := |steps| - 1;
      InvariantHolds(env, minerId, now, initial, steps[..n]);
      RunKeepsFromJobs(env, minerId, now, initial, steps[..n]);
      StepKeepsFromJobs(env, minerId, Run(env, minerId, Connected(now, initial), steps[..n]), steps[n]);
    }
  }

  /** One nonce, used under two different jobs with the same work. */
  ghost predicate Reused(sent: map<Id, Offer>, k: Key, l: Key) {
    && k.nonce == l.nonce && k.id != l.id
    && k.id in sent && l.id in sent && SameWork(sent[k.id].bm, sent[l.id].bm)
  }

  /** On every run of every kind of connection, two credited submissions hashed the same bytes if and
      only if the connection is a Stratum one and one nonce was used under two jobs with the same
      work. On Xatum and Getwork, where the hashed bytes contain the job id, that never happens. */
  lemma NoWorkCreditedTwice(env: Env, minerId: Id, now: real, initial: u64, steps: seq<Step>)
    requires ValidEnv(env) && FreshRun(env, minerId, Connected(now, initial), steps)
    ensures var w := Run(env, minerId, Connected(now, initial), steps);
            && Distinct(w.credited)
            && (forall i :: i in w.credited ==> i < |w.queued| == |w.keys|)
            && (minerId == NO_ID || RebuiltRun(env, minerId, Connected(now, initial), steps) ==>
               forall i, j :: i in w.credited && j in w.credited && i != j ==>
                 (w.queued[i].bm == w.queued[j].bm <==> minerId != NO_ID && Reused(w.sent, w.keys[i], w.keys[j])))
  {
    hide Value, JobsOk, TrustOk, BlocksOk, StratumBlock, SameWork, Run, FreshRun, RebuiltRun, Wrap64, Distinct;
    InvariantHolds(env, minerId, now, initial, steps);
    var rebuilt := RebuiltRun(env, minerId, Connected(now, initial), steps);
    if minerId != NO_ID && rebuilt { RunKeepsFromJobs(env, minerId, now, initial, steps); }
    var w := Run(env, minerId, Connected(now, initial), steps);
    forall i, j | (minerId == NO_ID || rebuilt) && i in w.credited && j in w.credited && i != j
      ensures w.queued[i].bm == w.queued[j].bm <==> minerId != NO_ID && Reused(w.sent, w.keys[i], w.keys[j])
    {
      assert TaskOk(minerId, w.sent, w.queued[i], w.keys[i]) && TaskOk(minerId, w.sent, w.queued[j], w.keys[j]);
      DistinctAt(w.keys, i, j);
      if minerId != NO_ID {
        var k, l := w.keys[i], w.keys[j];
        assert FromJob(env, minerId, w.sent, w.queued[i], k) && FromJob(env, minerId, w.sent, w.queued[j], l);
        StratumSameBytes(env, w.sent[k.id].bm, w.sent[l.id].bm, k.nonce, l.nonce, minerId);
      }
    }
  }

  lemma DistinctAt<T(!new)>(s: seq<T>, i: nat, j: nat)
    requires Distinct(s) && i < |s| && j < |s| && i != j
    ensures s[i] != s[j]
  {
  }

  /** What can be checked when a job is sent: a Stratum connection that never gets the same work
      under two job ids never has work credited twice. */
  lemma DifferentJobsCreditOnce(env: Env, minerId: Id, now: real, initial: u64, steps: seq<Step>)
    requires ValidEnv(env) && FreshRun(env, minerId, Connected(now, initial), steps)
    requires minerId != NO_ID && RebuiltRun(env, minerId, Connected(now, initial), steps)
    ensures var w := Run(env, minerId, Connected(now, initial), steps);
            (forall a, b :: a in w.sent && b in w.sent && a != b ==> !SameWork(w.sent[a].bm, w.sent[b].bm)) ==>
              forall i, j :: i in w.credited && j in w.credited && i != j ==>
                i < |w.queued| && j < |w.queued| && w.queued[i].bm != w.queued[j].bm
  {
    hide Run, FreshRun, RebuiltRun, SameWork;
    NoWorkCreditedTwice(env, minerId, now, initial, steps);
  }

  // ----- the same nonce under two live jobs -----

  /** mining.submit for live job i. */
  function Submission(env: Env, w: World, i: nat, nonce: u64, at: real, nowMs: int): Step
    requires i < |w.conn.jobs| && StratumShare(env, w.conn.jobs, JobId(w.conn.jobs[i].bm), nonce).Some?
  {
    Step.Submit(StratumShare(env, w.conn.jobs, JobId(w.conn.jobs[i].bm), nonce).value, None, true, at, nowMs)
  }

  /** Job i is live, has an acceptable timestamp, and has not seen the nonce. */
  ghost predicate Open(w: World, i: nat, nonce: u64, nowMs: int) {
    && i < |w.conn.jobs| && JobId(w.conn.jobs[i].bm) != NO_ID
    && nonce !in w.conn.jobs[i].nonces
    && 0 < Timestamp(w.conn.jobs[i].bm) <= Wrap64(nowMs + FUTURE_LIMIT_MS)
  }

  lemma SubmitQueues(env: Env, minerId: Id, w: World, i: nat, nonce: u64, at: real, nowMs: int)
    requires Invariant(env, minerId, w) && minerId != NO_ID && Open(w, i, nonce, nowMs)
    ensures var job := w.conn.jobs[i];
            StratumShare(env, w.conn.jobs, JobId(job.bm), nonce).Some?
    ensures var job := w.conn.jobs[i];
            var s := Submission(env, w, i, nonce, at, nowMs);
            var w' := After(env, minerId, w, s);
            && Rebuilt(env, w, s)
            && Invariant(env, minerId, w')
            && w'.queued == w.queued + [Task(StratumBlock(env, job.bm, nonce, minerId), None, job.diff, job.chainDiff)]
            && w'.done == w.done && w'.credited == w.credited && w'.sent == w.sent
            && |w'.conn.jobs| == |w.conn.jobs|
            && forall j :: 0 <= j < |w.conn.jobs| && j != i ==> w'.conn.jobs[j] == w.conn.jobs[j]
  {
    hide JobsOk, KeysOk, TrustOk, BlocksOk, CreditsOk, ShareMachine.Submit, StratumShare, StratumBlock, Value, Wrap64;
    RebuiltAccepted(env, minerId, w, i, nonce, at, nowMs);
    var s := Submission(env, w, i, nonce, at, nowMs);
    PassedNonceCheck(env, minerId, w.conn, s);
    SubmitKeepsInvariant(env, minerId, w, s);
    forall j | 0 <= j < |w.conn.jobs| && JobId(w.conn.jobs[j].bm) == JobId(w.conn.jobs[i].bm)
      ensures j == i
    {
      OnlyJobWithId(env, w, i);
      OnlyJobWithId(env, w, j);
    }
  }

  lemma HonestCredited(env: Env, minerId: Id, w: World, n: nat, algo: Bytes, lucky: bool, at: real, h: Hash)
    requires n < |w.queued| && n !in w.done
    ensures HonestHash(env, w.queued[n], algo, h) && CheckDiff(h, w.queued[n].diff) ==>
              var w' := After(env, minerId, w, Process(n, algo, lucky, at));
              w'.credited == w.credited + [n] && w'.queued == w.queued && w'.done == w.done + {n} && w'.sent == w.sent
  {
    hide Judge, CheckDiff, HonestHash;
    HonestShareCredited(env, w.conn, w.queued[n], algo, lucky, at);
  }

  /** The hash of job i's block with this nonce, good enough for the job. */
  ghost predicate Found(env: Env, minerId: Id, w: World, i: nat, nonce: u64, algo: Bytes, h: Hash)
    requires i < |w.conn.jobs|
  {
    && PowHash(env, StratumBlock(env, w.conn.jobs[i].bm, nonce, minerId), algo) == Some(h)
    && h != NO_HASH && CheckDiff(h, w.conn.jobs[i].diff)
  }

  /** Two submissions of one nonce, under live jobs a and b, and their judgements. */
  function TwoSubmissions(env: Env, minerId: Id, w: World, a: nat, b: nat, nonce: u64, algo: Bytes, at: real, nowMs: int): seq<Step> {
    if a < |w.conn.jobs| && StratumShare(env, w.conn.jobs, JobId(w.conn.jobs[a].bm), nonce).Some? then
      var s1 := Submission(env, w, a, nonce, at, nowMs);
      var w1 := After(env, minerId, w, s1);
      if b < |w1.conn.jobs| && StratumShare(env, w1.conn.jobs, JobId(w1.conn.jobs[b].bm), nonce).Some? then
        [s1, Submission(env, w1, b, nonce, at, nowMs),
         Process(|w.queued|, algo, false, at), Process(|w.queued| + 1, algo, false, at)]
      else []
    else []
  }

  lemma RunFour(env: Env, minerId: Id, w: World, s1: Step, s2: Step, s3: Step, s4: Step)
    ensures var w1 := After(env, minerId, w, s1);
            var w2 := After(env, minerId, w1, s2);
            var w3 := After(env, minerId, w2, s3);
            var steps := [s1, s2, s3, s4];
            && Run(env, minerId, w, steps) == After(env, minerId, w3, s4)
            && (RebuiltRun(env, minerId, w, steps)
                <==> Rebuilt(env, w, s1) && Rebuilt(env, w1, s2) && Rebuilt(env, w2, s3) && Rebuilt(env, w3, s4))
            && (FreshRun(env, minerId, w, steps)
                <==> FreshSend(w, s1) && FreshSend(w1, s2) && FreshSend(w2, s3) && FreshSend(w3, s4))
  {
    hide After, Rebuilt, FreshSend;
    OneMoreStep(env, minerId, w, [], s1);
    OneMoreStep(env, minerId, w, [s1], s2);
    OneMoreStep(env, minerId, w, [s1, s2], s3);
    OneMoreStep(env, minerId, w, [s1, s2, s3], s4);
    assert [] + [s1] == [s1] && [s1] + [s2] == [s1, s2];
    assert [s1, s2] + [s3] == [s1, s2, s3] && [s1, s2, s3] + [s4] == [s1, s2, s3, s4];
  }

  lemma OneMoreStep(env: Env, minerId: Id, w: World, steps: seq<Step>, s: Step)
    ensures Run(env, minerId, w, steps + [s]) == After(env, minerId, Run(env, minerId, w, steps), s)
    ensures RebuiltRun(env, minerId, w, steps + [s])
       <==> RebuiltRun(env, minerId, w, steps) && Rebuilt(env, Run(env, minerId, w, steps), s)
    ensures FreshRun(env, minerId, w, steps + [s])
       <==> FreshRun(env, minerId, w, steps) && FreshSend(Run(env, minerId, w, steps), s)
  {
    hide After, Rebuilt, FreshSend;
    assert (steps + [s])[..|steps|] == steps;
  }

  lemma {:induction false} RunInTwo(env: Env, minerId: Id, w: World, steps: seq<Step>, more: seq<Step>)
    ensures var mid := Run(env, minerId, w, steps);
            && Run(env, minerId, w, steps + more) == Run(env, minerId, mid, more)
            && (RebuiltRun(env, minerId, w, steps + more)
                <==> RebuiltRun(env, minerId, w, steps) && RebuiltRun(env, minerId, mid, more))
            && (FreshRun(env, minerId, w, steps + more)
                <==> FreshRun(env, minerId, w, steps) && FreshRun(env, minerId, mid, more))
    decreases |more|
  {
    hide After, Rebuilt, FreshSend;
    if more == [] {
      assert steps + more == steps;
    } else {
      var n := |more| - 1;
      RunInTwo(env, minerId, w, steps, more[..n]);
      OneMoreStep(env, minerId, w, steps + more[..n], more[n]);
      assert steps + more[..n] + [more[n]] == steps + more;
    }
  }

  /** On Stratum, one honest nonce submitted under two live jobs is credited under both, and the
      pool has credited the same bytes twice if and only if the jobs carry the same work. */
  lemma NonceUnderTwoJobs(env: Env, minerId: Id, w: World, a: nat, b: nat, nonce: u64, algo: Bytes, ha: Hash, hb: Hash, at: real, nowMs: int)
    requires Invariant(env, minerId, w) && minerId != NO_ID
    ensures a != b && Open(w, a, nonce, nowMs) && Open(w, b, nonce, nowMs)
              && Found(env, minerId, w, a, nonce, algo, ha) && Found(env, minerId, w, b, nonce, algo, hb) ==>
                var n := |w.queued|;
                var steps := TwoSubmissions(env, minerId, w, a, b, nonce, algo, at, nowMs);
                var w' := Run(env, minerId, w, steps);
                && FreshRun(env, minerId, w, steps) && RebuiltRun(env, minerId, w, steps)
                && w'.credited == w.credited + [n, n + 1] && |w'.queued| == n + 2
                && (w'.queued[n].bm == w'.queued[n + 1].bm <==> SameWork(w.conn.jobs[a].bm, w.conn.jobs[b].bm))
  {
    hide After, Invariant, StratumShare, StratumBlock, SameWork, CheckDiff, PowHash, Rebuilt, Run, RebuiltRun, FreshRun, Value, Wrap64;
    if a != b && Open(w, a, nonce, nowMs) && Open(w, b, nonce, nowMs)
       && Found(env, minerId, w, a, nonce, algo, ha) && Found(env, minerId, w, b, nonce, algo, hb) {
      var n := |w.queued|;
      SubmitQueues(env, minerId, w, a, nonce, at, nowMs);
      var s1 := Submission(env, w, a, nonce, at, nowMs);
      var w1 := After(env, minerId, w, s1);
      SubmitQueues(env, minerId, w1, b, nonce, at, nowMs);
      var s2 := Submission(env, w1, b, nonce, at, nowMs);
      var w2 := After(env, minerId, w1, s2);
      NotDoneYet(env, minerId, w);
      HonestCredited(env, minerId, w2, n, algo, false, at, ha);
      var w3 := After(env, minerId, w2, Process(n, algo, false, at));
      HonestCredited(env, minerId, w3, n + 1, algo, false, at, hb);
      OthersAreRebuilt(env, w2, Process(n, algo, false, at));
      OthersAreRebuilt(env, w3, Process(n + 1, algo, false, at));
      RunFour(env, minerId, w, s1, s2, Process(n, algo, false, at), Process(n + 1, algo, false, at));
      StratumSameBytes(env, w.conn.jobs[a].bm, w.conn.jobs[b].bm, nonce, nonce, minerId);
    }
  }

  lemma OthersAreRebuilt(env: Env, w: World, s: Step)
    requires !s.Submit?
    ensures Rebuilt(env, w, s)
  {
  }

  lemma NotDoneYet(env: Env, minerId: Id, w: World)
    requires Invariant(env, minerId, w)
    ensures forall i :: i in w.done ==> i < |w.queued|
  {
    hide JobsOk, KeysOk, TrustOk, BlocksOk;
  }

  // ----- a run that credits the same bytes twice -----

  const EASY_HASH: Hash := Zeros(31) + [1]

  /** A proof of work that any nonce solves. */
  function EasyEnv(): Env {
    Env(1, 0, 0.0, Zeros(8), 1, (data: Bytes, algo: Bytes) => Some(EASY_HASH))
  }

  lemma EasyMeetsAll(diff: u64)
    requires diff >= 1
    ensures CheckDiff(EASY_HASH, diff) && EASY_HASH != NO_HASH
  {
    assert Value([1]) == 1;
    ValueSkipsZeros(31, [1]);
    CheckDiffMeaning(EASY_HASH, diff);
    assert EASY_HASH[31] == 1;
  }

  /** Two authorizes: each adds its stub and gets the same work, under a job id of its own. */
  function TwoAuthorizes(wallet: Bytes, difficulty: u64, blockDiff: u64, blob: Block, first: Id, second: Id): seq<Step> {
    [Authorize(wallet, difficulty), Send(blockDiff, blob, first, 0.0),
     Authorize(wallet, difficulty), Send(blockDiff, blob, second, 0.0)]
  }

  lemma JobsAfterTwoAuthorizes(minerId: Id, wallet: Bytes, difficulty: u64, blockDiff: u64, blob: Block, first: Id, second: Id)
    requires first != NO_ID && second != NO_ID && first != second && blockDiff >= 1
    ensures var env, start := EasyEnv(), Connected(0.0, difficulty);
            var steps := TwoAuthorizes(wallet, difficulty, blockDiff, blob, first, second);
            var w := Run(env, minerId, start, steps);
            && FreshRun(env, minerId, start, steps) && RebuiltRun(env, minerId, start, steps)
            && |w.conn.jobs| == 4 && w.credited == []
            && w.conn.jobs[1].bm == JobBlock(env, blob, first) && w.conn.jobs[1].nonces == []
            && w.conn.jobs[3].bm == JobBlock(env, blob, second) && w.conn.jobs[3].nonces == []
            && 1 <= w.conn.jobs[1].diff && 1 <= w.conn.jobs[3].diff
  {
    hide JobDiff, JobBlock, StratumShare, RebuiltRun, FreshRun, Run, EasyEnv, Value;
    assert ValidEnv(EasyEnv()) by { EasyIsValid(); }
    var env, start := EasyEnv(), Connected(0.0, difficulty);
    var steps := TwoAuthorizes(wallet, difficulty, blockDiff, blob, first, second);
    RunFour(env, minerId, start, steps[0], steps[1], steps[2], steps[3]);
    var w1 := After(env, minerId, start, steps[0]);
    var w2 := After(env, minerId, w1, steps[1]);
    var w3 := After(env, minerId, w2, steps[2]);
    JobDiffRange(env, w1.conn, blockDiff, 0.0);
    JobDiffRange(env, w3.conn, blockDiff, 0.0);
    assert JobBlock(env, blob, first) == WithExtraNonce(blob, JobNonce(env, first)) by { JobBlockIs(env, blob, first); }
    assert JobBlock(env, blob, second) == WithExtraNonce(blob, JobNonce(env, second)) by { JobBlockIs(env, blob, second); }
  }

  lemma EasyIsValid()
    ensures ValidEnv(EasyEnv())
  {
  }

  lemma JobBlockIs(env: Env, blob: Block, id: Id)
    ensures JobBlock(env, blob, id) == WithExtraNonce(blob, JobNonce(env, id))
  {
  }

  /** For every miner, template and nonce: the run credits the same bytes twice. */
  lemma StratumCreditsTwice(minerId: Id, wallet: Bytes, difficulty: u64, blockDiff: u64, blob: Block, first: Id, second: Id,
                            nonce: u64, algo: Bytes, at: real)
    requires minerId != NO_ID && first != NO_ID && second != NO_ID && first != second
    requires blockDiff >= 1 && Timestamp(blob) != 0
    ensures var env, start := EasyEnv(), Connected(0.0, difficulty);
            var setup := TwoAuthorizes(wallet, difficulty, blockDiff, blob, first, second);
            var nowMs := Timestamp(blob) - FUTURE_LIMIT_MS;
            var steps := setup + TwoSubmissions(env, minerId, Run(env, minerId, start, setup), 1, 3, nonce, algo, at, nowMs);
            var w := Run(env, minerId, start, steps);
            && FreshRun(env, minerId, start, steps) && RebuiltRun(env, minerId, start, steps)
            && |w.credited| == 2 && w.credited[0] < w.credited[1] < |w.queued|
            && w.queued[w.credited[0]].bm == w.queued[w.credited[1]].bm
  {
    hide Run, FreshRun, RebuiltRun, TwoSubmissions, TwoAuthorizes, Value, StratumBlock, CheckDiff, JobBlock, Wrap64, Invariant, EasyEnv;
    var env, start := EasyEnv(), Connected(0.0, difficulty);
    var setup := TwoAuthorizes(wallet, difficulty, blockDiff, blob, first, second);
    var nowMs := Timestamp(blob) - FUTURE_LIMIT_MS;
    var w := Run(env, minerId, start, setup);
    JobsAfterTwoAuthorizes(minerId, wallet, difficulty, blockDiff, blob, first, second);
    EasyIsValid();
    InvariantHolds(env, minerId, 0.0, difficulty, setup);
    JobBlockParts(env, blob, first);
    JobBlockParts(env, blob, second);
    WrapInRange(Timestamp(blob));
    assert nowMs + FUTURE_LIMIT_MS == Timestamp(blob);
    EasyMeetsAll(w.conn.jobs[1].diff);
    EasyMeetsAll(w.conn.jobs[3].diff);
    EasyFound(StratumBlock(env, w.conn.jobs[1].bm, nonce, minerId), algo);
    EasyFound(StratumBlock(env, w.conn.jobs[3].bm, nonce, minerId), algo);
    NonceUnderTwoJobs(env, minerId, w, 1, 3, nonce, algo, EASY_HASH, EASY_HASH, at, nowMs);
    RunInTwo(env, minerId, start, setup, TwoSubmissions(env, minerId, w, 1, 3, nonce, algo, at, nowMs));
  }

  lemma EasyFound(data: Block, algo: Bytes)
    ensures PowHash(EasyEnv(), data, algo) == Some(EASY_HASH)
  {
  }

  lemma JobBlockParts(env: Env, blob: Block, id: Id)
    ensures var bm := JobBlock(env, blob, id);
            && JobId(bm) == id && Timestamp(bm) == Timestamp(blob)
            && Workhash(bm) == Workhash(blob) && PublicKey(bm) == PublicKey(blob)
  {
    hide Value, Wrap64;
    ExtraNonceLaws(blob, JobNonce(env, id));
  }
}
