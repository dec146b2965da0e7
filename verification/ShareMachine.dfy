/** One miner connection on a slave: sending jobs (cmd/slave/daemon_conn.go, getwork.go,
    stratum.go), accepting submissions and judging them (cmd/slave/handler.go). */
module ShareMachine {
  import opened GoTypes
  import opened Target
  import opened BlockMiner

  const MAX_PAST_JOBS := 6
  const FUTURE_LIMIT_MS := 10 * 1000

  /** A float64 as far as it matters here. */
  datatype Float = Fin(r: real) | Inf | NegInf | NaN

  /** Configuration, the proof-of-work function (None is its error) and what a float64 that does
      not fit converts to. */
  datatype Env = Env(
    minDifficulty: u64,
    trustScore: i32,
    shareTarget: real,
    poolNonce: Tag,
    junk: u64,
    pow: (Bytes, Bytes) -> Option<Hash>)

  ghost predicate ValidEnv(env: Env) {
    env.minDifficulty >= 1 && env.junk >= 1
  }

  datatype ConnJob = ConnJob(diff: u64, chainDiff: u64, bm: Block, nonces: seq<u64>)
  datatype Conn = Conn(jobs: seq<ConnJob>, nextDiff: Float, lastShare: real, score: i32, wallet: Bytes)

  // ----- difficulty -----

  /** if d < min { d = min } */
  function AtLeast(d: Float, min: u64): Float {
    if d.NegInf? || (d.Fin? && d.r < min as real) then Fin(min as real) else d
  }

  /** GetNextDiff: the difficulty fades while no share arrives, down to the minimum. */
  function NextDiff(env: Env, c: Conn, now: real): Float {
    var seconds := now - c.lastShare;
    var d := if seconds > 1.0 && c.nextDiff.Fin? then Fin(c.nextDiff.r / (1.0 + seconds / 40.0)) else c.nextDiff;
    AtLeast(d, env.minDifficulty)
  }

  function FloatToU64(env: Env, f: Float): u64 {
    if f.Fin? && -1.0 < f.r < TWO64 as real then
      var n := f.r.Floor;
      if n < 0 then 0 else n
    else env.junk
  }

  function JobDiff(env: Env, c: Conn, blockDiff: u64, now: real): u64 {
    var diff := FloatToU64(env, NextDiff(env, c, now));
    if diff > blockDiff then blockDiff else diff
  }

  /** float64(diff) / deltaT. */
  function HashRate(diff: u64, deltaT: real): Float {
    if deltaT != 0.0 then Fin(diff as real / deltaT) else if diff > 0 then Inf else NaN
  }

  function Goal(env: Env, hashRate: Float): Float {
    if hashRate.Fin? then Fin(hashRate.r * env.shareTarget)
    else if hashRate.NaN? || env.shareTarget == 0.0 then NaN
    else if hashRate.Inf? <==> env.shareTarget > 0.0 then Inf
    else NegInf
  }

  /** The mean of k - 1 old ones and a new one. */
  function Mean(old_: Float, new_: Float, k: real): Float
    requires k > 1.0
  {
    if old_.Fin? && new_.Fin? then Fin((old_.r * (k - 1.0) + new_.r) / k)
    else if old_.NaN? || new_.NaN? then NaN
    else if old_.Fin? || new_ == old_ then new_
    else if new_.Fin? then old_
    else NaN
  }

  /** A valid share moves the next difficulty towards the measured hash rate. */
  function Retarget(env: Env, c: Conn, diff: u64, now: real): Conn {
    var goal := AtLeast(Goal(env, HashRate(diff, now - c.lastShare)), env.minDifficulty);
    var k := if 0 <= c.score < 5 then 5.0 else if c.score < 15 then 12.0 else 20.0;
    c.(lastShare := now, nextDiff := Mean(c.nextDiff, goal, k))
  }

  // ----- sending jobs -----

  /** The extra nonce of a job: its id, the pool nonce, zeros. */
  function JobNonce(env: Env, id: Id): Hash {
    id + env.poolNonce + Zeros(8)
  }

  /** Append, then drop the oldest job if more than six are kept. */
  function PushJob(jobs: seq<ConnJob>, job: ConnJob): seq<ConnJob> {
    if |jobs| + 1 > MAX_PAST_JOBS then (jobs + [job])[1..] else jobs + [job]
  }

  function NewJob(env: Env, c: Conn, blockDiff: u64, blob: Block, id: Id, now: real): ConnJob {
    ConnJob(JobDiff(env, c, blockDiff, now), blockDiff, WithExtraNonce(blob, JobNonce(env, id)), [])
  }

  function SendTo(env: Env, c: Conn, blockDiff: u64, blob: Block, id: Id, now: real): Conn {
    c.(jobs := PushJob(c.jobs, NewJob(env, c, blockDiff, blob, id, now)))
  }

  /** mining.authorize: the wallet, a difficulty and an empty job that carries it. */
  function AuthorizeTo(c: Conn, wallet: Bytes, diff: u64): Conn {
    c.(wallet := wallet, nextDiff := Fin(diff as real), jobs := c.jobs + [ConnJob(diff, 0, EMPTY_BLOCK, [])])
  }

  // ----- accepting a submission -----

  /** A submission that passed every cheap check; claimed is the miner's own hash, None when there
      is no usable one and the hash has to be computed. */
  datatype Task = Task(bm: Block, claimed: Option<Hash>, diff: u64, chainDiff: u64)

  datatype Verdict =
    | RateLimited | BadLength | BadPoolNonce | BlankJobId | Stale | WrongWork | DuplicateNonce | BadTime
    | Accepted(task: Task)

  /** The last job with this id, |jobs| when there is none. */
  function FindJob(jobs: seq<ConnJob>, id: Id): (i: nat)
    ensures i <= |jobs|
    ensures i < |jobs| ==> JobId(jobs[i].bm) == id && forall j :: i < j < |jobs| ==> JobId(jobs[j].bm) != id
    ensures i == |jobs| ==> forall j :: 0 <= j < |jobs| ==> JobId(jobs[j].bm) != id
  {
    FindJobBefore(jobs, id, |jobs|)
  }

  function FindJobBefore(jobs: seq<ConnJob>, id: Id, n: nat): (i: nat)
    requires n <= |jobs|
    ensures i < n || i == |jobs|
    ensures i < n ==> JobId(jobs[i].bm) == id && forall j :: i < j < n ==> JobId(jobs[j].bm) != id
    ensures i == |jobs| ==> forall j :: 0 <= j < n ==> JobId(jobs[j].bm) != id
  {
    if n == 0 then |jobs|
    else if JobId(jobs[n - 1].bm) == id then n - 1
    else FindJobBefore(jobs, id, n - 1)
  }

  /** What is hashed: a Stratum connection's miner id replaces the job id. */
  function Hashed(bm: Block, minerId: Id): Block {
    if minerId != NO_ID then WithJobId(bm, minerId) else bm
  }

  function Submit(env: Env, c: Conn, data: Bytes, claimed: Option<Hash>, minerId: Id, allowed: bool, now: real, nowMs: int)
    : (Conn, Verdict)
  {
    if !allowed then (c, RateLimited)
    else if |data| != LENGTH then (c, BadLength)
    else if PoolNonce(data) != env.poolNonce then (c, BadPoolNonce)
    else if JobId(data) == NO_ID then (c, BlankJobId)
    else
      var i := FindJob(c.jobs, JobId(data));
      if i == |c.jobs| then (c.(lastShare := now), Stale)
      else
        var job := c.jobs[i];
        var bm := Hashed(data, minerId);
        if Workhash(bm) != Workhash(job.bm) || PublicKey(bm) != PublicKey(job.bm) then (c, WrongWork)
        else if Nonce(bm) in job.nonces then (c, DuplicateNonce)
        else
          var c' := c.(jobs := c.jobs[i := job.(nonces := job.nonces + [Nonce(bm)])]);
          if Timestamp(bm) < Timestamp(job.bm) || Timestamp(bm) > Wrap64(nowMs + FUTURE_LIMIT_MS) then (c', BadTime)
          else (c', Accepted(Task(bm, claimed, job.diff, job.chainDiff)))
  }

  // ----- judging it -----

  /** A credited share says how much, whether its hash was recomputed, and the block it found. */
  datatype Outcome =
    | HashFailed | BlankHash | BelowTarget | WrongHash
    | Credited(wallet: Bytes, diff: u64, recomputed: bool, block: Option<Block>)

  function Distrust(env: Env, c: Conn): Conn {
    c.(score := NegateI32(env.trustScore))
  }

  /** lucky is the draw against TrustedCheckChance. */
  predicate Rechecks(env: Env, c: Conn, findsBlock: bool, lucky: bool) {
    findsBlock || c.score < env.trustScore || lucky
  }

  function Accept(env: Env, c: Conn, t: Task, recomputed: bool, findsBlock: bool, now: real): (Conn, Outcome) {
    (Retarget(env, c.(score := WrapI32(c.score + 1)), t.diff, now),
     Credited(c.wallet, t.diff, recomputed, if findsBlock then Some(t.bm) else None))
  }

  function PowHash(env: Env, bm: Block, algo: Bytes): Option<Hash> {
    env.pow(bm, algo)
  }

  function Judge(env: Env, c: Conn, t: Task, algo: Bytes, lucky: bool, now: real): (Conn, Outcome) {
    var computed := PowHash(env, t.bm, algo);
    if t.claimed.None? && computed.None? then (c, HashFailed)
    else
      var h := if t.claimed.None? then computed.value else t.claimed.value;
      if h == NO_HASH then (c, BlankHash)
      else if !CheckDiff(h, t.diff) then (if t.claimed.None? then Distrust(env, c) else c, BelowTarget)
      else
        var findsBlock := CheckDiff(h, t.chainDiff);
        if t.claimed.None? then Accept(env, c, t, true, findsBlock, now)
        else if !Rechecks(env, c, findsBlock, lucky) then Accept(env, c, t, false, findsBlock, now)
        else if computed.None? then (c, HashFailed)
        else if computed.value != h then (Distrust(env, c), WrongHash)
        else Accept(env, c, t, true, findsBlock, now)
  }

  // ----- what a miner on Stratum does -----

  /** The block rebuilt from a job id and a nonce; an empty one when no job has the id. */
  function Rebuild(env: Env, jobs: seq<ConnJob>, id: Id, nonce: u64): Block {
    var i := FindJob(jobs, id);
    if i == |jobs| then EMPTY_BLOCK
    else WithExtraNonce(WithNonce(jobs[i].bm, nonce), JobNonce(env, id))
  }

  /** What mining.submit hands on: nothing when the rebuilt block has no timestamp. */
  function StratumShare(env: Env, jobs: seq<ConnJob>, id: Id, nonce: u64): Option<Block> {
    var bm := Rebuild(env, jobs, id, nonce);
    if Timestamp(bm) == 0 then None else Some(bm)
  }

  /** The subscribed extra nonce. */
  function MinerNonce(env: Env, minerId: Id): Hash {
    JobNonce(env, minerId)
  }

  // ----- the connection object -----

  class CData {
    var jobs: seq<ConnJob>
    var nextDiff: Float
    var lastShare: real
    var score: i32
    var wallet: Bytes

    ghost function State(): Conn
      reads this
    {
      Conn(jobs, nextDiff, lastShare, score, wallet)
    }

    constructor (now: real, initialDifficulty: u64)
      ensures State() == Conn([], Fin(initialDifficulty as real), now, 0, [])
    {
      jobs, nextDiff, lastShare, score, wallet := [], Fin(initialDifficulty as real), now, 0, [];
    }

    method GetNextDiff(env: Env, now: real) returns (d: Float)
      ensures d == NextDiff(env, State(), now)
    {
      d := nextDiff;
      var seconds := now - lastShare;
      if seconds > 1.0 && d.Fin? {
        d := Fin(d.r / (1.0 + seconds / 40.0));
      }
      if d.NegInf? || (d.Fin? && d.r < env.minDifficulty as real) {
        d := Fin(env.minDifficulty as real);
      }
    }

    method KeepJob(job: ConnJob)
      modifies this`jobs
      ensures jobs == PushJob(old(jobs), job)
    {
      jobs := jobs + [job];
      if |jobs| > MAX_PAST_JOBS {
        jobs := jobs[1..];
      }
    }

    /** SendJob and SendJobGetwork: one random extra nonce carries the id. */
    method SendJob(env: Env, blockDiff: u64, blob: Block, id: Id, now: real)
      modifies this
      ensures State() == SendTo(env, old(State()), blockDiff, blob, id, now)
    {
      var d := GetNextDiff(env, now);
      var diff := FloatToU64(env, d);
      if diff > blockDiff {
        diff := blockDiff;
      }
      var bm := new byte[LENGTH](i requires 0 <= i < LENGTH => blob[i]);
      assert bm[..] == blob;
      SetExtraNonce(bm, JobNonce(env, id));
      KeepJob(ConnJob(diff, blockDiff, bm[..], []));
    }

    /** SendStratumJob: the extra nonce is cleared and filled in two steps. */
    method SendStratumJob(env: Env, blockDiff: u64, blob: Block, id: Id, now: real)
      modifies this
      ensures State() == SendTo(env, old(State()), blockDiff, blob, id, now)
    {
      var d := GetNextDiff(env, now);
      var diff := FloatToU64(env, d);
      if diff > blockDiff {
        diff := blockDiff;
      }
      var bm := new byte[LENGTH](i requires 0 <= i < LENGTH => blob[i]);
      assert bm[..] == blob;
      SetExtraNonce(bm, NO_HASH);
      SetPoolNonce(bm, env.poolNonce);
      SetJobID(bm, id);
      ThreeSteps(env, blob, id);
      KeepJob(ConnJob(diff, blockDiff, bm[..], []));
    }

    method Authorize(newWallet: Bytes, diff: u64)
      modifies this
      ensures State() == AuthorizeTo(old(State()), newWallet, diff)
    {
      nextDiff := Fin(diff as real);
      wallet := newWallet;
      jobs := jobs + [ConnJob(diff, 0, EMPTY_BLOCK, [])];
    }

    /** The submit branch up to the point where the hash is looked at. */
    method HandleSubmit(env: Env, data: Bytes, claimed: Option<Hash>, minerId: Id, allowed: bool, now: real, nowMs: int)
      returns (v: Verdict)
      modifies this
      ensures (State(), v) == Submit(env, old(State()), data, claimed, minerId, allowed, now, nowMs)
    {
      hide Value, Wrap64, BigEndian, Workhash, PublicKey, PoolNonce;
      if !allowed { return RateLimited; }
      if |data| != LENGTH { return BadLength; }
      if PoolNonce(data) != env.poolNonce { return BadPoolNonce; }
      var jobid := JobId(data);
      if jobid == NO_ID { return BlankJobId; }
      var found: nat := |jobs|;
      for i := 0 to |jobs|
        invariant found == |jobs| || found < i
        invariant found < i ==> JobId(jobs[found].bm) == jobid && forall j :: found < j < i ==> JobId(jobs[j].bm) != jobid
        invariant found == |jobs| ==> forall j :: 0 <= j < i ==> JobId(jobs[j].bm) != jobid
      {
        if jobid == JobId(jobs[i].bm) {
          found := i;
        }
      }
      if found == |jobs| {
        lastShare := now;
        return Stale;
      }
      var minerJob := jobs[found];
      var bm: Block := data;
      if minerId != NO_ID {
        var arr := new byte[LENGTH](i requires 0 <= i < LENGTH => data[i]);
        assert arr[..] == data;
        SetJobID(arr, minerId);
        bm := arr[..];
      }
      if Workhash(bm) != Workhash(minerJob.bm) || PublicKey(bm) != PublicKey(minerJob.bm) {
        return WrongWork;
      }
      if Nonce(bm) in minerJob.nonces {
        return DuplicateNonce;
      }
      jobs := jobs[found := minerJob.(nonces := minerJob.nonces + [Nonce(bm)])];
      if Timestamp(bm) < Timestamp(minerJob.bm) || Timestamp(bm) > Wrap64(nowMs + FUTURE_LIMIT_MS) {
        return BadTime;
      }
      return Accepted(Task(bm, claimed, minerJob.diff, minerJob.chainDiff));
    }

    /** The goroutine that looks at the hash. */
    method ProcessShare(env: Env, t: Task, algo: Bytes, lucky: bool, now: real) returns (o: Outcome)
      modifies this
      ensures (State(), o) == Judge(env, old(State()), t, algo, lucky, now)
    {
      hide CheckDiff, WrapI32;
      var force := t.claimed.None?;
      var powHash := NO_HASH;
      if force {
        var pow := PowHash(env, t.bm, algo);
        if pow.None? { return HashFailed; }
        powHash := pow.value;
      } else {
        powHash := t.claimed.value;
      }
      if powHash == NO_HASH { return BlankHash; }
      if !CheckDiff(powHash, t.diff) {
        if force {
          score := NegateI32(env.trustScore);
        }
        return BelowTarget;
      }
      var findsBlock := CheckDiff(powHash, t.chainDiff);
      var recomputed := force;
      if !force {
        if findsBlock || score < env.trustScore || lucky {
          var pow := PowHash(env, t.bm, algo);
          if pow.None? { return HashFailed; }
          if pow.value != powHash {
            score := NegateI32(env.trustScore);
            return WrongHash;
          }
          recomputed := true;
        }
      }
      score := WrapI32(score + 1);
      UpdateNextDiff(env, t.diff, now);
      return Credited(wallet, t.diff, recomputed, if findsBlock then Some(t.bm) else None);
    }

    method UpdateNextDiff(env: Env, diff: u64, now: real)
      modifies this`lastShare, this`nextDiff
      ensures State() == Retarget(env, old(State()), diff, now)
    {
      hide HashRate, Goal, Mean;
      var hr := HashRate(diff, now - lastShare);
      lastShare := now;
      var futDiff := Goal(env, hr);
      if futDiff.NegInf? || (futDiff.Fin? && futDiff.r < env.minDifficulty as real) {
        futDiff := Fin(env.minDifficulty as real);
      }
      var k := 20.0;
      if score >= 0 && score < 5 {
        k := 5.0;
      } else if score < 15 {
        k := 12.0;
      }
      nextDiff := Mean(nextDiff, futDiff, k);
    }

    /** mining.submit: the loop over the jobs that rebuilds the block. */
    method RebuildShare(env: Env, jobid: Id, nonce: u64) returns (share: Option<Block>)
      ensures share == StratumShare(env, jobs, jobid, nonce)
    {
      hide WithNonce, WithExtraNonce, WithPoolNonce, WithJobId, JobNonce, JobId, Timestamp;
      var bm: Block := EMPTY_BLOCK;
      ghost var found: nat := |jobs|;
      for i := 0 to |jobs|
        invariant found == |jobs| || found < i
        invariant found < i ==> JobId(jobs[found].bm) == jobid && forall j :: found < j < i ==> JobId(jobs[j].bm) != jobid
        invariant found == |jobs| ==> forall j :: 0 <= j < i ==> JobId(jobs[j].bm) != jobid
        invariant bm == if found == |jobs| then EMPTY_BLOCK
                        else WithExtraNonce(WithNonce(jobs[found].bm, nonce), JobNonce(env, jobid))
      {
        if JobId(jobs[i].bm) == jobid {
          var source := jobs[i].bm;
          var arr := new byte[LENGTH](k requires 0 <= k < LENGTH => source[k]);
          assert arr[..] == source;
          SetNonce(arr, nonce);
          SetExtraNonce(arr, NO_HASH);
          SetPoolNonce(arr, env.poolNonce);
          SetJobID(arr, jobid);
          ThreeSteps(env, WithNonce(source, nonce), jobid);
          bm := arr[..];
          found := i;
        }
      }
      return if Timestamp(bm) == 0 then None else Some(bm);
    }
  }

  lemma ThreeSteps(env: Env, b: Block, id: Id)
    ensures WithJobId(WithPoolNonce(WithExtraNonce(b, NO_HASH), env.poolNonce), id) == WithExtraNonce(b, JobNonce(env, id))
  {
    var c := WithExtraNonce(b, NO_HASH);
    var d := WithPoolNonce(c, env.poolNonce);
    assert d[..48] == b[..48];
    assert d[64..72] == env.poolNonce;
    assert c[48..80] == NO_HASH;
    assert c[72..80] == c[48..80][24..32] == NO_HASH[24..32];
    assert d[72..] == c[72..];
    assert d[72..80] == d[72..][..8] == c[72..][..8] == c[72..80];
    assert NO_HASH[24..32] == Zeros(8);
    assert d[80..] == b[80..];
    assert d[64..] == d[64..72] + d[72..80] + d[80..];
    assert b[..48] + JobNonce(env, id) == b[..48] + id + env.poolNonce + Zeros(8);
    assert WithExtraNonce(b, JobNonce(env, id)) == b[..48] + id + env.poolNonce + Zeros(8) + b[80..];
  }
}
