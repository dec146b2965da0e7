/** Connection counting, action scores and bans per IP address (rate_limit/), as the three miner
    servers use them (xatum/server/server.go, cmd/slave/stratum.go, cmd/slave/getwork.go). */
module RateLimit {
  import opened GoTypes

  const MAX_CONNECTIONS_PER_IP := 100
  const ACTION_CONNECT: u32 := 10
  const MAX_SCORE := 2000
  const BAN_DURATION := 300

  /** Times are Unix seconds; bans hold the time a ban ends. */
  datatype Limits = Limits(conns: map<Bytes, u32>, scores: map<Bytes, u32>, bans: map<Bytes, int>)

  function BanEnds(bans: map<Bytes, int>, ip: Bytes): int {
    if ip in bans then bans[ip] else 0
  }

  function Act(l: Limits, ip: Bytes, required: u32, now: int): (Limits, bool) {
    var score := Wrap32(Get(l.scores, ip) + required);
    var scored := l.(scores := l.scores[ip := score]);
    if BanEnds(l.bans, ip) > now then (scored, false)
    else if score > MAX_SCORE then (scored.(bans := l.bans[ip := now + BAN_DURATION]), false)
    else (scored, true)
  }

  function Connect(l: Limits, ip: Bytes): (Limits, bool) {
    if Get(l.conns, ip) > MAX_CONNECTIONS_PER_IP then (l, false)
    else (l.(conns := l.conns[ip := Wrap32(Get(l.conns, ip) + 1)]), true)
  }

  function Disconnected(conns: map<Bytes, u32>, ip: Bytes): map<Bytes, u32> {
    if Get(conns, ip) > 0 then conns[ip := Get(conns, ip) - 1] else conns
  }

  function Cleared(l: Limits, now: int): Limits {
    l.(scores := map[], bans := map i | i in l.bans && l.bans[i] > now :: l.bans[i])
  }

  // ----- the servers' lists -----

  datatype Peer = Peer(id: u64, ip: Bytes, alive: bool)

  /** What is left when the peers for which gone holds are taken out. */
  function Kept(peers: seq<Peer>, gone: Peer -> bool): seq<Peer> {
    if peers == [] then []
    else
      var n := |peers| - 1;
      Kept(peers[..n], gone) + if gone(peers[n]) then [] else [peers[n]]
  }

  /** The counters after disconnecting the peers for which gone holds. */
  function Released(conns: map<Bytes, u32>, peers: seq<Peer>, gone: Peer -> bool): map<Bytes, u32> {
    if peers == [] then conns
    else
      var n := |peers| - 1;
      var before := Released(conns, peers[..n], gone);
      if gone(peers[n]) then Disconnected(before, peers[n].ip) else before
  }

  function Dead(): Peer -> bool {
    (p: Peer) => !p.alive
  }

  function HasId(id: u64): Peer -> bool {
    (p: Peer) => p.id == id
  }

  /** Kicking leaves exactly the peers with other ids, sweeping exactly the living ones; */
  lemma KeptExactly(p: Peer, id: u64)
    ensures Kept([p], HasId(id)) == if p.id == id then [] else [p]
    ensures Kept([p], Dead()) == if p.alive then [p] else []
  {
    assert [p][..0] == [];
  }

  /** and each peer is looked at for itself, those kept staying in their order. */
  lemma {:induction false} KeptInOrder(a: seq<Peer>, b: seq<Peer>, gone: Peer -> bool)
    ensures Kept([], gone) == [] && Kept(a + b, gone) == Kept(a, gone) + Kept(b, gone)
    decreases |b|
  {
    if b == [] {
      assert a + b == a;
    } else {
      var n := |b| - 1;
      assert (a + b)[..|a + b| - 1] == a + b[..n];
      KeptInOrder(a, b[..n], gone);
    }
  }

  // ----- the programs -----

  /** The package-level tables of rate_limit. */
  class Limiter {
    var connsPerIp: map<Bytes, u32>
    var scores: map<Bytes, u32>
    var bans: map<Bytes, int>

    ghost function State(): Limits
      reads this
    {
      Limits(connsPerIp, scores, bans)
    }

    constructor ()
      ensures State() == Limits(map[], map[], map[])
    {
      connsPerIp, scores, bans := map[], map[], map[];
    }

    method CanConnect(ip: Bytes) returns (ok: bool)
      modifies this
      ensures (State(), ok) == Connect(old(State()), ip)
    {
      if Get(connsPerIp, ip) > MAX_CONNECTIONS_PER_IP { return false; }
      connsPerIp := connsPerIp[ip := Wrap32(Get(connsPerIp, ip) + 1)];
      return true;
    }

    method Disconnect(ip: Bytes)
      modifies this
      ensures State() == old(State()).(conns := Disconnected(old(connsPerIp), ip))
    {
      if Get(connsPerIp, ip) > 0 {
        connsPerIp := connsPerIp[ip := Get(connsPerIp, ip) - 1];
      }
    }

    /** The end asked for is ignored. */
    method Ban(ip: Bytes, ends: int, now: int)
      modifies this
      ensures State() == old(State()).(bans := old(bans)[ip := now + BAN_DURATION])
    {
      bans := bans[ip := now + BAN_DURATION];
    }

    method CanDoAction(ip: Bytes, required: u32, now: int) returns (ok: bool)
      modifies this
      ensures (State(), ok) == Act(old(State()), ip, required, now)
    {
      scores := scores[ip := Wrap32(Get(scores, ip) + required)];
      if BanEnds(bans, ip) > now { return false; }
      if scores[ip] > MAX_SCORE {
        bans := bans[ip := now + BAN_DURATION];
        return false;
      }
      return true;
    }

    method ClearRl(now: int)
      modifies this
      ensures State() == Cleared(old(State()), now)
      ensures scores == map[] && forall i :: i in bans <==> i in old(bans) && old(bans)[i] > now
    {
      scores := map[];
      var bans2: map<Bytes, int>, left := map[], bans.Keys;
      while left != {}
        invariant left <= bans.Keys
        invariant bans2 == map i | i in bans && i !in left && bans[i] > now :: bans[i]
        decreases left
      {
        var i :| i in left;
        if bans[i] > now {
          bans2 := bans2[i := bans[i]];
        }
        left := left - {i};
      }
      bans := bans2;
    }
  }

  /** A server's connection list. The Xatum server accepts, then handles the connection in a
      goroutine, and kicks by id; the Stratum and Getwork servers sweep dead sockets. */
  class Server {
    var conns: seq<Peer>

    constructor ()
      ensures conns == []
    {
      conns := [];
    }

    method HandleConnection(lim: Limiter, peer: Peer) returns (joined: bool)
      modifies this, lim
      ensures (lim.State(), joined) == Connect(old(lim.State()), peer.ip)
      ensures conns == if joined then old(conns) + [peer] else old(conns)
    {
      joined := lim.CanConnect(peer.ip);
      if joined {
        conns := conns + [peer];
      }
    }

    method AcceptStratum(lim: Limiter, peer: Peer, now: int) returns (joined: bool)
      modifies this, lim
      ensures var (acted, allowed) := Act(old(lim.State()), peer.ip, ACTION_CONNECT, now);
              if allowed then (lim.State(), joined) == Connect(acted, peer.ip)
              else (lim.State(), joined) == (acted, false)
      ensures conns == if joined then old(conns) + [peer] else old(conns)
    {
      var allowed := lim.CanDoAction(peer.ip, ACTION_CONNECT, now);
      if !allowed { return false; }
      joined := HandleConnection(lim, peer);
    }

    /** wellFormed says that the wallet parameter is there and valid. */
    method ListenGetwork(lim: Limiter, peer: Peer, wellFormed: bool, now: int) returns (joined: bool)
      modifies this, lim
      ensures var (connected, free) := Connect(old(lim.State()), peer.ip);
              if free then
                var (acted, allowed) := Act(connected, peer.ip, ACTION_CONNECT, now);
                lim.State() == acted && joined == (allowed && wellFormed)
              else lim.State() == connected && !joined
      ensures conns == if joined then old(conns) + [peer] else old(conns)
    {
      hide Act;
      var free := lim.CanConnect(peer.ip);
      if !free { return false; }
      var allowed := lim.CanDoAction(peer.ip, ACTION_CONNECT, now);
      if !allowed || !wellFormed { return false; }
      conns := conns + [peer];
      return true;
    }

    method Kick(lim: Limiter, id: u64)
      modifies this, lim
      ensures conns == Kept(old(conns), HasId(id))
      ensures lim.State() == old(lim.State()).(conns := Released(old(lim.connsPerIp), old(conns), HasId(id)))
    {
      hide Disconnected;
      var connectionsNew: seq<Peer> := [];
      for i := 0 to |conns|
        invariant conns == old(conns)
        invariant connectionsNew == Kept(conns[..i], HasId(id))
        invariant lim.State() == old(lim.State()).(conns := Released(old(lim.connsPerIp), conns[..i], HasId(id)))
      {
        assert conns[..i + 1][..i] == conns[..i];
        if conns[i].id == id {
          lim.Disconnect(conns[i].ip);
        } else {
          connectionsNew := connectionsNew + [conns[i]];
        }
      }
      assert conns[..|conns|] == conns;
      conns := connectionsNew;
    }

    /** The first half of sendJobs and sendGetworkJobs. */
    method SweepDead(lim: Limiter)
      modifies this, lim
      ensures conns == Kept(old(conns), Dead())
      ensures lim.State() == old(lim.State()).(conns := Released(old(lim.connsPerIp), old(conns), Dead()))
    {
      hide Disconnected;
      var sockets2: seq<Peer> := [];
      for i := 0 to |conns|
        invariant conns == old(conns)
        invariant sockets2 == Kept(conns[..i], Dead())
        invariant lim.State() == old(lim.State()).(conns := Released(old(lim.connsPerIp), conns[..i], Dead()))
      {
        assert conns[..i + 1][..i] == conns[..i];
        if !conns[i].alive {
          lim.Disconnect(conns[i].ip);
          continue;
        }
        sockets2 := sockets2 + [conns[i]];
      }
      assert conns[..|conns|] == conns;
      conns := sockets2;
    }
  }

  // ----- any interleaving -----

  datatype Kind = Xatum | Stratum | Getwork

  datatype Step =
    | Action(ip: Bytes, required: u32, now: int)
    | BanRemote(remote: Bytes, now: int)   // a Xatum miner without recent shares; the port is part of remote
    | Clear(now: int)
    | AcceptXatum(peer: Peer, now: int)
    | HandleXatum(index: nat)
    | KickXatum(id: u64)
    | JoinStratum(peer: Peer, now: int)
    | RequestGetwork(peer: Peer, wellFormed: bool, now: int)
    | Dies(kind: Kind, index: nat)
    | Sweep(kind: Kind)

  /** The tables, the lists, and what happened so far to each address. */
  datatype World = World(
    limits: Limits,
    accepted: seq<Peer>,           // Xatum connections not yet handled
    xatum: seq<Peer>,
    stratum: seq<Peer>,
    getwork: seq<Peer>,
    clock: int,                    // the last time read
    leaked: map<Bytes, nat>,       // Getwork requests counted but answered with an error
    requested: map<Bytes, nat>,    // score asked for since the last clear
    granted: map<Bytes, nat>,      // score granted since the last clear
    bannedUntil: map<Bytes, nat>)  // the latest end of any ban imposed

  function Start(): World {
    World(Limits(map[], map[], map[]), [], [], [], [], 0, map[], map[], map[], map[])
  }

  function Add(m: map<Bytes, nat>, k: Bytes, x: nat): map<Bytes, nat> {
    m[k := Get(m, k) + x]
  }

  function Imposed(w: World, ip: Bytes, now: int): map<Bytes, nat> {
    var ends := now + BAN_DURATION;
    if ends > Get(w.bannedUntil, ip) then w.bannedUntil[ip := ends] else w.bannedUntil
  }

  function AfterAction(w: World, ip: Bytes, required: u32, now: int): World {
    var (l, ok) := Act(w.limits, ip, required, now);
    w.(limits := l,
       clock := now,
       requested := Add(w.requested, ip, required),
       granted := Add(w.granted, ip, if ok then required else 0),
       bannedUntil := if ok || BanEnds(w.limits.bans, ip) > now then w.bannedUntil else Imposed(w, ip, now))
  }

  function Allowed(w: World, ip: Bytes, required: u32, now: int): bool {
    Act(w.limits, ip, required, now).1
  }

  function Peers(w: World, kind: Kind): seq<Peer> {
    match kind case Xatum => w.xatum case Stratum => w.stratum case Getwork => w.getwork
  }

  function WithPeers(w: World, kind: Kind, peers: seq<Peer>): World {
    match kind
    case Xatum => w.(xatum := peers)
    case Stratum => w.(stratum := peers)
    case Getwork => w.(getwork := peers)
  }

  function Join(w: World, kind: Kind, peer: Peer): World {
    var (l, ok) := Connect(w.limits, peer.ip);
    if ok then WithPeers(w, kind, Peers(w, kind) + [peer]).(limits := l) else w
  }

  /** A Getwork request that is counted, then refused: its count is never given back. */
  function Leak(w: World, ip: Bytes): World {
    w.(limits := Connect(w.limits, ip).0, leaked := Add(w.leaked, ip, 1))
  }

  function Remove(w: World, kind: Kind, gone: Peer -> bool): World {
    WithPeers(w, kind, Kept(Peers(w, kind), gone)).
      (limits := w.limits.(conns := Released(w.limits.conns, Peers(w, kind), gone)))
  }

  function After(w: World, s: Step): World {
    match s
    case Action(ip, required, now) => AfterAction(w, ip, required, now)
    case BanRemote(remote, now) =>
      w.(limits := w.limits.(bans := w.limits.bans[remote := now + BAN_DURATION]),
         clock := now, bannedUntil := Imposed(w, remote, now))
    case Clear(now) => w.(limits := Cleared(w.limits, now), clock := now, requested := map[], granted := map[])
    case AcceptXatum(peer, now) =>
      var a := AfterAction(w, peer.ip, ACTION_CONNECT, now);
      if Allowed(w, peer.ip, ACTION_CONNECT, now) then a.(accepted := a.accepted + [peer]) else a
    case HandleXatum(k) =>
      if k >= |w.accepted| then w
      else Join(w, Xatum, w.accepted[k]).(accepted := w.accepted[..k] + w.accepted[k + 1..])
    case KickXatum(id) => Remove(w, Xatum, HasId(id))
    case JoinStratum(peer, now) =>
      var a := AfterAction(w, peer.ip, ACTION_CONNECT, now);
      if Allowed(w, peer.ip, ACTION_CONNECT, now) then Join(a, Stratum, peer) else a
    case RequestGetwork(peer, wellFormed, now) =>
      if !Connect(w.limits, peer.ip).1 then w
      else if wellFormed && Allowed(w, peer.ip, ACTION_CONNECT, now)
      then AfterAction(Join(w, Getwork, peer), peer.ip, ACTION_CONNECT, now)
      else AfterAction(Leak(w, peer.ip), peer.ip, ACTION_CONNECT, now)
    case Dies(kind, i) =>
      var peers := Peers(w, kind);
      if i >= |peers| then w else WithPeers(w, kind, peers[i := peers[i].(alive := false)])
    case Sweep(kind) => Remove(w, kind, Dead())
  }

  ghost predicate Mirrors(lim: Limiter, xatum: Server, stratum: Server, getwork: Server, accepted: seq<Peer>, w: World)
    reads lim, xatum, stratum, getwork
  {
    && lim.State() == w.limits && accepted == w.accepted
    && xatum.conns == w.xatum && stratum.conns == w.stratum && getwork.conns == w.getwork
  }

  lemma ConnectTouchesCounts(l: Limits, ip: Bytes)
    ensures var (after, ok) := Connect(l, ip);
            after == l.(conns := after.conns) && (!ok ==> after == l)
  {
  }

  lemma ActIgnoresCounts(l: Limits, conns: map<Bytes, u32>, ip: Bytes, required: u32, now: int)
    ensures Act(l.(conns := conns), ip, required, now)
         == (Act(l, ip, required, now).0.(conns := conns), Act(l, ip, required, now).1)
  {
  }

  /** The programs, taking one step. */
  method Perform(lim: Limiter, xatum: Server, stratum: Server, getwork: Server, accepted: seq<Peer>, s: Step, ghost w: World)
    returns (accepted': seq<Peer>)
    requires xatum != stratum && stratum != getwork && getwork != xatum
    requires Mirrors(lim, xatum, stratum, getwork, accepted, w)
    modifies lim, xatum, stratum, getwork
    ensures Mirrors(lim, xatum, stratum, getwork, accepted', After(w, s))
  {
    hide Kept, Released, Dead, HasId, Act, Connect, Cleared, Imposed, Add;
    accepted' := accepted;
    match s
    case Action(ip, required, now) =>
      var _ := lim.CanDoAction(ip, required, now);
    case BanRemote(remote, now) => lim.Ban(remote, now, now);
    case Clear(now) => lim.ClearRl(now);
    case AcceptXatum(peer, now) =>
      var allowed := lim.CanDoAction(peer.ip, ACTION_CONNECT, now);
      if allowed { accepted' := accepted + [peer]; }
    case HandleXatum(k) =>
      if k < |accepted| {
        ConnectTouchesCounts(w.limits, accepted[k].ip);
        var _ := xatum.HandleConnection(lim, accepted[k]);
        accepted' := accepted[..k] + accepted[k + 1..];
      }
    case KickXatum(id) => xatum.Kick(lim, id);
    case JoinStratum(peer, now) =>
      ConnectTouchesCounts(Act(w.limits, peer.ip, ACTION_CONNECT, now).0, peer.ip);
      var _ := stratum.AcceptStratum(lim, peer, now);
    case RequestGetwork(peer, wellFormed, now) =>
      ConnectTouchesCounts(w.limits, peer.ip);
      ActIgnoresCounts(w.limits, Connect(w.limits, peer.ip).0.conns, peer.ip, ACTION_CONNECT, now);
      var _ := getwork.ListenGetwork(lim, peer, wellFormed, now);
    case Dies(_, _) => PerformOnSockets(lim, xatum, stratum, getwork, accepted, s, w);
    case Sweep(_) => PerformOnSockets(lim, xatum, stratum, getwork, accepted, s, w);
  }

  method PerformOnSockets(lim: Limiter, xatum: Server, stratum: Server, getwork: Server, accepted: seq<Peer>, s: Step, ghost w: World)
    requires s.Dies? || s.Sweep?
    requires xatum != stratum && stratum != getwork && getwork != xatum
    requires Mirrors(lim, xatum, stratum, getwork, accepted, w)
    modifies lim, xatum, stratum, getwork
    ensures Mirrors(lim, xatum, stratum, getwork, accepted, After(w, s))
  {
    hide Kept, Released, Dead;
    var server := match s.kind case Xatum => xatum case Stratum => stratum case Getwork => getwork;
    if s.Sweep? {
      server.SweepDead(lim);
    } else if s.index < |server.conns| {
      server.conns := server.conns[s.index := server.conns[s.index].(alive := false)];
    }
  }

  function Run(steps: seq<Step>): World {
    if steps == [] then Start() else After(Run(steps[..|steps| - 1]), steps[|steps| - 1])
  }

  predicate Timed(s: Step) {
    s.Action? || s.BanRemote? || s.Clear? || s.AcceptXatum? || s.JoinStratum? || s.RequestGetwork?
  }

  /** The clock never goes back (and starts after 1970). */
  predicate ClockRun(steps: seq<Step>) {
    steps == [] ||
    var before := steps[..|steps| - 1];
    ClockRun(before) && (Timed(steps[|steps| - 1]) ==> steps[|steps| - 1].now >= Run(before).clock)
  }

  // ----- the counter -----

  function Tracked(peers: seq<Peer>, ip: Bytes): nat {
    if peers == [] then 0
    else Tracked(peers[..|peers| - 1], ip) + if peers[|peers| - 1].ip == ip then 1 else 0
  }

  function Connections(w: World, ip: Bytes): nat {
    Tracked(w.xatum, ip) + Tracked(w.stratum, ip) + Tracked(w.getwork, ip)
  }

  predicate Counted(w: World, ip: Bytes) {
    && Get(w.limits.conns, ip) == Connections(w, ip) + Get(w.leaked, ip)
    && Get(w.limits.conns, ip) <= MAX_CONNECTIONS_PER_IP + 1
  }

  lemma TrackedAppend(peers: seq<Peer>, p: Peer, ip: Bytes)
    ensures Tracked(peers + [p], ip) == Tracked(peers, ip) + if p.ip == ip then 1 else 0
  {
    assert (peers + [p])[..|peers|] == peers;
  }

  lemma {:induction false} TrackedAfterDeath(peers: seq<Peer>, i: nat, ip: Bytes)
    requires i < |peers|
    ensures Tracked(peers[i := peers[i].(alive := false)], ip) == Tracked(peers, ip)
    decreases |peers|
  {
    var n := |peers| - 1;
    var after := peers[i := peers[i].(alive := false)];
    if i < n {
      assert after[..n] == peers[..n][i := peers[i].(alive := false)];
      TrackedAfterDeath(peers[..n], i, ip);
    } else {
      assert after[..n] == peers[..n];
    }
  }

  /** Each peer taken out gives back exactly its own count. */
  lemma {:induction false} ReleaseMatches(conns: map<Bytes, u32>, peers: seq<Peer>, gone: Peer -> bool, ip: Bytes)
    requires Tracked(peers, ip) <= Get(conns, ip)
    ensures Get(Released(conns, peers, gone), ip) + Tracked(peers, ip) == Get(conns, ip) + Tracked(Kept(peers, gone), ip)
    ensures Tracked(Kept(peers, gone), ip) <= Tracked(peers, ip)
  {
    hide Disconnected;
    if peers != [] {
      var n := |peers| - 1;
      ReleaseMatches(conns, peers[..n], gone, ip);
      var kept := Kept(peers[..n], gone);
      if gone(peers[n]) {
        DisconnectOne(Released(conns, peers[..n], gone), peers[n].ip, ip);
        assert kept + [] == kept;
      } else {
        TrackedAppend(kept, peers[n], ip);
      }
    }
  }

  lemma DisconnectOne(conns: map<Bytes, u32>, who: Bytes, ip: Bytes)
    ensures Get(Disconnected(conns, who), ip)
         == if who == ip && Get(conns, ip) > 0 then Get(conns, ip) - 1 else Get(conns, ip)
  {
  }

  lemma JoinCounts(w: World, kind: Kind, peer: Peer, ip: Bytes)
    requires Counted(w, ip)
    ensures Counted(Join(w, kind, peer), ip)
  {
    hide Tracked;
    TrackedAppend(Peers(w, kind), peer, ip);
  }

  lemma RemoveCounts(w: World, kind: Kind, gone: Peer -> bool, ip: Bytes)
    requires Counted(w, ip)
    ensures Counted(Remove(w, kind, gone), ip)
  {
    hide Tracked, Kept, Released;
    ReleaseMatches(w.limits.conns, Peers(w, kind), gone, ip);
  }

  lemma ActionCounts(w: World, who: Bytes, required: u32, now: int, ip: Bytes)
    requires Counted(w, ip)
    ensures Counted(AfterAction(w, who, required, now), ip)
  {
    hide Tracked;
  }

  lemma StratumCounts(w: World, s: Step, ip: Bytes)
    requires s.JoinStratum? && Counted(w, ip)
    ensures Counted(After(w, s), ip)
  {
    hide Counted, AfterAction, Join, Allowed;
    ActionCounts(w, s.peer.ip, ACTION_CONNECT, s.now, ip);
    JoinCounts(AfterAction(w, s.peer.ip, ACTION_CONNECT, s.now), Stratum, s.peer, ip);
  }

  lemma XatumCounts(w: World, s: Step, ip: Bytes)
    requires s.AcceptXatum? || s.HandleXatum?
    requires Counted(w, ip)
    ensures Counted(After(w, s), ip)
  {
    hide Tracked, AfterAction, Join, Allowed;
    if s.AcceptXatum? {
      ActionCounts(w, s.peer.ip, ACTION_CONNECT, s.now, ip);
    } else if s.index < |w.accepted| {
      JoinCounts(w, Xatum, w.accepted[s.index], ip);
    }
  }

  lemma DeathCounts(w: World, s: Step, ip: Bytes)
    requires s.Dies? && Counted(w, ip)
    ensures Counted(After(w, s), ip)
  {
    hide Tracked;
    if s.index < |Peers(w, s.kind)| {
      TrackedAfterDeath(Peers(w, s.kind), s.index, ip);
    }
  }

  lemma TablesCount(w: World, s: Step, ip: Bytes)
    requires s.BanRemote? || s.Clear?
    requires Counted(w, ip)
    ensures Counted(After(w, s), ip)
  {
    hide Tracked;
  }

  lemma StepCounts(w: World, s: Step, ip: Bytes)
    requires Counted(w, ip)
    ensures Counted(After(w, s), ip)
  {
    hide Counted, AfterAction, Join, Remove, Allowed;
    match s
    case Action(who, required, now) => ActionCounts(w, who, required, now, ip);
    case BanRemote(_, _) => TablesCount(w, s, ip);
    case Clear(_) => TablesCount(w, s, ip);
    case AcceptXatum(_, _) => XatumCounts(w, s, ip);
    case HandleXatum(_) => XatumCounts(w, s, ip);
    case KickXatum(id) => RemoveCounts(w, Xatum, HasId(id), ip);
    case JoinStratum(_, _) => StratumCounts(w, s, ip);
    case RequestGetwork(_, _, _) => GetworkCounts(w, s, ip);
    case Dies(_, _) => DeathCounts(w, s, ip);
    case Sweep(kind) => RemoveCounts(w, kind, Dead(), ip);
  }

  lemma LeakCounts(w: World, who: Bytes, ip: Bytes)
    requires Counted(w, ip) && Connect(w.limits, who).1
    ensures Counted(Leak(w, who), ip)
  {
    hide Tracked;
  }

  lemma GetworkCounts(w: World, s: Step, ip: Bytes)
    requires s.RequestGetwork? && Counted(w, ip)
    ensures Counted(After(w, s), ip)
  {
    hide Counted, Connect, AfterAction, Join, Leak, Allowed;
    var who := s.peer.ip;
    if Connect(w.limits, who).1 {
      JoinCounts(w, Getwork, s.peer, ip);
      ActionCounts(Join(w, Getwork, s.peer), who, ACTION_CONNECT, s.now, ip);
      LeakCounts(w, who, ip);
      ActionCounts(Leak(w, who), who, ACTION_CONNECT, s.now, ip);
    }
  }

  /** On every run the counter of an address is the number of its connections in the three lists
      plus the Getwork requests that were counted and then refused; it never exceeds the limit by
      more than one. */
  lemma {:induction false} ConnectionsAreCounted(steps: seq<Step>, ip: Bytes)
    ensures Counted(Run(steps), ip)
  {
    hide After;
    if steps != [] {
      ConnectionsAreCounted(steps[..|steps| - 1], ip);
      StepCounts(Run(steps[..|steps| - 1]), steps[|steps| - 1], ip);
    }
  }

  /** A connection is let in exactly while at most MAX_CONNECTIONS_PER_IP are counted, so one more
      than the limit can be open; and with no connection left the counter is back at zero if and
      only if no Getwork request was refused after being counted. */
  lemma CounterDecides(steps: seq<Step>, ip: Bytes)
    ensures var w := Run(steps);
            && (Connect(w.limits, ip).1 <==> Connections(w, ip) + Get(w.leaked, ip) <= 100)
            && Connections(w, ip) <= 101
            && (Connections(w, ip) == 0 ==> (Get(w.limits.conns, ip) == 0 <==> Get(w.leaked, ip) == 0))
  {
    hide Run, Connections;
    ConnectionsAreCounted(steps, ip);
  }

  // ----- scores and bans -----

  predicate ScoresOk(w: World, ip: Bytes) {
    && Get(w.limits.scores, ip) == Wrap32(Get(w.requested, ip))
    && Get(w.granted, ip) <= Get(w.requested, ip)
    && (Get(w.requested, ip) < TWO32 ==> Get(w.granted, ip) <= MAX_SCORE)
  }

  /** An unexpired ban is in the table; an expired one may have been cleared. */
  predicate BansOk(w: World, ip: Bytes) {
    var until, stored := Get(w.bannedUntil, ip), BanEnds(w.limits.bans, ip);
    && w.clock >= 0
    && until <= w.clock + BAN_DURATION
    && (stored == until || (until <= w.clock && stored <= w.clock))
  }

  lemma WrapAdd32(x: nat, y: nat)
    ensures Wrap32(Wrap32(x) + y) == Wrap32(x + y)
  {
  }

  lemma ActionKeepsLimits(w: World, who: Bytes, required: u32, now: int, ip: Bytes)
    requires ScoresOk(w, ip) && BansOk(w, ip) && now >= w.clock
    ensures ScoresOk(AfterAction(w, who, required, now), ip) && BansOk(AfterAction(w, who, required, now), ip)
  {
    ActionKeepsScores(w, who, required, now, ip);
    ActionKeepsBans(w, who, required, now, ip);
  }

  lemma ActionKeepsScores(w: World, who: Bytes, required: u32, now: int, ip: Bytes)
    requires ScoresOk(w, ip)
    ensures ScoresOk(AfterAction(w, who, required, now), ip)
  {
    hide Wrap32, Act, BansOk, Imposed, BanEnds;
    ActScores(w.limits, who, required, now);
    var asked := Get(w.requested, ip) + required;
    WrapAdd32(Get(w.requested, ip), required);
    if asked < TWO32 { SmallWrap(asked); }
  }

  lemma ActScores(l: Limits, ip: Bytes, required: u32, now: int)
    ensures var (after, ok) := Act(l, ip, required, now);
            var score := Wrap32(Get(l.scores, ip) + required);
            after.scores == l.scores[ip := score] && (ok ==> score <= MAX_SCORE)
  {
  }

  lemma ActionKeepsBans(w: World, who: Bytes, required: u32, now: int, ip: Bytes)
    requires BansOk(w, ip) && now >= w.clock
    ensures BansOk(AfterAction(w, who, required, now), ip)
  {
    hide Wrap32, Add;
  }

  lemma SmallWrap(x: nat)
    requires x < TWO32
    ensures Wrap32(x) == x
  {
  }

  lemma SameLimits(w: World, w': World, ip: Bytes)
    requires w'.limits.scores == w.limits.scores && w'.limits.bans == w.limits.bans
    requires w'.requested == w.requested && w'.granted == w.granted
    requires w'.bannedUntil == w.bannedUntil && w'.clock == w.clock
    requires ScoresOk(w, ip) && BansOk(w, ip)
    ensures ScoresOk(w', ip) && BansOk(w', ip)
  {
  }

  lemma JoinKeepsLimits(w: World, kind: Kind, peer: Peer, ip: Bytes)
    requires ScoresOk(w, ip) && BansOk(w, ip)
    ensures ScoresOk(Join(w, kind, peer), ip) && BansOk(Join(w, kind, peer), ip)
  {
    hide ScoresOk, BansOk;
    SameLimits(w, Join(w, kind, peer), ip);
  }

  lemma AcceptKeepsLimits(w: World, s: Step, ip: Bytes)
    requires s.AcceptXatum? || s.JoinStratum?
    requires ScoresOk(w, ip) && BansOk(w, ip) && s.now >= w.clock
    ensures ScoresOk(After(w, s), ip) && BansOk(After(w, s), ip)
  {
    hide Act, AfterAction, Allowed, Join, ScoresOk, BansOk;
    var a := AfterAction(w, s.peer.ip, ACTION_CONNECT, s.now);
    ActionKeepsLimits(w, s.peer.ip, ACTION_CONNECT, s.now, ip);
    if s.AcceptXatum? {
      SameLimits(a, a.(accepted := a.accepted + [s.peer]), ip);
    } else {
      JoinKeepsLimits(a, Stratum, s.peer, ip);
    }
  }

  lemma GetworkKeepsLimits(w: World, s: Step, ip: Bytes)
    requires s.RequestGetwork?
    requires ScoresOk(w, ip) && BansOk(w, ip) && s.now >= w.clock
    ensures ScoresOk(After(w, s), ip) && BansOk(After(w, s), ip)
  {
    hide Act, AfterAction, Allowed, Join, ScoresOk, BansOk;
    var peer := s.peer;
    JoinKeepsLimits(w, Getwork, peer, ip);
    JoinKeepsHistory(w, Getwork, peer);
    ActionKeepsLimits(Join(w, Getwork, peer), peer.ip, ACTION_CONNECT, s.now, ip);
    SameLimits(w, Leak(w, peer.ip), ip);
    ActionKeepsLimits(Leak(w, peer.ip), peer.ip, ACTION_CONNECT, s.now, ip);
  }

  lemma JoinKeepsHistory(w: World, kind: Kind, peer: Peer)
    ensures Join(w, kind, peer).clock == w.clock && Join(w, kind, peer).bannedUntil == w.bannedUntil
  {
  }

  lemma RemoveKeepsLimits(w: World, kind: Kind, gone: Peer -> bool, ip: Bytes)
    requires ScoresOk(w, ip) && BansOk(w, ip)
    ensures ScoresOk(Remove(w, kind, gone), ip) && BansOk(Remove(w, kind, gone), ip)
  {
    hide ScoresOk, BansOk, Kept, Released;
    SameLimits(w, Remove(w, kind, gone), ip);
  }

  lemma HandleKeepsLimits(w: World, k: nat, ip: Bytes)
    requires ScoresOk(w, ip) && BansOk(w, ip)
    ensures var after := After(w, HandleXatum(k)); ScoresOk(after, ip) && BansOk(after, ip)
  {
    hide ScoresOk, BansOk, Join;
    if k < |w.accepted| {
      var joined := Join(w, Xatum, w.accepted[k]);
      JoinKeepsLimits(w, Xatum, w.accepted[k], ip);
      SameLimits(joined, joined.(accepted := w.accepted[..k] + w.accepted[k + 1..]), ip);
    }
  }

  lemma DeathKeepsLimits(w: World, kind: Kind, i: nat, ip: Bytes)
    requires ScoresOk(w, ip) && BansOk(w, ip)
    ensures var after := After(w, Dies(kind, i)); ScoresOk(after, ip) && BansOk(after, ip)
  {
    hide ScoresOk, BansOk;
    SameLimits(w, After(w, Dies(kind, i)), ip);
  }

  lemma StepKeepsLimits(w: World, s: Step, ip: Bytes)
    requires ScoresOk(w, ip) && BansOk(w, ip)
    requires Timed(s) ==> s.now >= w.clock
    ensures ScoresOk(After(w, s), ip) && BansOk(After(w, s), ip)
  {
    hide AfterAction, Allowed, Join, Remove, ScoresOk, BansOk;
    match s
    case Action(who, required, now) => ActionKeepsLimits(w, who, required, now, ip);
    case BanRemote(_, _) => BanKeepsLimits(w, s, ip);
    case Clear(_) => BanKeepsLimits(w, s, ip);
    case AcceptXatum(_, _) => AcceptKeepsLimits(w, s, ip);
    case JoinStratum(_, _) => AcceptKeepsLimits(w, s, ip);
    case RequestGetwork(_, _, _) => GetworkKeepsLimits(w, s, ip);
    case HandleXatum(k) => HandleKeepsLimits(w, k, ip);
    case KickXatum(id) => RemoveKeepsLimits(w, Xatum, HasId(id), ip);
    case Dies(kind, i) => DeathKeepsLimits(w, kind, i, ip);
    case Sweep(kind) => RemoveKeepsLimits(w, kind, Dead(), ip);
  }

  lemma BanKeepsLimits(w: World, s: Step, ip: Bytes)
    requires s.BanRemote? || s.Clear?
    requires ScoresOk(w, ip) && BansOk(w, ip) && s.now >= w.clock
    ensures ScoresOk(After(w, s), ip) && BansOk(After(w, s), ip)
  {
  }

  lemma {:induction false} LimitsHold(steps: seq<Step>, ip: Bytes)
    requires ClockRun(steps)
    ensures ScoresOk(Run(steps), ip) && BansOk(Run(steps), ip)
  {
    hide After, Timed;
    if steps != [] {
      LimitsHold(steps[..|steps| - 1], ip);
      StepKeepsLimits(Run(steps[..|steps| - 1]), steps[|steps| - 1], ip);
    }
  }

  /** On every run: an action is granted exactly when every ban ever imposed on the address is
      over and the score asked for since the last clear, this request and refused ones included,
      is at most MAX_SCORE (modulo 2^32). Neither clears nor further attempts lift a ban. */
  lemma HistoryDecides(steps: seq<Step>, ip: Bytes, required: u32, now: int)
    requires ClockRun(steps) && now >= Run(steps).clock
    ensures var w := Run(steps);
            (Allowed(w, ip, required, now)
             <==> Get(w.bannedUntil, ip) <= now && Wrap32(Get(w.requested, ip) + required) <= 2000)
  {
    hide Run, Wrap32, ClockRun;
    var w := Run(steps);
    LimitsHold(steps, ip);
    WrapAdd32(Get(w.requested, ip), required);
  }

  lemma BanNeverShrinks(w: World, s: Step, ip: Bytes)
    ensures Get(w.bannedUntil, ip) <= Get(After(w, s).bannedUntil, ip)
  {
    hide AfterAction, Join, Connect, Kept, Released, Allowed;
    match s
    case Action(who, required, now) => ActionBans(w, who, required, now, ip);
    case AcceptXatum(peer, now) => ActionBans(w, peer.ip, ACTION_CONNECT, now, ip);
    case HandleXatum(k) =>
      if k < |w.accepted| { JoinKeepsHistory(w, Xatum, w.accepted[k]); }
    case JoinStratum(peer, now) =>
      ActionBans(w, peer.ip, ACTION_CONNECT, now, ip);
      JoinKeepsHistory(AfterAction(w, peer.ip, ACTION_CONNECT, now), Stratum, peer);
    case RequestGetwork(peer, _, now) =>
      JoinKeepsHistory(w, Getwork, peer);
      ActionBans(Join(w, Getwork, peer), peer.ip, ACTION_CONNECT, now, ip);
      ActionBans(Leak(w, peer.ip), peer.ip, ACTION_CONNECT, now, ip);
    case _ =>
  }

  lemma ActionBans(w: World, who: Bytes, required: u32, now: int, ip: Bytes)
    ensures Get(w.bannedUntil, ip) <= Get(AfterAction(w, who, required, now).bannedUntil, ip)
  {
  }

  /** Asking for more than is left until the next clear bans for five minutes. */
  lemma ExcessBans(steps: seq<Step>, ip: Bytes, required: u32, now: int)
    requires ClockRun(steps) && now >= Run(steps).clock
    ensures var w := Run(steps);
            Get(w.bannedUntil, ip) <= now && (Get(w.requested, ip) + required) % TWO32 > 2000 ==>
              && !Allowed(w, ip, required, now)
              && Get(After(w, Action(ip, required, now)).bannedUntil, ip) == now + 300
  {
    hide Run, Wrap32, ClockRun;
    var w := Run(steps);
    LimitsHold(steps, ip);
    WrapAdd32(Get(w.requested, ip), required);
    Remainder32(Get(w.requested, ip) + required);
  }

  lemma Remainder32(x: nat)
    ensures Wrap32(x) == x % TWO32
  {
  }

  /** Whatever happens after a ban was imposed, more bans included, the address is refused until
      that ban ends. */
  lemma BannedStaysRefused(steps: seq<Step>, later: seq<Step>, ip: Bytes, required: u32, now: int)
    requires ClockRun(steps + later) && Run(steps + later).clock <= now < Get(Run(steps).bannedUntil, ip)
    ensures !Allowed(Run(steps + later), ip, required, now)
  {
    hide Allowed, After, Run, ClockRun, Wrap32;
    BansOnlyGrow(steps, later, ip);
    HistoryDecides(steps + later, ip, required, now);
  }

  lemma {:induction false} BansOnlyGrow(steps: seq<Step>, later: seq<Step>, ip: Bytes)
    ensures Get(Run(steps).bannedUntil, ip) <= Get(Run(steps + later).bannedUntil, ip)
    decreases |later|
  {
    hide After;
    if later == [] {
      assert steps + later == steps;
    } else {
      var n := |later| - 1;
      assert (steps + later)[..|steps + later| - 1] == steps + later[..n];
      BansOnlyGrow(steps, later[..n], ip);
      BanNeverShrinks(Run(steps + later[..n]), later[n], ip);
    }
  }

  /** Between two clears an address is granted at most MAX_SCORE, as long as it has asked for less
      than 2^32. */
  lemma GrantedWithinLimit(steps: seq<Step>, ip: Bytes)
    requires ClockRun(steps) && Get(Run(steps).requested, ip) < TWO32
    ensures Get(Run(steps).granted, ip) <= 2000
  {
    hide Run, ClockRun;
    LimitsHold(steps, ip);
  }

  // ----- the ban for inactivity -----

  const COLON: byte := 58

  /** util.RemovePort: the part before the first colon. */
  function RemovePort(s: Bytes): Bytes {
    if s == [] || s[0] == COLON then [] else [s[0]] + RemovePort(s[1..])
  }

  lemma {:induction false} RemovePortFacts(s: Bytes)
    ensures COLON !in RemovePort(s)
    ensures RemovePort(s) == s <==> COLON !in s
  {
    if s != [] && s[0] != COLON {
      RemovePortFacts(s[1..]);
      assert s == [s[0]] + s[1..];
    }
  }

  /** The ban for inactivity is entered under the remote address with its port, but the miner's
      actions are looked up without it: the ban refuses the miner anything it would have been
      granted if and only if the remote address has no port. */
  lemma InactivityBanExactly(w: World, remote: Bytes, now: int, required: u32, t: int)
    requires now <= t < now + BAN_DURATION
    ensures var ip := RemovePort(remote);
            (!Allowed(After(w, BanRemote(remote, now)), ip, required, t)
             <==> !Allowed(w, ip, required, t) || COLON !in remote)
  {
    hide RemovePort, Wrap32;
    RemovePortFacts(remote);
  }

  /** Nor does it refuse anybody else who is looked up without a port. */
  lemma InactivityBanRefusesNobody(w: World, remote: Bytes, now: int, ip: Bytes, required: u32, t: int)
    requires COLON in remote && COLON !in ip
    ensures Allowed(After(w, BanRemote(remote, now)), ip, required, t) == Allowed(w, ip, required, t)
  {
  }

  // ----- which remotes share a key -----

  /** The text of a remote address. */
  function Remote(host: Bytes, port: Bytes): Bytes {
    host + [COLON] + port
  }

  lemma {:induction false} RemovePortOf(host: Bytes, port: Bytes)
    ensures RemovePort(Remote(host, port)) == RemovePort(host)
  {
    var r := Remote(host, port);
    if host != [] && host[0] != COLON {
      RemovePortOf(host[1..], port);
      assert r[1..] == Remote(host[1..], port);
    }
  }

  /** Two remotes are counted and scored under one key if and only if their hosts agree up to the first
      colon; for hosts without a colon, if and only if the hosts are the same. */
  lemma SameKeyExactly(a: Bytes, p: Bytes, b: Bytes, q: Bytes)
    ensures RemovePort(Remote(a, p)) == RemovePort(Remote(b, q)) <==> RemovePort(a) == RemovePort(b)
    ensures COLON !in a && COLON !in b ==> (RemovePort(Remote(a, p)) == RemovePort(Remote(b, q)) <==> a == b)
  {
    hide RemovePort;
    RemovePortOf(a, p);
    RemovePortOf(b, q);
    RemovePortFacts(a);
    RemovePortFacts(b);
  }

  const BRACKET: byte := 91

  /** The host of an IPv6 remote: a bracket, the first group, a colon, the rest. */
  function V6Host(group: Bytes, rest: Bytes): Bytes {
    [BRACKET] + group + [COLON] + rest
  }

  /** All IPv6 remotes with the same first group (none for those starting with ::) share a key. */
  lemma V6RemotesShareKey(group: Bytes, x: Bytes, p: Bytes, y: Bytes, q: Bytes)
    requires COLON !in group
    ensures RemovePort(Remote(V6Host(group, x), p)) == RemovePort(Remote(V6Host(group, y), q)) == [BRACKET] + group
    ensures x != y ==> V6Host(group, x) != V6Host(group, y)
  {
    hide RemovePort;
    RemovePortOf(V6Host(group, x), p);
    RemovePortOf(V6Host(group, y), q);
    RemovePortOf([BRACKET] + group, x);
    RemovePortOf([BRACKET] + group, y);
    RemovePortFacts([BRACKET] + group);
    assert V6Host(group, x) == Remote([BRACKET] + group, x) && V6Host(group, y) == Remote([BRACKET] + group, y);
    assert V6Host(group, x)[|group| + 2..] == x && V6Host(group, y)[|group| + 2..] == y;
  }

  // ----- runs that show the two leftovers of the counter -----

  /** n Stratum connections of one address, at time 0. */
  function Joins(peer: Peer, n: nat): seq<Step> {
    if n == 0 then [] else Joins(peer, n - 1) + [JoinStratum(peer, 0)]
  }

  lemma {:induction false} JoinsCount(peer: Peer, n: nat)
    requires n <= MAX_CONNECTIONS_PER_IP + 1
    ensures var w := Run(Joins(peer, n));
            && Tracked(w.stratum, peer.ip) == n && w.xatum == w.getwork == []
            && Get(w.limits.conns, peer.ip) == n
            && Get(w.limits.scores, peer.ip) == ACTION_CONNECT * n && w.limits.bans == map[]
            && ClockRun(Joins(peer, n)) && w.clock == 0
  {
    hide After, Tracked;
    if n == 0 {
      NothingTracked(peer.ip);
    } else {
      JoinsCount(peer, n - 1);
      var w := Run(Joins(peer, n - 1));
      assert Joins(peer, n)[..|Joins(peer, n)| - 1] == Joins(peer, n - 1);
      JoinOnce(w, peer, n - 1);
    }
  }

  lemma NothingTracked(ip: Bytes)
    ensures Tracked([], ip) == 0
  {
  }

  lemma JoinOnce(w: World, peer: Peer, n: nat)
    requires n <= MAX_CONNECTIONS_PER_IP && Get(w.limits.conns, peer.ip) == n
    requires Get(w.limits.scores, peer.ip) == ACTION_CONNECT * n && w.limits.bans == map[]
    ensures var w' := After(w, JoinStratum(peer, 0));
            && Tracked(w'.stratum, peer.ip) == Tracked(w.stratum, peer.ip) + 1
            && w'.xatum == w.xatum && w'.getwork == w.getwork
            && Get(w'.limits.conns, peer.ip) == n + 1
            && Get(w'.limits.scores, peer.ip) == ACTION_CONNECT * (n + 1) && w'.limits.bans == map[]
            && w'.clock == 0
  {
    hide Tracked, Imposed, Add;
    TrackedAppend(w.stratum, peer, peer.ip);
    SmallWrap(ACTION_CONNECT * n + ACTION_CONNECT);
    SmallWrap(n + 1);
  }

  /** One more connection than the limit can be open. */
  lemma LimitExceeded(peer: Peer)
    ensures var steps := Joins(peer, MAX_CONNECTIONS_PER_IP + 1);
            ClockRun(steps) && Connections(Run(steps), peer.ip) == 101
  {
    hide Run, ClockRun;
    JoinsCount(peer, MAX_CONNECTIONS_PER_IP + 1);
  }

  /** A malformed Getwork request leaves the counter at 1 with no connection open. */
  lemma CounterLeaks(peer: Peer)
    ensures var w := Run([RequestGetwork(peer, false, 0)]);
            Connections(w, peer.ip) == 0 && Get(w.limits.conns, peer.ip) == 1
  {
    assert [RequestGetwork(peer, false, 0)][..0] == [];
    assert Run([]) == Start();
  }
}
