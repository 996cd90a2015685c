/** The port handshake between any number of chat peers connecting in any pattern: each peer has one
    initiating thread (client_socket.c) and one accepting thread (server_socket.c), both serial.
    Delivery is by whole messages and the backlog is unbounded. */
module Handshake {
  import opened Common
  import opened PortMessage
  import ChatPeer

  const STEPS_PER_HANDSHAKE := 8

  datatype ClientSide = AwaitingPort | HasPort(port: int) | SentPort(port: int) | Connected(port: int) | ClientExit

  datatype ServerSide = InBacklog | Accepted | AwaitingReply | HasReply(port: int) | Serving(port: int) | ServerExit

  /** One connection, with the messages in flight in each direction. */
  datatype Conn = Conn(from: nat, to: nat, client: ClientSide, server: ServerSide, toClient: seq<string>, toServer: seq<string>)

  /** One side of a finished handshake as its peer remembers it. */
  datatype Link = Link(conn: nat, asServer: bool, port: int)

  /** A peer: its listening port, the peers it still has to connect to, what its two threads are busy
      with, its table of clients, and (history) every handshake it finished. */
  datatype Peer = Peer(port: nat, todo: seq<nat>, initiating: Option<nat>, accepting: Option<nat>,
                       table: seq<Link>, finished: seq<Link>)

  datatype State = State(peers: seq<Peer>, conns: seq<Conn>)

  datatype Step =
    | Connect(p: nat)
    | Accept(c: nat)
    | ServerSend(c: nat)
    | ClientReceive(c: nat)
    | ClientSend(c: nat)
    | ClientInsert(c: nat)
    | ServerReceive(c: nat)
    | ServerInsert(c: nat)

  ghost predicate Init(s: State) {
    && s.conns == []
    && forall p :: 0 <= p < |s.peers| ==>
        && s.peers[p].initiating == None && s.peers[p].accepting == None
        && s.peers[p].table == [] && s.peers[p].finished == []
        && forall k :: 0 <= k < |s.peers[p].todo| ==> s.peers[p].todo[k] < |s.peers|
  }

  predicate WellFormed(s: State) {
    forall c :: 0 <= c < |s.conns| ==> s.conns[c].from < |s.peers| && s.conns[c].to < |s.peers|
  }

  predicate Enabled(s: State, step: Step)
    requires WellFormed(s)
  {
    match step
    case Connect(p) => p < |s.peers| && s.peers[p].initiating == None && s.peers[p].todo != [] && s.peers[p].todo[0] < |s.peers|
    case Accept(c) => c < |s.conns| && s.conns[c].server == InBacklog && s.peers[s.conns[c].to].accepting == None
    case ServerSend(c) => c < |s.conns| && s.conns[c].server == Accepted
    case ClientReceive(c) => c < |s.conns| && s.conns[c].client == AwaitingPort && s.conns[c].toClient != []
    case ClientSend(c) => c < |s.conns| && s.conns[c].client.HasPort?
    case ClientInsert(c) => c < |s.conns| && s.conns[c].client.SentPort?
    case ServerReceive(c) => c < |s.conns| && s.conns[c].server == AwaitingReply && s.conns[c].toServer != []
    case ServerInsert(c) => c < |s.conns| && s.conns[c].server.HasReply?
  }

  function SetConn(s: State, c: nat, conn: Conn): State
    requires c < |s.conns|
  {
    s.(conns := s.conns[c := conn])
  }

  /** The insertion under client_mutex: a full table stays as it is. */
  function Insert(peer: Peer, link: Link): Peer {
    peer.(table := if |peer.table| < ChatPeer.MAX_CLIENTS then peer.table + [link] else peer.table,
          finished := peer.finished + [link])
  }

  function Apply(s: State, step: Step): State
    requires WellFormed(s) && Enabled(s, step)
  {
    match step
    case Connect(p) =>
      var peer := s.peers[p];
      State(s.peers[p := peer.(todo := peer.todo[1..], initiating := Some(|s.conns|))],
            s.conns + [Conn(p, peer.todo[0], AwaitingPort, InBacklog, [], [])])
    case Accept(c) =>
      var q := s.conns[c].to;
      SetConn(s, c, s.conns[c].(server := Accepted)).(peers := s.peers[q := s.peers[q].(accepting := Some(c))])
    case ServerSend(c) =>
      SetConn(s, c, s.conns[c].(server := AwaitingReply, toClient := s.conns[c].toClient + [Print(s.peers[s.conns[c].to].port)]))
    case ClientReceive(c) =>
      var got := Scan(s.conns[c].toClient[0]);
      SetConn(s, c, s.conns[c].(client := if got.Some? then HasPort(got.value) else ClientExit, toClient := s.conns[c].toClient[1..]))
    case ClientSend(c) =>
      SetConn(s, c, s.conns[c].(client := SentPort(s.conns[c].client.port),
                                toServer := s.conns[c].toServer + [Print(s.peers[s.conns[c].from].port)]))
    case ClientInsert(c) =>
      var p, port := s.conns[c].from, s.conns[c].client.port;
      SetConn(s, c, s.conns[c].(client := Connected(port)))
        .(peers := s.peers[p := Insert(s.peers[p], Link(c, false, port)).(initiating := None)])
    case ServerReceive(c) =>
      var got := Scan(s.conns[c].toServer[0]);
      SetConn(s, c, s.conns[c].(server := if got.Some? then HasReply(got.value) else ServerExit, toServer := s.conns[c].toServer[1..]))
    case ServerInsert(c) =>
      var q, port := s.conns[c].to, s.conns[c].server.port;
      SetConn(s, c, s.conns[c].(server := Serving(port)))
        .(peers := s.peers[q := Insert(s.peers[q], Link(c, true, port)).(accepting := None)])
  }

  // ---------- the invariant ----------

  /** Where the two sides of one connection can be, and what they know by then. */
  predicate ConnOk(c: Conn, fromPort: nat, toPort: nat) {
    match c.client
    case AwaitingPort =>
      && c.toServer == []
      && if c.server == AwaitingReply then c.toClient == [Print(toPort)]
         else c.toClient == [] && (c.server == InBacklog || c.server == Accepted)
    case HasPort(x) => x == toPort && c.toClient == [] && c.toServer == [] && c.server == AwaitingReply
    case SentPort(x) => x == toPort && c.toClient == [] && ReplyOk(c, fromPort)
    case Connected(x) => x == toPort && c.toClient == [] && ReplyOk(c, fromPort)
    case ClientExit => false
  }

  predicate ReplyOk(c: Conn, fromPort: nat) {
    match c.server
    case AwaitingReply => c.toServer == [Print(fromPort)]
    case HasReply(y) => c.toServer == [] && y == fromPort
    case Serving(y) => c.toServer == [] && y == fromPort
    case _ => false
  }

  ghost predicate ConnsOk(s: State) {
    && WellFormed(s)
    && (forall c :: 0 <= c < |s.conns| ==> ConnOk(s.conns[c], s.peers[s.conns[c].from].port, s.peers[s.conns[c].to].port))
    && (forall p :: 0 <= p < |s.peers| ==> TargetsOk(s, s.peers[p].todo))
  }

  predicate TargetsOk(s: State, todo: seq<nat>) {
    forall k :: 0 <= k < |todo| ==> todo[k] < |s.peers|
  }

  predicate ServerBusy(c: Conn) {
    c.server == Accepted || c.server == AwaitingReply || c.server.HasReply?
  }

  /** Connection c's unfinished sides are what the two threads are busy with. */
  predicate ConnHeld(s: State, c: nat)
    requires WellFormed(s) && c < |s.conns|
  {
    && (!s.conns[c].client.Connected? ==> s.peers[s.conns[c].from].initiating == Some(c))
    && (ServerBusy(s.conns[c]) ==> s.peers[s.conns[c].to].accepting == Some(c))
  }

  /** What peer p's threads are busy with is unfinished. */
  predicate PeerHolds(s: State, p: nat)
    requires p < |s.peers|
  {
    && (s.peers[p].initiating.Some? ==>
        var c := s.peers[p].initiating.value; c < |s.conns| && s.conns[c].from == p && !s.conns[c].client.Connected?)
    && (s.peers[p].accepting.Some? ==>
        var c := s.peers[p].accepting.value; c < |s.conns| && s.conns[c].to == p && ServerBusy(s.conns[c]))
  }

  ghost predicate ThreadsOk(s: State) {
    && WellFormed(s)
    && (forall c :: 0 <= c < |s.conns| ==> ConnHeld(s, c))
    && (forall p :: 0 <= p < |s.peers| ==> PeerHolds(s, p))
  }

  lemma ConnsKept(s: State, step: Step)
    requires ConnsOk(s) && Enabled(s, step)
    ensures ConnsOk(Apply(s, step))
  {
    var s' := Apply(s, step);
    if step.Connect? {
      assert forall p :: 0 <= p < |s.peers| ==> s'.peers[p].port == s.peers[p].port;
    } else {
      ConnKept(s, step);
      assert forall c :: 0 <= c < |s.conns| && c != step.c ==> s'.conns[c] == s.conns[c];
      assert forall p :: 0 <= p < |s.peers| ==> s'.peers[p].port == s.peers[p].port && s'.peers[p].todo == s.peers[p].todo;
    }
  }

  /** The connection a step is about stays consistent: in particular what is received was printed by
      the other side, so scanning it succeeds. */
  lemma ConnKept(s: State, step: Step)
    requires ConnsOk(s) && Enabled(s, step) && !step.Connect?
    ensures var c := s.conns[step.c];
      && step.c < |Apply(s, step).conns|
      && Apply(s, step).conns[step.c].from == c.from && Apply(s, step).conns[step.c].to == c.to
      && ConnOk(Apply(s, step).conns[step.c], s.peers[c.from].port, s.peers[c.to].port)
  {
    var c := s.conns[step.c];
    ScanUndoesPrint(s.peers[c.to].port, []);
    ScanUndoesPrint(s.peers[c.from].port, []);
    assert Print(s.peers[c.to].port) + [] == Print(s.peers[c.to].port);
    assert Print(s.peers[c.from].port) + [] == Print(s.peers[c.from].port);
  }

  lemma ThreadsKept(s: State, step: Step)
    requires ConnsOk(s) && ThreadsOk(s) && Enabled(s, step)
    ensures WellFormed(Apply(s, step)) && ThreadsOk(Apply(s, step))
  {
    ConnsKept(s, step);
    var s' := Apply(s, step);
    if step.Connect? {
      ThreadsKeptByConnect(s, step.p);
    } else if step.Accept? || step.ClientInsert? || step.ServerInsert? {
      ThreadsKeptByTableStep(s, step);
    } else {
      forall d | 0 <= d < |s'.conns| ensures ConnHeld(s', d) {
        assert ConnHeld(s, d);
      }
      forall p | 0 <= p < |s'.peers| ensures PeerHolds(s', p) {
        assert PeerHolds(s, p);
      }
    }
  }

  lemma ThreadsKeptByConnect(s: State, p: nat)
    requires ConnsOk(s) && ThreadsOk(s) && Enabled(s, Connect(p))
    ensures WellFormed(Apply(s, Connect(p))) && ThreadsOk(Apply(s, Connect(p)))
  {
    var s' := Apply(s, Connect(p));
    forall d | 0 <= d < |s.conns| ensures ConnHeld(s', d) {
      assert ConnHeld(s, d);
    }
    forall q | 0 <= q < |s.peers| ensures PeerHolds(s', q) {
      assert PeerHolds(s, q);
    }
  }

  lemma ThreadsKeptByTableStep(s: State, step: Step)
    requires ConnsOk(s) && ThreadsOk(s) && Enabled(s, step)
    requires step.Accept? || step.ClientInsert? || step.ServerInsert?
    ensures WellFormed(Apply(s, step)) && ThreadsOk(Apply(s, step))
  {
    var s' := Apply(s, step);
    assert ConnHeld(s, step.c);
    forall d | 0 <= d < |s.conns| ensures ConnHeld(s', d) {
      assert ConnHeld(s, d);
    }
    forall q | 0 <= q < |s.peers| ensures PeerHolds(s', q) {
      assert PeerHolds(s, q);
    }
  }

  // ---------- no deadlock ----------

  predicate Finished(c: Conn) {
    c.client.Connected? && c.server.Serving?
  }

  ghost predicate AllDone(s: State) {
    && (forall p :: 0 <= p < |s.peers| ==> s.peers[p].todo == [])
    && (forall c :: 0 <= c < |s.conns| ==> Finished(s.conns[c]))
  }

  /** A connection both of whose sides have been taken on can always move. */
  lemma TakenOnMoves(s: State, c: nat) returns (step: Step)
    requires ConnsOk(s) && c < |s.conns| && !Finished(s.conns[c]) && s.conns[c].server != InBacklog
    ensures Enabled(s, step)
  {
    var conn := s.conns[c];
    assert ConnOk(conn, s.peers[conn.from].port, s.peers[conn.to].port);
    step :=
      if conn.server == Accepted then ServerSend(c)
      else if conn.client == AwaitingPort then ClientReceive(c)
      else if conn.client.HasPort? then ClientSend(c)
      else if conn.client.SentPort? then ClientInsert(c)
      else if conn.server == AwaitingReply then ServerReceive(c)
      else ServerInsert(c);
  }

  /** Whatever the pattern of connections, cycles included, a state with anything left to do has an
      enabled step: a connection waiting in a backlog waits for an acceptor that can move. */
  lemma NeverStuck(s: State) returns (step: Step)
    requires ConnsOk(s) && ThreadsOk(s) && !AllDone(s)
    ensures Enabled(s, step)
  {
    if c: nat :| c < |s.conns| && !Finished(s.conns[c]) {
      var q := s.conns[c].to;
      if s.conns[c].server != InBacklog {
        step := TakenOnMoves(s, c);
      } else if s.peers[q].accepting == None {
        step := Accept(c);
      } else {
        assert PeerHolds(s, q);
        step := TakenOnMoves(s, s.peers[q].accepting.value);
      }
    } else {
      var p: nat :| p < |s.peers| && s.peers[p].todo != [];
      assert PeerHolds(s, p) && TargetsOk(s, s.peers[p].todo);
      if s.peers[p].initiating.Some? {
        assert Finished(s.conns[s.peers[p].initiating.value]);
      }
      step := Connect(p);
    }
  }

  // ---------- the measure ----------

  function Left(c: Conn): nat {
    (match c.client
     case AwaitingPort => 3
     case HasPort(_) => 2
     case SentPort(_) => 1
     case _ => 0) +
    (match c.server
     case InBacklog => 4
     case Accepted => 3
     case AwaitingReply => 2
     case HasReply(_) => 1
     case _ => 0)
  }

  function LeftAll(cs: seq<Conn>): nat {
    if cs == [] then 0 else LeftAll(cs[..|cs| - 1]) + Left(cs[|cs| - 1])
  }

  /** How many connections the peers still have to ask for. */
  function Requested(ps: seq<Peer>): nat {
    if ps == [] then 0 else Requested(ps[..|ps| - 1]) + |ps[|ps| - 1].todo|
  }

  /** The number of steps still to be made. */
  function Work(s: State): nat {
    STEPS_PER_HANDSHAKE * Requested(s.peers) + LeftAll(s.conns)
  }

  lemma {:induction false} LeftAllUpdate(cs: seq<Conn>, c: nat, conn: Conn)
    requires c < |cs|
    ensures LeftAll(cs[c := conn]) == LeftAll(cs) - Left(cs[c]) + Left(conn)
  {
    var n := |cs| - 1;
    if c < n {
      LeftAllUpdate(cs[..n], c, conn);
      assert cs[c := conn][..n] == cs[..n][c := conn];
    } else {
      assert cs[c := conn][..n] == cs[..n];
    }
  }

  lemma {:induction false} RequestedUpdate(ps: seq<Peer>, p: nat, peer: Peer)
    requires p < |ps|
    ensures Requested(ps[p := peer]) == Requested(ps) - |ps[p].todo| + |peer.todo|
  {
    var n := |ps| - 1;
    if p < n {
      RequestedUpdate(ps[..n], p, peer);
      assert ps[p := peer][..n] == ps[..n][p := peer];
    } else {
      assert ps[p := peer][..n] == ps[..n];
    }
  }

  /** Every step does exactly one unit of the remaining work. */
  lemma StepCostsOne(s: State, step: Step)
    requires ConnsOk(s) && Enabled(s, step)
    ensures Work(Apply(s, step)) == Work(s) - 1
  {
    var s' := Apply(s, step);
    if step.Connect? {
      RequestedUpdate(s.peers, step.p, s'.peers[step.p]);
      assert s'.conns[..|s.conns|] == s.conns;
    } else {
      var c := s.conns[step.c];
      ConnKept(s, step);
      LeftAllUpdate(s.conns, step.c, s'.conns[step.c]);
      assert s'.conns == s.conns[step.c := s'.conns[step.c]];
      if step.Accept? || step.ServerInsert? {
        RequestedUpdate(s.peers, c.to, s'.peers[c.to]);
      } else if step.ClientInsert? {
        RequestedUpdate(s.peers, c.from, s'.peers[c.from]);
      }
    }
  }

  // ---------- the tables ----------

  /** A link records a finished side of a connection of this peer, with the port it received. */
  predicate LinkOk(s: State, p: nat, link: Link) {
    && link.conn < |s.conns|
    && (if link.asServer then s.conns[link.conn].to == p && s.conns[link.conn].server == Serving(link.port)
        else s.conns[link.conn].from == p && s.conns[link.conn].client == Connected(link.port))
  }

  ghost predicate PeerTable(s: State, p: nat)
    requires p < |s.peers|
  {
    var peer := s.peers[p];
    && peer.table == (if |peer.finished| <= ChatPeer.MAX_CLIENTS then peer.finished else peer.finished[..ChatPeer.MAX_CLIENTS])
    && (forall l :: l in peer.finished ==> LinkOk(s, p, l))
    && (forall i, j :: 0 <= i < j < |peer.finished| ==> peer.finished[i] != peer.finished[j])
  }

  /** Every finished side has been recorded by its peer. */
  ghost predicate Recorded(s: State, c: nat)
    requires WellFormed(s) && c < |s.conns|
  {
    var conn := s.conns[c];
    && (conn.client.Connected? ==> Link(c, false, conn.client.port) in s.peers[conn.from].finished)
    && (conn.server.Serving? ==> Link(c, true, conn.server.port) in s.peers[conn.to].finished)
  }

  ghost predicate TablesOk(s: State) {
    && WellFormed(s)
    && (forall p :: 0 <= p < |s.peers| ==> PeerTable(s, p))
    && (forall c :: 0 <= c < |s.conns| ==> Recorded(s, c))
  }

  lemma TablesKept(s: State, step: Step)
    requires ConnsOk(s) && TablesOk(s) && Enabled(s, step)
    ensures WellFormed(Apply(s, step)) && TablesOk(Apply(s, step))
  {
    ConnsKept(s, step);
    var s' := Apply(s, step);
    forall p | 0 <= p < |s.peers| ensures PeerTable(s', p) {
      assert PeerTable(s, p);
      PeerTableKept(s, step, p);
    }
    forall c | 0 <= c < |s'.conns| ensures Recorded(s', c) {
      if c < |s.conns| {
        assert Recorded(s, c);
        RecordedKept(s, step, c);
      }
    }
  }

  lemma PeerTableKept(s: State, step: Step, p: nat)
    requires ConnsOk(s) && Enabled(s, step) && p < |s.peers| && PeerTable(s, p)
    ensures PeerTable(Apply(s, step), p)
  {
    var s' := Apply(s, step);
    forall l | l in s.peers[p].finished ensures LinkOk(s', p, l) {
      assert LinkOk(s, p, l);
      if !step.Connect? && step.c == l.conn {
        assert ConnOk(s.conns[step.c], s.peers[s.conns[step.c].from].port, s.peers[s.conns[step.c].to].port);
      }
    }
    var old', new' := s.peers[p].finished, s'.peers[p].finished;
    if |new'| > |old'| {
      assert new' == old' + [new'[|old'|]];
      forall i | 0 <= i < |old'| ensures old'[i] != new'[|old'|] {
        assert old'[i] in old' && LinkOk(s, p, old'[i]);
      }
    }
  }

  lemma RecordedKept(s: State, step: Step, c: nat)
    requires ConnsOk(s) && Enabled(s, step) && c < |s.conns| && Recorded(s, c)
    requires WellFormed(Apply(s, step)) && c < |Apply(s, step).conns|
    ensures Recorded(Apply(s, step), c)
  {
    var s' := Apply(s, step);
    assert forall p, l :: 0 <= p < |s.peers| && l in s.peers[p].finished ==> l in s'.peers[p].finished;
  }

  // ---------- whole runs ----------

  ghost predicate IsRun(run: seq<State>, steps: seq<Step>) {
    && |run| == |steps| + 1
    && (forall k :: 0 <= k < |run| ==> WellFormed(run[k]))
    && forall k :: 0 <= k < |steps| ==> Enabled(run[k], steps[k]) && run[k + 1] == Apply(run[k], steps[k])
  }

  lemma {:induction false} InvariantsHold(run: seq<State>, steps: seq<Step>, n: nat)
    requires IsRun(run, steps) && n < |run| && Init(run[0])
    ensures ConnsOk(run[n]) && ThreadsOk(run[n]) && TablesOk(run[n])
    ensures Work(run[n]) + n == STEPS_PER_HANDSHAKE * Requested(run[0].peers)
  {
    if n > 0 {
      InvariantsHold(run, steps, n - 1);
      ConnsKept(run[n - 1], steps[n - 1]);
      ThreadsKept(run[n - 1], steps[n - 1]);
      TablesKept(run[n - 1], steps[n - 1]);
      StepCostsOne(run[n - 1], steps[n - 1]);
    }
  }

  lemma {:induction false} NothingRequested(ps: seq<Peer>)
    requires forall p :: 0 <= p < |ps| ==> ps[p].todo == []
    ensures Requested(ps) == 0
  {
    if ps != [] {
      NothingRequested(ps[..|ps| - 1]);
    }
  }

  lemma {:induction false} NothingLeft(cs: seq<Conn>)
    requires forall c :: 0 <= c < |cs| ==> Finished(cs[c])
    ensures LeftAll(cs) == 0
  {
    if cs != [] {
      NothingLeft(cs[..|cs| - 1]);
    }
  }

  /** Whom peer p has connected to, in order. */
  function Targets(cs: seq<Conn>, p: nat): seq<nat> {
    if cs == [] then []
    else Targets(cs[..|cs| - 1], p) + (if cs[|cs| - 1].from == p then [cs[|cs| - 1].to] else [])
  }

  lemma {:induction false} TargetsUpdate(cs: seq<Conn>, c: nat, conn: Conn, p: nat)
    requires c < |cs| && conn.from == cs[c].from && conn.to == cs[c].to
    ensures Targets(cs[c := conn], p) == Targets(cs, p)
  {
    var n := |cs| - 1;
    if c < n {
      TargetsUpdate(cs[..n], c, conn, p);
      assert cs[c := conn][..n] == cs[..n][c := conn];
    } else {
      assert cs[c := conn][..n] == cs[..n];
    }
  }

  lemma RequestsKept(s: State, step: Step, p: nat)
    requires ConnsOk(s) && Enabled(s, step) && p < |s.peers|
    ensures var s' := Apply(s, step);
      && |s'.peers| == |s.peers| && s'.peers[p].port == s.peers[p].port
      && Targets(s'.conns, p) + s'.peers[p].todo == Targets(s.conns, p) + s.peers[p].todo
  {
    var s' := Apply(s, step);
    if step.Connect? {
      assert s'.conns[..|s.conns|] == s.conns;
      if step.p == p {
        assert s.peers[p].todo == [s.peers[p].todo[0]] + s.peers[p].todo[1..];
      }
    } else {
      ConnKept(s, step);
      assert s'.conns == s.conns[step.c := s'.conns[step.c]];
      TargetsUpdate(s.conns, step.c, s'.conns[step.c], p);
    }
  }

  /** In every run a peer keeps its listening port, and has connected to those it was asked to connect
      to, in the order asked, but for those still to come. */
  lemma {:induction false} ConnectsAsAsked(run: seq<State>, steps: seq<Step>, n: nat, p: nat)
    requires IsRun(run, steps) && n < |run| && Init(run[0]) && p < |run[0].peers|
    ensures |run[n].peers| == |run[0].peers| && run[n].peers[p].port == run[0].peers[p].port
    ensures Targets(run[n].conns, p) + run[n].peers[p].todo == run[0].peers[p].todo
  {
    if n > 0 {
      ConnectsAsAsked(run, steps, n - 1, p);
      InvariantsHold(run, steps, n - 1);
      RequestsKept(run[n - 1], steps[n - 1], p);
    }
  }

  /** No run is longer than 8 steps per requested connection, and a run that cannot be continued has
      exactly that many: every peer has connected to exactly the peers it was asked to, every handshake
      is finished, each side holds and has recorded the other's listening port, and each peer's table
      is the first ten of its finished handshakes. */
  lemma EveryHandshakeCompletes(run: seq<State>, steps: seq<Step>)
    requires IsRun(run, steps) && Init(run[0])
    ensures |steps| <= 8 * Requested(run[0].peers) && |run[|steps|].peers| == |run[0].peers|
    ensures var s := run[|steps|];
      (forall step :: !Enabled(s, step)) <==> |steps| == 8 * Requested(run[0].peers)
    ensures var s := run[|steps|];
      (forall step :: !Enabled(s, step)) ==> TablesOk(s) && forall c :: 0 <= c < |s.conns| ==> Exchanged(s, c, run[0].peers)
    ensures var s := run[|steps|];
      (forall step :: !Enabled(s, step)) ==> forall p :: 0 <= p < |s.peers| ==> Served(s, p, run[0].peers)
  {
    var s := run[|steps|];
    InvariantsHold(run, steps, |steps|);
    PeersStay(run, steps, |steps|);
    if step :| Enabled(s, step) {
      StepCostsOne(s, step);
    } else {
      if !AllDone(s) {
        var step := NeverStuck(s);
      }
      NothingRequested(s.peers);
      NothingLeft(s.conns);
      forall p | 0 <= p < |s.peers|
        ensures s.peers[p].port == run[0].peers[p].port && Served(s, p, run[0].peers)
      {
        ConnectsAsAsked(run, steps, |steps|, p);
        ServedAtTheEnd(s, p, run[0].peers);
      }
      AllExchanged(s, run[0].peers);
    }
  }

  /** Peer p has connected to everybody it was asked to, and its table is full or complete. */
  ghost predicate Served(s: State, p: nat, peers: seq<Peer>) {
    && p < |s.peers| == |peers|
    && s.peers[p].todo == [] && Targets(s.conns, p) == peers[p].todo
    && s.peers[p].table == (if |s.peers[p].finished| <= 10 then s.peers[p].finished else s.peers[p].finished[..10])
  }

  lemma ServedAtTheEnd(s: State, p: nat, peers: seq<Peer>)
    requires TablesOk(s) && AllDone(s) && p < |s.peers| == |peers|
    requires Targets(s.conns, p) + s.peers[p].todo == peers[p].todo
    ensures Served(s, p, peers)
  {
    assert PeerTable(s, p);
    assert Targets(s.conns, p) + [] == Targets(s.conns, p);
  }

  /** Connection c has been completed between peers that listened on these ports. */
  ghost predicate Exchanged(s: State, c: nat, peers: seq<Peer>) {
    && c < |s.conns| && s.conns[c].from < |s.peers| == |peers| && s.conns[c].to < |s.peers|
    && var conn := s.conns[c];
      && conn.client == Connected(peers[conn.to].port) && conn.server == Serving(peers[conn.from].port)
      && Link(c, false, peers[conn.to].port) in s.peers[conn.from].finished
      && Link(c, true, peers[conn.from].port) in s.peers[conn.to].finished
  }

  lemma AllExchanged(s: State, peers: seq<Peer>)
    requires ConnsOk(s) && TablesOk(s) && |s.peers| == |peers| && forall c :: 0 <= c < |s.conns| ==> Finished(s.conns[c])
    requires forall p :: 0 <= p < |peers| ==> s.peers[p].port == peers[p].port
    ensures forall c :: 0 <= c < |s.conns| ==> Exchanged(s, c, peers)
  {
    forall c | 0 <= c < |s.conns| ensures Exchanged(s, c, peers) {
      assert Recorded(s, c);
      assert ConnOk(s.conns[c], s.peers[s.conns[c].from].port, s.peers[s.conns[c].to].port);
    }
  }

  lemma {:induction false} PeersStay(run: seq<State>, steps: seq<Step>, n: nat)
    requires IsRun(run, steps) && n < |run|
    ensures |run[n].peers| == |run[0].peers|
  {
    if n > 0 {
      PeersStay(run, steps, n - 1);
      assert run[n] == Apply(run[n - 1], steps[n - 1]);
    }
  }
}
