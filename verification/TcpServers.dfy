/**
 * The connection registry of the listening server (code/network/tcp/tcp_server.cc) under accepts,
 * closes and shutdown. Everything runs in the loop thread except `Stop`, which another thread
 * may call at any moment between two callbacks.
 */
module TcpServers {
  /** Connection objects are told apart by number; descriptors may be reused once a connection is gone. */
  type Conn = nat
  type Fd = int

  /** What the layer above hears about connections, in order. */
  datatype Report = Opened(conn: Conn) | Delivered(conn: Conn) | Closed(conn: Conn)

  /** `fds`: every connection ever accepted. `connected`: those in state Connected. `swept`: StopInLoop has run. */
  datatype Registry = Registry(
    connections: map<Fd, Conn>,
    fds: map<Conn, Fd>,
    connected: set<Conn>,
    stopped: bool,
    accepting: bool,
    swept: bool,
    log: seq<Report>)

  function AfterAccept(s: Registry, fd: Fd, conn: Conn): Registry {
    if s.stopped || !s.accepting || fd < 0 then s
    else s.(connections := s.connections[fd := conn], fds := s.fds[conn := fd], connected := s.connected + {conn},
            log := s.log + [Opened(conn)])
  }

  function AfterRemove(s: Registry, fd: Fd): Registry {
    if s.stopped then s else s.(connections := s.connections - {fd})
  }

  /** `handleClose` with its two callbacks. */
  function AfterClose(s: Registry, conn: Conn): Registry
    requires conn in s.fds
  {
    if conn !in s.connected then s
    else AfterRemove(s.(connected := s.connected - {conn}, log := s.log + [Closed(conn)]), s.fds[conn])
  }

  function AfterRead(s: Registry, conn: Conn): Registry {
    if conn !in s.connected then s else s.(log := s.log + [Delivered(conn)])
  }

  function AfterCloses(s: Registry, conns: seq<Conn>): Registry
    requires forall c | c in conns :: c in s.fds
    ensures AfterCloses(s, conns).fds == s.fds && AfterCloses(s, conns).stopped == s.stopped
  {
    if conns == [] then s else
      var before := AfterCloses(s, conns[..|conns| - 1]);
      AfterClose(before, conns[|conns| - 1])
  }

  /** `conns` is the copy of the registry's connections, in the order of the walk. */
  function AfterStopInLoop(s: Registry, conns: seq<Conn>): Registry
    requires forall c | c in conns :: c in s.fds
  {
    AfterCloses(s.(accepting := false), conns).(connections := map[], swept := true)
  }

  predicate Registered(connections: map<Fd, Conn>, c: Conn) { exists fd :: fd in connections && connections[fd] == c }

  ghost predicate Walks(conns: seq<Conn>, connections: map<Fd, Conn>) {
    forall c: Conn :: c in conns <==> Registered(connections, c)
  }

  ghost predicate Visited(connections: map<Fd, Conn>, left: set<Fd>, c: Conn) {
    exists fd :: fd in connections && fd !in left && connections[fd] == c
  }

  /** Whatever is registered was accepted under that descriptor, and whatever is connected is registered. */
  ghost predicate Sound(s: Registry) {
    && (forall fd | fd in s.connections :: s.connections[fd] in s.fds && s.fds[s.connections[fd]] == fd)
    && (forall c | c in s.connected :: c in s.fds && s.fds[c] in s.connections && s.connections[s.fds[c]] == c)
    && (!s.stopped ==> forall fd | fd in s.connections :: s.connections[fd] in s.connected)
    && (s.swept ==> s.stopped && s.connections == map[])
  }

  lemma RegisteredUnder(connections: map<Fd, Conn>, fd: Fd, c: Conn)
    requires fd in connections && connections[fd] == c
    ensures Registered(connections, c)
  {
  }

  lemma VisitedNone(connections: map<Fd, Conn>)
    ensures forall c: Conn :: !Visited(connections, connections.Keys, c)
  {
  }

  lemma VisitedMore(connections: map<Fd, Conn>, left: set<Fd>, fd: Fd)
    requires fd in left && fd in connections
    ensures forall c: Conn :: Visited(connections, left - {fd}, c) <==> Visited(connections, left, c) || c == connections[fd]
  {
  }

  lemma VisitedAll(connections: map<Fd, Conn>)
    ensures forall c: Conn :: Visited(connections, {}, c) <==> Registered(connections, c)
  {
  }

  /** The connections of the map, in the order it is walked. */
  method Values(connections: map<Fd, Conn>) returns (conns: seq<Conn>)
    ensures Walks(conns, connections)
  {
    hide Visited, Registered;
    conns := [];
    var left := connections;
    VisitedNone(connections);
    while left.Keys != {}
      invariant left.Keys <= connections.Keys
      invariant forall c: Conn :: c in conns <==> Visited(connections, left.Keys, c)
      decreases left.Keys
    {
      var pair :| pair in left.Items;
      VisitedMore(connections, left.Keys, pair.0);
      conns := conns + [connections[pair.0]];
      left := left - {pair.0};
    }
    VisitedAll(connections);
  }

  class TcpServer {
    var connections: map<Fd, Conn>
    var stopped: bool
    var accepting: bool
    /** The `state_` and the `fd()` of the connection objects. */
    var connected: set<Conn>
    var fds: map<Conn, Fd>
    ghost var swept: bool
    ghost var log: seq<Report>

    ghost function State(): Registry
      reads this
    {
      Registry(connections, fds, connected, stopped, accepting, swept, log)
    }

    constructor ()
      ensures State() == Initial()
    {
      connections, stopped, accepting, connected := map[], false, true, {};
      fds, swept, log := map[], false, [];
    }

    /** `fd` is what `accept4` returned: negative if it failed. */
    method HandleAccept(fd: Fd, conn: Conn)
      requires conn !in fds
      modifies this
      ensures State() == AfterAccept(old(State()), fd, conn)
    {
      if stopped || !accepting || fd < 0 {
        return;
      }
      connections := connections[fd := conn];
      connected := connected + {conn};
      fds := fds[conn := fd];
      log := log + [Opened(conn)];
    }

    method RemoveConnection(fd: Fd)
      modifies this`connections
      ensures State() == AfterRemove(old(State()), fd)
    {
      if !stopped {
        connections := connections - {fd};
      }
    }

    method HandleClose(conn: Conn, fd: Fd)
      requires conn in fds && fds[conn] == fd
      modifies this`connections, this`connected, this`log
      ensures State() == AfterClose(old(State()), conn)
    {
      if conn !in connected {
        return;
      }
      connected := connected - {conn};
      log := log + [Closed(conn)];
      RemoveConnection(fd);
    }

    method StopInLoop() returns (conns: seq<Conn>)
      requires Sound(State()) && stopped
      modifies this
      ensures Walks(conns, old(connections)) && forall c | c in conns :: c in old(fds)
      ensures State() == AfterStopInLoop(old(State()), conns)
    {
      accepting := false;
      conns := Values(connections);
      ghost var s := State();
      for i := 0 to |conns|
        invariant forall c | c in conns :: c in s.fds
        invariant forall c | c in conns[..i] :: c in s.fds
        invariant fds == s.fds
        invariant State() == AfterCloses(s, conns[..i])
      {
        assert conns[..i + 1][..i] == conns[..i];
        HandleClose(conns[i], fds[conns[i]]);
      }
      assert conns[..|conns|] == conns;
      connections := map[];
      swept := true;
    }
  }

  // ---------------------------------------------------------------- every run

  datatype Action =
    | Accept(fd: Fd, conn: Conn)
    | Read(conn: Conn)
    | Close(conn: Conn)           // end of stream, an error, a corrupt frame, or `close`
    | StopAcceptingInLoop
    | SetStopped                  // `Stop`, from any thread
    | StopInLoop(conns: seq<Conn>)

  /** The kernel does not hand out a descriptor that is still open. */
  ghost predicate Enabled(s: Registry, a: Action) {
    match a
    case Accept(fd, conn) => conn !in s.fds && fd !in s.connections
    case Close(conn) => conn in s.fds
    case StopInLoop(conns) => s.stopped && !s.swept && Walks(conns, s.connections) && forall c | c in conns :: c in s.fds
    case _ => true
  }

  function Next(s: Registry, a: Action): Registry
    requires Enabled(s, a)
  {
    match a
    case Accept(fd, conn) => AfterAccept(s, fd, conn)
    case Read(conn) => AfterRead(s, conn)
    case Close(conn) => AfterClose(s, conn)
    case StopAcceptingInLoop => s.(accepting := false)
    case SetStopped => s.(stopped := true)
    case StopInLoop(conns) => AfterStopInLoop(s, conns)
  }

  function Initial(): Registry { Registry(map[], map[], {}, false, true, false, []) }

  ghost function Run(actions: seq<Action>): Registry {
    if actions == [] then Initial() else
      var s := Run(actions[..|actions| - 1]);
      var a := actions[|actions| - 1];
      if Enabled(s, a) then Next(s, a) else s
  }

  /** Closing a list of connections once the server is stopped. */
  lemma {:induction false} ClosesAll(s: Registry, conns: seq<Conn>)
    requires s.stopped && forall c | c in conns :: c in s.fds
    ensures var t := AfterCloses(s, conns);
      && t.connections == s.connections
      && t.swept == s.swept
      && (forall c: Conn :: c in t.connected <==> c in s.connected && c !in conns)
  {
    if conns != [] {
      var front := conns[..|conns| - 1];
      assert conns == front + [conns[|conns| - 1]];
      ClosesAll(s, front);
    }
  }

  lemma NextKeepsSound(s: Registry, a: Action)
    requires Enabled(s, a) && Sound(s)
    ensures Sound(Next(s, a))
  {
    if a.StopInLoop? {
      ClosesAll(s.(accepting := false), a.conns);
      forall c | c in s.connected ensures c in a.conns {
        RegisteredUnder(s.connections, s.fds[c], c);
      }
    }
  }

  /** How the log speaks of one connection: opened, then messages, then at most one close. */
  function ClosesOf(log: seq<Report>, c: Conn): nat {
    if log == [] then 0 else ClosesOf(log[..|log| - 1], c) + (if log[|log| - 1] == Closed(c) then 1 else 0)
  }

  ghost predicate WellReported(s: Registry) {
    && (forall c: Conn :: ClosesOf(s.log, c) == if c in s.fds && c !in s.connected then 1 else 0)
    && (forall i | 0 <= i < |s.log| :: s.log[i].conn in s.fds)
    && (forall i | 0 <= i < |s.log| && (s.log[i].Delivered? || s.log[i].Opened?) :: ClosesOf(s.log[..i], s.log[i].conn) == 0)
  }

  lemma ReportKeeps(s: Registry, t: Registry, r: Report)
    requires WellReported(s) && t.log == s.log + [r] && r.conn in t.fds && s.fds.Keys <= t.fds.Keys
    requires r.Closed? ==> r.conn in s.connected && t.connected == s.connected - {r.conn} && t.fds == s.fds
    requires r.Delivered? ==> r.conn in s.connected && t.connected == s.connected && t.fds == s.fds
    requires r.Opened? ==> r.conn !in s.fds && t.connected == s.connected + {r.conn} && t.fds.Keys == s.fds.Keys + {r.conn}
    requires forall c | c in s.connected :: c in s.fds
    ensures WellReported(t)
  {
    assert t.log[..|s.log|] == s.log;
    forall c: Conn ensures ClosesOf(t.log, c) == if c in t.fds && c !in t.connected then 1 else 0 { }
    forall i | 0 <= i < |t.log| && (t.log[i].Delivered? || t.log[i].Opened?)
      ensures ClosesOf(t.log[..i], t.log[i].conn) == 0
    {
      assert t.log[..i] == s.log[..i];
    }
  }

  lemma CloseKeepsReported(s: Registry, c: Conn)
    requires WellReported(s) && c in s.fds && forall x | x in s.connected :: x in s.fds
    ensures WellReported(AfterClose(s, c))
  {
    if c in s.connected { ReportKeeps(s, AfterClose(s, c), Closed(c)); }
  }

  lemma {:induction false} ClosesKeepReported(s: Registry, conns: seq<Conn>)
    requires WellReported(s) && s.stopped && (forall c | c in conns :: c in s.fds) && forall x | x in s.connected :: x in s.fds
    ensures WellReported(AfterCloses(s, conns))
  {
    if conns != [] {
      var front := conns[..|conns| - 1];
      ClosesKeepReported(s, front);
      ClosesAll(s, front);
      CloseKeepsReported(AfterCloses(s, front), conns[|conns| - 1]);
    }
  }

  lemma NextKeepsReported(s: Registry, a: Action)
    requires Enabled(s, a) && Sound(s) && WellReported(s)
    ensures WellReported(Next(s, a))
  {
    match a {
      case Accept(fd, conn) =>
        if !s.stopped && s.accepting && fd >= 0 { ReportKeeps(s, Next(s, a), Opened(conn)); }
      case Read(conn) =>
        if conn in s.connected { ReportKeeps(s, Next(s, a), Delivered(conn)); }
      case Close(conn) => CloseKeepsReported(s, conn);
      case StopInLoop(conns) => ClosesKeepReported(s.(accepting := false), conns);
      case _ =>
    }
  }

  lemma {:induction false} RunSound(actions: seq<Action>)
    ensures Sound(Run(actions)) && WellReported(Run(actions))
  {
    if actions != [] {
      RunSound(actions[..|actions| - 1]);
      var s := Run(actions[..|actions| - 1]);
      if Enabled(s, actions[|actions| - 1]) {
        NextKeepsSound(s, actions[|actions| - 1]);
        NextKeepsReported(s, actions[|actions| - 1]);
      }
    }
  }

  /** Until the server is stopped, the registry holds exactly the connections that are up, under their own descriptors. */
  lemma RegistryIsExact(actions: seq<Action>, fd: Fd, c: Conn)
    requires !Run(actions).stopped
    ensures var s := Run(actions);
      (fd in s.connections && s.connections[fd] == c) <==> (c in s.connected && c in s.fds && s.fds[c] == fd)
  {
    RunSound(actions);
  }

  /** After StopInLoop the registry is empty and every connection ever accepted is down, its close reported once. */
  lemma SweptMeansDown(actions: seq<Action>, c: Conn)
    requires Run(actions).swept
    ensures var s := Run(actions);
      && s.connections == map[] && s.connected == {}
      && (c in s.fds ==> ClosesOf(s.log, c) == 1)
  {
    RunSound(actions);
    var s := Run(actions);
  }

  /** A connection reports its close exactly once, when it goes down, and delivers nothing afterwards. */
  lemma ClosedOnceThenSilent(actions: seq<Action>, c: Conn, i: nat)
    requires i < |Run(actions).log| && Run(actions).log[i] == Delivered(c)
    ensures var s := Run(actions);
      && ClosesOf(s.log[..i], c) == 0
      && ClosesOf(s.log, c) == (if c in s.connected then 0 else 1)
  {
    RunSound(actions);
  }

  // ---------------------------------------------------------------- each connection by itself

  /** Until then `accept` is called for whoever connects. */
  predicate Listening(actions: seq<Action>) { SetStopped !in actions && StopAcceptingInLoop !in actions }

  /** What becomes of one connection, told from the actions alone. */
  datatype Fate = Unknown | Up(fd: Fd) | Down(fd: Fd)

  /** Up once `accept4` has returned a descriptor for it, down at the first end of stream, error, close or sweep. */
  ghost function FateAfter(f: Fate, a: Action, listening: bool, c: Conn): Fate {
    match a
    case Accept(fd, conn) => if conn == c && 0 <= fd && listening then Up(fd) else f
    case Close(conn) => if conn == c && f.Up? then Down(f.fd) else f
    case StopInLoop(_) => if f.Up? then Down(f.fd) else f
    case _ => f
  }

  ghost function FateOf(actions: seq<Action>, c: Conn): Fate {
    if actions == [] then Unknown else
      var before, a := actions[..|actions| - 1], actions[|actions| - 1];
      if Enabled(Run(before), a) then FateAfter(FateOf(before, c), a, Listening(before), c) else FateOf(before, c)
  }

  /** What the layer above ought to hear when the fate of a connection goes from `f` to `g` in action `a`. */
  function Word(f: Fate, g: Fate, a: Action, c: Conn): seq<Report> {
    if f.Unknown? && g.Up? then [Opened(c)]
    else if f.Up? && g.Down? then [Closed(c)]
    else if f.Up? && a == Read(c) then [Delivered(c)]
    else []
  }

  ghost function Heard(actions: seq<Action>, c: Conn): seq<Report> {
    if actions == [] then [] else
      var before, a := actions[..|actions| - 1], actions[|actions| - 1];
      Heard(before, c) + Word(FateOf(before, c), FateOf(actions, c), a, c)
  }

  /** What is said of one connection. */
  function About(log: seq<Report>, c: Conn): seq<Report> {
    if log == [] then [] else
      About(log[..|log| - 1], c) + (if log[|log| - 1].conn == c then [log[|log| - 1]] else [])
  }

  lemma AboutNext(log: seq<Report>, r: Report, c: Conn)
    ensures About(log + [r], c) == About(log, c) + (if r.conn == c then [r] else [])
  {
    assert (log + [r])[..|log|] == log;
  }

  ghost predicate Follows(s: Registry, listening: bool, f: Fate, c: Conn) {
    && listening == (!s.stopped && s.accepting)
    && (c in s.fds <==> !f.Unknown?)
    && (c in s.fds ==> s.fds[c] == f.fd >= 0)
    && (c in s.connected <==> f.Up?)
  }

  lemma CloseAbout(s: Registry, x: Conn, c: Conn)
    requires x in s.fds
    ensures About(AfterClose(s, x).log, c) == About(s.log, c) + (if c in s.connected && c == x then [Closed(c)] else [])
    ensures AfterClose(s, x).accepting == s.accepting
  {
    if x in s.connected { AboutNext(s.log, Closed(x), c); }
    hide About;
    assert About(s.log, c) + [] == About(s.log, c);
  }

  lemma {:induction false} ClosesAbout(s: Registry, conns: seq<Conn>, c: Conn)
    requires s.stopped && forall x | x in conns :: x in s.fds
    ensures About(AfterCloses(s, conns).log, c) ==
      About(s.log, c) + (if c in s.connected && c in conns then [Closed(c)] else [])
    ensures AfterCloses(s, conns).accepting == s.accepting
  {
    hide About, AfterClose;
    if conns == [] {
      assert About(s.log, c) + [] == About(s.log, c);
    } else {
      var front, last := conns[..|conns| - 1], conns[|conns| - 1];
      assert conns == front + [last];
      ClosesAbout(s, front, c);
      ClosesAll(s, front);
      CloseAbout(AfterCloses(s, front), last, c);
      assert About(s.log, c) + [Closed(c)] + [] == About(s.log, c) + [] + [Closed(c)] == About(s.log, c) + [Closed(c)];
      assert About(s.log, c) + [] + [] == About(s.log, c) + [];
    }
  }

  lemma SweepFollows(s: Registry, conns: seq<Conn>, listening: bool, f: Fate, c: Conn)
    requires Enabled(s, StopInLoop(conns)) && Sound(s) && Follows(s, listening, f, c)
    ensures var t, g := Next(s, StopInLoop(conns)), FateAfter(f, StopInLoop(conns), listening, c);
      Follows(t, listening, g, c) && About(t.log, c) == About(s.log, c) + Word(f, g, StopInLoop(conns), c)
  {
    var shut := s.(accepting := false);
    ClosesAbout(shut, conns, c);
    ClosesAll(shut, conns);
    if c in s.connected { RegisteredUnder(s.connections, s.fds[c], c); }
  }

  lemma AcceptFollows(s: Registry, fd: Fd, conn: Conn, listening: bool, f: Fate, c: Conn)
    requires Enabled(s, Accept(fd, conn)) && Follows(s, listening, f, c)
    ensures var t, g := AfterAccept(s, fd, conn), FateAfter(f, Accept(fd, conn), listening, c);
      Follows(t, listening, g, c) && About(t.log, c) == About(s.log, c) + Word(f, g, Accept(fd, conn), c)
  {
    AboutNext(s.log, Opened(conn), c);
    hide About;
    assert About(s.log, c) + [] == About(s.log, c);
  }

  lemma CloseFollows(s: Registry, conn: Conn, listening: bool, f: Fate, c: Conn)
    requires Enabled(s, Close(conn)) && Follows(s, listening, f, c)
    ensures var t, g := AfterClose(s, conn), FateAfter(f, Close(conn), listening, c);
      Follows(t, listening, g, c) && About(t.log, c) == About(s.log, c) + Word(f, g, Close(conn), c)
  {
    CloseAbout(s, conn, c);
    hide About;
  }

  lemma ReadFollows(s: Registry, conn: Conn, listening: bool, f: Fate, c: Conn)
    requires Follows(s, listening, f, c)
    ensures var t := AfterRead(s, conn);
      Follows(t, listening, f, c) && About(t.log, c) == About(s.log, c) + Word(f, f, Read(conn), c)
  {
    AboutNext(s.log, Delivered(conn), c);
    hide About;
    assert About(s.log, c) + [] == About(s.log, c);
  }

  lemma NextFollows(s: Registry, a: Action, listening: bool, f: Fate, c: Conn)
    requires Enabled(s, a) && Sound(s) && Follows(s, listening, f, c)
    ensures var t, g := Next(s, a), FateAfter(f, a, listening, c);
      && Follows(t, listening && a != SetStopped && a != StopAcceptingInLoop, g, c)
      && About(t.log, c) == About(s.log, c) + Word(f, g, a, c)
  {
    hide About, Sound, AfterAccept, AfterClose, AfterRead, AfterStopInLoop;
    match a {
      case Accept(fd, conn) => AcceptFollows(s, fd, conn, listening, f, c);
      case Close(conn) => CloseFollows(s, conn, listening, f, c);
      case Read(conn) => ReadFollows(s, conn, listening, f, c);
      case StopInLoop(conns) => SweepFollows(s, conns, listening, f, c);
      case _ => assert About(s.log, c) + [] == About(s.log, c);
    }
  }

  lemma ListeningNext(actions: seq<Action>)
    requires actions != []
    ensures var before, a := actions[..|actions| - 1], actions[|actions| - 1];
      Listening(actions) == (Listening(before) && a != SetStopped && a != StopAcceptingInLoop)
  {
    assert actions == actions[..|actions| - 1] + [actions[|actions| - 1]];
  }

  /**
   * The registry is each connection's own story: it is known once accepted, under its own descriptor, up until the
   * first close or the sweep, and the layer above hears of it exactly when it opens, when it reads while up, and when
   * it goes down.
   */
  lemma {:induction false} RunFollows(actions: seq<Action>, c: Conn)
    ensures Follows(Run(actions), Listening(actions), FateOf(actions, c), c)
    ensures About(Run(actions).log, c) == Heard(actions, c)
  {
    if actions != [] {
      hide Next, Enabled, Follows, Listening, Word;
      var before, a := actions[..|actions| - 1], actions[|actions| - 1];
      RunFollows(before, c);
      RunSound(before);
      ListeningNext(actions);
      if Enabled(Run(before), a) {
        NextFollows(Run(before), a, Listening(before), FateOf(before, c), c);
      } else {
        IdleWord(Run(before), a, Listening(before), FateOf(before, c), c);
      }
    }
  }

  /** Only a second sweep, a taken number or a connection never accepted is not enabled, and nothing is heard then. */
  lemma IdleWord(s: Registry, a: Action, listening: bool, f: Fate, c: Conn)
    requires !Enabled(s, a)
    ensures Word(f, f, a, c) == [] && a != SetStopped && a != StopAcceptingInLoop
    ensures About(s.log, c) + [] == About(s.log, c)
  {
  }

  ghost predicate Accepted(actions: seq<Action>, k: nat, fd: Fd, c: Conn) {
    k < |actions| && actions[k] == Accept(fd, c) && Enabled(Run(actions[..k]), actions[k]) && 0 <= fd && Listening(actions[..k])
  }

  lemma AcceptedGrows(actions: seq<Action>, fd: Fd, c: Conn)
    requires actions != []
    ensures var n := |actions| - 1;
      (exists k: nat :: Accepted(actions, k, fd, c)) <==> (exists k: nat :: Accepted(actions[..n], k, fd, c)) || Accepted(actions, n, fd, c)
  {
    hide Enabled, Listening, Run;
    var n := |actions| - 1;
    assert forall k: nat | k <= n :: actions[..n][..k] == actions[..k];
    assert forall k: nat | k < n :: Accepted(actions[..n], k, fd, c) == Accepted(actions, k, fd, c);
  }

  predicate AtFd(f: Fate, fd: Fd) { !f.Unknown? && f.fd == fd }

  lemma FateFd(s: Registry, f: Fate, a: Action, listening: bool, fd: Fd, c: Conn)
    requires Enabled(s, a) && Follows(s, listening, f, c)
    ensures AtFd(FateAfter(f, a, listening, c), fd) <==> AtFd(f, fd) || (a == Accept(fd, c) && 0 <= fd && listening)
  {
  }

  lemma {:induction false} FateAccepted(actions: seq<Action>, fd: Fd, c: Conn)
    ensures AtFd(FateOf(actions, c), fd) <==> exists k: nat :: Accepted(actions, k, fd, c)
  {
    if actions != [] {
      hide Enabled, Listening, Follows, Run, FateAfter, AtFd;
      var n := |actions| - 1;
      var before := actions[..n];
      FateAccepted(before, fd, c);
      AcceptedGrows(actions, fd, c);
      RunFollows(before, c);
      if Enabled(Run(before), actions[n]) {
        FateFd(Run(before), FateOf(before, c), actions[n], Listening(before), fd, c);
      }
    }
  }

  /** The connections ever known are those `accept4` returned while the server was listening, each under its descriptor. */
  lemma AcceptedIff(actions: seq<Action>, fd: Fd, c: Conn)
    ensures var s := Run(actions); c in s.fds && s.fds[c] == fd <==> exists k: nat :: Accepted(actions, k, fd, c)
  {
    hide Run, FateOf;
    FateAccepted(actions, fd, c);
    RunFollows(actions, c);
  }
}
