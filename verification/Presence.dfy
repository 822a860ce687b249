/**
  Client presence: log lines tie a connection context to a peer and then to a user name, and established
  sockets say which of these peers are still there.
 */
module Presence {
  import opened Common

  type Peer = string

  /** What a log line says, once it has been parsed. */
  datatype Line =
    | Unrelated
    | Connection(context: string, peer: Option<Peer>)          // no peer if the address does not parse
    | Authentication(context: string, name: string, at: int)
    | Remark(context: string)                                  // any other line of a context

  datatype Context = Context(peer: Option<Peer>, name: string)

  datatype State = State(
    contexts: map<string, Context>,
    authenticated: map<Peer, string>,
    recent: map<string, int>)

  const EMPTY := State(map[], map[], map[])

  function ContextOf(s: State, id: string): Context { if id in s.contexts then s.contexts[id] else Context(None, "") }

  /** The later of a recorded time and a new one. */
  function Later(previous: Option<int>, at: int): int { if previous.Some? && at <= previous.value then previous.value else at }

  function Consume(s: State, l: Line): State {
    match l
    case Unrelated => s
    case Remark(id) => s.(contexts := s.contexts[id := ContextOf(s, id)])
    case Connection(id, peer) =>
      var c := ContextOf(s, id);
      if peer.None? then s.(contexts := s.contexts[id := c])
      else
        var gone := (if c.peer.Some? then {c.peer.value} else {}) + {peer.value};
        s.(contexts := s.contexts[id := Context(peer, "")], authenticated := s.authenticated - gone)
    case Authentication(id, name, at) =>
      var c := ContextOf(s, id);
      State(s.contexts[id := c.(name := name)],
            if c.peer.Some? then s.authenticated[c.peer.value := name] else s.authenticated,
            s.recent[name := Later(Lookup(s.recent, name), at)])
  }

  function ConsumeAll(s: State, lines: seq<Line>): State
    decreases |lines|
  {
    if lines == [] then s else Consume(ConsumeAll(s, lines[..|lines| - 1]), lines[|lines| - 1])
  }

  /** Every authenticated peer is backed by a context that holds the same peer and name. */
  ghost predicate Backed(s: State) {
    forall p :: p in s.authenticated ==> BackedBy(s, p)
  }

  ghost predicate BackedBy(s: State, p: Peer)
    requires p in s.authenticated
  {
    exists id :: id in s.contexts && s.contexts[id] == Context(Some(p), s.authenticated[p])
  }

  lemma ConsumeBacked(s: State, l: Line)
    requires Backed(s)
    ensures Backed(Consume(s, l))
  {
    var s' := Consume(s, l);
    forall p | p in s'.authenticated ensures BackedBy(s', p) {
      if l.Authentication? && ContextOf(s, l.context).peer == Some(p) {
        assert s'.contexts[l.context] == Context(Some(p), s'.authenticated[p]);
      } else {
        var id :| id in s.contexts && s.contexts[id] == Context(Some(p), s.authenticated[p]);
        assert s'.contexts[id] == s.contexts[id];
      }
    }
  }

  lemma {:induction false} ConsumeAllBacked(s: State, lines: seq<Line>)
    requires Backed(s)
    ensures Backed(ConsumeAll(s, lines))
    decreases |lines|
  {
    if lines != [] {
      ConsumeAllBacked(s, lines[..|lines| - 1]);
      ConsumeBacked(ConsumeAll(s, lines[..|lines| - 1]), lines[|lines| - 1]);
    }
  }

  // ---------------------------------------------------------------- what the maps mean

  /** The peer of a context: the last address its connection lines gave. */
  function PeerAfter(lines: seq<Line>, id: string): Option<Peer>
    decreases |lines|
  {
    if lines == [] then None
    else
      var l := lines[|lines| - 1];
      if l.Connection? && l.context == id && l.peer.Some? then l.peer else PeerAfter(lines[..|lines| - 1], id)
  }

  /** Who a peer is: named by the last line that concerns it, unless that line opened a connection. */
  function NameAfter(lines: seq<Line>, p: Peer): Option<string>
    decreases |lines|
  {
    if lines == [] then None
    else
      var init, l := lines[..|lines| - 1], lines[|lines| - 1];
      if l.Connection? && l.peer.Some? && (l.peer.value == p || PeerAfter(init, l.context) == Some(p)) then None
      else if l.Authentication? && PeerAfter(init, l.context) == Some(p) then Some(l.name)
      else NameAfter(init, p)
  }

  /** The time of the latest authentication of a user, given an earlier record. */
  function LatestAuth(before: Option<int>, lines: seq<Line>, name: string): Option<int>
    decreases |lines|
  {
    if lines == [] then before
    else
      var l, t := lines[|lines| - 1], LatestAuth(before, lines[..|lines| - 1], name);
      if l.Authentication? && l.name == name then Some(Later(t, l.at)) else t
  }

  /** From a fresh start the maps say, context by context and peer by peer, what the lines said. */
  lemma {:induction false} ConsumeMeans(lines: seq<Line>, id: string, p: Peer)
    ensures ContextOf(ConsumeAll(EMPTY, lines), id).peer == PeerAfter(lines, id)
    ensures Lookup(ConsumeAll(EMPTY, lines).authenticated, p) == NameAfter(lines, p)
    decreases |lines|
  {
    if lines != [] {
      var init, l := lines[..|lines| - 1], lines[|lines| - 1];
      ConsumeMeans(init, id, p);
      if !l.Unrelated? { ConsumeMeans(init, l.context, p); }
    }
  }

  /** A context is known exactly if some line mentioned it. */
  lemma {:induction false} ContextsMentioned(s: State, lines: seq<Line>, id: string)
    ensures id in ConsumeAll(s, lines).contexts <==>
            id in s.contexts || exists k :: 0 <= k < |lines| && !lines[k].Unrelated? && lines[k].context == id
    decreases |lines|
  {
    if lines != [] {
      var n := |lines| - 1;
      ContextsMentioned(s, lines[..n], id);
      assert forall k :: 0 <= k < n ==> lines[..n][k] == lines[k];
    }
  }

  /** Recent-authentication times are exactly the latest ones seen, so they never move backwards. */
  lemma {:induction false} RecentIsLatest(s: State, lines: seq<Line>, name: string)
    ensures Lookup(ConsumeAll(s, lines).recent, name) == LatestAuth(Lookup(s.recent, name), lines, name)
    ensures name in s.recent ==> name in ConsumeAll(s, lines).recent && s.recent[name] <= ConsumeAll(s, lines).recent[name]
    decreases |lines|
  {
    if lines != [] { RecentIsLatest(s, lines[..|lines| - 1], name); }
  }

  // ---------------------------------------------------------------- collection

  datatype User = User(credential: string, protocol: string)

  type Users = map<nat, map<string, User>>

  datatype Socket = Socket(port: nat, peer: Peer)

  const RECENT_MAX_AGE := 75 * SECOND

  /** The socket belongs to a port with managed users. */
  predicate Managed(users: Users, s: Socket) { s.port in users && users[s.port] != map[] }

  /** The user whom a socket is authenticated as. */
  function UserOf(users: Users, authenticated: map<Peer, string>, s: Socket): Option<User> {
    if Managed(users, s) && s.peer in authenticated && authenticated[s.peer] in users[s.port]
    then Some(users[s.port][authenticated[s.peer]]) else None
  }

  function ActivePeers(users: Users, sockets: seq<Socket>): set<Peer> {
    set i | 0 <= i < |sockets| && Managed(users, sockets[i]) :: sockets[i].peer
  }

  /** How many established sockets are authenticated as a user. */
  function SocketsOf(users: Users, authenticated: map<Peer, string>, sockets: seq<Socket>, u: User): nat
    decreases |sockets|
  {
    if sockets == [] then 0
    else SocketsOf(users, authenticated, sockets[..|sockets| - 1], u)
         + (if UserOf(users, authenticated, sockets[|sockets| - 1]) == Some(u) then 1 else 0)
  }

  /** Peers and contexts without an established managed socket, and old authentications, are forgotten. */
  function Prune(s: State, active: set<Peer>, now: int): State {
    State(map id | id in s.contexts && s.contexts[id].peer.Some? && s.contexts[id].peer.value in active :: s.contexts[id],
          map p | p in s.authenticated && p in active :: s.authenticated[p],
          map n | n in s.recent && now - s.recent[n] <= RECENT_MAX_AGE :: s.recent[n])
  }

  /** What stays is what an established managed socket supports, and what was authenticated in the last 75 seconds; it stays unchanged. */
  ghost predicate Pruned(s: State, active: set<Peer>, now: int, s': State) {
    && (forall id :: id in s'.contexts <==> id in s.contexts && s.contexts[id].peer.Some? && s.contexts[id].peer.value in active)
    && (forall p :: p in s'.authenticated <==> p in s.authenticated && p in active)
    && (forall n :: n in s'.recent <==> n in s.recent && now <= s.recent[n] + 75_000_000)
    && (forall id :: id in s'.contexts ==> s'.contexts[id] == s.contexts[id])
    && (forall p :: p in s'.authenticated ==> s'.authenticated[p] == s.authenticated[p])
    && (forall n :: n in s'.recent ==> s'.recent[n] == s.recent[n])
  }

  lemma PruneExact(s: State, active: set<Peer>, now: int)
    ensures Pruned(s, active, now, Prune(s, active, now))
  {
  }

  /** Pruning keeps the backing of everything it keeps. */
  lemma PruneBacked(s: State, active: set<Peer>, now: int)
    requires Backed(s)
    ensures Backed(Prune(s, active, now)) && Prune(s, active, now).authenticated.Keys <= active
  {
    var s' := Prune(s, active, now);
    forall p | p in s'.authenticated ensures BackedBy(s', p) {
      var id :| id in s.contexts && s.contexts[id] == Context(Some(p), s.authenticated[p]);
      assert s'.contexts[id] == s.contexts[id];
    }
  }

  /** The port is the only one that has a user of this name. */
  predicate OnlyPort(users: Users, name: string, port: nat) {
    port in users && name in users[port] && forall q :: q in users && name in users[q] ==> q == port
  }

  predicate NamedOnce(users: Users, name: string) { exists p :: p in users && OnlyPort(users, name, p) }

  function UserNamed(users: Users, name: string): (u: User)
    requires NamedOnce(users, name)
    ensures forall p :: OnlyPort(users, name, p) ==> u == users[p][name]
  {
    var p :| p in users && name in users[p];
    users[p][name]
  }

  datatype Observation = Observation(user: User, connections: nat, exact: bool, lastActivity: int)

  class Collector {
    var process: string
    var contexts: map<string, Context>
    var authenticated: map<Peer, string>
    var recent: map<string, int>

    ghost function Contents(): State reads this { State(contexts, authenticated, recent) }

    ghost predicate Valid() reads this { Backed(Contents()) }

    constructor ()
      ensures Valid() && Contents() == EMPTY
    {
      process, contexts, authenticated, recent := "", map[], map[], map[];
    }

    /** One parsed log line. */
    method ConsumeLine(l: Line)
      modifies this`contexts, this`authenticated, this`recent
      ensures Contents() == Consume(old(Contents()), l)
    {
      match l {
        case Unrelated =>
        case Remark(id) =>
          contexts := contexts[id := if id in contexts then contexts[id] else Context(None, "")];
        case Connection(id, peer) =>
          var c := if id in contexts then contexts[id] else Context(None, "");
          if peer.Some? {
            if c.peer.Some? { authenticated := authenticated - {c.peer.value}; }
            c := Context(peer, "");
            authenticated := authenticated - {peer.value};
          }
          contexts := contexts[id := c];
        case Authentication(id, name, at) =>
          var c := if id in contexts then contexts[id] else Context(None, "");
          c := c.(name := name);
          if name !in recent || at > recent[name] { recent := recent[name := at]; }
          if c.peer.Some? { authenticated := authenticated[c.peer.value := name]; }
          contexts := contexts[id := c];
      }
    }

    /** One pass over the parsed log lines. */
    method ConsumeJournal(lines: seq<Line>)
      requires Valid()
      modifies this`contexts, this`authenticated, this`recent
      ensures Valid()
      ensures Contents() == ConsumeAll(old(Contents()), lines)
    {
      for k := 0 to |lines|
        invariant Contents() == ConsumeAll(old(Contents()), lines[..k])
      {
        assert lines[..k + 1][..k] == lines[..k];
        ConsumeLine(lines[k]);
      }
      assert lines[..|lines|] == lines;
      ConsumeAllBacked(old(Contents()), lines);
    }

    /** Counts the sockets of each user and collects the peers of managed sockets. */
    method CountSockets(users: Users, sockets: seq<Socket>) returns (active: set<Peer>, counts: map<User, nat>)
      ensures active == ActivePeers(users, sockets)
      ensures forall u :: u in counts <==> SocketsOf(users, authenticated, sockets, u) > 0
      ensures forall u :: u in counts ==> counts[u] == SocketsOf(users, authenticated, sockets, u)
    {
      active, counts := {}, map[];
      for k := 0 to |sockets|
        invariant active == ActivePeers(users, sockets[..k])
        invariant forall u :: u in counts <==> SocketsOf(users, authenticated, sockets[..k], u) > 0
        invariant forall u :: u in counts ==> counts[u] == SocketsOf(users, authenticated, sockets[..k], u)
      {
        assert sockets[..k + 1][..k] == sockets[..k];
        var s := sockets[k];
        ActiveMore(users, sockets, k);
        if !Managed(users, s) { continue; }
        active := active + {s.peer};
        if s.peer !in authenticated { continue; }
        if authenticated[s.peer] !in users[s.port] { continue; }
        var u := users[s.port][authenticated[s.peer]];
        counts := counts[u := (if u in counts then counts[u] else 0) + 1];
      }
      assert sockets[..|sockets|] == sockets;
    }

    /** Exact observations from the counts, and a guess for a recently authenticated user without one. */
    method Report(users: Users, counts: map<User, nat>, now: int) returns (items: set<Observation>)
      ensures forall o :: o in items && o.exact ==> o.user in counts && o == Observation(o.user, counts[o.user], true, now)
      ensures forall u :: u in counts ==> Observation(u, counts[u], true, now) in items
      ensures forall o :: o in items && !o.exact ==> o.user !in counts && o.connections == 1 && Guessed(users, o)
      ensures forall n :: n in recent && NamedOnce(users, n) && UserNamed(users, n) !in counts ==>
                Observation(UserNamed(users, n), 1, false, recent[n]) in items
    {
      var exact := set u | u in counts :: Observation(u, counts[u], true, now);
      var guessed := set n | n in recent && NamedOnce(users, n) && UserNamed(users, n) !in counts
                           :: Observation(UserNamed(users, n), 1, false, recent[n]);
      items := exact + guessed;
      assert forall u :: u in counts ==> Observation(u, counts[u], true, now) in exact;
    }

    /** The guess rests on a recent authentication under a name that only one user has. */
    ghost predicate Guessed(users: Users, o: Observation)
      reads this
    {
      exists n :: n in recent && NamedOnce(users, n) && UserNamed(users, n) == o.user && recent[n] == o.lastActivity
    }

    /** Drops what no established managed socket supports any more. */
    method Forget(active: set<Peer>, now: int)
      requires Valid()
      modifies this`contexts, this`authenticated, this`recent
      ensures Valid() && Pruned(old(Contents()), active, now, Contents())
      ensures Contents() == Prune(old(Contents()), active, now)
    {
      PruneBacked(Contents(), active, now);
      authenticated := map p | p in authenticated && p in active :: authenticated[p];
      contexts := map id | id in contexts && contexts[id].peer.Some? && contexts[id].peer.value in active :: contexts[id];
      recent := map n | n in recent && now - recent[n] <= RECENT_MAX_AGE :: recent[n];
    }

    /** Reads the lines; a new process forgets everything first. */
    method Inform(pid: string, lines: seq<Line>)
      requires Valid()
      modifies this
      ensures Valid() && process == pid
      ensures Contents() == Informed(pid, old(process), old(Contents()), lines)
    {
      if pid != process {
        process, contexts, authenticated, recent := pid, map[], map[], map[];
      }
      ConsumeJournal(lines);
    }

    /**
      One collection. Without managed users or a running process it is unavailable and changes nothing.
      Otherwise the authenticated peers are afterwards established managed ones and still backed, exact
      counts are socket counts, and a guess is made only for users without one.
     */
    method Collect(pid: Option<string>, lines: seq<Line>, users: Users, sockets: seq<Socket>, now: int)
      returns (items: Option<set<Observation>>)
      requires Valid()
      modifies this
      ensures Valid()
      ensures items.None? <==> users == map[] || pid.None?
      ensures items.None? ==> Contents() == old(Contents()) && process == old(process)
      ensures items.Some? ==>
                && process == pid.value && authenticated.Keys <= ActivePeers(users, sockets)
                && Pruned(Informed(pid.value, old(process), old(Contents()), lines), ActivePeers(users, sockets), now, Contents())
                && Contents() == Prune(Informed(pid.value, old(process), old(Contents()), lines), ActivePeers(users, sockets), now)
      ensures items.Some? ==>
                var known := Informed(pid.value, old(process), old(Contents()), lines).authenticated;
                && (forall o :: o in items.value && o.exact ==> 0 < o.connections == SocketsOf(users, known, sockets, o.user))
                && (forall u :: SocketsOf(users, known, sockets, u) > 0 ==>
                      Observation(u, SocketsOf(users, known, sockets, u), true, now) in items.value)
                && (forall o :: o in items.value && !o.exact ==>
                      SocketsOf(users, known, sockets, o.user) == 0 && o.connections == 1 && Guessed(users, o))
                && (forall n :: n in recent && NamedOnce(users, n) && SocketsOf(users, known, sockets, UserNamed(users, n)) == 0 ==>
                      Observation(UserNamed(users, n), 1, false, recent[n]) in items.value)
    {
      if users == map[] || pid.None? { return None; }
      Inform(pid.value, lines);
      var active, counts := CountSockets(users, sockets);
      PruneBacked(Contents(), active, now);
      Forget(active, now);
      var reported := Report(users, counts, now);
      return Some(reported);
    }
  }

  /** What is known after the lines have been read; a new process starts from nothing. */
  function Informed(pid: string, previous: string, s: State, lines: seq<Line>): State {
    ConsumeAll(if pid == previous then s else EMPTY, lines)
  }

  lemma ActiveMore(users: Users, sockets: seq<Socket>, k: nat)
    requires k < |sockets|
    ensures ActivePeers(users, sockets[..k + 1]) ==
            ActivePeers(users, sockets[..k]) + (if Managed(users, sockets[k]) then {sockets[k].peer} else {})
  {
    var a, b := sockets[..k], sockets[..k + 1];
    forall p ensures p in ActivePeers(users, b) <==> p in ActivePeers(users, a) || (Managed(users, sockets[k]) && p == sockets[k].peer) {
      if p in ActivePeers(users, a) {
        var i :| 0 <= i < |a| && Managed(users, a[i]) && a[i].peer == p;
        assert b[i] == a[i];
      }
      assert b[k] == sockets[k];
    }
  }

  /** The inputs of one collection. */
  datatype Collection = Collection(pid: string, lines: seq<Line>, users: Users, sockets: seq<Socket>, now: int)

  function AfterCollections(collections: seq<Collection>): (string, State)
    decreases |collections|
  {
    if collections == [] then ("", EMPTY)
    else
      var before, c := AfterCollections(collections[..|collections| - 1]), collections[|collections| - 1];
      (c.pid, Prune(Informed(c.pid, before.0, before.1, c.lines), ActivePeers(c.users, c.sockets), c.now))
  }

  /** After any run of collections, restarts included, what is left is backed and established. */
  lemma {:induction false} CollectionsBacked(collections: seq<Collection>)
    ensures Backed(AfterCollections(collections).1)
    ensures collections != [] ==>
              var c := collections[|collections| - 1];
              AfterCollections(collections).1.authenticated.Keys <= ActivePeers(c.users, c.sockets)
    decreases |collections|
  {
    if collections != [] {
      var init, c := collections[..|collections| - 1], collections[|collections| - 1];
      CollectionsBacked(init);
      var before := AfterCollections(init);
      ConsumeAllBacked(if c.pid == before.0 then before.1 else EMPTY, c.lines);
      PruneBacked(Informed(c.pid, before.0, before.1, c.lines), ActivePeers(c.users, c.sockets), c.now);
    }
  }

  // ---------------------------------------------------------------- merging sources

  /** The identity of an observation when sources are merged. */
  function Key(o: Observation, lower: string -> string): (string, string) { (o.user.credential, lower(o.user.protocol)) }

  ghost predicate HasKey(items: seq<Observation>, key: (string, string), lower: string -> string) {
    exists i :: 0 <= i < |items| && Key(items[i], lower) == key
  }

  /** Additions whose identity is new, each once. */
  function Merged(base: seq<Observation>, additions: seq<Observation>, lower: string -> string): seq<Observation>
    decreases |additions|
  {
    if additions == [] then base
    else
      var before, o := Merged(base, additions[..|additions| - 1], lower), additions[|additions| - 1];
      if exists i :: 0 <= i < |before| && Key(before[i], lower) == Key(o, lower) then before else before + [o]
  }

  method MergeItems(base: seq<Observation>, additions: seq<Observation>, lower: string -> string) returns (merged: seq<Observation>)
    ensures merged == Merged(base, additions, lower)
  {
    var seen: set<(string, string)> := set i | 0 <= i < |base| :: Key(base[i], lower);
    merged := base;
    for k := 0 to |additions|
      invariant merged == Merged(base, additions[..k], lower)
      invariant forall key :: key in seen <==> HasKey(merged, key, lower)
    {
      assert additions[..k + 1][..k] == additions[..k];
      var key := Key(additions[k], lower);
      if key in seen { continue; }
      seen := seen + {key};
      KeysGrow(merged, additions[k], lower);
      merged := merged + [additions[k]];
    }
    assert additions[..|additions|] == additions;
  }

  lemma KeysGrow(items: seq<Observation>, o: Observation, lower: string -> string)
    ensures forall key :: HasKey(items + [o], key, lower) <==> HasKey(items, key, lower) || key == Key(o, lower)
  {
    forall key ensures HasKey(items + [o], key, lower) <==> HasKey(items, key, lower) || key == Key(o, lower) {
      assert (items + [o])[|items|] == o;
      if HasKey(items, key, lower) {
        var i :| 0 <= i < |items| && Key(items[i], lower) == key;
        assert (items + [o])[i] == items[i];
      }
    }
  }

  /** The first source wins: its items stay in front, no identity is lost, and no addition repeats one. */
  lemma {:induction false} MergePrefersBase(base: seq<Observation>, additions: seq<Observation>, lower: string -> string)
    ensures base <= Merged(base, additions, lower)
    ensures forall key :: HasKey(Merged(base, additions, lower), key, lower) <==> HasKey(base, key, lower) || HasKey(additions, key, lower)
    ensures forall i, k :: 0 <= i < k < |Merged(base, additions, lower)| && k >= |base| ==>
              Key(Merged(base, additions, lower)[i], lower) != Key(Merged(base, additions, lower)[k], lower)
    decreases |additions|
  {
    if additions != [] {
      var init, o := additions[..|additions| - 1], additions[|additions| - 1];
      MergePrefersBase(base, init, lower);
      assert additions == init + [o];
      KeysGrow(init, o, lower);
      KeysGrow(Merged(base, init, lower), o, lower);
    }
  }
}
