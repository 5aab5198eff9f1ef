// The online sets of the xray process: local activity aged out by a grace window,
// remote nodes' lists, and the flat and per-node views of their union.
module OnlineClients {
  import opened Text

  // One stats poll: the emails and inbound tags with traffic, and its time.
  datatype Poll = Poll(emails: set<string>, tags: set<string>, at: int)

  datatype Kind = Client | Tag

  function Names(p: Poll, kind: Kind): set<string> {
    if kind.Client? then p.emails else p.tags
  }

  function LastSeen(log: seq<Poll>, kind: Kind, name: string): Option<int> {
    if log == [] then None
    else
      var n := |log| - 1;
      if name in Names(log[n], kind) then Some(log[n].at) else LastSeen(log[..n], kind, name)
  }

  predicate InOrder(log: seq<Poll>) {
    forall i, j :: 0 <= i < j < |log| ==> log[i].at <= log[j].at
  }

  // Some poll saw the name less than the grace period ago.
  ghost predicate SeenWithin(log: seq<Poll>, kind: Kind, name: string, now: int, grace: int) {
    exists i :: 0 <= i < |log| && name in Names(log[i], kind) && now - log[i].at < grace
  }

  function SetOf<T>(s: seq<T>): set<T> {
    set x | x in s
  }

  predicate NoRepeats<T(==)>(s: seq<T>) {
    forall i, j :: 0 <= i < j < |s| ==> s[i] != s[j]
  }

  // Listed after the polls: the name was in the last one, or was listed before it and
  // the reading is less than the grace period after the name's last sighting.
  predicate Alive(log: seq<Poll>, kind: Kind, name: string, grace: int) {
    log != [] &&
    var n := |log| - 1;
    if name in Names(log[n], kind) then 0 < grace
    else Alive(log[..n], kind, name, grace) && LastSeen(log[..n], kind, name).Some? &&
         log[n].at - LastSeen(log[..n], kind, name).value < grace
  }

  // The stored map holds the listed names, each with its last sighting.
  ghost predicate Tracks(last: map<string, int>, log: seq<Poll>, kind: Kind, grace: int) {
    forall name :: (name in last <==> Alive(log, kind, name, grace)) &&
                   (name in last ==> LastSeen(log, kind, name) == Some(last[name]))
  }

  lemma TracksAfter(last: map<string, int>, aged: map<string, int>, log: seq<Poll>, poll: Poll, kind: Kind, grace: int)
    requires Tracks(last, log, kind, grace)
    requires forall name :: name in aged <==> ((name in Names(poll, kind) && 0 < grace) ||
                                               (name !in Names(poll, kind) && name in last && poll.at - last[name] < grace))
    requires forall name :: name in aged ==> aged[name] == if name in Names(poll, kind) then poll.at else last[name]
    ensures Tracks(aged, log + [poll], kind, grace)
  {
    assert (log + [poll])[..|log|] == log;
  }

  // The union of the node groups.
  ghost function Grouped(groups: map<int, seq<string>>): set<string> {
    set id, e | id in groups && e in groups[id] :: e
  }

  const LOCAL_NODE := 0

  class Process {
    const grace: int
    var localLastOnline: map<string, int>
    var onlineClients: seq<string>
    var localInboundLastActive: map<string, int>
    var localActiveInbounds: seq<string>
    var nodeOnlineClients: map<int, seq<string>>
    ghost var log: seq<Poll>

    ghost predicate Valid()
      reads this
    {
      && Tracks(localLastOnline, log, Client, grace)
      && Tracks(localInboundLastActive, log, Tag, grace)
      && NoRepeats(onlineClients) && SetOf(onlineClients) == localLastOnline.Keys
      && NoRepeats(localActiveInbounds) && SetOf(localActiveInbounds) == localInboundLastActive.Keys
      && LOCAL_NODE !in nodeOnlineClients
    }

    constructor (grace: int)
      ensures Valid() && this.grace == grace && log == [] && nodeOnlineClients == map[]
    {
      this.grace := grace;
      localLastOnline, onlineClients := map[], [];
      localInboundLastActive, localActiveInbounds := map[], [];
      nodeOnlineClients, log := map[], [];
    }

    // Stamps the active names, drops the ones out of the window, lists the rest.
    static method Age(last: map<string, int>, active: seq<string>, now: int, grace: int)
      returns (aged: map<string, int>, live: seq<string>)
      ensures forall name :: name in aged <==> ((name in active && 0 < grace) ||
                                                (name !in active && name in last && now - last[name] < grace))
      ensures forall name :: name in aged ==> aged[name] == if name in active then now else last[name]
      ensures NoRepeats(live) && SetOf(live) == aged.Keys
    {
      aged := last;
      for i := 0 to |active|
        invariant aged.Keys == last.Keys + SetOf(active[..i])
        invariant forall name :: name in aged ==> aged[name] == if name in active[..i] then now else last[name]
      {
        assert active[..i + 1] == active[..i] + [active[i]];
        aged := aged[active[i] := now];
      }
      assert active[..|active|] == active;
      var stamped := aged;
      var names := stamped.Keys;
      live := [];
      while names != {}
        invariant names <= stamped.Keys && NoRepeats(live) && SetOf(live) !! names
        invariant forall name :: name in aged <==> name in stamped && (name in names || now - stamped[name] < grace)
        invariant forall name :: name in aged ==> aged[name] == stamped[name]
        invariant SetOf(live) == aged.Keys - names
        decreases names
      {
        var name :| name in names;
        names := names - {name};
        if now - stamped[name] < grace {
          assert SetOf(live + [name]) == SetOf(live) + {name};
          live := live + [name];
        } else {
          aged := aged - {name};
        }
      }
    }

    // The reading is the caller's, taken outside the lock: it may lie before the one
    // of an earlier refresh.
    method RefreshLocalOnline(activeEmails: seq<string>, activeInboundTags: seq<string>, now: int)
      requires Valid()
      modifies this
      ensures Valid() && nodeOnlineClients == old(nodeOnlineClients)
      ensures log == old(log) + [Poll(SetOf(activeEmails), SetOf(activeInboundTags), now)]
      ensures forall e :: e in onlineClients <==> Alive(log, Client, e, grace)
      ensures forall t :: t in localActiveInbounds <==> Alive(log, Tag, t, grace)
    {
      ghost var poll := Poll(SetOf(activeEmails), SetOf(activeInboundTags), now);
      var aged, online := Age(localLastOnline, activeEmails, now, grace);
      var agedTags, active := Age(localInboundLastActive, activeInboundTags, now, grace);
      hide NoRepeats, Alive;
      TracksAfter(localLastOnline, aged, log, poll, Client, grace);
      TracksAfter(localInboundLastActive, agedTags, log, poll, Tag, grace);
      localLastOnline, onlineClients := aged, online;
      localInboundLastActive, localActiveInbounds := agedTags, active;
      log := log + [poll];
    }

    // Replaces the node's list; the caller turns away ids that are not positive.
    method SetNodeOnlineClients(nodeId: int, emails: seq<string>)
      requires Valid() && nodeId > 0
      modifies this`nodeOnlineClients
      ensures Valid() && nodeOnlineClients == old(nodeOnlineClients)[nodeId := emails]
    {
      nodeOnlineClients := nodeOnlineClients[nodeId := emails];
    }

    method ClearNodeOnlineClients(nodeId: int)
      requires Valid()
      modifies this`nodeOnlineClients
      ensures Valid() && nodeOnlineClients == old(nodeOnlineClients) - {nodeId}
    {
      nodeOnlineClients := nodeOnlineClients - {nodeId};
    }

    // The flat list: no repeats, exactly the local and the nodes' emails, on the
    // fast path and on the merging one.
    method GetOnlineClients() returns (out: seq<string>)
      requires Valid()
      ensures NoRepeats(out) && SetOf(out) == SetOf(onlineClients) + Grouped(nodeOnlineClients)
      ensures onlineClients <= out
    {
      if |nodeOnlineClients| == 0 {
        assert nodeOnlineClients.Keys == {};
        return onlineClients;
      }
      out := AppendNew([], onlineClients);
      var ids := nodeOnlineClients.Keys;
      while ids != {}
        invariant ids <= nodeOnlineClients.Keys && NoRepeats(out) && onlineClients <= out
        invariant forall e :: e in out <==>
                    e in onlineClients || exists id :: id in nodeOnlineClients && id !in ids && e in nodeOnlineClients[id]
        decreases ids
      {
        ghost var some := Pick(ids);
        var id :| id in ids;
        ids := ids - {id};
        out := AppendNew(out, nodeOnlineClients[id]);
      }
    }

    // Appends the names not yet listed.
    static method AppendNew(start: seq<string>, names: seq<string>) returns (out: seq<string>)
      requires NoRepeats(start)
      ensures NoRepeats(out) && start <= out
      ensures forall e :: e in out <==> e in start || e in names
      ensures start == [] && NoRepeats(names) ==> out == names
    {
      out := start;
      for i := 0 to |names|
        invariant NoRepeats(out) && start <= out
        invariant forall e :: e in out <==> e in start || e in names[..i]
        invariant start == [] && NoRepeats(names) ==> out == names[..i]
      {
        assert names[..i + 1] == names[..i] + [names[i]];
        if names[i] !in out {
          out := out + [names[i]];
        }
      }
      assert names[..|names|] == names;
    }

    // The groups, whose union is the flat list.
    method GetOnlineClientsByNode() returns (out: map<int, seq<string>>)
      requires Valid()
      ensures out == GroupsOf(onlineClients, nodeOnlineClients)
      ensures Grouped(out) == SetOf(onlineClients) + Grouped(nodeOnlineClients)
    {
      hide Grouped, Tracks, NoRepeats;
      out := Group(onlineClients, nodeOnlineClients);
      UnionIsFlat(onlineClients, nodeOnlineClients);
    }

    static method Group(local: seq<string>, nodes: map<int, seq<string>>) returns (out: map<int, seq<string>>)
      ensures out == GroupsOf(local, nodes)
    {
      out := map[];
      if |local| > 0 {
        out := out[LOCAL_NODE := local];
      }
      ghost var first := out;
      var ids := nodes.Keys;
      assert first + NonEmpty(nodes, ids) == first;
      while ids != {}
        invariant ids <= nodes.Keys
        invariant out == first + NonEmpty(nodes, ids)
        decreases ids
      {
        ghost var some := Pick(ids);
        var id :| id in ids;
        NonEmptyStep(nodes, ids, id);
        ghost var before := NonEmpty(nodes, ids);
        ids := ids - {id};
        if |nodes[id]| == 0 {
          continue;
        }
        assert first + before[id := nodes[id]] == (first + before)[id := nodes[id]];
        out := out[id := nodes[id]];
      }
    }
  }

  // The nodes' non-empty lists, leaving out the nodes still to come.
  function NonEmpty(nodes: map<int, seq<string>>, pending: set<int>): map<int, seq<string>> {
    map id | id in nodes && id !in pending && nodes[id] != [] :: nodes[id]
  }

  lemma NonEmptyStep(nodes: map<int, seq<string>>, pending: set<int>, id: int)
    requires id in nodes && id in pending
    ensures NonEmpty(nodes, pending - {id}) ==
            if nodes[id] == [] then NonEmpty(nodes, pending) else NonEmpty(nodes, pending)[id := nodes[id]]
  {}

  // The per-node view: local emails under key 0, each non-empty node list under
  // its id, a node's list winning a shared key.
  function GroupsOf(local: seq<string>, nodes: map<int, seq<string>>): map<int, seq<string>> {
    (if local == [] then map[] else map[LOCAL_NODE := local]) + NonEmpty(nodes, {})
  }

  // A node reporting under the local key with other emails hides local ones.
  ghost predicate Shadowed(local: seq<string>, nodes: map<int, seq<string>>) {
    LOCAL_NODE in nodes && nodes[LOCAL_NODE] != [] && exists e :: e in local && e !in Grouped(nodes)
  }

  // The groups' union is the flat list exactly when no node's list hides the local
  // one; in particular whenever no node uses the local key.
  lemma UnionIsFlat(local: seq<string>, nodes: map<int, seq<string>>)
    ensures Grouped(GroupsOf(local, nodes)) == SetOf(local) + Grouped(nodes) <==> !Shadowed(local, nodes)
    ensures LOCAL_NODE !in nodes ==> !Shadowed(local, nodes)
  {
    var groups := GroupsOf(local, nodes);
    forall e | e in Grouped(nodes) ensures e in Grouped(groups) {
      var id :| id in nodes && e in nodes[id];
      assert id in groups && groups[id] == nodes[id];
    }
    forall e | e in Grouped(groups) ensures e in SetOf(local) + Grouped(nodes) {
      var id :| id in groups && e in groups[id];
    }
    if LOCAL_NODE in nodes && nodes[LOCAL_NODE] != [] {
      forall e | e in Grouped(groups) ensures e in Grouped(nodes) {
        var id :| id in groups && e in groups[id];
        assert id in nodes;
      }
      assert Grouped(groups) == Grouped(nodes);
      assert Shadowed(local, nodes) <==> !(SetOf(local) <= Grouped(nodes));
    } else {
      forall e | e in local ensures e in Grouped(groups) {
        assert LOCAL_NODE in groups && groups[LOCAL_NODE] == local;
      }
    }
  }

  // ---------- what being listed means ----------

  function LastPoll(log: seq<Poll>, kind: Kind, name: string): (r: Option<nat>)
    ensures r.Some? ==> r.value < |log| && name in Names(log[r.value], kind)
  {
    if log == [] then None
    else
      var n := |log| - 1;
      if name in Names(log[n], kind) then Some(n) else LastPoll(log[..n], kind, name)
  }

  // Listed are exactly the names whose last sighting lies less than the grace period
  // before every reading since.
  lemma {:induction false} AliveMeans(log: seq<Poll>, kind: Kind, name: string, grace: int)
    ensures var k := LastPoll(log, kind, name);
            (k.Some? ==> LastSeen(log, kind, name) == Some(log[k.value].at) && forall i :: k.value < i < |log| ==> name !in Names(log[i], kind)) &&
            (k.None? ==> LastSeen(log, kind, name).None? && forall i :: 0 <= i < |log| ==> name !in Names(log[i], kind)) &&
            (Alive(log, kind, name, grace) <==>
             k.Some? && forall j :: k.value <= j < |log| ==> log[j].at - log[k.value].at < grace)
  {
    if log != [] {
      var n := |log| - 1;
      AliveMeans(log[..n], kind, name, grace);
      assert forall j :: 0 <= j < n ==> log[..n][j] == log[j];
    }
  }

  // The last sighting is the latest, and the last reading is the latest since.
  predicate Timely(log: seq<Poll>, kind: Kind, name: string) {
    var k := LastPoll(log, kind, name);
    k.Some? ==>
      (forall i :: 0 <= i < |log| && name in Names(log[i], kind) ==> log[i].at <= log[k.value].at) &&
      (forall j :: k.value <= j < |log| ==> log[j].at <= log[|log| - 1].at)
  }

  // For every grace period a name is listed when some poll saw it less than the grace
  // period ago and only then, exactly when its readings are timely.
  lemma ListedExactly(log: seq<Poll>, kind: Kind, name: string)
    requires log != []
    ensures (forall grace :: Alive(log, kind, name, grace) <==> SeenWithin(log, kind, name, log[|log| - 1].at, grace)) <==>
            Timely(log, kind, name)
  {
    hide Alive, SeenWithin;
    if Timely(log, kind, name) {
      forall grace ensures Alive(log, kind, name, grace) <==> SeenWithin(log, kind, name, log[|log| - 1].at, grace) {
        TimelyListed(log, kind, name, grace);
      }
    } else {
      var grace := UntimelyUnlisted(log, kind, name);
    }
  }

  // A grace period for which a name is not listed although some poll saw it within it.
  lemma UntimelyUnlisted(log: seq<Poll>, kind: Kind, name: string) returns (grace: int)
    requires log != [] && !Timely(log, kind, name)
    ensures !Alive(log, kind, name, grace) && SeenWithin(log, kind, name, log[|log| - 1].at, grace)
  {
    hide Alive;
    var now, k := log[|log| - 1].at, LastPoll(log, kind, name).value;
    var s := log[k].at;
    if i :| 0 <= i < |log| && name in Names(log[i], kind) && log[i].at > s {
      grace := now - s;
      assert log[|log| - 1].at - s >= grace;
    } else {
      var j :| k <= j < |log| && log[j].at > now;
      grace := log[j].at - s;
      assert now - log[k].at < grace;
    }
    AliveMeans(log, kind, name, grace);
  }

  // As when a refresh with a late reading has aged a name out and one with an older
  // reading follows: the name was seen within the grace period of that reading.
  lemma AgedOutEarly(kind: Kind, name: string, seen: int, late: int, now: int, grace: int)
    requires seen < now && now - seen < grace <= late - seen
    ensures var first := if kind.Client? then Poll({name}, {}, seen) else Poll({}, {name}, seen);
            var log := [first, Poll({}, {}, late), Poll({}, {}, now)];
            SeenWithin(log, kind, name, now, grace) && !Alive(log, kind, name, grace) && !Timely(log, kind, name)
  {
    var first := if kind.Client? then Poll({name}, {}, seen) else Poll({}, {name}, seen);
    var log := [first, Poll({}, {}, late), Poll({}, {}, now)];
    AliveMeans(log, kind, name, grace);
    assert log[..2][..1] == [first];
    assert LastPoll([first], kind, name) == Some(0);
    assert LastPoll(log[..2], kind, name) == Some(0) && LastPoll(log, kind, name) == Some(0);
    assert name in Names(log[0], kind) && log[1].at - log[0].at >= grace;
  }

  lemma TimelyListed(log: seq<Poll>, kind: Kind, name: string, grace: int)
    requires log != [] && Timely(log, kind, name)
    ensures Alive(log, kind, name, grace) <==> SeenWithin(log, kind, name, log[|log| - 1].at, grace)
  {
    hide Alive;
    AliveMeans(log, kind, name, grace);
  }

  // As when the refreshes came in the order of their readings.
  lemma InOrderIsTimely(log: seq<Poll>, kind: Kind, name: string)
    requires InOrder(log) && log != []
    ensures Timely(log, kind, name)
  {
    AliveMeans(log, kind, name, 0);
    var k := LastPoll(log, kind, name);
    if k.Some? {
      forall i | 0 <= i < |log| && name in Names(log[i], kind) ensures log[i].at <= log[k.value].at {
        assert i <= k.value;
      }
    }
  }

  // The tag an email used in its latest activity is listed as long as the email is,
  // unless the tag was seen later under an older reading.
  lemma LatestTagActive(log: seq<Poll>, i: nat, email: string, tag: string, grace: int)
    requires LastPoll(log, Client, email) == Some(i) && tag in log[i].tags
    requires forall k :: i < k < |log| && tag in log[k].tags ==> log[k].at >= log[i].at
    requires Alive(log, Client, email, grace)
    ensures Alive(log, Tag, tag, grace)
  {
    hide Alive;
    AliveMeans(log, Client, email, grace);
    AliveMeans(log, Tag, tag, grace);
    assert tag in Names(log[i], Tag);
    var k := LastPoll(log, Tag, tag).value;
    assert k >= i;
  }
}
