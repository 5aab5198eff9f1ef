// The node dirty-flag protocol: editors commit and then mark the node dirty; the
// sync job reads the row, reconciles a dirty node and clears the flag when the dirty
// timestamp is still the one it read, then fetches the node's configuration, reads
// the flag again and, unless it is set, takes the fetched configuration over.
module NodeSync {
  import opened Text
  import opened ClientMutations

  // The columns of a node row the protocol reads and writes.
  datatype NodeRow = NodeRow(enabled: bool, status: string, dirty: bool, dirtyAt: int)

  function MarkedRow(row: NodeRow, now: int): NodeRow {
    row.(dirty := true, dirtyAt := now)
  }

  // The compare-and-clear: a row re-dirtied since the read keeps its flag.
  function ClearedRow(row: NodeRow, dirtyAt: int): NodeRow {
    if row.dirtyAt == dirtyAt then row.(dirty := false) else row
  }

  class NodeTable {
    var rows: map<int, NodeRow>

    method MarkNodeDirty(id: int, now: int)
      modifies this
      ensures rows == if id > 0 && id in old(rows) then old(rows)[id := MarkedRow(old(rows)[id], now)] else old(rows)
    {
      if id <= 0 {
        return;
      }
      if id in rows {
        rows := rows[id := rows[id].(dirty := true, dirtyAt := now)];
      }
    }

    method ClearNodeDirty(id: int, dirtyAt: int)
      modifies this
      ensures rows == if id > 0 && id in old(rows) then old(rows)[id := ClearedRow(old(rows)[id], dirtyAt)] else old(rows)
    {
      if id <= 0 {
        return;
      }
      if id in rows && rows[id].dirtyAt == dirtyAt {
        rows := rows[id := rows[id].(dirty := false)];
      }
    }

    method NodeSyncState(id: int) returns (row: Option<NodeRow>)
      ensures row == if id > 0 && id in rows then Some(rows[id]) else None
    {
      if id <= 0 || id !in rows {
        return None;
      }
      return Some(rows[id]);
    }

    method IsNodePending(id: int) returns (pending: bool)
      ensures pending <==> id > 0 && id in rows && (!rows[id].enabled || rows[id].status != "online" || rows[id].dirty)
    {
      var row := NodeSyncState(id);
      if row.None? {
        return false;
      }
      return !row.value.enabled || row.value.status != "online" || row.value.dirty;
    }

    // nodePushPlan for a node inbound, given whether its runtime can be reached
    // and whether what it is sent is acknowledged.
    method NodePushPlan(id: int, runtimeUp: bool, acked: bool) returns (plan: Plan)
      ensures plan.PlanFails? <==> id <= 0 || id !in rows
      ensures plan.NoPush? ==> id in rows && (!rows[id].enabled || rows[id].status == "offline" || !runtimeUp)
      ensures plan.Push? ==> id in rows && rows[id].enabled && rows[id].status != "offline" && runtimeUp && plan.acked == acked
    {
      var row := NodeSyncState(id);
      if row.None? {
        return PlanFails;
      }
      if !row.value.enabled || row.value.status == "offline" {
        return NoPush;
      }
      if !runtimeUp {
        return NoPush;
      }
      return Push(acked);
    }
  }

  // ---------- the protocol ----------

  // Where the job is with the node: reconciling, about to fetch, holding what it
  // fetched, and holding it together with the flag read after the fetch.
  datatype Job<K, V> =
    | Idle
    | Snapshotted(at: int)
    | Reconciled(at: int)
    | Fetching
    | Fetched(snap: map<K, V>)
    | Checked(snap: map<K, V>, dirty: bool)

  // central is the panel's configuration of the node, remote the one the node
  // holds, both by key; owed counts the marks requested and not yet written.
  datatype World<K, V> = World(central: map<K, V>, remote: map<K, V>, row: NodeRow, owed: nat, job: Job<K, V>)

  // A commit is an edit with its pushes: `pushed` are the keys the node was told
  // about and acknowledged, `marks` says that a mark is requested. A flag that cannot
  // be read (`ok` is false) counts as clear.
  datatype Step<K, V> =
    | Commit(config: map<K, V>, pushed: set<K>, marks: bool, remoteAfter: map<K, V>)
    | Mark(now: int)
    | Heartbeat(enabled: bool, status: string)
    | Snapshot
    | Reconcile
    | ReconcileFails(remoteAfter: map<K, V>)
    | Clear
    | ClearFails
    | Fetch
    | FetchFails
    | ReadDirty(ok: bool)
    | Pull
    | PullFails

  function Look<K, V>(m: map<K, V>, k: K): Option<V> {
    if k in m then Some(m[k]) else None
  }

  // The keys an edit changes.
  function Changed<K(!new), V(==)>(before: map<K, V>, after: map<K, V>): (r: set<K>)
    ensures forall k :: k in r <==> Look(before, k) != Look(after, k)
  {
    set k | k in before.Keys + after.Keys && Look(before, k) != Look(after, k)
  }

  // The pushes of an edit without a mark all arrived: the node takes over the keys
  // it was told about and keeps the others.
  ghost predicate Delivered<K(!new), V>(remote: map<K, V>, config: map<K, V>, pushed: set<K>, after: map<K, V>) {
    forall k :: Look(after, k) == if k in pushed then Look(config, k) else Look(remote, k)
  }

  ghost predicate Enabled<K(!new), V>(w: World<K, V>, s: Step<K, V>) {
    match s
    case Commit(config, pushed, marks, remoteAfter) => !marks ==> Delivered(w.remote, config, pushed, remoteAfter)
    case Mark(now) => w.owed > 0
    case Heartbeat(_, _) => true
    case Snapshot => w.job.Idle? && w.row.enabled && w.row.status == "online"
    case Reconcile => w.job.Snapshotted?
    case ReconcileFails(_) => w.job.Snapshotted?
    case Clear => w.job.Reconciled?
    case ClearFails => w.job.Reconciled?
    case Fetch => w.job.Fetching?
    case FetchFails => w.job.Fetching?
    case ReadDirty(_) => w.job.Fetched?
    case Pull => w.job.Checked?
    case PullFails => w.job.Checked?
  }

  function Next<K, V>(w: World<K, V>, s: Step<K, V>): World<K, V> {
    match s
    case Commit(config, _, marks, remoteAfter) =>
      w.(central := config, remote := remoteAfter, owed := if marks then w.owed + 1 else w.owed)
    case Mark(now) => w.(row := MarkedRow(w.row, now), owed := if w.owed > 0 then w.owed - 1 else 0)
    case Heartbeat(enabled, status) => w.(row := w.row.(enabled := enabled, status := status))
    case Snapshot => w.(job := if w.row.dirty then Snapshotted(w.row.dirtyAt) else Fetching)
    case Reconcile => if w.job.Snapshotted? then w.(remote := w.central, job := Reconciled(w.job.at)) else w
    case ReconcileFails(remoteAfter) => w.(remote := remoteAfter, job := Idle)
    case Clear => if w.job.Reconciled? then w.(row := ClearedRow(w.row, w.job.at), job := Fetching) else w
    case ClearFails => w.(job := Fetching)
    case Fetch => w.(job := Fetched(w.remote))
    case FetchFails => w.(job := Idle)
    case ReadDirty(ok) => if w.job.Fetched? then w.(job := Checked(w.job.snap, ok && w.row.dirty)) else w
    case Pull => if w.job.Checked? then w.(central := if w.job.dirty then w.central else w.job.snap, job := Idle) else w
    case PullFails => w.(job := Idle)
  }

  // The assumption on the clock: a mark's timestamp is later than the last one's.
  predicate LaterMark<K, V>(w: World<K, V>, s: Step<K, V>) {
    s.Mark? ==> s.now > w.row.dirtyAt
  }

  // Everything the edit changes was pushed, or a mark is requested.
  predicate Conveyed<K(!new), V(==)>(w: World<K, V>, s: Step<K, V>) {
    s.Commit? ==> s.marks || Changed(w.central, s.config) <= s.pushed
  }

  // The pull leaves the panel's configuration as it is: the flag was set, or the
  // fetched configuration is the panel's.
  predicate Kept<K, V(==)>(w: World<K, V>, s: Step<K, V>) {
    s.Pull? ==> Next(w, s).central == w.central
  }

  // A committed edit not on the node still has its mark outstanding, or the node is
  // dirty with a timestamp the in-flight clear cannot match.
  ghost predicate Accounted<K, V>(w: World<K, V>) {
    w.remote != w.central ==> w.owed > 0 || (w.row.dirty && (w.job.Reconciled? ==> w.row.dirtyAt != w.job.at))
  }

  ghost predicate Inv<K, V>(w: World<K, V>) {
    && Accounted(w)
    && (w.job.Snapshotted? || w.job.Reconciled? ==> w.row.dirty && w.job.at <= w.row.dirtyAt)
  }

  ghost predicate Legal<K(!new), V>(w: World<K, V>, ss: seq<Step<K, V>>)
    decreases |ss|
  {
    ss == [] || (Enabled(w, ss[0]) && LaterMark(w, ss[0]) && Legal(Next(w, ss[0]), ss[1..]))
  }

  function RunSteps<K, V>(w: World<K, V>, ss: seq<Step<K, V>>): World<K, V>
    decreases |ss|
  {
    if ss == [] then w else RunSteps(Next(w, ss[0]), ss[1..])
  }

  ghost predicate AllConveyed<K(!new), V>(w: World<K, V>, ss: seq<Step<K, V>>)
    decreases |ss|
  {
    ss == [] || (Conveyed(w, ss[0]) && AllConveyed(Next(w, ss[0]), ss[1..]))
  }

  ghost predicate AllKept<K, V>(w: World<K, V>, ss: seq<Step<K, V>>)
    decreases |ss|
  {
    ss == [] || (Kept(w, ss[0]) && AllKept(Next(w, ss[0]), ss[1..]))
  }

  lemma SameLooks<K(!new), V>(a: map<K, V>, b: map<K, V>)
    requires forall k :: Look(a, k) == Look(b, k)
    ensures a == b
  {
    forall k | k in a || k in b ensures k in a && k in b && a[k] == b[k] {
      assert Look(a, k) == Look(b, k);
    }
  }

  // An edit that was pushed in full carries a mirroring node along.
  lemma PushedInFull<K(!new), V>(central: map<K, V>, config: map<K, V>, pushed: set<K>, after: map<K, V>)
    requires Delivered(central, config, pushed, after)
    ensures after == config <==> Changed(central, config) <= pushed
  {
    if Changed(central, config) <= pushed {
      forall k ensures Look(after, k) == Look(config, k) {
        assert k in pushed || k !in Changed(central, config);
      }
      SameLooks(after, config);
    } else {
      var k :| k in Changed(central, config) && k !in pushed;
      assert Look(after, k) == Look(central, k);
    }
  }

  lemma StepKeepsInv<K(!new), V>(w: World<K, V>, s: Step<K, V>)
    requires Inv(w) && Enabled(w, s) && LaterMark(w, s) && Conveyed(w, s) && Kept(w, s)
    ensures Inv(Next(w, s))
  {
    if s.Commit? && !s.marks && w.remote == w.central {
      PushedInFull(w.central, s.config, s.pushed, s.remoteAfter);
    }
  }

  // Every interleaving of edits, marks, heartbeats and sync rounds in which the pulls
  // keep the panel's configuration accounts for every edit; so a clean node with no
  // mark outstanding mirrors the panel.
  lemma {:induction false} RunAccounted<K(!new), V>(w: World<K, V>, ss: seq<Step<K, V>>)
    requires Inv(w) && Legal(w, ss) && AllConveyed(w, ss) && AllKept(w, ss)
    ensures Inv(RunSteps(w, ss))
    ensures var end := RunSteps(w, ss); !end.row.dirty && end.owed == 0 ==> end.remote == end.central
    decreases |ss|
  {
    if ss != [] {
      StepKeepsInv(w, ss[0]);
      RunAccounted(Next(w, ss[0]), ss[1..]);
    }
  }

  // ---------- when a pull keeps the committed edits ----------

  // What others do while the job waits for the node.
  predicate Outside<K, V>(s: Step<K, V>) {
    s.Commit? || s.Mark? || s.Heartbeat?
  }

  predicate AllOutside<K, V>(ss: seq<Step<K, V>>)
    decreases |ss|
  {
    ss == [] || (Outside(ss[0]) && AllOutside(ss[1..]))
  }

  predicate HasMark<K, V>(ss: seq<Step<K, V>>)
    decreases |ss|
  {
    ss != [] && (ss[0].Mark? || HasMark(ss[1..]))
  }

  // The configuration the last of the edits committed.
  function LastConfig<K, V>(central: map<K, V>, ss: seq<Step<K, V>>): map<K, V>
    decreases |ss|
  {
    if ss == [] then central else LastConfig(if ss[0].Commit? then ss[0].config else central, ss[1..])
  }

  lemma {:induction false} WhileWaiting<K, V>(w: World<K, V>, ss: seq<Step<K, V>>)
    requires AllOutside(ss)
    ensures var end := RunSteps(w, ss);
            end.job == w.job && end.central == LastConfig(w.central, ss) && (end.row.dirty <==> w.row.dirty || HasMark(ss))
    decreases |ss|
  {
    if ss != [] {
      WhileWaiting(Next(w, ss[0]), ss[1..]);
    }
  }

  // The panel when the pull comes: a fetch, what happens before the flag is read, the
  // reading, and what happens after it.
  function AtPull<K, V>(w: World<K, V>, before: seq<Step<K, V>>, ok: bool, after: seq<Step<K, V>>): World<K, V> {
    RunSteps(Next(RunSteps(Next(w, Fetch), before), ReadDirty(ok)), after)
  }

  // A pull keeps every committed edit exactly when the flag was read, and the node was
  // dirty at the fetch or marked before the reading, or when the node held at the fetch
  // what has been committed by the time of the pull.
  lemma PullKeeps<K, V>(w: World<K, V>, before: seq<Step<K, V>>, ok: bool, after: seq<Step<K, V>>)
    requires w.job.Fetching? && AllOutside(before) && AllOutside(after)
    ensures AtPull(w, before, ok, after).job.Checked?
    ensures Kept(AtPull(w, before, ok, after), Pull) <==>
            (ok && (w.row.dirty || HasMark(before))) || w.remote == LastConfig(LastConfig(w.central, before), after)
  {
    WhileWaiting(Next(w, Fetch), before);
    WhileWaiting(Next(RunSteps(Next(w, Fetch), before), ReadDirty(ok)), after);
  }

  // The same as a rule for each step: no flag is read as clear while a mark is
  // outstanding, and while the job holds what it fetched, an edit comes before the
  // reading and is marked, or the flag is known to be set.
  predicate Careful<K, V(==)>(w: World<K, V>, s: Step<K, V>) {
    match s
    case Commit(config, _, marks, _) =>
      && (w.job.Fetched? ==> marks || w.row.dirty || config == w.central)
      && (w.job.Checked? ==> w.job.dirty || config == w.central)
    case ReadDirty(ok) => (ok && w.row.dirty) || (!w.row.dirty && w.owed == 0)
    case _ => true
  }

  // What the job holds cannot undo an edit.
  ghost predicate PullSafe<K, V>(w: World<K, V>) {
    match w.job
    case Fetched(snap) => snap == w.central || w.row.dirty || w.owed > 0
    case Checked(snap, dirty) => dirty || snap == w.central
    case _ => true
  }

  ghost predicate AllCareful<K, V>(w: World<K, V>, ss: seq<Step<K, V>>)
    decreases |ss|
  {
    ss == [] || (Careful(w, ss[0]) && AllCareful(Next(w, ss[0]), ss[1..]))
  }

  lemma CarefulStep<K(!new), V>(w: World<K, V>, s: Step<K, V>)
    requires Inv(w) && PullSafe(w) && Enabled(w, s) && Careful(w, s)
    ensures Kept(w, s) && PullSafe(Next(w, s))
  {}

  // In careful runs all pulls keep the panel's configuration.
  lemma {:induction false} CarefulRunsKeep<K(!new), V>(w: World<K, V>, ss: seq<Step<K, V>>)
    requires Inv(w) && PullSafe(w) && Legal(w, ss) && AllConveyed(w, ss) && AllCareful(w, ss)
    ensures AllKept(w, ss) && Inv(RunSteps(w, ss)) && PullSafe(RunSteps(w, ss))
    decreases |ss|
  {
    if ss != [] {
      CarefulStep(w, ss[0]);
      StepKeepsInv(w, ss[0]);
      CarefulRunsKeep(Next(w, ss[0]), ss[1..]);
    }
  }

  // ---------- convergence ----------

  // No edit, and every reading of the flag succeeds.
  predicate Calm<K, V>(s: Step<K, V>) {
    !s.Commit? && (s.ReadDirty? ==> s.ok)
  }

  ghost predicate AllCalm<K, V>(ss: seq<Step<K, V>>) {
    forall s :: s in ss ==> Calm(s)
  }

  // Once edits stop and their marks are written, no schedule of rounds, failures and
  // heartbeats changes the panel's configuration, and whenever the node is clean it
  // mirrors the panel.
  lemma {:induction false} CalmRunsKeep<K(!new), V>(w: World<K, V>, ss: seq<Step<K, V>>)
    requires Inv(w) && PullSafe(w) && w.owed == 0 && Legal(w, ss) && AllCalm(ss)
    ensures var end := RunSteps(w, ss);
            end.central == w.central && end.owed == 0 && Inv(end) && PullSafe(end) && (!end.row.dirty ==> end.remote == w.central)
    decreases |ss|
  {
    if ss != [] {
      assert ss[0] in ss;
      CarefulStep(w, ss[0]);
      StepKeepsInv(w, ss[0]);
      CalmRunsKeep(Next(w, ss[0]), ss[1..]);
    }
  }

  // Delivering what is owed, one mark after another.
  function OwedMarks<K, V>(w: World<K, V>): seq<Step<K, V>>
    decreases w.owed
  {
    if w.owed == 0 then [] else
      var mark: Step<K, V> := Mark(w.row.dirtyAt + 1);
      [mark] + OwedMarks(Next(w, mark))
  }

  function StepsLeft<K, V>(job: Job<K, V>): nat {
    match job
    case Idle => 0
    case Checked(_, _) => 1
    case Fetched(_) => 2
    case Fetching => 3
    case Reconciled(_) => 4
    case Snapshotted(_) => 5
  }

  function JobStep<K, V>(job: Job<K, V>): Step<K, V>
    requires !job.Idle?
  {
    match job
    case Snapshotted(_) => Reconcile
    case Reconciled(_) => Clear
    case Fetching => Fetch
    case Fetched(_) => ReadDirty(true)
    case Checked(_, _) => Pull
  }

  // The rest of the round in flight.
  function FinishJob<K, V>(w: World<K, V>): seq<Step<K, V>>
    decreases StepsLeft(w.job)
  {
    if w.job.Idle? then [] else
      var step := JobStep(w.job);
      [step] + FinishJob(Next(w, step))
  }

  function FullRound<K, V>(w: World<K, V>): seq<Step<K, V>> {
    var step: Step<K, V> := Snapshot;
    [step] + FinishJob(Next(w, step))
  }

  lemma {:induction false} RunConcat<K(!new), V>(w: World<K, V>, a: seq<Step<K, V>>, b: seq<Step<K, V>>)
    ensures RunSteps(w, a + b) == RunSteps(RunSteps(w, a), b)
    ensures Legal(w, a) && Legal(RunSteps(w, a), b) ==> Legal(w, a + b)
    decreases |a|
  {
    if a == [] {
      assert a + b == b;
    } else {
      assert (a + b)[1..] == a[1..] + b;
      RunConcat(Next(w, a[0]), a[1..], b);
    }
  }

  lemma {:induction false} OwedMarksDelivered<K(!new), V>(w: World<K, V>)
    requires Inv(w) && PullSafe(w)
    ensures Legal(w, OwedMarks(w)) && AllCalm(OwedMarks(w))
    ensures var end := RunSteps(w, OwedMarks(w));
            end.owed == 0 && end.central == w.central && Inv(end) && PullSafe(end) &&
            end.row.enabled == w.row.enabled && end.row.status == w.row.status
    decreases w.owed
  {
    if w.owed > 0 {
      var mark: Step<K, V> := Mark(w.row.dirtyAt + 1);
      OwedMarksDelivered(Next(w, mark));
      assert OwedMarks(w)[1..] == OwedMarks(Next(w, mark));
    }
  }

  // The round in flight leaves the node clean.
  predicate Cleans<K, V>(w: World<K, V>) {
    match w.job
    case Snapshotted(at) => at == w.row.dirtyAt
    case Reconciled(at) => at == w.row.dirtyAt
    case _ => !w.row.dirty
  }

  lemma {:induction false} JobFinished<K(!new), V>(w: World<K, V>)
    ensures Legal(w, FinishJob(w)) && AllCalm(FinishJob(w)) && NoCommit(FinishJob(w)) && (!w.job.Idle? ==> HasPull(FinishJob(w)))
    ensures var end := RunSteps(w, FinishJob(w));
            end.job.Idle? && end.owed == w.owed && (Cleans(w) ==> !end.row.dirty) &&
            end.row.enabled == w.row.enabled && end.row.status == w.row.status
    decreases StepsLeft(w.job)
  {
    if !w.job.Idle? {
      var step := JobStep(w.job);
      JobFinished(Next(w, step));
      assert FinishJob(w)[1..] == FinishJob(Next(w, step));
    }
  }

  // Mirrored, clean, nothing owed, no job in flight.
  ghost predicate Settled<K, V>(w: World<K, V>) {
    w.remote == w.central && Quiet(w)
  }

  ghost predicate Quiet<K, V>(w: World<K, V>) {
    !w.row.dirty && w.owed == 0 && w.job.Idle?
  }

  ghost predicate Online<K, V>(w: World<K, V>) {
    w.row.enabled && w.row.status == "online"
  }

  // With nothing owed and no job in flight, one full round leaves an online node
  // clean and mirroring the panel.
  lemma FullRoundMirrors<K(!new), V>(w: World<K, V>)
    requires Inv(w) && w.owed == 0 && w.job.Idle? && Online(w)
    ensures Legal(w, FullRound(w)) && AllCalm(FullRound(w))
    ensures Settled(RunSteps(w, FullRound(w))) && RunSteps(w, FullRound(w)).central == w.central
  {
    var step: Step<K, V> := Snapshot;
    JobFinished(Next(w, step));
    assert FullRound(w)[1..] == FinishJob(Next(w, step));
    CalmRunsKeep(w, FullRound(w));
  }

  // Once edits stop: from wherever a careful run has got to, the marks still owed,
  // the round in flight and one full round bring an online node to the panel's config.
  lemma Converges<K(!new), V>(w: World<K, V>)
    requires Inv(w) && PullSafe(w) && Online(w)
    ensures exists ss: seq<Step<K, V>> :: Legal(w, ss) && AllCalm(ss) &&
              Settled(RunSteps(w, ss)) && RunSteps(w, ss).central == w.central
  {
    OwedMarksDelivered(w);
    var marked := RunSteps(w, OwedMarks(w));
    JobFinished(marked);
    CalmRunsKeep(marked, FinishJob(marked));
    var idle := RunSteps(marked, FinishJob(marked));
    FullRoundMirrors(idle);
    var tail := FinishJob(marked) + FullRound(idle);
    RunConcat(marked, FinishJob(marked), FullRound(idle));
    RunConcat(w, OwedMarks(w), tail);
    assert AllCalm(OwedMarks(w) + tail);
  }

  // ---------- the job itself ----------

  // One node as a sync job sees it, with the job's single-run lock.
  class SyncJob<K(==, !new), V> {
    var running: bool
    var central: map<K, V>
    var remote: map<K, V>
    var row: NodeRow

    constructor (central: map<K, V>, remote: map<K, V>, row: NodeRow)
      ensures !running && this.central == central && this.remote == remote && this.row == row
    {
      running, this.central, this.remote, this.row := false, central, remote, row;
    }

    // A second run finds the lock taken and does nothing.
    method TryStart() returns (started: bool)
      modifies this
      ensures started <==> !old(running)
      ensures running && central == old(central) && remote == old(remote) && row == old(row)
    {
      if running {
        return false;
      }
      running := true;
      return true;
    }

    // The deferred unlock: the next run may start.
    method Finish()
      requires running
      modifies this
      ensures !running && central == old(central) && remote == old(remote) && row == old(row)
    {
      running := false;
    }

    function At(job: Job<K, V>): World<K, V>
      reads this
    {
      World(central, remote, row, 0, job)
    }

    // syncOne over the row read at the start of the run, as one undisturbed run of
    // protocol steps: reconcile and compare-and-clear when the row was dirty, then
    // fetch, read the flag, and merge.
    method SyncOne(snapshot: NodeRow, io: Luck<K, V>)
      requires running
      modifies this
      ensures running
      ensures var job := if snapshot.dirty then Snapshotted(snapshot.dirtyAt) else Fetching;
              At(Idle) == Round(old(At(job)), io)
      ensures snapshot == old(row) && Succeeds(io) ==> At(Idle) == RunSteps(old(At(Idle)), FullRound(old(At(Idle))))
      ensures var ready := io.reached && (snapshot.dirty ==> io.reconciled);
              && (io.flagRead && row.dirty ==> central == old(central))
              && (ready && io.fetched && io.merged && !(io.flagRead && row.dirty) ==> central == remote)
              && (!(ready && io.fetched && io.merged) ==> central == old(central))
              && (ready && snapshot.dirty ==> remote == old(central))
              && (!ready && io.reached ==> remote == io.partial)
              && (!io.reached || !snapshot.dirty ==> remote == old(remote))
              && row == old(row).(dirty := old(row).dirty && !(ready && snapshot.dirty && io.cleared && old(row).dirtyAt == snapshot.dirtyAt))
    {
      if snapshot == row && Succeeds(io) {
        RoundInFull(At(Idle), io);
      }
      hide RunSteps, FullRound;
      if !io.reached {
        return;
      }
      if snapshot.dirty {
        var done := Reconcile(snapshot, io);
        if !done {
          return;
        }
      }
      Merge(io);
    }

    // The dirty half: false when the reconcile failed.
    method Reconcile(snapshot: NodeRow, io: Luck<K, V>) returns (done: bool)
      modifies this`remote, this`row
      ensures done == io.reconciled
      ensures if done then remote == old(central) && row == if io.cleared then ClearedRow(old(row), snapshot.dirtyAt) else old(row)
              else remote == io.partial && row == old(row)
    {
      if !io.reconciled {
        remote := io.partial;
        return false;
      }
      remote := central;
      if io.cleared && row.dirtyAt == snapshot.dirtyAt {
        row := row.(dirty := false);
      }
      return true;
    }

    // The other half: what was fetched replaces the panel's configuration unless the
    // flag is read as set.
    method Merge(io: Luck<K, V>)
      modifies this`central
      ensures central == if io.fetched && io.merged && !(io.flagRead && row.dirty) then remote else old(central)
    {
      if !io.fetched {
        return;
      }
      var snap := remote;
      var dirty := io.flagRead && row.dirty;
      if io.merged && !dirty {
        central := snap;
      }
    }
  }

  // How the calls of one round turn out.
  datatype Luck<K, V> = Luck(reached: bool, reconciled: bool, partial: map<K, V>, cleared: bool,
                             fetched: bool, flagRead: bool, merged: bool)

  function PullHalf<K, V>(w: World<K, V>, io: Luck<K, V>): World<K, V> {
    if !io.fetched then Next(w, FetchFails)
    else Next(Next(Next(w, Fetch), ReadDirty(io.flagRead)), if io.merged then Pull else PullFails)
  }

  // One round from the row that was read, as steps of the protocol.
  function Round<K, V>(w: World<K, V>, io: Luck<K, V>): World<K, V> {
    if w.job.Fetching? then
      if io.reached then PullHalf(w, io) else Next(w, FetchFails)
    else if !io.reached then Next(w, ReconcileFails(w.remote))
    else if !io.reconciled then Next(w, ReconcileFails(io.partial))
    else PullHalf(Next(Next(w, Reconcile), if io.cleared then Clear else ClearFails), io)
  }

  predicate Succeeds<K, V>(io: Luck<K, V>) {
    io.reached && io.reconciled && io.cleared && io.fetched && io.flagRead && io.merged
  }

  // A round all of whose calls succeed, from an up-to-date row, is a full round.
  lemma RoundInFull<K(!new), V>(w: World<K, V>, io: Luck<K, V>)
    requires w.job.Idle? && Succeeds(io)
    ensures Round(Next(w, Snapshot), io) == RunSteps(w, FullRound(w))
  {
    var step: Step<K, V> := Snapshot;
    assert FullRound(w)[1..] == FinishJob(Next(w, step));
    FinishFrom(Next(w, step), io);
  }

  // The rest of a round, one step after another.
  lemma FinishFrom<K(!new), V>(w: World<K, V>, io: Luck<K, V>)
    requires (w.job.Fetching? || w.job.Snapshotted?) && Succeeds(io)
    ensures Round(w, io) == RunSteps(w, FinishJob(w))
    decreases StepsLeft(w.job)
  {
    if w.job.Snapshotted? {
      var reconciled := Next(w, JobStep(w.job));
      var cleared := Next(reconciled, JobStep(reconciled.job));
      FinishStep(w);
      FinishStep(reconciled);
      FinishFrom(cleared, io);
    } else {
      var fetched := Next(w, JobStep(w.job));
      var checked := Next(fetched, JobStep(fetched.job));
      FinishStep(w);
      FinishStep(fetched);
      FinishStep(checked);
    }
  }

  lemma FinishStep<K(!new), V>(w: World<K, V>)
    requires !w.job.Idle?
    ensures RunSteps(w, FinishJob(w)) == RunSteps(Next(w, JobStep(w.job)), FinishJob(Next(w, JobStep(w.job))))
  {
    assert FinishJob(w)[1..] == FinishJob(Next(w, JobStep(w.job)));
  }

  // Whatever its calls come to, a round is a run of the protocol: all that holds over
  // runs holds of it.
  lemma RoundIsRun<K(!new), V>(w: World<K, V>, io: Luck<K, V>) returns (ss: seq<Step<K, V>>)
    requires w.job.Fetching? || w.job.Snapshotted?
    ensures Legal(w, ss) && NoCommit(ss) && RunSteps(w, ss) == Round(w, io) && (io.flagRead ==> AllCalm(ss))
  {
    if w.job.Fetching? {
      ss := PullIsRun(w, if io.reached then io else io.(fetched := false));
    } else if !io.reached {
      ss := [ReconcileFails(w.remote)];
      RunCons(w, ss[0], [], ss);
    } else if !io.reconciled {
      ss := [ReconcileFails(io.partial)];
      RunCons(w, ss[0], [], ss);
    } else {
      var clear: Step<K, V> := if io.cleared then Clear else ClearFails;
      var reconciled := Next(w, Reconcile);
      var rest := PullIsRun(Next(reconciled, clear), io);
      ss := [Reconcile] + ([clear] + rest);
      RunCons(reconciled, clear, rest, [clear] + rest);
      RunCons(w, Reconcile, [clear] + rest, ss);
      assert ([clear] + rest)[1..] == rest && ss[1..] == [clear] + rest;
    }
  }

  lemma PullIsRun<K(!new), V>(w: World<K, V>, io: Luck<K, V>) returns (ss: seq<Step<K, V>>)
    requires w.job.Fetching?
    ensures Legal(w, ss) && NoCommit(ss) && RunSteps(w, ss) == PullHalf(w, io) && (io.flagRead ==> AllCalm(ss))
  {
    if !io.fetched {
      ss := [FetchFails];
      RunCons(w, ss[0], [], ss);
    } else {
      var read: Step<K, V>, last: Step<K, V> := ReadDirty(io.flagRead), if io.merged then Pull else PullFails;
      var fetched := Next(w, Fetch);
      ss := [Fetch, read, last];
      RunCons(w, Fetch, [read, last], ss);
      RunCons(fetched, read, [last], [read, last]);
      RunCons(Next(fetched, read), last, [], [last]);
      assert ss[1..] == [read, last] && [read, last][1..] == [last] && [last][1..] == [];
      assert NoCommit([last]) && NoCommit([read, last]);
    }
  }

  // ---------- edits the node is not told about, and pulls that undo edits ----------

  // In a settled world an edit stays accounted for exactly when it was told in full
  // or marked.
  lemma SettledEdit<K(!new), V>(w: World<K, V>, s: Step<K, V>)
    requires Settled(w) && s.Commit? && Enabled(w, s)
    ensures Inv(Next(w, s)) <==> Conveyed(w, s)
  {
    if !s.marks { PushedInFull(w.central, s.config, s.pushed, s.remoteAfter); }
  }

  predicate NoCommit<K, V>(ss: seq<Step<K, V>>)
    decreases |ss|
  {
    ss == [] || (!ss[0].Commit? && NoCommit(ss[1..]))
  }

  predicate HasPull<K, V>(ss: seq<Step<K, V>>)
    decreases |ss|
  {
    ss != [] && (ss[0].Pull? || HasPull(ss[1..]))
  }

  // A clean world with nothing owed, in which the job holds nothing but what the
  // node has.
  ghost predicate Clean<K, V>(w: World<K, V>) {
    !w.row.dirty && w.owed == 0 &&
    match w.job
    case Idle => true
    case Fetching => true
    case Fetched(snap) => snap == w.remote
    case Checked(snap, dirty) => snap == w.remote && !dirty
    case _ => false
  }

  // Whatever a clean node holds, every run of rounds without edits leaves it there,
  // and the first pull takes it over on the panel.
  lemma {:induction false} PullTakesOver<K(!new), V>(w: World<K, V>, ss: seq<Step<K, V>>)
    requires Clean(w) && Legal(w, ss) && NoCommit(ss)
    ensures var end := RunSteps(w, ss);
            Clean(end) && end.remote == w.remote && end.central == if HasPull(ss) then w.remote else w.central
    decreases |ss|
  {
    if ss != [] {
      PullTakesOver(Next(w, ss[0]), ss[1..]);
    }
  }

  // A silent change made in a settled world is undone on the panel by the next pull,
  // however the rounds before it went: the panel ends with what the node was told.
  lemma SilentChangeUndone<K(!new), V>(w: World<K, V>, s: Step<K, V>, ss: seq<Step<K, V>>)
    requires Settled(w) && s.Commit? && Enabled(w, s) && !s.marks && Legal(Next(w, s), ss) && NoCommit(ss)
    ensures var end := RunSteps(Next(w, s), ss);
            if HasPull(ss) then forall k :: Look(end.central, k) == Look(if k in s.pushed then s.config else w.central, k)
            else end.central == s.config
  {
    PullTakesOver(Next(w, s), ss);
  }

  // A marked edit that comes while no round is in flight saves all edits before it,
  // lost to the node or not, from every schedule that writes its mark first.
  lemma MarkedEditSaves<K(!new), V>(w: World<K, V>, s: Step<K, V>, now: int, ss: seq<Step<K, V>>)
    requires Quiet(w) && s.Commit? && s.marks && now > w.row.dirtyAt
    requires Legal(Next(Next(w, s), Mark(now)), ss) && AllCalm(ss)
    ensures var end := RunSteps(Next(Next(w, s), Mark(now)), ss);
            end.central == s.config && (!end.row.dirty ==> end.remote == s.config)
  {
    CalmRunsKeep(Next(Next(w, s), Mark(now)), ss);
  }

  // An edit pushed in full between fetch and reading leaves no mark, so the pull takes
  // it back on the panel while the node has it: clean, nothing owed, not mirrored.
  // Only the next undisturbed round brings it back.
  lemma StalePullUndoes<K(!new), V>(w: World<K, V>, config: map<K, V>)
    requires Settled(w) && Online(w)
    ensures var s: Step<K, V> := Commit(config, Changed(w.central, config), false, config);
            var ss := [Snapshot, Fetch, s, ReadDirty(true), Pull];
            var end := RunSteps(w, ss);
            && Legal(w, ss) && AllConveyed(w, ss) && Quiet(end) && end.central == w.central && end.remote == config
            && Legal(end, FullRound(end)) && Settled(RunSteps(end, FullRound(end))) && RunSteps(end, FullRound(end)).central == config
  {
    var s: Step<K, V> := Commit(config, Changed(w.central, config), false, config);
    RoundWithEdit(w, s);
    CleanRound(w.(remote := config));
  }

  lemma RunCons<K(!new), V>(w: World<K, V>, s: Step<K, V>, rest: seq<Step<K, V>>, all: seq<Step<K, V>>)
    requires all == [s] + rest
    ensures RunSteps(w, all) == RunSteps(Next(w, s), rest)
    ensures Legal(w, all) <==> Enabled(w, s) && LaterMark(w, s) && Legal(Next(w, s), rest)
    ensures AllConveyed(w, all) <==> Conveyed(w, s) && AllConveyed(Next(w, s), rest)
  {
    assert all[1..] == rest;
  }

  // A round of a clean node with one edit between the fetch and the reading.
  lemma RoundWithEdit<K(!new), V>(w: World<K, V>, s: Step<K, V>)
    requires Quiet(w) && Online(w) && s.Commit?
    requires var fetched := Next(Next(w, Snapshot), Fetch); Enabled(fetched, s) && Conveyed(fetched, s)
    ensures var ss := [Snapshot, Fetch, s, ReadDirty(true), Pull];
            && Legal(w, ss) && AllConveyed(w, ss)
            && RunSteps(w, ss) == w.(remote := s.remoteAfter, central := w.remote, owed := if s.marks then 1 else 0)
  {
    hide Changed, Delivered;
    var fetching := Next(w, Snapshot);
    var fetched := Next(fetching, Fetch);
    var edited := Next(fetched, s);
    var checked := Next(edited, ReadDirty(true));
    RunCons(w, Snapshot, [Fetch, s, ReadDirty(true), Pull], [Snapshot, Fetch, s, ReadDirty(true), Pull]);
    RunCons(fetching, Fetch, [s, ReadDirty(true), Pull], [Fetch, s, ReadDirty(true), Pull]);
    RunCons(fetched, s, [ReadDirty(true), Pull], [s, ReadDirty(true), Pull]);
    RunCons(edited, ReadDirty(true), [Pull], [ReadDirty(true), Pull]);
    RunCons(checked, Pull, [], [Pull]);
  }

  // A full round of a clean online node takes over what the node holds.
  lemma CleanRound<K(!new), V>(w: World<K, V>)
    requires Quiet(w) && Online(w)
    ensures Legal(w, FullRound(w)) && Settled(RunSteps(w, FullRound(w))) && RunSteps(w, FullRound(w)).central == w.remote
  {
    var step: Step<K, V> := Snapshot;
    JobFinished(Next(w, step));
    assert FullRound(w)[1..] == FinishJob(Next(w, step));
    PullTakesOver(w, FullRound(w));
  }

  // An edit of a node out of reach, committed between fetch and reading with its mark
  // late, is taken back by the pull; the mark then has the old configuration
  // reconciled, and the edit is gone from a settled world.
  lemma LateMarkLoses<K(!new), V>(w: World<K, V>, config: map<K, V>, now: int)
    requires Settled(w) && Online(w) && now > w.row.dirtyAt
    ensures var s: Step<K, V> := Commit(config, {}, true, w.remote);
            var ss := [Snapshot, Fetch, s, ReadDirty(true), Pull];
            var marked := Next(RunSteps(w, ss), Mark(now));
            && Legal(w, ss) && AllConveyed(w, ss) && Enabled(RunSteps(w, ss), Mark(now)) && Legal(marked, FullRound(marked))
            && Settled(RunSteps(marked, FullRound(marked))) && RunSteps(marked, FullRound(marked)).central == w.central
  {
    var s: Step<K, V> := Commit(config, {}, true, w.remote);
    RoundWithEdit(w, s);
    FullRoundMirrors(Next(w.(owed := 1), Mark(now)));
  }

  // A mark written while a clear is in flight is kept exactly when its timestamp
  // is not the one the job read.
  lemma MarkAgainstClear<K, V>(w: World<K, V>, now: int)
    requires Inv(w) && w.job.Reconciled? && w.owed == 1 && w.remote != w.central
    ensures Accounted(Next(Next(w, Mark(now)), Clear)) <==> now != w.job.at
  {}
}
