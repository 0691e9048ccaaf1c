/** The threshold collector: a multiplexed job list that deletes a finished
    job once enough peers have acknowledged it.

    When the local job list reports a job done, the collector writes its own
    acknowledgment (the done update) into the ledger under its own peer id.
    Whenever a ledger entry changes, locally or by a peer, and the entry has
    at least `threshold` peers, the job is deleted. Incoming job-list updates
    for such a job are accepted and dropped. A periodic sweep clears entries
    at or over the threshold whose newest acknowledgment is older than the
    grace window.

    Work the source defers to the next turn (`setImmediate`) is queued in
    `pending` and run by `RunTask`; the wall clock is the `now` argument. */
module CappedJobLists {
  import opened Wire
  import opened Parts
  import opened MetaJobLists

  const DefaultThreshold: int := 1
  const DefaultMetaCleanInterval: int := 5000

  /** How old (in ms) the newest acknowledgment of a collected entry must be
      before the sweep clears the entry. */
  const GraceWindow: int := 2000

  /** Construction options; an absent field takes its default. */
  datatype Options = Options(id: Option<PeerId>, threshold: Option<int>, metaCleanInterval: Option<int>)

  /** Deferred work: write this replica's acknowledgment of a done job, or
      delete a job from the job list. */
  datatype Task = Acknowledge(job: JobId, done: Update) | Collect(job: JobId)

  /** `getNotifiedCount` of what `rawValue[0]` yields; a value that names no
      job has no entry. */
  function NotifiedCount(l: Ledger, key: Option<JobId>): (n: nat)
    ensures key.None? ==> n == 0
    ensures key.Some? ==> n == |Acknowledgers(l, key.value)|
  {
    match key
    case None => 0
    case Some(j) => Count(l, j)
  }

  /** What a change to entry `j` queues: a deletion when the entry has
      reached the threshold. */
  function ChangeTasks(l: Ledger, threshold: int, j: JobId): (r: seq<Task>)
    ensures r == [] || r == [Collect(j)]
    ensures r != [] <==> Count(l, j) >= threshold
  {
    if Count(l, j) >= threshold then [Collect(j)] else []
  }

  /** The collector's `applyUpdate`: a payload that does not split is
      turned away as the multiplexer would; a job-list update whose job id
      is read from `null` throws; a job-list update for a job at or over
      the threshold is dropped; everything else goes to the multiplexer. */
  function Admit(parts: map<string, Part>, threshold: int, u: Update): (r: (Outcome, map<string, Part>))
    requires MetaName in parts && parts[MetaName].MetaPart?
    ensures r.1.Keys == parts.Keys
    ensures r.0 != Applied ==> r.1 == parts
    ensures r.0 != Suppressed ==> r == Route(parts, u) || r == (Threw, parts)
    ensures Unwrap(u).Split? && Unwrap(u).name == Str(JobListName) && Unwrap(u).inner.data.Null? ==>
              r == (Threw, parts)
    ensures JobListName in parts ==>
              (r.0 == Threw <==>
                 Route(parts, u).0 == Threw ||
                 (Unwrap(u).Split? && Unwrap(u).name == Str(JobListName) && Unwrap(u).inner.data.Null?))
    ensures r.0 != Suppressed && r.0 != Threw ==> r == Route(parts, u)
  {
    match Unwrap(u)
    case Split(name, inner) =>
      if name == Str(JobListName) && inner.data.Null? then (Threw, parts)
      else if name == Str(JobListName) && NotifiedCount(parts[MetaName].ledger, JobKey(inner.data)) >= threshold
      then (Suppressed, parts)
      else Route(parts, u)
    case _ => Route(parts, u)
  }

  /** The ledger entry an applied incoming update changes, if any. */
  function ChangedEntry(u: Update): (r: Option<JobId>)
    ensures r.Some? ==> Unwrap(u).Split? && Unwrap(u).name == Str(MetaName)
    ensures r.Some? ==> MetaKey(Unwrap(u).inner.data).Some? && MetaKey(Unwrap(u).inner.data).value.0 == r.value
  {
    match Unwrap(u)
    case Split(name, inner) =>
      if name == Str(MetaName) && MetaKey(inner.data).Some? then Some(MetaKey(inner.data).value.0) else None
    case _ => None
  }

  /** A ledger update is never dropped: it always reaches the multiplexer. */
  lemma MetaNeverSuppressed(parts: map<string, Part>, threshold: int, inner: Update)
    requires MetaName in parts && parts[MetaName].MetaPart?
    ensures Admit(parts, threshold, Wrap(MetaName, inner)) == Route(parts, Wrap(MetaName, inner))
    ensures Admit(parts, threshold, Wrap(MetaName, inner)).0 == Applied
  {
    UnwrapWrap(MetaName, inner);
  }

  /** An acknowledgment record arriving from a peer is applied: it merges
      into the ledger entry it names, and it counts as a change to that entry. */
  lemma AckArrives(parts: map<string, Part>, threshold: int, inner: Update, j: JobId, acks: map<PeerId, Value>)
    requires MetaName in parts && parts[MetaName].MetaPart?
    requires inner.data == Arr([Str(j), Obj(acks)])
    ensures Admit(parts, threshold, Wrap(MetaName, inner)).0 == Applied
    ensures Admit(parts, threshold, Wrap(MetaName, inner)).1 == parts[MetaName := Take(parts[MetaName], inner)]
    ensures Take(parts[MetaName], inner).ledger == SetEntry(parts[MetaName].ledger, j, Obj(acks))
    ensures ChangedEntry(Wrap(MetaName, inner)) == Some(j)
  {
    MetaNeverSuppressed(parts, threshold, inner);
    RouteWrapped(parts, MetaName, inner);
  }

  /** A job-list update for a job below the threshold reaches the job
      list, and it changes no ledger entry. */
  lemma JobArrives(parts: map<string, Part>, threshold: int, inner: Update, j: JobId)
    requires MetaName in parts && parts[MetaName].MetaPart? && JobListName in parts
    requires JobKey(inner.data) == Some(j)
    requires Count(parts[MetaName].ledger, j) < threshold
    ensures Admit(parts, threshold, Wrap(JobListName, inner)) ==
              (Applied, parts[JobListName := Take(parts[JobListName], inner)])
    ensures ChangedEntry(Wrap(JobListName, inner)) == None
  {
    UnwrapWrap(JobListName, inner);
    RouteWrapped(parts, JobListName, inner);
  }

  /** A dropped update returns true and changes no sub-model; it happens
      exactly for a job-list update whose job has reached the threshold. */
  lemma SuppressionSpec(parts: map<string, Part>, threshold: int, u: Update)
    requires MetaName in parts && parts[MetaName].MetaPart?
    ensures Admit(parts, threshold, u).0 == Suppressed ==> Admit(parts, threshold, u).1 == parts
    ensures Admit(parts, threshold, u).0 == Suppressed <==>
              Unwrap(u).Split? && Unwrap(u).name == Str(JobListName) && !Unwrap(u).inner.data.Null? &&
              NotifiedCount(parts[MetaName].ledger, JobKey(Unwrap(u).inner.data)) >= threshold
  {
    RouteRejects(parts, u);
  }

  /** A payload that is not two long returns false and changes nothing. */
  lemma MalformedRejected(parts: map<string, Part>, threshold: int, u: Update)
    requires MetaName in parts && parts[MetaName].MetaPart?
    requires (u.data.Arr? && |u.data.items| != 2) || (u.data.Str? && |u.data.s| != 2)
    ensures Admit(parts, threshold, u) == (Rejected, parts)
  {
    RouteRejects(parts, u);
  }

  /** A job that is gone and has reached the threshold stays gone: an
      incoming job-list update for it is dropped and changes nothing. */
  lemma NoResurrection(parts: map<string, Part>, threshold: int, inner: Update, j: JobId)
    requires MetaName in parts && parts[MetaName].MetaPart?
    requires JobKey(inner.data) == Some(j)
    requires Count(parts[MetaName].ledger, j) >= threshold
    ensures Admit(parts, threshold, Wrap(JobListName, inner)) == (Suppressed, parts)
  {
    UnwrapWrap(JobListName, inner);
  }

  /** Every acknowledgment timestamp is more than the grace window before
      `now`, and so is the starting value 0 of the newest-timestamp scan. */
  ghost predicate Stale(acks: map<PeerId, Value>, now: int)
    ensures Stale(acks, now) ==> now > GraceWindow
  {
    && now - 0 > GraceWindow
    && forall p :: p in acks && TimestampOf(acks[p]).Some? ==> now - TimestampOf(acks[p]).value > GraceWindow
  }

  /** An entry that is stale stays stale as time goes on. */
  lemma StaleLater(acks: map<PeerId, Value>, now: int, later: int)
    requires Stale(acks, now) && now <= later
    ensures Stale(acks, later)
  {
  }

  /** The sweep clears an entry when it is at or over the threshold and stale. */
  ghost predicate Sweepable(acks: map<PeerId, Value>, threshold: int, now: int)
  {
    |acks| >= threshold && Stale(acks, now)
  }

  /** The ledger after a sweep that has yet to look at the entries `keys`. */
  ghost function SweptBut(l: Ledger, threshold: int, now: int, keys: set<JobId>): (r: Ledger)
    ensures r.Keys <= l.Keys && keys * l.Keys <= r.Keys
    ensures forall k :: k in r ==> r[k] == l[k]
  {
    map j | j in l && (j in keys || !Sweepable(l[j], threshold, now)) :: l[j]
  }

  /** Looking at one more entry: a sweepable entry is cleared, any other
      is left alone. */
  lemma SweepStep(l: Ledger, threshold: int, now: int, keys: set<JobId>, j: JobId)
    requires j in keys && keys <= l.Keys
    ensures SweptBut(l, threshold, now, keys - {j}) ==
              if Sweepable(l[j], threshold, now) then SetEntry(SweptBut(l, threshold, now, keys), j, Null)
              else SweptBut(l, threshold, now, keys)
  {
  }

  /** Clearing a sweepable entry adds its `null` write to those of the
      entries cleared before it. */
  lemma SweepCleared(l: Ledger, threshold: int, now: int, keys: set<JobId>, j: JobId,
                     us: seq<Update>, id: PeerId, ts: int)
    requires j in keys && keys <= l.Keys && Sweepable(l[j], threshold, now)
    requires NullWrites(us, id, l.Keys - SweptBut(l, threshold, now, keys).Keys)
    ensures NullWrites(us + [LedgerUpdate(j, Null, ts, id)], id, l.Keys - SweptBut(l, threshold, now, keys - {j}).Keys)
  {
    assert l.Keys - SweptBut(l, threshold, now, keys - {j}).Keys == (l.Keys - SweptBut(l, threshold, now, keys).Keys) + {j};
    NullWritesSnoc(us, id, l.Keys - SweptBut(l, threshold, now, keys).Keys, j, ts);
  }

  /** Clearing a sweepable entry logs and emits its `null` write after
      those of the entries cleared before it. */
  lemma SweepLogged(l: Ledger, threshold: int, now: int, keys: set<JobId>, j: JobId,
                    log0: seq<Update>, log: seq<Update>, e0: seq<Event>, id: PeerId,
                    clk0: int, clk: int, ts: int)
    requires j in keys && keys <= l.Keys && Sweepable(l[j], threshold, now)
    requires |log0| <= |log| && log[..|log0|] == log0
    requires NullWrites(log[|log0|..], id, l.Keys - SweptBut(l, threshold, now, keys).Keys)
    requires clk0 <= clk < ts && Stamped(log[|log0|..], clk0, clk)
    ensures |log0| <= |log + [LedgerUpdate(j, Null, ts, id)]|
    ensures (log + [LedgerUpdate(j, Null, ts, id)])[..|log0|] == log0
    ensures e0 + Tagged(MetaName, log[|log0|..]) + [LedgerWrite(j, Null, ts, id)] ==
              e0 + Tagged(MetaName, (log + [LedgerUpdate(j, Null, ts, id)])[|log0|..])
    ensures NullWrites((log + [LedgerUpdate(j, Null, ts, id)])[|log0|..], id,
                       l.Keys - SweptBut(l, threshold, now, keys - {j}).Keys)
    ensures Stamped((log + [LedgerUpdate(j, Null, ts, id)])[|log0|..], clk0, ts)
  {
    var x := LedgerUpdate(j, Null, ts, id);
    PrefixKept(log, [x], |log0|);
    TaggedSnoc(MetaName, log[|log0|..], x);
    SweepCleared(l, threshold, now, keys, j, log[|log0|..], id, ts);
    StampedSnoc(log[|log0|..], clk0, clk, x);
  }

  /** Appending to a sequence keeps its first `n` elements. */
  lemma PrefixKept<T>(a: seq<T>, b: seq<T>, n: nat)
    requires n <= |a|
    ensures (a + b)[..n] == a[..n] && (a + b)[n..] == a[n..] + b
  {
  }

  /** The ledger after a full sweep. */
  ghost function Swept(l: Ledger, threshold: int, now: int): (r: Ledger)
    ensures r.Keys <= l.Keys
    ensures forall k :: k in r ==> r[k] == l[k]
    ensures forall k :: k in l && |l[k]| < threshold ==> k in r
  {
    SweptBut(l, threshold, now, {})
  }

  /** Because the scan for the newest acknowledgment starts from 0, no
      sweep clears anything before `now` is past the grace window. */
  lemma SweepWaitsForGrace(l: Ledger, threshold: int, now: int)
    requires now <= GraceWindow
    ensures Swept(l, threshold, now) == l
  {
    assert Swept(l, threshold, now).Keys == l.Keys;
  }

  /** The sweep never touches an entry below the threshold or a fresh one,
      clears every entry that is at or over it and stale, and changes no
      entry it keeps. */
  lemma SweepSafety(l: Ledger, threshold: int, now: int, j: JobId)
    ensures j in Swept(l, threshold, now) ==> j in l && Swept(l, threshold, now)[j] == l[j]
    ensures j in l && Count(l, j) < threshold ==> j in Swept(l, threshold, now)
    ensures j in l && !Stale(l[j], now) ==> j in Swept(l, threshold, now)
    ensures j in l && j !in Swept(l, threshold, now) <==>
              j in l && Count(l, j) >= threshold && Stale(l[j], now)
  {
  }

  /** The newest acknowledgment timestamp of an entry, starting from 0; a
      value without a numeric timestamp slot is skipped. */
  method NewestAck(acks: map<PeerId, Value>) returns (maxTs: int)
    ensures 0 <= maxTs
    ensures forall p :: p in acks && TimestampOf(acks[p]).Some? ==> TimestampOf(acks[p]).value <= maxTs
    ensures maxTs == 0 || exists p :: p in acks && TimestampOf(acks[p]) == Some(maxTs)
  {
    maxTs := 0;
    var keys := acks.Keys;
    while keys != {}
      invariant keys <= acks.Keys
      invariant 0 <= maxTs
      invariant forall p :: p in acks && p !in keys && TimestampOf(acks[p]).Some? ==>
                  TimestampOf(acks[p]).value <= maxTs
      invariant maxTs == 0 || exists p :: p in acks && TimestampOf(acks[p]) == Some(maxTs)
      decreases keys
    {
      var p :| p in keys;
      var ts := TimestampOf(acks[p]);
      if ts.Some? && maxTs < ts.value {
        maxTs := ts.value;
      }
      keys := keys - {p};
    }
  }

  /** The sweep's test `now - maxTs > 2000` on the newest timestamp is
      exactly staleness of the entry. */
  lemma StaleIffNewestOld(acks: map<PeerId, Value>, now: int, maxTs: int)
    requires 0 <= maxTs
    requires forall p :: p in acks && TimestampOf(acks[p]).Some? ==> TimestampOf(acks[p]).value <= maxTs
    requires maxTs == 0 || exists p :: p in acks && TimestampOf(acks[p]) == Some(maxTs)
    ensures now - maxTs > GraceWindow <==> Stale(acks, now)
  {
    if maxTs != 0 {
      var p :| p in acks && TimestampOf(acks[p]) == Some(maxTs);
    }
  }

  /** The update of `ledger.set(j, v)` made by replica `id` at time `ts`,
      as the ledger logs it. */
  function LedgerUpdate(j: JobId, v: Value, ts: int, id: PeerId): (u: Update)
    ensures MetaKey(u.data) == Some((j, v))
    ensures u.timestamp == ts && u.sourceId == id && u.rest == []
  {
    Update(Arr([Str(j), v]), ts, id, [])
  }

  /** The tagged update the multiplexer emits for that write. */
  function LedgerWrite(j: JobId, v: Value, ts: int, id: PeerId): (e: Event)
    ensures e.UpdateEvent? && ChangedEntry(e.u) == Some(j)
    ensures e == Tagged(MetaName, [LedgerUpdate(j, v, ts, id)])[0]
  {
    UpdateEvent(Wrap(MetaName, LedgerUpdate(j, v, ts, id)))
  }

  /** `us` are `null` writes by replica `id`, one for each entry of `jobs`,
      in some order. */
  ghost predicate NullWrites(us: seq<Update>, id: PeerId, jobs: set<JobId>)
    decreases |us|
  {
    if us == [] then jobs == {}
    else
      exists j, ts :: j in jobs && us[|us| - 1] == LedgerUpdate(j, Null, ts, id) &&
                      NullWrites(us[..|us| - 1], id, jobs - {j})
  }

  /** One more `null` write, for an entry not yet written. */
  lemma NullWritesSnoc(us: seq<Update>, id: PeerId, jobs: set<JobId>, j: JobId, ts: int)
    requires NullWrites(us, id, jobs) && j !in jobs
    ensures NullWrites(us + [LedgerUpdate(j, Null, ts, id)], id, jobs + {j})
  {
    assert (us + [LedgerUpdate(j, Null, ts, id)])[..|us|] == us;
    assert (jobs + {j}) - {j} == jobs;
  }

  /** There are exactly as many writes as entries: each entry is written
      once. */
  lemma {:induction false} NullWritesCount(us: seq<Update>, id: PeerId, jobs: set<JobId>)
    requires NullWrites(us, id, jobs)
    ensures |us| == |jobs|
    decreases |us|
  {
    if us != [] {
      var j, ts :| j in jobs && us[|us| - 1] == LedgerUpdate(j, Null, ts, id) &&
                   NullWrites(us[..|us| - 1], id, jobs - {j});
      NullWritesCount(us[..|us| - 1], id, jobs - {j});
    }
  }

  /** `us` carry strictly rising timestamps, all above `lo` and none above
      `hi`: local updates drawn one after another from a clock that read
      `lo` before the first and reads `hi` after the last. */
  ghost predicate Stamped(us: seq<Update>, lo: int, hi: int)
  {
    && (forall i :: 0 <= i < |us| ==> lo < us[i].timestamp <= hi)
    && (forall i, k :: 0 <= i < k < |us| ==> us[i].timestamp < us[k].timestamp)
  }

  /** An update drawn from the clock after `us` extends them. */
  lemma StampedSnoc(us: seq<Update>, lo: int, hi: int, u: Update)
    requires Stamped(us, lo, hi) && lo <= hi < u.timestamp
    ensures Stamped(us + [u], lo, u.timestamp)
  {
  }

  /** The collector. `mux` is the multiplexer it extends, `pending` the
      work deferred to the next turn. */
  class CappedJobList {
    const mux: MetaJobList
    const threshold: int
    const metaCleanInterval: int
    var pending: seq<Task>

    ghost predicate Valid()
      reads this, mux
    {
      mux.Valid()
    }

    /** Absent options take their defaults: a generated id, threshold 1,
        sweep interval 5000 ms. An explicit 0 is kept. */
    constructor (opts: Options, generatedId: PeerId)
      ensures Valid() && fresh(mux)
      ensures mux.id == (if opts.id.Some? then opts.id.value else generatedId)
      ensures threshold == (if opts.threshold.Some? then opts.threshold.value else DefaultThreshold)
      ensures metaCleanInterval ==
                (if opts.metaCleanInterval.Some? then opts.metaCleanInterval.value else DefaultMetaCleanInterval)
      ensures mux.parts == map[JobListName := JobListPart(mux.id, [], []), MetaName := MetaPart(mux.id, map[], [])]
      ensures mux.Jobs() == [] && mux.Ledger() == map[] && mux.emitted == [] && mux.clock == 0
      ensures pending == []
    {
      mux := new MetaJobList(if opts.id.Some? then opts.id.value else generatedId);
      threshold := if opts.threshold.Some? then opts.threshold.value else DefaultThreshold;
      metaCleanInterval :=
        if opts.metaCleanInterval.Some? then opts.metaCleanInterval.value else DefaultMetaCleanInterval;
      pending := [];
    }

    /** The number of peers that acknowledged job `j`. */
    function GetNotifiedCount(j: JobId): (n: nat)
      reads this, mux
      requires Valid()
      ensures n == |Acknowledgers(mux.Ledger(), j)|
    {
      Count(mux.Ledger(), j)
    }

    /** Applies an incoming tagged update, unless it is a job-list update
        for a job that has reached the threshold. A ledger update that is
        applied is a ledger change and may queue a deletion. */
    method ApplyUpdate(u: Update) returns (outcome: Outcome)
      requires Valid()
      modifies this, mux
      ensures Valid()
      ensures (outcome, mux.parts) == Admit(old(mux.parts), threshold, u)
      ensures pending == old(pending) +
                (if outcome == Applied && ChangedEntry(u).Some?
                 then ChangeTasks(mux.Ledger(), threshold, ChangedEntry(u).value) else [])
      ensures mux.emitted == old(mux.emitted) && mux.clock == old(mux.clock)
    {
      match Unwrap(u)
      case Malformed =>
        return Rejected;
      case NotSliceable =>
        return Threw;
      case Split(name, inner) =>
        if name == Str(JobListName) {
          if inner.data.Null? {
            return Threw;
          }
          if NotifiedCount(mux.Ledger(), JobKey(inner.data)) >= threshold {
            // the update is stale: the job is already collected here
            return Suppressed;
          }
        }
        outcome := mux.ApplyUpdate(u);
        if outcome == Applied && name == Str(MetaName) && MetaKey(inner.data).Some? {
          OnMetaChanged(MetaKey(inner.data).value.0);
        }
    }

    /** The job list reports job `j` done with update `done`: queue the
        acknowledgment. */
    method OnJobDone(j: JobId, done: Update)
      modifies this`pending
      ensures pending == old(pending) + [Acknowledge(j, done)]
    {
      pending := pending + [Acknowledge(j, done)];
    }

    /** Ledger entry `j` changed: queue its deletion if it has reached the
        threshold. */
    method OnMetaChanged(j: JobId)
      requires Valid()
      modifies this`pending
      ensures pending == old(pending) + ChangeTasks(mux.Ledger(), threshold, j)
    {
      if GetNotifiedCount(j) >= threshold {
        pending := pending + [Collect(j)];
      }
    }

    /** `set(j, v)` on the ledger as a local change, followed by the
        ledger's change notification. */
    method SetMeta(j: JobId, v: Value, now: int)
      requires Valid()
      modifies this, mux
      ensures Valid()
      ensures mux.Ledger() == SetEntry(old(mux.Ledger()), j, v)
      ensures mux.Jobs() == old(mux.Jobs())
      ensures pending == old(pending) + ChangeTasks(mux.Ledger(), threshold, j)
      ensures old(mux.clock) < mux.clock && now <= mux.clock
      ensures mux.emitted == old(mux.emitted) + [LedgerWrite(j, v, mux.clock, mux.id)]
      ensures mux.parts == old(mux.parts)[MetaName := Take(old(mux.parts)[MetaName], LedgerUpdate(j, v, mux.clock, mux.id))]
    {
      var u := mux.LocalUpdate(MetaName, Arr([Str(j), v]), now);
      OnMetaChanged(j);
    }

    /** Runs the oldest deferred task. An acknowledgment adds exactly this
        replica's entry for the job (and may queue the deletion); a
        deletion removes the job from the job list. */
    method RunTask(now: int)
      requires Valid() && pending != []
      modifies this, mux
      ensures Valid()
      ensures old(pending[0]).Acknowledge? ==>
                && mux.Ledger() == SetEntry(old(mux.Ledger()), old(pending[0]).job,
                                            Obj(map[mux.id := ToValue(old(pending[0]).done)]))
                && mux.Jobs() == old(mux.Jobs())
                && pending == old(pending[1..]) + ChangeTasks(mux.Ledger(), threshold, old(pending[0]).job)
                && old(mux.clock) < mux.clock && now <= mux.clock
                && mux.emitted == old(mux.emitted) +
                     [LedgerWrite(old(pending[0]).job, Obj(map[mux.id := ToValue(old(pending[0]).done)]), mux.clock, mux.id)]
                && mux.parts == old(mux.parts)[MetaName := Take(old(mux.parts)[MetaName],
                     LedgerUpdate(old(pending[0]).job, Obj(map[mux.id := ToValue(old(pending[0]).done)]), mux.clock, mux.id))]
      ensures old(pending[0]).Collect? ==>
                && mux.parts == old(mux.parts)[JobListName :=
                     old(mux.parts[JobListName]).(jobs := RemoveJob(old(mux.Jobs()), old(pending[0]).job))]
                && mux.Jobs() == RemoveJob(old(mux.Jobs()), old(pending[0]).job)
                && mux.Ledger() == old(mux.Ledger())
                && pending == old(pending[1..])
                && mux.emitted == old(mux.emitted) && mux.clock == old(mux.clock)
    {
      var task := pending[0];
      pending := pending[1..];
      match task
      case Acknowledge(j, done) =>
        SetMeta(j, Obj(map[mux.id := ToValue(done)]), now);
      case Collect(j) =>
        mux.DeleteJob(j);
    }

    /** Midway through a sweep of `all` that has still to look at `keys`,
        begun with job list `jl0`, ledger log `log0` and emitted `e0`: the
        entries already looked at are swept, the job list is untouched, the
        ledger has logged one `null` write for each entry cleared so far,
        each with a fresh timestamp from a clock that read `clk0` at the
        start, and exactly those writes have been emitted, tagged. */
    ghost predicate Sweeping(all: Ledger, now: int, keys: set<JobId>, jl0: Part, log0: seq<Update>, e0: seq<Event>,
                             clk0: int)
      reads this, mux
    {
      && Valid()
      && keys <= all.Keys
      && mux.Ledger() == SweptBut(all, threshold, now, keys)
      && mux.parts[JobListName] == jl0
      && |log0| <= |mux.parts[MetaName].log| && mux.parts[MetaName].log[..|log0|] == log0
      && mux.emitted == e0 + Tagged(MetaName, mux.parts[MetaName].log[|log0|..])
      && NullWrites(mux.parts[MetaName].log[|log0|..], mux.id, all.Keys - SweptBut(all, threshold, now, keys).Keys)
      && clk0 <= mux.clock
      && Stamped(mux.parts[MetaName].log[|log0|..], clk0, mux.clock)
    }

    /** Clears entry `j`, found sweepable, during a sweep of `all` that has
        still to look at `keys`. */
    method ClearStale(ghost all: Ledger, now: int, ghost keys: set<JobId>, j: JobId,
                      ghost jl0: Part, ghost log0: seq<Update>, ghost e0: seq<Event>, ghost clk0: int)
      requires Sweeping(all, now, keys, jl0, log0, e0, clk0)
      requires j in keys && Sweepable(all[j], threshold, now)
      modifies this, mux
      ensures Sweeping(all, now, keys - {j}, jl0, log0, e0, clk0)
      ensures |old(pending)| <= |pending| && pending[..|old(pending)|] == old(pending)
      ensures threshold > 0 ==> pending == old(pending)
      ensures old(mux.clock) <= mux.clock
    {
      ghost var log := mux.parts[MetaName].log;
      ghost var clk := mux.clock;
      ghost var before := SweptBut(all, threshold, now, keys);
      SweepStep(all, threshold, now, keys, j);
      SetMeta(j, Null, now);
      SetEntryClears(before, j);
      PrefixKept(old(pending), ChangeTasks(mux.Ledger(), threshold, j), |old(pending)|);
      SweepLogged(all, threshold, now, keys, j, log0, log, e0, mux.id, clk0, clk, mux.clock);
      assert mux.Ledger() == SweptBut(all, threshold, now, keys - {j});
    }

    /** One tick of the periodic sweep: every entry at or over the threshold
        whose newest acknowledgment is more than the grace window old is
        cleared. Entries are looked at in no particular order. */
    method Cleanup(now: int)
      requires Valid()
      modifies this, mux
      ensures Valid()
      ensures mux.Ledger() == Swept(old(mux.Ledger()), threshold, now)
      ensures mux.Jobs() == old(mux.Jobs())
      ensures |old(pending)| <= |pending| && pending[..|old(pending)|] == old(pending)
      ensures threshold > 0 ==> pending == old(pending)
      ensures old(mux.clock) <= mux.clock
      ensures mux.parts[JobListName] == old(mux.parts[JobListName])
      ensures |old(mux.parts[MetaName].log)| <= |mux.parts[MetaName].log|
      ensures mux.parts[MetaName].log[..|old(mux.parts[MetaName].log)|] == old(mux.parts[MetaName].log)
      ensures mux.emitted == old(mux.emitted) + Tagged(MetaName, mux.parts[MetaName].log[|old(mux.parts[MetaName].log)|..])
      ensures NullWrites(mux.parts[MetaName].log[|old(mux.parts[MetaName].log)|..], mux.id,
                         old(mux.Ledger()).Keys - Swept(old(mux.Ledger()), threshold, now).Keys)
      ensures Stamped(mux.parts[MetaName].log[|old(mux.parts[MetaName].log)|..], old(mux.clock), mux.clock)
    {
      var all := mux.Ledger();
      var keys := all.Keys;
      ghost var jl0 := mux.parts[JobListName];
      ghost var log0 := mux.parts[MetaName].log;
      ghost var e0 := mux.emitted;
      ghost var clk0 := mux.clock;
      assert mux.Ledger() == SweptBut(all, threshold, now, keys);
      assert mux.parts[MetaName].log[|log0|..] == [];
      assert mux.emitted == e0 + Tagged(MetaName, []);
      while keys != {}
        invariant Sweeping(all, now, keys, jl0, log0, e0, clk0)
        invariant mux.Jobs() == old(mux.Jobs())
        invariant |old(pending)| <= |pending| && pending[..|old(pending)|] == old(pending)
        invariant threshold > 0 ==> pending == old(pending)
        invariant old(mux.clock) == clk0
        decreases keys
      {
        var j :| j in keys;
        var acks := all[j];
        SweepStep(all, threshold, now, keys, j);
        if |acks| >= threshold {
          var maxTs := NewestAck(acks);
          StaleIffNewestOld(acks, now, maxTs);
          if now - maxTs > GraceWindow {
            ClearStale(all, now, keys, j, jl0, log0, e0, clk0);
          }
        }
        keys := keys - {j};
      }
    }
  }

  /** An acknowledgment record `{peer: ack}` for job `j`, sent by `peer`
      at time `ts`, arrives at collector `c` over the wire. */
  method ReceiveAck(c: CappedJobList, j: JobId, peer: PeerId, ack: Value, ts: int) returns (o: Outcome)
    requires c.Valid()
    modifies c, c.mux
    ensures c.Valid()
    ensures o == Applied
    ensures c.mux.Ledger() == SetEntry(old(c.mux.Ledger()), j, Obj(map[peer := ack]))
    ensures c.mux.Jobs() == old(c.mux.Jobs())
    ensures c.pending == old(c.pending) + ChangeTasks(c.mux.Ledger(), c.threshold, j)
  {
    var inner := Update(Arr([Str(j), Obj(map[peer := ack])]), ts, peer, []);
    AckArrives(c.mux.parts, c.threshold, inner, j, map[peer := ack]);
    o := c.ApplyUpdate(Wrap(MetaName, inner));
  }

  /** Three acknowledgments of the same done update, one per peer, written
      into an empty ledger one after another. */
  lemma ThreeAcks(l1: Ledger, l2: Ledger, l3: Ledger, j: JobId, v: Value)
    requires l1 == SetEntry(map[], j, Obj(map["A" := v]))
    requires l2 == SetEntry(l1, j, Obj(map["B" := v]))
    requires l3 == SetEntry(l2, j, Obj(map["C" := v]))
    ensures Count(l1, j) == 1 && Count(l2, j) == 2 && Count(l3, j) == 3
    ensures Acknowledgers(l3, j) == {"A", "B", "C"}
    ensures j in l3 && forall p :: p in l3[j] ==> l3[j][p] == v
  {
    AddAck(map[], j, "A", v);
    AddAck(l1, j, "B", v);
    AddAck(l2, j, "C", v);
    SameRecord(map[], j, "A", v);
    SameRecord(l1, j, "B", v);
    SameRecord(l2, j, "C", v);
    DistinctCard("A", "B", "C");
  }

  lemma DistinctCard(a: PeerId, b: PeerId, c: PeerId)
    requires a != b && b != c && a != c
    ensures |{a}| == 1 && |{a} + {b}| == 2 && |{a} + {b} + {c}| == 3
    ensures {a} + {b} + {c} == {a, b, c}
  {
  }

  /** Peer `p` acknowledging job `j` with record `v` adds exactly `p` to
      the job's acknowledgers, stores `v` as `p`'s record, and keeps every
      other peer's record. */
  lemma AddAck(l: Ledger, j: JobId, p: PeerId, v: Value)
    ensures Acknowledgers(SetEntry(l, j, Obj(map[p := v])), j) == Acknowledgers(l, j) + {p}
    ensures j in SetEntry(l, j, Obj(map[p := v])) && SetEntry(l, j, Obj(map[p := v]))[j][p] == v
    ensures forall q :: q in Acknowledgers(l, j) && q != p ==> SetEntry(l, j, Obj(map[p := v]))[j][q] == l[j][q]
  {
    SetEntryMerges(l, j, map[p := v]);
  }

  /** When every record of an entry is `v`, adding one more record `v`
      keeps it so. */
  lemma SameRecord(l: Ledger, j: JobId, p: PeerId, v: Value)
    requires j in l ==> forall q :: q in l[j] ==> l[j][q] == v
    ensures j in SetEntry(l, j, Obj(map[p := v]))
    ensures forall q :: q in SetEntry(l, j, Obj(map[p := v]))[j] ==> SetEntry(l, j, Obj(map[p := v]))[j][q] == v
  {
    AddAck(l, j, p, v);
  }

  /** The ledger once peers A, B and C have each acknowledged job `j`
      with the same done record `v`. */
  ghost function AckedByAll(j: JobId, v: Value): Ledger
  {
    SetEntry(SetEntry(SetEntry(map[], j, Obj(map["A" := v])), j, Obj(map["B" := v])), j, Obj(map["C" := v]))
  }

  /** Three peers, threshold 3, seen from peer C: job `j` arrives from A,
      then the acknowledgments `v` of A and B arrive. Two of three is not
      enough: the job stays. */
  method ReceiveTwoAcks(j: JobId, v: Value) returns (c: CappedJobList)
    ensures fresh(c) && fresh(c.mux) && c.Valid()
    ensures c.threshold == 3 && c.mux.id == "C"
    ensures c.mux.Jobs() == [j]
    ensures c.mux.Ledger() == SetEntry(SetEntry(map[], j, Obj(map["A" := v])), j, Obj(map["B" := v]))
    ensures c.pending == []
  {
    c := new CappedJobList(Options(Some("C"), Some(3), None), "generated");
    var created := Update(Arr([Str(j), Str("META-1")]), 1, "A", []);
    JobArrives(c.mux.parts, c.threshold, created, j);
    var o := c.ApplyUpdate(Wrap(JobListName, created));
    assert c.mux.Jobs() == [j] && c.mux.Ledger() == map[];
    ghost var l1 := SetEntry(map[], j, Obj(map["A" := v]));
    ghost var l2 := SetEntry(l1, j, Obj(map["B" := v]));
    ThreeAcks(l1, l2, SetEntry(l2, j, Obj(map["C" := v])), j, v);
    o := ReceiveAck(c, j, "A", v, 3);
    assert c.mux.Ledger() == l1 && c.pending == [];
    o := ReceiveAck(c, j, "B", v, 4);
  }

  /** Continuing from above: C's job list reports the job done with
      `done`, and the deferred work runs. C's acknowledgment is the third,
      so the job is gone, while the ledger keeps all three acknowledgments. */
  method CollectWithThreePeers(j: JobId, done: Update) returns (c: CappedJobList)
    ensures fresh(c) && fresh(c.mux) && c.Valid()
    ensures c.threshold == 3
    ensures c.mux.Jobs() == []
    ensures c.mux.Ledger() == AckedByAll(j, ToValue(done))
    ensures Acknowledgers(c.mux.Ledger(), j) == {"A", "B", "C"}
    ensures c.pending == []
  {
    var v := ToValue(done);
    c := ReceiveTwoAcks(j, v);
    ghost var l1 := SetEntry(map[], j, Obj(map["A" := v]));
    ghost var l2 := SetEntry(l1, j, Obj(map["B" := v]));
    ghost var l3 := SetEntry(l2, j, Obj(map["C" := v]));
    ThreeAcks(l1, l2, l3, j, v);
    DoneHere(c, j, done, 10);
    assert c.mux.Ledger() == l3 && c.pending == [Collect(j)];
    c.RunTask(11);
  }

  /** Job `j` is done at collector `c`, which has nothing queued: the
      deferred acknowledgment runs and adds this replica's record. */
  method DoneHere(c: CappedJobList, j: JobId, done: Update, now: int)
    requires c.Valid() && c.pending == []
    modifies c, c.mux
    ensures c.Valid()
    ensures c.mux.Ledger() == SetEntry(old(c.mux.Ledger()), j, Obj(map[c.mux.id := ToValue(done)]))
    ensures c.mux.Jobs() == old(c.mux.Jobs())
    ensures c.pending == ChangeTasks(c.mux.Ledger(), c.threshold, j)
  {
    c.OnJobDone(j, done);
    c.RunTask(now);
  }

  /** After the collection above, a late duplicate of the done update is
      dropped, and a sweep long after the newest acknowledgment clears the
      entry. */
  method ThresholdScenario() returns (jobs: seq<JobId>, acks: set<PeerId>, late: Outcome, afterSweep: nat)
    ensures jobs == []
    ensures acks == {"A", "B", "C"}
    ensures late == Suppressed
    ensures afterSweep == 0
  {
    var done := Update(Arr([Str("job-1"), Str("DONE")]), 2, "A", []);
    assert JobKey(done.data) == Some("job-1");
    var c := CollectWithThreePeers("job-1", done);
    jobs := c.mux.Jobs();
    acks := Acknowledgers(c.mux.Ledger(), "job-1");
    ghost var l := c.mux.Ledger();
    ThreeAcks(SetEntry(map[], "job-1", Obj(map["A" := ToValue(done)])),
              SetEntry(SetEntry(map[], "job-1", Obj(map["A" := ToValue(done)])), "job-1", Obj(map["B" := ToValue(done)])),
              l, "job-1", ToValue(done));

    NoResurrection(c.mux.parts, c.threshold, done, "job-1");
    late := c.ApplyUpdate(Wrap(JobListName, done));

    assert Stale(l["job-1"], 5000);
    c.Cleanup(5000);
    SweepSafety(l, 3, 5000, "job-1");
    afterSweep := c.GetNotifiedCount("job-1");
  }
}
