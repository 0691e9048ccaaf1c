/** The two sub-models the multiplexer owns: the job list and the
    acknowledgment ledger ("Meta").

    Both are external replicated objects; what is here is the part of their
    behaviour the multiplexer and the collector rely on. A sub-model keeps
    the log of updates it has taken in (its history is that log, filtered by
    a watermark vector) and a state derived from them: the job list the ids
    of the jobs it holds, the ledger a map job id -> (peer id -> the done
    update that peer saw). */
module Parts {
  import opened Wire

  const JobListName: string := "JobList"
  const MetaName: string := "Meta"

  type JobId = string
  type PeerId = string

  /** job id -> (peer id -> acknowledgment), as the merged model holds it. */
  type Ledger = map<JobId, map<PeerId, Value>>

  /** The peers that acknowledged job `j`. */
  function Acknowledgers(l: Ledger, j: JobId): set<PeerId>
  {
    if j in l then l[j].Keys else {}
  }

  /** The acknowledgment count of a job: the number of peer keys of its entry,
      0 when there is none. */
  function Count(l: Ledger, j: JobId): (n: nat)
    ensures n == |Acknowledgers(l, j)|
    ensures n == 0 <==> j !in l || l[j] == map[]
  {
    if j in l then |l[j]| else 0
  }

  /** `set(j, v)` on the merged model: an object value is merged into the
      entry peer by peer (its keys win), `null` clears the entry; other
      values leave the ledger as it is. */
  function SetEntry(l: Ledger, j: JobId, v: Value): (r: Ledger)
    ensures forall k :: k != j ==> (k in r <==> k in l) && (k in l ==> r[k] == l[k])
    ensures v.Null? ==> j !in r
    ensures v.Obj? ==> j in r && r[j].Keys == Acknowledgers(l, j) + v.fields.Keys
    ensures !v.Null? && !v.Obj? ==> r == l
  {
    match v
    case Null => l - {j}
    case Obj(acks) => l[j := (if j in l then l[j] else map[]) + acks]
    case _ => l
  }

  /** Writing an object only ever adds peers to an entry: the new
      acknowledgers are the old ones plus the keys written, and nothing
      else in the ledger changes. */
  lemma SetEntryMerges(l: Ledger, j: JobId, acks: map<PeerId, Value>)
    ensures Acknowledgers(SetEntry(l, j, Obj(acks)), j) == Acknowledgers(l, j) + acks.Keys
    ensures Count(l, j) <= Count(SetEntry(l, j, Obj(acks)), j)
    ensures forall k :: k != j ==> (k in SetEntry(l, j, Obj(acks)) <==> k in l)
    ensures forall k :: k != j && k in l ==> SetEntry(l, j, Obj(acks))[k] == l[k]
    ensures forall p :: p in Acknowledgers(l, j) && p !in acks ==>
              SetEntry(l, j, Obj(acks))[j][p] == l[j][p]
  {
    var r := SetEntry(l, j, Obj(acks));
    assert Acknowledgers(l, j) <= Acknowledgers(r, j);
    SubsetCard(Acknowledgers(l, j), Acknowledgers(r, j));
  }

  lemma {:induction false} SubsetCard<T>(a: set<T>, b: set<T>)
    requires a <= b
    ensures |a| <= |b|
  {
    if a != {} {
      var x :| x in a;
      SubsetCard(a - {x}, b - {x});
    }
  }

  /** Writing `null` clears the entry: the count drops to 0 and nothing else changes. */
  lemma SetEntryClears(l: Ledger, j: JobId)
    ensures Count(SetEntry(l, j, Null), j) == 0
    ensures forall k :: k != j ==> (k in SetEntry(l, j, Null) <==> k in l)
    ensures forall k :: k != j && k in l ==> SetEntry(l, j, Null)[k] == l[k]
  {
  }

  /** Writing the same value twice leaves the ledger as writing it once. */
  lemma SetEntryIdempotent(l: Ledger, j: JobId, v: Value)
    ensures SetEntry(SetEntry(l, j, v), j, v) == SetEntry(l, j, v)
  {
    if v.Obj? {
      var e := if j in l then l[j] else map[];
      assert (e + v.fields) + v.fields == e + v.fields;
    }
  }

  /** The key and value of a merged-model update, whose data is `[key, value]`. */
  function MetaKey(data: Value): (r: Option<(JobId, Value)>)
    ensures r.Some? <==> data.Arr? && |data.items| == 2 && data.items[0].Str?
  {
    if data.Arr? && |data.items| == 2 && data.items[0].Str? then
      Some((data.items[0].s, data.items[1]))
    else
      None
  }

  /** The ledger after the merged model takes in an update with this data. */
  function ApplyMeta(l: Ledger, data: Value): (r: Ledger)
    ensures MetaKey(data).None? ==> r == l
    ensures MetaKey(data).Some? ==>
              forall k :: k != MetaKey(data).value.0 ==> (k in r <==> k in l) && (k in l ==> r[k] == l[k])
  {
    match MetaKey(data)
    case None => l
    case Some((j, v)) => SetEntry(l, j, v)
  }

  /** `rawValue[0]` read as a job id: the first element of an array, the
      first character of a string, the "0" field of an object. Other values
      name no job. */
  function JobKey(raw: Value): (r: Option<JobId>)
    ensures r.Some? ==> raw.Arr? || raw.Str? || raw.Obj?
    ensures raw.Arr? ==> (r.Some? <==> |raw.items| > 0 && raw.items[0].Str?)
    ensures raw.Arr? && r.Some? ==> r.value == raw.items[0].s
    ensures raw.Str? ==> (r.Some? <==> |raw.s| > 0) && (r.Some? ==> r.value == [raw.s[0]])
    ensures raw.Obj? ==> (r.Some? <==> "0" in raw.fields && raw.fields["0"].Str?)
  {
    match raw
    case Arr(items) => if |items| > 0 && items[0].Str? then Some(items[0].s) else None
    case Str(s) => if |s| > 0 then Some([s[0]]) else None
    case Obj(fields) => if "0" in fields && fields["0"].Str? then Some(fields["0"].s) else None
    case _ => None
  }

  /** The job ids after an update naming `JobKey(data)` arrives: the job is
      present afterwards, appended when it was not there. */
  function ApplyJobList(jobs: seq<JobId>, data: Value): (r: seq<JobId>)
    ensures forall k :: k in r <==> k in jobs || JobKey(data) == Some(k)
    ensures |jobs| <= |r| && r[..|jobs|] == jobs
  {
    match JobKey(data)
    case None => jobs
    case Some(j) => if j in jobs then jobs else jobs + [j]
  }

  /** The job ids after `delete(j)`: every occurrence of `j` is gone, the
      rest keep their order. */
  function RemoveJob(jobs: seq<JobId>, j: JobId): (r: seq<JobId>)
    ensures forall k :: k in r <==> k in jobs && k != j
    ensures |r| <= |jobs|
    ensures j !in jobs ==> r == jobs
  {
    if jobs == [] then []
    else (if jobs[0] == j then [] else [jobs[0]]) + RemoveJob(jobs[1..], j)
  }

  /** Deletion keeps the order of the other jobs: deleting from two lists
      put together is deleting from each and putting the results together. */
  lemma {:induction false} RemoveJobAppend(a: seq<JobId>, b: seq<JobId>, j: JobId)
    ensures RemoveJob(a + b, j) == RemoveJob(a, j) + RemoveJob(b, j)
    decreases |a|
  {
    if a == [] {
      assert a + b == b;
    } else {
      var ab := a + b;
      assert ab[1..] == a[1..] + b;
      RemoveJobAppend(a[1..], b, j);
    }
  }

  /** A sub-model: its replica id, its log of taken-in updates, and its state. */
  datatype Part =
    | JobListPart(id: PeerId, jobs: seq<JobId>, log: seq<Update>)
    | MetaPart(id: PeerId, ledger: Ledger, log: seq<Update>)

  /** The sub-model after it takes in update `u` (its `_update`). */
  function Take(p: Part, u: Update): (r: Part)
    ensures r.id == p.id && r.JobListPart? == p.JobListPart?
    ensures r.log == p.log + [u]
  {
    match p
    case JobListPart(id, jobs, log) => JobListPart(id, ApplyJobList(jobs, u.data), log + [u])
    case MetaPart(id, ledger, log) => MetaPart(id, ApplyMeta(ledger, u.data), log + [u])
  }

  /** Taking in the same update twice leaves the job ids or the ledger as
      taking it in once; only the log records the repetition. */
  lemma TakeIdempotent(p: Part, u: Update)
    ensures Take(Take(p, u), u).(log := []) == Take(p, u).(log := [])
  {
    match MetaKey(u.data)
    case None =>
    case Some((j, v)) =>
      if p.MetaPart? {
        SetEntryIdempotent(p.ledger, j, v);
      }
  }

  /** `u` is news to a peer with watermark vector `sources`. */
  predicate Newer(u: Update, sources: Sources)
  {
    u.sourceId !in sources || sources[u.sourceId] < u.timestamp
  }

  /** The updates of `log` that are news to `sources`, in log order. */
  function NewerThan(log: seq<Update>, sources: Sources): (r: seq<Update>)
    ensures forall u :: u in r <==> u in log && Newer(u, sources)
    ensures |r| <= |log|
    ensures sources == map[] ==> r == log
  {
    if log == [] then []
    else (if Newer(log[0], sources) then [log[0]] else []) + NewerThan(log[1..], sources)
  }

  /** A sub-model's `history(sources)`. */
  function PartHistory(p: Part, sources: Sources): (r: seq<Update>)
    ensures forall u :: u in r <==> u in p.log && Newer(u, sources)
    ensures |r| <= |p.log|
    ensures sources == map[] ==> r == p.log
  {
    NewerThan(p.log, sources)
  }

  /** A sub-model's `toJSON()`: the job list as an array of ids, the ledger as
      an object of objects. */
  function Snapshot(p: Part): (r: Value)
    ensures p.JobListPart? ==> r.Arr? && |r.items| == |p.jobs| && forall i :: 0 <= i < |p.jobs| ==> r.items[i] == Str(p.jobs[i])
    ensures p.MetaPart? ==> r.Obj? && r.fields.Keys == p.ledger.Keys && forall j :: j in p.ledger ==> r.fields[j] == Obj(p.ledger[j])
  {
    match p
    case JobListPart(_, jobs, _) => Arr(seq(|jobs|, i requires 0 <= i < |jobs| => Str(jobs[i])))
    case MetaPart(_, ledger, _) => Obj(map j | j in ledger :: Obj(ledger[j]))
  }
}
