/** The model multiplexer: one replicated object made of named sub-models.

    Every update a sub-model emits leaves tagged with the sub-model's name
    (its data becomes `[name, data]`); every update that arrives is
    untagged and handed to the sub-model it names. The merged history is the
    tagged histories of all sub-models in one (timestamp, source id) order.
    All sub-models carry the multiplexer's id and draw their timestamps from
    its one clock. */
module MetaJobLists {
  import opened Wire
  import opened Parts
  import opened HistoryOrder

  /** The registered sub-models, in registration order. */
  const PartNames: seq<string> := [JobListName, MetaName]

  /** A notification: a new update, or an update that became obsolete. */
  datatype Event = UpdateEvent(u: Update) | RemoveEvent(u: Update)

  /** How `applyUpdate` reads an incoming payload: not two elements, not
      something `slice` can be called on, or a name and the original update. */
  datatype Unwrapped = Malformed | NotSliceable | Split(name: Value, inner: Update)

  /** What an `applyUpdate` call comes to: it returned true (the update was
      applied, or was recognised as stale and dropped), returned false, or
      threw. */
  datatype Outcome = Applied | Suppressed | Rejected | Threw

  /** Tags an update with the name of the sub-model it comes from. */
  function Wrap(name: string, u: Update): (r: Update)
    ensures r.(data := u.data) == u
  {
    u.(data := Arr([Str(name), u.data]))
  }

  /** Splits an incoming payload into name and original data, as
      `data.slice()` followed by `value[0]`, `value[1]` does: a two-element
      array or a two-character string splits, any other array or string is
      malformed, and any other value has no `slice`. */
  function Unwrap(u: Update): (r: Unwrapped)
    ensures r.Malformed? <==> (u.data.Arr? && |u.data.items| != 2) || (u.data.Str? && |u.data.s| != 2)
    ensures r.NotSliceable? <==> !u.data.Arr? && !u.data.Str?
    ensures r.Split? ==> r.inner.(data := u.data) == u
  {
    match u.data
    case Arr(items) => if |items| == 2 then Split(items[0], u.(data := items[1])) else Malformed
    case Str(s) => if |s| == 2 then Split(Str([s[0]]), u.(data := Str([s[1]]))) else Malformed
    case _ => NotSliceable
  }

  /** Untagging a tagged update gives back the name and the update. */
  lemma UnwrapWrap(name: string, u: Update)
    ensures Unwrap(Wrap(name, u)) == Split(Str(name), u)
  {
  }

  /** For array payloads the two directions agree: an update splits into
      `name` and `inner` exactly when it is `inner` tagged with `name`. */
  lemma WrapUnwrap(u: Update, name: string, inner: Update)
    requires u.data.Arr?
    ensures Unwrap(u) == Split(Str(name), inner) <==> u == Wrap(name, inner)
  {
  }

  /** The outcome of `applyUpdate` and the sub-models afterwards. An update
      whose name is not a registered sub-model makes the lookup throw. */
  function Route(parts: map<string, Part>, u: Update): (r: (Outcome, map<string, Part>))
    ensures r.1.Keys == parts.Keys
    ensures r.0 != Applied ==> r.1 == parts
    ensures r.0 == Applied ==>
              Unwrap(u).Split? && forall n :: n in parts && r.1[n] != parts[n] ==> Unwrap(u).name == Str(n)
    ensures r.0 == Applied <==> Unwrap(u).Split? && Unwrap(u).name.Str? && Unwrap(u).name.s in parts
    ensures r.0 == Threw <==>
              Unwrap(u).NotSliceable? || (Unwrap(u).Split? && !(Unwrap(u).name.Str? && Unwrap(u).name.s in parts))
  {
    match Unwrap(u)
    case Malformed => (Rejected, parts)
    case NotSliceable => (Threw, parts)
    case Split(name, inner) =>
      if name.Str? && name.s in parts then (Applied, parts[name.s := Take(parts[name.s], inner)])
      else (Threw, parts)
  }

  /** An update tagged with a registered name reaches that sub-model, with
      its original data, and no other sub-model changes. */
  lemma RouteWrapped(parts: map<string, Part>, name: string, u: Update)
    requires name in parts
    ensures Route(parts, Wrap(name, u)) == (Applied, parts[name := Take(parts[name], u)])
  {
    UnwrapWrap(name, u);
  }

  /** `applyUpdate` returns false exactly for a payload that is not two long,
      and whenever it does not apply the update, every sub-model is as before. */
  lemma RouteRejects(parts: map<string, Part>, u: Update)
    ensures Route(parts, u).0 == Rejected <==>
              (u.data.Arr? && |u.data.items| != 2) || (u.data.Str? && |u.data.s| != 2)
    ensures Route(parts, u).0 != Applied ==> Route(parts, u).1 == parts
    ensures Route(parts, u).0 != Suppressed
  {
  }

  /** What the multiplexer re-emits when sub-model `name` notifies `ev`
      while `disabled` names the sub-model being fed from outside. */
  function RelayOutput(disabled: string, name: string, ev: Event): (r: seq<Event>)
    ensures |r| <= 1
    ensures r == [] <==> ev.UpdateEvent? && disabled == name
  {
    match ev
    case UpdateEvent(u) => if disabled == name then [] else [UpdateEvent(Wrap(name, u))]
    case RemoveEvent(u) => [RemoveEvent(Wrap(name, u))]
  }

  /** A sub-model's new update is relayed exactly when it is not the
      sub-model being fed; a removal is always relayed. What is relayed is
      the same kind of event, and untags to the name and the original update. */
  lemma RelayOutputSpec(disabled: string, name: string, ev: Event)
    ensures |RelayOutput(disabled, name, ev)| <= 1
    ensures RelayOutput(disabled, name, ev) != [] <==> ev.RemoveEvent? || disabled != name
    ensures RelayOutput(disabled, name, ev) != [] ==>
              RelayOutput(disabled, name, ev)[0].UpdateEvent? == ev.UpdateEvent? &&
              Unwrap(RelayOutput(disabled, name, ev)[0].u) == Split(Str(name), ev.u)
  {
  }

  /** Every update of `us`, tagged with `name`. */
  function WrapAll(name: string, us: seq<Update>): (r: seq<Update>)
    ensures |r| == |us|
    ensures forall i :: 0 <= i < |us| ==> Unwrap(r[i]) == Split(Str(name), us[i])
  {
    seq(|us|, i requires 0 <= i < |us| => Wrap(name, us[i]))
  }

  /** The notifications the multiplexer emits when sub-model `name` makes
      the local changes `us`, one after the other. */
  function Tagged(name: string, us: seq<Update>): (r: seq<Event>)
    ensures |r| == |us|
    ensures forall i :: 0 <= i < |us| ==> r[i].UpdateEvent? && Unwrap(r[i].u) == Split(Str(name), us[i])
  {
    seq(|us|, i requires 0 <= i < |us| => UpdateEvent(Wrap(name, us[i])))
  }

  /** One more local change adds one more tagged notification. */
  lemma TaggedSnoc(name: string, us: seq<Update>, u: Update)
    ensures Tagged(name, us + [u]) == Tagged(name, us) + [UpdateEvent(Wrap(name, u))]
  {
  }

  /** The tagged histories of the sub-models `names`, one after the other. */
  function Gathered(parts: map<string, Part>, names: seq<string>, sources: Sources): (r: seq<Update>)
    requires forall n :: n in names ==> n in parts
    ensures forall x :: x in r ==> Unwrap(x).Split? && Unwrap(x).name.Str? && Unwrap(x).name.s in names
  {
    if names == [] then []
    else
      var last := names[|names| - 1];
      Gathered(parts, names[..|names| - 1], sources) + WrapAll(last, PartHistory(parts[last], sources))
  }

  /** Gathering one more sub-model appends its tagged history. */
  lemma GatheredSnoc(parts: map<string, Part>, names: seq<string>, i: int, sources: Sources)
    requires forall n :: n in names ==> n in parts
    requires 0 <= i < |names|
    ensures Gathered(parts, names[..i + 1], sources) ==
              Gathered(parts, names[..i], sources) + WrapAll(names[i], PartHistory(parts[names[i]], sources))
  {
    assert names[..i + 1][..i] == names[..i];
  }

  /** The gathered history holds exactly the tagged items of the sub-models'
      histories. */
  lemma {:induction false} GatheredMembers(parts: map<string, Part>, names: seq<string>, sources: Sources, x: Update)
    requires forall n :: n in names ==> n in parts
    ensures x in Gathered(parts, names, sources) <==>
              exists n, y :: n in names && y in PartHistory(parts[n], sources) && x == Wrap(n, y)
  {
    if names != [] {
      var init, last := names[..|names| - 1], names[|names| - 1];
      assert names == init + [last];
      GatheredMembers(parts, init, sources, x);
      WrapAllMembers(last, PartHistory(parts[last], sources), x);
      if exists n, y :: n in names && y in PartHistory(parts[n], sources) && x == Wrap(n, y) {
        var n, y :| n in names && y in PartHistory(parts[n], sources) && x == Wrap(n, y);
        if n != last {
          assert n in init;
        }
      }
    }
  }

  /** The tagged items are exactly the tagged originals. */
  lemma WrapAllMembers(name: string, us: seq<Update>, x: Update)
    ensures x in WrapAll(name, us) <==> exists y :: y in us && x == Wrap(name, y)
  {
    if x in WrapAll(name, us) {
      var i :| 0 <= i < |us| && WrapAll(name, us)[i] == x;
      assert us[i] in us;
    }
    if exists y :: y in us && x == Wrap(name, y) {
      var y :| y in us && x == Wrap(name, y);
      var i :| 0 <= i < |us| && us[i] == y;
      assert WrapAll(name, us)[i] == x;
    }
  }

  /** The gathered history of both registered sub-models is as long as
      their two histories together. */
  lemma GatheredLength(parts: map<string, Part>, sources: Sources)
    requires JobListName in parts && MetaName in parts
    ensures |Gathered(parts, PartNames, sources)| ==
              |PartHistory(parts[JobListName], sources)| + |PartHistory(parts[MetaName], sources)|
  {
    var jobList := WrapAll(JobListName, PartHistory(parts[JobListName], sources));
    var meta := WrapAll(MetaName, PartHistory(parts[MetaName], sources));
    assert PartNames[..1] == [JobListName];
    assert [JobListName][..0] == [];
    assert Gathered(parts, [JobListName], sources) == Gathered(parts, [], sources) + jobList;
    assert Gathered(parts, PartNames, sources) == Gathered(parts, [JobListName], sources) + meta;
  }

  /** The merged history of a table holding both registered sub-models:
      its length is the sum of their history lengths, and it holds exactly
      their items, each tagged with its sub-model's name. */
  lemma MergedHistory(parts: map<string, Part>, sources: Sources, x: Update)
    requires JobListName in parts && MetaName in parts
    ensures |SortHistory(Gathered(parts, PartNames, sources))| ==
              |PartHistory(parts[JobListName], sources)| + |PartHistory(parts[MetaName], sources)|
    ensures x in SortHistory(Gathered(parts, PartNames, sources)) <==>
              exists n, y :: n in PartNames && y in PartHistory(parts[n], sources) && x == Wrap(n, y)
  {
    var g := Gathered(parts, PartNames, sources);
    SortHistoryKeeps(g, x);
    GatheredLength(parts, sources);
    GatheredMembers(parts, PartNames, sources, x);
  }

  /** `MergedHistory` for every item at once. */
  lemma MergedHistoryAll(parts: map<string, Part>, sources: Sources)
    requires JobListName in parts && MetaName in parts
    ensures |SortHistory(Gathered(parts, PartNames, sources))| ==
              |PartHistory(parts[JobListName], sources)| + |PartHistory(parts[MetaName], sources)|
    ensures forall x :: x in SortHistory(Gathered(parts, PartNames, sources)) <==>
              exists n, y :: n in PartNames && y in PartHistory(parts[n], sources) && x == Wrap(n, y)
  {
    forall x
      ensures x in SortHistory(Gathered(parts, PartNames, sources)) <==>
                exists n, y :: n in PartNames && y in PartHistory(parts[n], sources) && x == Wrap(n, y)
    {
      MergedHistory(parts, sources, x);
    }
    GatheredLength(parts, sources);
    SortHistoryKeeps(Gathered(parts, PartNames, sources), Update(Null, 0, "", []));
  }

  /** Pushes every update of `us`, tagged with `name`, onto `h`. */
  method PushTagged(h: seq<Update>, name: string, us: seq<Update>) returns (r: seq<Update>)
    ensures r == h + WrapAll(name, us)
  {
    r := h;
    var k := 0;
    while k < |us|
      invariant 0 <= k <= |us|
      invariant r == h + WrapAll(name, us[..k])
    {
      assert WrapAll(name, us[..k + 1]) == WrapAll(name, us[..k]) + [Wrap(name, us[k])];
      r := r + [Wrap(name, us[k])];
      k := k + 1;
    }
    assert us[..k] == us;
  }

  /** The multiplexer. `parts` is the table of sub-models; `disabledEmitter`
      names the sub-model an incoming update is being fed to (empty
      otherwise); `clock` is the shared per-replica clock; `emitted` is what
      the multiplexer has emitted as its own updates and removals. */
  class MetaJobList {
    const id: PeerId
    var disabledEmitter: string
    var parts: map<string, Part>
    var clock: int
    var emitted: seq<Event>

    /** Outside `ApplyUpdate` no sub-model is being fed; the table holds
        exactly the two registered sub-models, and both carry this
        multiplexer's id. */
    ghost predicate Valid()
      reads this
    {
      && disabledEmitter == ""
      && parts.Keys == {JobListName, MetaName}
      && parts[JobListName].JobListPart?
      && parts[MetaName].MetaPart?
      && (forall n :: n in parts ==> parts[n].id == id)
    }

    /** The job ids in the job list. */
    function Jobs(): seq<JobId>
      reads this
      requires Valid()
    {
      parts[JobListName].jobs
    }

    /** The acknowledgment ledger. */
    function Ledger(): Ledger
      reads this
      requires Valid()
    {
      parts[MetaName].ledger
    }

    constructor (id: PeerId)
      ensures Valid() && this.id == id
      ensures parts == map[JobListName := JobListPart(id, [], []), MetaName := MetaPart(id, map[], [])]
      ensures clock == 0 && emitted == []
    {
      this.id := id;
      disabledEmitter := "";
      parts := map[];
      clock := 0;
      emitted := [];
      new;
      // Each sub-model is created with an id of its own; registering it
      // replaces that with the multiplexer's id.
      Add(JobListName, JobListPart("", [], []));
      Add(MetaName, MetaPart("", map[], []));
    }

    /** Registers sub-model `p` under `name` and gives it this multiplexer's id. */
    method Add(name: string, p: Part)
      modifies this`parts
      ensures parts == old(parts)[name := p.(id := id)]
    {
      parts := parts[name := p.(id := id)];
    }

    /** The listener registered on each sub-model: it re-emits the
        sub-model's notification, tagged, unless it is a new update of the
        sub-model currently being fed from outside. */
    method Relay(name: string, ev: Event)
      modifies this`emitted
      ensures emitted == old(emitted) + RelayOutput(disabledEmitter, name, ev)
    {
      match ev
      case UpdateEvent(u) =>
        if disabledEmitter == name {
          return;
        }
        emitted := emitted + [UpdateEvent(Wrap(name, u))];
      case RemoveEvent(u) =>
        emitted := emitted + [RemoveEvent(Wrap(name, u))];
    }

    /** Feeds an incoming tagged update to the sub-model it names. While the
        sub-model takes it in, `disabledEmitter` holds the name, so the
        sub-model's own notification of it is not relayed back out; the
        field is cleared again on every path that gets past the split. */
    method ApplyUpdate(u: Update) returns (outcome: Outcome)
      requires Valid()
      modifies this
      ensures Valid()
      ensures (outcome, parts) == Route(old(parts), u)
      ensures emitted == old(emitted) && clock == old(clock)
    {
      match Unwrap(u)
      case Malformed =>
        return Rejected;
      case NotSliceable =>
        return Threw;
      case Split(name, inner) =>
        if name.Str? {
          disabledEmitter := name.s;
        }
        if !(name.Str? && name.s in parts) {
          // the lookup throws; the finally block clears the field
          disabledEmitter := "";
          return Threw;
        }
        parts := parts[name.s := Take(parts[name.s], inner)];
        Relay(name.s, UpdateEvent(inner));
        disabledEmitter := "";
        return Applied;
    }

    /** A sub-model makes a local change: the update carries this replica's
        id and the next reading of the shared clock, the sub-model takes it
        in, and the relay emits it tagged with the sub-model's name. */
    method LocalUpdate(name: string, data: Value, now: int) returns (u: Update)
      requires Valid() && name in parts
      modifies this
      ensures Valid()
      ensures u.data == data && u.sourceId == id && u.rest == []
      ensures old(clock) < u.timestamp && now <= u.timestamp && clock == u.timestamp
      ensures parts == old(parts)[name := Take(old(parts)[name], u)]
      ensures emitted == old(emitted) + [UpdateEvent(Wrap(name, u))]
    {
      var ts := if now > clock then now else clock + 1;
      clock := ts;
      u := Update(data, ts, id, []);
      parts := parts[name := Take(parts[name], u)];
      Relay(name, UpdateEvent(u));
    }

    /** `delete(j)`, handed to the job list. */
    method DeleteJob(j: JobId)
      requires Valid()
      modifies this`parts
      ensures Valid()
      ensures parts == old(parts)[JobListName := old(parts[JobListName]).(jobs := RemoveJob(old(Jobs()), j))]
      ensures Jobs() == RemoveJob(old(Jobs()), j)
      ensures Ledger() == old(Ledger())
    {
      parts := parts[JobListName := parts[JobListName].(jobs := RemoveJob(parts[JobListName].jobs, j))];
    }

    /** The merged history since `sources`: each sub-model's history tagged
        with its name, gathered in registration order, then sorted by
        timestamp and source id. */
    method History(sources: Sources) returns (h: seq<Update>)
      requires Valid()
      ensures h == SortHistory(Gathered(parts, PartNames, sources))
      ensures Sorted(h)
      ensures multiset(h) == multiset(Gathered(parts, PartNames, sources))
      ensures |h| == |PartHistory(parts[JobListName], sources)| + |PartHistory(parts[MetaName], sources)|
      ensures forall x :: x in h <==>
                exists n, y :: n in PartNames && y in PartHistory(parts[n], sources) && x == Wrap(n, y)
    {
      var gathered: seq<Update> := [];
      var i := 0;
      while i < |PartNames|
        invariant 0 <= i <= |PartNames|
        invariant gathered == Gathered(parts, PartNames[..i], sources)
      {
        var name := PartNames[i];
        gathered := PushTagged(gathered, name, PartHistory(parts[name], sources));
        GatheredSnoc(parts, PartNames, i, sources);
        i := i + 1;
      }
      assert PartNames[..i] == PartNames;
      h := SortHistory(gathered);
      MergedHistoryAll(parts, sources);
    }

    /** The snapshot: each registered name mapped to its sub-model's snapshot. */
    method ToJSON() returns (j: map<string, Value>)
      requires Valid()
      ensures j.Keys == {JobListName, MetaName}
      ensures j[JobListName] == Snapshot(parts[JobListName])
      ensures j[MetaName] == Snapshot(parts[MetaName])
    {
      j := map[];
      var i := 0;
      while i < |PartNames|
        invariant 0 <= i <= |PartNames|
        invariant j.Keys == set k | k in PartNames[..i]
        invariant forall k :: k in j ==> k in parts && j[k] == Snapshot(parts[k])
      {
        j := j[PartNames[i] := Snapshot(parts[PartNames[i]])];
        i := i + 1;
      }
      assert PartNames[..i] == PartNames;
    }
  }
}
