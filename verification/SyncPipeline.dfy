/** The whole mirroring pipeline: cluster, bounded queue, buffer, request in flight, remote store, resync. */
module SyncPipeline {
  import opened Basics
  import opened ResourceSync
  import DebounceBuffer

  const QUEUE_CAPACITY := 10000

  /**
    `inFlight` is the batch of the request being sent, empty when there is none, and `landed` the part
    of it that the server has applied. `stale` is the set of resources that only a later event or a
    resync repairs: their event was dropped on a full or closed queue, or an earlier process left them.
   */
  datatype Pipeline = Pipeline(cluster: map<Identity, Object>, queue: seq<Change>, closed: bool, buffer: Batch,
                               inFlight: Batch, landed: set<string>, remote: Remote, stale: set<string>)

  datatype Step =
    | Notify(notice: Notice, now: Time)
    | Dequeue
    | Take
    | Apply(keys: set<string>)
    | Succeed
    | Fail
    | CloseQueue
    | Resync(now: Time, snapshot: Remote)
    | ResyncPart(now: Time, snapshot: Remote, after: Remote)

  predicate IsCrd(id: Identity) {
    id.apiVersion == "apiextensions.k8s.io/v1" && id.kind == "CustomResourceDefinition"
  }

  // ---------------------------------------------------------------- steps

  function ClusterAfter(cluster: map<Identity, Object>, notice: Notice): map<Identity, Object> {
    match notice
    case Added(obj) => cluster[obj.id := obj]
    case Updated(_, after) => cluster[after.id := after]
    case Deleted(obj) => cluster - {obj.id}
    case Foreign => cluster
  }

  /** Queues a change without blocking; on a full or closed queue it is dropped. A change carries the whole state. */
  function TrySend(s: Pipeline, c: Change): Pipeline {
    if s.closed || |s.queue| >= QUEUE_CAPACITY then s.(stale := s.stale + {c.id})
    else s.(queue := s.queue + [c], stale := s.stale - {c.id})
  }

  function Notified(s: Pipeline, notice: Notice, now: Time): Pipeline {
    var seen := s.(cluster := ClusterAfter(s.cluster, notice));
    match Handled(notice, now)
    case Some(c) => TrySend(seen, c)
    case None => seen
  }

  function Next(s: Pipeline, step: Step): Pipeline {
    match step
    case Notify(notice, now) => Notified(s, notice, now)
    case Dequeue =>
      if |s.queue| == 0 then s
      else s.(queue := s.queue[1..], buffer := DebounceBuffer.Recording(s.buffer, Some(s.queue[0])))
    case Take =>
      if s.inFlight != map[] then s else s.(buffer := map[], inFlight := DebounceBuffer.Sendable(s.buffer), landed := {})
    case Apply(keys) => s.(remote := Overlay(s.remote, PartOf(s.inFlight, keys)), landed := s.landed + keys * s.inFlight.Keys)
    case Succeed => s.(inFlight := map[], landed := {})
    case Fail => s.(buffer := Requeued(s.buffer, s.inFlight), inFlight := map[], landed := {})
    case CloseQueue => s.(closed := true)
    case Resync(_, snapshot) => if snapshot == map[] then s else Resynced(s, snapshot)
    case ResyncPart(_, _, after) => s.(remote := after)
  }

  /** The server replaces its store; what is on its way may still overwrite the snapshot. */
  function Resynced(s: Pipeline, snapshot: Remote): Pipeline {
    s.(remote := snapshot, stale := s.stale * Pending(s))
  }

  function PartOf(batch: Batch, keys: set<string>): Batch {
    map key | key in batch && key in keys :: batch[key]
  }

  /** The resources with a change still on its way. */
  function Pending(s: Pipeline): set<string> {
    s.inFlight.Keys + s.buffer.Keys + set i | 0 <= i < |s.queue| :: s.queue[i].id
  }

  /** A resync carries the data of exactly the cluster's objects other than CRDs. */
  ghost predicate IsSnapshot(cluster: map<Identity, Object>, now: Time, snapshot: Remote) {
    && (forall id | id in cluster && !IsCrd(id) ::
          ResourceId(id) in snapshot && snapshot[ResourceId(id)] == ExtractResourceData(cluster[id], now))
    && (forall key | key in snapshot :: exists id :: id in cluster && !IsCrd(id) && ResourceId(id) == key)
  }

  /** Informers report an update against the object they last reported. */
  predicate PossibleNotice(cluster: map<Identity, Object>, notice: Notice) {
    match notice
    case Added(obj) => ValidIdentity(obj.id)
    case Updated(before, after) =>
      ValidIdentity(after.id) && before.id == after.id && after.id in cluster && cluster[after.id].labels == before.labels
    case Deleted(obj) => ValidIdentity(obj.id)
    case Foreign => true
  }

  /** The informers and the server are allowed to take the step. */
  ghost predicate Possible(s: Pipeline, step: Step) {
    match step
    case Notify(notice, _) => PossibleNotice(s.cluster, notice)
    case Succeed => s.inFlight.Keys <= s.landed
    case Resync(now, snapshot) => IsSnapshot(s.cluster, now, snapshot)
    case ResyncPart(now, snapshot, after) => IsSnapshot(s.cluster, now, snapshot) && Between(s.remote, snapshot, after)
    case _ => true
  }

  // ---------------------------------------------------------------- the invariant

  /** The remote store once everything on its way has arrived. */
  function Eventual(s: Pipeline): Remote {
    Replay(Delivered(s), s.queue)
  }

  /** The remote store once the request in flight and the buffer have arrived. */
  function Delivered(s: Pipeline): Remote {
    Overlay(Overlay(s.remote, s.inFlight), s.buffer)
  }

  function LabelsAt(store: Remote, key: string): Option<Labels> {
    if key in store then Some(store[key].labels) else None
  }

  function ClusterLabels(cluster: map<Identity, Object>, id: Identity): Option<Labels> {
    if id in cluster then Some(match cluster[id].labels case Some(labels) => labels case None => map[]) else None
  }

  ghost predicate WellFormedState(s: Pipeline) {
    && (forall id | id in s.cluster :: s.cluster[id].id == id && ValidIdentity(id))
    && (forall i | 0 <= i < |s.queue| :: WellFormed(s.queue[i]) && s.queue[i].id != "")
    && WellFormedBatch(s.buffer) && WellFormedBatch(s.inFlight)
  }

  predicate ConvergedAt(s: Pipeline, id: Identity) {
    ValidIdentity(id) && !IsCrd(id) && ResourceId(id) !in s.stale ==>
      LabelsAt(Eventual(s), ResourceId(id)) == ClusterLabels(s.cluster, id)
  }

  /** Every resource that is not stale will be mirrored with its cluster labels. */
  ghost predicate Converged(s: Pipeline) {
    WellFormedState(s) && forall id :: ConvergedAt(s, id)
  }

  /** What has landed counts as acknowledged. */
  function Acknowledged(s: Pipeline): Pipeline {
    s.(inFlight := s.inFlight - s.landed, landed := {})
  }

  /** The pipeline converges whether what has landed is applied once more or is acknowledged now. */
  ghost predicate Consistent(s: Pipeline) {
    Converged(s) && Converged(Acknowledged(s))
  }

  // ---------------------------------------------------------------- replay lemmas

  lemma {:induction false} ReplayHead(remote: Remote, changes: seq<Change>)
    requires |changes| > 0
    ensures Replay(remote, changes) == Replay(ApplyOne(remote, changes[0]), changes[1..])
  {
    if |changes| > 1 {
      var front := changes[..|changes| - 1];
      ReplayHead(remote, front);
      assert front[1..] == changes[1..][..|changes| - 2];
    } else {
      assert changes[..0] == [];
    }
  }

  /** Some of the changes concerns the key. */
  predicate Touched(changes: seq<Change>, key: string) {
    |changes| > 0 && (changes[|changes| - 1].id == key || Touched(changes[..|changes| - 1], key))
  }

  lemma {:induction false} TouchedIsQueued(changes: seq<Change>, key: string)
    ensures Touched(changes, key) <==> exists i :: 0 <= i < |changes| && changes[i].id == key
  {
    if |changes| > 0 {
      TouchedIsQueued(changes[..|changes| - 1], key);
    }
  }

  /** The last change of a key decides it; without one the key is as before. */
  lemma {:induction false} ReplayAt(a: Remote, b: Remote, changes: seq<Change>, key: string)
    requires forall i | 0 <= i < |changes| :: WellFormed(changes[i])
    ensures if Touched(changes, key) then ResourceSync.SameAt(Replay(a, changes), Replay(b, changes), key)
            else ResourceSync.SameAt(Replay(a, changes), a, key)
  {
    if |changes| > 0 {
      var last := |changes| - 1;
      ReplayAt(a, b, changes[..last], key);
      AppliedAt(Replay(a, changes[..last]), Replay(b, changes[..last]), changes[last], key);
    }
  }

  lemma AppliedAt(a: Remote, b: Remote, c: Change, key: string)
    requires WellFormed(c)
    ensures if c.id == key then ResourceSync.SameAt(ApplyOne(a, c), ApplyOne(b, c), key)
            else ResourceSync.SameAt(ApplyOne(a, c), a, key) && ResourceSync.SameAt(ApplyOne(b, c), b, key)
  {
  }

  /** A change that is queued decides its own key and no other; a dropped one leaves its key stale. */
  lemma SendReaches(s: Pipeline, c: Change, key: string)
    requires WellFormed(c)
    ensures var after := TrySend(s, c);
            key !in after.stale ==> (
              && (key == c.id || key !in s.stale)
              && LabelsAt(Eventual(after), key) == if key == c.id then CarriedLabels(c) else LabelsAt(Eventual(s), key))
  {
    if !s.closed && |s.queue| < QUEUE_CAPACITY {
      ReplayOneMore(Delivered(s), s.queue, c);
      AppliedLabels(Eventual(s), c, key);
    }
  }

  lemma ReplayOneMore(store: Remote, changes: seq<Change>, c: Change)
    ensures Replay(store, changes + [c]) == ApplyOne(Replay(store, changes), c)
  {
    assert (changes + [c])[..|changes|] == changes;
  }

  lemma AppliedLabels(store: Remote, c: Change, key: string)
    requires WellFormed(c)
    ensures LabelsAt(ApplyOne(store, c), key) == if key == c.id then CarriedLabels(c) else LabelsAt(store, key)
  {
  }

  function CarriedLabels(c: Change): Option<Labels>
    requires WellFormed(c)
  {
    if c.action.Upsert? then Some(c.data.value.labels) else None
  }

  /** The labels of one object after a notice, as far as the notice's change tells them. */
  lemma NoticeLabels(cluster: map<Identity, Object>, notice: Notice, now: Time, id: Identity)
    requires ValidIdentity(id) && PossibleNotice(cluster, notice)
    ensures match Handled(notice, now)
            case None => ClusterLabels(ClusterAfter(cluster, notice), id) == ClusterLabels(cluster, id)
            case Some(c) =>
              WellFormed(c) && ClusterLabels(ClusterAfter(cluster, notice), id) ==
                if ResourceId(id) == c.id then CarriedLabels(c) else ClusterLabels(cluster, id)
  {
    if Handled(notice, now).Some? {
      HandledWellFormed(notice, now);
      var target := if notice.Updated? then notice.after.id else notice.obj.id;
      if ResourceId(id) == ResourceId(target) {
        ResourceIdInjective(id, target);
      }
    }
  }

  lemma ReplayLocal(a: Remote, b: Remote, changes: seq<Change>, key: string)
    requires forall i | 0 <= i < |changes| :: WellFormed(changes[i])
    requires ResourceSync.SameAt(a, b, key)
    ensures ResourceSync.SameAt(Replay(a, changes), Replay(b, changes), key)
  {
    ReplayAt(a, b, changes, key);
    ReplayAt(b, a, changes, key);
  }

  // ---------------------------------------------------------------- one step at a time

  lemma SendKeepsWellFormed(s: Pipeline, c: Change)
    requires WellFormedState(s) && WellFormed(c) && c.id != ""
    ensures WellFormedState(TrySend(s, c))
  {
  }

  lemma NotifyKeepsWellFormed(s: Pipeline, notice: Notice, now: Time)
    requires WellFormedState(s) && PossibleNotice(s.cluster, notice)
    ensures WellFormedState(Notified(s, notice, now))
  {
    var seen := s.(cluster := ClusterAfter(s.cluster, notice));
    assert WellFormedState(seen);
    var change := Handled(notice, now);
    if change.Some? {
      HandledWellFormed(notice, now);
      SendKeepsWellFormed(seen, change.value);
    }
  }

  /** A queued notice changes the eventual labels as it changes the cluster. */
  lemma NoticeReaches(s: Pipeline, notice: Notice, now: Time, id: Identity)
    requires PossibleNotice(s.cluster, notice) && ConvergedAt(s, id)
    ensures ConvergedAt(Notified(s, notice, now), id)
  {
    if ValidIdentity(id) && !IsCrd(id) {
      NoticeLabels(s.cluster, notice, now, id);
      var seen := s.(cluster := ClusterAfter(s.cluster, notice));
      assert Eventual(seen) == Eventual(s);
      if Handled(notice, now).Some? {
        SendReaches(seen, Handled(notice, now).value, ResourceId(id));
      }
    }
  }

  lemma NotifyKeepsConverged(s: Pipeline, notice: Notice, now: Time)
    requires Converged(s) && PossibleNotice(s.cluster, notice)
    ensures Converged(Notified(s, notice, now))
  {
    NotifyKeepsWellFormed(s, notice, now);
    forall id
      ensures ConvergedAt(Notified(s, notice, now), id)
    {
      assert ConvergedAt(s, id);
      NoticeReaches(s, notice, now, id);
    }
  }

  lemma DequeueKeepsEventual(s: Pipeline)
    requires WellFormedState(s)
    ensures Eventual(Next(s, Dequeue)) == Eventual(s) && WellFormedState(Next(s, Dequeue))
  {
    if |s.queue| > 0 {
      OverlayRecord(Overlay(s.remote, s.inFlight), s.buffer, s.queue[0]);
      ReplayHead(Delivered(s), s.queue);
    }
  }

  lemma EmptyOverlay(remote: Remote)
    ensures Overlay(remote, map[]) == remote
  {
  }

  lemma TakeKeepsDelivered(s: Pipeline)
    requires WellFormedBatch(s.buffer)
    ensures Delivered(Next(s, Take)) == Delivered(s)
  {
    if s.inFlight == map[] {
      DebounceBuffer.WellFormedIsSendable(s.buffer);
      EmptyOverlay(s.remote);
      EmptyOverlay(Overlay(s.remote, s.buffer));
    }
  }

  lemma ApplyKeepsDelivered(s: Pipeline, keys: set<string>)
    ensures Delivered(Next(s, Apply(keys))) == Delivered(s)
  {
    var after := Overlay(s.remote, PartOf(s.inFlight, keys));
    forall key
      ensures ResourceSync.SameAt(after, s.remote, key) || ResourceSync.SameAt(after, Overlay(s.remote, s.inFlight), key)
    {
    }
    OverlayAbsorbs(s.remote, s.inFlight, after);
  }

  lemma FailKeepsDelivered(s: Pipeline)
    ensures Delivered(Next(s, Fail)) == Delivered(s)
  {
    OverlayRequeue(s.remote, s.inFlight, s.buffer);
    EmptyOverlay(s.remote);
  }

  lemma MovingKeepsWellFormed(s: Pipeline, step: Step)
    requires WellFormedState(s) && !step.Notify? && !step.Dequeue?
    ensures WellFormedState(Next(s, step))
  {
  }

  /** Moving changes along the pipeline leaves the eventual store as it is. */
  lemma MovingKeepsEventual(s: Pipeline, step: Step)
    requires WellFormedState(s) && Possible(s, step)
    requires !step.Notify? && !step.Succeed? && !step.Resync? && !step.ResyncPart?
    ensures Eventual(Next(s, step)) == Eventual(s) && WellFormedState(Next(s, step))
  {
    if step.Dequeue? {
      DequeueKeepsEventual(s);
    } else {
      MovingKeepsWellFormed(s, step);
      match step {
        case Take => TakeKeepsDelivered(s);
        case Apply(keys) => ApplyKeepsDelivered(s, keys);
        case Fail => FailKeepsDelivered(s);
        case CloseQueue =>
      }
      assert Delivered(Next(s, step)) == Delivered(s);
    }
  }

  /** Replacing the remote store shows only where nothing is on its way. */
  lemma ReplacementShows(s: Pipeline, remote: Remote, key: string)
    requires WellFormedState(s)
    ensures var after := s.(remote := remote);
            if key in Pending(s) then ResourceSync.SameAt(Eventual(after), Eventual(s), key)
            else ResourceSync.SameAt(Eventual(after), remote, key) && ResourceSync.SameAt(Eventual(s), s.remote, key)
  {
    TouchedIsQueued(s.queue, key);
    ReplayAt(Delivered(s.(remote := remote)), Delivered(s), s.queue, key);
    ReplayAt(Delivered(s), Delivered(s), s.queue, key);
  }

  lemma SnapshotLabels(cluster: map<Identity, Object>, now: Time, snapshot: Remote, id: Identity)
    requires IsSnapshot(cluster, now, snapshot) && ValidIdentity(id) && !IsCrd(id)
    requires forall other | other in cluster :: ValidIdentity(other)
    ensures LabelsAt(snapshot, ResourceId(id)) == ClusterLabels(cluster, id)
  {
    if ResourceId(id) in snapshot {
      var other :| other in cluster && !IsCrd(other) && ResourceId(other) == ResourceId(id);
      ResourceIdInjective(id, other);
    }
  }

  /** After a resync a key that is not stale has its eventual value of before or its snapshot value. */
  lemma ResyncShows(s: Pipeline, snapshot: Remote, key: string)
    requires WellFormedState(s) && key !in Resynced(s, snapshot).stale
    ensures var after := Resynced(s, snapshot);
            || ResourceSync.SameAt(Eventual(after), snapshot, key)
            || (key !in s.stale && ResourceSync.SameAt(Eventual(after), Eventual(s), key))
  {
    var replaced := s.(remote := snapshot);
    ReplacementShows(s, snapshot, key);
    assert Delivered(Resynced(s, snapshot)) == Delivered(replaced);
  }

  lemma ResyncKeepsAt(s: Pipeline, now: Time, snapshot: Remote, id: Identity)
    requires WellFormedState(s) && ConvergedAt(s, id) && IsSnapshot(s.cluster, now, snapshot)
    ensures ConvergedAt(Next(s, Resync(now, snapshot)), id)
  {
    if snapshot != map[] && ValidIdentity(id) && !IsCrd(id) && ResourceId(id) !in Resynced(s, snapshot).stale {
      SnapshotLabels(s.cluster, now, snapshot, id);
      ResyncShows(s, snapshot, ResourceId(id));
    }
  }

  lemma ResyncKeepsConverged(s: Pipeline, now: Time, snapshot: Remote)
    requires Converged(s) && IsSnapshot(s.cluster, now, snapshot)
    ensures Converged(Next(s, Resync(now, snapshot)))
  {
    forall id
      ensures ConvergedAt(Next(s, Resync(now, snapshot)), id)
    {
      assert ConvergedAt(s, id);
      ResyncKeepsAt(s, now, snapshot, id);
    }
  }

  lemma PartialResyncKeepsConverged(s: Pipeline, now: Time, snapshot: Remote, remote: Remote)
    requires Converged(s) && IsSnapshot(s.cluster, now, snapshot) && Between(s.remote, snapshot, remote)
    ensures Converged(s.(remote := remote))
  {
    forall id
      ensures ConvergedAt(s.(remote := remote), id)
    {
      assert ConvergedAt(s, id);
      if ValidIdentity(id) && !IsCrd(id) {
        var key := ResourceId(id);
        SnapshotLabels(s.cluster, now, snapshot, id);
        ReplacementShows(s, remote, key);
        assert ResourceSync.SameAt(remote, s.remote, key) || ResourceSync.SameAt(remote, snapshot, key);
      }
    }
  }

  lemma MovingKeepsConverged(s: Pipeline, step: Step)
    requires Converged(s) && Possible(s, step)
    requires !step.Notify? && !step.Succeed? && !step.Resync? && !step.ResyncPart?
    ensures Converged(Next(s, step))
  {
    MovingKeepsEventual(s, step);
    forall id
      ensures ConvergedAt(Next(s, step), id)
    {
      assert ConvergedAt(s, id);
    }
  }

  // ---------------------------------------------------------------- acknowledgements

  lemma NothingLanded(s: Pipeline)
    requires s.landed == {}
    ensures Acknowledged(s) == s
  {
    assert s.inFlight - {} == s.inFlight;
  }

  lemma AllLanded(s: Pipeline)
    requires s.inFlight.Keys <= s.landed
    ensures Acknowledged(s) == s.(inFlight := map[], landed := {})
  {
    assert s.inFlight - s.landed == map[];
  }

  /** A step that does not touch the request in flight does the same to the acknowledged pipeline. */
  lemma StepBeforeAcknowledging(s: Pipeline, step: Step)
    requires step.Dequeue? || step.CloseQueue? || step.ResyncPart?
    ensures Acknowledged(Next(s, step)) == Next(Acknowledged(s), step)
  {
  }

  lemma SendBeforeAcknowledging(s: Pipeline, c: Change)
    ensures Acknowledged(TrySend(s, c)) == TrySend(Acknowledged(s), c)
  {
  }

  lemma NotifyBeforeAcknowledging(s: Pipeline, notice: Notice, now: Time)
    ensures Acknowledged(Notified(s, notice, now)) == Notified(Acknowledged(s), notice, now)
  {
    if Handled(notice, now).Some? {
      SendBeforeAcknowledging(s.(cluster := ClusterAfter(s.cluster, notice)), Handled(notice, now).value);
    }
  }

  lemma ResyncBeforeAcknowledging(s: Pipeline, now: Time, snapshot: Remote)
    ensures var after, acknowledged := Next(s, Resync(now, snapshot)), Next(Acknowledged(s), Resync(now, snapshot));
            acknowledged.stale <= after.stale && Acknowledged(after) == acknowledged.(stale := after.stale)
  {
    assert Pending(Acknowledged(s)) <= Pending(s);
  }

  /** A key applied just now holds what was in flight; the others are as they were. */
  lemma ApplyShows(s: Pipeline, keys: set<string>, key: string)
    ensures var after := Delivered(Acknowledged(Next(s, Apply(keys))));
            ResourceSync.SameAt(after, if key in keys && key in s.inFlight then Delivered(s) else Delivered(Acknowledged(s)), key)
  {
  }

  lemma ApplyKeepsConsistent(s: Pipeline, keys: set<string>)
    requires Consistent(s)
    ensures Consistent(Next(s, Apply(keys)))
  {
    MovingKeepsConverged(s, Apply(keys));
    var after := Acknowledged(Next(s, Apply(keys)));
    forall id
      ensures ConvergedAt(after, id)
    {
      assert ConvergedAt(s, id) && ConvergedAt(Acknowledged(s), id);
      var key := ResourceId(id);
      ApplyShows(s, keys, key);
      ReplayLocal(Delivered(after), if key in keys && key in s.inFlight then Delivered(s) else Delivered(Acknowledged(s)), s.queue, key);
    }
  }

  lemma MoreStale(s: Pipeline, stale: set<string>)
    requires Converged(s) && s.stale <= stale
    ensures Converged(s.(stale := stale))
  {
    forall id
      ensures ConvergedAt(s.(stale := stale), id)
    {
      assert ConvergedAt(s, id) && Eventual(s.(stale := stale)) == Eventual(s);
    }
  }

  lemma ResyncKeepsConsistent(s: Pipeline, now: Time, snapshot: Remote)
    requires Consistent(s) && IsSnapshot(s.cluster, now, snapshot)
    ensures Consistent(Next(s, Resync(now, snapshot)))
  {
    ResyncKeepsConverged(s, now, snapshot);
    ResyncKeepsConverged(Acknowledged(s), now, snapshot);
    var after, acknowledged := Next(s, Resync(now, snapshot)), Next(Acknowledged(s), Resync(now, snapshot));
    ResyncBeforeAcknowledging(s, now, snapshot);
    MoreStale(acknowledged, after.stale);
  }

  lemma StepKeepsConsistent(s: Pipeline, step: Step)
    requires Consistent(s) && Possible(s, step)
    ensures Consistent(Next(s, step))
  {
    match step
    case Apply(keys) => ApplyKeepsConsistent(s, keys);
    case Resync(now, snapshot) => ResyncKeepsConsistent(s, now, snapshot);
    case Succeed =>
      AllLanded(s);
      NothingLanded(Next(s, step));
    case Take =>
      MovingKeepsConverged(s, step);
      if s.inFlight == map[] {
        NothingLanded(Next(s, step));
      }
    case Fail =>
      MovingKeepsConverged(s, step);
      NothingLanded(Next(s, step));
    case Notify(notice, now) =>
      NotifyBeforeAcknowledging(s, notice, now);
      NotifyKeepsConverged(s, notice, now);
      NotifyKeepsConverged(Acknowledged(s), notice, now);
    case ResyncPart(now, snapshot, after) =>
      StepBeforeAcknowledging(s, step);
      PartialResyncKeepsConverged(s, now, snapshot, after);
      PartialResyncKeepsConverged(Acknowledged(s), now, snapshot, after);
    case _ =>
      StepBeforeAcknowledging(s, step);
      MovingKeepsConverged(s, step);
      MovingKeepsConverged(Acknowledged(s), step);
  }

  // ---------------------------------------------------------------- whole runs

  function Run(s: Pipeline, steps: seq<Step>): Pipeline
    decreases |steps|
  {
    if |steps| == 0 then s else Run(Next(s, steps[0]), steps[1..])
  }

  ghost predicate PossibleRun(s: Pipeline, steps: seq<Step>)
    decreases |steps|
  {
    |steps| == 0 || (Possible(s, steps[0]) && PossibleRun(Next(s, steps[0]), steps[1..]))
  }

  /** A process that starts on what an earlier one left in the remote store: all of that counts as stale. */
  function Started(remote: Remote): Pipeline {
    Pipeline(map[], [], false, map[], map[], {}, remote, remote.Keys)
  }

  lemma StartedConsistent(remote: Remote)
    ensures Consistent(Started(remote))
  {
    NothingLanded(Started(remote));
    EmptyOverlay(remote);
    forall id
      ensures ConvergedAt(Started(remote), id)
    {
      assert Eventual(Started(remote)) == remote;
    }
  }

  /** Rightly so: until an event or a resync, nothing left behind agrees with the cluster as this process knows it. */
  lemma LeftoverIsStale(remote: Remote, id: Identity)
    requires ResourceId(id) in remote
    ensures LabelsAt(Eventual(Started(remote)), ResourceId(id)) != ClusterLabels(Started(remote).cluster, id)
    ensures ResourceId(id) in Started(remote).stale
  {
    EmptyOverlay(remote);
    assert Eventual(Started(remote)) == remote;
  }

  lemma {:induction false} RunKeepsConsistent(s: Pipeline, steps: seq<Step>)
    requires Consistent(s) && PossibleRun(s, steps)
    ensures Consistent(Run(s, steps))
    decreases |steps|
  {
    if |steps| > 0 {
      StepKeepsConsistent(s, steps[0]);
      RunKeepsConsistent(Next(s, steps[0]), steps[1..]);
    }
  }

  /**
    In every run from any remote store, whatever was retried, partly applied, requeued, dropped or
    resynced: a resource is mirrored with its cluster labels once the changes on their way have arrived,
    unless it was left behind by an earlier process or its last event was dropped, and no resync has
    healed it since.
   */
  lemma PipelineConverges(remote: Remote, steps: seq<Step>, id: Identity)
    requires PossibleRun(Started(remote), steps) && ValidIdentity(id) && !IsCrd(id)
    ensures var s := Run(Started(remote), steps);
            ResourceId(id) !in s.stale ==> LabelsAt(Eventual(s), ResourceId(id)) == ClusterLabels(s.cluster, id)
  {
    StartedConsistent(remote);
    RunKeepsConsistent(Started(remote), steps);
    assert ConvergedAt(Run(Started(remote), steps), id);
  }

  /** An identity whose parts keep their colons to themselves, and which is no CRD. */
  predicate Plain(id: Identity) {
    && ':' !in id.ns && ':' !in id.apiVersion && ':' !in id.kind && id.ns != "_cluster"
    && (id.apiVersion != "apiextensions.k8s.io/v1" || id.kind != "CustomResourceDefinition")
  }

  /** The store holds the object's own labels under its id, empty ones for absent ones, and nothing for an absent object. */
  predicate HoldsLabels(store: Remote, cluster: map<Identity, Object>, id: Identity, key: string) {
    && (key in store <==> id in cluster)
    && (id in cluster && key in store ==>
          match cluster[id].labels
          case Some(labels) => store[key].labels == labels
          case None => store[key].labels == map[])
  }

  /** The law of convergence on the objects' own fields. */
  lemma PipelineMirrorsObjects(remote: Remote, steps: seq<Step>, id: Identity)
    requires PossibleRun(Started(remote), steps) && Plain(id) && ResourceId(id) !in Run(Started(remote), steps).stale
    ensures var s := Run(Started(remote), steps); HoldsLabels(Eventual(s), s.cluster, id, ResourceId(id))
  {
    PipelineConverges(remote, steps, id);
  }

  /** Once nothing is on its way, the remote store itself holds the cluster labels of every resource that is not stale. */
  lemma QuietPipelineMirrors(remote: Remote, steps: seq<Step>, id: Identity)
    requires PossibleRun(Started(remote), steps) && ValidIdentity(id) && !IsCrd(id)
    requires var s := Run(Started(remote), steps);
             s.queue == [] && s.buffer == map[] && s.inFlight == map[] && ResourceId(id) !in s.stale
    ensures var s := Run(Started(remote), steps); LabelsAt(s.remote, ResourceId(id)) == ClusterLabels(s.cluster, id)
  {
    PipelineConverges(remote, steps, id);
    EmptyOverlay(Run(Started(remote), steps).remote);
  }

  lemma SettledResync(s: Pipeline, now: Time, snapshot: Remote)
    requires s.queue == [] && s.buffer == map[] && s.inFlight == map[] && snapshot != map[]
    ensures Next(s, Resync(now, snapshot)) == s.(remote := snapshot, stale := {})
  {
    assert Pending(s) == {};
  }

  lemma SettledResyncMirrors(s: Pipeline, now: Time, snapshot: Remote, id: Identity)
    requires WellFormedState(s) && IsSnapshot(s.cluster, now, snapshot) && snapshot != map[] && ValidIdentity(id) && !IsCrd(id)
    requires s.queue == [] && s.buffer == map[] && s.inFlight == map[]
    ensures var after := Next(s, Resync(now, snapshot));
            after.stale == {} && LabelsAt(after.remote, ResourceId(id)) == ClusterLabels(after.cluster, id)
  {
    SettledResync(s, now, snapshot);
    SnapshotLabels(s.cluster, now, snapshot, id);
  }

  /**
    A resync of a non-empty cluster while nothing is on its way mirrors every resource: those whose
    events were dropped, and the orphans of an earlier process.
   */
  lemma ResyncHeals(remote: Remote, steps: seq<Step>, now: Time, snapshot: Remote, id: Identity)
    requires PossibleRun(Started(remote), steps) && ValidIdentity(id) && !IsCrd(id) && snapshot != map[]
    requires var s := Run(Started(remote), steps);
             IsSnapshot(s.cluster, now, snapshot) && s.queue == [] && s.buffer == map[] && s.inFlight == map[]
    ensures var after := Next(Run(Started(remote), steps), Resync(now, snapshot));
            after.stale == {} && LabelsAt(after.remote, ResourceId(id)) == ClusterLabels(after.cluster, id)
  {
    StartedConsistent(remote);
    RunKeepsConsistent(Started(remote), steps);
    SettledResyncMirrors(Run(Started(remote), steps), now, snapshot, id);
  }

  // ---------------------------------------------------------------- what is on its way can arrive

  lemma RunSplits(s: Pipeline, step: Step, steps: seq<Step>)
    requires Possible(s, step) && PossibleRun(Next(s, step), steps)
    ensures PossibleRun(s, [step] + steps) && Run(s, [step] + steps) == Run(Next(s, step), steps)
  {
    assert ([step] + steps)[1..] == steps;
  }

  predicate Quiet(s: Pipeline) {
    s.queue == [] && s.buffer == map[] && s.inFlight == map[]
  }

  /** The request takes the whole buffer, is applied and acknowledged. */
  lemma BufferArrives(s: Pipeline) returns (steps: seq<Step>)
    requires WellFormedState(s) && s.queue == [] && s.inFlight == map[]
    ensures PossibleRun(s, steps)
    ensures Run(s, steps) == s.(buffer := map[], landed := {}, remote := Eventual(s))
  {
    var taken := Next(s, Take);
    var applied := Next(taken, Apply(s.buffer.Keys));
    DebounceBuffer.WellFormedIsSendable(s.buffer);
    EmptyOverlay(s.remote);
    assert PartOf(s.buffer, s.buffer.Keys) == s.buffer;
    steps := [];
    RunSplits(applied, Succeed, steps);
    steps := [Succeed] + steps;
    RunSplits(taken, Apply(s.buffer.Keys), steps);
    steps := [Apply(s.buffer.Keys)] + steps;
    RunSplits(s, Take, steps);
    steps := [Take] + steps;
  }

  lemma {:induction false} QueueArrives(s: Pipeline) returns (steps: seq<Step>)
    requires WellFormedState(s) && s.inFlight == map[]
    ensures PossibleRun(s, steps)
    ensures Run(s, steps) == s.(queue := [], buffer := map[], landed := {}, remote := Eventual(s))
    decreases |s.queue|
  {
    if s.queue == [] {
      steps := BufferArrives(s);
    } else {
      DequeueKeepsEventual(s);
      var next := Next(s, Dequeue);
      var rest := QueueArrives(next);
      RunSplits(s, Dequeue, rest);
      steps := [Dequeue] + rest;
    }
  }

  /**
    From every state some steps of the buffer and the server deliver everything on its way, and the
    remote store is then the eventual one.
   */
  lemma DrainDelivers(s: Pipeline) returns (steps: seq<Step>)
    requires WellFormedState(s)
    ensures PossibleRun(s, steps)
    ensures var end := Run(s, steps);
            Quiet(end) && end.remote == Eventual(s) && end.cluster == s.cluster && end.stale == s.stale
  {
    if s.inFlight == map[] {
      steps := QueueArrives(s);
    } else {
      MovingKeepsEventual(s, Fail);
      var rest := QueueArrives(Next(s, Fail));
      RunSplits(s, Fail, rest);
      steps := [Fail] + rest;
    }
  }

  /** An added object whose event finds room in the queue can arrive, with its own labels. */
  lemma AddedObjectArrives(s: Pipeline, obj: Object, now: Time) returns (steps: seq<Step>)
    requires WellFormedState(s) && ValidIdentity(obj.id) && !s.closed && |s.queue| < 10000
    ensures PossibleRun(s, [Notify(Added(obj), now)] + steps)
    ensures var end := Run(s, [Notify(Added(obj), now)] + steps); var key := ResourceId(obj.id);
            && Quiet(end) && key in end.remote
            && match obj.labels
               case Some(labels) => end.remote[key].labels == labels
               case None => end.remote[key].labels == map[]
  {
    var notify := Notify(Added(obj), now);
    var next := Next(s, notify);
    NotifyKeepsWellFormed(s, Added(obj), now);
    HandledOnFields(Added(obj), now);
    HandledWellFormed(Added(obj), now);
    SendReaches(s.(cluster := ClusterAfter(s.cluster, Added(obj))), Handled(Added(obj), now).value, ResourceId(obj.id));
    steps := DrainDelivers(next);
    RunSplits(s, notify, steps);
  }

  /** In particular the first event of a process can arrive, whatever an earlier process left. */
  lemma FirstEventArrives(remote: Remote, obj: Object, now: Time) returns (steps: seq<Step>)
    requires ValidIdentity(obj.id)
    ensures PossibleRun(Started(remote), [Notify(Added(obj), now)] + steps)
    ensures ResourceId(obj.id) in Run(Started(remote), [Notify(Added(obj), now)] + steps).remote
  {
    StartedConsistent(remote);
    steps := AddedObjectArrives(Started(remote), obj, now);
  }

  /** An update that changes the labels of a known object can arrive, if its event finds room in the queue. */
  lemma UpdatedObjectArrives(s: Pipeline, before: Object, after: Object, now: Time) returns (steps: seq<Step>)
    requires WellFormedState(s) && ValidIdentity(after.id) && before.id == after.id && !s.closed && |s.queue| < 10000
    requires after.id in s.cluster && s.cluster[after.id].labels == before.labels != after.labels
    ensures PossibleRun(s, [Notify(Updated(before, after), now)] + steps)
    ensures var end := Run(s, [Notify(Updated(before, after), now)] + steps); var key := ResourceId(after.id);
            && Quiet(end) && key in end.remote
            && match after.labels
               case Some(labels) => end.remote[key].labels == labels
               case None => end.remote[key].labels == map[]
  {
    var notice := Updated(before, after);
    var next := Next(s, Notify(notice, now));
    NotifyKeepsWellFormed(s, notice, now);
    HandledOnFields(notice, now);
    HandledWellFormed(notice, now);
    SendReaches(s.(cluster := ClusterAfter(s.cluster, notice)), Handled(notice, now).value, ResourceId(after.id));
    steps := DrainDelivers(next);
    RunSplits(s, Notify(notice, now), steps);
  }

  /** A deleted object whose event finds room in the queue can disappear from the remote store. */
  lemma DeletedObjectDisappears(s: Pipeline, obj: Object, now: Time) returns (steps: seq<Step>)
    requires WellFormedState(s) && ValidIdentity(obj.id) && !s.closed && |s.queue| < 10000
    ensures PossibleRun(s, [Notify(Deleted(obj), now)] + steps)
    ensures var end := Run(s, [Notify(Deleted(obj), now)] + steps); Quiet(end) && ResourceId(obj.id) !in end.remote
  {
    var notify := Notify(Deleted(obj), now);
    var next := Next(s, notify);
    NotifyKeepsWellFormed(s, Deleted(obj), now);
    HandledOnFields(Deleted(obj), now);
    HandledWellFormed(Deleted(obj), now);
    SendReaches(s.(cluster := ClusterAfter(s.cluster, Deleted(obj))), Handled(Deleted(obj), now).value, ResourceId(obj.id));
    steps := DrainDelivers(next);
    RunSplits(s, notify, steps);
  }

  /** After the queue is closed every event is dropped and leaves its resource stale. */
  lemma ClosedQueueDrops(s: Pipeline, notice: Notice, now: Time)
    requires Handled(notice, now).Some?
    ensures var after := Next(Next(s, CloseQueue), Notify(notice, now));
            after.queue == s.queue && Handled(notice, now).value.id in after.stale
  {
  }

  // ---------------------------------------------------------------- building the snapshot

  /** An informer and the items in its cache; an item that is not an object is skipped. */
  datatype Informer = Informer(watchesCrds: bool, items: seq<Option<Object>>)

  method ListAllResources(informers: seq<Informer>, now: Time) returns (all: seq<ResourceData>)
    ensures forall data :: data in all <==> Listed(informers, now, data)
  {
    all := [];
    for i := 0 to |informers|
      invariant forall data :: data in all <==> Listed(informers[..i], now, data)
    {
      if informers[i].watchesCrds {
        ListedOneMore(informers, i, now);
        continue;
      }
      ghost var before := all;
      var items := informers[i].items;
      for j := 0 to |items|
        invariant forall data :: data in all <==> data in before || FromItems(items[..j], now, data)
      {
        if items[j].Some? {
          var data := Extract(items[j].value, now);
          all := all + [data];
        }
        assert items[..j + 1] == items[..j] + [items[j]];
      }
      assert items[..|items|] == items;
      ListedOneMore(informers, i, now);
    }
    assert informers[..|informers|] == informers;
  }

  ghost predicate FromItems(items: seq<Option<Object>>, now: Time, data: ResourceData) {
    exists item :: item in items && item.Some? && ExtractResourceData(item.value, now) == data
  }

  /** The data comes from an object in the cache of an informer other than the CRD informer. */
  ghost predicate Listed(informers: seq<Informer>, now: Time, data: ResourceData) {
    exists informer :: informer in informers && !informer.watchesCrds && FromItems(informer.items, now, data)
  }

  lemma ListedOneMore(informers: seq<Informer>, i: nat, now: Time)
    requires i < |informers|
    ensures forall data :: Listed(informers[..i + 1], now, data)
              <==> Listed(informers[..i], now, data) || (!informers[i].watchesCrds && FromItems(informers[i].items, now, data))
  {
    assert informers[..i + 1] == informers[..i] + [informers[i]];
  }

  /** The caches hold exactly the cluster's objects, CRDs with the informer that is skipped. */
  ghost predicate Caches(informers: seq<Informer>, cluster: map<Identity, Object>) {
    && (forall i, item | 0 <= i < |informers| && !informers[i].watchesCrds && Some(item) in informers[i].items ::
          item.id in cluster && cluster[item.id] == item && !IsCrd(item.id))
    && (forall id | id in cluster && !IsCrd(id) ::
          exists i :: 0 <= i < |informers| && !informers[i].watchesCrds && Some(cluster[id]) in informers[i].items)
  }

  /** The data that is listed mirrors the cached objects, each as it is. */
  lemma ListedMirrorsObjects(informers: seq<Informer>, now: Time, all: seq<ResourceData>)
    requires forall data :: data in all <==> Listed(informers, now, data)
    ensures forall i, obj | 0 <= i < |informers| && !informers[i].watchesCrds && Some(obj) in informers[i].items ::
              exists data :: data in all && MirrorsObject(data, obj, now)
    ensures forall data | data in all ::
              exists i, obj :: 0 <= i < |informers| && !informers[i].watchesCrds && Some(obj) in informers[i].items && MirrorsObject(data, obj, now)
  {
    forall i, obj | 0 <= i < |informers| && !informers[i].watchesCrds && Some(obj) in informers[i].items
      ensures exists data :: data in all && MirrorsObject(data, obj, now)
    {
      ExtractMirrorsObject(obj, now);
      assert FromItems(informers[i].items, now, ExtractResourceData(obj, now));
      assert ExtractResourceData(obj, now) in all;
    }
    forall data | data in all
      ensures exists i, obj :: 0 <= i < |informers| && !informers[i].watchesCrds && Some(obj) in informers[i].items && MirrorsObject(data, obj, now)
    {
      var informer :| informer in informers && !informer.watchesCrds && FromItems(informer.items, now, data);
      var i :| 0 <= i < |informers| && informers[i] == informer;
      var item :| item in informer.items && item.Some? && ExtractResourceData(item.value, now) == data;
      ExtractMirrorsObject(item.value, now);
      assert Some(item.value) in informers[i].items;
    }
  }

  /** What a resync sends, stored by the server under its own keys, is a snapshot of the cluster. */
  lemma ListedIsSnapshot(informers: seq<Informer>, cluster: map<Identity, Object>, now: Time, all: seq<ResourceData>)
    requires Caches(informers, cluster)
    requires forall id | id in cluster :: cluster[id].id == id && ValidIdentity(id)
    requires forall data :: data in all <==> Listed(informers, now, data)
    ensures IsSnapshot(cluster, now, WithUpserts(map[], all))
  {
    var stored := WithUpserts(map[], all);
    forall id | id in cluster && !IsCrd(id)
      ensures ResourceId(id) in stored && stored[ResourceId(id)] == ExtractResourceData(cluster[id], now)
    {
      StoredFromCluster(informers, cluster, now, all, id);
    }
    forall key | key in stored
      ensures exists id :: id in cluster && !IsCrd(id) && ResourceId(id) == key
    {
      UpsertsLand(map[], all, key);
      var i :| 0 <= i < |all| && RemoteKey(all[i].Identifier()) == key;
      var id := ListedOrigin(informers, cluster, now, all[i]);
    }
  }

  lemma ListedOrigin(informers: seq<Informer>, cluster: map<Identity, Object>, now: Time, data: ResourceData) returns (id: Identity)
    requires Caches(informers, cluster) && Listed(informers, now, data)
    ensures id in cluster && !IsCrd(id) && cluster[id].id == id
    ensures data == ExtractResourceData(cluster[id], now) && RemoteKey(data.Identifier()) == ResourceId(id)
  {
    var informer :| informer in informers && !informer.watchesCrds && FromItems(informer.items, now, data);
    var item :| item in informer.items && item.Some? && ExtractResourceData(item.value, now) == data;
    id := item.value.id;
    assert Some(item.value) in informer.items;
  }

  /** The last listed data under an object's key is that object's data. */
  lemma StoredFromCluster(informers: seq<Informer>, cluster: map<Identity, Object>, now: Time, all: seq<ResourceData>, id: Identity)
    requires Caches(informers, cluster) && id in cluster && !IsCrd(id)
    requires forall id | id in cluster :: cluster[id].id == id && ValidIdentity(id)
    requires forall data :: data in all <==> Listed(informers, now, data)
    ensures var stored := WithUpserts(map[], all);
            ResourceId(id) in stored && stored[ResourceId(id)] == ExtractResourceData(cluster[id], now)
  {
    var key := ResourceId(id);
    var i :| 0 <= i < |informers| && !informers[i].watchesCrds && Some(cluster[id]) in informers[i].items;
    var data := ExtractResourceData(cluster[id], now);
    assert FromItems(informers[i].items, now, data);
    assert data in all && RemoteKey(data.Identifier()) == key;
    UpsertsLand(map[], all, key);
    var j :| 0 <= j < |all| && RemoteKey(all[j].Identifier()) == key && WithUpserts(map[], all)[key] == all[j];
    var other := ListedOrigin(informers, cluster, now, all[j]);
    ResourceIdInjective(id, other);
  }

  // ---------------------------------------------------------------- the handlers and their queue

  class ChangeQueue {
    var pending: seq<Change>
    var closed: bool

    constructor ()
      ensures pending == [] && !closed
    {
      pending, closed := [], false;
    }

    /** Sends without blocking; a full or closed queue refuses. */
    method TrySendChange(change: Change) returns (sent: bool)
      modifies this`pending
      ensures sent <==> !closed && |old(pending)| < QUEUE_CAPACITY
      ensures pending == if sent then old(pending) + [change] else old(pending)
    {
      if closed {
        return false;
      }
      if |pending| < QUEUE_CAPACITY {
        pending := pending + [change];
        return true;
      }
      return false;
    }

    method OnAdd(obj: Object, now: Time) returns (dropped: bool)
      modifies this`pending
      ensures Takes(old(pending), closed, Added(obj), now, pending, dropped)
    {
      var data := Extract(obj, now);
      var sent := TrySendChange(Change(Upsert, Some(data), ResourceId(obj.id), None));
      dropped := !sent;
    }

    method OnUpdate(before: Object, after: Object, now: Time) returns (dropped: bool)
      modifies this`pending
      ensures Takes(old(pending), closed, Updated(before, after), now, pending, dropped)
    {
      if !HasRelevantChanges(before, after) {
        return false;
      }
      var data := Extract(after, now);
      var sent := TrySendChange(Change(Upsert, Some(data), ResourceId(after.id), None));
      dropped := !sent;
    }

    /** The object is the deleted one or the one inside a tombstone; anything else is ignored. */
    method OnDelete(obj: Option<Object>, now: Time) returns (dropped: bool)
      modifies this`pending
      ensures Takes(old(pending), closed, if obj.Some? then Deleted(obj.value) else Foreign, now, pending, dropped)
    {
      if obj.None? {
        return false;
      }
      var sent := TrySendChange(DeleteChange(obj.value.id));
      dropped := !sent;
    }
  }

  /** The handler does to its queue what the pipeline's notify step does in every state with that queue; it drops no more. */
  ghost predicate Takes(before: seq<Change>, closed: bool, notice: Notice, now: Time, after: seq<Change>, dropped: bool) {
    && (forall s: Pipeline | s.queue == before && s.closed == closed :: Notified(s, notice, now) == Taken(s, notice, now, after, dropped))
    && (Handled(notice, now).None? ==> !dropped)
  }

  function Taken(s: Pipeline, notice: Notice, now: Time, queue: seq<Change>, dropped: bool): Pipeline {
    var seen := s.(cluster := ClusterAfter(s.cluster, notice), queue := queue);
    match Handled(notice, now)
    case None => seen
    case Some(c) => seen.(stale := if dropped then s.stale + {c.id} else s.stale - {c.id})
  }
}
