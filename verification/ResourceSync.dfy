/** Mirroring cluster resources: identifiers, informer handlers, batches and the remote store. */
module ResourceSync {
  import opened Basics
  import opened Text

  // ---------------------------------------------------------------- objects and identifiers

  const CLUSTER_SCOPE := "_cluster"

  type Labels = map<string, string>

  /** What tells one cluster object from another; cluster-scoped objects have an empty namespace. */
  datatype Identity = Identity(ns: string, apiVersion: string, kind: string, name: string)

  /** An object as the informers deliver it; absent labels differ from empty ones. */
  datatype Object = Object(id: Identity, labels: Option<Labels>, annotations: map<string, string>, created: Time)

  /** The identifier fields sent to the server, which builds its own key from them. */
  datatype ResourceIdentifier = ResourceIdentifier(ns: string, name: string, kind: string, apiVersion: string)

  datatype ResourceData = ResourceData(ns: string, name: string, kind: string, apiVersion: string, labels: Labels,
                                       annotations: map<string, string>, created: Time, updated: Time)
  {
    function Identifier(): ResourceIdentifier {
      ResourceIdentifier(ns, name, kind, apiVersion)
    }
  }

  datatype Action = Upsert | Delete

  datatype Change = Change(action: Action, data: Option<ResourceData>, id: string, deleteIdentifier: Option<ResourceIdentifier>)

  function FormatId(ns: string, apiVersion: string, kind: string, name: string): string {
    ns + ":" + (apiVersion + ":" + (kind + ":" + name))
  }

  function NamespaceOf(id: Identity): string {
    if id.ns == "" then CLUSTER_SCOPE else id.ns
  }

  function ResourceId(id: Identity): string {
    FormatId(NamespaceOf(id), id.apiVersion, id.kind, id.name)
  }

  /** The server's key for a resource. */
  function RemoteKey(r: ResourceIdentifier): string {
    FormatId(r.ns, r.apiVersion, r.kind, r.name)
  }

  predicate ValidIdentity(id: Identity) {
    ':' !in id.ns && ':' !in id.apiVersion && ':' !in id.kind && id.ns != CLUSTER_SCOPE
  }

  lemma CutBoth(a: string, restA: string, b: string, restB: string)
    requires ':' !in a && ':' !in b && a + ":" + restA == b + ":" + restB
    ensures a == b && restA == restB
  {
    CutAt(a, ':', restA);
    CutAt(b, ':', restB);
  }

  /** Distinct objects have distinct identifiers; names may hold colons. */
  lemma ResourceIdInjective(a: Identity, b: Identity)
    requires ValidIdentity(a) && ValidIdentity(b) && ResourceId(a) == ResourceId(b)
    ensures a == b
  {
    CutBoth(NamespaceOf(a), a.apiVersion + ":" + (a.kind + ":" + a.name), NamespaceOf(b), b.apiVersion + ":" + (b.kind + ":" + b.name));
    CutBoth(a.apiVersion, a.kind + ":" + a.name, b.apiVersion, b.kind + ":" + b.name);
    CutBoth(a.kind, a.name, b.kind, b.name);
  }

  // ---------------------------------------------------------------- handlers

  predicate KeepsAnnotation(key: string) {
    && key != "kubectl.kubernetes.io/last-applied-configuration"
    && !HasPrefix(key, "meta.helm.sh/")
    && (key == "description" || HasSuffix(key, "/description"))
  }

  function LabelsOf(obj: Object): Labels {
    match obj.labels
    case Some(labels) => labels
    case None => map[]
  }

  function ExtractResourceData(obj: Object, now: Time): ResourceData {
    ResourceData(NamespaceOf(obj.id), obj.id.name, obj.id.kind, obj.id.apiVersion, LabelsOf(obj),
                 map key | key in obj.annotations && KeepsAnnotation(key) :: obj.annotations[key], obj.created, now)
  }

  predicate HasRelevantChanges(before: Object, after: Object) {
    before.labels != after.labels
  }

  function UpsertChange(obj: Object, now: Time): Change {
    Change(Upsert, Some(ExtractResourceData(obj, now)), ResourceId(obj.id), None)
  }

  function DeleteChange(id: Identity): Change {
    Change(Delete, None, ResourceId(id), Some(ResourceIdentifier(NamespaceOf(id), id.name, id.kind, id.apiVersion)))
  }

  /** An informer callback; a delete may come as a tombstone around the last known object. */
  datatype Notice = Added(obj: Object) | Updated(before: Object, after: Object) | Deleted(obj: Object) | Foreign

  /** The change that the handlers queue for a notice, if any. */
  function Handled(notice: Notice, now: Time): Option<Change> {
    match notice
    case Added(obj) => Some(UpsertChange(obj, now))
    case Updated(before, after) => if HasRelevantChanges(before, after) then Some(UpsertChange(after, now)) else None
    case Deleted(obj) => Some(DeleteChange(obj.id))
    case Foreign => None
  }

  /** The payload of a change exists and names the same resource as its buffer key. */
  predicate WellFormed(c: Change) {
    match c.action
    case Upsert => c.data.Some? && RemoteKey(c.data.value.Identifier()) == c.id
    case Delete => c.deleteIdentifier.Some? && RemoteKey(c.deleteIdentifier.value) == c.id
  }

  /** Handlers queue only changes whose payload rebuilds their id, which is never empty. */
  lemma HandledWellFormed(notice: Notice, now: Time)
    requires Handled(notice, now).Some?
    ensures WellFormed(Handled(notice, now).value) && Handled(notice, now).value.id != ""
  {
  }

  // ---------------------------------------------------------------- what the handlers queue, field by field

  /** The identifier of an object, as text. */
  lemma ResourceIdText(id: Identity)
    ensures id.ns != "" ==> ResourceId(id) == id.ns + ":" + id.apiVersion + ":" + id.kind + ":" + id.name
    ensures id.ns == "" ==> ResourceId(id) == "_cluster:" + id.apiVersion + ":" + id.kind + ":" + id.name
  {
    if id.ns == "" {
      assert "_cluster:" == "_cluster" + ":";
    }
  }

  /** The data mirrors the object: its identity, its labels, its descriptions and its age. */
  ghost predicate MirrorsObject(data: ResourceData, obj: Object, now: Time) {
    && data.name == obj.id.name && data.kind == obj.id.kind && data.apiVersion == obj.id.apiVersion
    && (if obj.id.ns == "" then data.ns == "_cluster" else data.ns == obj.id.ns)
    && (match obj.labels
        case Some(labels) => data.labels == labels
        case None => data.labels == map[])
    && data.created == obj.created && data.updated == now
    && (forall key :: key in data.annotations <==> key in obj.annotations && IsDescription(key))
    && (forall key | key in data.annotations :: data.annotations[key] == obj.annotations[key])
  }

  /** "description", or anything ending in "/description" that Helm does not own. */
  predicate IsDescription(key: string) {
    || key == "description"
    || (|key| >= 12 && key[|key| - 12..] == "/description" && !(|key| >= 13 && key[..13] == "meta.helm.sh/"))
  }

  lemma DescriptionsAreKept(key: string)
    ensures KeepsAnnotation(key) <==> IsDescription(key)
  {
    var applied := "kubectl.kubernetes.io/last-applied-configuration";
    assert applied[|applied| - 1] == 'n' && applied[|applied| - 12] == 'o';
    assert "description"[0] == 'd' && "meta.helm.sh/"[0] == 'm';
  }

  lemma ExtractMirrorsObject(obj: Object, now: Time)
    ensures MirrorsObject(ExtractResourceData(obj, now), obj, now)
  {
    forall key
      ensures KeepsAnnotation(key) <==> IsDescription(key)
    {
      DescriptionsAreKept(key);
    }
  }

  /** The queued change is an upsert of the object as it is. */
  ghost predicate CarriesObject(c: Option<Change>, obj: Object, now: Time) {
    && c.Some? && c.value.action == Upsert && c.value.id == ResourceId(obj.id) && c.value.deleteIdentifier == None
    && c.value.data.Some? && MirrorsObject(c.value.data.value, obj, now)
  }

  /**
    Additions, and updates that change the labels, queue the object as it is; other updates queue
    nothing; a deletion queues the identity of the object.
   */
  lemma HandledOnFields(notice: Notice, now: Time)
    ensures match notice
            case Added(obj) => CarriesObject(Handled(notice, now), obj, now)
            case Updated(before, after) =>
              if before.labels == after.labels then Handled(notice, now) == None else CarriesObject(Handled(notice, now), after, now)
            case Deleted(obj) =>
              Handled(notice, now) ==
                Some(Change(Delete, None, ResourceId(obj.id),
                            Some(ResourceIdentifier(if obj.id.ns == "" then "_cluster" else obj.id.ns,
                                                    obj.id.name, obj.id.kind, obj.id.apiVersion))))
            case Foreign => Handled(notice, now) == None
  {
    match notice
    case Added(obj) => ExtractMirrorsObject(obj, now);
    case Updated(_, after) => ExtractMirrorsObject(after, now);
    case _ =>
  }

  /** Copies the labels and the kept annotations one by one. */
  method Extract(obj: Object, now: Time) returns (data: ResourceData)
    ensures data == ExtractResourceData(obj, now)
  {
    var labels: Labels := map[];
    if obj.labels.Some? {
      labels := obj.labels.value;
    }
    var annotations: map<string, string> := map[];
    var pending := obj.annotations.Keys;
    while pending != {}
      invariant pending <= obj.annotations.Keys
      invariant annotations == map key | key in obj.annotations && key !in pending && KeepsAnnotation(key) :: obj.annotations[key]
      decreases pending
    {
      var key :| key in pending;
      pending := pending - {key};
      if key == "kubectl.kubernetes.io/last-applied-configuration" || HasPrefix(key, "meta.helm.sh/") {
        continue;
      }
      if key == "description" || HasSuffix(key, "/description") {
        annotations := annotations[key := obj.annotations[key]];
      }
    }
    var ns := obj.id.ns;
    if ns == "" {
      ns := "_cluster";
    }
    data := ResourceData(ns, obj.id.name, obj.id.kind, obj.id.apiVersion, labels, annotations, obj.created, now);
  }

  // ---------------------------------------------------------------- the remote store

  type Remote = map<string, ResourceData>

  function ApplyOne(remote: Remote, c: Change): Remote {
    match c.action
    case Upsert => if c.data.Some? then remote[RemoteKey(c.data.value.Identifier()) := c.data.value] else remote
    case Delete => if c.deleteIdentifier.Some? then remote - {RemoteKey(c.deleteIdentifier.value)} else remote
  }

  /** The remote store after all changes, in order. */
  function Replay(remote: Remote, changes: seq<Change>): Remote {
    if |changes| == 0 then remote else ApplyOne(Replay(remote, changes[..|changes| - 1]), changes[|changes| - 1])
  }

  type Batch = map<string, Change>

  ghost predicate WellFormedBatch(batch: Batch) {
    forall id | id in batch :: WellFormed(batch[id]) && batch[id].id == id
  }

  /** The remote store with a buffer's pending changes laid over it. */
  function Overlay(remote: Remote, batch: Batch): Remote {
    map id | id in remote.Keys + batch.Keys && (if id in batch then batch[id].action.Upsert? && batch[id].data.Some? else true)
      :: if id in batch then batch[id].data.value else remote[id]
  }

  predicate SameAt(a: Remote, b: Remote, key: string) {
    (key in a <==> key in b) && (key in a ==> a[key] == b[key])
  }

  lemma SameEverywhere(a: Remote, b: Remote)
    requires forall key :: SameAt(a, b, key)
    ensures a == b
  {
    forall key
      ensures (key in a <==> key in b) && (key in a ==> a[key] == b[key])
    {
      assert SameAt(a, b, key);
    }
  }

  /** Each key is either untouched or as in the fully applied store: what a partly applied request may leave. */
  ghost predicate Between(before: Remote, full: Remote, after: Remote) {
    forall key :: SameAt(after, before, key) || SameAt(after, full, key)
  }

  function WithUpserts(remote: Remote, upserts: seq<ResourceData>): Remote {
    if |upserts| == 0 then remote
    else
      var last := upserts[|upserts| - 1];
      WithUpserts(remote, upserts[..|upserts| - 1])[RemoteKey(last.Identifier()) := last]
  }

  function WithoutDeletes(remote: Remote, deletes: seq<ResourceIdentifier>): Remote {
    remote - set i | 0 <= i < |deletes| :: RemoteKey(deletes[i])
  }

  /** A whole request, upserts first. */
  function Requested(remote: Remote, upserts: seq<ResourceData>, deletes: seq<ResourceIdentifier>): Remote {
    WithoutDeletes(WithUpserts(remote, upserts), deletes)
  }

  // ---------------------------------------------------------------- batches as requests

  /** The request carries exactly the changes of the batch. */
  ghost predicate Carries(upserts: seq<ResourceData>, deletes: seq<ResourceIdentifier>, batch: Batch) {
    && (forall i | 0 <= i < |upserts| ::
          var id := RemoteKey(upserts[i].Identifier());
          id in batch && batch[id].action.Upsert? && batch[id].data == Some(upserts[i]))
    && (forall i | 0 <= i < |deletes| ::
          var id := RemoteKey(deletes[i]);
          id in batch && batch[id].action.Delete? && batch[id].deleteIdentifier == Some(deletes[i]))
    && (forall id | id in batch && batch[id].action.Upsert? :: batch[id].data.Some? && batch[id].data.value in upserts)
    && (forall id | id in batch && batch[id].action.Delete? :: batch[id].deleteIdentifier.Some? && batch[id].deleteIdentifier.value in deletes)
  }

  lemma {:induction false} UpsertsLand(remote: Remote, upserts: seq<ResourceData>, key: string)
    ensures var after := WithUpserts(remote, upserts);
            if exists i :: 0 <= i < |upserts| && RemoteKey(upserts[i].Identifier()) == key
            then key in after && exists i :: 0 <= i < |upserts| && RemoteKey(upserts[i].Identifier()) == key && after[key] == upserts[i]
            else SameAt(after, remote, key)
  {
    if |upserts| > 0 {
      var front := upserts[..|upserts| - 1];
      UpsertsLand(remote, front, key);
      var last := |upserts| - 1;
      if RemoteKey(upserts[last].Identifier()) == key {
        assert WithUpserts(remote, upserts)[key] == upserts[last];
      } else if exists i :: 0 <= i < |front| && RemoteKey(front[i].Identifier()) == key {
        var i :| 0 <= i < |front| && RemoteKey(front[i].Identifier()) == key && WithUpserts(remote, front)[key] == front[i];
        assert upserts[i] == front[i];
      } else {
        assert forall i | 0 <= i < last :: front[i] == upserts[i];
      }
    }
  }

  /**
    A batch has at most one operation per remote object, so applying its upserts or its deletes
    first gives the same store: the overlay.
   */
  lemma RequestOrderIrrelevant(remote: Remote, upserts: seq<ResourceData>, deletes: seq<ResourceIdentifier>, batch: Batch)
    requires WellFormedBatch(batch) && Carries(upserts, deletes, batch)
    ensures Requested(remote, upserts, deletes) == Overlay(remote, batch)
    ensures WithUpserts(WithoutDeletes(remote, deletes), upserts) == Overlay(remote, batch)
  {
    forall key
      ensures SameAt(Requested(remote, upserts, deletes), Overlay(remote, batch), key)
      ensures SameAt(WithUpserts(WithoutDeletes(remote, deletes), upserts), Overlay(remote, batch), key)
    {
      RequestAt(remote, upserts, deletes, batch, key);
      RequestAt(WithoutDeletes(remote, deletes), upserts, deletes, batch, key);
    }
    SameEverywhere(Requested(remote, upserts, deletes), Overlay(remote, batch));
    SameEverywhere(WithUpserts(WithoutDeletes(remote, deletes), upserts), Overlay(remote, batch));
  }

  /** One key under the request of a batch. */
  lemma RequestAt(remote: Remote, upserts: seq<ResourceData>, deletes: seq<ResourceIdentifier>, batch: Batch, key: string)
    requires WellFormedBatch(batch) && Carries(upserts, deletes, batch)
    ensures var upserted := WithUpserts(remote, upserts);
            if key in batch && batch[key].action.Upsert? then key in upserted && Some(upserted[key]) == batch[key].data
            else SameAt(upserted, remote, key)
    ensures (exists i :: 0 <= i < |deletes| && RemoteKey(deletes[i]) == key) <==> key in batch && batch[key].action.Delete?
  {
    UpsertsLand(remote, upserts, key);
    if key in batch && batch[key].action.Upsert? {
      var i :| 0 <= i < |upserts| && upserts[i] == batch[key].data.value;
      assert RemoteKey(upserts[i].Identifier()) == key;
    }
    if key in batch && batch[key].action.Delete? {
      var i :| 0 <= i < |deletes| && deletes[i] == batch[key].deleteIdentifier.value;
      assert RemoteKey(deletes[i]) == key;
    }
  }

  // ---------------------------------------------------------------- overlay algebra

  /** Recording a change and applying it commute with the overlay. */
  lemma OverlayRecord(remote: Remote, batch: Batch, c: Change)
    requires WellFormed(c)
    ensures Overlay(remote, batch[c.id := c]) == ApplyOne(Overlay(remote, batch), c)
  {
  }

  /** A partly applied batch is invisible under that batch. */
  lemma OverlayAbsorbs(remote: Remote, batch: Batch, after: Remote)
    requires Between(remote, Overlay(remote, batch), after)
    ensures Overlay(after, batch) == Overlay(remote, batch)
  {
    forall key
      ensures SameAt(Overlay(after, batch), Overlay(remote, batch), key)
    {
      assert SameAt(after, remote, key) || SameAt(after, Overlay(remote, batch), key);
    }
    SameEverywhere(Overlay(after, batch), Overlay(remote, batch));
  }

  /** Requeueing keeps newer changes and puts back the others. */
  function Requeued(buffer: Batch, failed: Batch): Batch {
    failed + buffer
  }

  lemma OverlayRequeue(remote: Remote, failed: Batch, buffer: Batch)
    ensures Overlay(remote, Requeued(buffer, failed)) == Overlay(Overlay(remote, failed), buffer)
  {
  }

  lemma BetweenTransitive(before: Remote, batch: Batch, middle: Remote, after: Remote)
    requires Between(before, Overlay(before, batch), middle) && Between(middle, Overlay(middle, batch), after)
    ensures Between(before, Overlay(before, batch), after)
  {
    forall key
      ensures SameAt(after, before, key) || SameAt(after, Overlay(before, batch), key)
    {
      assert SameAt(middle, before, key) || SameAt(middle, Overlay(before, batch), key);
      assert SameAt(after, middle, key) || SameAt(after, Overlay(middle, batch), key);
    }
  }
}
