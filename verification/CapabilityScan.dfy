/** Which resource types are scanned, how the server's capabilities are reconciled with them, and the event buffer. */
module CapabilityScan {
  import opened Basics
  import opened Text

  // ---------------------------------------------------------------- patterns, as written

  predicate MatchesGroupPattern(group: string, pattern: string) {
    if pattern == "*" || pattern == group then true
    else if HasPrefix(pattern, "*.") then HasSuffix(group, pattern[1..])
    else HasSuffix(group, "." + pattern)
  }

  predicate MatchesPattern(id: string, pattern: string) {
    if id == pattern || pattern == "*" then true
    else
      var idParts, patternParts := SplitN(id, '.', 2), SplitN(pattern, '.', 2);
      if |patternParts| == 1 then |idParts| == 1 && (patternParts[0] == "*" || patternParts[0] == idParts[0])
      else if |idParts| != 2 then false
      else
        && (patternParts[0] == "*" || patternParts[0] == idParts[0])
        && (patternParts[1] == "*" || MatchesGroupPattern(idParts[1], patternParts[1]))
  }

  // ---------------------------------------------------------------- patterns, as lists of labels

  function Labels(s: string): (labels: seq<string>)
    ensures |labels| >= 1
  {
    Split(s, '.')
  }

  predicate Suffix(xs: seq<string>, ys: seq<string>) {
    |xs| <= |ys| && ys[|ys| - |xs|..] == xs
  }

  predicate ProperSuffix(xs: seq<string>, ys: seq<string>) {
    |xs| < |ys| && Suffix(xs, ys)
  }

  /** A plain group pattern selects a domain and its subdomains, a starred one the subdomains only, a star everything. */
  predicate GroupSelected(group: seq<string>, pattern: seq<string>)
    requires |pattern| >= 1
  {
    if pattern[0] != "*" then Suffix(pattern, group)
    else |pattern| == 1 || ProperSuffix(pattern[1..], group)
  }

  /** The kind is the first label and must agree or be starred; a pattern without group selects ungrouped kinds. */
  predicate Selected(id: seq<string>, pattern: seq<string>)
    requires |id| >= 1 && |pattern| >= 1
  {
    if |pattern| == 1 then pattern[0] == "*" || id == pattern
    else |id| >= 2 && (pattern[0] == "*" || pattern[0] == id[0]) && GroupSelected(id[1..], pattern[1..])
  }

  lemma LabelsInjective(a: string, b: string)
    requires Labels(a) == Labels(b)
    ensures a == b
  {
    JoinSplit(a, '.');
    JoinSplit(b, '.');
  }

  lemma DottedSuffixHasLabels(s: string, tail: string)
    requires HasSuffix(s, "." + tail)
    ensures ProperSuffix(Labels(tail), Labels(s))
  {
    var front := s[..|s| - |tail| - 1];
    assert s == front + ['.'] + tail;
    SplitConcat(front, '.', tail);
  }

  lemma LabelsMakeDottedSuffix(s: string, tail: string)
    requires ProperSuffix(Labels(tail), Labels(s))
    ensures HasSuffix(s, "." + tail)
  {
    var front := Labels(s)[..|Labels(s)| - |Labels(tail)|];
    assert Labels(s) == front + Labels(tail);
    JoinSplit(s, '.');
    JoinSplit(tail, '.');
    JoinConcat(front, Labels(tail), '.');
    assert s == Join(front, '.') + ("." + tail);
  }

  /** Ending in a dot and a text means ending in the text's labels, with more before them. */
  lemma DottedSuffix(s: string, tail: string)
    ensures HasSuffix(s, "." + tail) <==> ProperSuffix(Labels(tail), Labels(s))
  {
    if HasSuffix(s, "." + tail) {
      DottedSuffixHasLabels(s, tail);
    }
    if ProperSuffix(Labels(tail), Labels(s)) {
      LabelsMakeDottedSuffix(s, tail);
    }
  }

  lemma PlainSuffix(s: string, tail: string)
    ensures s == tail || HasSuffix(s, "." + tail) <==> Suffix(Labels(tail), Labels(s))
  {
    DottedSuffix(s, tail);
    if Suffix(Labels(tail), Labels(s)) && |Labels(tail)| == |Labels(s)| {
      LabelsInjective(s, tail);
    }
  }

  /** A text starts with a star label exactly when it is a star or starts with a star and a dot. */
  lemma StarLabel(pattern: string)
    ensures Labels("*") == ["*"]
    ensures HasPrefix(pattern, "*.") ==> Labels(pattern) == ["*"] + Labels(pattern[2..])
    ensures Labels(pattern)[0] == "*" ==> pattern == "*" || HasPrefix(pattern, "*.")
  {
    assert Cut("*", '.') == None;
    if HasPrefix(pattern, "*.") {
      assert pattern == "*" + ['.'] + pattern[2..];
      SplitConcat("*", '.', pattern[2..]);
    }
    if Labels(pattern)[0] == "*" {
      JoinSplit(pattern, '.');
      if |Labels(pattern)| > 1 {
        assert pattern == "*" + ['.'] + Join(Labels(pattern)[1..], '.');
      }
    }
  }

  lemma GroupPatternIsLabelSuffix(group: string, pattern: string)
    ensures MatchesGroupPattern(group, pattern) <==> GroupSelected(Labels(group), Labels(pattern))
  {
    StarLabel(pattern);
    if HasPrefix(pattern, "*.") {
      assert pattern[1..] == "." + pattern[2..];
      DottedSuffix(group, pattern[2..]);
      assert (["*"] + Labels(pattern[2..]))[1..] == Labels(pattern[2..]);
    } else {
      PlainSuffix(group, pattern);
    }
  }

  lemma LabelsCut(s: string)
    ensures match Cut(s, '.')
            case None => Labels(s) == [s] && SplitN(s, '.', 2) == [s]
            case Some((before, after)) => Labels(s) == [before] + Labels(after) && SplitN(s, '.', 2) == [before, after]
  {
  }

  lemma SelectsItself(labels: seq<string>)
    requires |labels| >= 1
    ensures Selected(labels, labels)
  {
    if |labels| > 1 {
      assert labels[1..][1..] == labels[2..];
    }
  }

  lemma GroupedPattern(idKind: string, idGroup: string, kind: string, group: string)
    ensures Selected([idKind] + Labels(idGroup), [kind] + Labels(group)) <==>
              (kind == "*" || kind == idKind) && MatchesGroupPattern(idGroup, group)
  {
    assert ([kind] + Labels(group))[1..] == Labels(group);
    assert ([idKind] + Labels(idGroup))[1..] == Labels(idGroup);
    GroupPatternIsLabelSuffix(idGroup, group);
  }

  /** Matching on strings is selection on labels. */
  lemma PatternIsSelection(id: string, pattern: string)
    ensures MatchesPattern(id, pattern) <==> Selected(Labels(id), Labels(pattern))
  {
    StarLabel(pattern);
    if id == pattern {
      SelectsItself(Labels(id));
    } else if pattern != "*" {
      LabelsCut(id);
      LabelsCut(pattern);
      if Cut(pattern, '.').Some? && Cut(id, '.').Some? {
        var (kind, group) := Cut(pattern, '.').value;
        var (idKind, idGroup) := Cut(id, '.').value;
        GroupedPattern(idKind, idGroup, kind, group);
      }
    }
  }

  /** What a plain pattern selects, it selects together with all its subdomains. */
  lemma PlainPatternsTransitive(group: string, middle: string, pattern: string)
    requires MatchesGroupPattern(group, middle) && MatchesGroupPattern(middle, pattern)
    requires middle != "*" && !HasPrefix(middle, "*.")
    ensures MatchesGroupPattern(group, pattern)
  {
  }

  // ---------------------------------------------------------------- include and exclude lists

  ghost predicate MatchesSome(id: string, patterns: seq<string>) {
    exists pattern :: pattern in patterns && MatchesPattern(id, pattern)
  }

  ghost predicate Included(id: string, includes: seq<string>, excludes: seq<string>) {
    (|includes| == 0 || MatchesSome(id, includes)) && !MatchesSome(id, excludes)
  }

  method ShouldProcessResource(id: string, includes: seq<string>, excludes: seq<string>) returns (process: bool)
    ensures process <==> Included(id, includes, excludes)
  {
    if |includes| > 0 {
      var matched := false;
      for i := 0 to |includes|
        invariant !matched && !MatchesSome(id, includes[..i])
      {
        if MatchesPattern(id, includes[i]) {
          matched := true;
          break;
        }
        assert includes[..i + 1] == includes[..i] + [includes[i]];
      }
      assert includes[..|includes|] == includes;
      if !matched {
        return false;
      }
    }
    for i := 0 to |excludes|
      invariant !MatchesSome(id, excludes[..i])
    {
      if MatchesPattern(id, excludes[i]) {
        return false;
      }
      assert excludes[..i + 1] == excludes[..i] + [excludes[i]];
    }
    assert excludes[..|excludes|] == excludes;
    return true;
  }

  /** Excluding more, or including less, never selects more. */
  lemma ExcludingIsAntitone(id: string, includes: seq<string>, excludes: seq<string>, includes': seq<string>, excludes': seq<string>)
    requires forall pattern | pattern in excludes :: pattern in excludes'
    requires includes' == includes || (includes' != [] && (includes == [] || forall pattern | pattern in includes' :: pattern in includes))
    requires Included(id, includes', excludes')
    ensures Included(id, includes, excludes)
  {
  }

  // ---------------------------------------------------------------- discovery

  datatype ApiResource = ApiResource(name: string, kind: string)
  datatype ResourceList = ResourceList(groupVersion: string, resources: seq<ApiResource>)

  /** Only a group and a version give a group; the core API has a version alone. */
  function GroupOf(groupVersion: string): string {
    var parts := Split(groupVersion, '/');
    if |parts| == 2 then parts[0] else ""
  }

  function CapabilityId(group: string, kind: string): string {
    if group == "" then kind else kind + "." + group
  }

  /** A resource that is no subresource has this id. */
  ghost predicate FoundIn(resources: seq<ApiResource>, group: string, id: string) {
    exists resource :: resource in resources && '/' !in resource.name && CapabilityId(group, resource.kind) == id
  }

  ghost predicate Discovered(lists: seq<Option<ResourceList>>, id: string) {
    exists list :: Some(list) in lists && FoundIn(list.resources, GroupOf(list.groupVersion), id)
  }

  /** A group version is a group and a version with one slash between them. */
  predicate HasGroup(groupVersion: string, group: string, version: string) {
    groupVersion == group + "/" + version && group != "" && '/' !in group && '/' !in version
  }

  /** The id as text: the kind, then a dot and the group if there is one. */
  ghost predicate IsIdOf(id: string, groupVersion: string, kind: string) {
    if exists group, version :: HasGroup(groupVersion, group, version)
    then exists group, version :: HasGroup(groupVersion, group, version) && id == kind + "." + group
    else id == kind
  }

  lemma GroupIsText(groupVersion: string, group: string, version: string)
    requires HasGroup(groupVersion, group, version)
    ensures GroupOf(groupVersion) == group
  {
    assert groupVersion == group + ['/'] + version;
    SplitConcat(group, '/', version);
  }

  lemma NoGroupIsText(groupVersion: string)
    requires GroupOf(groupVersion) != ""
    ensures exists version :: HasGroup(groupVersion, GroupOf(groupVersion), version)
  {
    var parts := Split(groupVersion, '/');
    JoinSplit(groupVersion, '/');
    assert parts == [parts[0], parts[1]] && parts[1..] == [parts[1]];
    assert HasGroup(groupVersion, parts[0], parts[1]);
  }

  lemma IdIsText(groupVersion: string, kind: string, id: string)
    ensures CapabilityId(GroupOf(groupVersion), kind) == id <==> IsIdOf(id, groupVersion, kind)
  {
    if GroupOf(groupVersion) != "" {
      NoGroupIsText(groupVersion);
    }
    forall group, version | HasGroup(groupVersion, group, version)
      ensures group == GroupOf(groupVersion)
    {
      GroupIsText(groupVersion, group, version);
    }
  }

  ghost predicate NamedBy(list: ResourceList, resource: ApiResource, id: string) {
    resource in list.resources && '/' !in resource.name && IsIdOf(id, list.groupVersion, resource.kind)
  }

  /** The discovered ids are those of the resources that are no subresources. */
  lemma DiscoveredText(lists: seq<Option<ResourceList>>, id: string)
    ensures Discovered(lists, id) <==> exists list, resource :: Some(list) in lists && NamedBy(list, resource, id)
  {
    forall list: ResourceList, resource: ApiResource
      ensures CapabilityId(GroupOf(list.groupVersion), resource.kind) == id <==> IsIdOf(id, list.groupVersion, resource.kind)
    {
      IdIsText(list.groupVersion, resource.kind, id);
    }
    if Discovered(lists, id) {
      var list :| Some(list) in lists && FoundIn(list.resources, GroupOf(list.groupVersion), id);
      var resource :| resource in list.resources && '/' !in resource.name && CapabilityId(GroupOf(list.groupVersion), resource.kind) == id;
      assert NamedBy(list, resource, id);
    }
    if exists list, resource :: Some(list) in lists && NamedBy(list, resource, id) {
      var list, resource :| Some(list) in lists && NamedBy(list, resource, id);
      assert FoundIn(list.resources, GroupOf(list.groupVersion), id);
    }
  }

  ghost predicate Distinct(ids: seq<string>) {
    forall i, j | 0 <= i < j < |ids| :: ids[i] != ids[j]
  }

  /** The listing so far: every id seen once, those that pass the filters kept. */
  ghost predicate Kept(ids: seq<string>, seen: set<string>, includes: seq<string>, excludes: seq<string>) {
    Distinct(ids) && forall id :: id in ids <==> id in seen && Included(id, includes, excludes)
  }

  method AddResource(id: string, includes: seq<string>, excludes: seq<string>, ids: seq<string>, seen: set<string>)
    returns (ids': seq<string>, seen': set<string>)
    requires Kept(ids, seen, includes, excludes)
    ensures Kept(ids', seen', includes, excludes) && seen' == seen + {id}
  {
    ids', seen' := ids, seen + {id};
    if id in seen {
      return;
    }
    var process := ShouldProcessResource(id, includes, excludes);
    if process {
      ids' := ids + [id];
    }
  }

  method AddResources(list: ResourceList, includes: seq<string>, excludes: seq<string>, ids: seq<string>, seen: set<string>)
    returns (ids': seq<string>, seen': set<string>)
    requires Kept(ids, seen, includes, excludes)
    ensures Kept(ids', seen', includes, excludes)
    ensures forall id :: id in seen' <==> id in seen || FoundIn(list.resources, GroupOf(list.groupVersion), id)
  {
    var parts := Split(list.groupVersion, '/');
    var group := "";
    if |parts| == 2 {
      group := parts[0];
    }
    ids', seen' := ids, seen;
    for i := 0 to |list.resources|
      invariant Kept(ids', seen', includes, excludes)
      invariant forall id :: id in seen' <==> id in seen || FoundIn(list.resources[..i], group, id)
    {
      FoundOneMore(list.resources, i, group);
      if '/' in list.resources[i].name {
        continue;
      }
      var id := list.resources[i].kind;
      if group != "" {
        id := id + "." + group;
      }
      ids', seen' := AddResource(id, includes, excludes, ids', seen');
    }
    assert list.resources[..|list.resources|] == list.resources;
  }

  lemma FoundOneMore(resources: seq<ApiResource>, i: nat, group: string)
    requires i < |resources|
    ensures forall id :: FoundIn(resources[..i + 1], group, id) <==>
              FoundIn(resources[..i], group, id) || ('/' !in resources[i].name && CapabilityId(group, resources[i].kind) == id)
  {
    assert resources[..i + 1] == resources[..i] + [resources[i]];
    forall id
      ensures FoundIn(resources[..i + 1], group, id) <==>
                FoundIn(resources[..i], group, id) || ('/' !in resources[i].name && CapabilityId(group, resources[i].kind) == id)
    {
      if FoundIn(resources[..i], group, id) {
        var resource :| resource in resources[..i] && '/' !in resource.name && CapabilityId(group, resource.kind) == id;
        assert resource in resources[..i + 1];
      }
      assert resources[i] in resources[..i + 1];
    }
  }

  /** The discovered resources that pass the filters, each once although it may be served in several versions. */
  method ListAllResourceIDs(lists: seq<Option<ResourceList>>, includes: seq<string>, excludes: seq<string>) returns (ids: seq<string>)
    ensures Distinct(ids)
    ensures forall id :: id in ids <==> Discovered(lists, id) && Included(id, includes, excludes)
  {
    ids := [];
    var seen := {};
    for i := 0 to |lists|
      invariant Kept(ids, seen, includes, excludes)
      invariant forall id :: id in seen <==> Discovered(lists[..i], id)
    {
      DiscoveredOneMore(lists, i);
      if lists[i].None? {
        continue;
      }
      ids, seen := AddResources(lists[i].value, includes, excludes, ids, seen);
    }
    assert lists[..|lists|] == lists;
  }

  lemma DiscoveredOneMore(lists: seq<Option<ResourceList>>, i: nat)
    requires i < |lists|
    ensures forall id :: Discovered(lists[..i + 1], id) <==>
              Discovered(lists[..i], id)
              || (lists[i].Some? && FoundIn(lists[i].value.resources, GroupOf(lists[i].value.groupVersion), id))
  {
    assert lists[..i + 1] == lists[..i] + [lists[i]];
  }

  // ---------------------------------------------------------------- reconciliation

  function Elements(ids: seq<string>): set<string> {
    set id | id in ids
  }

  /** Exactly the ids of the first list that are not in the second, in order. */
  function Missing(ids: seq<string>, others: seq<string>): (r: seq<string>)
    ensures forall id :: id in r <==> id in ids && id !in others
  {
    if |ids| == 0 then []
    else
      var front, last := Missing(ids[..|ids| - 1], others), ids[|ids| - 1];
      assert ids == ids[..|ids| - 1] + [last];
      if last in others then front else front + [last]
  }

  method ToSet(ids: seq<string>) returns (s: set<string>)
    ensures s == Elements(ids)
  {
    s := {};
    for i := 0 to |ids|
      invariant s == Elements(ids[..i])
    {
      s := s + {ids[i]};
      assert ids[..i + 1] == ids[..i] + [ids[i]];
    }
    assert ids[..|ids|] == ids;
  }

  method ComputeCapabilityDiff(cluster: seq<string>, capabilities: seq<string>) returns (toScan: seq<string>, toDelete: seq<string>)
    ensures toScan == Missing(cluster, capabilities) && toDelete == Missing(capabilities, cluster)
  {
    var clusterSet := ToSet(cluster);
    var capabilitySet := ToSet(capabilities);
    toScan, toDelete := [], [];
    for i := 0 to |cluster|
      invariant toScan == Missing(cluster[..i], capabilities)
    {
      if cluster[i] !in capabilitySet {
        toScan := toScan + [cluster[i]];
      }
      assert cluster[..i + 1][..i] == cluster[..i];
    }
    for i := 0 to |capabilities|
      invariant toDelete == Missing(capabilities[..i], cluster)
    {
      if capabilities[i] !in clusterSet {
        toDelete := toDelete + [capabilities[i]];
      }
      assert capabilities[..i + 1][..i] == capabilities[..i];
    }
    assert cluster[..|cluster|] == cluster && capabilities[..|capabilities|] == capabilities;
  }

  /** Applying the plans, which never touch the same id, gives the cluster's set, and then nothing is left to do. */
  lemma DiffReconciles(cluster: seq<string>, capabilities: seq<string>, after: seq<string>)
    requires Elements(after) == Elements(capabilities) - Elements(Missing(capabilities, cluster)) + Elements(Missing(cluster, capabilities))
    ensures Elements(after) == Elements(cluster)
    ensures Elements(Missing(cluster, capabilities)) !! Elements(Missing(capabilities, cluster))
    ensures Missing(cluster, after) == [] && Missing(after, cluster) == []
  {
    assert forall id :: id in Elements(cluster) <==> id in cluster;
    assert forall id :: id in Elements(capabilities) <==> id in capabilities;
    assert forall id :: id in Elements(after) <==> id in after;
    NothingMissing(cluster, after);
    NothingMissing(after, cluster);
  }

  lemma {:induction false} NothingMissing(ids: seq<string>, others: seq<string>)
    requires forall id | id in ids :: id in others
    ensures Missing(ids, others) == []
  {
    if |ids| > 0 {
      NothingMissing(ids[..|ids| - 1], others);
    }
  }

  method Listed(ids: set<string>) returns (list: seq<string>)
    ensures Elements(list) == ids
  {
    list := [];
    var rest := ids;
    while rest != {}
      invariant rest <= ids && Elements(list) == ids - rest
      decreases rest
    {
      var id :| id in rest;
      rest := rest - {id};
      assert Elements(list + [id]) == Elements(list) + {id};
      list := list + [id];
    }
  }

  /** The capabilities that the server knows; a request that failed may have had its effect. */
  class CapabilityServer {
    var known: set<string>

    constructor (known: set<string>)
      ensures this.known == known
    {
      this.known := known;
    }

    method ListCapabilityIDs() returns (ids: seq<string>)
      ensures Elements(ids) == known
    {
      ids := Listed(known);
    }

    method TriggerScan(ids: seq<string>, fails: bool)
      modifies this
      ensures old(known) <= known <= old(known) + Elements(ids)
      ensures !fails ==> known == old(known) + Elements(ids)
    {
      var reached: set<string> := *;
      known := if fails then known + Elements(ids) * reached else known + Elements(ids);
    }

    method DeleteCapability(id: string, fails: bool)
      modifies this
      ensures old(known) - {id} <= known <= old(known)
      ensures !fails ==> known == old(known) - {id}
    {
      var reached: bool := *;
      if !fails || reached {
        known := known - {id};
      }
    }
  }

  /**
    Reconciliation at startup. Failures never undo anything and never stop the other requests: a known
    id of the cluster stays, an orphan goes unless its own deletion failed, a missing id comes unless
    the scan failed. Without failures the server knows exactly the cluster's ids.
   */
  method PerformStartupReconciliation(server: CapabilityServer, cluster: Option<seq<string>>, listingFails: bool, scanFails: bool,
                                      undeletable: set<string>)
    modifies server
    ensures cluster.None? || listingFails ==> server.known == old(server.known)
    ensures cluster.Some? && !listingFails ==>
              var wanted := Elements(cluster.value);
              && old(server.known) * wanted <= server.known <= old(server.known) + wanted
              && server.known - wanted <= undeletable
              && (!scanFails ==> wanted <= server.known)
              && (!scanFails && undeletable !! old(server.known) - wanted ==> server.known == wanted)
  {
    if cluster.None? || listingFails {
      return;
    }
    var capabilities := server.ListCapabilityIDs();
    var toScan, toDelete := ComputeCapabilityDiff(cluster.value, capabilities);
    if |toScan| > 0 {
      server.TriggerScan(toScan, scanFails);
    }
    ghost var scanned := server.known;
    assert !scanFails ==> scanned == old(server.known) + Elements(toScan);
    for i := 0 to |toDelete|
      invariant scanned - Elements(toDelete[..i]) <= server.known <= scanned
      invariant server.known * Elements(toDelete[..i]) <= undeletable
    {
      server.DeleteCapability(toDelete[i], toDelete[i] in undeletable);
      assert toDelete[..i + 1] == toDelete[..i] + [toDelete[i]];
    }
    assert toDelete[..|toDelete|] == toDelete;
    PlansCover(cluster.value, capabilities);
    PlansSettle(old(server.known), Elements(cluster.value), scanned, server.known, undeletable);
  }

  // ---------------------------------------------------------------- partial discovery

  /** What discovery returns when the API groups in `silent` do not answer. */
  function Answered(served: seq<ResourceList>, silent: set<string>): (lists: seq<Option<ResourceList>>)
    ensures |lists| == |served|
    ensures forall i | 0 <= i < |served| ::
              lists[i] == if served[i].groupVersion in silent then None else Some(served[i])
  {
    seq(|served|, i requires 0 <= i < |served| => if served[i].groupVersion in silent then None else Some(served[i]))
  }

  /** A type of the cluster, from the group version that serves it. */
  ghost predicate Serves(list: ResourceList, id: string) {
    FoundIn(list.resources, GroupOf(list.groupVersion), id)
  }

  ghost predicate Live(served: seq<ResourceList>, id: string) {
    exists list :: list in served && Serves(list, id)
  }

  ghost predicate Heard(served: seq<ResourceList>, silent: set<string>, id: string) {
    exists list :: list in served && Serves(list, id) && list.groupVersion !in silent
  }

  lemma DiscoveredIsHeard(served: seq<ResourceList>, silent: set<string>, id: string)
    ensures Discovered(Answered(served, silent), id) <==> Heard(served, silent, id)
  {
    var lists := Answered(served, silent);
    if Discovered(lists, id) {
      var list :| Some(list) in lists && FoundIn(list.resources, GroupOf(list.groupVersion), id);
      var i :| 0 <= i < |lists| && lists[i] == Some(list);
      assert list in served && Serves(list, id);
    }
    if Heard(served, silent, id) {
      var list :| list in served && Serves(list, id) && list.groupVersion !in silent;
      var i :| 0 <= i < |served| && served[i] == list;
      assert lists[i] in lists;
    }
  }

  ghost predicate SurvivesIffHeard(served: seq<ResourceList>, silent: set<string>, includes: seq<string>, excludes: seq<string>,
                                   after: set<string>, id: string)
  {
    id in after <==> Heard(served, silent, id) && Included(id, includes, excludes)
  }

  /** Of the ids known before whose deletion would go through, those are left that were heard of and pass the filters. */
  ghost predicate Survivors(before: set<string>, served: seq<ResourceList>, silent: set<string>, includes: seq<string>,
                            excludes: seq<string>, undeletable: set<string>, after: set<string>)
  {
    forall id | id in before && id !in undeletable :: SurvivesIffHeard(served, silent, includes, excludes, after, id)
  }

  /**
    Reconciliation on whatever discovery returned. A known capability whose deletion would go through
    survives exactly if it passes the filters and a group version that answered serves it, so a live one
    is lost exactly if the filters reject it or all that serve it were silent. Nothing else comes to be
    known, and unless the scan fails all that was heard of and passes the filters does.
   */
  method ReconcileAfterDiscovery(server: CapabilityServer, served: seq<ResourceList>, silent: set<string>, includes: seq<string>,
                                 excludes: seq<string>, scanFails: bool, undeletable: set<string>)
    modifies server
    ensures Survivors(old(server.known), served, silent, includes, excludes, undeletable, server.known)
    ensures forall id | id in server.known - old(server.known) :: Heard(served, silent, id) && Included(id, includes, excludes)
    ensures !scanFails ==> forall id | Heard(served, silent, id) && Included(id, includes, excludes) :: id in server.known
  {
    var lists := Answered(served, silent);
    var ids := ListAllResourceIDs(lists, includes, excludes);
    PerformStartupReconciliation(server, Some(ids), false, scanFails, undeletable);
    forall id
      ensures id in Elements(ids) <==> Heard(served, silent, id) && Included(id, includes, excludes)
    {
      DiscoveredIsHeard(served, silent, id);
    }
    forall id | id in old(server.known) && id !in undeletable
      ensures SurvivesIffHeard(served, silent, includes, excludes, server.known, id)
    {
      Survives(old(server.known), Elements(ids), undeletable, server.known, id);
    }
  }

  lemma Survives(before: set<string>, wanted: set<string>, undeletable: set<string>, after: set<string>, id: string)
    requires before * wanted <= after && after - wanted <= undeletable && id in before && id !in undeletable
    ensures id in after <==> id in wanted
  {
    assert id in wanted ==> id in before * wanted;
    assert id in after && id !in wanted ==> id in after - wanted;
  }

  /** A live type that passes the filters is lost exactly if every group version that serves it is silent. */
  lemma LiveTypeLostIff(before: set<string>, served: seq<ResourceList>, silent: set<string>, includes: seq<string>, excludes: seq<string>,
                        undeletable: set<string>, after: set<string>, id: string)
    requires Survivors(before, served, silent, includes, excludes, undeletable, after)
    requires id in before && id !in undeletable && Live(served, id) && Included(id, includes, excludes)
    ensures id !in after <==> forall list | list in served && Serves(list, id) :: list.groupVersion in silent
  {
    assert SurvivesIffHeard(served, silent, includes, excludes, after, id);
  }

  lemma GroupOfVersion(group: string, version: string)
    requires '/' !in group && '/' !in version
    ensures GroupOf(group + ['/'] + version) == group
  {
    SplitConcat(group, '/', version);
  }

  /** One type is served and known, its group does not answer, and reconciliation deletes it. */
  method LoseSilentType(group: string, version: string, name: string, kind: string)
    returns (served: seq<ResourceList>, id: string, before: set<string>, after: set<string>)
    requires '/' !in group && '/' !in version && '/' !in name
    ensures served == [ResourceList(group + ['/'] + version, [ApiResource(name, kind)])] && id == CapabilityId(group, kind)
    ensures Live(served, id) && before == {id} && after == {}
  {
    var list := ResourceList(group + ['/'] + version, [ApiResource(name, kind)]);
    id := CapabilityId(group, kind);
    served, before := [list], {id};
    var server := new CapabilityServer(before);
    ReconcileAfterDiscovery(server, served, {list.groupVersion}, [], [], false, {});
    after := server.known;
    GroupOfVersion(group, version);
    assert list.resources[0] in list.resources && Serves(list, id) && list in served;
    assert SurvivesIffHeard(served, {list.groupVersion}, [], [], after, id);
    NoneHeard(list, before, after);
  }

  lemma NoneHeard(list: ResourceList, before: set<string>, after: set<string>)
    requires forall id | id in before :: id !in after
    requires forall id | id in after - before :: Heard([list], {list.groupVersion}, id)
    ensures after == {}
  {
    forall id
      ensures id !in after
    {
      assert !Heard([list], {list.groupVersion}, id);
      assert id in after && id !in before ==> id in after - before;
    }
  }

  /** The same with actual values. */
  method SilentGroupExample() returns (served: seq<ResourceList>, id: string, before: set<string>, after: set<string>)
    ensures |served| == 1 && served[0].groupVersion == "apps/v1" && served[0].resources == [ApiResource("deployments", "Deployment")]
    ensures id == "Deployment.apps" && Live(served, id) && before == {id} && after == {}
  {
    served, id, before, after := LoseSilentType("apps", "v1", "deployments", "Deployment");
  }

  lemma PlansSettle(before: set<string>, wanted: set<string>, scanned: set<string>, after: set<string>, undeletable: set<string>)
    requires before <= scanned <= before + (wanted - before)
    requires scanned - (before - wanted) <= after <= scanned && after * (before - wanted) <= undeletable
    ensures before * wanted <= after <= before + wanted && after - wanted <= undeletable
    ensures wanted <= scanned ==> wanted <= after
    ensures wanted <= scanned && undeletable !! before - wanted ==> after == wanted
  {
    assert after - wanted <= undeletable * (before - wanted);
    if wanted <= scanned && undeletable !! before - wanted {
      assert after == wanted + (after - wanted) && after - wanted == {};
    }
  }

  lemma PlansCover(cluster: seq<string>, capabilities: seq<string>)
    ensures Elements(Missing(cluster, capabilities)) == Elements(cluster) - Elements(capabilities)
    ensures Elements(Missing(capabilities, cluster)) == Elements(capabilities) - Elements(cluster)
  {
    assert forall id :: id in Elements(cluster) <==> id in cluster;
    assert forall id :: id in Elements(capabilities) <==> id in capabilities;
    assert forall id :: id in Elements(Missing(cluster, capabilities)) <==> id in Missing(cluster, capabilities);
    assert forall id :: id in Elements(Missing(capabilities, cluster)) <==> id in Missing(capabilities, cluster);
  }

  // ---------------------------------------------------------------- the event buffer

  datatype CrdChange = CrdChange(resourceId: string, isDelete: bool)

  /** The ids with some delete among the events; absent and unnamed events count for nothing. */
  ghost predicate HasDelete(events: seq<Option<CrdChange>>, id: string) {
    id != "" && Some(CrdChange(id, true)) in events
  }

  ghost predicate HasScan(events: seq<Option<CrdChange>>, id: string) {
    id != "" && Some(CrdChange(id, false)) in events
  }

  /** What a flush sends for the events since the last flush: a delete wins over every scan, whatever their order. */
  ghost predicate BatchOf(events: seq<Option<CrdChange>>, scans: set<string>, deletes: set<string>) {
    && (forall id :: id in deletes <==> HasDelete(events, id))
    && (forall id :: id in scans <==> HasScan(events, id) && !HasDelete(events, id))
  }

  /** The last of the events about an id. */
  function LastOf(events: seq<Option<CrdChange>>, id: string): (last: Option<CrdChange>)
    ensures last.Some? <==> exists change :: Some(change) in events && change.resourceId == id
    ensures last.Some? ==> last in events && last.value.resourceId == id
  {
    if |events| == 0 then None
    else
      var front, last := events[..|events| - 1], events[|events| - 1];
      assert events == front + [last];
      if last.Some? && last.value.resourceId == id then last else LastOf(front, id)
  }

  /** The batch does for an id what the last event about it asks. */
  predicate FollowsLast(events: seq<Option<CrdChange>>, scans: set<string>, deletes: set<string>, id: string) {
    var last := LastOf(events, id);
    last.Some? ==> if last.value.isDelete then id in deletes && id !in scans else id in scans && id !in deletes
  }

  predicate KnownAsLastAsks(events: seq<Option<CrdChange>>, known: set<string>, id: string)
    requires LastOf(events, id).Some?
  {
    id in known <==> !LastOf(events, id).value.isDelete
  }

  /** The last event about an id is a delete, or none is. */
  ghost predicate EndsInDeleteOrHasNone(events: seq<Option<CrdChange>>, id: string)
    requires LastOf(events, id).Some?
  {
    LastOf(events, id).value.isDelete || !HasDelete(events, id)
  }

  /** The last state wins for an id exactly if its last event is a delete or no event about it is one. */
  lemma LastStateWinsIff(events: seq<Option<CrdChange>>, scans: set<string>, deletes: set<string>, id: string)
    requires BatchOf(events, scans, deletes) && id != "" && LastOf(events, id).Some?
    ensures FollowsLast(events, scans, deletes, id) <==> EndsInDeleteOrHasNone(events, id)
  {
    var last := LastOf(events, id);
    assert last == Some(CrdChange(id, last.value.isDelete)) && last in events;
  }

  /** The flushed server knows an id as its last event asks, under the same condition. */
  lemma ServerFollowsLastIff(events: seq<Option<CrdChange>>, before: set<string>, scans: set<string>, deletes: set<string>,
                             undeletable: set<string>, after: set<string>, id: string)
    requires BatchOf(events, scans, deletes) && id != "" && LastOf(events, id).Some?
    requires Flushed(before, scans, deletes, false, undeletable, after) && id !in undeletable
    ensures KnownAsLastAsks(events, after, id) <==> EndsInDeleteOrHasNone(events, id)
  {
    LastStateWinsIff(events, scans, deletes, id);
  }

  /** A type deleted and created again between two flushes: its last event asks for a scan, and it is deleted. */
  lemma RecreatedTypeIsDeleted(id: string, scans: set<string>, deletes: set<string>)
    requires id != "" && BatchOf([Some(CrdChange(id, true)), Some(CrdChange(id, false))], scans, deletes)
    ensures LastOf([Some(CrdChange(id, true)), Some(CrdChange(id, false))], id) == Some(CrdChange(id, false))
    ensures scans == {} && deletes == {id}
  {
    var events := [Some(CrdChange(id, true)), Some(CrdChange(id, false))];
    assert events[0] in events && HasDelete(events, id);
  }

  class CapabilityScanBuffer {
    var pendingScans: set<string>
    var pendingDeletes: set<string>
    ghost var since: seq<Option<CrdChange>>

    ghost predicate Valid()
      reads this
    {
      BatchOf(since, pendingScans, pendingDeletes)
    }

    constructor ()
      ensures Valid() && since == []
    {
      pendingScans, pendingDeletes, since := {}, {}, [];
    }

    method Record(change: Option<CrdChange>)
      requires Valid()
      modifies this
      ensures Valid() && since == old(since) + [change]
    {
      since := since + [change];
      if change.None? || change.value.resourceId == "" {
        return;
      }
      var id := change.value.resourceId;
      if change.value.isDelete {
        pendingScans := pendingScans - {id};
        pendingDeletes := pendingDeletes + {id};
      } else if id !in pendingDeletes {
        pendingScans := pendingScans + {id};
      }
    }

    /** Empties the buffer; requests that fail are not repeated. */
    method Flush(server: CapabilityServer?, scanFails: bool, undeletable: set<string>)
      requires Valid()
      modifies this, server
      ensures Valid() && since == [] && pendingScans == {} && pendingDeletes == {}
      ensures server != null ==> Flushed(old(server.known), old(pendingScans), old(pendingDeletes), scanFails, undeletable, server.known)
      ensures server != null && !scanFails ==>
                forall id | id != "" && id !in undeletable && LastOf(old(since), id).Some? ::
                  KnownAsLastAsks(old(since), server.known, id) <==> EndsInDeleteOrHasNone(old(since), id)
    {
      var scans, deletes := pendingScans, pendingDeletes;
      pendingScans, pendingDeletes, since := {}, {}, [];
      if (scans == {} && deletes == {}) || server == null {
        return;
      }
      if scans != {} {
        var ids := Listed(scans);
        server.TriggerScan(ids, scanFails);
      }
      var ids := Listed(deletes);
      ghost var scanned := server.known;
      for i := 0 to |ids|
        invariant since == [] && pendingScans == {} && pendingDeletes == {}
        invariant scanned - Elements(ids[..i]) <= server.known <= scanned
        invariant server.known * Elements(ids[..i]) <= undeletable
      {
        server.DeleteCapability(ids[i], ids[i] in undeletable);
        assert ids[..i + 1] == ids[..i] + [ids[i]];
      }
      assert ids[..|ids|] == ids;
      if !scanFails {
        forall id | id != "" && id !in undeletable && LastOf(old(since), id).Some?
          ensures KnownAsLastAsks(old(since), server.known, id) <==> EndsInDeleteOrHasNone(old(since), id)
        {
          ServerFollowsLastIff(old(since), old(server.known), scans, deletes, undeletable, server.known, id);
        }
      }
    }
  }

  /** The server after a flush: scans are there unless the scan failed, a deleted id is gone unless its own deletion failed. */
  predicate Flushed(before: set<string>, scans: set<string>, deletes: set<string>, scanFails: bool, undeletable: set<string>, after: set<string>) {
    && before - deletes <= after <= before + scans
    && after * deletes <= undeletable
    && (!scanFails ==> scans - deletes <= after)
  }

  /** Events in any order make the same batch, whose two parts share no id. */
  lemma BatchOrderIrrelevant(events: seq<Option<CrdChange>>, events': seq<Option<CrdChange>>, scans: set<string>, deletes: set<string>)
    requires BatchOf(events, scans, deletes) && multiset(events) == multiset(events')
    ensures BatchOf(events', scans, deletes) && scans !! deletes
  {
    forall event
      ensures event in events <==> event in events'
    {
      assert event in events <==> event in multiset(events);
      assert event in events' <==> event in multiset(events');
    }
  }
}
