/**
 * The nearby-report fold of `getNearbyReports` (backend/src/handlers/reports.ts):
 * candidate reports are filtered by expiry and distance, then grouped by
 * `geoHash6#side`. A group keeps the position of the first report it met,
 * takes count bucket and timestamp from the first report holding the
 * greatest timestamp, and reports the mean confidence rounded to two
 * decimals.
 *
 * The fold is `Groups`, written the way the source's loop runs; the
 * reference definitions it is proved against are `MembersOf` (the reports
 * of one key, in order) and `LatestIndex` (the first report holding the
 * maximum timestamp).
 */
module Aggregation {
  import opened Wrappers
  import opened Types

  /** The grouping key `geoHash6#side`, which is also a report's partition key. */
  function ClusterKey(cell: string, side: Side): string {
    cell + "#" + SideText(side)
  }

  function KeyOf(r: ParkingReport): string {
    ClusterKey(r.geoHash6, r.side)
  }

  /** Grouping by the key string is grouping by the pair: the one-character side makes the key injective. */
  lemma ClusterKeyInjective(cell: string, side: Side, cell': string, side': Side)
    ensures ClusterKey(cell, side) == ClusterKey(cell', side') <==> (cell == cell' && side == side')
  {
    var k, k' := ClusterKey(cell, side), ClusterKey(cell', side');
    if k == k' {
      SideTextShape(side, side');
      assert |cell| == |cell'|;
      assert k[..|cell|] == cell && k'[..|cell'|] == cell';
      assert SideText(side)[0] == k[|k| - 1] == k'[|k'| - 1] == SideText(side')[0];
      assert SideText(side) == [SideText(side)[0]] && SideText(side') == [SideText(side')[0]];
    }
  }

  // ---------------------------------------------------------------------
  // Filtering
  // ---------------------------------------------------------------------

  /** The query: centre, radius (None when the radius text parsed to NaN), clock in milliseconds, and distance. */
  datatype Query = Query(lat: real, lng: real, radius: Option<real>, now: int, distance: (real, real, real, real) -> real)

  /** A report is skipped once `expiresAt * 1000 < now`; expiresAt is in seconds. */
  predicate IsLive(r: ParkingReport, now: int) {
    !(r.expiresAt * 1000 < now)
  }

  /** `distance > radius` skips a report; a NaN radius compares false, so it skips nothing. */
  predicate WithinRadius(q: Query, r: ParkingReport) {
    q.radius.None? || !(q.distance(q.lat, q.lng, r.lat, r.lng) > q.radius.value)
  }

  predicate Contributes(q: Query, r: ParkingReport) {
    IsLive(r, q.now) && WithinRadius(q, r)
  }

  /** The candidates that survive both filters, in candidate order. */
  function Surviving(q: Query, rs: seq<ParkingReport>): (out: seq<ParkingReport>)
    ensures forall r :: r in out <==> r in rs && Contributes(q, r)
    ensures |out| <= |rs|
  {
    if rs == [] then []
    else (if Contributes(q, rs[0]) then [rs[0]] else []) + Surviving(q, rs[1..])
  }

  // ---------------------------------------------------------------------
  // Reference definitions
  // ---------------------------------------------------------------------

  /** The reports carrying key `k`, in order. */
  function MembersOf(rs: seq<ParkingReport>, k: string): (ms: seq<ParkingReport>)
    ensures forall m :: m in ms ==> m in rs && KeyOf(m) == k
    ensures forall r :: r in rs && KeyOf(r) == k ==> r in ms
  {
    if rs == [] then []
    else
      var last := rs[|rs| - 1];
      MembersOf(rs[..|rs| - 1], k) + (if KeyOf(last) == k then [last] else [])
  }

  /** The position of the first report carrying key `k`, or `|rs|` when none does. */
  function FirstPos(rs: seq<ParkingReport>, k: string): (p: nat)
    ensures p <= |rs|
    ensures p < |rs| ==> KeyOf(rs[p]) == k
    ensures forall i :: 0 <= i < p ==> KeyOf(rs[i]) != k
  {
    if rs == [] then 0
    else if KeyOf(rs[0]) == k then 0
    else 1 + FirstPos(rs[1..], k)
  }

  /** `j` is the first position holding the greatest timestamp. */
  predicate IsFirstLatest(ms: seq<ParkingReport>, j: int) {
    && 0 <= j < |ms|
    && (forall i :: 0 <= i < |ms| ==> ms[i].ts <= ms[j].ts)
    && (forall i :: 0 <= i < j ==> ms[i].ts < ms[j].ts)
  }

  lemma FirstLatestUnique(ms: seq<ParkingReport>, j: int, j': int)
    requires IsFirstLatest(ms, j) && IsFirstLatest(ms, j')
    ensures j == j'
  {
    assert ms[j].ts <= ms[j'].ts && ms[j'].ts <= ms[j].ts;
  }

  /** The position of the first report holding the greatest timestamp. */
  function LatestIndex(ms: seq<ParkingReport>): (j: nat)
    requires |ms| > 0
    ensures IsFirstLatest(ms, j)
  {
    if |ms| == 1 then 0
    else
      var j0 := LatestIndex(ms[1..]);
      if ms[0].ts >= ms[1..][j0].ts then 0 else j0 + 1
  }

  function SumConfidence(ms: seq<ParkingReport>): real {
    if ms == [] then 0.0 else SumConfidence(ms[..|ms| - 1]) + ms[|ms| - 1].confidence
  }

  function Mean(ms: seq<ParkingReport>): real
    requires |ms| > 0
  {
    SumConfidence(ms) / |ms| as real
  }

  /** `Math.round(x * 100) / 100`: the nearest whole number of hundredths, halves rounding up. */
  function Round2(x: real): (r: real)
    ensures (r * 100.0).Floor as real == r * 100.0
    ensures r * 100.0 - 0.5 <= x * 100.0 < r * 100.0 + 0.5
    ensures x - 0.005 < r <= x + 0.005
  {
    (x * 100.0 + 0.5).Floor as real / 100.0
  }

  // ---------------------------------------------------------------------
  // The fold
  // ---------------------------------------------------------------------

  /** A cluster under construction: `first` is the report that opened it. */
  datatype Group = Group(key: string, first: ParkingReport, bucket: CountBucket, lastTs: int, members: seq<ParkingReport>)

  /** The position of the group with key `k`, or `|gs|` when there is none. */
  function IndexOfKey(gs: seq<Group>, k: string): (i: nat)
    ensures i <= |gs|
    ensures i < |gs| ==> gs[i].key == k
    ensures forall j :: 0 <= j < i ==> gs[j].key != k
  {
    if gs == [] then 0
    else if gs[0].key == k then 0
    else 1 + IndexOfKey(gs[1..], k)
  }

  /** One iteration of the source's loop: open a group if the key is new, then add the report and apply "latest wins". */
  function AddReport(gs: seq<Group>, r: ParkingReport): seq<Group> {
    var i := IndexOfKey(gs, KeyOf(r));
    if i < |gs| then
      var g := gs[i];
      var g' := g.(members := g.members + [r]);
      gs[i := if r.ts > g.lastTs then g'.(bucket := r.countBucket, lastTs := r.ts) else g']
    else
      gs + [Group(KeyOf(r), r, r.countBucket, r.ts, [r])]
  }

  function Groups(rs: seq<ParkingReport>): seq<Group> {
    if rs == [] then [] else AddReport(Groups(rs[..|rs| - 1]), rs[|rs| - 1])
  }

  /** What a finished group says about the reports folded so far. */
  ghost predicate GroupAgrees(g: Group, rs: seq<ParkingReport>) {
    && g.members == MembersOf(rs, g.key)
    && |g.members| > 0
    && g.first == g.members[0]
    && g.lastTs == g.members[LatestIndex(g.members)].ts
    && g.bucket == g.members[LatestIndex(g.members)].countBucket
  }

  ghost predicate GroupsInv(gs: seq<Group>, rs: seq<ParkingReport>) {
    && (forall i, j :: 0 <= i < j < |gs| ==> gs[i].key != gs[j].key)
    && (forall i :: 0 <= i < |gs| ==> GroupAgrees(gs[i], rs))
    && (forall r :: r in rs ==> IndexOfKey(gs, KeyOf(r)) < |gs|)
  }

  lemma MembersOfAppend(rs: seq<ParkingReport>, r: ParkingReport, k: string)
    ensures MembersOf(rs + [r], k) == MembersOf(rs, k) + (if KeyOf(r) == k then [r] else [])
  {
    assert (rs + [r])[..|rs|] == rs;
  }

  lemma MembersOfAbsent(rs: seq<ParkingReport>, k: string)
    requires forall r :: r in rs ==> KeyOf(r) != k
    ensures MembersOf(rs, k) == []
    decreases |rs|
  {
    if rs != [] {
      assert rs[|rs| - 1] in rs;
      MembersOfAbsent(rs[..|rs| - 1], k);
    }
  }

  /** Appending a report that is not later than the current latest keeps the latest position. */
  lemma LatestAppendOlder(ms: seq<ParkingReport>, r: ParkingReport)
    requires |ms| > 0
    requires r.ts <= ms[LatestIndex(ms)].ts
    ensures LatestIndex(ms + [r]) == LatestIndex(ms)
  {
    var ms' := ms + [r];
    var j := LatestIndex(ms);
    assert forall i :: 0 <= i < |ms| ==> ms'[i] == ms[i];
    assert IsFirstLatest(ms', j);
    FirstLatestUnique(ms', j, LatestIndex(ms'));
  }

  /** Appending a strictly later report moves the latest position to it. */
  lemma LatestAppendNewer(ms: seq<ParkingReport>, r: ParkingReport)
    requires |ms| > 0
    requires r.ts > ms[LatestIndex(ms)].ts
    ensures LatestIndex(ms + [r]) == |ms|
  {
    var ms' := ms + [r];
    assert forall i :: 0 <= i < |ms| ==> ms'[i] == ms[i];
    assert IsFirstLatest(ms', |ms|);
    FirstLatestUnique(ms', |ms|, LatestIndex(ms'));
  }

  /** Groups other than the one receiving `r` keep agreeing with the longer report list. */
  lemma OtherGroupsAgree(gs: seq<Group>, rs: seq<ParkingReport>, r: ParkingReport)
    requires GroupsInv(gs, rs)
    ensures var i := IndexOfKey(gs, KeyOf(r));
            forall j :: 0 <= j < |gs| && j != i ==> GroupAgrees(AddReport(gs, r)[j], rs + [r])
  {
    var i := IndexOfKey(gs, KeyOf(r));
    var gs' := AddReport(gs, r);
    forall j | 0 <= j < |gs| && j != i
      ensures GroupAgrees(gs'[j], rs + [r])
    {
      assert gs'[j] == gs[j];
      MembersOfAppend(rs, r, gs[j].key);
    }
  }

  /** The group receiving `r` when its key is already present. */
  lemma ExistingGroupAgrees(g: Group, rs: seq<ParkingReport>, r: ParkingReport)
    requires GroupAgrees(g, rs) && g.key == KeyOf(r)
    ensures var g' := g.(members := g.members + [r]);
            GroupAgrees(if r.ts > g.lastTs then g'.(bucket := r.countBucket, lastTs := r.ts) else g', rs + [r])
  {
    MembersOfAppend(rs, r, g.key);
    var ms' := g.members + [r];
    assert ms'[0] == g.members[0];
    assert ms'[|g.members|] == r;
    if r.ts > g.lastTs {
      LatestAppendNewer(g.members, r);
    } else {
      LatestAppendOlder(g.members, r);
      assert ms'[LatestIndex(g.members)] == g.members[LatestIndex(g.members)];
    }
  }

  /** The group opened for a key seen for the first time. */
  lemma NewGroupAgrees(gs: seq<Group>, rs: seq<ParkingReport>, r: ParkingReport)
    requires GroupsInv(gs, rs) && IndexOfKey(gs, KeyOf(r)) == |gs|
    ensures GroupAgrees(Group(KeyOf(r), r, r.countBucket, r.ts, [r]), rs + [r])
  {
    forall x | x in rs
      ensures KeyOf(x) != KeyOf(r)
    {
      assert IndexOfKey(gs, KeyOf(x)) < |gs|;
    }
    MembersOfAbsent(rs, KeyOf(r));
    MembersOfAppend(rs, r, KeyOf(r));
  }

  /** Every key folded so far, including the new one, still has a group. */
  lemma AddReportCovers(gs: seq<Group>, rs: seq<ParkingReport>, r: ParkingReport)
    requires GroupsInv(gs, rs)
    ensures forall x :: x in rs + [r] ==> IndexOfKey(AddReport(gs, r), KeyOf(x)) < |AddReport(gs, r)|
  {
    var gs' := AddReport(gs, r);
    assert |gs'| >= |gs|;
    assert forall j :: 0 <= j < |gs| ==> gs'[j].key == gs[j].key;
    forall x | x in rs + [r]
      ensures IndexOfKey(gs', KeyOf(x)) < |gs'|
    {
      var ix := if x in rs then IndexOfKey(gs, KeyOf(x)) else IndexOfKey(gs, KeyOf(r));
      if ix < |gs| {
        assert gs'[ix].key == KeyOf(x);
      } else {
        assert gs'[|gs|].key == KeyOf(x);
      }
    }
  }

  /** Adding a report never creates a second group for a key. */
  lemma AddReportKeysDistinct(gs: seq<Group>, rs: seq<ParkingReport>, r: ParkingReport)
    requires GroupsInv(gs, rs)
    ensures var gs' := AddReport(gs, r);
            forall i, j :: 0 <= i < j < |gs'| ==> gs'[i].key != gs'[j].key
  {
    var gs' := AddReport(gs, r);
    var i := IndexOfKey(gs, KeyOf(r));
    if i < |gs| {
      assert |gs'| == |gs|;
      assert forall j :: 0 <= j < |gs| ==> gs'[j].key == gs[j].key;
    } else {
      assert |gs'| == |gs| + 1 && gs'[|gs|].key == KeyOf(r);
      assert forall j :: 0 <= j < |gs| ==> gs'[j] == gs[j];
    }
  }

  /** The agreement of every group after one step. */
  lemma AddReportAgrees(gs: seq<Group>, rs: seq<ParkingReport>, r: ParkingReport)
    requires GroupsInv(gs, rs)
    ensures var gs' := AddReport(gs, r);
            forall j :: 0 <= j < |gs'| ==> GroupAgrees(gs'[j], rs + [r])
  {
    var i := IndexOfKey(gs, KeyOf(r));
    OtherGroupsAgree(gs, rs, r);
    if i < |gs| {
      ExistingGroupAgrees(gs[i], rs, r);
    } else {
      NewGroupAgrees(gs, rs, r);
    }
  }

  lemma AddReportKeepsInv(gs: seq<Group>, rs: seq<ParkingReport>, r: ParkingReport)
    requires GroupsInv(gs, rs)
    ensures GroupsInv(AddReport(gs, r), rs + [r])
  {
    AddReportKeysDistinct(gs, rs, r);
    AddReportAgrees(gs, rs, r);
    AddReportCovers(gs, rs, r);
  }

  lemma {:induction false} GroupsInvariant(rs: seq<ParkingReport>)
    ensures GroupsInv(Groups(rs), rs)
    decreases |rs|
  {
    if rs != [] {
      var init, last := rs[..|rs| - 1], rs[|rs| - 1];
      assert init + [last] == rs;
      GroupsInvariant(init);
      AddReportKeepsInv(Groups(init), init, last);
    }
  }

  /** Groups are in the order in which their keys first appear among the reports. */
  ghost predicate GroupsOrdered(gs: seq<Group>, rs: seq<ParkingReport>) {
    forall i, j :: 0 <= i < j < |gs| ==> FirstPos(rs, gs[i].key) < FirstPos(rs, gs[j].key)
  }

  /** A key that occurs keeps its first position when a report is appended; a new one is first found at the end. */
  lemma {:induction false} FirstPosAppend(rs: seq<ParkingReport>, r: ParkingReport, k: string)
    ensures FirstPos(rs + [r], k) ==
              if FirstPos(rs, k) < |rs| then FirstPos(rs, k)
              else if KeyOf(r) == k then |rs|
              else |rs| + 1
    decreases |rs|
  {
    if rs != [] {
      assert (rs + [r])[0] == rs[0];
      assert (rs + [r])[1..] == rs[1..] + [r];
      FirstPosAppend(rs[1..], r, k);
    }
  }

  /** A key carried by some report is found before the end. */
  lemma FirstPosOccurs(rs: seq<ParkingReport>, m: ParkingReport)
    requires m in rs
    ensures FirstPos(rs, KeyOf(m)) < |rs|
  {
    var i :| 0 <= i < |rs| && rs[i] == m;
    assert KeyOf(rs[i]) == KeyOf(m);
  }

  /** An existing group's key occurs among the reports, so appending a report leaves its first position alone. */
  lemma GroupKeyKeepsPos(gs: seq<Group>, rs: seq<ParkingReport>, r: ParkingReport, j: int)
    requires GroupsInv(gs, rs) && 0 <= j < |gs|
    ensures FirstPos(rs, gs[j].key) < |rs|
    ensures FirstPos(rs + [r], gs[j].key) == FirstPos(rs, gs[j].key)
  {
    assert GroupAgrees(gs[j], rs);
    var m := gs[j].members[0];
    assert m in MembersOf(rs, gs[j].key);
    FirstPosOccurs(rs, m);
    FirstPosAppend(rs, r, gs[j].key);
  }

  /** A key without a group has not appeared yet, so it is first found at the appended report. */
  lemma NewKeyAtEnd(gs: seq<Group>, rs: seq<ParkingReport>, r: ParkingReport)
    requires GroupsInv(gs, rs) && IndexOfKey(gs, KeyOf(r)) == |gs|
    ensures FirstPos(rs + [r], KeyOf(r)) == |rs|
  {
    var p := FirstPos(rs, KeyOf(r));
    if p < |rs| {
      assert false;
    }
    FirstPosAppend(rs, r, KeyOf(r));
  }

  /** Same keys at the same first positions: the order carries over. */
  lemma OrderKept(gs: seq<Group>, gs': seq<Group>, rs: seq<ParkingReport>, rs': seq<ParkingReport>)
    requires GroupsOrdered(gs, rs) && |gs'| == |gs|
    requires forall j :: 0 <= j < |gs| ==> gs'[j].key == gs[j].key && FirstPos(rs', gs[j].key) == FirstPos(rs, gs[j].key)
    ensures GroupsOrdered(gs', rs')
  {
    forall i, j | 0 <= i < j < |gs'|
      ensures FirstPos(rs', gs'[i].key) < FirstPos(rs', gs'[j].key)
    {
      assert FirstPos(rs, gs[i].key) < FirstPos(rs, gs[j].key);
    }
  }

  /** One more group whose key first appears after every other group's: the order extends. */
  lemma OrderExtended(gs: seq<Group>, gs': seq<Group>, rs: seq<ParkingReport>, rs': seq<ParkingReport>, n: int)
    requires GroupsOrdered(gs, rs) && |gs'| == |gs| + 1
    requires forall j :: 0 <= j < |gs| ==>
               && gs'[j].key == gs[j].key
               && FirstPos(rs', gs[j].key) == FirstPos(rs, gs[j].key)
               && FirstPos(rs, gs[j].key) < n
    requires FirstPos(rs', gs'[|gs|].key) == n
    ensures GroupsOrdered(gs', rs')
  {
    forall i, j | 0 <= i < j < |gs'|
      ensures FirstPos(rs', gs'[i].key) < FirstPos(rs', gs'[j].key)
    {
      var a := gs[i].key;
      assert gs'[i].key == a && FirstPos(rs', a) == FirstPos(rs, a);
      if j < |gs| {
        var b := gs[j].key;
        assert gs'[j].key == b && FirstPos(rs', b) == FirstPos(rs, b);
        assert FirstPos(rs, a) < FirstPos(rs, b);
      } else {
        assert FirstPos(rs, a) < n;
      }
    }
  }

  /** Each step of the fold keeps the groups in first-appearance order. */
  lemma AddReportKeepsOrder(gs: seq<Group>, rs: seq<ParkingReport>, r: ParkingReport)
    requires GroupsInv(gs, rs) && GroupsOrdered(gs, rs)
    ensures GroupsOrdered(AddReport(gs, r), rs + [r])
  {
    var gs' := AddReport(gs, r);
    var i := IndexOfKey(gs, KeyOf(r));
    forall j | 0 <= j < |gs|
      ensures FirstPos(rs, gs[j].key) < |rs|
      ensures FirstPos(rs + [r], gs[j].key) == FirstPos(rs, gs[j].key)
    {
      GroupKeyKeepsPos(gs, rs, r, j);
    }
    if i < |gs| {
      assert |gs'| == |gs|;
      OrderKept(gs, gs', rs, rs + [r]);
    } else {
      NewKeyAtEnd(gs, rs, r);
      assert |gs'| == |gs| + 1 && gs'[|gs|].key == KeyOf(r);
      OrderExtended(gs, gs', rs, rs + [r], |rs|);
    }
  }

  /** The whole fold lists its groups in the order their keys first appear. */
  lemma {:induction false} GroupsOrderInvariant(rs: seq<ParkingReport>)
    ensures GroupsOrdered(Groups(rs), rs)
    decreases |rs|
  {
    if rs != [] {
      var init, last := rs[..|rs| - 1], rs[|rs| - 1];
      assert init + [last] == rs;
      GroupsInvariant(init);
      GroupsOrderInvariant(init);
      AddReportKeepsOrder(Groups(init), init, last);
    }
  }

  // ---------------------------------------------------------------------
  // Clusters
  // ---------------------------------------------------------------------

  function ToCluster(g: Group): ClusterData
    requires |g.members| > 0
  {
    ClusterData(g.first.geoHash6, g.first.side, g.bucket, Round2(Mean(g.members)), g.lastTs, g.first.lat, g.first.lng)
  }

  function ClusterKeyOf(c: ClusterData): string {
    ClusterKey(c.geoHash6, c.side)
  }

  /** The clusters of `getNearbyReports`, in order of their first surviving report. */
  function Aggregate(q: Query, candidates: seq<ParkingReport>): seq<ClusterData> {
    var gs := Groups(Surviving(q, candidates));
    GroupsInvariant(Surviving(q, candidates));
    seq(|gs|, i requires 0 <= i < |gs| => ToCluster(gs[i]))
  }

  /**
   * The clusters, stated against the reference definitions: one cluster per
   * key, every surviving report's key has a cluster, and each cluster's
   * fields come from that key's surviving reports as the source promises.
   * Clusters come in the order their keys first appear among the surviving
   * reports, which is the insertion order the source's `Map` iterates in.
   */
  lemma AggregateSpec(q: Query, candidates: seq<ParkingReport>)
    ensures var live := Surviving(q, candidates);
            var cs := Aggregate(q, candidates);
            && (forall i, j :: 0 <= i < j < |cs| ==> ClusterKeyOf(cs[i]) != ClusterKeyOf(cs[j]))
            && (forall r :: r in candidates && Contributes(q, r) ==>
                  exists i :: 0 <= i < |cs| && ClusterKeyOf(cs[i]) == KeyOf(r))
            && (forall i :: 0 <= i < |cs| ==>
                  var ms := MembersOf(live, ClusterKeyOf(cs[i]));
                  && |ms| > 0
                  && cs[i].lat == ms[0].lat && cs[i].lng == ms[0].lng
                  && cs[i].countBucket == ms[LatestIndex(ms)].countBucket
                  && cs[i].lastTs == ms[LatestIndex(ms)].ts
                  && cs[i].confidence == Round2(Mean(ms)))
            && (forall i, j :: 0 <= i < j < |cs| ==> FirstPos(live, ClusterKeyOf(cs[i])) < FirstPos(live, ClusterKeyOf(cs[j])))
  {
    var live := Surviving(q, candidates);
    var gs := Groups(live);
    var cs := Aggregate(q, candidates);
    GroupsInvariant(live);
    GroupsOrderInvariant(live);
    assert |cs| == |gs|;
    forall i | 0 <= i < |gs|
      ensures ClusterKeyOf(cs[i]) == gs[i].key
    {
      assert gs[i].first in MembersOf(live, gs[i].key);
    }
    forall r | r in candidates && Contributes(q, r)
      ensures exists i :: 0 <= i < |cs| && ClusterKeyOf(cs[i]) == KeyOf(r)
    {
      assert r in live;
      var i := IndexOfKey(gs, KeyOf(r));
      assert ClusterKeyOf(cs[i]) == KeyOf(r);
    }
  }

  /** A report that has expired, or lies beyond the radius, is a member of no cluster. */
  lemma ExcludedReportsNeverCount(q: Query, candidates: seq<ParkingReport>, r: ParkingReport, k: string)
    requires !IsLive(r, q.now) || !WithinRadius(q, r)
    ensures r !in MembersOf(Surviving(q, candidates), k)
  {
  }

  /** Both reports survive the filters. */
  lemma SurvivingPair(q: Query, a: ParkingReport, b: ParkingReport)
    requires Contributes(q, a) && Contributes(q, b)
    ensures Surviving(q, [a, b]) == [a, b]
  {
    assert [a, b][1..] == [b];
    assert [b][1..] == [];
  }

  /** Two reports with one key fold into one group holding both. */
  lemma GroupsPair(a: ParkingReport, b: ParkingReport)
    requires KeyOf(a) == KeyOf(b)
    ensures Groups([a, b]) == [Group(KeyOf(a), a, if b.ts > a.ts then b.countBucket else a.countBucket,
                                     if b.ts > a.ts then b.ts else a.ts, [a, b])]
  {
    assert [a, b][..1] == [a];
    assert [a][..0] == [];
    assert Groups([a][..0]) == [];
    var g1 := Groups([a]);
    assert g1 == AddReport([], a);
    assert g1 == [Group(KeyOf(a), a, a.countBucket, a.ts, [a])];
    assert IndexOfKey(g1, KeyOf(b)) == 0;
    assert [a] + [b] == [a, b];
  }

  /** Confidences 1.0 and 0.5 average to 0.75. */
  lemma MeanPair(a: ParkingReport, b: ParkingReport)
    requires a.confidence == 1.0 && b.confidence == 0.5
    ensures Round2(Mean([a, b])) == 0.75
  {
    assert [a, b][..1] == [a];
    assert [a][..0] == [];
    assert SumConfidence([a]) == 1.0;
    assert SumConfidence([a, b]) == 1.5;
    assert (0.75 * 100.0 + 0.5).Floor == 75;
  }

  /** Two live reports for one key, confidences 1.0 and 0.5: one cluster, confidence 0.75, bucket and time from the later one. */
  lemma TwoReportsOneCluster(q: Query, a: ParkingReport, b: ParkingReport)
    requires KeyOf(a) == KeyOf(b)
    requires Contributes(q, a) && Contributes(q, b)
    requires a.confidence == 1.0 && b.confidence == 0.5
    ensures var cs := Aggregate(q, [a, b]);
            && |cs| == 1
            && cs[0].confidence == 0.75
            && cs[0].lastTs == (if b.ts > a.ts then b.ts else a.ts)
            && cs[0].countBucket == (if b.ts > a.ts then b.countBucket else a.countBucket)
            && cs[0].lat == a.lat && cs[0].lng == a.lng
  {
    SurvivingPair(q, a, b);
    GroupsPair(a, b);
    MeanPair(a, b);
  }
}
