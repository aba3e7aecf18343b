/**
 * Two readers of the same daily delivery: dictionary merges over the primary table, and a nested
 * query over a mirror that keeps every version of a row until it is read.
 *
 * The primary table's uniqueness constraints make it a map from (campaign, creative, day) to
 * measures, a missing creative marking the campaign's own roll-up of the day.
 */
module Warehouse {
  import opened Common

  datatype Measures = Measures(impressions: int, clicks: int, conversions: int, cost: real, revenue: real)

  const ZERO := Measures(0, 0, 0, 0.0, 0.0)

  function Add(a: Measures, b: Measures): Measures {
    Measures(a.impressions + b.impressions, a.clicks + b.clicks, a.conversions + b.conversions,
             a.cost + b.cost, a.revenue + b.revenue)
  }

  // ---- sums over the rows of a table ----

  // What SUM means over rows that come in no order.
  ghost function Total<K>(rows: map<K, Measures>): Measures
    decreases rows.Keys
  {
    if rows == map[] then ZERO else
      var k :| k in rows;
      Add(rows[k], Total(rows - {k}))
  }

  lemma {:induction false} TotalTake<K>(rows: map<K, Measures>, k: K)
    requires k in rows
    ensures Total(rows) == Add(rows[k], Total(rows - {k}))
    decreases rows.Keys
  {
    var j :| j in rows && Total(rows) == Add(rows[j], Total(rows - {j}));
    if j != k {
      var others := rows - {j} - {k};
      TotalTake(rows - {j}, k);
      TotalTake(rows - {k}, j);
      assert rows - {k} - {j} == others;
      calc {
        Total(rows);
        Add(rows[j], Add(rows[k], Total(others)));
        Add(rows[k], Add(rows[j], Total(others)));
        Add(rows[k], Total(rows - {k}));
      }
    }
  }

  lemma TotalPut<K>(rows: map<K, Measures>, k: K, m: Measures)
    requires k !in rows
    ensures Total(rows[k := m]) == Add(m, Total(rows))
  {
    TotalTake(rows[k := m], k);
    assert rows[k := m] - {k} == rows;
  }

  // ---- the primary table and its two granularities ----

  datatype SlotKey = SlotKey(campaign: string, creative: Option<string>, day: int)
  datatype Bucket = Bucket(campaign: string, day: int)

  // No campaigns means no filter on them.
  datatype Query = Query(cutoff: int, campaigns: set<string>)

  predicate Selects(q: Query, campaign: string, day: int) {
    day >= q.cutoff && (q.campaigns == {} || campaign in q.campaigns)
  }

  predicate InSlot(k: SlotKey, known: set<string>, q: Query, breakdown: bool) {
    k.campaign in known && Selects(q, k.campaign, k.day) && k.creative.Some? == breakdown
  }

  ghost function SlotRows(daily: map<SlotKey, Measures>, known: set<string>, q: Query, breakdown: bool, b: Bucket)
    : map<SlotKey, Measures>
  {
    map k | k in daily && InSlot(k, known, q, breakdown) && Bucket(k.campaign, k.day) == b :: daily[k]
  }

  // One granularity, joined with the known campaigns and grouped by campaign and day.
  ghost function Slots(daily: map<SlotKey, Measures>, known: set<string>, q: Query, breakdown: bool)
    : map<Bucket, Measures>
  {
    map b | b in (set k | k in daily && InSlot(k, known, q, breakdown) :: Bucket(k.campaign, k.day))
      :: Total(SlotRows(daily, known, q, breakdown, b))
  }

  ghost function Merged(slots: map<Bucket, Measures>, breakdown: map<Bucket, Measures>): map<Bucket, Measures> {
    breakdown + slots
  }

  // A bucket of the breakdown is used only where the campaign level has none.
  method MergeSlots(slots: map<Bucket, Measures>, breakdown: map<Bucket, Measures>)
    returns (merged: map<Bucket, Measures>)
    ensures merged == Merged(slots, breakdown)
  {
    merged := slots;
    var rest := breakdown.Keys;
    while rest != {}
      invariant rest <= breakdown.Keys
      invariant merged.Keys == slots.Keys + (breakdown.Keys - rest)
      invariant forall b :: b in merged ==> merged[b] == if b in slots then slots[b] else breakdown[b]
      decreases rest
    {
      var b :| b in rest;
      if b !in merged {
        merged := merged[b := breakdown[b]];
      }
      rest := rest - {b};
    }
  }

  // ---- totals per campaign and per day ----

  datatype Axis = ByCampaign | ByDay
  datatype Group = Campaign(id: string) | Day(day: int)

  function GroupOf(axis: Axis, b: Bucket): Group {
    match axis
    case ByCampaign => Campaign(b.campaign)
    case ByDay => Day(b.day)
  }

  ghost function InGroup(buckets: map<Bucket, Measures>, axis: Axis, g: Group): map<Bucket, Measures> {
    map b | b in buckets && GroupOf(axis, b) == g :: buckets[b]
  }

  function Groups(buckets: map<Bucket, Measures>, axis: Axis): set<Group> {
    set b | b in buckets :: GroupOf(axis, b)
  }

  // SUM with GROUP BY on one axis.
  ghost function GroupTotals(buckets: map<Bucket, Measures>, axis: Axis): map<Group, Measures> {
    map g | g in Groups(buckets, axis) :: Total(InGroup(buckets, axis, g))
  }

  function Accumulate(totals: map<Group, Measures>, g: Group, m: Measures): map<Group, Measures> {
    totals[g := Add(if g in totals then totals[g] else ZERO, m)]
  }

  lemma GroupsPut(buckets: map<Bucket, Measures>, b: Bucket, m: Measures, axis: Axis)
    ensures Groups(buckets[b := m], axis) == Groups(buckets, axis) + {GroupOf(axis, b)}
  {
    var more := buckets[b := m];
    forall g ensures g in Groups(more, axis) <==> g in Groups(buckets, axis) + {GroupOf(axis, b)} {
      assert b in more;
      assert forall x :: x in more <==> x == b || x in buckets;
    }
  }

  lemma InGroupPut(buckets: map<Bucket, Measures>, b: Bucket, m: Measures, axis: Axis, g: Group)
    requires b !in buckets
    ensures InGroup(buckets[b := m], axis, g)
         == if g == GroupOf(axis, b) then InGroup(buckets, axis, g)[b := m] else InGroup(buckets, axis, g)
    ensures g !in Groups(buckets, axis) ==> InGroup(buckets, axis, g) == map[]
  {
  }

  lemma GroupTotalsPut(buckets: map<Bucket, Measures>, b: Bucket, m: Measures, axis: Axis)
    requires b !in buckets
    ensures GroupTotals(buckets[b := m], axis) == Accumulate(GroupTotals(buckets, axis), GroupOf(axis, b), m)
  {
    GroupsPut(buckets, b, m, axis);
    var before := GroupTotals(buckets, axis);
    var after, wanted := GroupTotals(buckets[b := m], axis), Accumulate(before, GroupOf(axis, b), m);
    assert after.Keys == wanted.Keys;
    forall h | h in after ensures after[h] == wanted[h] {
      InGroupPut(buckets, b, m, axis, h);
      if h == GroupOf(axis, b) {
        TotalPut(InGroup(buckets, axis, h), b, m);
      }
    }
  }

  lemma GroupTotalsNone(slots: map<Bucket, Measures>, axis: Axis)
    ensures GroupTotals(slots - slots.Keys, axis) == map[]
    ensures GroupTotals(slots - {}, axis) == GroupTotals(slots, axis)
  {
    assert slots - slots.Keys == map[];
    assert slots - {} == slots;
  }

  lemma GroupTotalsStep(slots: map<Bucket, Measures>, rest: set<Bucket>, b: Bucket, axis: Axis)
    requires b in rest && b in slots
    ensures GroupTotals(slots - (rest - {b}), axis)
         == Accumulate(GroupTotals(slots - rest, axis), GroupOf(axis, b), slots[b])
  {
    assert slots - (rest - {b}) == (slots - rest)[b := slots[b]];
    GroupTotalsPut(slots - rest, b, slots[b], axis);
  }

  // The loop of both reports; a dictionary's entries may come in any order.
  method TotalsPerGroup(slots: map<Bucket, Measures>, axis: Axis) returns (totals: map<Group, Measures>)
    ensures totals == GroupTotals(slots, axis)
  {
    totals := map[];
    var rest := slots.Keys;
    GroupTotalsNone(slots, axis);
    while rest != {}
      invariant rest <= slots.Keys
      invariant totals == GroupTotals(slots - rest, axis)
      decreases rest
    {
      var b :| b in rest;
      GroupTotalsStep(slots, rest, b, axis);
      totals := Accumulate(totals, GroupOf(axis, b), slots[b]);
      rest := rest - {b};
    }
  }

  // ---- the mirror ----

  datatype MirrorKey = MirrorKey(campaign: string, creative: string, day: int)
  datatype Write = Write(key: MirrorKey, version: int, measures: Measures)

  // A read with FINAL keeps the newest version of a key, the one inserted last among equals.
  predicate Newest(history: seq<Write>, i: nat)
    requires i < |history|
  {
    forall j :: 0 <= j < |history| && history[j].key == history[i].key ==>
      history[j].version < history[i].version || (history[j].version == history[i].version && j <= i)
  }

  ghost function Final(history: seq<Write>): map<MirrorKey, Measures> {
    map i | 0 <= i < |history| && Newest(history, i) :: history[i].key := history[i].measures
  }

  function Keys(history: seq<Write>): set<MirrorKey> { set w | w in history :: w.key }

  ghost predicate NewestOf(history: seq<Write>, k: MirrorKey, i: nat) {
    i < |history| && history[i].key == k && Newest(history, i)
  }

  lemma {:induction false} NewestExists(history: seq<Write>, k: MirrorKey) returns (i: nat)
    requires k in Keys(history)
    ensures NewestOf(history, k, i)
  {
    var n := |history| - 1;
    var front := history[..n];
    if k !in Keys(front) {
      i := n;
      assert forall j :: 0 <= j < n ==> front[j] in front;
      assert history == front + [history[n]];
    } else {
      i := NewestExists(front, k);
      assert forall j :: 0 <= j < n ==> history[j] == front[j];
      if history[n].key == k && history[i].version <= history[n].version {
        i := n;
      }
    }
  }

  function Stored(k: SlotKey): MirrorKey {
    MirrorKey(k.campaign, if k.creative.Some? then k.creative.value else "", k.day)
  }

  ghost predicate NamedCreatives(daily: map<SlotKey, Measures>) {
    forall k :: k in daily ==> k.creative != Some("")
  }

  // What one full sync writes.
  ghost function Mirror(daily: map<SlotKey, Measures>): map<MirrorKey, Measures>
    requires NamedCreatives(daily)
  {
    map k | k in daily :: Stored(k) := daily[k]
  }

  // A batch writes these rows and no others, at versions no older than the history's.
  ghost predicate Syncs(history: seq<Write>, batch: seq<Write>, rows: map<MirrorKey, Measures>) {
    && Keys(batch) == rows.Keys
    && (forall w :: w in batch ==> w.key in rows && w.measures == rows[w.key])
    && (forall v, w :: v in history && w in batch ==> v.version <= w.version)
  }

  lemma OlderLoses(history: seq<Write>, batch: seq<Write>, i: nat)
    requires i < |history|
    requires forall v, w :: v in history && w in batch ==> v.version <= w.version
    ensures history[i].key in Keys(batch) ==> !Newest(history + batch, i)
  {
    if history[i].key in Keys(batch) {
      var all := history + batch;
      var w :| w in batch && w.key == history[i].key;
      var j :| 0 <= j < |batch| && batch[j] == w;
      assert all[i] == history[i] && all[|history| + j] == w;
      assert history[i] in history;
    }
  }

  // The newest write of a key lies in the batch when the batch writes that key at all.
  lemma NewestOfBoth(history: seq<Write>, batch: seq<Write>, i: nat)
    requires i < |history + batch| && Newest(history + batch, i)
    requires forall v, w :: v in history && w in batch ==> v.version <= w.version
    ensures (history + batch)[i].key in Keys(batch) ==> i >= |history|
    ensures i < |history| ==> Newest(history, i)
  {
    var all, n := history + batch, |history|;
    if i < n {
      OlderLoses(history, batch, i);
      assert all[i] == history[i];
      forall j | 0 <= j < n && history[j].key == history[i].key
        ensures history[j].version < history[i].version || (history[j].version == history[i].version && j <= i)
      {
        assert all[j] == history[j];
      }
    }
  }

  lemma KeysOfBoth(a: seq<Write>, b: seq<Write>)
    ensures Keys(a + b) == Keys(a) + Keys(b)
  {
  }

  // What a read finds: some newest write for each key ever written.
  lemma FinalReads(history: seq<Write>, k: MirrorKey) returns (i: nat)
    requires k in Keys(history)
    ensures i < |history| && history[i].key == k && Newest(history, i)
    ensures k in Final(history) && Final(history)[k] == history[i].measures
  {
    i := NewestExists(history, k);
  }

  lemma FinalKeys(history: seq<Write>)
    ensures Final(history).Keys == Keys(history)
  {
    forall k | k in Keys(history) ensures k in Final(history) {
      var i := FinalReads(history, k);
    }
  }

  // Newer rows replace older ones, whatever was written before and however often.
  lemma FinalAfterSync(history: seq<Write>, batch: seq<Write>, rows: map<MirrorKey, Measures>)
    requires Syncs(history, batch, rows)
    ensures Final(history + batch) == Final(history) + rows
  {
    FinalKeys(history);
    FinalKeys(history + batch);
    KeysOfBoth(history, batch);
    forall k | k in Keys(history + batch) ensures Final(history + batch)[k] == (Final(history) + rows)[k] {
      var i := FinalReads(history + batch, k);
      NewestOfBoth(history, batch, i);
      if i < |history| {
        assert (history + batch)[i] == history[i];
      } else {
        assert (history + batch)[i] == batch[i - |history|] && batch[i - |history|] in batch;
      }
    }
  }

  // Replaying a sync any number of times leaves what the first replay left.
  ghost predicate Replays(history: seq<Write>, batches: seq<seq<Write>>, rows: map<MirrorKey, Measures>)
    decreases |batches|
  {
    |batches| > 0 ==>
      Syncs(history, batches[0], rows) && Replays(history + batches[0], batches[1..], rows)
  }

  function After(history: seq<Write>, batches: seq<seq<Write>>): seq<Write>
    decreases |batches|
  {
    if |batches| == 0 then history else After(history + batches[0], batches[1..])
  }

  lemma TwiceIsOnce(before: map<MirrorKey, Measures>, rows: map<MirrorKey, Measures>)
    ensures before + rows + rows == before + rows
  {
  }

  lemma {:induction false} ReplaysAreInvisible(history: seq<Write>, batches: seq<seq<Write>>,
                                               rows: map<MirrorKey, Measures>)
    requires |batches| > 0 && Replays(history, batches, rows)
    ensures Final(After(history, batches)) == Final(history) + rows
    decreases |batches|
  {
    FinalAfterSync(history, batches[0], rows);
    if |batches| > 1 {
      ReplaysAreInvisible(history + batches[0], batches[1..], rows);
      TwiceIsOnce(Final(history), rows);
    }
  }

  // ---- the nested query ----

  predicate InPart(k: MirrorKey, q: Query, b: Bucket, rollUp: bool) {
    Selects(q, k.campaign, k.day) && Bucket(k.campaign, k.day) == b && (k.creative == "") == rollUp
  }

  ghost function Part(rows: map<MirrorKey, Measures>, q: Query, b: Bucket, rollUp: bool): map<MirrorKey, Measures> {
    map k | k in rows && InPart(k, q, b, rollUp) :: rows[k]
  }

  function Buckets(rows: map<MirrorKey, Measures>, q: Query): set<Bucket> {
    set k | k in rows && Selects(q, k.campaign, k.day) :: Bucket(k.campaign, k.day)
  }

  // The inner query: one row per campaign and day, from the roll-up when there is one to count.
  ghost function Delivery(rows: map<MirrorKey, Measures>, q: Query): map<Bucket, Measures> {
    map b | b in Buckets(rows, q)
      :: if Part(rows, q, b, true) != map[] then Total(Part(rows, q, b, true)) else Total(Part(rows, q, b, false))
  }

  // ---- the two readers agree ----

  lemma {:induction false} TotalStored(rows: map<SlotKey, Measures>, stored: map<MirrorKey, Measures>)
    requires NamedCreatives(rows) && stored == Mirror(rows)
    ensures Total(rows) == Total(stored)
    decreases rows.Keys
  {
    if rows == map[] {
    } else {
      var k :| k in rows;
      TotalTake(rows, k);
      TotalTake(stored, Stored(k));
      assert stored - {Stored(k)} == Mirror(rows - {k});
      TotalStored(rows - {k}, stored - {Stored(k)});
    }
  }

  // Every row belongs to a known campaign, as the table's foreign key demands.
  ghost predicate Known(daily: map<SlotKey, Measures>, known: set<string>) {
    forall k :: k in daily ==> k.campaign in known
  }

  lemma PartStored(daily: map<SlotKey, Measures>, known: set<string>, q: Query, b: Bucket, breakdown: bool)
    requires NamedCreatives(daily) && Known(daily, known)
    ensures Part(Mirror(daily), q, b, !breakdown) == Mirror(SlotRows(daily, known, q, breakdown, b))
  {
  }

  lemma MirrorEmpty(rows: map<SlotKey, Measures>)
    requires NamedCreatives(rows)
    ensures Mirror(rows) == map[] <==> rows == map[]
  {
    if rows != map[] {
      var k :| k in rows;
      assert Stored(k) in Mirror(rows);
    }
  }

  lemma SlotsHold(daily: map<SlotKey, Measures>, known: set<string>, q: Query, breakdown: bool, b: Bucket)
    ensures b in Slots(daily, known, q, breakdown) <==> SlotRows(daily, known, q, breakdown, b) != map[]
  {
    var rows := SlotRows(daily, known, q, breakdown, b);
    if b in Slots(daily, known, q, breakdown) {
      var k :| k in daily && InSlot(k, known, q, breakdown) && Bucket(k.campaign, k.day) == b;
      assert k in rows;
    }
    if rows != map[] {
      var k :| k in rows;
      assert k in daily && InSlot(k, known, q, breakdown) && Bucket(k.campaign, k.day) == b;
    }
  }

  lemma BucketsHold(rows: map<MirrorKey, Measures>, q: Query, b: Bucket)
    ensures b in Buckets(rows, q) <==> Part(rows, q, b, true) != map[] || Part(rows, q, b, false) != map[]
  {
    if b in Buckets(rows, q) {
      var k :| k in rows && Selects(q, k.campaign, k.day) && Bucket(k.campaign, k.day) == b;
      assert k in Part(rows, q, b, k.creative == "");
    }
    forall rollUp | Part(rows, q, b, rollUp) != map[] ensures b in Buckets(rows, q) {
      var k :| k in Part(rows, q, b, rollUp);
      assert k in rows && Selects(q, k.campaign, k.day) && Bucket(k.campaign, k.day) == b;
    }
  }

  ghost function MergedSlots(daily: map<SlotKey, Measures>, known: set<string>, q: Query): map<Bucket, Measures> {
    Merged(Slots(daily, known, q, false), Slots(daily, known, q, true))
  }

  lemma OneBucketAgrees(daily: map<SlotKey, Measures>, known: set<string>, q: Query, b: Bucket)
    requires NamedCreatives(daily) && Known(daily, known)
    ensures b in MergedSlots(daily, known, q) <==> b in Delivery(Mirror(daily), q)
    ensures b in MergedSlots(daily, known, q) ==> MergedSlots(daily, known, q)[b] == Delivery(Mirror(daily), q)[b]
  {
    BucketsHold(Mirror(daily), q, b);
    forall breakdown ensures
        && (b in Slots(daily, known, q, breakdown) <==> Part(Mirror(daily), q, b, !breakdown) != map[])
        && Total(SlotRows(daily, known, q, breakdown, b)) == Total(Part(Mirror(daily), q, b, !breakdown))
    {
      var rows := SlotRows(daily, known, q, breakdown, b);
      SlotsHold(daily, known, q, breakdown, b);
      PartStored(daily, known, q, b, breakdown);
      MirrorEmpty(rows);
      TotalStored(rows, Mirror(rows));
    }
  }

  // Merging two grouped reads bucket by bucket is the nested query on the mirrored rows.
  lemma SlotsAreDelivery(daily: map<SlotKey, Measures>, known: set<string>, q: Query)
    requires NamedCreatives(daily) && Known(daily, known)
    ensures MergedSlots(daily, known, q) == Delivery(Mirror(daily), q)
  {
    forall b ensures (b in MergedSlots(daily, known, q) <==> b in Delivery(Mirror(daily), q))
                  && (b in MergedSlots(daily, known, q) ==>
                        MergedSlots(daily, known, q)[b] == Delivery(Mirror(daily), q)[b])
    {
      OneBucketAgrees(daily, known, q, b);
    }
  }

  // ---- windows ----

  // The last days - 1 days and today, as the readers of the primary table count.
  function SqlQuery(today: int, days: nat, campaigns: set<string>): Query { Query(today - (days - 1), campaigns) }

  // The same with greatest(days, 1) for the days, as the nested query counts.
  function MirrorQuery(today: int, days: nat, campaigns: set<string>): Query {
    Query(today - ((if days >= 1 then days else 1) - 1), campaigns)
  }

  // ---- the whole reports ----

  ghost function SqlReport(daily: map<SlotKey, Measures>, known: set<string>, q: Query, axis: Axis)
    : map<Group, Measures>
  {
    GroupTotals(MergedSlots(daily, known, q), axis)
  }

  ghost function MirrorReport(history: seq<Write>, q: Query, axis: Axis): map<Group, Measures> {
    GroupTotals(Delivery(Final(history), q), axis)
  }

  ghost function Chosen(rows: map<MirrorKey, Measures>, q: Query): map<MirrorKey, Measures> {
    map k | k in rows && Selects(q, k.campaign, k.day) :: rows[k]
  }

  // Every row the query selects among the first is among the second.
  ghost predicate Covered(before: map<MirrorKey, Measures>, rows: map<MirrorKey, Measures>, q: Query) {
    forall k :: k in before && Selects(q, k.campaign, k.day) ==> k in rows
  }

  lemma ChosenAfterUpdate(before: map<MirrorKey, Measures>, rows: map<MirrorKey, Measures>, q: Query)
    ensures Chosen(before + rows, q) == Chosen(rows, q) <==> Covered(before, rows, q)
  {
    var now, wanted := Chosen(before + rows, q), Chosen(rows, q);
    if now == wanted {
      forall k | k in before && Selects(q, k.campaign, k.day) ensures k in rows {
        assert k in now;
      }
    }
  }

  lemma DeliveryOfChosen(rows: map<MirrorKey, Measures>, q: Query)
    ensures Delivery(Chosen(rows, q), q) == Delivery(rows, q)
  {
    assert Buckets(Chosen(rows, q), q) == Buckets(rows, q);
    forall b, rollUp: bool ensures Part(Chosen(rows, q), q, b, rollUp) == Part(rows, q, b, rollUp) {
    }
  }

  // A sync of some window of days that takes in every row the query selects.
  ghost predicate Includes(synced: map<MirrorKey, Measures>, daily: map<SlotKey, Measures>, q: Query)
    requires NamedCreatives(daily)
  {
    Chosen(synced, q) == Chosen(Mirror(daily), q)
  }

  lemma CoveredBySync(before: map<MirrorKey, Measures>, synced: map<MirrorKey, Measures>,
                      rows: map<MirrorKey, Measures>, q: Query)
    requires Chosen(synced, q) == Chosen(rows, q)
    ensures Covered(before, synced, q) <==> Covered(before, rows, q)
  {
    forall k: MirrorKey | Selects(q, k.campaign, k.day) ensures k in synced <==> k in rows {
      assert k in synced <==> k in Chosen(synced, q);
      assert k in rows <==> k in Chosen(rows, q);
    }
  }

  // After any history of writes and any number of replays of a sync, the mirror holds the rows
  // a query selects exactly as the primary table has them if and only if every selected row the
  // mirror held before is still in the primary table: a sync corrects and adds but never deletes.
  lemma MirrorIsExactUnlessRowsWereDeleted(daily: map<SlotKey, Measures>, synced: map<MirrorKey, Measures>,
                                           history: seq<Write>, batches: seq<seq<Write>>, q: Query)
    requires NamedCreatives(daily) && Includes(synced, daily, q)
    requires |batches| > 0 && Replays(history, batches, synced)
    ensures Chosen(Final(After(history, batches)), q) == Chosen(Mirror(daily), q)
       <==> Covered(Final(history), Mirror(daily), q)
  {
    var before, rows := Final(history), Mirror(daily);
    ReplaysAreInvisible(history, batches, synced);
    ChosenAfterUpdate(before, synced, q);
    CoveredBySync(before, synced, rows, q);
  }

  lemma DeliveryAgrees(daily: map<SlotKey, Measures>, known: set<string>, q: Query, rows: map<MirrorKey, Measures>)
    requires NamedCreatives(daily) && Known(daily, known) && Chosen(rows, q) == Chosen(Mirror(daily), q)
    ensures MergedSlots(daily, known, q) == Delivery(rows, q)
  {
    DeliveryOfChosen(rows, q);
    DeliveryOfChosen(Mirror(daily), q);
    SlotsAreDelivery(daily, known, q);
  }

  lemma ReportsAgree(daily: map<SlotKey, Measures>, known: set<string>, q: Query, history: seq<Write>, axis: Axis)
    requires NamedCreatives(daily) && Known(daily, known)
    requires Chosen(Final(history), q) == Chosen(Mirror(daily), q)
    ensures SqlReport(daily, known, q, axis) == MirrorReport(history, q, axis)
  {
    DeliveryAgrees(daily, known, q, Final(history));
  }

  lemma BackendsAgreeOn(daily: map<SlotKey, Measures>, known: set<string>, synced: map<MirrorKey, Measures>,
                        history: seq<Write>, batches: seq<seq<Write>>, q: Query, axis: Axis)
    requires NamedCreatives(daily) && Known(daily, known) && Includes(synced, daily, q)
    requires |batches| > 0 && Replays(history, batches, synced)
    requires Covered(Final(history), Mirror(daily), q)
    ensures SqlReport(daily, known, q, axis) == MirrorReport(After(history, batches), q, axis)
  {
    var latest := After(history, batches);
    assert Chosen(Final(latest), q) == Chosen(Mirror(daily), q) by {
      MirrorIsExactUnlessRowsWereDeleted(daily, synced, history, batches, q);
    }
    ReportsAgree(daily, known, q, latest, axis);
  }

  lemma WindowsAgree(today: int, days: nat, campaigns: set<string>)
    ensures SqlQuery(today, days, campaigns) == MirrorQuery(today, days, campaigns) <==> days >= 1
  {
  }

  // Both backends give the same totals per campaign and per day for every table and window.
  lemma BackendsAgree(daily: map<SlotKey, Measures>, known: set<string>, synced: map<MirrorKey, Measures>,
                      history: seq<Write>, batches: seq<seq<Write>>, today: int, days: nat,
                      campaigns: set<string>, axis: Axis)
    requires NamedCreatives(daily) && Known(daily, known) && days >= 1
    requires Includes(synced, daily, SqlQuery(today, days, campaigns))
    requires |batches| > 0 && Replays(history, batches, synced)
    requires Covered(Final(history), Mirror(daily), SqlQuery(today, days, campaigns))
    ensures SqlReport(daily, known, SqlQuery(today, days, campaigns), axis)
         == MirrorReport(After(history, batches), MirrorQuery(today, days, campaigns), axis)
  {
    WindowsAgree(today, days, campaigns);
    BackendsAgreeOn(daily, known, synced, history, batches, SqlQuery(today, days, campaigns), axis);
  }

  // A window of no days starts tomorrow for one reader and today for the other.
  lemma ZeroDaysSeparate(today: int, m: Measures)
    ensures var daily := map[SlotKey("c", None, today) := m];
            && MergedSlots(daily, {"c"}, SqlQuery(today, 0, {})) == map[]
            && Bucket("c", today) in Delivery(Mirror(daily), MirrorQuery(today, 0, {}))
  {
    var daily := map[SlotKey("c", None, today) := m];
    assert MirrorKey("c", "", today) in Mirror(daily) by {
      assert SlotKey("c", None, today) in daily;
    }
  }

  // ---- conservation ----

  lemma {:induction false} TotalOfGroups(buckets: map<Bucket, Measures>, axis: Axis)
    ensures Total(GroupTotals(buckets, axis)) == Total(buckets)
    decreases buckets.Keys
  {
    if buckets == map[] {
      assert GroupTotals(buckets, axis) == map[];
    } else {
      var b :| b in buckets;
      var others := buckets - {b};
      assert buckets == others[b := buckets[b]];
      TotalPut(others, b, buckets[b]);
      GroupTotalsPut(others, b, buckets[b], axis);
      TotalOfGroups(others, axis);
      AccumulateAdds(GroupTotals(others, axis), GroupOf(axis, b), buckets[b]);
    }
  }

  lemma AccumulateAdds(totals: map<Group, Measures>, g: Group, m: Measures)
    ensures Total(Accumulate(totals, g, m)) == Add(m, Total(totals))
  {
    var after := Accumulate(totals, g, m);
    TotalTake(after, g);
    if g in totals {
      TotalTake(totals, g);
      assert after - {g} == totals - {g};
    } else {
      assert after - {g} == totals;
    }
  }

  // The per-campaign report and the per-day report of one read add up to the same money.
  lemma ReportsBalance(buckets: map<Bucket, Measures>)
    ensures Total(GroupTotals(buckets, ByCampaign)) == Total(GroupTotals(buckets, ByDay)) == Total(buckets)
  {
    TotalOfGroups(buckets, ByCampaign);
    TotalOfGroups(buckets, ByDay);
  }
}
