/**
 * What each backend reports, from the rows of its table alone.
 *
 * A row counts when its day is in the window and its campaign passes the filter; a creative's row
 * counts only when the campaign has no roll-up row for that day.
 */
module WarehouseFigures {
  import opened Common
  import opened Warehouse

  // ---- sums of sums ----

  ghost function Where<K, B>(rows: map<K, Measures>, f: K -> B, b: B): map<K, Measures> {
    map k | k in rows && f(k) == b :: rows[k]
  }

  ghost function Image<K, B>(rows: map<K, Measures>, f: K -> B): set<B> { set k | k in rows :: f(k) }

  // SUM with GROUP BY on whatever f says.
  ghost function Grouped<K, B>(rows: map<K, Measures>, f: K -> B): map<B, Measures> {
    map b | b in Image(rows, f) :: Total(Where(rows, f, b))
  }

  lemma ImagePut<K, B>(rows: map<K, Measures>, f: K -> B, k: K, m: Measures)
    ensures Image(rows[k := m], f) == Image(rows, f) + {f(k)}
  {
    var more := rows[k := m];
    forall b ensures b in Image(more, f) <==> b in Image(rows, f) + {f(k)} {
      assert k in more;
      assert forall x :: x in more <==> x == k || x in rows;
    }
  }

  lemma WherePut<K, B>(rows: map<K, Measures>, f: K -> B, k: K, m: Measures, b: B)
    requires k !in rows
    ensures Where(rows[k := m], f, b) == if b == f(k) then Where(rows, f, b)[k := m] else Where(rows, f, b)
    ensures b !in Image(rows, f) ==> Where(rows, f, b) == map[]
  {
  }

  function Increased<B>(totals: map<B, Measures>, b: B, m: Measures): map<B, Measures> {
    totals[b := Add(m, if b in totals then totals[b] else ZERO)]
  }

  lemma GroupedPut<K, B>(rows: map<K, Measures>, f: K -> B, k: K, m: Measures)
    requires k !in rows
    ensures Grouped(rows[k := m], f) == Increased(Grouped(rows, f), f(k), m)
  {
    ImagePut(rows, f, k, m);
    var after, wanted := Grouped(rows[k := m], f), Increased(Grouped(rows, f), f(k), m);
    assert after.Keys == wanted.Keys;
    forall b | b in after ensures after[b] == wanted[b] {
      WherePut(rows, f, k, m, b);
      if b == f(k) {
        TotalPut(Where(rows, f, b), k, m);
      }
    }
  }

  lemma TotalIncreased<B>(totals: map<B, Measures>, b: B, m: Measures)
    ensures Total(Increased(totals, b, m)) == Add(m, Total(totals))
  {
    var after := Increased(totals, b, m);
    TotalTake(after, b);
    if b in totals {
      TotalTake(totals, b);
      assert after - {b} == totals - {b};
    } else {
      assert after - {b} == totals;
    }
  }

  // Summing groups and then the sums is summing everything.
  lemma {:induction false} TotalGrouped<K, B>(rows: map<K, Measures>, f: K -> B)
    ensures Total(Grouped(rows, f)) == Total(rows)
    decreases rows.Keys
  {
    if rows == map[] {
      assert Grouped(rows, f) == map[];
    } else {
      var k :| k in rows;
      var others := rows - {k};
      assert rows == others[k := rows[k]];
      TotalPut(others, k, rows[k]);
      GroupedPut(others, f, k, rows[k]);
      TotalGrouped(others, f);
      TotalIncreased(Grouped(others, f), f(k), rows[k]);
    }
  }

  // Grouping into buckets and these into groups is grouping into groups.
  lemma RegroupedAt<K>(rows: map<K, Measures>, f: K -> Bucket, axis: Axis, h: K -> Group, g: Group)
    requires forall k :: h(k) == GroupOf(axis, f(k))
    ensures g in Groups(Grouped(rows, f), axis) <==> g in Image(rows, h)
    ensures Total(InGroup(Grouped(rows, f), axis, g)) == Total(Where(rows, h, g))
  {
    var some := Where(rows, h, g);
    forall b | b in Image(some, f) ensures Where(rows, f, b) == Where(some, f, b) {
      var k :| k in some && f(k) == b;
      assert h(k) == GroupOf(axis, b);
    }
    forall b ensures b in Image(some, f) <==> b in Image(rows, f) && GroupOf(axis, b) == g {
      if b in Image(rows, f) && GroupOf(axis, b) == g {
        var k :| k in rows && f(k) == b;
        assert k in some;
      }
    }
    assert InGroup(Grouped(rows, f), axis, g) == Grouped(some, f);
    TotalGrouped(some, f);
    if g in Image(rows, h) {
      var k :| k in rows && h(k) == g;
      assert f(k) in Grouped(rows, f);
    }
    if g in Groups(Grouped(rows, f), axis) {
      var b :| b in Grouped(rows, f) && GroupOf(axis, b) == g;
      var k :| k in rows && f(k) == b;
      assert h(k) == g;
    }
  }

  lemma Regrouped<K>(rows: map<K, Measures>, f: K -> Bucket, axis: Axis, h: K -> Group)
    requires forall k :: h(k) == GroupOf(axis, f(k))
    ensures GroupTotals(Grouped(rows, f), axis) == Grouped(rows, h)
  {
    forall g ensures (g in Groups(Grouped(rows, f), axis) <==> g in Image(rows, h))
                  && Total(InGroup(Grouped(rows, f), axis, g)) == Total(Where(rows, h, g))
    {
      RegroupedAt(rows, f, axis, h, g);
    }
  }

  // ---- the primary table ----

  // A row of the table counts for these days up to today: it is in the window, of a known campaign
  // that was asked for, and either a roll-up or of a day without one.
  ghost predicate Counts(daily: map<SlotKey, Measures>, known: set<string>, today: int, days: nat,
                         campaigns: set<string>, k: SlotKey)
  {
    && k in daily && k.campaign in known
    && k.day > today - days && (campaigns == {} || k.campaign in campaigns)
    && (k.creative.None? || SlotKey(k.campaign, None, k.day) !in daily)
  }

  ghost function Counted(daily: map<SlotKey, Measures>, known: set<string>, today: int, days: nat,
                         campaigns: set<string>): map<SlotKey, Measures>
  {
    map k | k in daily && Counts(daily, known, today, days, campaigns, k) :: daily[k]
  }

  function SlotBucket(): SlotKey -> Bucket { (k: SlotKey) => Bucket(k.campaign, k.day) }
  function SlotGroup(axis: Axis): SlotKey -> Group { (k: SlotKey) => GroupOf(axis, Bucket(k.campaign, k.day)) }

  lemma CountedInBucket(daily: map<SlotKey, Measures>, known: set<string>, today: int, days: nat,
                        campaigns: set<string>, b: Bucket)
    ensures var q := SqlQuery(today, days, campaigns);
      var rollUp, breakdown := SlotRows(daily, known, q, false, b), SlotRows(daily, known, q, true, b);
      Where(Counted(daily, known, today, days, campaigns), SlotBucket(), b)
        == if rollUp != map[] then rollUp else breakdown
  {
    var q := SqlQuery(today, days, campaigns);
    var rollUp, key := SlotRows(daily, known, q, false, b), SlotKey(b.campaign, None, b.day);
    if rollUp == map[] {
      forall k | k in daily && InSlot(k, known, q, true) && Bucket(k.campaign, k.day) == b ensures key !in daily {
        assert key in daily ==> key in rollUp;
      }
    } else {
      var k :| k in rollUp;
      assert k == key;
    }
  }

  lemma ImageHas<K, B>(rows: map<K, Measures>, f: K -> B, b: B)
    ensures b in Image(rows, f) <==> Where(rows, f, b) != map[]
  {
    if b in Image(rows, f) {
      var k :| k in rows && f(k) == b;
      assert k in Where(rows, f, b);
    }
    if Where(rows, f, b) != map[] {
      var k :| k in Where(rows, f, b);
      assert k in rows && f(k) == b;
    }
  }

  lemma FigureOf<K, B>(rows: map<K, Measures>, f: K -> B, b: B, some: map<K, Measures>)
    requires some == Where(rows, f, b)
    ensures b in Grouped(rows, f) <==> some != map[]
    ensures b in Grouped(rows, f) ==> Grouped(rows, f)[b] == Total(some)
  {
    ImageHas(rows, f, b);
  }

  lemma MergedIsGrouped(daily: map<SlotKey, Measures>, known: set<string>, today: int, days: nat,
                        campaigns: set<string>)
    ensures MergedSlots(daily, known, SqlQuery(today, days, campaigns))
         == Grouped(Counted(daily, known, today, days, campaigns), SlotBucket())
  {
    var q, rows := SqlQuery(today, days, campaigns), Counted(daily, known, today, days, campaigns);
    forall b ensures (b in MergedSlots(daily, known, q) <==> b in Grouped(rows, SlotBucket()))
      && (b in MergedSlots(daily, known, q) ==> MergedSlots(daily, known, q)[b] == Grouped(rows, SlotBucket())[b])
    {
      SlotsHold(daily, known, q, false, b);
      SlotsHold(daily, known, q, true, b);
      CountedInBucket(daily, known, today, days, campaigns, b);
      ImageHas(rows, SlotBucket(), b);
    }
  }

  lemma SqlReportIsGrouped(daily: map<SlotKey, Measures>, known: set<string>, today: int, days: nat,
                           campaigns: set<string>, axis: Axis)
    ensures SqlReport(daily, known, SqlQuery(today, days, campaigns), axis)
         == Grouped(Counted(daily, known, today, days, campaigns), SlotGroup(axis))
  {
    MergedIsGrouped(daily, known, today, days, campaigns);
    Regrouped(Counted(daily, known, today, days, campaigns), SlotBucket(), axis, SlotGroup(axis));
  }

  // Per campaign the primary table's reader reports the sums over exactly the rows that count.
  lemma SqlCampaignFigures(daily: map<SlotKey, Measures>, known: set<string>, today: int, days: nat,
                           campaigns: set<string>, campaign: string)
    ensures var report := SqlReport(daily, known, SqlQuery(today, days, campaigns), ByCampaign);
      var rows := map k | k in daily && Counts(daily, known, today, days, campaigns, k)
                          && k.campaign == campaign :: daily[k];
      (Campaign(campaign) in report <==> rows != map[])
      && (Campaign(campaign) in report ==> report[Campaign(campaign)] == Total(rows))
  {
    var counted, g := Counted(daily, known, today, days, campaigns), Campaign(campaign);
    var rows := map k | k in daily && Counts(daily, known, today, days, campaigns, k)
                        && k.campaign == campaign :: daily[k];
    SqlReportIsGrouped(daily, known, today, days, campaigns, ByCampaign);
    assert rows == Where(counted, SlotGroup(ByCampaign), g);
    FigureOf(counted, SlotGroup(ByCampaign), g, rows);
  }

  // And per day.
  lemma SqlDayFigures(daily: map<SlotKey, Measures>, known: set<string>, today: int, days: nat,
                      campaigns: set<string>, day: int)
    ensures var report := SqlReport(daily, known, SqlQuery(today, days, campaigns), ByDay);
      var rows := map k | k in daily && Counts(daily, known, today, days, campaigns, k) && k.day == day :: daily[k];
      (Day(day) in report <==> rows != map[]) && (Day(day) in report ==> report[Day(day)] == Total(rows))
  {
    var counted, g := Counted(daily, known, today, days, campaigns), Day(day);
    var rows := map k | k in daily && Counts(daily, known, today, days, campaigns, k) && k.day == day :: daily[k];
    SqlReportIsGrouped(daily, known, today, days, campaigns, ByDay);
    assert rows == Where(counted, SlotGroup(ByDay), g);
    FigureOf(counted, SlotGroup(ByDay), g, rows);
  }

  // ---- the mirror ----

  // The same for the newest version of each row of the mirror; a window of no days counts as one.
  ghost predicate CountsMirrored(rows: map<MirrorKey, Measures>, today: int, days: nat, campaigns: set<string>,
                                 k: MirrorKey)
  {
    && k in rows
    && (k.day > today - days || (days == 0 && k.day >= today)) && (campaigns == {} || k.campaign in campaigns)
    && (k.creative == "" || MirrorKey(k.campaign, "", k.day) !in rows)
  }

  ghost function Mirrored(rows: map<MirrorKey, Measures>, today: int, days: nat, campaigns: set<string>)
    : map<MirrorKey, Measures>
  {
    map k | k in rows && CountsMirrored(rows, today, days, campaigns, k) :: rows[k]
  }

  function MirrorBucket(): MirrorKey -> Bucket { (k: MirrorKey) => Bucket(k.campaign, k.day) }
  function MirrorGroup(axis: Axis): MirrorKey -> Group { (k: MirrorKey) => GroupOf(axis, Bucket(k.campaign, k.day)) }

  lemma MirroredInBucket(rows: map<MirrorKey, Measures>, today: int, days: nat, campaigns: set<string>, b: Bucket)
    ensures var q := MirrorQuery(today, days, campaigns);
      var rollUp, breakdown := Part(rows, q, b, true), Part(rows, q, b, false);
      Where(Mirrored(rows, today, days, campaigns), MirrorBucket(), b) == if rollUp != map[] then rollUp else breakdown
  {
    var q := MirrorQuery(today, days, campaigns);
    var rollUp, key := Part(rows, q, b, true), MirrorKey(b.campaign, "", b.day);
    if rollUp == map[] {
      forall k | k in rows && InPart(k, q, b, false) ensures key !in rows {
        assert key in rows ==> key in rollUp;
      }
    } else {
      var k :| k in rollUp;
      assert k == key;
    }
  }

  lemma DeliveryIsGrouped(rows: map<MirrorKey, Measures>, today: int, days: nat, campaigns: set<string>)
    ensures Delivery(rows, MirrorQuery(today, days, campaigns))
         == Grouped(Mirrored(rows, today, days, campaigns), MirrorBucket())
  {
    var q, some := MirrorQuery(today, days, campaigns), Mirrored(rows, today, days, campaigns);
    forall b ensures (b in Delivery(rows, q) <==> b in Grouped(some, MirrorBucket()))
      && (b in Delivery(rows, q) ==> Delivery(rows, q)[b] == Grouped(some, MirrorBucket())[b])
    {
      BucketsHold(rows, q, b);
      MirroredInBucket(rows, today, days, campaigns, b);
      ImageHas(some, MirrorBucket(), b);
    }
  }

  lemma MirrorReportIsGrouped(history: seq<Write>, today: int, days: nat, campaigns: set<string>, axis: Axis)
    ensures MirrorReport(history, MirrorQuery(today, days, campaigns), axis)
         == Grouped(Mirrored(Final(history), today, days, campaigns), MirrorGroup(axis))
  {
    DeliveryIsGrouped(Final(history), today, days, campaigns);
    Regrouped(Mirrored(Final(history), today, days, campaigns), MirrorBucket(), axis, MirrorGroup(axis));
  }

  // Per campaign the mirror's reader reports the sums over exactly the rows that count.
  lemma MirrorCampaignFigures(history: seq<Write>, rows: map<MirrorKey, Measures>, today: int, days: nat,
                              campaigns: set<string>, campaign: string)
    requires rows == Final(history)
    ensures var report := MirrorReport(history, MirrorQuery(today, days, campaigns), ByCampaign);
      var some := map k | k in rows && CountsMirrored(rows, today, days, campaigns, k)
                          && k.campaign == campaign :: rows[k];
      (Campaign(campaign) in report <==> some != map[])
      && (Campaign(campaign) in report ==> report[Campaign(campaign)] == Total(some))
  {
    var counted, g := Mirrored(rows, today, days, campaigns), Campaign(campaign);
    var some := map k | k in rows && CountsMirrored(rows, today, days, campaigns, k) && k.campaign == campaign :: rows[k];
    MirrorReportIsGrouped(history, today, days, campaigns, ByCampaign);
    assert some == Where(counted, MirrorGroup(ByCampaign), g);
    FigureOf(counted, MirrorGroup(ByCampaign), g, some);
  }

  // And per day.
  lemma MirrorDayFigures(history: seq<Write>, rows: map<MirrorKey, Measures>, today: int, days: nat,
                         campaigns: set<string>, day: int)
    requires rows == Final(history)
    ensures var report := MirrorReport(history, MirrorQuery(today, days, campaigns), ByDay);
      var some := map k | k in rows && CountsMirrored(rows, today, days, campaigns, k) && k.day == day :: rows[k];
      (Day(day) in report <==> some != map[]) && (Day(day) in report ==> report[Day(day)] == Total(some))
  {
    var counted, g := Mirrored(rows, today, days, campaigns), Day(day);
    var some := map k | k in rows && CountsMirrored(rows, today, days, campaigns, k) && k.day == day :: rows[k];
    MirrorReportIsGrouped(history, today, days, campaigns, ByDay);
    assert some == Where(counted, MirrorGroup(ByDay), g);
    FigureOf(counted, MirrorGroup(ByDay), g, some);
  }

  // The rows the mirror's reader sees: of each key ever written the measures of the highest
  // version, of equal ones the last written.
  lemma NewestIsRead(history: seq<Write>, i: nat)
    requires i < |history|
    requires forall j :: 0 <= j < |history| && history[j].key == history[i].key ==>
      history[j].version < history[i].version || (history[j].version == history[i].version && j <= i)
    ensures history[i].key in Final(history) && Final(history)[history[i].key] == history[i].measures
  {
    assert Newest(history, i);
  }

  // ---- what a sum is ----

  // Each measure of a sum is the sum of that measure, row by row.
  lemma TotalOneByOne<K>(rows: map<K, Measures>, k: K)
    requires k in rows
    ensures var sum, rest := Total(rows), Total(rows - {k});
      && sum.impressions == rows[k].impressions + rest.impressions
      && sum.clicks == rows[k].clicks + rest.clicks
      && sum.conversions == rows[k].conversions + rest.conversions
      && sum.cost == rows[k].cost + rest.cost
      && sum.revenue == rows[k].revenue + rest.revenue
  {
    TotalTake(rows, k);
  }
}
