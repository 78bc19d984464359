/** The data the overview page derives from the collections (components/Dashboard.tsx). */
module Dashboard {
  import opened Types
  import opened Seqs
  import opened Db
  import opened App

  /** One `{ name, value }` point fed to a chart. */
  datatype ChartEntry = ChartEntry(name: string, value: nat)

  /** `assets.reduce((sum, a) => sum + a.purchaseValue, 0)`, folded from the left. */
  function TotalValue(assets: seq<Asset>): (t: int)
    ensures (forall i :: 0 <= i < |assets| ==> assets[i].purchaseValue >= 0) ==> t >= 0
    ensures (forall i :: 0 <= i < |assets| ==> assets[i].purchaseValue == 0) ==> t == 0
  {
    if |assets| == 0 then 0
    else TotalValue(assets[..|assets| - 1]) + assets[|assets| - 1].purchaseValue
  }

  /** The total is additive over concatenation, so it is the sum over every asset. */
  lemma {:induction false} TotalValueAppend(s: seq<Asset>, t: seq<Asset>)
    ensures TotalValue(s + t) == TotalValue(s) + TotalValue(t)
  {
    if |t| == 0 {
      assert s + t == s;
    } else {
      assert (s + t)[..|s + t| - 1] == s + t[..|t| - 1];
      TotalValueAppend(s, t[..|t| - 1]);
    }
  }

  /** Replacing one asset changes the total by the difference of the two values. */
  lemma TotalValueUpdate(s: seq<Asset>, i: nat, a: Asset)
    requires i < |s|
    ensures TotalValue(s[i := a]) == TotalValue(s) - s[i].purchaseValue + a.purchaseValue
  {
    assert s == s[..i] + [s[i]] + s[i + 1..];
    assert s[i := a] == s[..i] + [a] + s[i + 1..];
    TotalValueAppend(s[..i] + [s[i]], s[i + 1..]);
    TotalValueAppend(s[..i], [s[i]]);
    TotalValueAppend(s[..i] + [a], s[i + 1..]);
    TotalValueAppend(s[..i], [a]);
    assert [s[i]][..0] == [] && [a][..0] == [];
  }

  /** Recording a movement leaves the inventory value unchanged. */
  lemma MovementKeepsTotalValue(s: seq<Asset>, mov: Movement, newStatus: Option<AssetStatus>)
    ensures TotalValue(CascadeAssets(s, s, mov, newStatus)) == TotalValue(s)
  {
    if exists j :: 0 <= j < |s| && s[j].id == mov.assetId {
      CascadeRelocates(s, mov, newStatus);
      var i :| && 0 <= i < |s| && s[i].id == mov.assetId
              && (forall j :: 0 <= j < i ==> s[j].id != mov.assetId)
              && CascadeAssets(s, s, mov, newStatus) == s[i := Relocated(s[i], mov, newStatus)];
      TotalValueUpdate(s, i, Relocated(s[i], mov, newStatus));
    } else {
      CascadeMissing(s, s, mov, newStatus);
    }
  }

  /** `assets.filter(a => a.status === status).length` */
  function CountStatus(assets: seq<Asset>, st: AssetStatus): (n: nat)
    ensures n <= |assets|
  {
    if |assets| == 0 then 0
    else CountStatus(assets[..|assets| - 1], st) + (if assets[|assets| - 1].status == st then 1 else 0)
  }

  /** A status's count is zero exactly when no asset has that status. */
  lemma {:induction false} CountStatusZero(assets: seq<Asset>, st: AssetStatus)
    ensures CountStatus(assets, st) == 0 <==> forall i :: 0 <= i < |assets| ==> assets[i].status != st
  {
    if |assets| > 0 {
      var prefix := assets[..|assets| - 1];
      CountStatusZero(prefix, st);
      assert forall i :: 0 <= i < |prefix| ==> prefix[i] == assets[i];
    }
  }

  /** `Object.values(AssetStatus).map(status => ({ name: status, value: count }))` */
  function StatusCounts(assets: seq<Asset>): (r: seq<ChartEntry>)
    ensures |r| == 5
    ensures forall i :: 0 <= i < 5 ==> r[i].value <= |assets|
  {
    seq(|AllStatuses()|, i requires 0 <= i < |AllStatuses()| =>
      ChartEntry(StatusValue(AllStatuses()[i]), CountStatus(assets, AllStatuses()[i])))
  }

  /** The value of the under-repair card. */
  function UnderRepairCount(assets: seq<Asset>): (n: nat)
    ensures n <= |assets|
    ensures n == 0 <==> forall i :: 0 <= i < |assets| ==> assets[i].status != UNDER_REPAIR
  {
    CountStatusZero(assets, UNDER_REPAIR);
    CountStatus(assets, UNDER_REPAIR)
  }

  function SumValues(es: seq<ChartEntry>): nat
  {
    if |es| == 0 then 0 else SumValues(es[..|es| - 1]) + es[|es| - 1].value
  }

  /** One entry per status, in declaration order, zero counts included. */
  lemma StatusCountsShape(assets: seq<Asset>, st: AssetStatus)
    ensures |StatusCounts(assets)| == 5
    ensures exists i :: 0 <= i < 5 && StatusCounts(assets)[i] == ChartEntry(StatusValue(st), CountStatus(assets, st))
    ensures forall i, j :: 0 <= i < j < 5 ==> StatusCounts(assets)[i].name != StatusCounts(assets)[j].name
  {
    StatusListed(st);
    var i :| 0 <= i < 5 && AllStatuses()[i] == st;
    assert StatusCounts(assets)[i] == ChartEntry(StatusValue(st), CountStatus(assets, st));
    forall i, j | 0 <= i < j < 5 ensures StatusCounts(assets)[i].name != StatusCounts(assets)[j].name {
      StatusValuesDistinct(AllStatuses()[i], AllStatuses()[j]);
    }
  }

  /** Every asset has exactly one status, so the five counts add up to the number of assets. */
  lemma {:induction false} StatusCountsPartition(assets: seq<Asset>)
    ensures CountStatus(assets, IN_OPERATION) + CountStatus(assets, IN_STOCK) + CountStatus(assets, UNDER_REPAIR)
      + CountStatus(assets, DISUSED) + CountStatus(assets, FOR_REPLACEMENT) == |assets|
  {
    if |assets| > 0 {
      StatusCountsPartition(assets[..|assets| - 1]);
    }
  }

  lemma SumValuesFive(r: seq<ChartEntry>)
    requires |r| == 5
    ensures SumValues(r) == r[0].value + r[1].value + r[2].value + r[3].value + r[4].value
  {
    assert SumValues(r[..1]) == r[0].value by { assert r[..1][..0] == []; }
    assert SumValues(r[..2]) == SumValues(r[..1]) + r[1].value by { assert r[..2][..1] == r[..1]; }
    assert SumValues(r[..3]) == SumValues(r[..2]) + r[2].value by { assert r[..3][..2] == r[..2]; }
    assert SumValues(r[..4]) == SumValues(r[..3]) + r[3].value by { assert r[..4][..3] == r[..3]; }
  }

  lemma StatusCountsSum(assets: seq<Asset>)
    ensures SumValues(StatusCounts(assets)) == |assets|
  {
    SumValuesFive(StatusCounts(assets));
    StatusCountsPartition(assets);
  }

  /** The under-repair card shows the UNDER_REPAIR entry of the status chart. */
  lemma UnderRepairMatchesChart(assets: seq<Asset>)
    ensures StatusCounts(assets)[2] == ChartEntry(StatusValue(UNDER_REPAIR), UnderRepairCount(assets))
  {
  }

  /** Three assets in stock and one under repair give exactly those counts, the others zero. */
  lemma StatusCountsExample(a: Asset, b: Asset, c: Asset, d: Asset)
    requires a.status == IN_STOCK && b.status == IN_STOCK && c.status == IN_STOCK && d.status == UNDER_REPAIR
    ensures StatusCounts([a, b, c, d]) == [
      ChartEntry(StatusValue(IN_OPERATION), 0), ChartEntry(StatusValue(IN_STOCK), 3),
      ChartEntry(StatusValue(UNDER_REPAIR), 1), ChartEntry(StatusValue(DISUSED), 0),
      ChartEntry(StatusValue(FOR_REPLACEMENT), 0)]
  {
    CountStatusAppend([], a);
    CountStatusAppend([a], b);
    CountStatusAppend([a, b], c);
    CountStatusAppend([a, b, c], d);
    assert [] + [a] == [a] && [a] + [b] == [a, b] && [a, b] + [c] == [a, b, c] && [a, b, c] + [d] == [a, b, c, d];
  }

  lemma CountStatusAppend(s: seq<Asset>, x: Asset)
    ensures forall st :: CountStatus(s + [x], st) == CountStatus(s, st) + (if x.status == st then 1 else 0)
  {
    assert (s + [x])[..|s|] == s;
  }

  /** `assets.filter(a => a.category === c).length` */
  function CountCategory(assets: seq<Asset>, c: AssetCategory): (n: nat)
    ensures n <= |assets|
  {
    if |assets| == 0 then 0
    else CountCategory(assets[..|assets| - 1], c) + (if assets[|assets| - 1].category == c then 1 else 0)
  }

  /** A category's count is zero exactly when no asset has that category. */
  lemma {:induction false} CountCategoryZero(assets: seq<Asset>, c: AssetCategory)
    ensures CountCategory(assets, c) == 0 <==> forall i :: 0 <= i < |assets| ==> assets[i].category != c
  {
    if |assets| > 0 {
      var prefix := assets[..|assets| - 1];
      CountCategoryZero(prefix, c);
      assert forall i :: 0 <= i < |prefix| ==> prefix[i] == assets[i];
    }
  }

  lemma CountCategoryAppend(s: seq<Asset>, x: Asset)
    ensures forall c :: CountCategory(s + [x], c) == CountCategory(s, c) + (if x.category == c then 1 else 0)
  {
    assert (s + [x])[..|s|] == s;
  }

  /** The categories in the order they first appear, without repetition. */
  function FirstSeen(assets: seq<Asset>): (r: seq<AssetCategory>)
    ensures |r| <= |assets|
  {
    if |assets| == 0 then []
    else
      var d := FirstSeen(assets[..|assets| - 1]);
      if assets[|assets| - 1].category in d then d else d + [assets[|assets| - 1].category]
  }

  /** The first asset's category is the first key. */
  lemma {:induction false} FirstSeenHead(assets: seq<Asset>)
    requires |assets| > 0
    ensures |FirstSeen(assets)| > 0 && FirstSeen(assets)[0] == assets[0].category
  {
    if |assets| > 1 {
      var prefix := assets[..|assets| - 1];
      FirstSeenHead(prefix);
      assert prefix[0] == assets[0];
    }
  }

  /** No category is listed twice. */
  lemma {:induction false} FirstSeenDistinct(assets: seq<Asset>)
    ensures NoRepeats(FirstSeen(assets))
  {
    if |assets| > 0 {
      var d := FirstSeen(assets[..|assets| - 1]);
      FirstSeenDistinct(assets[..|assets| - 1]);
      var c := assets[|assets| - 1].category;
      if c !in d {
        var r := d + [c];
        assert FirstSeen(assets) == r;
        forall i, j | 0 <= i < j < |r| ensures r[i] != r[j] {
          if j < |d| {
            assert r[i] == d[i] && r[j] == d[j];
          } else {
            assert r[i] == d[i] && r[j] == c;
          }
        }
      } else {
        assert FirstSeen(assets) == d;
      }
    }
  }

  /** The first-seen order lists exactly the categories present. */
  lemma {:induction false} FirstSeenMembers(assets: seq<Asset>)
    ensures forall c :: c in FirstSeen(assets) <==> exists i :: 0 <= i < |assets| && assets[i].category == c
  {
    if |assets| > 0 {
      var prefix := assets[..|assets| - 1];
      FirstSeenMembers(prefix);
      assert forall i :: 0 <= i < |prefix| ==> prefix[i] == assets[i];
    }
  }

  /** The counts of the listed categories, added up. */
  function SumCounts(order: seq<AssetCategory>, counts: map<AssetCategory, nat>): nat
    requires forall c :: c in order ==> c in counts
  {
    if |order| == 0 then 0
    else SumCounts(order[..|order| - 1], counts) + counts[order[|order| - 1]]
  }

  lemma {:induction false} SumCountsFrame(order: seq<AssetCategory>, counts: map<AssetCategory, nat>, c: AssetCategory, v: nat)
    requires forall k :: k in order ==> k in counts
    requires c !in order
    ensures SumCounts(order, counts[c := v]) == SumCounts(order, counts)
  {
    if |order| > 0 {
      SumCountsFrame(order[..|order| - 1], counts, c, v);
    }
  }

  lemma {:induction false} SumCountsBump(order: seq<AssetCategory>, counts: map<AssetCategory, nat>, c: AssetCategory)
    requires forall k :: k in order ==> k in counts
    requires NoRepeats(order)
    requires c in order
    ensures SumCounts(order, counts[c := counts[c] + 1]) == SumCounts(order, counts) + 1
  {
    var init := order[..|order| - 1];
    assert NoRepeats(init);
    if order[|order| - 1] == c {
      assert c !in init;
      SumCountsFrame(init, counts, c, counts[c] + 1);
    } else {
      SumCountsBump(init, counts, c);
    }
  }

  /** Reading one more asset extends the first-seen order only when its category is new. */
  lemma FirstSeenAppend(prefix: seq<Asset>, x: Asset)
    ensures FirstSeen(prefix + [x])
         == if x.category in FirstSeen(prefix) then FirstSeen(prefix) else FirstSeen(prefix) + [x.category]
  {
    assert (prefix + [x])[..|prefix|] == prefix;
  }

  /** A category never read so far has count zero. */
  lemma {:induction false} CountCategoryAbsent(assets: seq<Asset>, c: AssetCategory)
    requires c !in FirstSeen(assets)
    ensures CountCategory(assets, c) == 0
  {
    if |assets| > 0 {
      CountCategoryAbsent(assets[..|assets| - 1], c);
    }
  }

  /** The key order keeps following the first-seen order. */
  lemma CategoryStepOrder(read: seq<Asset>, x: Asset, order: seq<AssetCategory>, counts: map<AssetCategory, nat>,
                          order': seq<AssetCategory>)
    requires order == FirstSeen(read)
    requires forall k :: k in counts <==> k in order
    requires order' == if x.category in counts then order else order + [x.category]
    ensures order' == FirstSeen(read + [x])
  {
    FirstSeenAppend(read, x);
  }

  /** The accumulated counts stay equal to the counts over the assets read. */
  lemma CategoryStepCounts(read: seq<Asset>, x: Asset, order: seq<AssetCategory>, counts: map<AssetCategory, nat>,
                           counts': map<AssetCategory, nat>)
    requires order == FirstSeen(read)
    requires forall k :: k in counts <==> k in order
    requires forall k :: k in counts ==> counts[k] == CountCategory(read, k)
    requires counts' == counts[x.category := (if x.category in counts then counts[x.category] else 0) + 1]
    ensures forall k :: k in counts' ==> counts'[k] == CountCategory(read + [x], k)
  {
    CountCategoryAppend(read, x);
    if x.category !in counts {
      CountCategoryAbsent(read, x.category);
    }
  }

  /** The keys keep following the insertion order. */
  lemma CategoryStepKeys(x: Asset, order: seq<AssetCategory>, counts: map<AssetCategory, nat>,
                         order': seq<AssetCategory>, counts': map<AssetCategory, nat>)
    requires forall k :: k in counts <==> k in order
    requires order' == if x.category in counts then order else order + [x.category]
    requires counts' == counts[x.category := (if x.category in counts then counts[x.category] else 0) + 1]
    ensures forall k :: k in counts' <==> k in order'
  {
  }

  /** The counts keep adding up to the number of assets read. */
  lemma CategoryStepSum(total: nat, x: Asset, order: seq<AssetCategory>, counts: map<AssetCategory, nat>,
                        order': seq<AssetCategory>, counts': map<AssetCategory, nat>)
    requires NoRepeats(order)
    requires forall k :: k in counts <==> k in order
    requires SumCounts(order, counts) == total
    requires order' == if x.category in counts then order else order + [x.category]
    requires counts' == counts[x.category := (if x.category in counts then counts[x.category] else 0) + 1]
    requires forall k :: k in order' ==> k in counts'
    ensures SumCounts(order', counts') == total + 1
  {
    var c := x.category;
    if c in counts {
      SumCountsBump(order, counts, c);
    } else {
      SumCountsFrame(order, counts, c, 1);
      assert order'[..|order'| - 1] == order;
      assert SumCounts(order', counts') == SumCounts(order, counts') + 1;
    }
  }

  /**
   * The accumulator after reading `read`: its keys, in insertion order, are the
   * categories first seen, each mapped to its count, and the counts add up to |read|.
   */
  ghost predicate Tallied(read: seq<Asset>, order: seq<AssetCategory>, counts: map<AssetCategory, nat>)
  {
    && order == FirstSeen(read)
    && (forall k :: k in counts <==> k in order)
    && (forall k :: k in counts ==> counts[k] == CountCategory(read, k))
    && SumCounts(order, counts) == |read|
  }

  /** The step below, with the accumulator after the step named. */
  lemma CategoryStepTallied(read: seq<Asset>, x: Asset, order: seq<AssetCategory>, counts: map<AssetCategory, nat>,
                            order': seq<AssetCategory>, counts': map<AssetCategory, nat>)
    requires Tallied(read, order, counts)
    requires order' == if x.category in counts then order else order + [x.category]
    requires counts' == counts[x.category := (if x.category in counts then counts[x.category] else 0) + 1]
    ensures Tallied(read + [x], order', counts')
  {
    CategoryStepOrder(read, x, order, counts, order');
    CategoryStepCounts(read, x, order, counts, counts');
    CategoryStepKeys(x, order, counts, order', counts');
    FirstSeenDistinct(read);
    CategoryStepSum(|read|, x, order, counts, order', counts');
  }

  /** One step of the reduce, `acc[c] = (acc[c] || 0) + 1`, keeps the accumulator tallied. */
  lemma CategoryStep(read: seq<Asset>, x: Asset, order: seq<AssetCategory>, counts: map<AssetCategory, nat>)
    requires Tallied(read, order, counts)
    ensures Tallied(read + [x],
      if x.category in counts then order else order + [x.category],
      counts[x.category := (if x.category in counts then counts[x.category] else 0) + 1])
  {
    CategoryStepTallied(read, x, order, counts,
      if x.category in counts then order else order + [x.category],
      counts[x.category := (if x.category in counts then counts[x.category] else 0) + 1]);
  }

  /**
   * `categoryCounts`: the reduce that bumps `acc[asset.category]` per asset.
   * `order` is the key order of the accumulator object, i.e. insertion order.
   */
  method CategoryCounts(assets: seq<Asset>) returns (order: seq<AssetCategory>, counts: map<AssetCategory, nat>)
    ensures Tallied(assets, order, counts)
    ensures forall c :: c in counts <==> exists i :: 0 <= i < |assets| && assets[i].category == c
    ensures forall c :: c in counts ==> counts[c] >= 1
  {
    order, counts := [], map[];
    var i := 0;
    while i < |assets|
      invariant 0 <= i <= |assets|
      invariant Tallied(assets[..i], order, counts)
    {
      var c := assets[i].category;
      CategoryStep(assets[..i], assets[i], order, counts);
      PrefixStep(assets, i);
      order, counts := (if c in counts then order else order + [c]), counts[c := (if c in counts then counts[c] else 0) + 1];
      i := i + 1;
    }
    assert assets[..i] == assets;
    TalliedAll(assets, order, counts);
  }

  /** Once every asset is read, the accumulator holds the counts of exactly the categories present. */
  lemma TalliedAll(assets: seq<Asset>, order: seq<AssetCategory>, counts: map<AssetCategory, nat>)
    requires Tallied(assets, order, counts)
    ensures order == FirstSeen(assets)
    ensures forall c :: c in counts <==> exists i :: 0 <= i < |assets| && assets[i].category == c
    ensures forall c :: c in counts ==> counts[c] == CountCategory(assets, c) >= 1
    ensures forall c :: c in order ==> c in counts
    ensures SumCounts(order, counts) == |assets|
  {
    FirstSeenMembers(assets);
    forall c | c in counts
      ensures counts[c] >= 1
    {
      CountCategoryZero(assets, c);
    }
  }

  /** `pieData`: one entry per key of the accumulator, in key order. */
  function PieData(order: seq<AssetCategory>, counts: map<AssetCategory, nat>): (r: seq<ChartEntry>)
    requires forall c :: c in order ==> c in counts
    ensures |r| == |order|
    ensures forall i :: 0 <= i < |order| ==> r[i] == ChartEntry(CategoryValue(order[i]), counts[order[i]])
    ensures SumValues(r) == SumCounts(order, counts)
  {
    if |order| == 0 then []
    else PieData(order[..|order| - 1], counts) + [ChartEntry(CategoryValue(order[|order| - 1]), counts[order[|order| - 1]])]
  }

  /** The palette of the category chart. */
  const COLORS: seq<string> := ["#6366f1", "#10b981", "#f59e0b", "#ef4444", "#8b5cf6"]

  /** `COLORS[index % COLORS.length]`: every chart index gets a palette colour, cycling every five. */
  function ColorFor(index: nat): (c: string)
    ensures c in COLORS
  {
    COLORS[index % |COLORS|]
  }

  lemma ColorCycles(index: nat)
    ensures ColorFor(index + 5) == ColorFor(index)
  {
  }

  /** `assets.slice(-5).reverse()`: the recently added list. */
  function Recent(assets: seq<Asset>): (r: seq<Asset>)
    ensures |r| <= 5 && |r| <= |assets|
    ensures |assets| > 0 ==> |r| > 0 && r[0] == assets[|assets| - 1]
  {
    var start := if |assets| < 5 then 0 else |assets| - 5;
    ReverseAt(assets[start..]);
    Reverse(assets[start..])
  }

  /** At most five entries, the newest first. */
  lemma RecentShape(assets: seq<Asset>)
    ensures |Recent(assets)| == if |assets| < 5 then |assets| else 5
    ensures forall k :: 0 <= k < |Recent(assets)| ==> Recent(assets)[k] == assets[|assets| - 1 - k]
  {
    var start := if |assets| < 5 then 0 else |assets| - 5;
    ReverseAt(assets[start..]);
  }

  /** `departments.find(d => d.id === id)?.name || 'N/A'` */
  function DepartmentName(departments: seq<Department>, id: string): (r: string)
    ensures (forall j :: 0 <= j < |departments| ==> departments[j].id != id) ==> r == "N/A"
    ensures r != "N/A" ==> exists j :: 0 <= j < |departments| && departments[j].id == id && departments[j].name == r
    ensures forall j ::
      && 0 <= j < |departments| && departments[j].id == id
      && (forall i :: 0 <= i < j ==> departments[i].id != id)
      ==> r == (if departments[j].name != "" then departments[j].name else "N/A")
  {
    DepartmentNameOr(departments, id, "N/A")
  }
}
