/**
 * The two mutations of the application shell (App.tsx): adding an asset, and
 * recording a movement, which also relocates the asset it names.
 */
module App {
  import opened Types
  import opened Seqs
  import opened Db

  /** `newStatus || asset.status`: a supplied status wins when its string is truthy. */
  function ChosenStatus(newStatus: Option<AssetStatus>, current: AssetStatus): (r: AssetStatus)
    ensures newStatus.Some? ==> r == newStatus.value
    ensures newStatus.None? ==> r == current
  {
    match newStatus
    case None => current
    case Some(s) =>
      StatusValuesDistinct(s, s);
      if StatusValue(s) != "" then s else current
  }

  /** `updatedAsset`: the asset moved to the target department, with its status possibly changed. */
  function Relocated(a: Asset, mov: Movement, newStatus: Option<AssetStatus>): (r: Asset)
    ensures r.departmentId == mov.toDepartmentId
    ensures r.status == (if newStatus.Some? then newStatus.value else a.status)
    ensures r.(departmentId := a.departmentId, status := a.status) == a
  {
    a.(departmentId := mov.toDepartmentId, status := ChosenStatus(newStatus, a.status))
  }

  /**
   * The stored asset list after handleAddMovement: the asset is looked up in the
   * view's copy and, if found, its relocated value is upserted into the store's.
   */
  function CascadeAssets(view: seq<Asset>, stored: seq<Asset>, mov: Movement, newStatus: Option<AssetStatus>): (r: seq<Asset>)
    ensures |stored| <= |r| <= |stored| + 1
    ensures (forall j :: 0 <= j < |view| ==> view[j].id != mov.assetId) ==> r == stored
    ensures (exists j :: 0 <= j < |view| && view[j].id == mov.assetId) ==>
      exists k :: 0 <= k < |r| && r[k].id == mov.assetId && r[k].departmentId == mov.toDepartmentId
  {
    match Find(view, AssetKey, mov.assetId)
    case None => stored
    case Some(a) => Upsert(stored, Relocated(a, mov, newStatus))
  }

  /** A found asset: its first occurrence is replaced by the relocated value, the rest stays put. */
  lemma CascadeRelocates(s: seq<Asset>, mov: Movement, newStatus: Option<AssetStatus>)
    requires exists j :: 0 <= j < |s| && s[j].id == mov.assetId
    ensures |CascadeAssets(s, s, mov, newStatus)| == |s|
    ensures exists i ::
              && 0 <= i < |s| && s[i].id == mov.assetId
              && (forall j :: 0 <= j < i ==> s[j].id != mov.assetId)
              && CascadeAssets(s, s, mov, newStatus) == s[i := Relocated(s[i], mov, newStatus)]
  {
    var i := IndexOf(s, AssetKey, mov.assetId);
    var moved := Relocated(s[i], mov, newStatus);
    assert Find(s, AssetKey, mov.assetId) == Some(s[i]);
    assert IndexOf(s, AssetKey, moved.id) == i;
    assert CascadeAssets(s, s, mov, newStatus) == s[i := moved];
  }

  /** After recording the movement the asset sits in the target department with the chosen status. */
  lemma CascadeLocatesAsset(s: seq<Asset>, mov: Movement, newStatus: Option<AssetStatus>)
    requires exists j :: 0 <= j < |s| && s[j].id == mov.assetId
    ensures var r := Find(CascadeAssets(s, s, mov, newStatus), AssetKey, mov.assetId);
      && r.Some?
      && r.value.departmentId == mov.toDepartmentId
      && r.value.status == (if newStatus.Some? then newStatus.value else Find(s, AssetKey, mov.assetId).value.status)
  {
    var a := Find(s, AssetKey, mov.assetId).value;
    UpsertFindsSaved(s, Relocated(a, mov, newStatus));
  }

  /** No asset carries the movement's asset id: the asset list is left as it was. */
  lemma CascadeMissing(view: seq<Asset>, stored: seq<Asset>, mov: Movement, newStatus: Option<AssetStatus>)
    requires forall j :: 0 <= j < |view| ==> view[j].id != mov.assetId
    ensures CascadeAssets(view, stored, mov, newStatus) == stored
  {
    assert forall j :: 0 <= j < |view| ==> AssetKey(view[j]) != mov.assetId;
  }

  /** Recording a movement never changes how many assets exist, nor makes ids collide. */
  lemma CascadeKeepsCount(s: seq<Asset>, mov: Movement, newStatus: Option<AssetStatus>)
    ensures |CascadeAssets(s, s, mov, newStatus)| == |s|
    ensures UniqueKeys(s, AssetKey) ==> UniqueKeys(CascadeAssets(s, s, mov, newStatus), AssetKey)
  {
    match Find(s, AssetKey, mov.assetId)
    case None =>
    case Some(a) =>
      CascadeRelocates(s, mov, newStatus);
      if UniqueKeys(s, AssetKey) {
        UpsertKeepsUniqueIds(s, Relocated(a, mov, newStatus));
      }
  }

  /** The end-to-end case on the seed: 'a1' moves to department '3' under repair, 'a2' is untouched. */
  lemma SeedMovementExample(id: string, date: string, reason: string)
    ensures var mov := Movement(id, "a1", "1", "3", date, reason);
      var r := CascadeAssets(InitialAssets(), InitialAssets(), mov, Some(UNDER_REPAIR));
      && |r| == 2
      && r[0].id == "a1" && r[0].departmentId == "3" && r[0].status == UNDER_REPAIR
      && r[1] == InitialAssets()[1]
  {
    var mov := Movement(id, "a1", "1", "3", date, reason);
    var s := InitialAssets();
    assert AssetKey(s[0]) == "a1";
    assert IndexOf(s, AssetKey, "a1") == 0;
  }

  /** The application shell: React state mirrors of the three collections, over a store. */
  class Inventory {
    const store: Store
    var assets: seq<Asset>
    var departments: seq<Department>
    var movements: seq<Movement>

    /** The state mirrors exactly what the store yields. */
    ghost predicate Synced()
      reads this, store
    {
      assets == store.Assets() && departments == store.Departments() && movements == store.Movements()
    }

    /** The mount effect: load the three collections from the store. */
    constructor (store: Store)
      ensures this.store == store && Synced()
    {
      this.store := store;
      var a := store.GetAssets();
      var d := store.GetDepartments();
      var m := store.GetMovements();
      assets, departments, movements := a, d, m;
    }

    /** handleAddAsset: save through the upsert, then reload the asset list. */
    method HandleAddAsset(asset: Asset)
      modifies this, store
      ensures store.assets == Json(Upsert(old(store.Assets()), asset))
      ensures store.departments == old(store.departments) && store.movements == old(store.movements)
      ensures store.writes == old(store.writes) + [AssetsKey]
      ensures assets == store.Assets()
      ensures departments == old(departments) && movements == old(movements)
      ensures old(Synced()) ==> Synced()
    {
      store.SaveAsset(asset);
      assets := store.GetAssets();
    }

    /**
     * handleAddMovement: append to the ledger, then, if the state holds the
     * asset, upsert its relocated value; finally reload movements and assets.
     */
    method HandleAddMovement(mov: Movement, newStatus: Option<AssetStatus>)
      modifies this, store
      ensures store.movements == Json(old(store.Movements()) + [mov])
      ensures store.Assets() == CascadeAssets(old(assets), old(store.Assets()), mov, newStatus)
      ensures Find(old(assets), AssetKey, mov.assetId).None? ==> store.assets == old(store.assets)
      ensures store.departments == old(store.departments)
      ensures store.writes == old(store.writes) + [MovementsKey]
        + (if Find(old(assets), AssetKey, mov.assetId).Some? then [AssetsKey] else [])
      ensures movements == store.Movements() && assets == store.Assets()
      ensures departments == old(departments)
      ensures old(Synced()) ==> Synced()
    {
      ghost var stored := store.Assets();
      store.SaveMovement(mov);
      assert store.Assets() == stored;
      var asset := Find(assets, AssetKey, mov.assetId);
      if asset.Some? {
        var updated := Relocated(asset.value, mov, newStatus);
        store.SaveAsset(updated);
        assert store.Assets() == Upsert(stored, updated);
      }
      assert store.Assets() == CascadeAssets(assets, stored, mov, newStatus);
      movements := store.GetMovements();
      assets := store.GetAssets();
    }
  }

  /** The seed scenario driven through the shell: one movement recorded, 'a1' relocated, 'a2' kept. */
  method SeedScenario(id: string, date: string, reason: string) returns (movs: seq<Movement>, list: seq<Asset>)
    ensures |movs| == 1 && movs[0].assetId == "a1" && movs[0].toDepartmentId == "3"
    ensures |list| == 2
    ensures list[0].id == "a1" && list[0].departmentId == "3" && list[0].status == UNDER_REPAIR
    ensures list[1] == InitialAssets()[1]
  {
    var store := new Store(Missing, Missing, Missing);
    var app := new Inventory(store);
    var mov := Movement(id, "a1", "1", "3", date, reason);
    SeedMovementExample(id, date, reason);
    app.HandleAddMovement(mov, Some(UNDER_REPAIR));
    movs, list := app.movements, app.assets;
  }
}
