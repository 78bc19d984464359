/**
 * The movements screen (components/Movements.tsx): the transfer form, which
 * builds a movement record from the selected asset, and the history table,
 * which lists the ledger newest first with placeholder labels.
 */
module Movements {
  import opened Types
  import opened Seqs
  import opened Db
  import opened App

  /** What the transfer dialog holds: the selected asset, the target department, the new status and the reason. */
  datatype MoveForm = MoveForm(selectedAssetId: string, toDeptId: string, newStatus: AssetStatus, reason: string)

  /** What handleMove hands to onAddMovement: the record and the status, which is always defined. */
  datatype MoveRequest = MoveRequest(movement: Movement, newStatus: AssetStatus)

  /** The dialog's initial state; the status select starts at IN_OPERATION. */
  function InitialMoveForm(): (f: MoveForm)
    ensures f.selectedAssetId == "" && f.toDeptId == "" && f.reason == ""
    ensures f.newStatus == IN_OPERATION
  {
    MoveForm("", "", IN_OPERATION, "")
  }

  /**
   * handleMove: no request when no asset carries the selected id; otherwise a
   * movement from that asset's current department, with the fresh id and the
   * timestamp given as parameters and the rest copied from the form.
   */
  function HandleMove(assets: seq<Asset>, form: MoveForm, freshId: string, now: string): (r: Option<MoveRequest>)
    ensures r.None? <==> forall j :: 0 <= j < |assets| ==> assets[j].id != form.selectedAssetId
    ensures r.Some? ==>
      exists j ::
        && 0 <= j < |assets| && assets[j].id == form.selectedAssetId
        && (forall i :: 0 <= i < j ==> assets[i].id != form.selectedAssetId)
        && r.value.movement.fromDepartmentId == assets[j].departmentId
    ensures r.Some? ==>
      && r.value.movement.id == freshId
      && r.value.movement.assetId == form.selectedAssetId
      && r.value.movement.toDepartmentId == form.toDeptId
      && r.value.movement.date == now
      && r.value.movement.reason == form.reason
      && r.value.newStatus == form.newStatus
  {
    assert forall j :: 0 <= j < |assets| ==> AssetKey(assets[j]) == assets[j].id;
    match Find(assets, AssetKey, form.selectedAssetId)
    case None => None
    case Some(asset) =>
      Some(MoveRequest(
        Movement(freshId, form.selectedAssetId, asset.departmentId, form.toDeptId, now, form.reason),
        form.newStatus))
  }

  /** The form after a successful move: asset, destination and reason cleared; the status select keeps its value. */
  function AfterMove(form: MoveForm): (f: MoveForm)
    ensures f.selectedAssetId == "" && f.toDeptId == "" && f.reason == ""
    ensures f.newStatus == form.newStatus
  {
    MoveForm("", "", form.newStatus, "")
  }

  /** Resubmitting the cleared form emits nothing, as long as no asset has the empty id. */
  lemma ClearedFormEmitsNothing(assets: seq<Asset>, form: MoveForm, freshId: string, now: string)
    requires forall j :: 0 <= j < |assets| ==> assets[j].id != ""
    ensures HandleMove(assets, AfterMove(form), freshId, now).None?
  {
  }

  /**
   * The form and the shell together: the request handleMove emits, once the
   * shell records it, leaves the asset in the chosen department with the
   * chosen status, and the movement names the department it left.
   */
  lemma MoveRelocatesAsset(assets: seq<Asset>, form: MoveForm, freshId: string, now: string)
    requires HandleMove(assets, form, freshId, now).Some?
    ensures var req := HandleMove(assets, form, freshId, now).value;
      var moved := Find(CascadeAssets(assets, assets, req.movement, Some(req.newStatus)), AssetKey, form.selectedAssetId);
      && moved.Some?
      && moved.value.departmentId == form.toDeptId
      && moved.value.status == form.newStatus
      && req.movement.fromDepartmentId == Find(assets, AssetKey, form.selectedAssetId).value.departmentId
  {
    var req := HandleMove(assets, form, freshId, now).value;
    var j :| 0 <= j < |assets| && assets[j].id == form.selectedAssetId;
    CascadeLocatesAsset(assets, req.movement, Some(req.newStatus));
  }

  /** `movements.slice().reverse()`: the ledger newest first, built from a copy. */
  function History(movements: seq<Movement>): (h: seq<Movement>)
    ensures |h| == |movements|
    ensures forall k :: 0 <= k < |h| ==> h[k] == movements[|movements| - 1 - k]
  {
    ReverseAt(movements);
    Reverse(movements)
  }

  /** A movement appended to the ledger heads the history; the older ones follow in the same order. */
  lemma HistoryNewestFirst(movements: seq<Movement>, mov: Movement)
    ensures History(movements + [mov]) == [mov] + History(movements)
  {
    var h := History(movements + [mov]);
    var g := [mov] + History(movements);
    assert |h| == |g|;
    forall k | 0 <= k < |h|
      ensures h[k] == g[k]
    {
      if k > 0 {
        assert g[k] == History(movements)[k - 1];
      }
    }
  }

  /** Reading the history backwards gives the ledger back: nothing is lost or reordered. */
  lemma HistoryKeepsLedger(movements: seq<Movement>)
    ensures Reverse(History(movements)) == movements
  {
    ReverseReverse(movements);
  }

  /** One row of the history table. */
  datatype HistoryRow = HistoryRow(
    movementId: string,
    assetName: string,
    assetTag: Option<string>,
    fromName: string,
    toName: string,
    date: string,
    reason: string)

  /** The table body: the single placeholder row, or one row per movement. */
  datatype HistoryTable = NoMovements | Rows(rows: seq<HistoryRow>)

  /** `asset?.tag`: the tag when the asset still exists. */
  function TagOf(assets: seq<Asset>, id: string): (r: Option<string>)
    ensures r.None? <==> forall j :: 0 <= j < |assets| ==> assets[j].id != id
    ensures r.Some? ==> exists j :: 0 <= j < |assets| && assets[j].id == id && assets[j].tag == r.value
    ensures forall j :: 0 <= j < |assets| && assets[j].id == id && (forall i :: 0 <= i < j ==> assets[i].id != id) ==>
      r == Some(assets[j].tag)
  {
    assert forall j :: 0 <= j < |assets| ==> AssetKey(assets[j]) == assets[j].id;
    match Find(assets, AssetKey, id)
    case None => None
    case Some(a) => Some(a.tag)
  }

  /** One row: the asset's name and tag, and the names of the two departments, each looked up by id. */
  function RowFor(assets: seq<Asset>, departments: seq<Department>, mov: Movement): (row: HistoryRow)
    ensures row.movementId == mov.id && row.date == mov.date && row.reason == mov.reason
    ensures row.assetName == AssetNameOr(assets, mov.assetId, "Excluído")
    ensures row.assetTag == TagOf(assets, mov.assetId)
    ensures row.fromName == DepartmentNameOr(departments, mov.fromDepartmentId, "---")
    ensures row.toName == DepartmentNameOr(departments, mov.toDepartmentId, "---")
  {
    HistoryRow(
      mov.id,
      AssetNameOr(assets, mov.assetId, "Excluído"),
      TagOf(assets, mov.assetId),
      DepartmentNameOr(departments, mov.fromDepartmentId, "---"),
      DepartmentNameOr(departments, mov.toDepartmentId, "---"),
      mov.date,
      mov.reason)
  }

  /**
   * The asset columns of a row: 'Excluído' and no tag when no asset has the
   * movement's asset id; otherwise the first such asset's name (or the
   * placeholder when that name is empty) and its tag.
   */
  lemma RowForAsset(assets: seq<Asset>, departments: seq<Department>, mov: Movement)
    ensures var row := RowFor(assets, departments, mov);
      && ((forall j :: 0 <= j < |assets| ==> assets[j].id != mov.assetId) ==> row.assetName == "Excluído")
      && (row.assetName != "Excluído" ==>
        exists j :: 0 <= j < |assets| && assets[j].id == mov.assetId && assets[j].name == row.assetName)
      && (row.assetTag.None? <==> forall j :: 0 <= j < |assets| ==> assets[j].id != mov.assetId)
    ensures var row := RowFor(assets, departments, mov);
      forall j ::
        && 0 <= j < |assets| && assets[j].id == mov.assetId
        && (forall i :: 0 <= i < j ==> assets[i].id != mov.assetId)
        ==> row.assetName == (if assets[j].name != "" then assets[j].name else "Excluído") && row.assetTag == Some(assets[j].tag)
  {
  }

  /**
   * A department column of a row (origin or destination): '---' when no
   * department has that id; otherwise the first such department's name, or
   * the placeholder when that name is empty.
   */
  lemma RowForDepartment(assets: seq<Asset>, departments: seq<Department>, mov: Movement, origin: bool)
    ensures var row := RowFor(assets, departments, mov);
      var id := if origin then mov.fromDepartmentId else mov.toDepartmentId;
      var name := if origin then row.fromName else row.toName;
      && ((forall j :: 0 <= j < |departments| ==> departments[j].id != id) ==> name == "---")
      && (name != "---" ==> exists j :: 0 <= j < |departments| && departments[j].id == id && departments[j].name == name)
      && forall j ::
        && 0 <= j < |departments| && departments[j].id == id
        && (forall i :: 0 <= i < j ==> departments[i].id != id)
        ==> name == (if departments[j].name != "" then departments[j].name else "---")
  {
  }

  /** The history table: the placeholder exactly when the ledger is empty, else the rows newest first. */
  function HistoryTableOf(assets: seq<Asset>, departments: seq<Department>, movements: seq<Movement>): (t: HistoryTable)
    ensures t.NoMovements? <==> |movements| == 0
    ensures t.Rows? ==> |t.rows| == |movements|
    ensures t.Rows? ==>
      forall k :: 0 <= k < |t.rows| ==> t.rows[k] == RowFor(assets, departments, movements[|movements| - 1 - k])
  {
    if |movements| == 0 then NoMovements
    else
      var h := History(movements);
      Rows(seq(|h|, k requires 0 <= k < |h| => RowFor(assets, departments, h[k])))
  }

  /** Once a movement is recorded, the table is never the placeholder and its first row shows that movement. */
  lemma RecordedMovementOnTop(assets: seq<Asset>, departments: seq<Department>, movements: seq<Movement>, mov: Movement)
    ensures var t := HistoryTableOf(assets, departments, movements + [mov]);
      t.Rows? && t.rows[0] == RowFor(assets, departments, mov)
  {
    var m := movements + [mov];
    assert m[|m| - 1] == mov;
  }
}
