/**
 * The persisted store (db.ts): three collections, each kept under its own key
 * of a key-value medium, read back with a seed fallback and written whole.
 */
module Db {
  import opened Types
  import opened Seqs

  /** The three storage keys. */
  datatype Key = AssetsKey | DepartmentsKey | MovementsKey

  /**
   * What the medium holds under one key: nothing, the empty string, or a
   * serialized collection (the serialization is taken to round-trip exactly).
   */
  datatype Entry<T> = Missing | EmptyString | Json(items: seq<T>)

  /** `data ? JSON.parse(data) : fallback`: both null and "" are falsy. */
  function Load<T>(e: Entry<T>, fallback: seq<T>): (r: seq<T>)
    ensures e.Json? ==> r == e.items
    ensures e.Missing? || e.EmptyString? ==> r == fallback
  {
    if e.Json? then e.items else fallback
  }

  function AssetKey(a: Asset): string { a.id }

  function DepartmentKey(d: Department): string { d.id }

  function AssetLabel(a: Asset): string { a.name }

  function DepartmentLabel(d: Department): string { d.name }

  /** `assets.find(a => a.id === id)?.name || fallback`. */
  function AssetNameOr(assets: seq<Asset>, id: string, fallback: string): (r: string)
    ensures (forall j :: 0 <= j < |assets| ==> assets[j].id != id) ==> r == fallback
    ensures r != fallback ==> exists j :: 0 <= j < |assets| && assets[j].id == id && assets[j].name == r
    ensures forall j ::
      && 0 <= j < |assets| && assets[j].id == id
      && (forall i :: 0 <= i < j ==> assets[i].id != id)
      ==> r == (if assets[j].name != "" then assets[j].name else fallback)
  {
    assert forall j :: 0 <= j < |assets| ==> AssetKey(assets[j]) == assets[j].id && AssetLabel(assets[j]) == assets[j].name;
    NameOr(assets, AssetKey, AssetLabel, id, fallback)
  }

  /** `departments.find(d => d.id === id)?.name || fallback`. */
  function DepartmentNameOr(departments: seq<Department>, id: string, fallback: string): (r: string)
    ensures (forall j :: 0 <= j < |departments| ==> departments[j].id != id) ==> r == fallback
    ensures r != fallback ==> exists j :: 0 <= j < |departments| && departments[j].id == id && departments[j].name == r
    ensures forall j ::
      && 0 <= j < |departments| && departments[j].id == id
      && (forall i :: 0 <= i < j ==> departments[i].id != id)
      ==> r == (if departments[j].name != "" then departments[j].name else fallback)
  {
    assert forall j :: 0 <= j < |departments| ==>
      DepartmentKey(departments[j]) == departments[j].id && DepartmentLabel(departments[j]) == departments[j].name;
    NameOr(departments, DepartmentKey, DepartmentLabel, id, fallback)
  }

  function InitialDepartments(): (r: seq<Department>)
    ensures |r| == 4 && UniqueKeys(r, DepartmentKey)
  {
    [ Department("1", "Tecnologia da Informação", "100.01"),
      Department("2", "Recursos Humanos", "100.02"),
      Department("3", "Operações / Logística", "200.05"),
      Department("4", "Administrativo", "100.03") ]
  }

  function InitialAssets(): (r: seq<Asset>)
    ensures |r| == 2 && UniqueKeys(r, AssetKey)
  {
    [ Asset("a1", "MacBook Pro M3", "TI-001", IT, IN_OPERATION, "1", "2023-11-15", 15000,
            "Equipamento de alta performance para desenvolvimento.",
            [NFeRecord("nf1", "12345", Compra, "2023-11-15", None)]),
      Asset("a2", "Cadeira Ergonômica Herman Miller", "MOB-042", FURNITURE, IN_STOCK, "4", "2024-01-10", 8500,
            "Cadeira para diretoria.", []) ]
  }

  /** The seed: four departments '1'..'4' and two assets with distinct ids. */
  lemma SeedFacts()
    ensures |InitialDepartments()| == 4
    ensures forall i :: 0 <= i < 4 ==> InitialDepartments()[i].id == ["1", "2", "3", "4"][i]
    ensures |InitialAssets()| == 2
    ensures InitialAssets()[0].id == "a1" && InitialAssets()[0].departmentId == "1"
      && InitialAssets()[0].status == IN_OPERATION
    ensures InitialAssets()[1].id == "a2" && InitialAssets()[1].departmentId == "4"
      && InitialAssets()[1].status == IN_STOCK
    ensures UniqueKeys(InitialAssets(), AssetKey) && UniqueKeys(InitialDepartments(), DepartmentKey)
  {
  }

  /** saveAsset's list update: replace the first entry with the same id, else append. */
  function Upsert(s: seq<Asset>, a: Asset): (r: seq<Asset>)
    ensures (exists j :: 0 <= j < |s| && s[j].id == a.id) ==> |r| == |s|
    ensures (forall j :: 0 <= j < |s| ==> s[j].id != a.id) ==> |r| == |s| + 1 && r[|s|] == a
    ensures a in r
  {
    var i := IndexOf(s, AssetKey, a.id);
    if i >= 0 then assert s[i := a][i] == a; s[i := a] else s + [a]
  }

  /** An id already present: the first entry carrying it is replaced in place, nothing else moves. */
  lemma UpsertReplacesFirst(s: seq<Asset>, a: Asset)
    requires exists j :: 0 <= j < |s| && s[j].id == a.id
    ensures |Upsert(s, a)| == |s|
    ensures exists i ::
              && 0 <= i < |s| && s[i].id == a.id
              && (forall j :: 0 <= j < i ==> s[j].id != a.id)
              && Upsert(s, a) == s[i := a]
  {
    var i := IndexOf(s, AssetKey, a.id);
    assert s[i].id == a.id;
  }

  /** A new id: the asset is appended and the old entries form a prefix. */
  lemma UpsertAppends(s: seq<Asset>, a: Asset)
    requires forall j :: 0 <= j < |s| ==> s[j].id != a.id
    ensures Upsert(s, a) == s + [a]
    ensures |Upsert(s, a)| == |s| + 1 && Upsert(s, a)[..|s|] == s
  {
    assert forall j :: 0 <= j < |s| ==> AssetKey(s[j]) != a.id;
  }

  /** After an upsert the id is present and the first entry holding it is the saved asset. */
  lemma UpsertFindsSaved(s: seq<Asset>, a: Asset)
    ensures Find(Upsert(s, a), AssetKey, a.id) == Some(a)
  {
    var r := Upsert(s, a);
    var i := IndexOf(s, AssetKey, a.id);
    var k := if i >= 0 then i else |s|;
    assert r[k] == a && AssetKey(r[k]) == a.id;
    assert forall j :: 0 <= j < k ==> AssetKey(r[j]) != a.id;
    var f := IndexOf(r, AssetKey, a.id);
    assert f == k;
  }

  /** Entries whose id differs from the saved one keep their values and positions. */
  lemma UpsertKeepsOthers(s: seq<Asset>, a: Asset)
    ensures forall j :: 0 <= j < |s| && s[j].id != a.id ==> Upsert(s, a)[j] == s[j]
    ensures |s| <= |Upsert(s, a)| <= |s| + 1
  {
  }

  /** Saving the same asset again changes nothing. */
  lemma UpsertIdempotent(s: seq<Asset>, a: Asset)
    ensures Upsert(Upsert(s, a), a) == Upsert(s, a)
  {
    var r := Upsert(s, a);
    UpsertFindsSaved(s, a);
    var k := IndexOf(r, AssetKey, a.id);
    assert r[k] == a;
    assert r[k := a] == r;
  }

  /** Saving one id twice from a list without it leaves exactly one record, with the latest values. */
  lemma UpsertTwice(s: seq<Asset>, a: Asset, b: Asset)
    requires a.id == b.id
    requires CountKey(s, AssetKey, a.id) == 0
    ensures Upsert(Upsert(s, a), b) == s + [b]
    ensures CountKey(Upsert(Upsert(s, a), b), AssetKey, a.id) == 1
  {
    assert forall j :: 0 <= j < |s| ==> AssetKey(s[j]) != a.id;
    UpsertAppends(s, a);
    var r := s + [a];
    assert IndexOf(r, AssetKey, b.id) == |s| by {
      assert AssetKey(r[|s|]) == b.id;
      assert forall j :: 0 <= j < |s| ==> AssetKey(r[j]) != b.id;
    }
    assert Upsert(r, b) == r[|s| := b] == s + [b];
    CountKeyAppend(s, [b], AssetKey, a.id);
    assert [b][..0] == [];
  }

  /** Distinct ids stay distinct under upsert. */
  lemma UpsertKeepsUniqueIds(s: seq<Asset>, a: Asset)
    requires UniqueKeys(s, AssetKey)
    ensures UniqueKeys(Upsert(s, a), AssetKey)
  {
    var i := IndexOf(s, AssetKey, a.id);
    var r := Upsert(s, a);
    if i >= 0 {
      forall j | 0 <= j < |r| ensures AssetKey(r[j]) == AssetKey(s[j]) {
      }
    }
  }

  /** saveDepartment appends blindly: saving an id that is present leaves it twice over. */
  lemma DepartmentDuplicates(s: seq<Department>, d: Department)
    requires exists j :: 0 <= j < |s| && s[j].id == d.id
    ensures CountKey(s + [d], DepartmentKey, d.id) == CountKey(s, DepartmentKey, d.id) + 1 >= 2
  {
    assert (s + [d])[..|s|] == s;
    var j :| 0 <= j < |s| && s[j].id == d.id;
    assert DepartmentKey(s[j]) == d.id;
  }

  /** The key-value medium holding the three collections. */
  class Store {
    var assets: Entry<Asset>
    var departments: Entry<Department>
    var movements: Entry<Movement>
    /** The keys written so far, in order. */
    ghost var writes: seq<Key>

    /** A store over a medium that holds the given entries. */
    constructor (assets: Entry<Asset>, departments: Entry<Department>, movements: Entry<Movement>)
      ensures this.assets == assets && this.departments == departments && this.movements == movements
      ensures writes == []
    {
      this.assets := assets;
      this.departments := departments;
      this.movements := movements;
      writes := [];
    }

    /** The collections as the getters see them. */
    function Assets(): seq<Asset>
      reads this
    {
      Load(assets, InitialAssets())
    }

    function Departments(): seq<Department>
      reads this
    {
      Load(departments, InitialDepartments())
    }

    function Movements(): seq<Movement>
      reads this
    {
      Load(movements, [])
    }

    /** `data ? JSON.parse(data) : INITIAL_ASSETS`, read from the medium. */
    method GetAssets() returns (r: seq<Asset>)
      ensures r == Assets()
    {
      r := Load(assets, InitialAssets());
    }

    /** `data ? JSON.parse(data) : INITIAL_DEPARTMENTS`, read from the medium. */
    method GetDepartments() returns (r: seq<Department>)
      ensures r == Departments()
    {
      r := Load(departments, InitialDepartments());
    }

    /** `data ? JSON.parse(data) : []`, read from the medium. */
    method GetMovements() returns (r: seq<Movement>)
      ensures r == Movements()
    {
      r := Load(movements, []);
    }

    /** Upsert by id, then write the assets key back. */
    method SaveAsset(asset: Asset)
      modifies this
      ensures assets == Json(Upsert(old(Assets()), asset))
      ensures departments == old(departments) && movements == old(movements)
      ensures writes == old(writes) + [AssetsKey]
    {
      var list := GetAssets();
      var index := IndexOf(list, AssetKey, asset.id);
      if index >= 0 {
        list := list[index := asset];
      } else {
        list := list + [asset];
      }
      assets := Json(list);
      writes := writes + [AssetsKey];
    }

    /** Append, whatever the id, then write the departments key back. */
    method SaveDepartment(dept: Department)
      modifies this
      ensures departments == Json(old(Departments()) + [dept])
      ensures assets == old(assets) && movements == old(movements)
      ensures writes == old(writes) + [DepartmentsKey]
    {
      var list := GetDepartments();
      list := list + [dept];
      departments := Json(list);
      writes := writes + [DepartmentsKey];
    }

    /** Append to the ledger, then write the movements key back. */
    method SaveMovement(mov: Movement)
      modifies this
      ensures movements == Json(old(Movements()) + [mov])
      ensures assets == old(assets) && departments == old(departments)
      ensures writes == old(writes) + [MovementsKey]
    {
      var list := GetMovements();
      list := list + [mov];
      movements := Json(list);
      writes := writes + [MovementsKey];
    }
  }
}
