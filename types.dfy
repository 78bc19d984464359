/** The records and closed enumerations of the inventory (types.ts). */
module Types {

  datatype Option<+T> = None | Some(value: T)

  /** Life-cycle state of an asset; the display strings are what is stored. */
  datatype AssetStatus = IN_OPERATION | IN_STOCK | UNDER_REPAIR | DISUSED | FOR_REPLACEMENT

  /** Kind of an asset. */
  datatype AssetCategory = IT | FURNITURE | VEHICLE | MACHINERY | TOOLS

  /** Kind of fiscal document attached to an asset. */
  datatype NFeType = Compra | Movimentacao | Descarte

  datatype Department = Department(id: string, name: string, costCenter: string)

  /** An invoice record; only the file reference is optional. */
  datatype NFeRecord = NFeRecord(id: string, number: string, kind: NFeType, date: string, fileUrl: Option<string>)

  /** Purchase values are whole amounts (the source uses a floating-point number). */
  datatype Asset = Asset(
    id: string,
    name: string,
    tag: string,
    category: AssetCategory,
    status: AssetStatus,
    departmentId: string,
    purchaseDate: string,
    purchaseValue: int,
    description: string,
    nfes: seq<NFeRecord>)

  datatype Movement = Movement(
    id: string,
    assetId: string,
    fromDepartmentId: string,
    toDepartmentId: string,
    date: string,
    reason: string)

  /** The string value each status member carries. */
  function StatusValue(s: AssetStatus): (r: string)
    ensures r != ""
  {
    match s
    case IN_OPERATION => "Em Operação"
    case IN_STOCK => "Em Estoque"
    case UNDER_REPAIR => "Em Reparo"
    case DISUSED => "Desuso"
    case FOR_REPLACEMENT => "Para Substituição"
  }

  /** The string value each category member carries. */
  function CategoryValue(c: AssetCategory): (r: string)
    ensures r != ""
  {
    match c
    case IT => "TI / Informática"
    case FURNITURE => "Mobiliário"
    case VEHICLE => "Veículo"
    case MACHINERY => "Maquinário"
    case TOOLS => "Ferramentas"
  }

  /** The three string literals an invoice type may take. */
  function NFeTypeValue(t: NFeType): (r: string)
    ensures r in ["Compra", "Movimentação", "Descarte"]
  {
    match t
    case Compra => "Compra"
    case Movimentacao => "Movimentação"
    case Descarte => "Descarte"
  }

  /** Object.values(AssetStatus): the members in declaration order. */
  function AllStatuses(): (r: seq<AssetStatus>)
    ensures |r| == 5
    ensures forall i, j :: 0 <= i < j < |r| ==> r[i] != r[j]
  {
    [IN_OPERATION, IN_STOCK, UNDER_REPAIR, DISUSED, FOR_REPLACEMENT]
  }

  /** Object.values(AssetCategory): the members in declaration order. */
  function AllCategories(): (r: seq<AssetCategory>)
    ensures |r| == 5
    ensures forall i, j :: 0 <= i < j < |r| ==> r[i] != r[j]
  {
    [IT, FURNITURE, VEHICLE, MACHINERY, TOOLS]
  }

  /** Every status member is listed by AllStatuses. */
  lemma StatusListed(s: AssetStatus)
    ensures s in AllStatuses()
  {
    var r := AllStatuses();
    match s
    case IN_OPERATION => assert r[0] == s;
    case IN_STOCK => assert r[1] == s;
    case UNDER_REPAIR => assert r[2] == s;
    case DISUSED => assert r[3] == s;
    case FOR_REPLACEMENT => assert r[4] == s;
  }

  /** Every category member is listed by AllCategories. */
  lemma CategoryListed(c: AssetCategory)
    ensures c in AllCategories()
  {
    var r := AllCategories();
    match c
    case IT => assert r[0] == c;
    case FURNITURE => assert r[1] == c;
    case VEHICLE => assert r[2] == c;
    case MACHINERY => assert r[3] == c;
    case TOOLS => assert r[4] == c;
  }

  /** Distinct members carry distinct strings, and none carries the empty string. */
  lemma StatusValuesDistinct(a: AssetStatus, b: AssetStatus)
    ensures StatusValue(a) == StatusValue(b) <==> a == b
    ensures StatusValue(a) != ""
  {
  }

  lemma CategoryValuesDistinct(a: AssetCategory, b: AssetCategory)
    ensures CategoryValue(a) == CategoryValue(b) <==> a == b
    ensures CategoryValue(a) != ""
  {
  }

  lemma NFeTypeValuesDistinct(a: NFeType, b: NFeType)
    ensures NFeTypeValue(a) == NFeTypeValue(b) <==> a == b
  {
  }
}
