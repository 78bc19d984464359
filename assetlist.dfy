/**
 * The inventory screen (components/AssetList.tsx): the search filter over
 * name and tag, the new-asset form with its defaults, and the per-card
 * category icon and invoice badge.
 */
module AssetList {
  import opened Types
  import opened Seqs
  import opened Db

  /** `toLowerCase` on one character, for the ASCII letters only. */
  function LowerChar(c: char): char
  {
    if 'A' <= c <= 'Z' then (c as int + 32) as char else c
  }

  function Lower(s: string): (r: string)
    ensures |r| == |s|
    ensures forall i :: 0 <= i < |r| ==> !('A' <= r[i] <= 'Z')
    ensures forall i :: 0 <= i < |r| ==> ('a' <= s[i] <= 'z' ==> r[i] == s[i])
    ensures forall i :: 0 <= i < |s| && !('A' <= s[i] <= 'Z') ==> r[i] == s[i]
    ensures forall i :: 0 <= i < |s| && 'A' <= s[i] <= 'Z' ==> r[i] as int == s[i] as int + 32
  {
    seq(|s|, i requires 0 <= i < |s| => LowerChar(s[i]))
  }

  /** sub occurs in s starting at offset i. */
  predicate OccursAt(s: string, sub: string, i: int)
  {
    0 <= i <= |s| - |sub| && s[i..i + |sub|] == sub
  }

  /** `s.includes(sub)`: sub occurs in s at some offset. */
  predicate Includes(s: string, sub: string)
    ensures Includes(s, sub) ==> |sub| <= |s|
    ensures sub == s ==> Includes(s, sub)
  {
    assert OccursAt(s, s, 0);
    exists i :: 0 <= i <= |s| && OccursAt(s, sub, i)
  }

  /** The empty string occurs in every string. */
  lemma IncludesEmpty(s: string)
    ensures Includes(s, "")
  {
    assert OccursAt(s, "", 0);
  }

  /** The filter's test: the lower-cased name or the lower-cased tag contains the lower-cased query. */
  predicate Matches(a: Asset, query: string)
    ensures query == "" ==> Matches(a, query)
    ensures Lower(query) == Lower(a.tag) ==> Matches(a, query)
  {
    IncludesEmpty(Lower(a.name));
    Includes(Lower(a.name), Lower(query)) || Includes(Lower(a.tag), Lower(query))
  }

  /** `filteredAssets`: the assets passing the test, in their original order. */
  function FilterAssets(assets: seq<Asset>, query: string): (r: seq<Asset>)
    ensures |r| <= |assets|
  {
    if |assets| == 0 then []
    else
      var last := assets[|assets| - 1];
      FilterAssets(assets[..|assets| - 1], query) + (if Matches(last, query) then [last] else [])
  }

  /** The filter keeps exactly the assets that match. */
  lemma {:induction false} FilterKeepsExactlyMatches(assets: seq<Asset>, query: string)
    ensures forall a :: a in FilterAssets(assets, query) <==> a in assets && Matches(a, query)
  {
    if |assets| > 0 {
      var init := assets[..|assets| - 1];
      FilterKeepsExactlyMatches(init, query);
      assert assets == init + [assets[|assets| - 1]];
    }
  }

  /** Lower-casing is idempotent. */
  lemma LowerLower(s: string)
    ensures Lower(Lower(s)) == Lower(s)
  {
  }

  /** The filter lower-cases the query itself, so the query's case does not matter. */
  lemma {:induction false} FilterIgnoresQueryCase(assets: seq<Asset>, query: string)
    ensures FilterAssets(assets, Lower(query)) == FilterAssets(assets, query)
  {
    LowerLower(query);
    if |assets| > 0 {
      FilterIgnoresQueryCase(assets[..|assets| - 1], query);
    }
  }

  /** An empty query keeps every asset. */
  lemma {:induction false} FilterEmptyQuery(assets: seq<Asset>)
    ensures FilterAssets(assets, "") == assets
  {
    if |assets| > 0 {
      var init := assets[..|assets| - 1];
      var last := assets[|assets| - 1];
      FilterEmptyQuery(init);
      assert Lower("") == "";
      IncludesEmpty(Lower(last.name));
      assert Matches(last, "");
      assert assets == init + [last];
    }
  }

  /**
   * The filtered list is a subsequence of the input: its entries sit at
   * strictly increasing positions of the input, and every matching position
   * is among them.
   */
  lemma {:induction false} FilterKeepsOrder(assets: seq<Asset>, query: string) returns (idx: seq<int>)
    ensures |idx| == |FilterAssets(assets, query)|
    ensures forall k :: 0 <= k < |idx| ==> 0 <= idx[k] < |assets| && FilterAssets(assets, query)[k] == assets[idx[k]]
    ensures forall k, l :: 0 <= k < l < |idx| ==> idx[k] < idx[l]
    ensures forall j :: 0 <= j < |assets| && Matches(assets[j], query) ==> j in idx
  {
    if |assets| == 0 {
      idx := [];
    } else {
      var n := |assets| - 1;
      var init := assets[..n];
      var last := assets[n];
      var prev := FilterKeepsOrder(init, query);
      var rest := FilterAssets(init, query);
      var keep := Matches(last, query);
      assert FilterAssets(assets, query) == rest + (if keep then [last] else []);
      assert forall j :: 0 <= j < n ==> init[j] == assets[j];
      if keep {
        idx := prev + [n];
        assert forall k :: 0 <= k < |prev| ==> idx[k] == prev[k];
      } else {
        idx := prev;
      }
    }
  }

  /** The new-asset form: every field of an asset except the id. */
  datatype AssetDraft = AssetDraft(
    name: string,
    tag: string,
    category: AssetCategory,
    status: AssetStatus,
    purchaseDate: string,
    purchaseValue: int,
    departmentId: string,
    description: string,
    nfes: seq<NFeRecord>)

  /**
   * The form's initial state and its state after each submit (today's date is
   * a parameter): `departments[0]?.id || ''` picks the first department's id.
   */
  function DefaultDraft(departments: seq<Department>, today: string): (d: AssetDraft)
    ensures d.name == "" && d.tag == "" && d.description == "" && d.nfes == []
    ensures d.category == IT && d.status == IN_STOCK && d.purchaseValue == 0
    ensures d.purchaseDate == today
    ensures |departments| == 0 ==> d.departmentId == ""
    ensures |departments| > 0 ==> d.departmentId == departments[0].id
  {
    var first := if |departments| > 0 && departments[0].id != "" then departments[0].id else "";
    AssetDraft("", "", IT, IN_STOCK, today, 0, first, "", [])
  }

  /** The form fields of an asset. */
  function DraftOf(a: Asset): (d: AssetDraft)
    ensures SubmitAsset(d, a.id) == a
  {
    AssetDraft(a.name, a.tag, a.category, a.status, a.purchaseDate, a.purchaseValue, a.departmentId, a.description, a.nfes)
  }

  /** handleSubmit's record: the form spread, then the fresh id. */
  function SubmitAsset(d: AssetDraft, freshId: string): (a: Asset)
    ensures a.id == freshId
    ensures a.name == d.name && a.tag == d.tag && a.category == d.category && a.status == d.status
    ensures a.purchaseDate == d.purchaseDate && a.purchaseValue == d.purchaseValue
    ensures a.departmentId == d.departmentId && a.description == d.description && a.nfes == d.nfes
  {
    Asset(freshId, d.name, d.tag, d.category, d.status, d.departmentId, d.purchaseDate, d.purchaseValue, d.description, d.nfes)
  }

  /** Submitting a form and reading its fields back gives the form unchanged, whatever the id. */
  lemma SubmitDraftOf(d: AssetDraft, freshId: string)
    ensures DraftOf(SubmitAsset(d, freshId)) == d
  {
  }

  /** Submitted with an id not yet in the store's list, the asset is appended after the existing ones. */
  lemma SubmitAppendsNew(s: seq<Asset>, d: AssetDraft, freshId: string)
    requires forall j :: 0 <= j < |s| ==> s[j].id != freshId
    ensures Upsert(s, SubmitAsset(d, freshId)) == s + [SubmitAsset(d, freshId)]
  {
    UpsertAppends(s, SubmitAsset(d, freshId));
  }

  /**
   * A generated id that collides with a stored one makes the submit replace
   * that asset rather than add one: the list keeps its length.
   */
  lemma SubmitCollisionReplaces(s: seq<Asset>, d: AssetDraft, freshId: string)
    requires exists j :: 0 <= j < |s| && s[j].id == freshId
    ensures |Upsert(s, SubmitAsset(d, freshId))| == |s|
    ensures SubmitAsset(d, freshId) in Upsert(s, SubmitAsset(d, freshId))
  {
    var a := SubmitAsset(d, freshId);
    UpsertReplacesFirst(s, a);
    var i := IndexOf(s, AssetKey, a.id);
    assert Upsert(s, a)[i] == a;
  }

  /** The card's category icon. */
  datatype Icon = Laptop | Chair | Car | Wrench

  function CategoryIcon(c: AssetCategory): (i: Icon)
    ensures i == Wrench <==> (c == MACHINERY || c == TOOLS)
  {
    match c
    case IT => Laptop
    case FURNITURE => Chair
    case VEHICLE => Car
    case _ => Wrench
  }

  /** IT, furniture and vehicles get icons of their own; machinery and tools share the default. */
  lemma CategoryIconsShared(c1: AssetCategory, c2: AssetCategory)
    ensures CategoryIcon(c1) == CategoryIcon(c2) <==>
      c1 == c2 || ((c1 == MACHINERY || c1 == TOOLS) && (c2 == MACHINERY || c2 == TOOLS))
    ensures CategoryIcon(c1) == Wrench <==> c1 == MACHINERY || c1 == TOOLS
  {
  }

  /** The card footer: the invoice badge, or the "no invoice" caption. */
  datatype InvoiceBadge = Linked | NoInvoice

  function BadgeFor(a: Asset): (b: InvoiceBadge)
    ensures b == Linked <==> a.nfes != []
  {
    if |a.nfes| > 0 then Linked else NoInvoice
  }

  /** The card's department: the name of the matching department, with no fallback when none matches. */
  function DepartmentOf(departments: seq<Department>, a: Asset): (r: Option<string>)
    ensures r.None? <==> forall j :: 0 <= j < |departments| ==> departments[j].id != a.departmentId
    ensures r.Some? ==>
      exists j :: 0 <= j < |departments| && departments[j].id == a.departmentId && departments[j].name == r.value
    ensures forall j ::
      && 0 <= j < |departments| && departments[j].id == a.departmentId
      && (forall i :: 0 <= i < j ==> departments[i].id != a.departmentId)
      ==> r == Some(departments[j].name)
  {
    assert forall j :: 0 <= j < |departments| ==> DepartmentKey(departments[j]) == departments[j].id;
    match Find(departments, DepartmentKey, a.departmentId)
    case None => None
    case Some(d) => Some(d.name)
  }
}
