/**
 * The user profile store: login fields and the two persisted fund lists,
 * with the auth provider's current user and the per-user document passed in
 * as values, and every document write returned as a value.
 */
module UserStore {
  import opened Wrappers
  import opened Dynamic
  import opened Funds

  const SelectedFundsKey := "selectedFunds"
  const PastViewedFundsKey := "pastViewedFunds"

  /** The signed-in user as the auth provider reports it. */
  datatype AuthUser = AuthUser(uid: string, email: Option<string>)

  /** A `setData(fields, merge: true)` request on the document `users/<uid>`. */
  datatype Write = Write(uid: string, fields: Dict)

  /**
   * Applying a merging write: the written top-level keys are replaced, the
   * others kept. Firestore's `merge: true` merges nested maps key by key;
   * every value these writes carry is an array, which it replaces whole, so
   * for these writes the two agree.
   */
  function Merge(doc: Dict, fields: Dict): (r: Dict)
    ensures r.Keys == doc.Keys + fields.Keys
    ensures forall k :: k in fields ==> r[k] == fields[k]
    ensures forall k :: k in doc && k !in fields ==> r[k] == doc[k]
  {
    doc + fields
  }

  // ---------------------------------------------------------------------
  // Deduplicated append
  // ---------------------------------------------------------------------

  /** `contains(where: { $0.schemeCode == code })`: a scan from the front. */
  function ContainsCode(funds: seq<Fund>, code: int): (r: bool)
    ensures r <==> exists k :: 0 <= k < |funds| && funds[k].schemeCode == code
  {
    if funds == [] then false
    else
      assert forall k :: 0 < k < |funds| ==> funds[k] == funds[1..][k - 1];
      funds[0].schemeCode == code || ContainsCode(funds[1..], code)
  }

  /** No two entries share a scheme code. */
  predicate UniqueCodes(funds: seq<Fund>) {
    forall i, j :: 0 <= i < j < |funds| ==> funds[i].schemeCode != funds[j].schemeCode
  }

  /** Append `fund` unless a fund with its scheme code is already listed. */
  function AddUnique(funds: seq<Fund>, fund: Fund): (r: seq<Fund>)
    ensures ContainsCode(funds, fund.schemeCode) ==> r == funds
    ensures !ContainsCode(funds, fund.schemeCode) ==> r == funds + [fund]
  {
    if ContainsCode(funds, fund.schemeCode) then funds else funds + [fund]
  }

  /** After saving, the fund's code is listed and the earlier entries are a prefix in their old order. */
  lemma AddUniqueExtends(funds: seq<Fund>, fund: Fund)
    ensures ContainsCode(AddUnique(funds, fund), fund.schemeCode)
    ensures funds <= AddUnique(funds, fund) && |AddUnique(funds, fund)| <= |funds| + 1
  {
    if !ContainsCode(funds, fund.schemeCode) {
      var r := AddUnique(funds, fund);
      assert r[|funds|] == fund;
    }
  }

  /** Saving preserves uniqueness of scheme codes. */
  lemma AddUniqueKeepsCodesUnique(funds: seq<Fund>, fund: Fund)
    requires UniqueCodes(funds)
    ensures UniqueCodes(AddUnique(funds, fund))
  {
  }

  /** Saving the same fund twice has the effect of saving it once. */
  lemma AddUniqueIdempotent(funds: seq<Fund>, fund: Fund)
    ensures AddUnique(AddUnique(funds, fund), fund) == AddUnique(funds, fund)
  {
    AddUniqueExtends(funds, fund);
  }

  // ---------------------------------------------------------------------
  // The stored record shape
  // ---------------------------------------------------------------------

  /** The four keys a stored record carries. */
  const StoredKeys: set<string> := {SchemeCodeKey, SchemeNameKey, IsinGrowthKey, IsinDivReinvestmentKey}

  /** The record a save writes per fund; a nil ISIN is written as null. */
  function EncodeStored(f: Fund): (d: Dict)
    ensures d.Keys == StoredKeys
    ensures d[SchemeCodeKey] == IntV(f.schemeCode) && d[SchemeNameKey] == StrV(f.schemeName)
    ensures d[IsinGrowthKey] == OptionalString(f.isinGrowth)
    ensures d[IsinDivReinvestmentKey] == OptionalString(f.isinDivReinvestment)
  {
    map[
      SchemeCodeKey := IntV(f.schemeCode),
      SchemeNameKey := StrV(f.schemeName),
      IsinGrowthKey := OptionalString(f.isinGrowth),
      IsinDivReinvestmentKey := OptionalString(f.isinDivReinvestment)
    ]
  }

  /** The part of a fund that the store keeps: code, name and the two ISINs. */
  function Persisted(f: Fund): (g: Fund)
    ensures g.schemeCode == f.schemeCode && g.schemeName == f.schemeName
    ensures g.isinGrowth == f.isinGrowth && g.isinDivReinvestment == f.isinDivReinvestment
    ensures g.fundHouse.None? && g.schemeType.None? && g.schemeCategory.None?
  {
    NewFund(f.schemeCode, f.schemeName, f.isinGrowth, f.isinDivReinvestment)
  }

  /** The record decoder of `loadUserData`: code and name required, ISINs lenient. */
  function DecodeStored(d: Dict): (r: Option<Fund>)
    ensures r.None? <==> IntAt(d, SchemeCodeKey).None? || StringAt(d, SchemeNameKey).None?
    ensures r.Some? ==> IntAt(d, SchemeCodeKey) == Some(r.value.schemeCode)
    ensures r.Some? ==> StringAt(d, SchemeNameKey) == Some(r.value.schemeName)
    ensures r.Some? ==> r.value.isinGrowth == StringAt(d, IsinGrowthKey)
    ensures r.Some? ==> r.value.isinDivReinvestment == StringAt(d, IsinDivReinvestmentKey)
    ensures r.Some? ==> r.value.fundHouse.None? && r.value.schemeType.None? && r.value.schemeCategory.None?
  {
    match IntAt(d, SchemeCodeKey)
    case None => None
    case Some(code) =>
      match StringAt(d, SchemeNameKey)
      case None => None
      case Some(name) =>
        Some(NewFund(code, name, StringAt(d, IsinGrowthKey), StringAt(d, IsinDivReinvestmentKey)))
  }

  /** The stored-record decoder agrees with `init?(dict:)` except that it drops the enrichment fields. */
  lemma DecodeStoredIsFromDictPersisted(d: Dict)
    ensures DecodeStored(d).None? <==> FromDict(d).None?
    ensures DecodeStored(d).Some? ==> DecodeStored(d).value == Persisted(FromDict(d).value)
  {
  }

  /** With nil written as null, a stored record decodes back to exactly the persisted fields. */
  lemma StoredRoundTrip(f: Fund)
    ensures DecodeStored(EncodeStored(f)) == Some(Persisted(f))
  {
  }

  // ---------------------------------------------------------------------
  // Lists of records
  // ---------------------------------------------------------------------

  /** The `map` over the list: one stored record per entry, in list order. */
  function EncodeAll(funds: seq<Fund>): (ds: seq<Dict>)
    ensures |ds| == |funds|
    ensures forall k :: 0 <= k < |funds| ==> ds[k] == EncodeStored(funds[k])
  {
    if funds == [] then [] else [EncodeStored(funds[0])] + EncodeAll(funds[1..])
  }

  /** The array value of a save's payload: one record per list entry, in order. */
  function EncodeList(funds: seq<Fund>): (v: Value)
    ensures v.ListV? && |v.items| == |funds|
    ensures forall k :: 0 <= k < |funds| ==> v.items[k] == DictV(EncodeStored(funds[k]))
  {
    var ds := EncodeAll(funds);
    ListV(seq(|ds|, k requires 0 <= k < |ds| => DictV(ds[k])))
  }

  function PersistedAll(funds: seq<Fund>): (r: seq<Fund>)
    ensures |r| == |funds|
    ensures forall k :: 0 <= k < |funds| ==> r[k] == Persisted(funds[k])
  {
    if funds == [] then [] else [Persisted(funds[0])] + PersistedAll(funds[1..])
  }

  /** `compactMap` of the record decoder: the records that decode, in order, the others dropped. */
  function DecodeAll(ds: seq<Dict>): (r: seq<Fund>)
    ensures |r| <= |ds|
    ensures forall f :: f in r <==> exists k :: 0 <= k < |ds| && DecodeStored(ds[k]) == Some(f)
  {
    if ds == [] then []
    else
      var rest := DecodeAll(ds[1..]);
      assert forall f :: (exists k :: 0 <= k < |ds[1..]| && DecodeStored(ds[1..][k]) == Some(f)) <==>
        (exists k :: 1 <= k < |ds| && DecodeStored(ds[k]) == Some(f)) by {
        forall f | exists k :: 1 <= k < |ds| && DecodeStored(ds[k]) == Some(f)
          ensures exists k :: 0 <= k < |ds[1..]| && DecodeStored(ds[1..][k]) == Some(f)
        {
          var k :| 1 <= k < |ds| && DecodeStored(ds[k]) == Some(f);
          assert ds[1..][k - 1] == ds[k];
        }
      }
      match DecodeStored(ds[0])
      case Some(f) => [f] + rest
      case None => rest
  }

  /** Decoding distributes over concatenation, so the order of records is kept. */
  lemma {:induction false} DecodeAllAppend(a: seq<Dict>, b: seq<Dict>)
    ensures DecodeAll(a + b) == DecodeAll(a) + DecodeAll(b)
  {
    if a == [] {
      assert a + b == b;
    } else {
      assert (a + b)[1..] == a[1..] + b;
      assert (a + b)[0] == a[0];
      DecodeAllAppend(a[1..], b);
    }
  }

  /** When every record is well formed, nothing is dropped and the i-th fund comes from the i-th record. */
  lemma {:induction false} DecodeAllWellFormed(ds: seq<Dict>)
    requires forall k :: 0 <= k < |ds| ==> DecodeStored(ds[k]).Some?
    ensures |DecodeAll(ds)| == |ds|
    ensures forall k :: 0 <= k < |ds| ==> DecodeAll(ds)[k] == DecodeStored(ds[k]).value
  {
    if ds != [] {
      DecodeAllWellFormed(ds[1..]);
      var r := DecodeAll(ds);
      assert r == [DecodeStored(ds[0]).value] + DecodeAll(ds[1..]);
      forall k | 0 < k < |ds| ensures r[k] == DecodeStored(ds[k]).value {
        assert ds[1..][k - 1] == ds[k];
      }
    }
  }

  /** Decoding what a save encoded yields the persisted fields of every entry, in order. */
  lemma {:induction false} DecodeAllOfEncoded(funds: seq<Fund>)
    ensures DecodeAll(EncodeAll(funds)) == PersistedAll(funds)
  {
    if funds != [] {
      DecodeAllOfEncoded(funds[1..]);
      StoredRoundTrip(funds[0]);
      assert EncodeAll(funds)[1..] == EncodeAll(funds[1..]);
    }
  }

  /**
   * The list held under `key`, if that key holds an array of dictionaries;
   * malformed records are dropped.
   */
  function LoadedList(data: Dict, key: string): (r: Option<seq<Fund>>)
    ensures r.Some? <==> key in data && AsDictArray(data[key]).Some?
    ensures r.Some? ==> r.value == DecodeAll(AsDictArray(data[key]).value)
  {
    if key in data then
      match AsDictArray(data[key])
      case Some(ds) => Some(DecodeAll(ds))
      case None => None
    else None
  }

  /** The list a load leaves in place: the stored one when it is readable, else the current one. */
  function Reloaded(document: Option<Dict>, key: string, current: seq<Fund>): (r: seq<Fund>)
    ensures document.None? ==> r == current
    ensures document.Some? && LoadedList(document.value, key).None? ==> r == current
    ensures document.Some? && LoadedList(document.value, key).Some? ==>
      r == LoadedList(document.value, key).value
  {
    match document
    case None => current
    case Some(data) => LoadedList(data, key).GetOr(current)
  }

  /**
   * Saving then loading: whatever the document held before, after a save's
   * write is merged, loading that key gives back the list's persisted fields.
   */
  lemma SaveThenLoad(doc: Dict, key: string, funds: seq<Fund>)
    ensures LoadedList(Merge(doc, map[key := EncodeList(funds)]), key) == Some(PersistedAll(funds))
  {
    var v := EncodeList(funds);
    var ds := AsDictArray(v).value;
    assert ds == EncodeAll(funds) by {
      forall k | 0 <= k < |funds| ensures ds[k] == EncodeAll(funds)[k] {
        assert v.items[k] == DictV(ds[k]);
      }
    }
    DecodeAllOfEncoded(funds);
  }

  /** A write under one list's key leaves what a load reads for the other key untouched. */
  lemma WriteLeavesOtherListAlone(doc: Dict, funds: seq<Fund>)
    ensures LoadedList(Merge(doc, map[SelectedFundsKey := EncodeList(funds)]), PastViewedFundsKey) ==
      LoadedList(doc, PastViewedFundsKey)
    ensures LoadedList(Merge(doc, map[PastViewedFundsKey := EncodeList(funds)]), SelectedFundsKey) ==
      LoadedList(doc, SelectedFundsKey)
  {
  }

  // ---------------------------------------------------------------------
  // The manager
  // ---------------------------------------------------------------------

  class UserManager {
    var isLoggedIn: bool
    var userEmail: string
    var username: string
    var selectedFunds: seq<Fund>
    var pastViewedFunds: seq<Fund>

    /**
     * A manager for the provider's current user: signed in, it takes the
     * user's email and loads the stored lists from `document`.
     */
    constructor (currentUser: Option<AuthUser>, document: Option<Dict>)
      ensures currentUser.None? ==> !isLoggedIn && userEmail == ""
      ensures currentUser.None? ==> selectedFunds == [] && pastViewedFunds == []
      ensures currentUser.Some? ==> isLoggedIn && userEmail == currentUser.value.email.GetOr("")
      ensures currentUser.Some? ==> selectedFunds == Reloaded(document, SelectedFundsKey, [])
      ensures currentUser.Some? ==> pastViewedFunds == Reloaded(document, PastViewedFundsKey, [])
      ensures username == ""
    {
      isLoggedIn := false;
      userEmail := "";
      username := "";
      selectedFunds := [];
      pastViewedFunds := [];
      new;
      if currentUser.Some? {
        isLoggedIn := true;
        userEmail := currentUser.value.email.GetOr("");
        LoadUserData(Some(currentUser.value.uid), document);
      }
    }

    /**
     * `logout`: a successful sign-out clears the session but not the user
     * name; a failing one changes nothing.
     */
    method Logout(signOutSucceeds: bool)
      modifies this
      ensures signOutSucceeds ==> !isLoggedIn && userEmail == ""
      ensures signOutSucceeds ==> selectedFunds == [] && pastViewedFunds == []
      ensures username == old(username)
      ensures !signOutSucceeds ==> unchanged(this)
    {
      if signOutSucceeds {
        isLoggedIn := false;
        userEmail := "";
        selectedFunds := [];
        pastViewedFunds := [];
      }
    }

    /**
     * `saveSelectedFund`: with a signed-in user, add the fund unless its
     * scheme code is listed, and write the whole list under "selectedFunds".
     */
    method SaveSelectedFund(fund: Fund, currentUid: Option<string>) returns (write: Option<Write>)
      modifies this`selectedFunds
      ensures currentUid.None? ==> selectedFunds == old(selectedFunds) && write.None?
      ensures currentUid.Some? ==> selectedFunds == AddUnique(old(selectedFunds), fund)
      ensures currentUid.Some? ==>
        write == Some(Write(currentUid.value, map[SelectedFundsKey := EncodeList(selectedFunds)]))
      ensures UniqueCodes(old(selectedFunds)) ==> UniqueCodes(selectedFunds)
    {
      if currentUid.None? {
        return None;
      }
      if UniqueCodes(selectedFunds) { AddUniqueKeepsCodesUnique(selectedFunds, fund); }
      selectedFunds := AddUnique(selectedFunds, fund);
      write := Some(Write(currentUid.value, map[SelectedFundsKey := EncodeList(selectedFunds)]));
    }

    /**
     * `savePastViewedFund`: the same for the viewing history, written under
     * "pastViewedFunds".
     */
    method SavePastViewedFund(fund: Fund, currentUid: Option<string>) returns (write: Option<Write>)
      modifies this`pastViewedFunds
      ensures currentUid.None? ==> pastViewedFunds == old(pastViewedFunds) && write.None?
      ensures currentUid.Some? ==> pastViewedFunds == AddUnique(old(pastViewedFunds), fund)
      ensures currentUid.Some? ==>
        write == Some(Write(currentUid.value, map[PastViewedFundsKey := EncodeList(pastViewedFunds)]))
      ensures UniqueCodes(old(pastViewedFunds)) ==> UniqueCodes(pastViewedFunds)
    {
      if currentUid.None? {
        return None;
      }
      if UniqueCodes(pastViewedFunds) { AddUniqueKeepsCodesUnique(pastViewedFunds, fund); }
      pastViewedFunds := AddUnique(pastViewedFunds, fund);
      write := Some(Write(currentUid.value, map[PastViewedFundsKey := EncodeList(pastViewedFunds)]));
    }

    /**
     * `loadUserData`: with a signed-in user and a document, each list whose
     * key holds an array of dictionaries is replaced by its decodable records.
     */
    method LoadUserData(currentUid: Option<string>, document: Option<Dict>)
      modifies this`selectedFunds, this`pastViewedFunds
      ensures currentUid.None? ==> selectedFunds == old(selectedFunds) && pastViewedFunds == old(pastViewedFunds)
      ensures currentUid.Some? ==> selectedFunds == Reloaded(document, SelectedFundsKey, old(selectedFunds))
      ensures currentUid.Some? ==> pastViewedFunds == Reloaded(document, PastViewedFundsKey, old(pastViewedFunds))
    {
      if currentUid.None? {
        return;
      }
      if document.Some? {
        var data := document.value;
        var selected := LoadedList(data, SelectedFundsKey);
        if selected.Some? {
          selectedFunds := selected.value;
        }
        var viewed := LoadedList(data, PastViewedFundsKey);
        if viewed.Some? {
          pastViewedFunds := viewed.value;
        }
      }
    }
  }
}
