/**
 * The fund record, the records of the detail response, and the fund's
 * dictionary codec used for the document store (`toDict` / `init?(dict:)`).
 */
module Funds {
  import opened Wrappers
  import opened Dynamic

  /**
   * A mutual-fund scheme. The scheme code is its identity; the three
   * enrichment fields are filled only from the detail endpoint.
   */
  datatype Fund = Fund(
    schemeCode: int,
    schemeName: string,
    isinGrowth: Option<string>,
    isinDivReinvestment: Option<string>,
    fundHouse: Option<string>,
    schemeType: Option<string>,
    schemeCategory: Option<string>)

  /** One NAV sample of the detail response. */
  datatype Datum = Datum(date: string, nav: string)

  /** The `meta` block of the detail response; its three descriptive fields are mandatory. */
  datatype Meta = Meta(
    fundHouse: string,
    schemeType: string,
    schemeCategory: string,
    schemeCode: int,
    schemeName: string,
    isinGrowth: Option<string>,
    isinDivReinvestment: Option<string>)

  /** The whole detail response. */
  datatype FundsDetail = FundsDetail(meta: Meta, data: seq<Datum>, status: string)

  /** `Identifiable.id`: funds are identified by their scheme code. */
  function Id(f: Fund): (id: int)
    ensures id == f.schemeCode
  {
    f.schemeCode
  }

  /** The memberwise initialiser; every optional argument defaults to nil. */
  function NewFund(
    schemeCode: int,
    schemeName: string,
    isinGrowth: Option<string> := None,
    isinDivReinvestment: Option<string> := None,
    fundHouse: Option<string> := None,
    schemeType: Option<string> := None,
    schemeCategory: Option<string> := None): (f: Fund)
    ensures f.schemeCode == schemeCode && f.schemeName == schemeName
    ensures f.isinGrowth == isinGrowth && f.isinDivReinvestment == isinDivReinvestment
    ensures f.fundHouse == fundHouse && f.schemeType == schemeType && f.schemeCategory == schemeCategory
  {
    Fund(schemeCode, schemeName, isinGrowth, isinDivReinvestment, fundHouse, schemeType, schemeCategory)
  }

  /** Arguments left out of the initialiser become nil. */
  lemma NewFundDefaults(code: int, name: string)
    ensures NewFund(code, name) == Fund(code, name, None, None, None, None, None)
  {
  }

  const SchemeCodeKey := "schemeCode"
  const SchemeNameKey := "schemeName"
  const IsinGrowthKey := "isinGrowth"
  const IsinDivReinvestmentKey := "isinDivReinvestment"
  const FundHouseKey := "fundHouse"
  const SchemeTypeKey := "schemeType"
  const SchemeCategoryKey := "schemeCategory"

  /** The keys of the five optional string fields. */
  const OptionalKeys: set<string> :=
    {IsinGrowthKey, IsinDivReinvestmentKey, FundHouseKey, SchemeTypeKey, SchemeCategoryKey}

  /** The seven keys `toDict` writes. */
  const DictKeys: set<string> := {SchemeCodeKey, SchemeNameKey} + OptionalKeys

  /** The optional field stored under `key`, for the five optional keys. */
  function OptionalField(f: Fund, key: string): Option<string>
    requires key in OptionalKeys
  {
    if key == IsinGrowthKey then f.isinGrowth
    else if key == IsinDivReinvestmentKey then f.isinDivReinvestment
    else if key == FundHouseKey then f.fundHouse
    else if key == SchemeTypeKey then f.schemeType
    else f.schemeCategory
  }

  /** `toDict`: the seven-key dictionary, with "" standing for every nil field. */
  function ToDict(f: Fund): (d: Dict)
    ensures d.Keys == DictKeys
    ensures d[SchemeCodeKey] == IntV(f.schemeCode) && d[SchemeNameKey] == StrV(f.schemeName)
    ensures forall k :: k in OptionalKeys ==> d[k].StrV?
    ensures forall k :: k in OptionalKeys && OptionalField(f, k).None? ==> d[k] == StrV("")
    ensures forall k :: k in OptionalKeys && OptionalField(f, k).Some? ==> d[k] == StrV(OptionalField(f, k).value)
  {
    map[
      SchemeCodeKey := IntV(f.schemeCode),
      SchemeNameKey := StrV(f.schemeName),
      IsinGrowthKey := StrV(f.isinGrowth.GetOr("")),
      IsinDivReinvestmentKey := StrV(f.isinDivReinvestment.GetOr("")),
      FundHouseKey := StrV(f.fundHouse.GetOr("")),
      SchemeTypeKey := StrV(f.schemeType.GetOr("")),
      SchemeCategoryKey := StrV(f.schemeCategory.GetOr(""))
    ]
  }

  /**
   * `init?(dict:)`: fails exactly when the scheme code is not an Int or the
   * scheme name is not a String; every optional field is read leniently.
   */
  function FromDict(d: Dict): (r: Option<Fund>)
    ensures r.None? <==> IntAt(d, SchemeCodeKey).None? || StringAt(d, SchemeNameKey).None?
    ensures r.Some? ==> IntAt(d, SchemeCodeKey) == Some(r.value.schemeCode)
    ensures r.Some? ==> StringAt(d, SchemeNameKey) == Some(r.value.schemeName)
    ensures r.Some? ==> forall k :: k in OptionalKeys ==> OptionalField(r.value, k) == StringAt(d, k)
  {
    match (IntAt(d, SchemeCodeKey), StringAt(d, SchemeNameKey))
    case (Some(code), Some(name)) =>
      Some(Fund(code, name,
        StringAt(d, IsinGrowthKey),
        StringAt(d, IsinDivReinvestmentKey),
        StringAt(d, FundHouseKey),
        StringAt(d, SchemeTypeKey),
        StringAt(d, SchemeCategoryKey)))
    case _ => None
  }

  /** The fund with every nil optional field replaced by "". */
  function FilledIn(f: Fund): (g: Fund)
    ensures g.schemeCode == f.schemeCode && g.schemeName == f.schemeName
    ensures forall k :: k in OptionalKeys ==> OptionalField(g, k) == Some(OptionalField(f, k).GetOr(""))
  {
    Fund(f.schemeCode, f.schemeName,
      Some(f.isinGrowth.GetOr("")),
      Some(f.isinDivReinvestment.GetOr("")),
      Some(f.fundHouse.GetOr("")),
      Some(f.schemeType.GetOr("")),
      Some(f.schemeCategory.GetOr("")))
  }

  /** Every optional field is present. */
  predicate Complete(f: Fund) {
    f.isinGrowth.Some? && f.isinDivReinvestment.Some? && f.fundHouse.Some? &&
    f.schemeType.Some? && f.schemeCategory.Some?
  }

  /**
   * Decoding what `toDict` wrote always succeeds, keeps code and name, and
   * turns every optional field into `Some(original ?? "")`.
   */
  lemma RoundTrip(f: Fund)
    ensures FromDict(ToDict(f)) == Some(FilledIn(f))
  {
  }

  /** The round trip is exact precisely for funds with no nil field: nil is not restored. */
  lemma RoundTripExactIffComplete(f: Fund)
    ensures FromDict(ToDict(f)) == Some(f) <==> Complete(f)
  {
    RoundTrip(f);
  }

  /** After one round trip the dictionary is stable: a second trip changes nothing. */
  lemma RoundTripStable(f: Fund)
    ensures FromDict(ToDict(f)).Some?
    ensures ToDict(FromDict(ToDict(f)).value) == ToDict(f)
    ensures FromDict(ToDict(FromDict(ToDict(f)).value)) == FromDict(ToDict(f))
  {
    RoundTrip(f);
    var g := FilledIn(f);
    RoundTrip(g);
  }

  /** Decoding looks at nothing but the seven keys `toDict` writes. */
  lemma FromDictReadsOnlyDictKeys(d: Dict, extra: Dict)
    requires extra.Keys !! DictKeys
    ensures FromDict(d + extra) == FromDict(d - extra.Keys)
  {
  }

  /** The scheme names of `funds`, in order. */
  function SchemeNames(funds: seq<Fund>): (ns: seq<string>)
    ensures |ns| == |funds|
    ensures forall k :: 0 <= k < |funds| ==> ns[k] == funds[k].schemeName
  {
    if funds == [] then [] else [funds[0].schemeName] + SchemeNames(funds[1..])
  }

  /** A listed fund's name is among the names. */
  lemma SchemeNamesHas(funds: seq<Fund>, f: Fund)
    requires f in funds
    ensures f.schemeName in SchemeNames(funds)
  {
  }

  /** A listed name belongs to some listed fund. */
  lemma NamedIn(funds: seq<Fund>, n: string) returns (g: Fund)
    requires n in SchemeNames(funds)
    ensures g in funds && g.schemeName == n
  {
    var k :| 0 <= k < |funds| && SchemeNames(funds)[k] == n;
    g := funds[k];
  }
}
