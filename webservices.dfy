/**
 * The catalog client: error classification of `fetch`, the detail-to-fund
 * mapping of `getFundDetail`, and the two structured-field filters.
 * The HTTP exchange and JSON decoding are inputs of the model.
 */
module WebServices {
  import opened Wrappers
  import opened Funds
  import opened Text
  import opened Sequences

  // ---------------------------------------------------------------------
  // Errors
  // ---------------------------------------------------------------------

  /** The client's own error cases. */
  datatype Errors = InvalidURL | InvalidResponse | InvalidData

  /** `errorDescription`: one fixed message per case. */
  function ErrorDescription(e: Errors): (s: string)
    ensures |s| > 0
  {
    match e
    case InvalidURL => "Invalid URL."
    case InvalidResponse => "Invalid response."
    case InvalidData => "Invalid data."
  }

  /** The messages tell the three cases apart. */
  lemma ErrorDescriptionsDistinct(a: Errors, b: Errors)
    ensures ErrorDescription(a) == ErrorDescription(b) <==> a == b
  {
  }

  /**
   * What `fetch` can throw: one of the client's errors, or a transport failure
   * from the session, which propagates with its own message.
   */
  datatype FetchError = Failed(reason: Errors) | Transport(message: string)

  /** `localizedDescription` of a thrown error. */
  function LocalizedDescription(e: FetchError): (s: string)
    ensures e.Failed? ==> s == ErrorDescription(e.reason)
    ensures e.Transport? ==> s == e.message
  {
    match e
    case Failed(reason) => ErrorDescription(reason)
    case Transport(message) => message
  }

  // ---------------------------------------------------------------------
  // fetch
  // ---------------------------------------------------------------------

  /**
   * What the session delivered for a request: whether the response is an HTTP
   * response, its status code, and what the JSON decoder made of the body.
   */
  datatype Response<T> = Response(isHttp: bool, statusCode: int, decoded: Option<T>)

  predicate Accepted<T>(resp: Response<T>) {
    resp.isHttp && resp.statusCode == 200
  }

  /**
   * `fetch`: an unparseable URL fails first; a transport failure propagates;
   * anything but an HTTP 200 is an invalid response whatever the body; a body
   * that does not decode is invalid data.
   */
  function Fetch<T>(urlValid: bool, delivered: Result<Response<T>, string>): (r: Result<T, FetchError>)
    ensures (r.Err? && r.error == Failed(InvalidURL)) <==> !urlValid
    ensures urlValid && delivered.Err? ==> r.Err? && r.error == Transport(delivered.error)
    ensures (r.Err? && r.error == Failed(InvalidResponse)) <==>
      urlValid && delivered.Ok? && !Accepted(delivered.value)
    ensures (r.Err? && r.error == Failed(InvalidData)) <==>
      urlValid && delivered.Ok? && Accepted(delivered.value) && delivered.value.decoded.None?
    ensures r.Ok? <==>
      urlValid && delivered.Ok? && Accepted(delivered.value) && delivered.value.decoded.Some?
    ensures r.Ok? ==> r.value == delivered.value.decoded.value
  {
    if !urlValid then Err(Failed(InvalidURL))
    else match delivered
      case Err(message) => Err(Transport(message))
      case Ok(resp) =>
        if !Accepted(resp) then Err(Failed(InvalidResponse))
        else match resp.decoded
          case None => Err(Failed(InvalidData))
          case Some(v) => Ok(v)
  }

  /** The body is not looked at unless the status is an HTTP 200. */
  lemma FetchIgnoresBodyOnBadStatus<T>(urlValid: bool, resp: Response<T>, other: Option<T>)
    requires !Accepted(resp)
    ensures Fetch(urlValid, Ok(resp)) == Fetch(urlValid, Ok(resp.(decoded := other)))
  {
  }

  /**
   * `URL(string:)` accepts both endpoint strings: the catalog URL is a fixed
   * literal, and the detail URL is that literal followed by "/" and the
   * decimal form of an `Int`, which is always a well-formed URL.
   */
  const EndpointURLValid := true

  /** `getFundsData`: the catalog list as fetched. */
  function GetFundsData(delivered: Result<Response<seq<Fund>>, string>): (r: Result<seq<Fund>, FetchError>)
    ensures r.Err? ==> r.error != Failed(InvalidURL)
    ensures r.Ok? <==> delivered.Ok? && Accepted(delivered.value) && delivered.value.decoded.Some?
    ensures r.Ok? ==> r.value == delivered.value.decoded.value
  {
    Fetch(EndpointURLValid, delivered)
  }

  // ---------------------------------------------------------------------
  // getFundDetail
  // ---------------------------------------------------------------------

  /** The fund built from a detail response's `meta` block. */
  function FundFromMeta(m: Meta): (f: Fund)
    ensures f.schemeCode == m.schemeCode && f.schemeName == m.schemeName
    ensures f.isinGrowth == m.isinGrowth && f.isinDivReinvestment == m.isinDivReinvestment
    ensures f.fundHouse == Some(m.fundHouse) && f.schemeType == Some(m.schemeType)
    ensures f.schemeCategory == Some(m.schemeCategory)
  {
    NewFund(m.schemeCode, m.schemeName, m.isinGrowth, m.isinDivReinvestment,
            Some(m.fundHouse), Some(m.schemeType), Some(m.schemeCategory))
  }

  /**
   * A detail fund always carries its enrichment fields, so its dictionary
   * round trip is exact iff both ISINs were present.
   */
  lemma DetailFundRoundTrip(m: Meta)
    ensures FromDict(ToDict(FundFromMeta(m))) == Some(FundFromMeta(m)) <==>
      m.isinGrowth.Some? && m.isinDivReinvestment.Some?
  {
    RoundTripExactIffComplete(FundFromMeta(m));
  }

  /**
   * `getFundDetail(schemeCode:)`: fetch the detail response and keep its meta
   * block as a fund. The requested code only chooses the URL, and so which
   * response is delivered; `delivered` stands for that response. The fund
   * returned carries the meta block's scheme code, which the code does not
   * compare with the requested one.
   */
  function GetFundDetail(schemeCode: int, delivered: Result<Response<FundsDetail>, string>)
    : (r: Result<Fund, FetchError>)
    ensures r.Err? ==> r.error != Failed(InvalidURL)
    ensures r.Ok? <==> Fetch(EndpointURLValid, delivered).Ok?
    ensures r.Ok? ==> r.value == FundFromMeta(delivered.value.decoded.value.meta)
    ensures r.Err? ==> Fetch(EndpointURLValid, delivered) == Err(r.error)
  {
    match Fetch(EndpointURLValid, delivered)
    case Ok(details) => Ok(FundFromMeta(details.meta))
    case Err(e) => Err(e)
  }

  // ---------------------------------------------------------------------
  // Filters
  // ---------------------------------------------------------------------

  /** The structured field a filter looks at. */
  datatype Field = FundHouseField | SchemeCategoryField

  function FieldOf(f: Fund, field: Field): Option<string> {
    match field
    case FundHouseField => f.fundHouse
    case SchemeCategoryField => f.schemeCategory
  }

  /** The field is present and contains the query, ignoring case. */
  function Matches(f: Fund, field: Field, query: string): (r: bool)
    ensures r ==> FieldOf(f, field).Some? && |query| > 0
    ensures r <==>
      FieldOf(f, field).Some? && |query| > 0 && exists i :: FoldedMatchAt(FieldOf(f, field).value, query, i)
  {
    FieldOf(f, field).Some? && ContainsIgnoringCase(FieldOf(f, field).value, query)
  }

  /** `funds.filter { $0.<field>?.localizedCaseInsensitiveContains(query) == true }`. */
  function Select(funds: seq<Fund>, field: Field, query: string): (r: seq<Fund>)
    ensures IsSubsequence(r, funds)
    ensures forall f {:trigger f in r} :: f in r <==> f in funds && Matches(f, field, query)
  {
    if funds == [] then []
    else if Matches(funds[0], field, query) then [funds[0]] + Select(funds[1..], field, query)
    else
      var rest := Select(funds[1..], field, query);
      assert rest != [] ==> rest[0] in rest;
      rest
  }

  /** `Select` keeps every matching fund as many times as it occurs, and no other fund. */
  lemma {:induction false} SelectCounts(funds: seq<Fund>, field: Field, query: string)
    ensures forall f ::
      multiset(Select(funds, field, query))[f] == if Matches(f, field, query) then multiset(funds)[f] else 0
  {
    if funds != [] {
      assert funds == [funds[0]] + funds[1..];
      SelectCounts(funds[1..], field, query);
    }
  }

  /** One step of `Select`: the first fund is kept exactly when it matches. */
  lemma SelectCons(x: Fund, t: seq<Fund>, field: Field, query: string)
    ensures Select([x] + t, field, query) == (if Matches(x, field, query) then [x] else []) + Select(t, field, query)
  {
    assert ([x] + t)[0] == x;
    assert ([x] + t)[1..] == t;
  }

  /** Selecting from two lists one after the other is selecting from their concatenation. */
  lemma {:induction false} SelectAppend(a: seq<Fund>, b: seq<Fund>, field: Field, query: string)
    ensures Select(a + b, field, query) == Select(a, field, query) + Select(b, field, query)
  {
    if a == [] {
      assert a + b == b;
    } else {
      SelectAppendStep(a, b, field, query);
      SelectAppend(a[1..], b, field, query);
    }
  }

  /** The inductive step of `SelectAppend`, stated for any tail for which it already holds. */
  lemma SelectAppendStep(a: seq<Fund>, b: seq<Fund>, field: Field, query: string)
    requires a != []
    ensures Select(a[1..] + b, field, query) == Select(a[1..], field, query) + Select(b, field, query) ==>
      Select(a + b, field, query) == Select(a, field, query) + Select(b, field, query)
  {
    var head := if Matches(a[0], field, query) then [a[0]] else [];
    var x, y := Select(a[1..], field, query), Select(b, field, query);
    assert Select(a + b, field, query) == head + Select(a[1..] + b, field, query) by {
      assert a + b == [a[0]] + (a[1..] + b);
      SelectCons(a[0], a[1..] + b, field, query);
    }
    assert Select(a, field, query) == head + x by {
      assert a == [a[0]] + a[1..];
      SelectCons(a[0], a[1..], field, query);
    }
    AppendAssoc(head, x, y);
  }

  lemma {:induction false} SelectIdempotent(funds: seq<Fund>, field: Field, query: string)
    ensures Select(Select(funds, field, query), field, query) == Select(funds, field, query)
  {
    if funds != [] {
      SelectIdempotent(funds[1..], field, query);
      if Matches(funds[0], field, query) {
        assert ([funds[0]] + Select(funds[1..], field, query))[1..] == Select(funds[1..], field, query);
      }
    }
  }

  /** The filter returns its input unchanged exactly when every fund matches. */
  lemma {:induction false} SelectKeepsAllMatching(funds: seq<Fund>, field: Field, query: string)
    ensures Select(funds, field, query) == funds <==> forall k :: 0 <= k < |funds| ==> Matches(funds[k], field, query)
  {
    if funds != [] {
      SelectKeepsAllMatching(funds[1..], field, query);
      if Select(funds, field, query) == funds {
        forall k | 0 <= k < |funds| ensures Matches(funds[k], field, query) {
          assert funds[k] in Select(funds, field, query);
        }
      }
    }
  }

  /** The filter never returns more funds than it was given. */
  lemma SelectNoLonger(funds: seq<Fund>, field: Field, query: string)
    ensures |Select(funds, field, query)| <= |funds|
  {
    IsSubsequenceShorter(Select(funds, field, query), funds);
  }

  /** `filterFundsByAMC`: the funds whose fund house contains `amcName`, in order. */
  function FilterFundsByAMC(funds: seq<Fund>, amcName: string): (r: seq<Fund>)
    ensures IsSubsequence(r, funds)
    ensures forall f :: f in r <==>
      f in funds && f.fundHouse.Some? && ContainsIgnoringCase(f.fundHouse.value, amcName)
    ensures forall f ::
      multiset(r)[f] == if f.fundHouse.Some? && ContainsIgnoringCase(f.fundHouse.value, amcName) then multiset(funds)[f] else 0
  {
    SelectCounts(funds, FundHouseField, amcName);
    Select(funds, FundHouseField, amcName)
  }

  /** `filterFundsByCategory`: the funds whose scheme category contains `category`, in order. */
  function FilterFundsByCategory(funds: seq<Fund>, category: string): (r: seq<Fund>)
    ensures IsSubsequence(r, funds)
    ensures forall f :: f in r <==>
      f in funds && f.schemeCategory.Some? && ContainsIgnoringCase(f.schemeCategory.value, category)
    ensures forall f ::
      multiset(r)[f] == if f.schemeCategory.Some? && ContainsIgnoringCase(f.schemeCategory.value, category) then multiset(funds)[f] else 0
  {
    SelectCounts(funds, SchemeCategoryField, category);
    Select(funds, SchemeCategoryField, category)
  }

  lemma FilterFundsByAMCIdempotent(funds: seq<Fund>, amcName: string)
    ensures FilterFundsByAMC(FilterFundsByAMC(funds, amcName), amcName) == FilterFundsByAMC(funds, amcName)
  {
    SelectIdempotent(funds, FundHouseField, amcName);
  }

  lemma FilterFundsByCategoryIdempotent(funds: seq<Fund>, category: string)
    ensures FilterFundsByCategory(FilterFundsByCategory(funds, category), category) ==
      FilterFundsByCategory(funds, category)
  {
    SelectIdempotent(funds, SchemeCategoryField, category);
  }

  /** An empty query keeps nothing, since an empty needle is never contained. */
  lemma EmptyQuerySelectsNothing(funds: seq<Fund>, field: Field)
    ensures Select(funds, field, "") == []
  {
  }
}
