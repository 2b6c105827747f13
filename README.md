# Mutual funds client: a Dafny model of its core logic

This project models the non-presentation logic of an iOS mutual-funds client. It covers five parts:

- the `Funds` record and the dictionary codec it uses for the per-user document store (`toDict` and the failable `init?(dict:)`);
- the catalog client `WebServices`: how `fetch` classifies errors, how `getFundDetail` maps the `meta` block to a fund, and the two structured-field filters;
- the user profile store `UserManager`: deduplicated saves of the "selected" and "past viewed" fund lists, `logout`, and the lenient `loadUserData` decoding;
- the fund-list view model `FundsListViewModel`: one catalog fetch applied to its state, and an AMC facet made from the first two words of each scheme name;
- the AMC list screen's `uniqueAMCs`: a second AMC facet made from the first word only.

The first word of a name is not its first two words, so the two facets are deliberately kept as two separate functions. `AmcListView.HeuristicsAgreeIffOneWord` proves they agree exactly on names of one word.

Modules: `Wrappers` (Option, Result), `Dynamic` (the `Any` values in store dictionaries and the `as?` casts), `Text` (the space tokenizer, `joined`, ASCII case-insensitive containment, lexicographic order, and "deduplicate then sort"), `Sequences` (subsequence, and regrouping of concatenations), `Funds`, `WebServices`, `UserStore`, `FundsList` and `AmcListView`.

External services are replaced by values:
- The auth provider's `currentUser?.uid` is a parameter `currentUid: Option<string>`.
- The result of `signOut()` is a parameter `signOutSucceeds: bool`.
- The document returned by `getDocument` is a parameter of type `Option<map<string, Value>>`.
- Each `setData(_, merge: true)` is returned from the save method as a `Write` value. `UserStore.Merge` gives the document after the merge is applied.
- For `URLSession` plus `JSONDecoder`, the model takes a `Result<Response<T>, string>`. It says whether the response was HTTP, gives its status code and the decoded body (or none), or else gives the transport failure's message.

The model follows the code, in particular:
- `logout` clears local state only when the sign-out succeeds. A throwing sign-out changes nothing.
- `fetch` accepts only status 200, not every 2xx status.
- A transport error from the session is rethrown unchanged. It is not mapped to one of the three `Errors` cases.
- `filterFundsByAMC` and `filterFundsByCategory` test the structured `fundHouse` and `schemeCategory` fields, not the scheme name.

Modelling choices:
- `localizedCaseInsensitiveContains` is modelled as an ASCII fold followed by a substring test.
- An empty needle is never contained, as with Foundation's range search.
- Swift's `String` ordering is modelled as lexicographic order on character codes, where a proper prefix sorts first.
- `split(separator: " ")` splits on `' '` only and drops empty pieces.

## Model

| member | source | states |
|---|---|---|
| `Funds.Id` | MutualFundsApp/View/Funds.swift:12 | a fund's identity is its scheme code |
| `Funds.NewFund` | MutualFundsApp/View/Funds.swift:49-65 | the memberwise initialiser stores every argument unchanged |
| `Funds.NewFundDefaults` | MutualFundsApp/View/Funds.swift:52-56 | optional arguments left out default to nil |
| `Funds.ToDict` | MutualFundsApp/View/Funds.swift:23-33 | exactly the seven keys; code as Int, name as String; every optional field as a String, "" where it is nil |
| `Funds.FromDict` | MutualFundsApp/View/Funds.swift:35-47 | fails iff "schemeCode" is not an Int or "schemeName" is not a String; on success code and name are the stored values and each optional field is present iff its key holds a String |
| `Funds.RoundTrip` | MutualFundsApp/View/Funds.swift:23-47 | decoding `toDict`'s output always succeeds, keeps code and name, and yields `Some(original ?? "")` for every optional |
| `Funds.RoundTripExactIffComplete` | MutualFundsApp/View/Funds.swift:27-46 | the round trip gives back the same fund iff no optional field was nil (nil is not restored) |
| `Funds.RoundTripStable` | MutualFundsApp/View/Funds.swift:23-47 | after one round trip, a second one changes neither the dictionary nor the fund |
| `Funds.FromDictReadsOnlyDictKeys` | MutualFundsApp/View/Funds.swift:35-47 | keys other than the seven do not affect decoding |
| `Dynamic.IntAt` | MutualFundsApp/View/Funds.swift:36 | `as? Int` succeeds iff the key is present and holds an Int, and yields that Int |
| `Dynamic.StringAt` | MutualFundsApp/View/Funds.swift:37 | `as? String` succeeds iff the key is present and holds a String, and yields it; null is not a String |
| `Dynamic.AsDictArray` | MutualFundsApp/View/UserManager.swift:95 | `as? [[String: Any]]` succeeds iff the value is an array whose every element is a dictionary, and yields those dictionaries in order |
| `Dynamic.OptionalString` | MutualFundsApp/View/UserManager.swift:55-56 | an optional written `as Any` is null iff it is nil, otherwise its String |
| `Text.Words` | MutualFundsApp/View/FundsListViewModel.swift:28 | `split(separator: " ")` yields non-empty pieces free of spaces; no pieces iff the name is empty or all spaces (`Text.WordsUniquelyDetermined` pins down every piece) |
| `Text.Join` | MutualFundsApp/View/FundsListViewModel.swift:30 | `joined(separator: " ")` gives "" for no pieces and the piece itself for one; otherwise it starts with the first piece, followed by a space |
| `Text.WordsOfJoin` | MutualFundsApp/View/FundsListViewModel.swift:28-30 | splitting what `joined(separator: " ")` built returns the original words |
| `Text.JoinOfWordsIsSqueeze` | MutualFundsApp/View/FundsListViewModel.swift:28-30 | joining the pieces of the split with single spaces gives the name with leading and trailing spaces removed and every inner run of spaces reduced to one |
| `Text.WordsUniquelyDetermined` | MutualFundsApp/View/FundsListViewModel.swift:28 | the split is the only list of non-empty, space-free pieces whose single-space join is the squeezed name |
| `Text.ContainsIgnoringCase` | MutualFundsApp/View/WebServices.swift:53 | holds iff the needle is non-empty and, at some position of the text, each needle character equals the text character there up to ASCII case |
| `Text.OccursAt` | MutualFundsApp/View/WebServices.swift:53 | the containment test holds iff the needle starts at some index of the text |
| `Text.Below` | MutualFundsApp/View/FundsListViewModel.swift:33 | `<` on strings never relates a string to itself, and a proper prefix is below the longer string |
| `Text.BelowIsLexicographic` | MutualFundsApp/View/FundsListViewModel.swift:33 | `<` holds iff the first string is a proper prefix of the second, or the two agree up to a position where the first has the smaller character |
| `Text.BelowTransitive` | MutualFundsApp/View/FundsListViewModel.swift:33 | `<` on strings is transitive |
| `Text.BelowTotal` | MutualFundsApp/View/FundsListViewModel.swift:33 | of two different strings, one is below the other |
| `Text.Insert` | MutualFundsApp/View/FundsListViewModel.swift:33 | inserting into a strictly sorted list keeps it strictly sorted and adds exactly that string |
| `Text.SortedSet` | MutualFundsApp/View/FundsListViewModel.swift:33 | `Array(Set(xs)).sorted()` is strictly ascending and holds exactly the strings occurring in `xs` |
| `Text.SortedSetsAreUnique` | MutualFundsApp/View/AMCLIST.swift:34 | two strictly sorted lists with the same elements are equal, so the deduplicated sorted list is deterministic |
| `Text.SortedSetDependsOnElementsOnly` | MutualFundsApp/View/AMCLIST.swift:34 | the deduplicated sorted list depends only on which strings occur |
| `Text.StrictlySortedHasNoDuplicates` | MutualFundsApp/View/FundsListViewModel.swift:33 | a strictly ascending list has no duplicates |
| `WebServices.ErrorDescription` | MutualFundsApp/View/WebServices.swift:66-72 | each error case has a fixed, non-empty message |
| `WebServices.ErrorDescriptionsDistinct` | MutualFundsApp/View/WebServices.swift:66-72 | two cases have the same message iff they are the same case |
| `WebServices.LocalizedDescription` | MutualFundsApp/View/FundsListViewModel.swift:36 | a client error shows its `errorDescription`; a transport error shows its own message |
| `WebServices.Fetch` | MutualFundsApp/View/WebServices.swift:31-50 | an invalid URL gives `invalidURL`, and only then; a transport failure propagates; `invalidResponse` iff the response is not an HTTP 200; `invalidData` iff it is a 200 whose body does not decode; otherwise the decoded value |
| `WebServices.FetchIgnoresBodyOnBadStatus` | MutualFundsApp/View/WebServices.swift:38-45 | when the status check fails, the body's decoding has no effect on the outcome |
| `WebServices.GetFundsData` | MutualFundsApp/View/WebServices.swift:11-15 | the catalog fetch never fails with `invalidURL`, and succeeds with exactly the decoded list when the response is an HTTP 200 that decodes |
| `WebServices.FundFromMeta` | MutualFundsApp/View/WebServices.swift:19-28 | code, name and ISINs are the meta's; fund house, scheme type and category are `Some` of the meta's strings |
| `WebServices.GetFundDetail` | MutualFundsApp/View/WebServices.swift:17-29 | never fails with `invalidURL`; succeeds iff the fetch does, with the fund mapped from the meta block (its scheme code is the meta's); otherwise fails with the fetch's error |
| `WebServices.DetailFundRoundTrip` | MutualFundsApp/View/WebServices.swift:20-28 | a detail fund survives the dictionary round trip exactly iff both ISINs were present |
| `WebServices.Matches` | MutualFundsApp/View/WebServices.swift:53 | a fund matches iff its field is non-nil, the query is non-empty, and the query occurs in the field ignoring ASCII case |
| `WebServices.Select` | MutualFundsApp/View/WebServices.swift:52-58 | the field filter returns a subsequence of its input, and a fund is in it iff it is in the input and its field is present and contains the query ignoring case |
| `WebServices.SelectCounts` | MutualFundsApp/View/WebServices.swift:52-58 | each matching fund is kept as many times as it occurs in the input, and no other fund is kept |
| `WebServices.SelectAppend` | MutualFundsApp/View/WebServices.swift:52-58 | filtering a concatenation is concatenating the filtered parts |
| `WebServices.SelectNoLonger` | MutualFundsApp/View/WebServices.swift:52-58 | the filter never returns more funds than it is given |
| `WebServices.SelectIdempotent` | MutualFundsApp/View/WebServices.swift:52-58 | filtering twice with the same query equals filtering once |
| `WebServices.SelectKeepsAllMatching` | MutualFundsApp/View/WebServices.swift:52-58 | the filter returns its input unchanged iff every fund matches |
| `WebServices.EmptyQuerySelectsNothing` | MutualFundsApp/View/WebServices.swift:52-58 | an empty query keeps no fund |
| `WebServices.FilterFundsByAMC` | MutualFundsApp/View/WebServices.swift:52-54 | an order-preserving subsequence holding exactly the input funds whose fund house is non-nil and contains the AMC name ignoring case, each as often as in the input |
| `WebServices.FilterFundsByCategory` | MutualFundsApp/View/WebServices.swift:56-58 | an order-preserving subsequence holding exactly the input funds whose category is non-nil and contains the query ignoring case, each as often as in the input |
| `WebServices.FilterFundsByAMCIdempotent` | MutualFundsApp/View/WebServices.swift:53 | the AMC filter is idempotent |
| `WebServices.FilterFundsByCategoryIdempotent` | MutualFundsApp/View/WebServices.swift:57 | the category filter is idempotent |
| `UserStore.Merge` | MutualFundsApp/View/UserManager.swift:60-62 | a merging write replaces the keys it writes and keeps every other key of the document |
| `UserStore.ContainsCode` | MutualFundsApp/View/UserManager.swift:47 | `contains(where:)` holds iff some entry has the scheme code |
| `UserStore.AddUnique` | MutualFundsApp/View/UserManager.swift:47-49 | the list is unchanged if the scheme code is already listed; otherwise the fund is appended at the end |
| `UserStore.AddUniqueExtends` | MutualFundsApp/View/UserManager.swift:47-49 | after a save the code is listed, the old list is a prefix of the new one, and the list grows by at most one |
| `UserStore.AddUniqueKeepsCodesUnique` | MutualFundsApp/View/UserManager.swift:47-49 | saving preserves uniqueness of scheme codes |
| `UserStore.AddUniqueIdempotent` | MutualFundsApp/View/UserManager.swift:47-49 | saving the same fund twice has the same effect as saving it once |
| `UserStore.EncodeStored` | MutualFundsApp/View/UserManager.swift:51-58 | the stored record has exactly the four keys: code, name, and each ISIN as a String or null |
| `UserStore.EncodeAll` | MutualFundsApp/View/UserManager.swift:51-58 | the `map` gives one stored record per list entry, the i-th for the i-th entry |
| `UserStore.EncodeList` | MutualFundsApp/View/UserManager.swift:51-58 | the payload is an array with one record per list entry, in list order |
| `UserStore.Persisted` | MutualFundsApp/View/UserManager.swift:99-104 | a reloaded fund keeps code, name and ISINs and has no enrichment fields |
| `UserStore.DecodeStored` | MutualFundsApp/View/UserManager.swift:96-106 | a record decodes iff its code is an Int and its name a String; ISINs are read leniently; enrichment fields are nil |
| `UserStore.DecodeStoredIsFromDictPersisted` | MutualFundsApp/View/UserManager.swift:96-106 | the load-time decoder accepts exactly what `init?(dict:)` accepts, and drops the enrichment fields |
| `UserStore.StoredRoundTrip` | MutualFundsApp/View/UserManager.swift:51-106 | a record written by a save decodes back to the fund's four persisted fields, nil ISINs included |
| `UserStore.DecodeAll` | MutualFundsApp/View/UserManager.swift:96-107 | the decoded list is no longer than the records, and holds exactly the funds decoded from some record |
| `UserStore.DecodeAllAppend` | MutualFundsApp/View/UserManager.swift:96-107 | decoding distributes over concatenation, so records keep their relative order |
| `UserStore.DecodeAllWellFormed` | MutualFundsApp/View/UserManager.swift:96-107 | when every record is well formed, nothing is dropped and the i-th fund comes from the i-th record |
| `UserStore.DecodeAllOfEncoded` | MutualFundsApp/View/UserManager.swift:51-107 | decoding a save's records yields every entry's persisted fields, in order |
| `UserStore.LoadedList` | MutualFundsApp/View/UserManager.swift:95-108 | a list is read iff its key holds an array of dictionaries, and is then their decodable records in order |
| `UserStore.Reloaded` | MutualFundsApp/View/UserManager.swift:92-125 | a load replaces a list only when the document exists and that list's key is readable; otherwise it keeps the current list |
| `UserStore.SaveThenLoad` | MutualFundsApp/View/UserManager.swift:51-108 | whatever the document held before, loading a key after a save's merged write returns the list's persisted fields |
| `UserStore.WriteLeavesOtherListAlone` | MutualFundsApp/View/UserManager.swift:60-84 | writing one list's key leaves what a load reads for the other key unchanged |
| `UserStore.UserManager.constructor` | MutualFundsApp/View/UserManager.swift:22-28 | with a current user: logged in, that user's email (or ""), and the lists loaded from the document; without one: logged out and empty |
| `UserStore.UserManager.Logout` | MutualFundsApp/View/UserManager.swift:31-41 | a successful sign-out makes the user logged out with email "" and both lists empty, and keeps the username; a failed one changes nothing |
| `UserStore.UserManager.SaveSelectedFund` | MutualFundsApp/View/UserManager.swift:44-63 | with no user nothing changes and nothing is written; otherwise a deduplicating append, then the whole list written under "selectedFunds"; only `selectedFunds` can change; code uniqueness is preserved |
| `UserStore.UserManager.SavePastViewedFund` | MutualFundsApp/View/UserManager.swift:66-85 | the same for `pastViewedFunds` under "pastViewedFunds"; only `pastViewedFunds` can change |
| `UserStore.UserManager.LoadUserData` | MutualFundsApp/View/UserManager.swift:88-127 | with no user nothing changes; otherwise each list is reloaded as `Reloaded` says; only the two lists can change |
| `FundsList.TwoWordLabel` | MutualFundsApp/View/FundsListViewModel.swift:28-30 | splitting a label gives back the name's first (up to) two words; a name of at most two words gets itself with its spaces squeezed |
| `FundsList.TwoWordLabelCases` | MutualFundsApp/View/FundsListViewModel.swift:27-31 | an AMC label is "" for a name with no words, the word for a one-word name, and the first two words joined by one space otherwise |
| `FundsList.TwoWordLabelEmptyIff` | MutualFundsApp/View/FundsListViewModel.swift:28-30 | a label is empty iff the name is empty or all spaces |
| `FundsList.Labels` | MutualFundsApp/View/FundsListViewModel.swift:27-31 | one label per fund, in fund order |
| `FundsList.AmcList` | MutualFundsApp/View/FundsListViewModel.swift:27-33 | strictly ascending and without duplicates; a string is in it iff it is the label of some fund |
| `FundsList.AmcListDependsOnNamesOnly` | MutualFundsApp/View/FundsListViewModel.swift:27-33 | the facet depends only on the multiset of scheme names |
| `FundsList.FundsListViewModel.constructor` | MutualFundsApp/View/FundsListViewModel.swift:13-18 | starts with no funds, not loading, no error and an empty AMC list |
| `FundsList.FundsListViewModel.GetFunds` | MutualFundsApp/View/FundsListViewModel.swift:20-39 | on success: `funds` is the fetched list, `amcList` is its facet, and an earlier error message is kept; on failure: funds and facet are unchanged and the message is the error's description; not loading afterwards on either path |
| `AmcListView.FirstWord` | MutualFundsApp/View/AMCLIST.swift:29-32 | none iff the name is empty or all spaces; otherwise a non-empty, space-free word, the first of the split |
| `AmcListView.FirstWordIsFirstRun` | MutualFundsApp/View/AMCLIST.swift:29 | the first word is the maximal run of non-space characters after the leading spaces |
| `AmcListView.FirstWords` | MutualFundsApp/View/AMCLIST.swift:27-33 | a string is listed iff it is the first word of some fund's name |
| `AmcListView.UniqueAMCs` | MutualFundsApp/View/AMCLIST.swift:26-35 | strictly ascending and without duplicates; holds exactly the first words of the fund names; never holds "" |
| `AmcListView.UniqueAMCsCoversEveryNamedFund` | MutualFundsApp/View/AMCLIST.swift:27-31 | every fund whose name has a word contributes that first word |
| `AmcListView.UniqueAMCsDependsOnNamesOnly` | MutualFundsApp/View/AMCLIST.swift:27-34 | reordering the funds does not change the list; only the multiset of names matters |
| `AmcListView.HeuristicsAgreeIffOneWord` | MutualFundsApp/View/AMCLIST.swift:29-30 | the two-word label equals the first word iff the name has exactly one word |

## Left out

- Firebase Auth and Firestore calls are foreign services. The model takes the current uid, the sign-out outcome and the stored document as inputs, and returns each write as a value. The writes pass no completion handler, so a failed write goes unnoticed. A failed load leaves the lists as they were.
- `async`, `@MainActor` and the completion handler of `getDocument` are not modelled. Each operation is one sequential step applied to its inputs.
- `UserStore.UserManager.constructor`: the constructor is not told whether the auth provider's user and the manager's `isLoggedIn` agree. The screens that log a user in set these fields, and those screens are not part of this model.
- `FundsList.FundsListViewModel.GetFunds`: `isLoading` is true while the fetch runs. The model states only its final value.
- `URLSession` networking and `JSONDecoder` decoding (including the snake_case `CodingKeys` of `Meta`) are library I/O. The model takes their outcome as a `Response` value.
- URL parsing: whether `URL(string:)` accepts a string is an input of `WebServices.Fetch`. The catalog URL is a fixed literal. The detail URL is that literal, "/" and the decimal form of an `Int`. Both always parse, which is why `GetFundsData` and `GetFundDetail` pass `EndpointURLValid`.
- `WebServices.GetFundDetail`: the requested `schemeCode` only chooses the URL and so the response; `delivered` stands for that response. The fund returned takes its scheme code from the meta block, and the code never compares it with the requested one.
- `Funds.Id`: Swift's `Int` is 64 bits wide, while scheme codes here are unbounded integers. No operation of the core does arithmetic on them.
- `Dynamic.IntAt`: Foundation's bridging lets `as? Int` succeed on some non-integer numbers (booleans, integral doubles). Only integer values count as Int here.
- `Text.ContainsIgnoringCase`: `localizedCaseInsensitiveContains` is locale-aware Unicode case folding. Here it is ASCII folding of 'A'-'Z'.
- `Text.Words`: Swift's `split` works on grapheme clusters, so a ' ' followed by a combining mark is one character and not a split point. Here every ' ' character splits.
- `Text.Below`: Swift compares `String` values by Unicode canonical ordering. Here strings compare lexicographically by character code.
- `print` diagnostics are left out.
- LoginView.swift, ProfileView.swift, MutualFundsAppApp.swift and ContentView.swift are presentation: layout, sign-in callbacks and app setup.
- Fund Selection Screen.swift is not part of this model. It holds the comparison selection (toggle, cap of four, canCompare) and the search filter that matches the scheme name against "All" sentinels.
- `Datum` and `FundsDetail` are modelled only as plain records. Their NAV samples are display data.
