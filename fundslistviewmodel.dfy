/**
 * The fund list view model: one catalog fetch applied to its state, and the
 * AMC facet it derives from the first two words of every scheme name.
 */
module FundsList {
  import opened Wrappers
  import opened Text
  import opened Funds
  import opened WebServices

  /** `words.prefix(2).joined(separator: " ")` for the words of `name`. */
  function TwoWordLabel(name: string): (r: string)
    ensures Words(r) == if |Words(name)| <= 2 then Words(name) else Words(name)[..2]
    ensures |Words(name)| <= 2 ==> r == Squeeze(name)
  {
    var ws := Words(name);
    var p := if |ws| <= 2 then ws else ws[..2];
    assert forall w :: w in p ==> w in ws;
    WordsOfJoin(p);
    JoinOfWordsIsSqueeze(name);
    Join(p)
  }

  /** The label is the first word, a space and the second word; fewer words give what there is. */
  lemma TwoWordLabelCases(name: string)
    ensures Words(name) == [] ==> TwoWordLabel(name) == ""
    ensures |Words(name)| == 1 ==> TwoWordLabel(name) == Words(name)[0]
    ensures |Words(name)| >= 2 ==> TwoWordLabel(name) == Words(name)[0] + " " + Words(name)[1]
  {
    var ws := Words(name);
    if |ws| >= 2 {
      var p := ws[..2];
      assert Join(p) == p[0] + " " + Join(p[1..]);
    }
  }

  /** The label is empty exactly for a name without words (empty or all spaces). */
  lemma TwoWordLabelEmptyIff(name: string)
    ensures TwoWordLabel(name) == "" <==> AllSpaces(name)
  {
    TwoWordLabelCases(name);
    var ws := Words(name);
    if ws != [] { assert IsToken(ws[0]); }
    if |ws| >= 2 {
      assert |ws[0] + " " + ws[1]| > 0;
    }
  }

  /** The labels of all funds, in fund order. */
  function Labels(funds: seq<Fund>): (ls: seq<string>)
    ensures |ls| == |funds|
    ensures forall k :: 0 <= k < |funds| ==> ls[k] == TwoWordLabel(funds[k].schemeName)
  {
    if funds == [] then [] else [TwoWordLabel(funds[0].schemeName)] + Labels(funds[1..])
  }

  /** `Array(Set(amcs)).sorted()` over the two-word labels. */
  function AmcList(funds: seq<Fund>): (r: seq<string>)
    ensures StrictlySorted(r) && NoDuplicates(r)
    ensures forall x :: x in r <==> exists f :: f in funds && x == TwoWordLabel(f.schemeName)
  {
    var ls := Labels(funds);
    var r := SortedSet(ls);
    StrictlySortedHasNoDuplicates(r);
    assert forall x :: x in ls <==> exists f :: f in funds && x == TwoWordLabel(f.schemeName) by {
      forall x ensures x in ls <==> exists f :: f in funds && x == TwoWordLabel(f.schemeName) {
        if exists f :: f in funds && x == TwoWordLabel(f.schemeName) {
          var f :| f in funds && x == TwoWordLabel(f.schemeName);
          var k :| 0 <= k < |funds| && funds[k] == f;
          assert ls[k] == x;
        }
      }
    }
    r
  }

  /** The facet depends only on the multiset of scheme names: reordering the funds does not change it. */
  lemma AmcListDependsOnNamesOnly(a: seq<Fund>, b: seq<Fund>)
    requires multiset(SchemeNames(a)) == multiset(SchemeNames(b))
    ensures AmcList(a) == AmcList(b)
  {
    var ra, rb := AmcList(a), AmcList(b);
    forall x ensures x in ra <==> x in rb {
      if x in ra {
        var f :| f in a && x == TwoWordLabel(f.schemeName);
        SchemeNamesHas(a, f);
        assert f.schemeName in multiset(SchemeNames(b));
        var g := NamedIn(b, f.schemeName);
      }
      if x in rb {
        var g :| g in b && x == TwoWordLabel(g.schemeName);
        SchemeNamesHas(b, g);
        assert g.schemeName in multiset(SchemeNames(a));
        var f := NamedIn(a, g.schemeName);
      }
    }
    SortedSetsAreUnique(ra, rb);
  }

  class FundsListViewModel {
    var funds: seq<Fund>
    var isLoading: bool
    var errorMessage: Option<string>
    var amcList: seq<string>

    constructor ()
      ensures funds == [] && !isLoading && errorMessage.None? && amcList == []
    {
      funds := [];
      isLoading := false;
      errorMessage := None;
      amcList := [];
    }

    /**
     * `getFunds`, applied to the result of the catalog fetch: a success
     * replaces the funds and the AMC facet and keeps an earlier error message;
     * a failure keeps them and records the error's description. Loading is
     * over either way.
     */
    method GetFunds(fetched: Result<seq<Fund>, FetchError>)
      modifies this
      ensures !isLoading
      ensures fetched.Ok? ==> funds == fetched.value && amcList == AmcList(fetched.value)
      ensures fetched.Ok? ==> errorMessage == old(errorMessage)
      ensures fetched.Err? ==> funds == old(funds) && amcList == old(amcList)
      ensures fetched.Err? ==> errorMessage == Some(LocalizedDescription(fetched.error))
    {
      isLoading := true;
      match fetched {
        case Ok(allFunds) =>
          funds := allFunds;
          amcList := AmcList(allFunds);
        case Err(e) =>
          errorMessage := Some(LocalizedDescription(e));
      }
      isLoading := false;
    }
  }
}
