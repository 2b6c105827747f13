/** The AMC list screen's `uniqueAMCs`: the distinct first words of the scheme names, sorted. */
module AmcListView {
  import opened Wrappers
  import opened Text
  import opened Funds
  import FundsList

  /** `name.split(separator: " ").first`. */
  function FirstWord(name: string): (r: Option<string>)
    ensures r.None? <==> AllSpaces(name)
    ensures r.Some? ==> IsToken(r.value) && r.value == Words(name)[0]
  {
    var ws := Words(name);
    if ws == [] then None else Some(ws[0])
  }

  /** The number of spaces in front of the first non-space character. */
  function LeadingSpaces(s: string): (n: nat)
    ensures n <= |s| && AllSpaces(s[..n])
    ensures n == |s| || s[n] != ' '
  {
    if s == [] || s[0] != ' ' then 0
    else
      var n := 1 + LeadingSpaces(s[1..]);
      assert forall i :: 0 < i < n ==> s[..n][i] == s[1..][..n - 1][i - 1];
      n
  }

  lemma {:induction false} WordsSkipLeadingSpaces(s: string)
    ensures Words(s) == Words(s[LeadingSpaces(s)..])
  {
    if s != [] && s[0] == ' ' {
      WordsSkipLeadingSpaces(s[1..]);
      assert s[1..][LeadingSpaces(s[1..])..] == s[LeadingSpaces(s)..];
    } else {
      assert s[0..] == s;
    }
  }

  /**
   * The first word is the maximal run of non-space characters that starts
   * after the leading spaces.
   */
  lemma FirstWordIsFirstRun(name: string)
    requires !AllSpaces(name)
    ensures LeadingSpaces(name) < |name|
    ensures var rest := name[LeadingSpaces(name)..]; FirstWord(name) == Some(rest[..RunLength(rest)])
  {
    assert name[..|name|] == name;
    WordsSkipLeadingSpaces(name);
  }

  /** The first words of the named funds, in fund order; a name without words gives none. */
  function FirstWords(funds: seq<Fund>): (ws: seq<string>)
    ensures forall x :: x in ws <==> exists f :: f in funds && FirstWord(f.schemeName) == Some(x)
  {
    if funds == [] then []
    else
      var rest := FirstWords(funds[1..]);
      assert forall x :: (exists f :: f in funds[1..] && FirstWord(f.schemeName) == Some(x)) ==>
        (exists f :: f in funds && FirstWord(f.schemeName) == Some(x));
      assert forall f :: f in funds ==> f == funds[0] || f in funds[1..];
      match FirstWord(funds[0].schemeName)
      case Some(w) => [w] + rest
      case None => rest
  }

  /** `uniqueAMCs`: sorted, without duplicates, the first word of every fund that has one. */
  function UniqueAMCs(funds: seq<Fund>): (r: seq<string>)
    ensures StrictlySorted(r) && NoDuplicates(r)
    ensures forall x :: x in r <==> exists f :: f in funds && FirstWord(f.schemeName) == Some(x)
    ensures "" !in r
  {
    var r := SortedSet(FirstWords(funds));
    StrictlySortedHasNoDuplicates(r);
    r
  }

  /** Every fund whose name has a word contributes it. */
  lemma UniqueAMCsCoversEveryNamedFund(funds: seq<Fund>, f: Fund)
    requires f in funds && !AllSpaces(f.schemeName)
    ensures FirstWord(f.schemeName).value in UniqueAMCs(funds)
  {
  }

  /** Reordering or repeating funds does not change the list: only the multiset of names matters. */
  lemma {:induction false} UniqueAMCsDependsOnNamesOnly(a: seq<Fund>, b: seq<Fund>)
    requires multiset(SchemeNames(a)) == multiset(SchemeNames(b))
    ensures UniqueAMCs(a) == UniqueAMCs(b)
  {
    forall x ensures x in FirstWords(a) <==> x in FirstWords(b) {
      if x in FirstWords(a) {
        var f :| f in a && FirstWord(f.schemeName) == Some(x);
        SchemeNamesHas(a, f);
        assert f.schemeName in multiset(SchemeNames(b));
        var g := NamedIn(b, f.schemeName);
      }
      if x in FirstWords(b) {
        var g :| g in b && FirstWord(g.schemeName) == Some(x);
        SchemeNamesHas(b, g);
        assert g.schemeName in multiset(SchemeNames(a));
        var f := NamedIn(a, g.schemeName);
      }
    }
    SortedSetDependsOnElementsOnly(FirstWords(a), FirstWords(b));
  }

  /**
   * The two facet heuristics differ: the view model's two-word label equals
   * this screen's first word exactly for names of one word.
   */
  lemma HeuristicsAgreeIffOneWord(name: string)
    requires !AllSpaces(name)
    ensures FundsList.TwoWordLabel(name) == FirstWord(name).value <==> |Words(name)| == 1
  {
    FundsList.TwoWordLabelCases(name);
  }
}
