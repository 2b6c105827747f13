/**
 * String helpers shared by the fund model: the space tokenizer behind Swift's
 * `split(separator: " ")`, `joined(separator: " ")`, an ASCII case-insensitive
 * substring test, the lexicographic order on strings, and the
 * "deduplicate then sort" step written `Array(Set(xs)).sorted()` in Swift.
 */
module Text {
  import opened Sequences

  // ---------------------------------------------------------------------
  // Tokenizing on ' ' with empty pieces dropped
  // ---------------------------------------------------------------------

  predicate AllSpaces(s: string) {
    forall i :: 0 <= i < |s| ==> s[i] == ' '
  }

  /** A token as `split` yields it: non-empty and free of ' '. */
  predicate IsToken(w: string) {
    |w| > 0 && ' ' !in w
  }

  /** Length of the run of non-space characters at the front of `s`. */
  function RunLength(s: string): (n: nat)
    ensures n <= |s|
    ensures ' ' !in s[..n]
    ensures n == |s| || s[n] == ' '
    ensures |s| > 0 && s[0] != ' ' ==> n > 0
  {
    if s == [] || s[0] == ' ' then 0 else 1 + RunLength(s[1..])
  }

  /** The maximal non-empty runs of non-space characters, in order. */
  function Words(s: string): (ws: seq<string>)
    ensures forall w :: w in ws ==> IsToken(w)
    ensures ws == [] <==> AllSpaces(s)
    decreases |s|
  {
    if s == [] then []
    else if s[0] == ' ' then
      assert AllSpaces(s) <==> AllSpaces(s[1..]) by {
        if AllSpaces(s[1..]) {
          forall i | 0 <= i < |s| ensures s[i] == ' ' {
            if i > 0 { assert s[i] == s[1..][i - 1]; }
          }
        }
      }
      Words(s[1..])
    else
      var n := RunLength(s);
      [s[..n]] + Words(s[n..])
  }

  /** `joined(separator: " ")`: the first piece, then a space before each further piece. */
  function Join(ws: seq<string>): (r: string)
    ensures ws == [] ==> r == ""
    ensures |ws| == 1 ==> r == ws[0]
    ensures |ws| > 0 ==> ws[0] <= r
    ensures |ws| > 1 ==> |r| > |ws[0]| && r[|ws[0]|] == ' '
  {
    if ws == [] then ""
    else if |ws| == 1 then ws[0]
    else ws[0] + " " + Join(ws[1..])
  }

  lemma {:induction false} RunLengthOfTokenThenSpace(w: string, rest: string)
    requires IsToken(w)
    ensures RunLength(w + rest) == |w| || (0 < |rest| && rest[0] != ' ')
    ensures |rest| == 0 || rest[0] == ' ' ==> RunLength(w + rest) == |w|
  {
    if |w| > 1 {
      assert (w + rest)[1..] == w[1..] + rest;
      assert ' ' !in w[1..] by {
        forall i | 0 <= i < |w[1..]| ensures w[1..][i] != ' ' { assert w[1..][i] == w[i + 1]; }
      }
      RunLengthOfTokenThenSpace(w[1..], rest);
    } else {
      assert (w + rest)[1..] == rest;
    }
  }

  lemma WordsOfTokenThen(w: string, rest: string)
    requires IsToken(w) && (rest == [] || rest[0] == ' ')
    ensures Words(w + rest) == [w] + Words(rest)
  {
    var s := w + rest;
    RunLengthOfTokenThenSpace(w, rest);
    assert s[0] == w[0];
    assert s[..|w|] == w;
    assert s[|w|..] == rest;
  }

  /** Splitting what `Join` produced gives back the tokens. */
  lemma {:induction false} WordsOfJoin(ws: seq<string>)
    requires forall w :: w in ws ==> IsToken(w)
    ensures Words(Join(ws)) == ws
  {
    if |ws| == 1 {
      WordsOfTokenThen(ws[0], []);
      assert ws[0] + [] == ws[0];
    } else if |ws| > 1 {
      var rest := " " + Join(ws[1..]);
      assert Join(ws) == ws[0] + rest;
      WordsOfTokenThen(ws[0], rest);
      assert rest[1..] == Join(ws[1..]);
      WordsOfJoin(ws[1..]);
    }
  }

  /**
   * The text with spaces squeezed, read character by character: leading and
   * trailing spaces dropped and every inner run of spaces written as one.
   * `started` says a non-space character has been written, `pending` that a
   * space is owed before the next one.
   */
  function Collapse(s: string, started: bool, pending: bool): string
    decreases |s|
  {
    if s == [] then ""
    else if s[0] == ' ' then Collapse(s[1..], started, started)
    else (if pending then " " else "") + [s[0]] + Collapse(s[1..], true, false)
  }

  function Squeeze(s: string): string {
    Collapse(s, false, false)
  }

  /** Inside a word the characters are copied one by one. */
  lemma {:induction false} CollapseCopiesRun(s: string)
    ensures Collapse(s, true, false) == s[..RunLength(s)] + Collapse(s[RunLength(s)..], true, false)
  {
    if s != [] && s[0] != ' ' {
      CollapseCopiesRun(s[1..]);
      var n := RunLength(s);
      assert s[1..][..n - 1] == s[1..n];
      assert s[1..][n - 1..] == s[n..];
      assert [s[0]] + s[1..n] == s[..n];
    } else {
      assert s[..0] == [] && s[0..] == s;
    }
  }

  lemma {:induction false} JoinCons(w: string, ws: seq<string>)
    ensures Join([w] + ws) == if ws == [] then w else w + " " + Join(ws)
  {
    assert ([w] + ws)[1..] == ws;
  }

  /** At a word's first character: the owed space, the word, then whatever follows it. */
  lemma {:induction false} CollapseAtWord(s: string, started: bool)
    requires s != [] && s[0] != ' '
    ensures Collapse(s, started, started) ==
      (if started then " " else "") + s[..RunLength(s)] + Collapse(s[RunLength(s)..], true, false)
  {
    var n := RunLength(s);
    var t := s[1..];
    var prefix := if started then " " else "";
    var c := Collapse(s[n..], true, false);
    assert Collapse(s, started, started) == prefix + [s[0]] + Collapse(t, true, false);
    assert Collapse(t, true, false) == s[1..n] + c by {
      assert RunLength(t) == n - 1;
      assert t[..n - 1] == s[1..n];
      assert t[n - 1..] == s[n..];
      CollapseCopiesRun(t);
    }
    assert [s[0]] + s[1..n] == s[..n];
    Regroup(prefix, [s[0]], s[1..n], c);
  }


  lemma {:induction false} CollapseIsJoinOfWords(s: string, started: bool)
    ensures Collapse(s, started, started) ==
      if Words(s) == [] then "" else (if started then " " else "") + Join(Words(s))
    decreases |s|
  {
    if s != [] && s[0] == ' ' {
      CollapseIsJoinOfWords(s[1..], started);
    } else if s != [] {
      var n := RunLength(s);
      var w, rest := s[..n], s[n..];
      var ws := Words(rest);
      var prefix := if started then " " else "";
      assert Words(s) == [w] + ws;
      CollapseAtWord(s, started);
      var tail := if ws == [] then "" else " " + Join(ws);
      assert Collapse(rest, true, false) == tail by {
        if rest != [] {
          assert rest[0] == ' ';
          assert Collapse(rest, true, false) == Collapse(rest[1..], true, true);
          assert ws == Words(rest[1..]);
          CollapseIsJoinOfWords(rest[1..], true);
        }
      }
      JoinCons(w, ws);
      if ws == [] {
        assert prefix + w + tail == prefix + w;
      } else {
        Regroup(prefix, w, " ", Join(ws));
        AppendAssoc(prefix, w + " ", Join(ws));
      }
    }
  }

  /** Joining the pieces of `split` with single spaces gives the squeezed text. */
  lemma JoinOfWordsIsSqueeze(s: string)
    ensures Join(Words(s)) == Squeeze(s)
  {
    CollapseIsJoinOfWords(s, false);
  }

  /**
   * `Words(s)` is the only sequence of tokens whose single-space join is the
   * squeezed text, so this fixes every piece of the split, in order.
   */
  lemma WordsUniquelyDetermined(s: string, ws: seq<string>)
    requires forall w :: w in ws ==> IsToken(w)
    requires Join(ws) == Squeeze(s)
    ensures ws == Words(s)
  {
    JoinOfWordsIsSqueeze(s);
    WordsOfJoin(ws);
    WordsOfJoin(Words(s));
  }

  // ---------------------------------------------------------------------
  // Case-insensitive containment (ASCII fold)
  // ---------------------------------------------------------------------

  function FoldChar(c: char): char {
    if 'A' <= c <= 'Z' then (c as int + 32) as char else c
  }

  function Fold(s: string): (r: string)
    ensures |r| == |s|
    ensures forall i :: 0 <= i < |s| ==> r[i] == FoldChar(s[i])
  {
    if s == [] then [] else [FoldChar(s[0])] + Fold(s[1..])
  }

  /** `needle` occurs as a contiguous piece of `hay`. */
  predicate Occurs(needle: string, hay: string)
    decreases |hay|
  {
    needle <= hay || (|hay| > 0 && Occurs(needle, hay[1..]))
  }

  /** `needle` starts at index `i` of `hay`. */
  predicate OccursAtIndex(needle: string, hay: string, i: int) {
    0 <= i <= |hay| && needle <= hay[i..]
  }

  /** `Occurs` is the usual substring test: some suffix of `hay` starts with `needle`. */
  lemma {:induction false} OccursAt(needle: string, hay: string)
    ensures Occurs(needle, hay) <==> exists i :: OccursAtIndex(needle, hay, i)
    decreases |hay|
  {
    if needle <= hay {
      assert hay[0..] == hay;
      assert OccursAtIndex(needle, hay, 0);
    } else if |hay| > 0 {
      OccursAt(needle, hay[1..]);
      if Occurs(needle, hay) {
        var i :| OccursAtIndex(needle, hay[1..], i);
        assert hay[1..][i..] == hay[i + 1..];
        assert OccursAtIndex(needle, hay, i + 1);
      }
      if i :| OccursAtIndex(needle, hay, i) {
        assert hay[1..][i - 1..] == hay[i..];
        assert OccursAtIndex(needle, hay[1..], i - 1);
      }
    }
  }

  /**
   * Foundation's `localizedCaseInsensitiveContains`, with the locale-aware
   * fold replaced by an ASCII fold. An empty needle is never contained.
   */
  function ContainsIgnoringCase(hay: string, needle: string): (r: bool)
    ensures r <==> |needle| > 0 && exists i :: FoldedMatchAt(hay, needle, i)
  {
    OccursAt(Fold(needle), Fold(hay));
    forall i ensures OccursAtIndex(Fold(needle), Fold(hay), i) <==> FoldedMatchAt(hay, needle, i) {
      if 0 <= i <= |hay| { FoldedPrefixAt(hay, needle, i); }
    }
    |needle| > 0 && Occurs(Fold(needle), Fold(hay))
  }

  /** Every character of `needle` equals, up to case, the one `i` places further on in `hay`. */
  predicate FoldedMatchAt(hay: string, needle: string, i: int) {
    0 <= i && i + |needle| <= |hay| &&
    forall j :: 0 <= j < |needle| ==> FoldChar(hay[i + j]) == FoldChar(needle[j])
  }

  /** The folded needle starting at `i` of the folded text is a character-by-character match. */
  lemma FoldedPrefixAt(hay: string, needle: string, i: int)
    requires 0 <= i <= |hay|
    ensures OccursAtIndex(Fold(needle), Fold(hay), i) <==> FoldedMatchAt(hay, needle, i)
  {
    var fn, fh := Fold(needle), Fold(hay);
    if i + |needle| <= |hay| {
      if FoldedMatchAt(hay, needle, i) {
        assert fn == fh[i..][..|fn|];
      }
      if OccursAtIndex(fn, fh, i) {
        forall j | 0 <= j < |needle| ensures FoldChar(hay[i + j]) == FoldChar(needle[j]) {
          assert fh[i..][j] == fh[i + j];
        }
      }
    }
  }

  // ---------------------------------------------------------------------
  // Lexicographic order and sorted sets of strings
  // ---------------------------------------------------------------------

  /** Strict lexicographic order on character codes; a proper prefix is smaller. */
  function Below(a: string, b: string): (r: bool)
    ensures r ==> a != b
    ensures |a| < |b| && a == b[..|a|] ==> r
  {
    if |a| == 0 then |b| > 0
    else if |b| == 0 then false
    else
      assert |a| < |b| && a == b[..|a|] ==> a[1..] == b[1..][..|a| - 1];
      a[0] < b[0] || (a[0] == b[0] && Below(a[1..], b[1..]))
  }

  /** `a` and `b` agree before index `k` and `a` has the smaller character there. */
  predicate FirstDifferenceAt(a: string, b: string, k: int) {
    0 <= k < |a| && k < |b| && a[..k] == b[..k] && a[k] < b[k]
  }

  /** `Below` is the textbook lexicographic order: a proper prefix, or smaller at the first difference. */
  lemma {:induction false} BelowIsLexicographic(a: string, b: string)
    ensures Below(a, b) <==> (|a| < |b| && a == b[..|a|]) || exists k :: FirstDifferenceAt(a, b, k)
  {
    if |a| > 0 && |b| > 0 {
      BelowIsLexicographic(a[1..], b[1..]);
      if a[0] < b[0] {
        assert FirstDifferenceAt(a, b, 0);
      } else if a[0] == b[0] {
        if k :| FirstDifferenceAt(a[1..], b[1..], k) {
          assert a[..k + 1] == [a[0]] + a[1..][..k];
          assert b[..k + 1] == [b[0]] + b[1..][..k];
          assert FirstDifferenceAt(a, b, k + 1);
        }
        if k :| FirstDifferenceAt(a, b, k) {
          assert k > 0;
          assert a[1..][..k - 1] == a[..k][1..];
          assert b[1..][..k - 1] == b[..k][1..];
          assert FirstDifferenceAt(a[1..], b[1..], k - 1);
        }
        if |a| < |b| && a == b[..|a|] {
          assert a[1..] == b[1..][..|a| - 1];
        }
        if |a| - 1 < |b| - 1 && a[1..] == b[1..][..|a| - 1] {
          assert a == [a[0]] + a[1..];
          assert b[..|a|] == [b[0]] + b[1..][..|a| - 1];
        }
      } else {
        assert forall k :: FirstDifferenceAt(a, b, k) ==> k == 0 || a[..k][0] == b[..k][0];
      }
    }
  }

  lemma {:induction false} BelowIrreflexive(a: string)
    ensures !Below(a, a)
  {
    if |a| > 0 { BelowIrreflexive(a[1..]); }
  }

  lemma {:induction false} BelowTransitive(a: string, b: string, c: string)
    requires Below(a, b) && Below(b, c)
    ensures Below(a, c)
  {
    if |a| > 0 && |b| > 0 && |c| > 0 && a[0] == b[0] == c[0] {
      BelowTransitive(a[1..], b[1..], c[1..]);
    }
  }

  lemma {:induction false} BelowTotal(a: string, b: string)
    requires a != b
    ensures Below(a, b) || Below(b, a)
  {
    if |a| > 0 && |b| > 0 && a[0] == b[0] {
      assert a == [a[0]] + a[1..];
      assert b == [b[0]] + b[1..];
      BelowTotal(a[1..], b[1..]);
    }
  }

  lemma BelowAsymmetric(a: string, b: string)
    requires Below(a, b)
    ensures !Below(b, a)
  {
    if Below(b, a) { BelowTransitive(a, b, a); BelowIrreflexive(a); }
  }

  predicate StrictlySorted(s: seq<string>) {
    forall i, j :: 0 <= i < j < |s| ==> Below(s[i], s[j])
  }

  predicate NoDuplicates<T(==)>(s: seq<T>) {
    forall i, j :: 0 <= i < j < |s| ==> s[i] != s[j]
  }

  lemma StrictlySortedHasNoDuplicates(s: seq<string>)
    requires StrictlySorted(s)
    ensures NoDuplicates(s)
  {
    forall i, j | 0 <= i < j < |s| ensures s[i] != s[j] {
      if s[i] == s[j] { BelowIrreflexive(s[i]); }
    }
  }

  /** Put `x` into its place in a sorted set of strings, unless it is there. */
  function Insert(x: string, s: seq<string>): (r: seq<string>)
    requires StrictlySorted(s)
    ensures StrictlySorted(r)
    ensures forall y :: y in r <==> y == x || y in s
  {
    if s == [] then [x]
    else if x == s[0] then s
    else if Below(x, s[0]) then
      assert forall j :: 0 < j < |s| ==> Below(x, s[j]) by {
        forall j | 0 < j < |s| ensures Below(x, s[j]) { BelowTransitive(x, s[0], s[j]); }
      }
      [x] + s
    else
      BelowTotal(x, s[0]);
      var t := Insert(x, s[1..]);
      assert forall y :: y in t ==> Below(s[0], y) by {
        forall y | y in t ensures Below(s[0], y) {
          if y != x { var j :| 0 <= j < |s[1..]| && s[1..][j] == y; assert s[j + 1] == y; }
        }
      }
      [s[0]] + t
  }

  /** `Array(Set(xs)).sorted()`: the distinct elements of `xs` in ascending order. */
  function SortedSet(xs: seq<string>): (r: seq<string>)
    ensures StrictlySorted(r)
    ensures forall y :: y in r <==> y in xs
  {
    if xs == [] then [] else Insert(xs[0], SortedSet(xs[1..]))
  }

  lemma HeadIsLeast(s: seq<string>, y: string)
    requires StrictlySorted(s) && y in s
    ensures y == s[0] || Below(s[0], y)
  {
  }

  /** A strictly sorted sequence is fixed by its elements. */
  lemma {:induction false} SortedSetsAreUnique(a: seq<string>, b: seq<string>)
    requires StrictlySorted(a) && StrictlySorted(b)
    requires forall y :: y in a <==> y in b
    ensures a == b
  {
    if a != [] { assert a[0] in a; }
    if b != [] { assert b[0] in b; }
    if a != [] && b != [] {
      HeadIsLeast(b, a[0]);
      HeadIsLeast(a, b[0]);
      if a[0] != b[0] {
        BelowAsymmetric(a[0], b[0]);
        assert false;
      }
      assert a == [a[0]] + a[1..] && b == [b[0]] + b[1..];
      forall y ensures y in a[1..] <==> y in b[1..] {
        if y in a[1..] {
          var j :| 0 <= j < |a[1..]| && a[1..][j] == y;
          assert a[j + 1] == y && y in a;
          if y == b[0] { BelowIrreflexive(y); }
        }
        if y in b[1..] {
          var j :| 0 <= j < |b[1..]| && b[1..][j] == y;
          assert b[j + 1] == y && y in b;
          if y == a[0] { BelowIrreflexive(y); }
        }
      }
      SortedSetsAreUnique(a[1..], b[1..]);
    }
  }

  /** `SortedSet` depends only on which strings occur, not on order or repetition. */
  lemma SortedSetDependsOnElementsOnly(xs: seq<string>, ys: seq<string>)
    requires forall y :: y in xs <==> y in ys
    ensures SortedSet(xs) == SortedSet(ys)
  {
    SortedSetsAreUnique(SortedSet(xs), SortedSet(ys));
  }
}
