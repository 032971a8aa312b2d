/**
  A finite language: a set of strings held in a `TreeSet<String>`, grown in
  place by insertion, listed in ascending order and combined by
  concatenation.
 */
module Languages {
  import opened Wrappers
  import opened Text
  import opened StringOrder

  /** The concatenation of two languages: a string of `a` followed by a string of `b`, for every pair. */
  function Concat(a: set<string>, b: set<string>): set<string>
  {
    set x, y | x in a && y in b :: x + y
  }

  /**
    The strings the nested loop of `Concatenate` has added once it has
    combined every `xs[k]` with every `ys[l]` for `k < i`, and `xs[i]` with
    `ys[l]` for `l < j`.
   */
  ghost function Upto(xs: seq<string>, ys: seq<string>, i: nat, j: nat): set<string>
    requires i <= |xs| && j <= |ys| && (j > 0 ==> i < |xs|)
    decreases i, j
  {
    if j > 0 then Upto(xs, ys, i, j - 1) + {xs[i] + ys[j - 1]}
    else if i > 0 then Upto(xs, ys, i - 1, |ys|)
    else {}
  }

  class Language {
    /** The strings of the language. */
    var strings: set<string>

    /** A language with no strings. */
    constructor ()
      ensures strings == {}
      ensures IsEmpty() && Cardinality() == 0
    {
      strings := {};
    }

    /** The language has no strings. */
    function IsEmpty(): (r: bool)
      reads this
      ensures r <==> |strings| == 0
    {
      strings == {}
    }

    /**
      The number of strings, capped at `Integer.MAX_VALUE`: the exact count
      whenever that count fits in an `int`.
     */
    function Cardinality(): (n: int)
      reads this
      ensures 0 <= n <= INT_MAX
      ensures |strings| <= INT_MAX ==> n == |strings|
      ensures n == 0 <==> IsEmpty()
    {
      if |strings| > INT_MAX then INT_MAX else |strings|
    }

    /** Membership; it agrees with what iteration lists. */
    function Includes(candidate: string): (r: bool)
      reads this
      ensures r <==> candidate in Elements()
    {
      candidate in strings
    }

    /**
      Inserts a string and reports whether the size grew, by comparing
      `size()` before and after.
     */
    method AddString(memberString: string) returns (changed: bool)
      modifies this
      ensures strings == old(strings) + {memberString}
      ensures Includes(memberString)
      ensures changed <==> memberString !in old(strings)
    {
      var temp := |strings|;
      strings := strings + {memberString};
      changed := |strings| > temp;
    }

    /**
      Inserts every string of a collection and reports whether the size grew
      at all, by one comparison of `size()` before and after.
     */
    method AddAllStrings(memberStrings: seq<string>) returns (changed: bool)
      modifies this
      ensures strings == old(strings) + (set x | x in memberStrings)
      ensures changed <==> exists x :: x in memberStrings && x !in old(strings)
    {
      var temp := |strings|;
      ghost var before := strings;
      strings := strings + (set x | x in memberStrings);
      if x :| x in memberStrings && x !in before {
        CardinalityGrows(before, x, strings);
      } else {
        assert strings == before;
      }
      changed := |strings| > temp;
    }

    /** What the ascending iterator yields: every string exactly once, in increasing order. */
    function Elements(): (r: seq<string>)
      reads this
      ensures Ascending(r)
      ensures forall x :: x in r <==> x in strings
      ensures |r| == |strings|
    {
      Sorted(strings)
    }

    /**
      The concatenation of this language with `language`, built in a fresh
      language by a nested loop over the ascending listings of both; neither
      operand changes.
     */
    method Concatenate(language: Language) returns (concatLang: Language)
      ensures fresh(concatLang)
      ensures concatLang.strings == Concat(strings, language.strings)
    {
      concatLang := new Language();
      var stringList := Elements();
      var stringList2 := language.Elements();
      for i := 0 to |stringList|
        invariant concatLang.strings == Upto(stringList, stringList2, i, 0)
      {
        var x := stringList[i];
        for j := 0 to |stringList2|
          invariant concatLang.strings == Upto(stringList, stringList2, i, j)
        {
          var y := stringList2[j];
          EmptyIsNeutral(x, y);
          // The empty string is compared by value; see ReferenceTestsAddConcatenation.
          if y != "" && x != "" {
            concatLang.strings := concatLang.strings + {x + y};
          } else if y == "" {
            concatLang.strings := concatLang.strings + {x};
          } else if x == "" {
            concatLang.strings := concatLang.strings + {y};
          }
        }
      }
      UptoIsConcat(stringList, strings, stringList2, language.strings);
    }

    /** Two languages are equal exactly when they list the same strings. */
    function Equals(other: Language): (r: bool)
      reads this, other
      ensures r <==> Elements() == other.Elements()
    {
      strings == other.strings
    }
  }

  // ---------------------------------------------------------------------------
  // Helpers for the proofs above
  // ---------------------------------------------------------------------------

  lemma CardinalityGrows(before: set<string>, x: string, after: set<string>)
    requires x !in before && before + {x} <= after
    ensures |after| > |before|
  {
    SubsetCardinality(before + {x}, after);
  }

  lemma {:induction false} SubsetCardinality(a: set<string>, b: set<string>)
    requires a <= b
    ensures |a| <= |b|
    decreases |a|
  {
    if a != {} {
      var x :| x in a;
      SubsetCardinality(a - {x}, b - {x});
    }
  }

  lemma EmptyIsNeutral(x: string, y: string)
    ensures y == "" ==> x + y == x
    ensures x == "" ==> x + y == y
  {
  }

  lemma {:induction false} UptoMembers(xs: seq<string>, ys: seq<string>, i: nat, j: nat, z: string)
    requires i <= |xs| && j <= |ys| && (j > 0 ==> i < |xs|)
    ensures z in Upto(xs, ys, i, j) <==>
              exists k, l :: 0 <= k <= i && 0 <= l < |ys| && (k < i || l < j) && z == xs[k] + ys[l]
    decreases i, j
  {
    if j > 0 {
      UptoMembers(xs, ys, i, j - 1, z);
    } else if i > 0 {
      UptoMembers(xs, ys, i - 1, |ys|, z);
    }
  }

  lemma ConcatMembers(a: set<string>, b: set<string>, z: string)
    ensures z in Concat(a, b) <==> exists x, y :: x in a && y in b && z == x + y
  {
  }

  lemma UptoIsConcat(xs: seq<string>, a: set<string>, ys: seq<string>, b: set<string>)
    requires forall x :: x in xs <==> x in a
    requires forall y :: y in ys <==> y in b
    ensures Upto(xs, ys, |xs|, 0) == Concat(a, b)
  {
    forall z ensures z in Upto(xs, ys, |xs|, 0) <==> z in Concat(a, b) {
      UptoMembers(xs, ys, |xs|, 0, z);
      ConcatMembers(a, b, z);
      if z in Concat(a, b) {
        var x, y :| x in a && y in b && z == x + y;
        var k :| 0 <= k < |xs| && xs[k] == x;
        var l :| 0 <= l < |ys| && ys[l] == y;
      }
    }
  }

  // ---------------------------------------------------------------------------
  // Properties of concatenation
  // ---------------------------------------------------------------------------

  /**
    What one pass of the inner loop adds when the three tests against `""`
    compare references, as `==` and `!=` do on Java strings. `xIsLiteral`
    says that `x` is the very object `""`, which only an empty string can be.
    `None` would mean that no branch fires.
   */
  function ContributionByReference(x: string, y: string, xIsLiteral: bool, yIsLiteral: bool): (r: Option<string>)
    requires xIsLiteral ==> x == ""
    requires yIsLiteral ==> y == ""
    ensures r.Some?
    ensures |r.value| == |x| + |y|
  {
    if !yIsLiteral && !xIsLiteral then Some(x + y)
    else if yIsLiteral then Some(x)
    else if xIsLiteral then Some(y)
    else None
  }

  /**
    Whichever empty strings happen to be the literal object, some branch
    fires and it adds a string equal to `x + y`; comparing by value (the
    flags set to `x == ""` and `y == ""`) is one of the cases.
   */
  lemma ReferenceTestsAddConcatenation(x: string, y: string, xIsLiteral: bool, yIsLiteral: bool)
    requires xIsLiteral ==> x == ""
    requires yIsLiteral ==> y == ""
    ensures ContributionByReference(x, y, xIsLiteral, yIsLiteral) == Some(x + y)
  {
    if yIsLiteral {
      assert x + y == x;
    } else if xIsLiteral {
      assert x + y == y;
    }
  }

  /** `{""}` is a two-sided identity of concatenation. */
  lemma ConcatIdentity(a: set<string>)
    ensures Concat(a, {""}) == a
    ensures Concat({""}, a) == a
  {
    forall z ensures z in Concat(a, {""}) <==> z in a {
      ConcatMembers(a, {""}, z);
      if z in Concat(a, {""}) {
        var x, y :| x in a && y in {""} && z == x + y;
        assert y == "" && x + y == x;
      }
      if z in a {
        assert z + "" == z;
      }
    }
    forall z ensures z in Concat({""}, a) <==> z in a {
      ConcatMembers({""}, a, z);
      if z in Concat({""}, a) {
        var x, y :| x in {""} && y in a && z == x + y;
        assert x == "" && x + y == y;
      }
      if z in a {
        assert "" + z == z;
      }
    }
  }

  /** Concatenating with the empty language gives the empty language. */
  lemma ConcatEmpty(a: set<string>)
    ensures Concat(a, {}) == {}
    ensures Concat({}, a) == {}
  {
  }

  /** The cross product of two two-string languages. */
  lemma ConcatTwoByTwo()
    ensures Concat({"a", "b"}, {"x", "y"}) == {"ax", "ay", "bx", "by"}
  {
    var c := Concat({"a", "b"}, {"x", "y"});
    assert "a" + "x" == "ax" && "a" + "y" == "ay" && "b" + "x" == "bx" && "b" + "y" == "by";
    assert "ax" in c && "ay" in c && "bx" in c && "by" in c;
  }

  /**
    Pairs that concatenate to the same string count once: `{"", w}` with
    itself has four pairs but three strings, since `"" + w == w + ""`.
   */
  lemma ConcatCollapsesDuplicates(w: string)
    requires w != ""
    ensures Concat({"", w}, {"", w}) == {"", w, w + w}
    ensures |Concat({"", w}, {"", w})| == 3
  {
    ConcatOfEmptyAndWord(w);
    ThreeDistinct(w);
  }

  lemma ConcatOfEmptyAndWord(w: string)
    ensures Concat({"", w}, {"", w}) == {"", w, w + w}
  {
    var operand: set<string> := {"", w};
    var c := Concat(operand, operand);
    ConcatOfEmptyAndWordWithin(w, operand, c);
    ConcatOfEmptyAndWordCovers(w, operand, c);
  }

  lemma ConcatOfEmptyAndWordWithin(w: string, operand: set<string>, c: set<string>)
    requires operand == {"", w} && c == Concat(operand, operand)
    ensures forall z :: z in c ==> z == "" || z == w || z == w + w
  {
    forall z | z in c ensures z == "" || z == w || z == w + w {
      ConcatMembers(operand, operand, z);
      var x, y :| x in operand && y in operand && z == x + y;
      if x == "" {
        assert z == y;
      } else if y == "" {
        assert z == x;
      }
    }
  }

  lemma ConcatOfEmptyAndWordCovers(w: string, operand: set<string>, c: set<string>)
    requires operand == {"", w} && c == Concat(operand, operand)
    ensures "" in c && w in c && w + w in c
  {
    ConcatMembers(operand, operand, "");
    ConcatMembers(operand, operand, w);
    ConcatMembers(operand, operand, w + w);
    assert "" == "" + "";
    assert w == w + "";
  }

  lemma ThreeDistinct(w: string)
    requires w != ""
    ensures |{"", w, w + w}| == 3
  {
    assert |w + w| > |w| > 0;
  }

  // ---------------------------------------------------------------------------
  // Equality
  // ---------------------------------------------------------------------------

  /** Language equality is an equivalence. */
  lemma EqualsIsEquivalence(a: Language, b: Language, c: Language)
    ensures a.Equals(a)
    ensures a.Equals(b) ==> b.Equals(a)
    ensures a.Equals(b) && b.Equals(c) ==> a.Equals(c)
  {
  }

  /**
    Adding the same strings in any order, with any repetitions, gives equal
    languages: one language built by adding the strings of `p` one at a
    time, the other by adding all of `q` at once.
   */
  method InsertionOrderIrrelevant(p: seq<string>, q: seq<string>) returns (equal: bool)
    requires forall x :: x in p <==> x in q
    ensures equal
  {
    var one := new Language();
    for i := 0 to |p|
      invariant one.strings == set x | x in p[..i]
    {
      var _ := one.AddString(p[i]);
      assert p[..i + 1] == p[..i] + [p[i]];
    }
    assert p[..|p|] == p;
    var other := new Language();
    var _ := other.AddAllStrings(q);
    equal := one.Equals(other);
  }

  /** Adding one string twice reports a change only the first time. */
  method SecondAddReportsNoChange(s: string) returns (firstAdd: bool, secondAdd: bool)
    ensures firstAdd && !secondAdd
  {
    var language := new Language();
    firstAdd := language.AddString(s);
    secondAdd := language.AddString(s);
  }
}
