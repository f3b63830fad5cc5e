/** The grouping and sorting step of the spreadsheet export: athletes grouped
    by continent name in order of first appearance, each group sorted by name,
    rows numbered from 1. */
module Report {
  import opened Extraction
  import opened Ibsf

  /** Python's `a <= b` on `str`: lexicographic order of code points. */
  predicate NameLe(a: string, b: string)
    decreases |a|
  {
    a == [] || (b != [] && (a[0] < b[0] || (a[0] == b[0] && NameLe(a[1..], b[1..]))))
  }

  lemma {:induction false} NameLeReflexive(a: string)
    ensures NameLe(a, a)
    decreases |a|
  {
    if a != [] {
      NameLeReflexive(a[1..]);
    }
  }

  lemma {:induction false} NameLeTotal(a: string, b: string)
    ensures NameLe(a, b) || NameLe(b, a)
    decreases |a|
  {
    if a != [] && b != [] && a[0] == b[0] {
      NameLeTotal(a[1..], b[1..]);
    }
  }

  lemma {:induction false} NameLeTransitive(a: string, b: string, c: string)
    requires NameLe(a, b) && NameLe(b, c)
    ensures NameLe(a, c)
    decreases |a|
  {
    if a != [] && b != [] && c != [] && a[0] == b[0] && b[0] == c[0] {
      NameLeTransitive(a[1..], b[1..], c[1..]);
    }
  }

  ghost predicate SortedByName(s: seq<Athlete>) {
    forall i, j :: 0 <= i < j < |s| ==> NameLe(s[i].name, s[j].name)
  }

  /** The athletes of `s` named `n`, in their order in `s`. */
  function WithName(s: seq<Athlete>, n: string): seq<Athlete> {
    if s == [] then []
    else WithName(s[..|s| - 1], n) + (if s[|s| - 1].name == n then [s[|s| - 1]] else [])
  }

  lemma WithNameSnoc(s: seq<Athlete>, x: Athlete, n: string)
    ensures WithName(s + [x], n) == WithName(s, n) + (if x.name == n then [x] else [])
  {
    assert (s + [x])[..|s|] == s;
  }

  /** Puts `a` after every athlete of `s` whose name is not greater than its own. */
  function InsertByName(s: seq<Athlete>, a: Athlete): seq<Athlete> {
    if s == [] || NameLe(s[|s| - 1].name, a.name) then s + [a]
    else InsertByName(s[..|s| - 1], a) + [s[|s| - 1]]
  }

  /** `list.sort(key=lambda a: a.name)`, as insertion of each athlete in turn. */
  function SortByName(s: seq<Athlete>): seq<Athlete> {
    if s == [] then [] else InsertByName(SortByName(s[..|s| - 1]), s[|s| - 1])
  }

  lemma {:induction false} InsertMultiset(s: seq<Athlete>, a: Athlete)
    ensures multiset(InsertByName(s, a)) == multiset(s) + multiset{a}
  {
    if s != [] && !NameLe(s[|s| - 1].name, a.name) {
      InsertMultiset(s[..|s| - 1], a);
      assert s == s[..|s| - 1] + [s[|s| - 1]];
    }
  }

  lemma {:induction false} InsertSorted(s: seq<Athlete>, a: Athlete)
    requires SortedByName(s)
    ensures SortedByName(InsertByName(s, a))
  {
    if s == [] {
    } else if NameLe(s[|s| - 1].name, a.name) {
      var r := s + [a];
      forall i, j | 0 <= i < j < |r| ensures NameLe(r[i].name, r[j].name) {
        if j == |s| && i < |s| - 1 {
          NameLeTransitive(s[i].name, s[|s| - 1].name, a.name);
        }
      }
    } else {
      var init, last := s[..|s| - 1], s[|s| - 1];
      InsertSorted(init, a);
      InsertMultiset(init, a);
      NameLeTotal(last.name, a.name);
      var t := InsertByName(init, a);
      forall i | 0 <= i < |t| ensures NameLe(t[i].name, last.name) {
        assert t[i] in multiset(t);
        assert t[i] == a || t[i] in init;
      }
    }
  }

  /** Insertion keeps the athletes of each name in order and puts `a` last among its name. */
  lemma {:induction false} InsertStable(s: seq<Athlete>, a: Athlete, n: string)
    requires SortedByName(s)
    ensures WithName(InsertByName(s, a), n) == WithName(s, n) + (if a.name == n then [a] else [])
  {
    if s == [] || NameLe(s[|s| - 1].name, a.name) {
      WithNameSnoc(s, a, n);
    } else {
      var init, last := s[..|s| - 1], s[|s| - 1];
      InsertStable(init, a, n);
      WithNameSnoc(InsertByName(init, a), last, n);
      if last.name == n && a.name == n {
        NameLeReflexive(n);
      }
    }
  }

  /** The sort returns the athletes sorted by name, as a permutation, with
      athletes of equal name in their original order. */
  lemma {:induction false} SortByNameCorrect(s: seq<Athlete>)
    ensures SortedByName(SortByName(s))
    ensures multiset(SortByName(s)) == multiset(s)
    ensures forall n :: WithName(SortByName(s), n) == WithName(s, n)
  {
    if s != [] {
      var init, last := s[..|s| - 1], s[|s| - 1];
      SortByNameCorrect(init);
      InsertSorted(SortByName(init), last);
      InsertMultiset(SortByName(init), last);
      assert s == init + [last];
      forall n ensures WithName(SortByName(s), n) == WithName(s, n) {
        InsertStable(SortByName(init), last, n);
      }
    }
  }

  /** Continent names in order of first appearance: the key order of the dictionary. */
  function ContinentOrder(s: seq<Athlete>): seq<string> {
    if s == [] then []
    else
      var order := ContinentOrder(s[..|s| - 1]);
      if s[|s| - 1].continentName in order then order else order + [s[|s| - 1].continentName]
  }

  /** The athletes of continent `c`, in discovery order: the dictionary's list for `c`. */
  function InContinent(s: seq<Athlete>, c: string): seq<Athlete> {
    if s == [] then []
    else InContinent(s[..|s| - 1], c) + (if s[|s| - 1].continentName == c then [s[|s| - 1]] else [])
  }

  /** Index of the first athlete of continent `c`; `|s|` when there is none. */
  function FirstIndex(s: seq<Athlete>, c: string): (k: nat)
    ensures k <= |s|
    ensures k < |s| ==> s[k].continentName == c
    ensures forall j :: 0 <= j < k && j < |s| ==> s[j].continentName != c
  {
    if s == [] then 0
    else
      var k := FirstIndex(s[..|s| - 1], c);
      if k < |s| - 1 then k else if s[|s| - 1].continentName == c then |s| - 1 else |s|
  }

  lemma FirstIndexSnoc(init: seq<Athlete>, x: Athlete, c: string)
    ensures FirstIndex(init + [x], c)
         == if FirstIndex(init, c) < |init| then FirstIndex(init, c)
            else if x.continentName == c then |init| else |init| + 1
  {
    assert (init + [x])[..|init|] == init;
  }

  lemma ContinentOrderSnoc(init: seq<Athlete>, x: Athlete)
    ensures ContinentOrder(init + [x])
         == if x.continentName in ContinentOrder(init) then ContinentOrder(init)
            else ContinentOrder(init) + [x.continentName]
  {
    assert (init + [x])[..|init|] == init;
  }

  /** A continent is in the order exactly when some athlete belongs to it. */
  lemma {:induction false} OrderMembers(s: seq<Athlete>)
    ensures forall c :: c in ContinentOrder(s) <==> FirstIndex(s, c) < |s|
  {
    if s != [] {
      var init, x := s[..|s| - 1], s[|s| - 1];
      assert s == init + [x];
      OrderMembers(init);
      ContinentOrderSnoc(init, x);
      forall c ensures c in ContinentOrder(s) <==> FirstIndex(s, c) < |s| {
        FirstIndexSnoc(init, x, c);
      }
    }
  }

  /** No continent is listed twice. */
  lemma {:induction false} OrderDistinct(s: seq<Athlete>)
    ensures forall i, j :: 0 <= i < j < |ContinentOrder(s)| ==> ContinentOrder(s)[i] != ContinentOrder(s)[j]
  {
    if s != [] {
      var init, x := s[..|s| - 1], s[|s| - 1];
      assert s == init + [x];
      OrderDistinct(init);
      ContinentOrderSnoc(init, x);
    }
  }

  /** Continents are listed in the order of their first athletes. */
  lemma {:induction false} OrderByFirstIndex(s: seq<Athlete>)
    ensures forall i, j :: 0 <= i < j < |ContinentOrder(s)|
              ==> FirstIndex(s, ContinentOrder(s)[i]) < FirstIndex(s, ContinentOrder(s)[j])
  {
    if s != [] {
      var init, x := s[..|s| - 1], s[|s| - 1];
      assert s == init + [x];
      OrderByFirstIndex(init);
      OrderMembers(init);
      ContinentOrderSnoc(init, x);
      var order := ContinentOrder(s);
      forall i, j | 0 <= i < j < |order| ensures FirstIndex(s, order[i]) < FirstIndex(s, order[j]) {
        FirstIndexSnoc(init, x, order[i]);
        FirstIndexSnoc(init, x, order[j]);
      }
    }
  }

  /** The continent order lists each continent of `s` once, and lists them in
      the order of their first athletes. */
  lemma ContinentOrderFirstAppearance(s: seq<Athlete>)
    ensures forall c :: c in ContinentOrder(s) <==> FirstIndex(s, c) < |s|
    ensures forall i, j :: 0 <= i < j < |ContinentOrder(s)| ==> ContinentOrder(s)[i] != ContinentOrder(s)[j]
    ensures forall i, j :: 0 <= i < j < |ContinentOrder(s)|
              ==> FirstIndex(s, ContinentOrder(s)[i]) < FirstIndex(s, ContinentOrder(s)[j])
  {
    OrderMembers(s);
    OrderDistinct(s);
    OrderByFirstIndex(s);
  }

  function Concat(groups: seq<seq<Athlete>>): seq<Athlete> {
    if groups == [] then [] else Concat(groups[..|groups| - 1]) + groups[|groups| - 1]
  }

  /** The groups, one per continent in first-appearance order. */
  function Groups(s: seq<Athlete>): seq<seq<Athlete>> {
    var order := ContinentOrder(s);
    seq(|order|, i requires 0 <= i < |order| => InContinent(s, order[i]))
  }

  lemma {:induction false} ConcatAppendToGroup(groups: seq<seq<Athlete>>, i: nat, x: Athlete)
    requires i < |groups|
    ensures multiset(Concat(groups[i := groups[i] + [x]])) == multiset(Concat(groups)) + multiset{x}
  {
    var g1 := groups[i := groups[i] + [x]];
    var n := |groups|;
    assert Concat(g1) == Concat(g1[..n - 1]) + g1[n - 1];
    assert Concat(groups) == Concat(groups[..n - 1]) + groups[n - 1];
    if i < n - 1 {
      assert g1[..n - 1] == groups[..n - 1][i := groups[i] + [x]];
      ConcatAppendToGroup(groups[..n - 1], i, x);
      assert g1[n - 1] == groups[n - 1];
    } else {
      assert g1[..n - 1] == groups[..n - 1];
      assert g1[n - 1] == groups[n - 1] + [x];
    }
  }

  lemma {:induction false} InContinentMembers(s: seq<Athlete>, c: string)
    ensures FirstIndex(s, c) == |s| ==> InContinent(s, c) == []
  {
    if s != [] {
      InContinentMembers(s[..|s| - 1], c);
    }
  }

  lemma InContinentSnoc(s: seq<Athlete>, x: Athlete, c: string)
    ensures InContinent(s + [x], c) == InContinent(s, c) + (if x.continentName == c then [x] else [])
  {
    assert (s + [x])[..|s|] == s;
  }

  /** An athlete of a continent already seen joins that continent's group. */
  lemma GroupsSnocOld(init: seq<Athlete>, x: Athlete, i: nat)
    requires i < |ContinentOrder(init)| && ContinentOrder(init)[i] == x.continentName
    ensures Groups(init + [x]) == Groups(init)[i := Groups(init)[i] + [x]]
  {
    var s := init + [x];
    OrderDistinct(init);
    ContinentOrderSnoc(init, x);
    var order := ContinentOrder(init);
    assert ContinentOrder(s) == order;
    forall j | 0 <= j < |order| ensures Groups(s)[j] == Groups(init)[i := Groups(init)[i] + [x]][j] {
      InContinentSnoc(init, x, order[j]);
    }
  }

  /** An athlete of a new continent opens a group of its own, last. */
  lemma GroupsSnocNew(init: seq<Athlete>, x: Athlete)
    requires x.continentName !in ContinentOrder(init)
    ensures Groups(init + [x]) == Groups(init) + [[x]]
  {
    var s := init + [x];
    OrderMembers(init);
    InContinentMembers(init, x.continentName);
    ContinentOrderSnoc(init, x);
    var order := ContinentOrder(init);
    forall j | 0 <= j < |order| + 1 ensures Groups(s)[j] == (Groups(init) + [[x]])[j] {
      InContinentSnoc(init, x, ContinentOrder(s)[j]);
    }
  }

  /** Appending an athlete adds it to exactly one group. */
  lemma GroupsSnoc(init: seq<Athlete>, x: Athlete)
    ensures multiset(Concat(Groups(init + [x]))) == multiset(Concat(Groups(init))) + multiset{x}
  {
    var order := ContinentOrder(init);
    var gs := Groups(init);
    if x.continentName in order {
      var i :| 0 <= i < |order| && order[i] == x.continentName;
      GroupsSnocOld(init, x, i);
      ConcatAppendToGroup(gs, i, x);
    } else {
      GroupsSnocNew(init, x);
      assert (gs + [[x]])[..|gs|] == gs;
    }
  }

  /** The groups partition the athletes: together they hold each athlete as
      often as the dataset does. */
  lemma {:induction false} GroupsPartition(s: seq<Athlete>)
    ensures multiset(Concat(Groups(s))) == multiset(s)
  {
    if s != [] {
      var init, last := s[..|s| - 1], s[|s| - 1];
      assert s == init + [last];
      GroupsPartition(init);
      GroupsSnoc(init, last);
    }
  }

  /** One row of a sheet: the 1-based index and the three columns. */
  datatype Row = Row(index: int, athleteName: string, country: string, continent: string)

  datatype Sheet = Sheet(name: string, rows: seq<Row>)

  /** The sheet of one continent's sorted athletes, rows numbered from 1. */
  function SheetOf(continentName: string, athletes: seq<Athlete>): (sheet: Sheet)
    ensures |sheet.rows| == |athletes|
  {
    Sheet(continentName, seq(|athletes|, i requires 0 <= i < |athletes| =>
      Row(i + 1, athletes[i].name, athletes[i].countryName, continentName)))
  }

  /** Bob and Ann from Switzerland then Eli from Germany, all in Europe, give
      one sheet listing Ann, Bob, Eli in rows 1 to 3. */
  lemma ExportExample()
    ensures var bob := Athlete("Bob", "CH", "EU", "Switzerland", "Europe");
            var ann := Athlete("Ann", "CH", "EU", "Switzerland", "Europe");
            var eli := Athlete("Eli", "DE", "EU", "Germany", "Europe");
            var athletes := [bob, ann, eli];
            ContinentOrder(athletes) == ["Europe"]
            && SheetOf("Europe", SortByName(InContinent(athletes, "Europe"))).rows
               == [Row(1, "Ann", "Switzerland", "Europe"), Row(2, "Bob", "Switzerland", "Europe"),
                   Row(3, "Eli", "Germany", "Europe")]
  {
    var bob := Athlete("Bob", "CH", "EU", "Switzerland", "Europe");
    var ann := Athlete("Ann", "CH", "EU", "Switzerland", "Europe");
    var eli := Athlete("Eli", "DE", "EU", "Germany", "Europe");
    var athletes := [bob, ann, eli];
    assert athletes[..2] == [bob, ann] && athletes[..2][..1] == [bob] && [bob][..0] == [];
    assert InContinent([bob], "Europe") == [bob];
    assert InContinent([bob, ann], "Europe") == [bob, ann];
    assert InContinent(athletes, "Europe") == athletes;
    assert NameLe("Ann", "Eli") && !NameLe("Bob", "Ann") && NameLe("Bob", "Eli");
    assert SortByName([bob]) == [bob];
    assert [bob, ann][..1] == [bob];
    assert InsertByName([bob], ann) == InsertByName([], ann) + [bob];
    assert SortByName([bob, ann]) == InsertByName([bob], ann);
    assert SortByName([bob, ann]) == [ann, bob];
    assert ContinentOrder([bob]) == ["Europe"];
    assert ContinentOrder([bob, ann]) == ["Europe"];
    assert SortByName(athletes) == [ann, bob, eli];
  }

  /** The dictionary of lists built by `writeToExcel`: keys in insertion order and their lists. */
  method GroupByContinent(athletes: seq<Athlete>) returns (order: seq<string>, groups: map<string, seq<Athlete>>)
    ensures order == ContinentOrder(athletes)
    ensures forall c :: c in groups <==> c in order
    ensures forall c :: c in groups ==> groups[c] == InContinent(athletes, c)
  {
    order, groups := [], map[];
    for i := 0 to |athletes|
      invariant order == ContinentOrder(athletes[..i])
      invariant forall c :: c in groups <==> c in order
      invariant forall c :: c in groups ==> groups[c] == InContinent(athletes[..i], c)
    {
      var a := athletes[i];
      assert athletes[..i + 1][..i] == athletes[..i];
      if a.continentName in groups {
        groups := groups[a.continentName := groups[a.continentName] + [a]];
      } else {
        OrderMembers(athletes[..i]);
        InContinentMembers(athletes[..i], a.continentName);
        groups := groups[a.continentName := [a]];
        order := order + [a.continentName];
      }
    }
    assert athletes[..|athletes|] == athletes;
  }

  /** `writeToExcel` without the spreadsheet library: one sheet per continent,
      in first-appearance order, its athletes sorted by name. */
  method WriteToExcel(dataset: DataSet) returns (sheets: seq<Sheet>)
    ensures var order := ContinentOrder(dataset.athletes);
            |sheets| == |order|
            && forall i :: 0 <= i < |order| ==>
                 sheets[i] == SheetOf(order[i], SortByName(InContinent(dataset.athletes, order[i])))
  {
    var order, groups := GroupByContinent(dataset.athletes);
    OrderDistinct(dataset.athletes);
    sheets := [];
    for i := 0 to |order|
      invariant |sheets| == i
      invariant forall j :: 0 <= j < i ==>
                  sheets[j] == SheetOf(order[j], SortByName(InContinent(dataset.athletes, order[j])))
      invariant forall c :: c in groups <==> c in order
      invariant forall j :: i <= j < |order| ==> groups[order[j]] == InContinent(dataset.athletes, order[j])
    {
      var continentName := order[i];
      var athletesInContinent := SortByName(groups[continentName]);
      groups := groups[continentName := athletesInContinent];
      sheets := sheets + [SheetOf(continentName, athletesInContinent)];
    }
  }
}
