/**
 * The market analytics of the dashboard (dashboard/app.py): branch density,
 * underserved cities, the Herfindahl-Hirschman index and its market bands,
 * the expansion-opportunity scores and the state-by-bank competition matrix.
 *
 * The dashboard reads three columns of the cleaned branch table; a row is
 * modelled as the three cells it reads. pandas' `groupby`, `value_counts`
 * and `nunique` leave out missing keys, while `unique` keeps them, and
 * `column == key` is false whenever the key is missing.
 */
module Analytics {
  import opened Wrappers
  import opened Seqs
  import opened Cells

  datatype Branch = Branch(state: Cell, city: Cell, bank: Cell)

  // ---------------------------------------------------------------------
  // Columns and selections

  /** The three columns the dashboard reads. */
  datatype Column = StateColumn | CityColumn | BankColumn

  /** The cell of `b` in column `col`. */
  function Field(b: Branch, col: Column): Cell {
    match col
    case StateColumn => b.state
    case CityColumn => b.city
    case BankColumn => b.bank
  }

  /** `df[col]`: the column's cells, in row order. */
  function ColumnOf(rows: seq<Branch>, col: Column): seq<Cell> {
    Map(b => Field(b, col), rows)
  }

  /** The cells that are not missing, every copy of each, in order (what `dropna` keeps). */
  function Present(cs: seq<Cell>): (r: seq<Cell>)
    ensures |r| <= |cs|
    ensures forall c :: c in r ==> c in cs && !c.IsNA()
    ensures forall c :: multiset(r)[c] == if c.IsNA() then 0 else multiset(cs)[c]
  {
    if cs == [] then []
    else
      var head := if cs[0].IsNA() then [] else [cs[0]];
      var rest := Present(cs[1..]);
      assert cs == [cs[0]] + cs[1..];
      assert multiset(head + rest) == multiset(head) + multiset(rest);
      head + rest
  }

  /** `series.nunique()`: the number of distinct values that are not missing. */
  function NUnique(cs: seq<Cell>): (r: nat)
    ensures r <= |cs|
    ensures r <= |Present(cs)|
  {
    |Unique(Present(cs))|
  }

  /** `nunique` is 0 exactly when every value is missing. */
  lemma NUniqueZero(cs: seq<Cell>)
    ensures NUnique(cs) == 0 <==> forall c :: c in cs ==> c.IsNA()
  {
    var u := Unique(Present(cs));
    UniqueSpec(Present(cs));
    assert u != [] ==> u[0] in u;
    forall c | c in cs && !c.IsNA() ensures c in u {
      assert multiset(Present(cs))[c] > 0;
    }
  }

  /** `df[df[col] == key]`: the rows whose cell in `col` equals `key`, in order. */
  function Where(rows: seq<Branch>, col: Column, key: Cell): (r: seq<Branch>)
    ensures |r| <= |rows|
    ensures forall b :: b in r ==> b in rows && Equals(Field(b, col), key)
  {
    Filter(rows, b => Equals(Field(b, col), key))
  }

  /** `df[df['State'] == state]`. */
  function InState(rows: seq<Branch>, state: Cell): seq<Branch> {
    Where(rows, StateColumn, state)
  }

  /** `df[df['Bank'].isin(selected_banks)]`: the rows whose bank is selected, in order. */
  function SelectBanks(rows: seq<Branch>, selected: seq<Cell>): (r: seq<Branch>)
    ensures |r| <= |rows|
    ensures forall b :: b in r ==> b in rows && b.bank in selected
  {
    Filter(rows, (b: Branch) => b.bank in selected)
  }

  /** Selecting by a key keeps every copy of each matching row and no copy of any other row. */
  lemma WhereExactly(rows: seq<Branch>, col: Column, key: Cell, b: Branch)
    ensures multiset(Where(rows, col, key))[b] == if Equals(Field(b, col), key) then multiset(rows)[b] else 0
  {
    FilterMultiplicity(rows, (c: Branch) => Equals(Field(c, col), key), b);
  }

  /** `isin` keeps every copy of each row whose bank is selected and no copy of any other row. */
  lemma SelectBanksExactly(rows: seq<Branch>, selected: seq<Cell>, b: Branch)
    ensures multiset(SelectBanks(rows, selected))[b] == if b.bank in selected then multiset(rows)[b] else 0
  {
    FilterMultiplicity(rows, (c: Branch) => c.bank in selected, b);
  }

  /** A missing key matches no row. */
  lemma {:induction false} InStateMissing(rows: seq<Branch>, state: Cell)
    requires state.IsNA()
    ensures InState(rows, state) == []
  {
    if rows != [] {
      InStateMissing(rows[1..], state);
    }
  }

  /** Selecting the rows of a state distributes over concatenation. */
  lemma {:induction false} InStateAppend(a: seq<Branch>, b: seq<Branch>, state: Cell)
    ensures InState(a + b, state) == InState(a, state) + InState(b, state)
  {
    if a == [] {
      assert a + b == b;
    } else {
      assert (a + b)[1..] == a[1..] + b;
      InStateAppend(a[1..], b, state);
    }
  }

  /** The rows matching a key that is not missing are as many as the key's occurrences in the column. */
  lemma {:induction false} WhereCount(rows: seq<Branch>, col: Column, key: Cell)
    requires !key.IsNA()
    ensures |Where(rows, col, key)| == Count(ColumnOf(rows, col), key)
  {
    if rows != [] {
      WhereCount(rows[1..], col, key);
      assert ColumnOf(rows, col) == [Field(rows[0], col)] + ColumnOf(rows[1..], col);
    }
  }

  // ---------------------------------------------------------------------
  // calculate_branch_density

  /** The approximate area in square kilometres of each of the fifteen listed states. */
  function ListedArea(name: string): (r: Option<nat>)
    ensures r.Some? ==> r.value > 0
  {
    if name == "Rajasthan" then Some(342239)
    else if name == "Maharashtra" then Some(307713)
    else if name == "Uttar Pradesh" then Some(240928)
    else if name == "Madhya Pradesh" then Some(308245)
    else if name == "Gujarat" then Some(196244)
    else if name == "Karnataka" then Some(191791)
    else if name == "Andhra Pradesh" then Some(160205)
    else if name == "Tamil Nadu" then Some(130060)
    else if name == "Bihar" then Some(94163)
    else if name == "West Bengal" then Some(88752)
    else if name == "Telangana" then Some(112077)
    else if name == "Haryana" then Some(44212)
    else if name == "Punjab" then Some(50362)
    else if name == "Kerala" then Some(38852)
    else if name == "Jharkhand" then Some(79716)
    else None
  }

  /** The area assumed for a state the table does not list. */
  const DefaultArea: nat := 100000

  /** `state_areas.get(state, 100000)`: only a text key can be in the table. */
  function Area(state: Cell): (r: nat)
    ensures r > 0
    ensures state.Text? && ListedArea(state.s).Some? ==> r == ListedArea(state.s).value
    ensures !(state.Text? && ListedArea(state.s).Some?) ==> r == DefaultArea
  {
    match state
    case Text(s) => (match ListedArea(s) case Some(a) => a case None => DefaultArea)
    case _ => DefaultArea
  }

  /**
   * `branch_count / (area / 1000)` before rounding: branches per thousand
   * square kilometres.
   */
  function BranchDensity(rows: seq<Branch>, state: Cell): (r: real)
    ensures r >= 0.0
    ensures r == 0.0 <==> |InState(rows, state)| == 0
    ensures r == 1000.0 * (|InState(rows, state)| as real) / (Area(state) as real)
  {
    PerThousand(|InState(rows, state)|, Area(state))
  }

  /** `count / (area / 1000)`: a count per thousand square kilometres. */
  function PerThousand(n: nat, area: nat): (d: real)
    requires area > 0
    ensures d >= 0.0 && (d == 0.0 <==> n == 0) && d == 1000.0 * (n as real) / (area as real)
  {
    var a := area as real;
    var d := (n as real) / (a / 1000.0);
    assert d * (a / 1000.0) == n as real;
    assert d * a == 1000.0 * (n as real);
    d
  }

  lemma DivAdd(x: real, y: real, q: real)
    requires q > 0.0
    ensures (x + y) / q == x / q + y / q
  {
  }

  /** Density is additive: the branches of two tables together give the sum of their densities. */
  lemma DensityAdditive(a: seq<Branch>, b: seq<Branch>, state: Cell)
    ensures BranchDensity(a + b, state) == BranchDensity(a, state) + BranchDensity(b, state)
  {
    InStateAppend(a, b, state);
    var na, nb := |InState(a, state)| as real, |InState(b, state)| as real;
    assert |InState(a + b, state)| as real == na + nb;
    DivAdd(1000.0 * na, 1000.0 * nb, Area(state) as real);
  }

  /** A missing state has no branches and density 0. */
  lemma DensityOfMissingState(rows: seq<Branch>, state: Cell)
    requires state.IsNA()
    ensures BranchDensity(rows, state) == 0.0
  {
    InStateMissing(rows, state);
  }

  // ---------------------------------------------------------------------
  // find_underserved_cities

  /** One row of `groupby(['State', 'City']).size()`. */
  datatype GroupCount = GroupCount(state: Cell, city: Cell, count: nat)

  /** The (State, City) key of every row whose State and City are both present. */
  function Keys(rows: seq<Branch>): (r: seq<(Cell, Cell)>)
    ensures |r| <= |rows|
    ensures forall k :: k in r ==> !k.0.IsNA() && !k.1.IsNA()
    ensures forall b :: b in rows && !b.state.IsNA() && !b.city.IsNA() ==> (b.state, b.city) in r
  {
    if rows == [] then []
    else
      var b := rows[0];
      var head := if b.state.IsNA() || b.city.IsNA() then [] else [(b.state, b.city)];
      assert forall x :: x in rows ==> x == b || x in rows[1..];
      head + Keys(rows[1..])
  }

  function SizesOf(ks: seq<(Cell, Cell)>, keys: seq<(Cell, Cell)>): (r: seq<GroupCount>)
    ensures |r| == |ks|
    ensures forall i :: 0 <= i < |ks| ==> r[i] == GroupCount(ks[i].0, ks[i].1, Count(keys, ks[i]))
  {
    if ks == [] then [] else [GroupCount(ks[0].0, ks[0].1, Count(keys, ks[0]))] + SizesOf(ks[1..], keys)
  }

  /** `groupby(['State', 'City']).size()`, groups in order of first appearance. */
  function GroupSizes(rows: seq<Branch>): (r: seq<GroupCount>)
    ensures forall g :: g in r ==> g.count >= 1 && !g.state.IsNA() && !g.city.IsNA()
  {
    SizesOfSpec(Keys(rows));
    SizesOf(Unique(Keys(rows)), Keys(rows))
  }

  predicate Below(g: GroupCount, threshold: int) {
    g.count < threshold
  }

  predicate SortedByCount(s: seq<GroupCount>) {
    forall i, j :: 0 <= i < j < |s| ==> s[i].count <= s[j].count
  }

  /** Insert `g` into a list sorted by count, after every entry with a smaller count. */
  function Insert(g: GroupCount, s: seq<GroupCount>): (r: seq<GroupCount>)
    requires SortedByCount(s)
    ensures SortedByCount(r)
    ensures multiset(r) == multiset(s) + multiset{g}
  {
    if s == [] then [g]
    else if g.count <= s[0].count then [g] + s
    else
      var rest := Insert(g, s[1..]);
      assert s == [s[0]] + s[1..];
      AboveHead(s, g, rest);
      [s[0]] + rest
  }

  /** What is inserted behind the head of a sorted list counts no less than the head. */
  lemma AboveHead(s: seq<GroupCount>, g: GroupCount, rest: seq<GroupCount>)
    requires s != [] && SortedByCount(s) && s[0].count <= g.count
    requires multiset(rest) == multiset(s[1..]) + multiset{g}
    ensures forall x :: x in rest ==> s[0].count <= x.count
  {
    forall x | x in rest ensures s[0].count <= x.count {
      assert x in multiset(rest);
      if x != g {
        assert x in multiset(s[1..]);
        var m :| 0 <= m < |s[1..]| && s[1..][m] == x;
        assert s[m + 1] == x;
      }
    }
  }

  /** `sort_values('Branch_Count')`: the same groups, ordered by count. */
  function SortByCount(s: seq<GroupCount>): (r: seq<GroupCount>)
    ensures SortedByCount(r)
    ensures multiset(r) == multiset(s)
  {
    if s == [] then []
    else
      assert s == [s[0]] + s[1..];
      Insert(s[0], SortByCount(s[1..]))
  }

  /** `find_underserved_cities(df, threshold)`. */
  function Underserved(rows: seq<Branch>, threshold: int): (r: seq<GroupCount>)
    ensures SortedByCount(r)
    ensures forall g :: g in r ==> g.count < threshold && g in GroupSizes(rows)
  {
    var f := Filter(GroupSizes(rows), g => Below(g, threshold));
    var r := SortByCount(f);
    SameMembers(r, f);
    r
  }

  /** Sizes taken over a duplicate-free list of exactly the keys that occur. */
  lemma SizesOfSpec(keys: seq<(Cell, Cell)>)
    ensures NoDuplicates(SizesOf(Unique(keys), keys))
    ensures forall g :: g in SizesOf(Unique(keys), keys) <==>
      (g.state, g.city) in keys && g.count == Count(keys, (g.state, g.city))
    ensures forall g :: g in SizesOf(Unique(keys), keys) ==> g.count >= 1
  {
    var ks := Unique(keys);
    UniqueSpec(keys);
    var s := SizesOf(ks, keys);
    forall i, j | 0 <= i < j < |s| ensures s[i] != s[j] {
      assert ks[i] != ks[j];
    }
    forall g | g in s
      ensures (g.state, g.city) in keys && g.count == Count(keys, (g.state, g.city)) && g.count >= 1
    {
      var i :| 0 <= i < |s| && s[i] == g;
      assert ks[i] == (g.state, g.city);
    }
    forall g: GroupCount | (g.state, g.city) in keys && g.count == Count(keys, (g.state, g.city))
      ensures g in s
    {
      var k := (g.state, g.city);
      assert k in ks;
      var i :| 0 <= i < |ks| && ks[i] == k;
      assert s[i] == g;
    }
  }

  /** Each group is reported once, with its key and its row count, and its count is at least 1. */
  lemma GroupSizesSpec(rows: seq<Branch>)
    ensures NoDuplicates(GroupSizes(rows))
    ensures forall g :: g in GroupSizes(rows) <==>
      (g.state, g.city) in Keys(rows) && g.count == Count(Keys(rows), (g.state, g.city))
    ensures forall g :: g in GroupSizes(rows) ==> g.count >= 1
  {
    SizesOfSpec(Keys(rows));
  }

  /**
   * The underserved list is sorted by count and holds exactly the groups
   * whose count is below the threshold, each once; every reported group has
   * at least one branch and a State and City that are both present.
   */
  lemma UnderservedSpec(rows: seq<Branch>, threshold: int)
    ensures SortedByCount(Underserved(rows, threshold))
    ensures forall g :: g in Underserved(rows, threshold) <==>
      (g.state, g.city) in Keys(rows) && g.count == Count(Keys(rows), (g.state, g.city)) && g.count < threshold
    ensures forall g :: g in Underserved(rows, threshold) ==>
      multiset(Underserved(rows, threshold))[g] == 1 && g.count >= 1 && !g.state.IsNA() && !g.city.IsNA()
  {
    var s := GroupSizes(rows);
    var p := g => Below(g, threshold);
    var f := Filter(s, p);
    var u := Underserved(rows, threshold);
    GroupSizesSpec(rows);
    forall g ensures multiset(u)[g] == if g in s && g.count < threshold then 1 else 0 {
      FilterMultiplicity(s, p, g);
      if g in s {
        CountInDistinct(s, g);
      }
    }
  }

  // ---------------------------------------------------------------------
  // calculate_market_concentration

  /** Each count divided by the total: `value_counts(normalize=True)`. */
  function Shares(cs: seq<nat>, total: nat): (r: seq<real>)
    requires total > 0
    ensures |r| == |cs|
  {
    if cs == [] then [] else [(cs[0] as real) / (total as real)] + Shares(cs[1..], total)
  }

  function RealSum(xs: seq<real>): real {
    if xs == [] then 0.0 else xs[0] + RealSum(xs[1..])
  }

  function SquareSum(xs: seq<real>): real {
    if xs == [] then 0.0 else xs[0] * xs[0] + SquareSum(xs[1..])
  }

  /** The bank cells of the state's rows that are not missing: what `value_counts` counts. */
  function StateBanks(rows: seq<Branch>, state: Cell): seq<Cell> {
    Present(ColumnOf(InState(rows, state), BankColumn))
  }

  /** The branch count of each bank present in the state. */
  function BankCounts(rows: seq<Branch>, state: Cell): seq<nat> {
    var vs := StateBanks(rows, state);
    Counts(Unique(vs), vs)
  }

  /** `calculate_market_concentration(df, state)` before rounding: 10000 times the sum of squared shares. */
  function Hhi(rows: seq<Branch>, state: Cell): (r: real)
    ensures 0.0 <= r <= 10000.0
  {
    var n := |StateBanks(rows, state)|;
    if n == 0 then 0.0
    else
      BankCountsSpec(rows, state);
      ScaledSquareShares(BankCounts(rows, state), n);
      CountsIndexBounds(BankCounts(rows, state), n);
      10000.0 * SquareSum(Shares(BankCounts(rows, state), n))
  }

  lemma {:induction false} SharesSum(cs: seq<nat>, total: nat)
    requires total > 0
    ensures RealSum(Shares(cs, total)) == (Sum(cs) as real) / (total as real)
  {
    if cs != [] {
      SharesSum(cs[1..], total);
    }
  }

  lemma {:induction false} SharesSquareSum(cs: seq<nat>, total: nat)
    requires total > 0
    ensures SquareSum(Shares(cs, total)) == (SumOfSquares(cs) as real) / ((total * total) as real)
  {
    if cs != [] {
      SharesSquareSum(cs[1..], total);
      var c, t := cs[0] as real, total as real;
      assert (c / t) * (c / t) == (c * c) / (t * t);
    }
  }

  /** Every bank present has a positive count, and the counts add up to the banks' rows. */
  lemma BankCountsSpec(rows: seq<Branch>, state: Cell)
    ensures Sum(BankCounts(rows, state)) == |StateBanks(rows, state)|
    ensures forall i :: 0 <= i < |BankCounts(rows, state)| ==> BankCounts(rows, state)[i] > 0
  {
    CountsOfUnique(StateBanks(rows, state));
  }

  lemma SharesOfTotal(cs: seq<nat>, n: nat)
    requires n > 0 && Sum(cs) == n
    ensures RealSum(Shares(cs, n)) == 1.0
  {
    SharesSum(cs, n);
  }

  /** The shares of the banks present add up to 1 whenever the state has a bank. */
  lemma SharesSumToOne(rows: seq<Branch>, state: Cell)
    requires |StateBanks(rows, state)| > 0
    ensures RealSum(Shares(BankCounts(rows, state), |StateBanks(rows, state)|)) == 1.0
  {
    BankCountsSpec(rows, state);
    SharesOfTotal(BankCounts(rows, state), |StateBanks(rows, state)|);
  }

  /** The index computed from whole counts: 10000 times the sum of squared counts over the squared total. */
  function CountsIndex(cs: seq<nat>, n: nat): real
    requires n > 0
  {
    10000.0 * (SumOfSquares(cs) as real) / ((n * n) as real)
  }

  lemma ScaledSquareShares(cs: seq<nat>, n: nat)
    requires n > 0
    ensures 10000.0 * SquareSum(Shares(cs, n)) == CountsIndex(cs, n)
  {
    SharesSquareSum(cs, n);
    ScaleDiv(SumOfSquares(cs) as real, (n * n) as real);
  }

  lemma ScaleDiv(q: real, m: real)
    requires m > 0.0
    ensures 10000.0 * (q / m) == 10000.0 * q / m
  {
  }

  /**
   * Positive counts adding up to `n` give an index in (0, 10000], equal to
   * 10000 exactly when there is a single count.
   */
  lemma CountsIndexBounds(cs: seq<nat>, n: nat)
    requires n > 0 && Sum(cs) == n
    requires forall i :: 0 <= i < |cs| ==> cs[i] > 0
    ensures 0.0 < CountsIndex(cs, n) <= 10000.0
    ensures CountsIndex(cs, n) == 10000.0 <==> |cs| == 1
  {
    SquaresAtMostSquare(cs);
    assert cs != [];
    SquaresPositive(cs);
    var q, m := SumOfSquares(cs) as real, (n * n) as real;
    assert 0.0 < q <= m;
    if |cs| == 1 {
      assert Sum(cs) == cs[0];
      assert q == m;
    } else {
      SquaresBelowSquare(cs);
      assert q < m;
    }
    HhiRatio(q, m);
  }

  /**
   * Merging two banks with branches into one strictly raises the index over
   * the same total; in particular merging two equal shares does.
   */
  lemma MergeRaises(a: nat, b: nat, rest: seq<nat>, n: nat)
    requires a > 0 && b > 0 && n > 0
    ensures CountsIndex([a + b] + rest, n) > CountsIndex([a, b] + rest, n)
  {
    assert ([a + b] + rest)[1..] == rest;
    assert ([a, b] + rest)[1..] == [b] + rest;
    assert ([b] + rest)[1..] == rest;
    var merged := SumOfSquares([a + b] + rest);
    var split := SumOfSquares([a, b] + rest);
    assert merged == (a + b) * (a + b) + SumOfSquares(rest);
    assert SumOfSquares([b] + rest) == b * b + SumOfSquares(rest);
    assert split == a * a + SumOfSquares([b] + rest);
    assert (a + b) * (a + b) == a * a + b * b + 2 * a * b;
    assert a * b > 0;
    DivideMonotone(10000.0 * (split as real), 10000.0 * (merged as real), (n * n) as real);
  }

  lemma DivideMonotone(x: real, y: real, m: real)
    requires x < y && m > 0.0
    ensures x / m < y / m
  {
  }

  /**
   * Two tables whose banks in a state differ only in that two banks with
   * branches are merged into one: the merged table has the higher index.
   */
  lemma MergeRaisesHhi(split: seq<Branch>, merged: seq<Branch>, state: Cell, a: nat, b: nat, rest: seq<nat>)
    requires a > 0 && b > 0
    requires BankCounts(split, state) == [a, b] + rest
    requires BankCounts(merged, state) == [a + b] + rest
    ensures Hhi(merged, state) > Hhi(split, state)
  {
    HhiOfCounts(split, state);
    HhiOfCounts(merged, state);
    MergeKeepsTotal(a, b, rest);
  }

  /** A state with banks has the index of its bank counts over their total. */
  lemma HhiOfCounts(rows: seq<Branch>, state: Cell)
    ensures |StateBanks(rows, state)| == Sum(BankCounts(rows, state))
    ensures Sum(BankCounts(rows, state)) > 0 ==>
      Hhi(rows, state) == CountsIndex(BankCounts(rows, state), Sum(BankCounts(rows, state)))
  {
    BankCountsSpec(rows, state);
    if |StateBanks(rows, state)| > 0 {
      HhiIntegerForm(rows, state);
    }
  }

  lemma MergeKeepsTotal(a: nat, b: nat, rest: seq<nat>)
    requires a > 0 && b > 0
    ensures Sum([a + b] + rest) == Sum([a, b] + rest) > 0
    ensures CountsIndex([a + b] + rest, Sum([a, b] + rest)) > CountsIndex([a, b] + rest, Sum([a, b] + rest))
  {
    assert ([a, b] + rest)[1..] == [b] + rest;
    assert ([b] + rest)[1..] == rest;
    assert ([a + b] + rest)[1..] == rest;
    MergeRaises(a, b, rest, Sum([a, b] + rest));
  }

  /** A state whose two banks have five and three branches has index 5312.5. */
  lemma FiveToThree(rows: seq<Branch>, state: Cell)
    requires BankCounts(rows, state) == [5, 3]
    ensures Hhi(rows, state) == 5312.5
  {
    HhiOfCounts(rows, state);
    FiveToThreeIndex();
  }

  lemma FiveToThreeIndex()
    ensures Sum([5, 3]) == 8 && CountsIndex([5, 3], 8) == 5312.5
  {
    assert [5, 3][1..] == [3] && [3][1..] == [];
    assert SumOfSquares([5, 3]) == 34;
  }

  lemma HhiRatio(q: real, m: real)
    requires 0.0 < q <= m
    ensures 0.0 < 10000.0 * q / m <= 10000.0
    ensures 10000.0 * q / m == 10000.0 <==> q == m
  {
  }

  /** The index of a state with banks, as exact whole counts. */
  lemma HhiIntegerForm(rows: seq<Branch>, state: Cell)
    requires |StateBanks(rows, state)| > 0
    ensures Hhi(rows, state) == CountsIndex(BankCounts(rows, state), |StateBanks(rows, state)|)
  {
    HhiOfShares(rows, state);
    ScaledSquareShares(BankCounts(rows, state), |StateBanks(rows, state)|);
  }

  lemma HhiOfShares(rows: seq<Branch>, state: Cell)
    requires |StateBanks(rows, state)| > 0
    ensures Hhi(rows, state) == 10000.0 * SquareSum(Shares(BankCounts(rows, state), |StateBanks(rows, state)|))
  {
  }

  /**
   * With at least one bank present the index lies in (0, 10000], and it is
   * 10000 exactly when a single bank is present; with none it is 0.
   */
  lemma HhiBounds(rows: seq<Branch>, state: Cell)
    ensures |StateBanks(rows, state)| == 0 ==> Hhi(rows, state) == 0.0
    ensures |StateBanks(rows, state)| > 0 ==> 0.0 < Hhi(rows, state) <= 10000.0
    ensures |StateBanks(rows, state)| > 0 ==>
      (Hhi(rows, state) == 10000.0 <==> |Unique(StateBanks(rows, state))| == 1)
  {
    var n := |StateBanks(rows, state)|;
    if n > 0 {
      BankCountsSpec(rows, state);
      HhiIntegerForm(rows, state);
      CountsIndexBounds(BankCounts(rows, state), n);
    }
  }

  /** A state without rows, a missing state among them, has index 0: the share series is empty. */
  lemma HhiOfNoRows(rows: seq<Branch>, state: Cell)
    requires InState(rows, state) == []
    ensures Hhi(rows, state) == 0.0
  {
  }

  // ---------------------------------------------------------------------
  // The "Market Type" band

  datatype MarketType = Competitive | Moderate | Concentrated

  /** `'Competitive' if hhi < 1500 else 'Moderate' if hhi < 2500 else 'Concentrated'`. */
  function Band(hhi: real): (r: MarketType)
    ensures r == Competitive <==> hhi < 1500.0
    ensures r == Moderate <==> 1500.0 <= hhi < 2500.0
    ensures r == Concentrated <==> 2500.0 <= hhi
  {
    if hhi < 1500.0 then Competitive else if hhi < 2500.0 then Moderate else Concentrated
  }

  function Rank(m: MarketType): nat {
    match m
    case Competitive => 0
    case Moderate => 1
    case Concentrated => 2
  }

  /** A higher index never falls into a less concentrated band. */
  lemma BandMonotone(h1: real, h2: real)
    requires h1 <= h2
    ensures Rank(Band(h1)) <= Rank(Band(h2))
  {
  }

  /** A single bank present makes the market concentrated. */
  lemma MonopolyConcentrated(rows: seq<Branch>, state: Cell)
    requires |Unique(StateBanks(rows, state))| == 1
    ensures Band(Hhi(rows, state)) == Concentrated
  {
    var u := Unique(StateBanks(rows, state));
    UniqueSpec(StateBanks(rows, state));
    assert u[0] in StateBanks(rows, state);
    HhiBounds(rows, state);
  }

  // ---------------------------------------------------------------------
  // The expansion-opportunity scores

  datatype Opportunity = Opportunity(state: Cell, score: nat, branches: nat, banks: nat, cities: nat, hhi: real)

  /** 30 points for 10 to 50 branches, 10 for fewer, none for more. */
  function BranchPoints(branches: nat): nat {
    if 10 <= branches <= 50 then 30 else if branches < 10 then 10 else 0
  }

  /** 20 points for more than five cities. */
  function CityPoints(cities: nat): nat {
    if cities > 5 then 20 else 0
  }

  /** 25 points for fewer than five banks. */
  function BankPoints(banks: nat): nat {
    if banks < 5 then 25 else 0
  }

  /** 25 points for a concentrated market, an index above 2500. */
  function HhiPoints(hhi: real): nat {
    if hhi > 2500.0 then 25 else 0
  }

  /** The score: the four contributions added up; it lies in [0, 100] and is a multiple of 5. */
  function Score(branches: nat, cities: nat, banks: nat, hhi: real): (r: nat)
    ensures r <= 100 && r % 5 == 0
  {
    BranchPoints(branches) + CityPoints(cities) + BankPoints(banks) + HhiPoints(hhi)
  }

  /** The body of the loop: the score accumulated one criterion at a time. */
  method ScoreOf(branchCount: nat, cities: nat, bankCount: nat, hhi: real) returns (score: nat)
    ensures score == Score(branchCount, cities, bankCount, hhi)
  {
    score := 0;
    if 10 <= branchCount <= 50 {
      score := score + 30;
    } else if branchCount < 10 {
      score := score + 10;
    }
    if cities > 5 {
      score := score + 20;
    }
    if bankCount < 5 {
      score := score + 25;
    }
    if hhi > 2500.0 {
      score := score + 25;
    }
  }

  /** The record the loop appends for `state`. */
  function OpportunityOf(rows: seq<Branch>, state: Cell): (r: Opportunity)
    ensures r.state == state && r.branches == |InState(rows, state)|
    ensures r.banks <= r.branches && r.cities <= r.branches
    ensures 0.0 <= r.hhi <= 10000.0
    ensures r.score <= 100 && r.score % 5 == 0
  {
    var here := InState(rows, state);
    var branches := |here|;
    var banks := NUnique(ColumnOf(here, BankColumn));
    var cities := NUnique(ColumnOf(here, CityColumn));
    var hhi := Hhi(rows, state);
    Opportunity(state, Score(branches, cities, banks, hhi), branches, banks, cities, hhi)
  }

  /** One pass of the loop body: the counts, the index and the score of one state. */
  method StateOpportunity(rows: seq<Branch>, state: Cell) returns (record: Opportunity)
    ensures record == OpportunityOf(rows, state)
  {
    var stateRows := InState(rows, state);
    var branchCount := |stateRows|;
    var bankCount := NUnique(ColumnOf(stateRows, BankColumn));
    var cities := NUnique(ColumnOf(stateRows, CityColumn));
    var hhi := Hhi(rows, state);
    var score := ScoreOf(branchCount, cities, bankCount, hhi);
    record := Opportunity(state, score, branchCount, bankCount, cities, hhi);
  }

  /** The records for the states `ss`, in order. */
  function Opportunities(rows: seq<Branch>, ss: seq<Cell>): seq<Opportunity> {
    Map(s => OpportunityOf(rows, s), ss)
  }

  /** The loop over the given states: one record each, appended in order. */
  method ScoreStates(rows: seq<Branch>, states: seq<Cell>) returns (scores: seq<Opportunity>)
    ensures scores == Opportunities(rows, states)
  {
    scores := [];
    for i := 0 to |states|
      invariant scores == Opportunities(rows, states[..i])
    {
      var record := StateOpportunity(rows, states[i]);
      assert states[..i + 1][..i] == states[..i];
      scores := scores + [record];
    }
    assert states[..|states|] == states;
  }

  /**
   * The loop over `filtered_df['State'].unique()`: one record per distinct
   * State value, missing values included, in order of first appearance.
   */
  method ExpansionScores(rows: seq<Branch>) returns (scores: seq<Opportunity>)
    ensures scores == Opportunities(rows, Unique(ColumnOf(rows, StateColumn)))
  {
    scores := ScoreStates(rows, Unique(ColumnOf(rows, StateColumn)));
  }

  /** Every distinct State value gets exactly one record, in order of first appearance. */
  lemma ExpansionScoresCover(rows: seq<Branch>)
    ensures var states := Unique(ColumnOf(rows, StateColumn));
      var scores := Opportunities(rows, states);
      && |scores| == |states|
      && (forall i :: 0 <= i < |scores| ==> scores[i] == OpportunityOf(rows, states[i]))
      && (forall s :: s in ColumnOf(rows, StateColumn) <==> s in states)
      && NoDuplicates(states)
  {
    UniqueSpec(ColumnOf(rows, StateColumn));
  }

  /** The counts of a record never exceed its branch count; a state that occurs has a branch. */
  lemma OpportunityCounts(rows: seq<Branch>, state: Cell)
    ensures var o := OpportunityOf(rows, state);
      o.banks <= o.branches && o.cities <= o.branches
    ensures !state.IsNA() && state in ColumnOf(rows, StateColumn) ==> OpportunityOf(rows, state).branches >= 1
  {
    if !state.IsNA() && state in ColumnOf(rows, StateColumn) {
      var i :| 0 <= i < |rows| && ColumnOf(rows, StateColumn)[i] == state;
      InStateHas(rows, state, i);
    }
  }

  lemma {:induction false} InStateHas(rows: seq<Branch>, state: Cell, i: nat)
    requires i < |rows| && Equals(rows[i].state, state)
    ensures rows[i] in InState(rows, state)
  {
    if i > 0 {
      InStateHas(rows[1..], state, i - 1);
    }
  }

  /**
   * `unique()` keeps a missing State, but `== state` matches no row for it:
   * its record has no branches, banks or cities, index 0 and score 35.
   */
  lemma MissingStateOpportunity(rows: seq<Branch>, state: Cell)
    requires state.IsNA()
    ensures OpportunityOf(rows, state) == Opportunity(state, 35, 0, 0, 0, 0.0)
  {
    InStateMissing(rows, state);
  }

  // ---------------------------------------------------------------------
  // The competition matrix

  /** One row of the matrix: a state, its count for each selected bank, and its total. */
  datatype MatrixRow = MatrixRow(state: Cell, counts: seq<nat>, total: nat)

  /** `len(state_data[state_data['Bank'] == bank])`. */
  function BankCount(rows: seq<Branch>, state: Cell, bank: Cell): nat {
    |Where(InState(rows, state), BankColumn, bank)|
  }

  /** The per-bank counts of one state, in the order of the selected banks. */
  function RowCounts(rows: seq<Branch>, state: Cell, banks: seq<Cell>): (r: seq<nat>)
    ensures |r| == |banks|
    ensures forall j :: 0 <= j < |banks| ==> r[j] == BankCount(rows, state, banks[j])
  {
    if banks == [] then [] else [BankCount(rows, state, banks[0])] + RowCounts(rows, state, banks[1..])
  }

  /** The matrix row of one state: its count for each selected bank, and its total. */
  function MatrixRowOf(rows: seq<Branch>, selected: seq<Cell>, state: Cell): MatrixRow {
    MatrixRow(state, RowCounts(rows, state, selected), |InState(rows, state)|)
  }

  /** The rows of the matrix for the states `ss`, in order. */
  function Matrix(rows: seq<Branch>, selected: seq<Cell>, ss: seq<Cell>): seq<MatrixRow> {
    Map(s => MatrixRowOf(rows, selected, s), ss)
  }

  /** The inner loop: the count of every selected bank among the state's rows, then the total. */
  method StateRow(rows: seq<Branch>, state: Cell, selected: seq<Cell>) returns (row: MatrixRow)
    ensures row.state == state && row.total == |InState(rows, state)|
    ensures |row.counts| == |selected|
    ensures forall j :: 0 <= j < |selected| ==> row.counts[j] == BankCount(rows, state, selected[j])
  {
    var stateData := InState(rows, state);
    var counts := [];
    for j := 0 to |selected|
      invariant |counts| == j
      invariant forall k :: 0 <= k < j ==> counts[k] == BankCount(rows, state, selected[k])
    {
      var bankCount := |Where(stateData, BankColumn, selected[j])|;
      counts := counts + [bankCount];
    }
    row := MatrixRow(state, counts, |stateData|);
  }

  /**
   * The loop over the top states: for each, the count of every selected
   * bank and the state's total.
   */
  method CompetitionMatrix(rows: seq<Branch>, topStates: seq<Cell>, selected: seq<Cell>)
    returns (matrix: seq<MatrixRow>)
    ensures |matrix| == |topStates|
    ensures forall i :: 0 <= i < |matrix| ==>
      matrix[i] == MatrixRow(topStates[i], RowCounts(rows, topStates[i], selected), |InState(rows, topStates[i])|)
  {
    matrix := [];
    for i := 0 to |topStates|
      invariant matrix == Matrix(rows, selected, topStates[..i])
    {
      var row := StateRow(rows, topStates[i], selected);
      assert row.counts == RowCounts(rows, topStates[i], selected);
      assert topStates[..i + 1][..i] == topStates[..i];
      matrix := matrix + [row];
    }
    assert topStates[..|topStates|] == topStates;
  }

  /**
   * On the rows of the selected banks, a state's total is the sum of its
   * per-bank counts, provided the selection names each bank once and no
   * missing bank.
   */
  lemma MatrixTotals(rows: seq<Branch>, state: Cell, selected: seq<Cell>)
    requires NoDuplicates(selected)
    requires forall c :: c in selected ==> !c.IsNA()
    ensures var kept := SelectBanks(rows, selected);
      |InState(kept, state)| == Sum(RowCounts(kept, state, selected))
  {
    var kept := SelectBanks(rows, selected);
    var here := InState(kept, state);
    var vs := ColumnOf(here, BankColumn);
    forall c | c in vs ensures c in selected {
      var i :| 0 <= i < |vs| && vs[i] == c;
      assert here[i] in here;
    }
    SumCountsCover(selected, vs);
    assert RowCounts(kept, state, selected) == Counts(selected, vs) by {
      forall j | 0 <= j < |selected|
        ensures RowCounts(kept, state, selected)[j] == Counts(selected, vs)[j]
      {
        WhereCount(here, BankColumn, selected[j]);
      }
    }
  }
}
