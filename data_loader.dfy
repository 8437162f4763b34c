/**
 * `BankDataLoader` (data/data_loader.py): the cleaning a freshly read branch
 * table goes through (`_clean_dataframe`) and the row filter the dashboard
 * uses (`filter_data`).
 *
 * A table is a pandas frame: a list of column labels and rows holding one
 * cell per column. Cleaning is specified by the pure function `CleanTable`
 * and carried out in place by `Frame.Clean`, step by step as the source does.
 */
module DataLoader {
  import opened Wrappers
  import opened Seqs
  import opened Cells
  import opened PyStr
  import opened Pincode

  datatype Table = Table(columns: seq<string>, rows: seq<seq<Cell>>)

  predicate Rectangular(t: Table) {
    forall r :: r in t.rows ==> |r| == |t.columns|
  }

  /**
   * The exception `_clean_dataframe` lets escape: pandas raises when a label
   * it reads (`df['Latitude']`, `df['Address']`, `df['State']`, ...) names
   * more than one column.
   */
  datatype LoadError = AmbiguousColumn(name: string)

  /** What `df[name]` selects: nothing, one column, or several. */
  datatype ColumnRef = Absent | Single(index: nat) | Several

  /** Position of the first column labelled `name`. */
  function IndexOf(cols: seq<string>, name: string): (r: nat)
    requires name in cols
    ensures r < |cols| && cols[r] == name
    ensures forall k :: 0 <= k < r ==> cols[k] != name
  {
    if cols[0] == name then 0 else 1 + IndexOf(cols[1..], name)
  }

  /** The first position holding `name` is the one `IndexOf` finds. */
  lemma IndexOfAt(cols: seq<string>, name: string, r: nat)
    requires r < |cols| && cols[r] == name
    requires forall k :: 0 <= k < r ==> cols[k] != name
    ensures IndexOf(cols, name) == r
  {
    var q := IndexOf(cols, name);
    assert q <= r && cols[q] == name;
  }

  function Resolve(cols: seq<string>, name: string): (r: ColumnRef)
    ensures r.Absent? <==> name !in cols
    ensures r.Several? <==> Count(cols, name) >= 2
    ensures r.Single? ==> name in cols && r.index == IndexOf(cols, name)
  {
    if name !in cols then Absent
    else if Count(cols, name) == 1 then Single(IndexOf(cols, name))
    else Several
  }

  /** The cell of `row` in column `i`. */
  function Get(row: seq<Cell>, i: nat): Cell {
    if i < |row| then row[i] else Missing
  }

  function Put(row: seq<Cell>, i: nat, c: Cell): (r: seq<Cell>)
    ensures |r| == |row|
    ensures i < |row| ==> Get(r, i) == c
    ensures forall j :: j != i ==> Get(r, j) == Get(row, j)
  {
    if i < |row| then row[i := c] else row
  }

  // ---------------------------------------------------------------------
  // Step 1: column labels

  /** `name.strip().replace('_', ' ').title()`. */
  function Canonical(name: string): string {
    Title(Underscores(Strip(name)))
  }

  /** The fixed rename table, in the order the loop visits it. */
  const Renames: seq<(string, string)> :=
    [("Bank Name", "Bank"), ("Branch Name", "Branch"), ("Location Type", "Type")]

  /** What one label becomes after every rename of `table` has been applied in turn. */
  function RenameLabel(name: string, table: seq<(string, string)>): string
    decreases |table|
  {
    if table == [] then name
    else RenameLabel(if name == table[0].0 then table[0].1 else name, table[1..])
  }

  /** The label a column named `name` ends up with; no label keeps a name the table renames. */
  function StandardName(name: string): (r: string)
    ensures r != "Bank Name" && r != "Branch Name" && r != "Location Type"
  {
    RenameCases(Canonical(name));
    RenameLabel(Canonical(name), Renames)
  }

  /** `df.rename(columns={from: to})`: every column labelled `from` is relabelled. */
  function RenameAll(cols: seq<string>, from: string, to: string): (r: seq<string>)
    ensures |r| == |cols|
  {
    seq(|cols|, i requires 0 <= i < |cols| => if cols[i] == from then to else cols[i])
  }

  function ApplyRenames(cols: seq<string>, table: seq<(string, string)>): seq<string>
    decreases |table|
  {
    if table == [] then cols
    else
      var from, to := table[0].0, table[0].1;
      ApplyRenames(if from in cols then RenameAll(cols, from, to) else cols, table[1..])
  }

  function CanonicalColumns(cols: seq<string>): (r: seq<string>)
    ensures |r| == |cols|
  {
    seq(|cols|, i requires 0 <= i < |cols| => Canonical(cols[i]))
  }

  /**
   * The labels after line 44 and the rename loop: the loop relabels each
   * column on its own, so column `i` gets `StandardName` of its old label.
   */
  function StandardColumns(cols: seq<string>): (r: seq<string>)
    ensures |r| == |cols|
    ensures forall i :: 0 <= i < |cols| ==> r[i] == StandardName(cols[i])
  {
    ApplyRenamesPointwise(CanonicalColumns(cols), Renames);
    ApplyRenames(CanonicalColumns(cols), Renames)
  }

  lemma {:induction false} ApplyRenamesPointwise(cols: seq<string>, table: seq<(string, string)>)
    ensures |ApplyRenames(cols, table)| == |cols|
    ensures forall i :: 0 <= i < |cols| ==> ApplyRenames(cols, table)[i] == RenameLabel(cols[i], table)
    decreases |table|
  {
    if table != [] {
      var from, to := table[0].0, table[0].1;
      var next := if from in cols then RenameAll(cols, from, to) else cols;
      ApplyRenamesPointwise(next, table[1..]);
    }
  }

  /** The rename table in closed form. */
  lemma RenameCases(c: string)
    ensures RenameLabel(c, Renames) == (if c == "Bank Name" then "Bank"
                                        else if c == "Branch Name" then "Branch"
                                        else if c == "Location Type" then "Type"
                                        else c)
  {
  }

  lemma StandardNameCases(name: string)
    ensures var c := Canonical(name);
      StandardName(name) == (if c == "Bank Name" then "Bank"
                             else if c == "Branch Name" then "Branch"
                             else if c == "Location Type" then "Type"
                             else c)
  {
    RenameCases(Canonical(name));
  }

  /** A label the table renames, or renames to, has no whitespace at either end. */
  lemma RenameLabelsStripped()
    ensures IsStripped("Bank Name") && IsStripped("Branch Name") && IsStripped("Location Type")
    ensures IsStripped("Bank") && IsStripped("Branch") && IsStripped("Type")
  {
  }

  /** Renaming a stripped label gives a stripped label. */
  lemma RenameKeepsStripped(x: string)
    requires IsStripped(x)
    ensures IsStripped(RenameLabel(x, Renames))
  {
    RenameCases(x);
    RenameLabelsStripped();
  }

  /** A rename target is left alone by the rename table. */
  lemma RenameFixesTargets()
    ensures RenameLabel("Bank", Renames) == "Bank"
    ensures RenameLabel("Branch", Renames) == "Branch"
    ensures RenameLabel("Type", Renames) == "Type"
  {
    RenameCases("Bank");
    RenameCases("Branch");
    RenameCases("Type");
  }

  lemma TitleNoUnderscore(s: string)
    requires '_' !in s
    ensures '_' !in Title(s)
  {
    forall i | 0 <= i < |s| ensures Title(s)[i] != '_' {
      assert s[i] != '_';
    }
  }

  /** A canonical label put through the canonical form again is only stripped. */
  lemma {:induction false} CanonicalTwice(name: string)
    ensures Canonical(Canonical(name)) == Strip(Canonical(name))
  {
    var u := Underscores(Strip(name));
    var m := Title(u);
    assert Canonical(name) == m;
    TitleNoUnderscore(u);
    var sm := Strip(m);
    assert '_' !in sm by {
      if '_' in sm { StripKeeps(m, '_'); }
    }
    assert Underscores(sm) == sm;
    assert Canonical(m) == Title(sm);
    StripTitle(u);
    assert sm == Title(Strip(u));
    TitleIdempotent(Strip(u));
  }

  /** A label that is already stripped, free of underscores and title-cased is its own canonical form. */
  lemma CanonicalFixed(name: string)
    requires IsStripped(name) && '_' !in name && Title(name) == name
    ensures Canonical(name) == name
  {
    StripStripped(name);
    assert Underscores(name) == name;
  }

  /** A capital letter followed by lower-case letters is its own canonical form. */
  lemma CapitalisedFixed(w: string)
    requires w != [] && IsUpperLetter(w[0])
    requires forall i :: 1 <= i < |w| ==> IsLowerLetter(w[i])
    ensures Canonical(w) == w
  {
    assert Title(w) == w by {
      forall i | 0 <= i < |w| ensures Title(w)[i] == w[i] {
        if i > 0 { assert IsCased(w[i - 1]); }
      }
    }
    CanonicalFixed(w);
  }

  lemma StandardBank()
    ensures StandardName("Bank") == "Bank"
  {
    CapitalisedFixed("Bank");
    RenameCases("Bank");
  }

  lemma StandardBranch()
    ensures StandardName("Branch") == "Branch"
  {
    CapitalisedFixed("Branch");
    RenameCases("Branch");
  }

  lemma StandardType()
    ensures StandardName("Type") == "Type"
  {
    CapitalisedFixed("Type");
    RenameCases("Type");
  }

  /** A label the table renames is stripped, and the name it gets is standard already. */
  lemma RenamedFixed(c: string)
    requires RenameLabel(c, Renames) != c
    ensures IsStripped(c) && StandardName(RenameLabel(c, Renames)) == RenameLabel(c, Renames)
  {
    RenameCases(c);
    RenameLabelsStripped();
    if c == "Bank Name" {
      StandardBank();
    } else if c == "Branch Name" {
      StandardBranch();
    } else {
      StandardType();
    }
  }

  /** A label whose canonical form has whitespace at an end changes on a second pass. */
  lemma PaddedTwice(name: string)
    requires !IsStripped(Canonical(name))
    ensures StandardName(StandardName(name)) != StandardName(name)
  {
    var c := Canonical(name);
    RenameLabelsStripped();
    StandardNameCases(name);
    assert StandardName(name) == c;
    CanonicalTwice(name);
    RenameKeepsStripped(Strip(c));
  }

  /**
   * Standardising a standard label again changes it exactly when the
   * canonical form kept whitespace at an end: the labels are stripped BEFORE
   * underscores become spaces, so a leading or trailing underscore survives
   * as a space.
   */
  lemma StandardNameIdempotent(name: string)
    ensures StandardName(StandardName(name)) == StandardName(name) <==> IsStripped(Canonical(name))
  {
    var c := Canonical(name);
    if StandardName(name) != c {
      RenamedFixed(c);
    } else if IsStripped(c) {
      CanonicalTwice(name);
      StripStripped(c);
    } else {
      PaddedTwice(name);
    }
  }

  lemma BankNameLiterals()
    ensures "_bank_name_" == ['_'] + "bank_name" + ['_']
    ensures " Bank Name " == [' '] + "Bank Name" + [' ']
    ensures Underscores("bank_name") == "bank name"
    ensures Underscores("Bank Name") == "Bank Name"
  {
  }

  lemma TitleBankName()
    ensures Title("bank name") == "Bank Name"
    ensures Title("Bank Name") == "Bank Name"
  {
    var l, t := "bank name", "Bank Name";
    forall i | 0 <= i < |t| ensures Title(l)[i] == t[i] && Title(t)[i] == t[i] {
      if i > 0 && i != 5 { assert IsCased(l[i - 1]) && IsCased(t[i - 1]); }
    }
  }

  lemma PaddedCanonical()
    ensures Canonical("_bank_name_") == " Bank Name "
  {
    BankNameLiterals();
    StripStripped("_bank_name_");
    UnderscoresPadded("bank_name");
    TitlePadded("bank name");
    TitleBankName();
  }

  lemma PaddedRecanonical()
    ensures Canonical(" Bank Name ") == "Bank Name"
  {
    BankNameLiterals();
    StripPadded("Bank Name");
    TitleBankName();
  }

  /** "_bank_name_" becomes " Bank Name ", which misses the rename; a second pass would give "Bank". */
  lemma UnderscorePaddedLabel()
    ensures StandardName("_bank_name_") == " Bank Name "
    ensures StandardName(" Bank Name ") == "Bank"
  {
    PaddedCanonical();
    RenameCases(" Bank Name ");
    PaddedRecanonical();
    RenameCases("Bank Name");
  }

  // ---------------------------------------------------------------------
  // Step 2: coordinates

  /** The bounding box the loader accepts, bounds included. */
  predicate InIndia(lat: real, lng: real) {
    6.0 <= lat <= 37.0 && 68.0 <= lng <= 97.0
  }

  /** The row filter of lines 63-70: both coordinates numeric and inside the box. */
  predicate InBox(row: seq<Cell>, lat: nat, lng: nat) {
    Get(row, lat).Number? && Get(row, lng).Number? && InIndia(Get(row, lat).x, Get(row, lng).x)
  }

  /** `df[col] = pd.to_numeric(df[col], errors='coerce')` for column `i`. */
  function CoerceColumn(rows: seq<seq<Cell>>, i: nat, parse: string -> Option<real>): (r: seq<seq<Cell>>)
    ensures |r| == |rows|
  {
    seq(|rows|, k requires 0 <= k < |rows| => Put(rows[k], i, ToNumeric(Get(rows[k], i), parse)))
  }

  /**
   * Lines 58-70: when both coordinate columns exist, coerce them to numbers
   * and keep the rows inside the box; otherwise leave the table alone.
   */
  function Geofence(t: Table, parse: string -> Option<real>): (r: Result<Table, LoadError>)
    ensures r.Err? <==> ("Latitude" in t.columns && "Longitude" in t.columns
                         && (Count(t.columns, "Latitude") >= 2 || Count(t.columns, "Longitude") >= 2))
    ensures r.Err? ==> Count(t.columns, r.error.name) >= 2
    ensures r.Ok? ==> r.value.columns == t.columns && |r.value.rows| <= |t.rows|
  {
    if "Latitude" in t.columns && "Longitude" in t.columns then
      match Resolve(t.columns, "Latitude")
      case Single(i) =>
        (match Resolve(t.columns, "Longitude")
         case Single(j) =>
           var coerced := CoerceColumn(CoerceColumn(t.rows, i, parse), j, parse);
           Ok(Table(t.columns, Filter(coerced, row => InBox(row, i, j))))
         case _ => Err(AmbiguousColumn("Longitude")))
      case _ => Err(AmbiguousColumn("Latitude"))
    else Ok(t)
  }

  /** Every row has numeric in-box coordinates under the table's own Latitude and Longitude labels. */
  predicate Geofenced(t: Table) {
    "Latitude" in t.columns && "Longitude" in t.columns
    && forall r :: r in t.rows ==> InBox(r, IndexOf(t.columns, "Latitude"), IndexOf(t.columns, "Longitude"))
  }

  /**
   * The geofence keeps exactly the coerced rows inside the box, every copy of
   * each, in their original order; coercion touches only the two coordinate
   * cells of a row.
   */
  lemma GeofenceKeepsExactly(t: Table, parse: string -> Option<real>, i: nat, j: nat)
    requires Resolve(t.columns, "Latitude") == Single(i) && Resolve(t.columns, "Longitude") == Single(j)
    ensures Geofence(t, parse).Ok?
    ensures var coerced := CoerceColumn(CoerceColumn(t.rows, i, parse), j, parse);
      var kept := Geofence(t, parse).value;
      && kept.columns == t.columns
      && IsSubseq(kept.rows, coerced)
      && (forall r :: r in kept.rows ==> InBox(r, i, j))
      && (forall r :: InBox(r, i, j) ==> multiset(kept.rows)[r] == multiset(coerced)[r])
      && (forall k, c :: 0 <= k < |t.rows| && c != i && c != j ==> Get(coerced[k], c) == Get(t.rows[k], c))
      && (forall k :: 0 <= k < |t.rows| ==>
            Get(coerced[k], i) == ToNumeric(Get(t.rows[k], i), parse)
            && Get(coerced[k], j) == ToNumeric(Get(t.rows[k], j), parse))
  {
    var coerced := CoerceColumn(CoerceColumn(t.rows, i, parse), j, parse);
    var p := row => InBox(row, i, j);
    FilterIsSubseq(coerced, p);
    forall r | InBox(r, i, j) ensures multiset(Filter(coerced, p))[r] == multiset(coerced)[r] {
      FilterMultiplicity(coerced, p, r);
    }
    assert i != j by { assert t.columns[i] != t.columns[j]; }
  }

  lemma GeofenceEstablishes(t: Table, parse: string -> Option<real>)
    requires "Latitude" in t.columns && "Longitude" in t.columns
    requires Geofence(t, parse).Ok?
    ensures Geofenced(Geofence(t, parse).value)
  {
  }

  /** A second geofence drops nothing and changes nothing. */
  lemma GeofenceIdempotent(t: Table, parse: string -> Option<real>)
    requires Geofence(t, parse).Ok?
    ensures Geofence(Geofence(t, parse).value, parse) == Geofence(t, parse)
  {
    var g := Geofence(t, parse).value;
    if "Latitude" in t.columns && "Longitude" in t.columns {
      var i, j := IndexOf(t.columns, "Latitude"), IndexOf(t.columns, "Longitude");
      var p := row => InBox(row, i, j);
      assert i != j by { assert t.columns[i] != t.columns[j]; }
      assert CoerceColumn(g.rows, i, parse) == g.rows by {
        forall k | 0 <= k < |g.rows| ensures CoerceColumn(g.rows, i, parse)[k] == g.rows[k] {
          assert g.rows[k] in g.rows;
          assert Put(g.rows[k], i, Get(g.rows[k], i)) == g.rows[k];
        }
      }
      assert CoerceColumn(g.rows, j, parse) == g.rows by {
        forall k | 0 <= k < |g.rows| ensures CoerceColumn(g.rows, j, parse)[k] == g.rows[k] {
          assert g.rows[k] in g.rows;
          assert Put(g.rows[k], j, Get(g.rows[k], j)) == g.rows[k];
        }
      }
      FilterKeepsAll(g.rows, p);
    }
  }

  // ---------------------------------------------------------------------
  // Step 3: pincodes

  /** `df['Address'].apply(_extract_pincode)` appended as the last column. */
  function WithPincodes(rows: seq<seq<Cell>>, a: nat, show: real -> string): (r: seq<seq<Cell>>)
    ensures |r| == |rows|
  {
    seq(|rows|, k requires 0 <= k < |rows| => rows[k] + [PincodeCell(Get(rows[k], a), show)])
  }

  /** Lines 73-74: derive a Pincode column only when there is none and an Address column exists. */
  function DerivePincode(t: Table, show: real -> string): (r: Result<Table, LoadError>)
    ensures r.Err? <==> "Pincode" !in t.columns && Count(t.columns, "Address") >= 2
    ensures r.Err? ==> r.error == AmbiguousColumn("Address")
    ensures r.Ok? ==> |r.value.rows| == |t.rows|
  {
    if "Pincode" !in t.columns && "Address" in t.columns then
      match Resolve(t.columns, "Address")
      case Single(a) => Ok(Table(t.columns + ["Pincode"], WithPincodes(t.rows, a, show)))
      case _ => Err(AmbiguousColumn("Address"))
    else Ok(t)
  }

  /**
   * An existing Pincode column is never overwritten, and without an Address
   * column nothing is derived; a derived column is appended, keeps every
   * other cell, and holds for each row the code found in its address.
   */
  lemma DerivePincodeSpec(t: Table, show: real -> string)
    requires Rectangular(t)
    ensures "Pincode" in t.columns || "Address" !in t.columns ==> DerivePincode(t, show) == Ok(t)
    ensures DerivePincode(t, show).Ok? && "Pincode" !in t.columns && "Address" in t.columns ==>
      var d := DerivePincode(t, show).value;
      var a := IndexOf(t.columns, "Address");
      && d.columns == t.columns + ["Pincode"]
      && IndexOf(d.columns, "Pincode") == |t.columns|
      && Rectangular(d)
      && |d.rows| == |t.rows|
      && forall k :: 0 <= k < |t.rows| ==>
           d.rows[k][..|t.columns|] == t.rows[k]
           && d.rows[k][|t.columns|] == PincodeCell(t.rows[k][a], show)
  {
    if DerivePincode(t, show).Ok? && "Pincode" !in t.columns && "Address" in t.columns {
      var d := DerivePincode(t, show).value;
      var a := IndexOf(t.columns, "Address");
      assert d.columns == t.columns + ["Pincode"];
      assert d.rows == WithPincodes(t.rows, a, show);
      IndexOfAt(d.columns, "Pincode", |t.columns|);
      forall k | 0 <= k < |t.rows|
        ensures d.rows[k][..|t.columns|] == t.rows[k]
        ensures d.rows[k][|t.columns|] == PincodeCell(t.rows[k][a], show)
        ensures |d.rows[k]| == |d.columns|
      {
        var row := t.rows[k];
        assert row in t.rows;
        assert d.rows[k] == row + [PincodeCell(Get(row, a), show)];
      }
      forall r | r in d.rows ensures |r| == |d.columns| {
        var k :| 0 <= k < |d.rows| && d.rows[k] == r;
      }
    }
  }

  lemma DerivePincodePreserves(t: Table, show: real -> string)
    requires Geofenced(t) && DerivePincode(t, show).Ok?
    ensures Geofenced(DerivePincode(t, show).value)
  {
    if "Pincode" !in t.columns && "Address" in t.columns {
      var d := DerivePincode(t, show).value;
      var a := IndexOf(t.columns, "Address");
      var i, j := IndexOf(t.columns, "Latitude"), IndexOf(t.columns, "Longitude");
      assert d.columns == t.columns + ["Pincode"];
      IndexOfAt(d.columns, "Latitude", i);
      IndexOfAt(d.columns, "Longitude", j);
      forall r | r in d.rows ensures InBox(r, i, j) {
        var k :| 0 <= k < |d.rows| && d.rows[k] == r;
        var row := t.rows[k];
        assert row in t.rows;
        assert InBox(row, i, j);
        assert r == row + [PincodeCell(Get(row, a), show)];
        assert Get(r, i) == Get(row, i) && Get(r, j) == Get(row, j);
      }
    }
  }

  // ---------------------------------------------------------------------
  // Step 4: State and City text

  /** Lines 79-81 for one cell: `str`, strip, title-case, and the text "Nan" becomes None. */
  function NormaliseCell(c: Cell, show: real -> string): (r: Cell)
    ensures r.Text? || r.Null?
  {
    var s := Title(Strip(Stringify(c, show)));
    if s == "Nan" then Null else Text(s)
  }

  /** The text cells of a column of names after normalisation: stripped and title-cased. */
  lemma NormaliseCellText(c: Cell, show: real -> string)
    ensures NormaliseCell(c, show).Text? ==>
      var s := NormaliseCell(c, show).s;
      s == Title(Strip(Stringify(c, show))) && IsStripped(s) && Title(s) == s && s != "Nan"
  {
    var s := Strip(Stringify(c, show));
    StripTitle(s);
    StripIdempotent(Stringify(c, show));
    StripFixes(s);
    StripFixes(Title(s));
    TitleIdempotent(s);
  }

  /**
   * A cell becomes None exactly when its stripped text is "nan" in some mix
   * of letter cases; no other value does.
   */
  lemma NormaliseCellNull(c: Cell, show: real -> string)
    ensures NormaliseCell(c, show).Null? <==>
      var s := Strip(Stringify(c, show));
      |s| == 3 && Lower(s[0]) == 'n' && Lower(s[1]) == 'a' && Lower(s[2]) == 'n'
  {
    TitleIsNan(Strip(Stringify(c, show)));
  }

  lemma NanText()
    ensures Title(Strip("nan")) == "Nan"
  {
    StripStripped("nan");
    assert Title("nan") == "Nan";
  }

  lemma NoneText()
    ensures Title(Strip("None")) == "None"
  {
    StripStripped("None");
    assert Title("None") == "None";
  }

  /** A missing value becomes None (through "nan"); a None already there becomes the text "None". */
  lemma NormaliseMissingAndNone(show: real -> string)
    ensures NormaliseCell(Missing, show) == Null
    ensures NormaliseCell(Null, show) == Text("None")
  {
    NanText();
    NormaliseKnown(Missing, show, "Nan");
    NoneText();
    NormaliseKnown(Null, show, "None");
  }

  lemma NormaliseKnown(c: Cell, show: real -> string, s: string)
    requires Title(Strip(Stringify(c, show))) == s
    ensures NormaliseCell(c, show) == if s == "Nan" then Null else Text(s)
  {
  }

  /** Normalising a normalised text cell again changes nothing. */
  lemma NormaliseCellIdempotent(c: Cell, show: real -> string)
    requires NormaliseCell(c, show).Text?
    ensures NormaliseCell(NormaliseCell(c, show), show) == NormaliseCell(c, show)
  {
    TitleStripIdempotent(Stringify(c, show));
  }

  function NormalisedRows(rows: seq<seq<Cell>>, k: nat, show: real -> string): (r: seq<seq<Cell>>)
    ensures |r| == |rows|
  {
    seq(|rows|, n requires 0 <= n < |rows| => Put(rows[n], k, NormaliseCell(Get(rows[n], k), show)))
  }

  /**
   * `after` has the rows of `before`, each as long as before, and each cell
   * is the old cell normalised when its column is labelled by one of `names`
   * and the old cell otherwise.
   */
  ghost predicate CellsNormalised(before: Table, after: Table, names: seq<string>, show: real -> string) {
    && after.columns == before.columns
    && |after.rows| == |before.rows|
    && (forall n :: 0 <= n < |before.rows| ==> |after.rows[n]| == |before.rows[n]|)
    && forall n, j: nat :: 0 <= n < |before.rows| ==>
         Get(after.rows[n], j) ==
           if j < |before.rows[n]| && j < |before.columns| && before.columns[j] in names
           then NormaliseCell(Get(before.rows[n], j), show)
           else Get(before.rows[n], j)
  }

  /** A label that occurs at most once is found where it occurs. */
  lemma {:induction false} OnlyPosition(cols: seq<string>, name: string, j: nat)
    requires Count(cols, name) <= 1
    requires j < |cols| && cols[j] == name
    ensures IndexOf(cols, name) == j
  {
    if cols[0] != name {
      OnlyPosition(cols[1..], name, j - 1);
    }
  }

  /** Lines 78-81 for one label: fails when it names several columns, and otherwise normalises the cells of its column. */
  function NormaliseColumn(t: Table, name: string, show: real -> string): (r: Result<Table, LoadError>)
    ensures r.Err? <==> Count(t.columns, name) >= 2
    ensures r.Err? ==> r.error == AmbiguousColumn(name)
    ensures r.Ok? ==> CellsNormalised(t, r.value, [name], show)
  {
    if name in t.columns then
      match Resolve(t.columns, name)
      case Single(k) =>
        var rows := NormalisedRows(t.rows, k, show);
        assert forall j: nat :: j < |t.columns| && t.columns[j] in [name] ==> j == k by {
          forall j: nat | j < |t.columns| && t.columns[j] in [name] ensures j == k {
            OnlyPosition(t.columns, name, j);
          }
        }
        Ok(Table(t.columns, rows))
      case _ => Err(AmbiguousColumn(name))
    else Ok(t)
  }

  /** Normalising one label and then the rest is normalising them all, when no label is listed twice. */
  lemma NormalisedInTurn(t: Table, next: Table, res: Table, names: seq<string>, show: real -> string)
    requires names != [] && NoDuplicates(names)
    requires CellsNormalised(t, next, [names[0]], show)
    requires CellsNormalised(next, res, names[1..], show)
    ensures CellsNormalised(t, res, names, show)
  {
    assert names[0] !in names[1..];
    forall n, j: nat | 0 <= n < |t.rows|
      ensures Get(res.rows[n], j) ==
        if j < |t.rows[n]| && j < |t.columns| && t.columns[j] in names
        then NormaliseCell(Get(t.rows[n], j), show)
        else Get(t.rows[n], j)
    {
      if j < |t.columns| && t.columns[j] in names {
        assert t.columns[j] in [names[0]] || t.columns[j] in names[1..];
      }
    }
  }

  /** The columns of line 77, in the order the loop visits them. */
  const TextColumns: seq<string> := ["State", "City"]

  /**
   * The State/City loop: it fails only on a label naming several columns;
   * otherwise, when no label is listed twice, it normalises exactly the
   * cells of the listed columns.
   */
  function NormaliseColumns(t: Table, names: seq<string>, show: real -> string): (r: Result<Table, LoadError>)
    ensures r.Ok? ==> r.value.columns == t.columns && |r.value.rows| == |t.rows|
    ensures r.Err? ==> r.error.name in names && Count(t.columns, r.error.name) >= 2
    ensures r.Ok? && NoDuplicates(names) ==> CellsNormalised(t, r.value, names, show)
    decreases |names|
  {
    if names == [] then Ok(t)
    else
      var next :- NormaliseColumn(t, names[0], show);
      var res := NormaliseColumns(next, names[1..], show);
      if res.Ok? && NoDuplicates(names) then
        NormalisedInTurn(t, next, res.value, names, show);
        res
      else res
  }

  lemma {:induction false} NormaliseColumnsPreserve(t: Table, names: seq<string>, show: real -> string)
    requires Geofenced(t)
    requires "Latitude" !in names && "Longitude" !in names
    requires NormaliseColumns(t, names, show).Ok?
    ensures Geofenced(NormaliseColumns(t, names, show).value)
    ensures NormaliseColumns(t, names, show).value.columns == t.columns
    ensures |NormaliseColumns(t, names, show).value.rows| == |t.rows|
    decreases |names|
  {
    if names != [] {
      var next := NormaliseColumn(t, names[0], show).value;
      if names[0] in t.columns {
        var k := IndexOf(t.columns, names[0]);
        var i, j := IndexOf(t.columns, "Latitude"), IndexOf(t.columns, "Longitude");
        assert k != i && k != j by { assert names[0] in names; }
        forall r | r in next.rows ensures InBox(r, i, j) {
          var n :| 0 <= n < |next.rows| && next.rows[n] == r;
          assert t.rows[n] in t.rows;
        }
      }
      NormaliseColumnsPreserve(next, names[1..], show);
    }
  }

  // ---------------------------------------------------------------------
  // The whole of `_clean_dataframe`

  /**
   * `_clean_dataframe`: the standardised labels, with "Pincode" appended when
   * it is derived, and no more rows than the input; it fails only on a label
   * that names several of the standardised columns.
   */
  function CleanTable(raw: Table, conv: Conversions): (r: Result<Table, LoadError>)
    ensures r.Ok? ==> |r.value.rows| <= |raw.rows|
    ensures r.Ok? ==> (r.value.columns == StandardColumns(raw.columns)
                       || r.value.columns == StandardColumns(raw.columns) + ["Pincode"])
    ensures r.Err? ==> Count(StandardColumns(raw.columns), r.error.name) >= 2
  {
    var named := Table(StandardColumns(raw.columns), raw.rows);
    var fenced :- Geofence(named, conv.parse);
    var coded :- DerivePincode(fenced, conv.show);
    NormaliseColumns(coded, TextColumns, conv.show)
  }

  /** The pincode and State/City steps keep the coordinate guarantee the geofence establishes. */
  lemma StepsKeepBox(named: Table, conv: Conversions)
    requires "Latitude" in named.columns && "Longitude" in named.columns
    requires Geofence(named, conv.parse).Ok?
    requires DerivePincode(Geofence(named, conv.parse).value, conv.show).Ok?
    requires NormaliseColumns(DerivePincode(Geofence(named, conv.parse).value, conv.show).value, TextColumns, conv.show).Ok?
    ensures Geofenced(NormaliseColumns(DerivePincode(Geofence(named, conv.parse).value, conv.show).value, TextColumns, conv.show).value)
  {
    GeofenceEstablishes(named, conv.parse);
    var fenced := Geofence(named, conv.parse).value;
    DerivePincodePreserves(fenced, conv.show);
    var coded := DerivePincode(fenced, conv.show).value;
    assert "Latitude" !in TextColumns && "Longitude" !in TextColumns;
    NormaliseColumnsPreserve(coded, TextColumns, conv.show);
  }

  /**
   * When the standardised labels include both Latitude and Longitude, every
   * row of the clean table has numeric coordinates inside the box.
   */
  lemma CleanKeepsCoordinatesInBox(raw: Table, conv: Conversions)
    requires "Latitude" in StandardColumns(raw.columns) && "Longitude" in StandardColumns(raw.columns)
    requires CleanTable(raw, conv).Ok?
    ensures Geofenced(CleanTable(raw, conv).value)
  {
    var named := Table(StandardColumns(raw.columns), raw.rows);
    assert Geofence(named, conv.parse).Ok?;
    var fenced := Geofence(named, conv.parse).value;
    assert DerivePincode(fenced, conv.show).Ok?;
    StepsKeepBox(named, conv);
  }

  /** A State or City cell of a clean table: None, or text that is stripped, title-cased and not "Nan". */
  predicate NormalisedText(c: Cell) {
    c.Null? || (c.Text? && IsStripped(c.s) && Title(c.s) == c.s && c.s != "Nan")
  }

  /** Every row of `t` holds a normalised cell under the label `name`, when the label exists. */
  ghost predicate TextColumnNormalised(t: Table, name: string) {
    name in t.columns ==> forall r :: r in t.rows ==> NormalisedText(Get(r, IndexOf(t.columns, name)))
  }

  lemma GeofenceRectangular(t: Table, parse: string -> Option<real>)
    requires Rectangular(t) && Geofence(t, parse).Ok?
    ensures Rectangular(Geofence(t, parse).value)
  {
    if "Latitude" in t.columns && "Longitude" in t.columns {
      var i, j := IndexOf(t.columns, "Latitude"), IndexOf(t.columns, "Longitude");
      var coerced := CoerceColumn(CoerceColumn(t.rows, i, parse), j, parse);
      forall r | r in coerced ensures |r| == |t.columns| {
        var k :| 0 <= k < |coerced| && coerced[k] == r;
        assert t.rows[k] in t.rows;
      }
    }
  }

  /**
   * Every State and City cell of the clean table is None or a stripped,
   * title-cased text other than "Nan", whatever the raw cells held.
   */
  lemma CleanTextColumns(raw: Table, conv: Conversions)
    requires Rectangular(raw)
    requires CleanTable(raw, conv).Ok?
    ensures TextColumnNormalised(CleanTable(raw, conv).value, "State")
    ensures TextColumnNormalised(CleanTable(raw, conv).value, "City")
  {
    var named := Table(StandardColumns(raw.columns), raw.rows);
    GeofenceRectangular(named, conv.parse);
    var fenced := Geofence(named, conv.parse).value;
    DerivePincodeSpec(fenced, conv.show);
    var coded := DerivePincode(fenced, conv.show).value;
    TextColumnsNormalised(coded, conv.show);
  }

  /** The State/City loop leaves every cell of those columns normalised in a rectangular table. */
  lemma TextColumnsNormalised(t: Table, show: real -> string)
    requires Rectangular(t)
    requires NormaliseColumns(t, TextColumns, show).Ok?
    ensures TextColumnNormalised(NormaliseColumns(t, TextColumns, show).value, "State")
    ensures TextColumnNormalised(NormaliseColumns(t, TextColumns, show).value, "City")
  {
    assert NoDuplicates(TextColumns);
    var clean := NormaliseColumns(t, TextColumns, show).value;
    ColumnNormalised(t, clean, TextColumns, "State", show);
    ColumnNormalised(t, clean, TextColumns, "City", show);
  }

  lemma ColumnNormalised(t: Table, after: Table, names: seq<string>, name: string, show: real -> string)
    requires Rectangular(t) && CellsNormalised(t, after, names, show) && name in names
    ensures TextColumnNormalised(after, name)
  {
    if name in after.columns {
      var k := IndexOf(after.columns, name);
      forall r | r in after.rows ensures NormalisedText(Get(r, k)) {
        var n :| 0 <= n < |after.rows| && after.rows[n] == r;
        assert t.rows[n] in t.rows;
        assert Get(r, k) == NormaliseCell(Get(t.rows[n], k), show);
        NormaliseCellText(Get(t.rows[n], k), show);
      }
    }
  }

  /** Without both coordinate labels no row is dropped. */
  lemma CleanKeepsRowsWithoutCoordinates(raw: Table, conv: Conversions)
    requires !("Latitude" in StandardColumns(raw.columns) && "Longitude" in StandardColumns(raw.columns))
    requires CleanTable(raw, conv).Ok?
    ensures |CleanTable(raw, conv).value.rows| == |raw.rows|
  {
    var named := Table(StandardColumns(raw.columns), raw.rows);
    var coded := DerivePincode(named, conv.show).value;
    NormaliseColumnsLength(coded, TextColumns, conv.show);
  }

  lemma {:induction false} NormaliseColumnsLength(t: Table, names: seq<string>, show: real -> string)
    requires NormaliseColumns(t, names, show).Ok?
    ensures |NormaliseColumns(t, names, show).value.rows| == |t.rows|
    decreases |names|
  {
    if names != [] {
      NormaliseColumnsLength(NormaliseColumn(t, names[0], show).value, names[1..], show);
    }
  }

  lemma StateLabel()
    ensures StandardColumns(["State"]) == ["State"]
  {
    assert Title("State") == "State";
    CanonicalFixed("State");
    assert CanonicalColumns(["State"]) == ["State"];
    RenameCases("State");
  }

  lemma StateOnlyNormalised(t: Table, show: real -> string)
    requires t.columns == ["State"]
    ensures NormaliseColumns(t, TextColumns, show) == Ok(Table(t.columns, NormalisedRows(t.rows, 0, show)))
  {
    assert Resolve(t.columns, "State") == Single(0);
    var next := Table(t.columns, NormalisedRows(t.rows, 0, show));
    assert NormaliseColumn(t, "State", show) == Ok(next);
    assert "City" !in next.columns;
  }

  lemma StateOnlyUntouched(t: Table, conv: Conversions)
    requires t.columns == ["State"]
    ensures Geofence(t, conv.parse) == Ok(t)
    ensures DerivePincode(t, conv.show) == Ok(t)
  {
    assert "Latitude" !in t.columns;
    assert "Address" !in t.columns;
  }

  lemma CleanOnlyNormalises(raw: Table, conv: Conversions)
    requires StandardColumns(raw.columns) == raw.columns
    requires Geofence(raw, conv.parse) == Ok(raw)
    requires DerivePincode(raw, conv.show) == Ok(raw)
    ensures CleanTable(raw, conv) == NormaliseColumns(raw, TextColumns, conv.show)
  {
    assert Table(StandardColumns(raw.columns), raw.rows) == raw;
  }

  /** A table with one State column is cleaned cell by cell. */
  lemma StateOnlyClean(t: Table, conv: Conversions)
    requires t.columns == ["State"]
    ensures CleanTable(t, conv) == Ok(Table(t.columns, NormalisedRows(t.rows, 0, conv.show)))
  {
    StateLabel();
    StateOnlyUntouched(t, conv);
    CleanOnlyNormalises(t, conv);
    StateOnlyNormalised(t, conv.show);
  }

  /**
   * Cleaning is not idempotent as a whole: a missing State becomes None, and
   * a second pass writes that None out as the text "None".
   */
  lemma CleanTwiceDiffers(conv: Conversions)
    ensures CleanTable(Table(["State"], [[Missing]]), conv) == Ok(Table(["State"], [[Null]]))
    ensures CleanTable(Table(["State"], [[Null]]), conv) == Ok(Table(["State"], [[Text("None")]]))
  {
    NormaliseMissingAndNone(conv.show);
    StateOnlyClean(Table(["State"], [[Missing]]), conv);
    SingleCellRows(Missing, conv.show);
    StateOnlyClean(Table(["State"], [[Null]]), conv);
    SingleCellRows(Null, conv.show);
  }

  lemma SingleCellRows(c: Cell, show: real -> string)
    ensures NormalisedRows([[c]], 0, show) == [[NormaliseCell(c, show)]]
  {
    SingleCellRow(c, show);
    PutSingle(c, NormaliseCell(c, show));
  }

  lemma SingleCellRow(c: Cell, show: real -> string)
    ensures |NormalisedRows([[c]], 0, show)| == 1
    ensures NormalisedRows([[c]], 0, show)[0] == Put([c], 0, NormaliseCell(c, show))
  {
  }

  lemma PutSingle(c: Cell, n: Cell)
    ensures Put([c], 0, n) == [n]
  {
  }

  // ---------------------------------------------------------------------
  // The imperative form

  /** A data frame object, updated in place by the cleaning. */
  class Frame {
    var columns: seq<string>
    var rows: seq<seq<Cell>>

    function Value(): Table
      reads this
    {
      Table(columns, rows)
    }

    constructor (t: Table)
      ensures Value() == t
    {
      columns := t.columns;
      rows := t.rows;
    }

    /** Line 44 and the rename loop of lines 53-55. */
    method Standardise()
      modifies this
      ensures Value() == Table(StandardColumns(old(columns)), old(rows))
    {
      columns := CanonicalColumns(columns);
      for n := 0 to |Renames|
        invariant rows == old(rows)
        invariant ApplyRenames(columns, Renames[n..]) == StandardColumns(old(columns))
      {
        var from, to := Renames[n].0, Renames[n].1;
        if from in columns {
          columns := RenameAll(columns, from, to);
        }
      }
    }

    /** Lines 58-70, in place. */
    method Fence(parse: string -> Option<real>) returns (err: Option<LoadError>)
      modifies this
      ensures Geofence(old(Value()), parse).Ok? ==> err.None? && Value() == Geofence(old(Value()), parse).value
      ensures Geofence(old(Value()), parse).Err? ==> err == Some(Geofence(old(Value()), parse).error)
    {
      if "Latitude" in columns && "Longitude" in columns {
        var lat := Resolve(columns, "Latitude");
        if !lat.Single? {
          return Some(AmbiguousColumn("Latitude"));
        }
        var lng := Resolve(columns, "Longitude");
        if !lng.Single? {
          return Some(AmbiguousColumn("Longitude"));
        }
        rows := CoerceColumn(rows, lat.index, parse);
        rows := CoerceColumn(rows, lng.index, parse);
        rows := Filter(rows, row => InBox(row, lat.index, lng.index));
      }
      return None;
    }

    /** Lines 73-74, in place. */
    method AddPincodes(show: real -> string) returns (err: Option<LoadError>)
      modifies this
      ensures DerivePincode(old(Value()), show).Ok? ==> err.None? && Value() == DerivePincode(old(Value()), show).value
      ensures DerivePincode(old(Value()), show).Err? ==> err == Some(DerivePincode(old(Value()), show).error)
    {
      if "Pincode" !in columns && "Address" in columns {
        var address := Resolve(columns, "Address");
        if !address.Single? {
          return Some(AmbiguousColumn("Address"));
        }
        rows := WithPincodes(rows, address.index, show);
        columns := columns + ["Pincode"];
      }
      return None;
    }

    /** Lines 77-81, in place. */
    method NormaliseText(show: real -> string) returns (err: Option<LoadError>)
      modifies this
      ensures NormaliseColumns(old(Value()), TextColumns, show).Ok? ==>
        err.None? && Value() == NormaliseColumns(old(Value()), TextColumns, show).value
      ensures NormaliseColumns(old(Value()), TextColumns, show).Err? ==>
        err == Some(NormaliseColumns(old(Value()), TextColumns, show).error)
    {
      for n := 0 to |TextColumns|
        invariant NormaliseColumns(Value(), TextColumns[n..], show) == NormaliseColumns(old(Value()), TextColumns, show)
      {
        var name := TextColumns[n];
        if name in columns {
          var col := Resolve(columns, name);
          if !col.Single? {
            return Some(AmbiguousColumn(name));
          }
          rows := NormalisedRows(rows, col.index, show);
        }
      }
      return None;
    }

    /**
     * `_clean_dataframe(self)` on this frame; `err` is the exception pandas
     * raises, after which the frame is left part-way cleaned.
     */
    method Clean(conv: Conversions) returns (err: Option<LoadError>)
      modifies this
      ensures CleanTable(old(Value()), conv).Ok? ==> err.None? && Value() == CleanTable(old(Value()), conv).value
      ensures CleanTable(old(Value()), conv).Err? ==> err == Some(CleanTable(old(Value()), conv).error)
    {
      Standardise();
      err := Fence(conv.parse);
      if err.Some? {
        return;
      }
      err := AddPincodes(conv.show);
      if err.Some? {
        return;
      }
      err := NormaliseText(conv.show);
    }
  }

  // ---------------------------------------------------------------------
  // `filter_data`

  /** A filter argument Python treats as true: given and not empty. */
  predicate Active(f: Option<string>) {
    f.Some? && f.value != ""
  }

  /** A row passes the filter on `name` when the filter is off, the column is absent, or the cell is the filter's text. */
  predicate Passes(cols: seq<string>, row: seq<Cell>, name: string, f: Option<string>) {
    Active(f) && name in cols ==> Get(row, IndexOf(cols, name)) == Text(f.value)
  }

  predicate Selected(cols: seq<string>, row: seq<Cell>, state: Option<string>, city: Option<string>, bank: Option<string>) {
    Passes(cols, row, "State", state) && Passes(cols, row, "City", city) && Passes(cols, row, "Bank", bank)
  }

  function FilterOn(t: Table, name: string, f: Option<string>): (r: Table)
    ensures r.columns == t.columns
  {
    Table(t.columns, Filter(t.rows, row => Passes(t.columns, row, name, f)))
  }

  /** One guarded step of `filter_data`: filter on `name` only when the argument is given and the column exists. */
  function FilterIf(t: Table, name: string, f: Option<string>): (r: Table)
    ensures r.columns == t.columns
  {
    if Active(f) && name in t.columns then FilterOn(t, name, f) else t
  }

  /** `filter_data(df, state, city, bank)`: three successive filters on a copy of `df`. */
  function FilterData(t: Table, state: Option<string>, city: Option<string>, bank: Option<string>): (r: Table)
    requires Active(state) ==> Count(t.columns, "State") <= 1
    requires Active(city) ==> Count(t.columns, "City") <= 1
    requires Active(bank) ==> Count(t.columns, "Bank") <= 1
    ensures r.columns == t.columns
  {
    FilterIf(FilterIf(FilterIf(t, "State", state), "City", city), "Bank", bank)
  }

  /** A guarded step keeps the columns and is one filter by `Passes`, whether or not it applies. */
  lemma FilterIfRows(t: Table, name: string, f: Option<string>)
    ensures FilterIf(t, name, f).columns == t.columns
    ensures FilterIf(t, name, f).rows == Filter(t.rows, row => Passes(t.columns, row, name, f))
  {
    if !(Active(f) && name in t.columns) {
      FilterKeepsAll(t.rows, row => Passes(t.columns, row, name, f));
    }
  }

  /** The three filters of `filter_data` are one filter by `Selected`. */
  lemma FilterDataRows(t: Table, state: Option<string>, city: Option<string>, bank: Option<string>)
    requires Active(state) ==> Count(t.columns, "State") <= 1
    requires Active(city) ==> Count(t.columns, "City") <= 1
    requires Active(bank) ==> Count(t.columns, "Bank") <= 1
    ensures FilterData(t, state, city, bank).rows == Filter(t.rows, row => Selected(t.columns, row, state, city, bank))
  {
    var cols := t.columns;
    var ps := row => Passes(cols, row, "State", state);
    var pc := row => Passes(cols, row, "City", city);
    var pb := row => Passes(cols, row, "Bank", bank);
    var sc := row => ps(row) && pc(row);
    var t1 := FilterIf(t, "State", state);
    FilterIfRows(t, "State", state);
    assert t1.columns == cols && t1.rows == Filter(t.rows, ps);
    var t2 := FilterIf(t1, "City", city);
    FilterIfRows(t1, "City", city);
    assert t2.columns == cols && t2.rows == Filter(t1.rows, pc);
    FilterIfRows(t2, "Bank", bank);
    assert FilterData(t, state, city, bank).rows == Filter(t2.rows, pb);
    FilterFilter(t.rows, ps, pc, sc);
    FilterFilter(t.rows, sc, pb, row => Selected(cols, row, state, city, bank));
  }

  /**
   * The filtered table keeps exactly the rows that match every filter given,
   * every copy of each, in order; with no filter given it is the input.
   */
  lemma FilterDataSpec(t: Table, state: Option<string>, city: Option<string>, bank: Option<string>)
    requires Active(state) ==> Count(t.columns, "State") <= 1
    requires Active(city) ==> Count(t.columns, "City") <= 1
    requires Active(bank) ==> Count(t.columns, "Bank") <= 1
    ensures var r := FilterData(t, state, city, bank);
      && IsSubseq(r.rows, t.rows)
      && (forall row :: row in r.rows ==> Selected(t.columns, row, state, city, bank))
      && (forall row :: Selected(t.columns, row, state, city, bank) ==> multiset(r.rows)[row] == multiset(t.rows)[row])
    ensures !Active(state) && !Active(city) && !Active(bank) ==> FilterData(t, state, city, bank) == t
  {
    var all := row => Selected(t.columns, row, state, city, bank);
    FilterDataRows(t, state, city, bank);
    FilterIsSubseq(t.rows, all);
    forall row | Selected(t.columns, row, state, city, bank)
      ensures multiset(Filter(t.rows, all))[row] == multiset(t.rows)[row]
    {
      FilterMultiplicity(t.rows, all, row);
    }
  }
}
