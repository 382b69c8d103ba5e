/** The table of saved certificates (UI.py): its 24 columns, and the row
    that Save Certificate builds from the values entered in the form. */
module Records {
  import opened Text
  import opened Form

  /** The table's columns, section by section, in the order the empty table
      declares them. */
  const LeadColumns: seq<string> := ["Template Form", "Page Count", "Name of file"]

  const AutomobileColumns: seq<string> := [
    "Automobile Liability Insurance Company", "Automobile Liability Currency",
    "Automobile Liability Amount", "Automobile Liability DED. Currency",
    "Automobile Liability DED. Amount", "Automobile Liability Expiry Date (yyyy/mm/dd)"]

  const GeneralLiabilityColumns: seq<string> := [
    "Each occ Commercial General Liability Insurance Company", "Each occ Commercial General Liability Currency",
    "Each occ Commercial General Liability Amount", "Each occ Commercial General Liability DED. Currency",
    "Each occ Commercial General Liability DED. Amount", "Each occ Commercial General Liability Expiry Date (yyyy/mm/dd)"]

  const TrailerColumns: seq<string> := [
    "Non-owned Trailer Insurance Company", "Non-owned Trailer Currency",
    "Non-owned Trailer Amount", "Non-owned Trailer DED. Currency",
    "Non-owned Trailer DED. Amount", "Non-owned Trailer Amount Expiry Date (yyyy/mm/dd)"]

  const OtherColumns: seq<string> := ["Additional insured", "Certificate Holder", "Cancellation Notice Period (days)"]

  const Columns: seq<string> := LeadColumns + AutomobileColumns + GeneralLiabilityColumns + TrailerColumns + OtherColumns

  function ColumnSet(): (cols: set<string>) {
    set c | c in Columns
  }

  /** Where a cell of a saved row comes from: a fixed text, or the widget
      seeded from form key `formKey`. */
  datatype Source = Fixed(text: string) | Entered(formKey: string)

  datatype Cell = Cell(column: string, source: Source)

  /** Cells that put the widget of `keys[i]` under column `cols[i]`. */
  function Entries(cols: seq<string>, keys: seq<string>): (cells: seq<Cell>)
    requires |cols| == |keys|
    ensures |cells| == |cols|
    ensures forall i :: 0 <= i < |cols| ==> cells[i] == Cell(cols[i], Entered(keys[i]))
  {
    seq(|cols|, i requires 0 <= i < |cols| => Cell(cols[i], Entered(keys[i])))
  }

  /** The first three cells: the template form widget, a page count of one
      and a fixed file name. */
  const LeadCells: seq<Cell> := [
    Cell(LeadColumns[0], Entered(HeaderKeys[0])),
    Cell(LeadColumns[1], Fixed("1")),
    Cell(LeadColumns[2], Fixed("Manually entered"))]

  /** The row Save Certificate builds, cell by cell, in source order: each
      coverage and closing column reads the widget of the matching form key. */
  const RowLayout: seq<Cell> :=
    LeadCells + Entries(AutomobileColumns, AutomobileKeys) + Entries(GeneralLiabilityColumns, GeneralLiabilityKeys)
    + Entries(TrailerColumns, TrailerKeys) + Entries(OtherColumns, OtherKeys)

  /** The values the widgets hold when the form is submitted, by form key. */
  predicate Complete(entered: map<string, string>) {
    FormKeySet() <= entered.Keys
  }

  /** Every widget the cells read has a value. */
  predicate Reads(cells: seq<Cell>, entered: map<string, string>) {
    forall c :: c in cells && c.source.Entered? ==> c.source.formKey in entered
  }

  function CellText(c: Cell, entered: map<string, string>): (text: string)
    requires c.source.Entered? ==> c.source.formKey in entered
  {
    match c.source
    case Fixed(text) => text
    case Entered(k) => entered[k]
  }

  /** The dict built from `cells`, later cells overwriting earlier ones. */
  function RowOf(cells: seq<Cell>, entered: map<string, string>): (row: map<string, string>)
    requires Reads(cells, entered)
    ensures row.Keys == set c | c in cells :: c.column
  {
    if cells == [] then map[]
    else
      var n := |cells| - 1;
      assert cells == cells[..n] + [cells[n]];
      RowOf(cells[..n], entered)[cells[n].column := CellText(cells[n], entered)]
  }

  /** The row of a submitted form. */
  function CertificateRow(entered: map<string, string>): (row: map<string, string>)
    requires Complete(entered)
  {
    LayoutReadsForm();
    RowOf(RowLayout, entered)
  }

  function LayoutColumns(cells: seq<Cell>): (cols: seq<string>)
    ensures |cols| == |cells|
  {
    seq(|cells|, i requires 0 <= i < |cells| => cells[i].column)
  }

  lemma LayoutColumnsConcat(a: seq<Cell>, b: seq<Cell>)
    ensures LayoutColumns(a + b) == LayoutColumns(a) + LayoutColumns(b)
  {
  }

  lemma EntriesColumns(cols: seq<string>, keys: seq<string>)
    requires |cols| == |keys|
    ensures LayoutColumns(Entries(cols, keys)) == cols
  {
  }

  /** The row names the table's columns, in the table's order, so appending
      it adds no column. */
  lemma LayoutMatchesColumns()
    ensures LayoutColumns(RowLayout) == Columns
  {
    var a := Entries(AutomobileColumns, AutomobileKeys);
    var g := Entries(GeneralLiabilityColumns, GeneralLiabilityKeys);
    var t := Entries(TrailerColumns, TrailerKeys);
    var o := Entries(OtherColumns, OtherKeys);
    assert LayoutColumns(LeadCells) == LeadColumns;
    EntriesColumns(AutomobileColumns, AutomobileKeys);
    EntriesColumns(GeneralLiabilityColumns, GeneralLiabilityKeys);
    EntriesColumns(TrailerColumns, TrailerKeys);
    EntriesColumns(OtherColumns, OtherKeys);
    LayoutColumnsConcat(LeadCells, a);
    LayoutColumnsConcat(LeadCells + a, g);
    LayoutColumnsConcat(LeadCells + a + g, t);
    LayoutColumnsConcat(LeadCells + a + g + t, o);
  }

  lemma ColumnSectionsDistinct()
    ensures Distinct(LeadColumns) && Distinct(AutomobileColumns) && Distinct(GeneralLiabilityColumns)
    ensures Distinct(TrailerColumns) && Distinct(OtherColumns)
  {
  }

  lemma LeadDisjointAutomobile() ensures Disjoint(LeadColumns, AutomobileColumns) {}
  lemma LeadDisjointGeneralLiability() ensures Disjoint(LeadColumns, GeneralLiabilityColumns) {}
  lemma LeadDisjointTrailer() ensures Disjoint(LeadColumns, TrailerColumns) {}
  lemma LeadDisjointOther() ensures Disjoint(LeadColumns, OtherColumns) {}
  lemma AutomobileDisjointGeneralLiabilityColumns() ensures Disjoint(AutomobileColumns, GeneralLiabilityColumns) {}
  lemma AutomobileDisjointTrailerColumns() ensures Disjoint(AutomobileColumns, TrailerColumns) {}
  lemma AutomobileDisjointOtherColumns() ensures Disjoint(AutomobileColumns, OtherColumns) {}
  lemma GeneralLiabilityDisjointTrailerColumns() ensures Disjoint(GeneralLiabilityColumns, TrailerColumns) {}
  lemma GeneralLiabilityDisjointOtherColumns() ensures Disjoint(GeneralLiabilityColumns, OtherColumns) {}
  lemma TrailerDisjointOtherColumns() ensures Disjoint(TrailerColumns, OtherColumns) {}

  /** No two columns of the table share a name. */
  lemma ColumnsDistinct()
    ensures |Columns| == 24 && Distinct(Columns)
  {
    var l, a, g, t, o := LeadColumns, AutomobileColumns, GeneralLiabilityColumns, TrailerColumns, OtherColumns;
    ColumnSectionsDistinct();
    LeadDisjointAutomobile();
    LeadDisjointGeneralLiability();
    LeadDisjointTrailer();
    LeadDisjointOther();
    AutomobileDisjointGeneralLiabilityColumns();
    AutomobileDisjointTrailerColumns();
    AutomobileDisjointOtherColumns();
    GeneralLiabilityDisjointTrailerColumns();
    GeneralLiabilityDisjointOtherColumns();
    TrailerDisjointOtherColumns();
    DistinctConcat(l, a);
    DisjointConcat(l, a, g);
    DistinctConcat(l + a, g);
    DisjointConcat(l, a, t);
    DisjointConcat(l + a, g, t);
    DistinctConcat(l + a + g, t);
    DisjointConcat(l, a, o);
    DisjointConcat(l + a, g, o);
    DisjointConcat(l + a + g, t, o);
    DistinctConcat(l + a + g + t, o);
  }

  /** Every cell built from `cols` and `keys` reads a widget of `keys`. */
  lemma EntriesSources(cols: seq<string>, keys: seq<string>)
    requires |cols| == |keys|
    ensures forall c :: c in Entries(cols, keys) ==> c.source.Entered? && c.source.formKey in keys
  {
    forall c | c in Entries(cols, keys)
      ensures c.source.Entered? && c.source.formKey in keys
    {
      var i :| 0 <= i < |cols| && Entries(cols, keys)[i] == c;
    }
  }

  /** The row reads the template-form widget and, for the coverage and
      closing columns, the widgets of the matching form sections. */
  lemma LayoutSources()
    ensures forall c :: c in RowLayout && c.source.Entered? ==>
      c.source.formKey == HeaderKeys[0] || c.source.formKey in AutomobileKeys ||
      c.source.formKey in GeneralLiabilityKeys || c.source.formKey in TrailerKeys || c.source.formKey in OtherKeys
  {
    EntriesSources(AutomobileColumns, AutomobileKeys);
    EntriesSources(GeneralLiabilityColumns, GeneralLiabilityKeys);
    EntriesSources(TrailerColumns, TrailerKeys);
    EntriesSources(OtherColumns, OtherKeys);
  }

  /** The row reads only widgets of the form. */
  lemma LayoutReadsForm()
    ensures forall c :: c in RowLayout && c.source.Entered? ==> c.source.formKey in FormKeySet()
  {
    LayoutSources();
  }

  /** The certificate number, the two dates, the insured's name, the address
      and the description are not saved: the row reads none of them. */
  lemma LayoutSkipsHeader()
    ensures forall c, j :: c in RowLayout && 1 <= j < |HeaderKeys| ==> c.source != Entered(HeaderKeys[j])
  {
    LayoutSources();
    SectionsDistinct();
    SectionsDisjoint();
    forall c, j | c in RowLayout && 1 <= j < |HeaderKeys| && c.source.Entered?
      ensures c.source.formKey != HeaderKeys[j]
    {
      var k := c.source.formKey;
      if k in AutomobileKeys {
        var i :| 0 <= i < |AutomobileKeys| && AutomobileKeys[i] == k;
      } else if k in GeneralLiabilityKeys {
        var i :| 0 <= i < |GeneralLiabilityKeys| && GeneralLiabilityKeys[i] == k;
      } else if k in TrailerKeys {
        var i :| 0 <= i < |TrailerKeys| && TrailerKeys[i] == k;
      } else if k in OtherKeys {
        var i :| 0 <= i < |OtherKeys| && OtherKeys[i] == k;
      }
    }
  }

  /** Each cell's column holds that cell's text when no two cells share a
      column. */
  lemma {:induction false} RowOfValue(cells: seq<Cell>, entered: map<string, string>, i: nat)
    requires Reads(cells, entered) && Distinct(LayoutColumns(cells)) && i < |cells|
    ensures cells[i] in cells
    ensures RowOf(cells, entered)[cells[i].column] == CellText(cells[i], entered)
  {
    var n := |cells| - 1;
    if i < n {
      assert LayoutColumns(cells[..n]) == LayoutColumns(cells)[..n];
      assert LayoutColumns(cells)[i] != LayoutColumns(cells)[n];
      assert cells[..n][i] == cells[i];
      RowOfValue(cells[..n], entered, i);
    }
  }

  /** A widget no cell reads does not affect the row. */
  lemma {:induction false} RowOfIgnores(cells: seq<Cell>, entered: map<string, string>, k: string, v: string)
    requires Reads(cells, entered)
    requires forall c :: c in cells ==> c.source != Entered(k)
    ensures Reads(cells, entered[k := v])
    ensures RowOf(cells, entered[k := v]) == RowOf(cells, entered)
  {
    if cells != [] {
      var n := |cells| - 1;
      assert cells == cells[..n] + [cells[n]];
      RowOfIgnores(cells[..n], entered, k, v);
    }
  }

  lemma RowOfColumns(cells: seq<Cell>, entered: map<string, string>)
    requires Reads(cells, entered)
    ensures RowOf(cells, entered).Keys == set x | x in LayoutColumns(cells)
  {
    forall x | x in LayoutColumns(cells)
      ensures exists c :: c in cells && c.column == x
    {
      var i :| 0 <= i < |cells| && LayoutColumns(cells)[i] == x;
      assert cells[i] in cells;
    }
    forall c | c in cells
      ensures c.column in LayoutColumns(cells)
    {
      var i :| 0 <= i < |cells| && cells[i] == c;
      assert LayoutColumns(cells)[i] == c.column;
    }
  }

  lemma RowOfCells(cells: seq<Cell>, entered: map<string, string>)
    requires Reads(cells, entered) && Distinct(LayoutColumns(cells))
    ensures forall i :: 0 <= i < |cells| ==>
      LayoutColumns(cells)[i] in RowOf(cells, entered) &&
      RowOf(cells, entered)[LayoutColumns(cells)[i]] == CellText(cells[i], entered)
  {
    forall i | 0 <= i < |cells|
      ensures RowOf(cells, entered)[LayoutColumns(cells)[i]] == CellText(cells[i], entered)
    {
      RowOfValue(cells, entered, i);
    }
  }

  /** A saved row has exactly the table's columns. */
  lemma CertificateRowColumns(entered: map<string, string>)
    requires Complete(entered)
    ensures CertificateRow(entered).Keys == ColumnSet()
  {
    LayoutReadsForm();
    RowOfColumns(RowLayout, entered);
    LayoutMatchesColumns();
  }

  /** Under each column, a saved row holds the text of the matching cell. */
  lemma CertificateRowCellText(entered: map<string, string>)
    requires Complete(entered)
    ensures Reads(RowLayout, entered)
    ensures forall i :: 0 <= i < |Columns| ==>
      Columns[i] in CertificateRow(entered) && CertificateRow(entered)[Columns[i]] == CellText(RowLayout[i], entered)
  {
    LayoutReadsForm();
    LayoutMatchesColumns();
    ColumnsDistinct();
    RowOfCells(RowLayout, entered);
  }

  /** Where each of five concatenated sections sits in the whole. */
  lemma SectionsAt<T>(s1: seq<T>, s2: seq<T>, s3: seq<T>, s4: seq<T>, s5: seq<T>)
    ensures forall i :: 0 <= i < |s1| ==> (s1 + s2 + s3 + s4 + s5)[i] == s1[i]
    ensures forall i :: 0 <= i < |s2| ==> (s1 + s2 + s3 + s4 + s5)[|s1| + i] == s2[i]
    ensures forall i :: 0 <= i < |s3| ==> (s1 + s2 + s3 + s4 + s5)[|s1| + |s2| + i] == s3[i]
    ensures forall i :: 0 <= i < |s4| ==> (s1 + s2 + s3 + s4 + s5)[|s1| + |s2| + |s3| + i] == s4[i]
    ensures forall i :: 0 <= i < |s5| ==> (s1 + s2 + s3 + s4 + s5)[|s1| + |s2| + |s3| + |s4| + i] == s5[i]
  {
  }

  /** Each section of the row sits under its columns: the first three cells
      under the first three columns, then the coverage and closing sections. */
  lemma ColumnPlaces()
    ensures forall i :: 0 <= i < |LeadColumns| ==> Columns[i] == LeadColumns[i]
    ensures forall i :: 0 <= i < |AutomobileColumns| ==> Columns[3 + i] == AutomobileColumns[i]
    ensures forall i :: 0 <= i < |GeneralLiabilityColumns| ==> Columns[9 + i] == GeneralLiabilityColumns[i]
    ensures forall i :: 0 <= i < |TrailerColumns| ==> Columns[15 + i] == TrailerColumns[i]
    ensures forall i :: 0 <= i < |OtherColumns| ==> Columns[21 + i] == OtherColumns[i]
  {
    SectionsAt(LeadColumns, AutomobileColumns, GeneralLiabilityColumns, TrailerColumns, OtherColumns);
  }

  lemma CellPlaces()
    ensures forall i :: 0 <= i < |LeadCells| ==> RowLayout[i] == LeadCells[i]
    ensures forall i :: 0 <= i < |AutomobileColumns| ==> RowLayout[3 + i] == Cell(AutomobileColumns[i], Entered(AutomobileKeys[i]))
    ensures forall i :: 0 <= i < |GeneralLiabilityColumns| ==>
      RowLayout[9 + i] == Cell(GeneralLiabilityColumns[i], Entered(GeneralLiabilityKeys[i]))
    ensures forall i :: 0 <= i < |TrailerColumns| ==> RowLayout[15 + i] == Cell(TrailerColumns[i], Entered(TrailerKeys[i]))
    ensures forall i :: 0 <= i < |OtherColumns| ==> RowLayout[21 + i] == Cell(OtherColumns[i], Entered(OtherKeys[i]))
  {
    SectionsAt(LeadCells, Entries(AutomobileColumns, AutomobileKeys), Entries(GeneralLiabilityColumns, GeneralLiabilityKeys),
               Entries(TrailerColumns, TrailerKeys), Entries(OtherColumns, OtherKeys));
  }

  /** Under each column, a saved row holds the value of that column's cell. */
  lemma CertificateRowSections(entered: map<string, string>)
    requires Complete(entered)
    ensures Reads(RowLayout, entered)
    ensures forall i :: 0 <= i < |Columns| ==>
      Columns[i] in CertificateRow(entered) && CertificateRow(entered)[Columns[i]] == CellText(RowLayout[i], entered)
    ensures forall i :: 0 <= i < |AutomobileColumns| ==>
      Columns[3 + i] == AutomobileColumns[i] && RowLayout[3 + i] == Cell(AutomobileColumns[i], Entered(AutomobileKeys[i]))
    ensures forall i :: 0 <= i < |GeneralLiabilityColumns| ==>
      Columns[9 + i] == GeneralLiabilityColumns[i] && RowLayout[9 + i] == Cell(GeneralLiabilityColumns[i], Entered(GeneralLiabilityKeys[i]))
    ensures forall i :: 0 <= i < |TrailerColumns| ==>
      Columns[15 + i] == TrailerColumns[i] && RowLayout[15 + i] == Cell(TrailerColumns[i], Entered(TrailerKeys[i]))
    ensures forall i :: 0 <= i < |OtherColumns| ==>
      Columns[21 + i] == OtherColumns[i] && RowLayout[21 + i] == Cell(OtherColumns[i], Entered(OtherKeys[i]))
  {
    CertificateRowCellText(entered);
    ColumnPlaces();
    CellPlaces();
  }

  /** A saved row records the template form, the page count "1" and the file
      name "Manually entered" in its first three columns. */
  lemma CertificateRowLead(entered: map<string, string>)
    requires Complete(entered)
    ensures CertificateRow(entered).Keys == ColumnSet()
    ensures CertificateRow(entered)[LeadColumns[0]] == entered[HeaderKeys[0]]
    ensures CertificateRow(entered)[LeadColumns[1]] == "1"
    ensures CertificateRow(entered)[LeadColumns[2]] == "Manually entered"
  {
    CertificateRowColumns(entered);
    CertificateRowCellText(entered);
    ColumnPlaces();
    CellPlaces();
  }

  /** Row `row` holds, under each column `cols[i]`, the value entered in
      the widget of form key `keys[i]`. */
  predicate SavedUnder(row: map<string, string>, entered: map<string, string>, cols: seq<string>, keys: seq<string>) {
    forall i :: 0 <= i < |cols| && i < |keys| ==>
      cols[i] in row && keys[i] in entered && row[cols[i]] == entered[keys[i]]
  }

  /** A saved row records each coverage and closing widget under its column. */
  lemma CertificateRowCoverage(entered: map<string, string>)
    requires Complete(entered)
    ensures SavedUnder(CertificateRow(entered), entered, AutomobileColumns, AutomobileKeys)
    ensures SavedUnder(CertificateRow(entered), entered, GeneralLiabilityColumns, GeneralLiabilityKeys)
    ensures SavedUnder(CertificateRow(entered), entered, TrailerColumns, TrailerKeys)
    ensures SavedUnder(CertificateRow(entered), entered, OtherColumns, OtherKeys)
  {
    CertificateRowSections(entered);
    var row := CertificateRow(entered);
    SectionUnder(RowLayout, Columns, entered, row, 3, AutomobileColumns, AutomobileKeys);
    SectionUnder(RowLayout, Columns, entered, row, 9, GeneralLiabilityColumns, GeneralLiabilityKeys);
    SectionUnder(RowLayout, Columns, entered, row, 15, TrailerColumns, TrailerKeys);
    SectionUnder(RowLayout, Columns, entered, row, 21, OtherColumns, OtherKeys);
  }

  /** The cells from position `p` on, built from `sc` and `sk`, put each
      widget's value under its column. */
  lemma SectionUnder(cells: seq<Cell>, cols: seq<string>, entered: map<string, string>,
                     row: map<string, string>, p: nat, sc: seq<string>, sk: seq<string>)
    requires |sc| == |sk| && |cells| == |cols| && p + |sc| <= |cols|
    requires forall i :: 0 <= i < |sc| ==> cols[p + i] == sc[i] && cells[p + i] == Cell(sc[i], Entered(sk[i]))
    requires Reads(cells, entered)
    requires forall i :: 0 <= i < |cols| ==> cols[i] in row && row[cols[i]] == CellText(cells[i], entered)
    ensures SavedUnder(row, entered, sc, sk)
  {
    forall i | 0 <= i < |sc|
      ensures sk[i] in entered && sc[i] in row && row[sc[i]] == entered[sk[i]]
    {
      assert cells[p + i] in cells;
    }
  }

  lemma CertificateRowIgnoresHeader(entered: map<string, string>, j: nat, v: string)
    requires Complete(entered) && 1 <= j < |HeaderKeys|
    ensures Complete(entered[HeaderKeys[j] := v])
    ensures CertificateRow(entered[HeaderKeys[j] := v]) == CertificateRow(entered)
  {
    LayoutReadsForm();
    LayoutSkipsHeader();
    RowOfIgnores(RowLayout, entered, HeaderKeys[j], v);
  }
}
