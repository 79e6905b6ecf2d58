/** The intermediate dataset (`intermediate_data.json`: product URL -> field map,
    in insertion order) and its projection to the rows of `products.csv`. */
module Dataset {
  import opened Outcomes

  /** One product's fields; a JSON null is `None`. */
  type FieldMap = map<string, Option<string>>

  /** `Scraper.CSV_FIELDNAMES`: the columns of the final table, in order. */
  const FieldNames: seq<string> := [
    "Product Name",
    "Original Data Column 1 (Breadcrumb)",
    "Original Data Column 2 (Ausführung)",
    "Supplier Article Number",
    "EAN/GTIN",
    "Article Number",
    "Product Description",
    "Supplier",
    "Supplier-URL",
    "Product Image URL",
    "Manufacturer",
    "Original Data Column 3 (Add. Description)"
  ]

  /** The constant supplier every product is attributed to. */
  const SupplierName: string := "igefa Handelsgesellschaft"

  predicate IsColumn(name: string) {
    name in FieldNames
  }

  lemma FieldNamesDistinct()
    ensures |FieldNames| == 12
    ensures forall i, j :: 0 <= i < j < |FieldNames| ==> FieldNames[i] != FieldNames[j]
  {
  }

  /** What the page parser extracts from a product page. The breadcrumb path and
      the image URL are always strings; every other field may be missing. */
  datatype ProductFields = ProductFields(
    name: Option<string>,
    breadcrumb: string,
    version: Option<string>,
    supplierNumber: Option<string>,
    eanGtin: Option<string>,
    articleNumber: Option<string>,
    description: Option<string>,
    imageUrl: string,
    manufacturer: Option<string>,
    benefits: Option<string>)

  /** The `data` dictionary `parse_product` stores for `url`. */
  function ProductRecord(url: string, p: ProductFields): (r: FieldMap)
    ensures forall name :: name in r <==> IsColumn(name)
    ensures "Supplier-URL" in r && r["Supplier-URL"] == Some(url)
    ensures "Supplier" in r && r["Supplier"] == Some(SupplierName)
    ensures "Product Image URL" in r && r["Product Image URL"] == Some(p.imageUrl)
    ensures "Original Data Column 1 (Breadcrumb)" in r && r["Original Data Column 1 (Breadcrumb)"] == Some(p.breadcrumb)
  {
    map[
      "Product Name" := p.name,
      "Original Data Column 1 (Breadcrumb)" := Some(p.breadcrumb),
      "Original Data Column 2 (Ausführung)" := p.version,
      "Supplier Article Number" := p.supplierNumber,
      "EAN/GTIN" := p.eanGtin,
      "Article Number" := p.articleNumber,
      "Product Description" := p.description,
      "Supplier" := Some(SupplierName),
      "Supplier-URL" := Some(url),
      "Product Image URL" := Some(p.imageUrl),
      "Manufacturer" := p.manufacturer,
      "Original Data Column 3 (Add. Description)" := p.benefits
    ]
  }

  /** The intermediate dataset: its keys in insertion order and its entries. */
  datatype Accumulator = Accumulator(keys: seq<string>, entries: map<string, FieldMap>)

  /** A JSON object: every key once, and the order lists exactly the keys present. */
  ghost predicate WellFormed(d: Accumulator) {
    && (forall i, j :: 0 <= i < j < |d.keys| ==> d.keys[i] != d.keys[j])
    && (forall k :: k in d.entries <==> k in d.keys)
  }

  const Empty: Accumulator := Accumulator([], map[])

  /** `json_data.update({url: data})`: records or overwrites the entry for `url`. */
  function Put(d: Accumulator, url: string, data: FieldMap): (r: Accumulator)
    requires WellFormed(d)
    ensures WellFormed(r)
    ensures url in r.entries && r.entries[url] == data
    ensures forall k :: k != url ==> (k in r.entries <==> k in d.entries)
    ensures forall k :: k in d.entries && k != url ==> r.entries[k] == d.entries[k]
    ensures |r.keys| == |d.keys| + (if url in d.entries then 0 else 1)
    ensures forall i :: 0 <= i < |d.keys| ==> r.keys[i] == d.keys[i]
    ensures url !in d.entries ==> r.keys[|d.keys|] == url
  {
    if url in d.entries then Accumulator(d.keys, d.entries[url := data])
    else Accumulator(d.keys + [url], d.entries[url := data])
  }

  /** Repeating a `put` changes nothing. */
  lemma PutIdempotent(d: Accumulator, url: string, data: FieldMap)
    requires WellFormed(d)
    ensures Put(Put(d, url, data), url, data) == Put(d, url, data)
  {
  }

  /** A later `put` for the same URL replaces the value and keeps the position. */
  lemma PutOverwrites(d: Accumulator, url: string, a: FieldMap, b: FieldMap)
    requires WellFormed(d)
    ensures Put(Put(d, url, a), url, b) == Put(d, url, b)
  {
    assert d.entries[url := a][url := b] == d.entries[url := b];
  }

  /** `json_data.values()`: the entries in key order. */
  function Entries(d: Accumulator): (r: seq<FieldMap>)
    requires WellFormed(d)
    ensures |r| == |d.keys|
    ensures forall i :: 0 <= i < |r| ==> r[i] == d.entries[d.keys[i]]
  {
    seq(|d.keys|, i requires 0 <= i < |d.keys| => d.entries[d.keys[i]])
  }

  /** The text `csv.DictWriter` writes in one column: `restval` "" for a missing
      key, "" for a JSON null, the string itself otherwise. */
  function Cell(fields: FieldMap, name: string): (r: string)
    ensures r == "" <==> name !in fields || fields[name] == None || fields[name] == Some("")
  {
    if name in fields && fields[name].Some? then fields[name].value else ""
  }

  /** `writerow` accepts the entry: every key is a column. */
  predicate Writable(fields: FieldMap) {
    forall k :: k in fields ==> IsColumn(k)
  }

  /** `writer.writerow(fields)`: one cell per column in `CSV_FIELDNAMES` order, or
      `None` for the `ValueError` raised when a key is not a column. */
  function Row(fields: FieldMap): (r: Option<seq<string>>)
    ensures r.Some? <==> Writable(fields)
    ensures r.Some? ==> |r.value| == |FieldNames|
  {
    if Writable(fields) then
      Some(seq(|FieldNames|, j requires 0 <= j < |FieldNames| => Cell(fields, FieldNames[j])))
    else None
  }

  /** Cell j of a written row is the entry's value for column j. */
  lemma RowCell(fields: FieldMap, j: nat)
    requires Row(fields).Some? && j < |FieldNames|
    ensures Row(fields).value[j] == Cell(fields, FieldNames[j])
  {
  }

  /** `csv.DictReader` on one data row: each column name maps to its cell. */
  function ReadRow(cells: seq<string>): (r: FieldMap)
    requires |cells| == |FieldNames|
  {
    FieldNamesDistinct();
    map j | 0 <= j < |FieldNames| :: FieldNames[j] := Some(cells[j])
  }

  /** A complete record without nulls survives the table: reading its row back
      under the header gives the record again. */
  lemma RowRoundTrip(fields: FieldMap)
    requires forall k :: k in fields <==> IsColumn(k)
    requires forall k :: k in fields ==> fields[k].Some?
    ensures Row(fields).Some? && ReadRow(Row(fields).value) == fields
  {
    var cells := Row(fields).value;
    var back := ReadRow(cells);
    FieldNamesDistinct();
    forall k | k in fields
      ensures k in back && back[k] == fields[k]
    {
      var j :| 0 <= j < |FieldNames| && FieldNames[j] == k;
      assert cells[j] == Cell(fields, k);
    }
    assert back.Keys == fields.Keys;
  }

  /** The column a record's URL lands in. */
  lemma ProductRowCells(url: string, p: ProductFields)
    ensures Row(ProductRecord(url, p)).Some?
    ensures Row(ProductRecord(url, p)).value[7] == SupplierName
    ensures Row(ProductRecord(url, p)).value[8] == url
  {
  }

  /** The rows `create_final_dataset` writes before it stops: one per entry, in
      order, up to the first entry `writerow` rejects. */
  function RowsWritten(entries: seq<FieldMap>): (r: seq<seq<string>>)
    ensures |r| <= |entries|
    ensures |r| < |entries| ==> Row(entries[|r|]).None?
  {
    if entries == [] then []
    else match Row(entries[0])
      case None => []
      case Some(cells) => [cells] + RowsWritten(entries[1..])
  }

  /** Each row written is its entry's row. */
  lemma {:induction false} RowWrittenAt(entries: seq<FieldMap>, i: nat)
    requires i < |RowsWritten(entries)|
    ensures Row(entries[i]) == Some(RowsWritten(entries)[i])
    decreases i
  {
    var cells := Row(entries[0]).value;
    var rest := RowsWritten(entries[1..]);
    assert RowsWritten(entries) == [cells] + rest;
    if i > 0 {
      RowWrittenAt(entries[1..], i - 1);
      assert entries[1..][i - 1] == entries[i];
    }
  }

  /** Writing gets past every entry before the first one `writerow` rejects. */
  lemma RowsWrittenReaches(entries: seq<FieldMap>, n: nat)
    requires n <= |entries|
    requires forall i :: 0 <= i < n ==> Writable(entries[i])
    ensures |RowsWritten(entries)| >= n
  {
    var r := RowsWritten(entries);
    if |r| < n {
      assert false;
    }
  }

  /** Writing stops exactly at the first rejected entry, or at the end. */
  lemma RowsWrittenStopsAt(entries: seq<FieldMap>, n: nat)
    requires n <= |entries|
    requires forall i :: 0 <= i < n ==> Writable(entries[i])
    requires n < |entries| ==> Row(entries[n]).None?
    ensures |RowsWritten(entries)| == n
  {
    RowsWrittenReaches(entries, n);
    var r := RowsWritten(entries);
    if |r| > n {
      RowWrittenAt(entries, n);
      assert false;
    }
  }

  /** One more row written extends the file by that row. */
  lemma WrittenPrefixGrows(entries: seq<FieldMap>, i: nat)
    requires i < |RowsWritten(entries)|
    ensures [FieldNames] + RowsWritten(entries)[..i + 1]
         == [FieldNames] + RowsWritten(entries)[..i] + [RowsWritten(entries)[i]]
  {
    var r := RowsWritten(entries);
    assert r[..i + 1] == r[..i] + [r[i]];
  }

  /** Writing reaches the end of the dataset exactly when every entry has only
      column keys. */
  lemma AllRowsWritten(d: Accumulator)
    requires WellFormed(d)
    ensures (forall k :: k in d.entries ==> Writable(d.entries[k]))
        <==> |RowsWritten(Entries(d))| == |d.keys|
  {
    var es := Entries(d);
    if forall k :: k in d.entries ==> Writable(d.entries[k]) {
      forall j | 0 <= j < |es|
        ensures Writable(es[j])
      {
        assert d.keys[j] in d.entries;
      }
      RowsWrittenReaches(es, |es|);
    }
    if |RowsWritten(es)| == |d.keys| {
      forall k | k in d.entries
        ensures Writable(d.entries[k])
      {
        var j :| 0 <= j < |d.keys| && d.keys[j] == k;
        RowWrittenAt(es, j);
      }
    }
  }

  /** `products.csv` as a table: the header, then the rows written. */
  function Table(d: Accumulator): (t: seq<seq<string>>)
    requires WellFormed(d)
    ensures |t| >= 1 && t[0] == FieldNames
  {
    [FieldNames] + RowsWritten(Entries(d))
  }

  /** A row of the table has one cell per column. */
  lemma TableRowWidth(d: Accumulator, i: nat)
    requires WellFormed(d)
    requires i < |RowsWritten(Entries(d))|
    ensures i + 1 < |Table(d)| && |Table(d)[i + 1]| == |FieldNames|
  {
    var es := Entries(d);
    RowWrittenAt(es, i);
    assert Table(d)[i + 1] == RowsWritten(es)[i];
  }

  /** A cell of the table is the value of its entry for its column. */
  lemma TableCell(d: Accumulator, i: nat, j: nat)
    requires WellFormed(d)
    requires i < |RowsWritten(Entries(d))| && j < |FieldNames|
    ensures i < |d.keys| && i + 1 < |Table(d)| && j < |Table(d)[i + 1]|
    ensures Table(d)[i + 1][j] == Cell(d.entries[d.keys[i]], FieldNames[j])
  {
    var es := Entries(d);
    RowWrittenAt(es, i);
    RowCell(es[i], j);
    assert Table(d)[i + 1] == RowsWritten(es)[i];
  }

  /** When every entry has only column keys, the table has a row per entry, in
      accumulator order, and each cell is that entry's value for its column. */
  lemma TableComplete(d: Accumulator)
    requires WellFormed(d)
    requires forall k :: k in d.entries ==> Writable(d.entries[k])
    ensures |Table(d)| == |d.keys| + 1
    ensures forall i :: 1 <= i <= |d.keys| ==> |Table(d)[i]| == |FieldNames|
    ensures forall i, j :: 1 <= i <= |d.keys| && 0 <= j < |FieldNames| ==>
              Table(d)[i][j] == Cell(d.entries[d.keys[i - 1]], FieldNames[j])
  {
    AllRowsWritten(d);
    forall i | 1 <= i <= |d.keys|
      ensures |Table(d)[i]| == |FieldNames|
    {
      TableRowWidth(d, i - 1);
    }
    forall i, j | 1 <= i <= |d.keys| && 0 <= j < |FieldNames|
      ensures Table(d)[i][j] == Cell(d.entries[d.keys[i - 1]], FieldNames[j])
    {
      TableCell(d, i - 1, j);
    }
  }
}
