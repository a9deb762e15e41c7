/**
 * The Virginia Department of Professional and Occupational Regulation adapter.
 *
 * A lookup is one request: the license detail endpoint answers either a page
 * with a license-details tab, whose `<strong>` labels are read as label/value
 * pairs, or a page without one (possibly carrying an alert). A name search
 * is one request whose answer may hold a results table. HTTP is abstracted
 * into the fetch functions of a `Registry`, and HTML into the parsed shapes
 * below.
 */
module Virginia {
  import opened Common
  import opened Text
  import opened Fields
  import opened Canonical

  const NotFoundMessage := "License not found or invalid response"

  /**
   * What surrounds a `<strong>` label: no enclosing `<div>`, an enclosing
   * `<div>` with no following sibling `<div>`, or the stripped text of that
   * sibling.
   */
  datatype Adjacent = NoParentDiv | NoSiblingDiv | SiblingText(text: string)

  /** A `<strong>` label of the details tab: its stripped text and what lies next to it. */
  datatype StrongLabel = StrongLabel(key: string, adjacent: Adjacent)

  /**
   * A `<td>` of the results table: its stripped text, and the `value` of the
   * `<input name="license-number">` inside it, if there is one.
   */
  datatype Cell = Cell(text: string, licenseInput: Option<string>)

  /**
   * The `search-results` table: the rows of its `<tbody>` when it has one,
   * and every row of the table otherwise.
   */
  datatype ResultsTable = ResultsTable(tbody: Option<seq<seq<Cell>>>, rows: seq<seq<Cell>>)

  /**
   * A parsed answer: the labels of the `license-details-tab` div, the
   * stripped text of the first `alert-danger` div, and the results table.
   */
  datatype Page = Page(detailTab: Option<seq<StrongLabel>>, alert: Option<string>,
                       resultsTable: Option<ResultsTable>)

  /** The registry as the adapter sees it: the two endpoints and the HTML parser. */
  datatype Registry = Registry(
    detail: string -> Fetch,
    search: string -> Fetch,
    page: string -> Page)

  // ---------------------------------------------------------------- the field map

  /** The assignment a label makes: its sibling's text, or none when it has no sibling div. */
  function EntryOf(l: StrongLabel): (e: Entry)
    ensures e.key == l.key
    ensures e.value.Some? <==> l.adjacent.SiblingText?
    ensures e.value.Some? ==> e.value.value == l.adjacent.text
  {
    Entry(l.key, if l.adjacent.SiblingText? then Some(l.adjacent.text) else None)
  }

  /** The assignments of the labels, in document order. */
  function Entries(labels: seq<StrongLabel>): (es: seq<Entry>)
    ensures |es| == |labels|
    ensures forall i :: 0 <= i < |labels| ==> es[i] == EntryOf(labels[i])
  {
    if labels == [] then []
    else Entries(labels[..|labels| - 1]) + [EntryOf(labels[|labels| - 1])]
  }

  /** Every entry of the filled dictionary comes from a label whose sibling holds that text. */
  lemma FilledFromLabels(labels: seq<StrongLabel>)
    ensures forall k :: k in Fill(Entries(labels)) ==>
      exists i :: 0 <= i < |labels| && labels[i] == StrongLabel(k, SiblingText(Fill(Entries(labels))[k]))
  {
    var es := Entries(labels);
    forall k | k in Fill(es)
      ensures exists i :: 0 <= i < |labels| && labels[i] == StrongLabel(k, SiblingText(Fill(es)[k]))
    {
      LastAssignmentWins(es, k);
      var i :| 0 <= i < |es| && es[i] == Entry(k, Some(Fill(es)[k]))
        && forall j :: i < j < |es| ==> !Assigns(es[j], k);
      assert labels[i] == StrongLabel(k, SiblingText(Fill(es)[k]));
    }
  }

  /**
   * The `fields` dictionary of `lookup_license`: each of its entries is the
   * text of a label's sibling div.
   */
  function FieldMap(labels: seq<StrongLabel>): (fields: map<string, string>)
    ensures forall k :: k in fields ==>
      exists i :: 0 <= i < |labels| && labels[i] == StrongLabel(k, SiblingText(fields[k]))
  {
    FilledFromLabels(labels);
    Fill(Entries(labels))
  }

  /** The loop of `lookup_license` that fills `fields` from the labels of the details tab. */
  method CollectFields(labels: seq<StrongLabel>) returns (fields: map<string, string>)
    ensures fields == FieldMap(labels)
  {
    fields := map[];
    var i := 0;
    while i < |labels|
      invariant 0 <= i <= |labels|
      invariant fields == Fill(Entries(labels[..i]))
    {
      var strong := labels[i];
      match strong.adjacent {
        case SiblingText(text) => fields := fields[strong.key := text];
        case NoParentDiv =>
        case NoSiblingDiv =>
      }
      assert labels[..i + 1][..i] == labels[..i];
      assert Entries(labels[..i + 1]) == Entries(labels[..i]) + [EntryOf(strong)];
      i := i + 1;
    }
    assert labels[..i] == labels;
  }

  /**
   * A label is in the field map iff some label of that text has a sibling
   * div, and its value is the text of the LAST such sibling.
   */
  lemma FieldIsLastLabel(labels: seq<StrongLabel>, k: string)
    ensures k in FieldMap(labels) <==>
      exists i :: 0 <= i < |labels| && labels[i].key == k && labels[i].adjacent.SiblingText?
    ensures k in FieldMap(labels) ==>
      exists i ::
        && 0 <= i < |labels|
        && labels[i] == StrongLabel(k, SiblingText(FieldMap(labels)[k]))
        && forall j :: i < j < |labels| ==> !(labels[j].key == k && labels[j].adjacent.SiblingText?)
  {
    var es := Entries(labels);
    FilledIffAssigned(es, k);
    if k in FieldMap(labels) {
      LastAssignmentWins(es, k);
      var i :| 0 <= i < |es| && es[i] == Entry(k, Some(Fill(es)[k]))
        && forall j :: i < j < |es| ==> !Assigns(es[j], k);
      assert labels[i] == StrongLabel(k, SiblingText(FieldMap(labels)[k]));
      forall j | i < j < |labels| ensures !(labels[j].key == k && labels[j].adjacent.SiblingText?) {
        assert !Assigns(es[j], k);
      }
    } else {
      forall i | 0 <= i < |labels| ensures !(labels[i].key == k && labels[i].adjacent.SiblingText?) {
        assert !Assigns(es[i], k);
      }
    }
  }

  // ---------------------------------------------------------------- status and result

  /** The status: the `Status` text verbatim, and "ACTIVE" when there is none. */
  function Status(fields: map<string, string>): (status: string)
    ensures "Status" in fields ==> status == fields["Status"]
    ensures "Status" !in fields ==> status == "ACTIVE"
  {
    Get(fields, "Status").GetOr("ACTIVE")
  }

  /** The success dictionary built from the field map. */
  function Assemble(licenseNumber: string, body: string, fields: map<string, string>): (r: LookupResult)
    ensures r.Found? && r.licenseNumber == licenseNumber
    ensures r.status == Status(fields)
    ensures r.holderName == Get(fields, "Name") && r.licenseClass == Get(fields, "Rank")
    ensures r.expirationDate == Get(fields, "Expiration Date")
    ensures r.initialDate == Get(fields, "Initial Certification Date")
    ensures r.firmType == Get(fields, "Firm Type") && r.specialties == Get(fields, "Specialties")
    ensures r.address == Get(fields, "Address") && r.violations.None?
    ensures |r.rawHtml| <= RawExcerptLength && |r.rawHtml| <= |body| && r.rawHtml == body[..|r.rawHtml|]
    ensures r.rawHtml == RawExcerpt(body)
  {
    Found(
      licenseNumber := licenseNumber,
      holderName := Get(fields, "Name"),
      licenseClass := Get(fields, "Rank"),
      status := Status(fields),
      expirationDate := Get(fields, "Expiration Date"),
      initialDate := Get(fields, "Initial Certification Date"),
      firmType := Get(fields, "Firm Type"),
      specialties := Get(fields, "Specialties"),
      address := Get(fields, "Address"),
      violations := None,
      rawHtml := RawExcerpt(body))
  }

  /**
   * `lookup_license`: a failed request is a failure with its error text; an
   * answer without the details tab is a failure with the alert text, or the
   * generic message when there is no alert; otherwise the fields are read.
   * Every result echoes the license number asked for.
   */
  function Lookup(reg: Registry, licenseNumber: string): (r: LookupResult)
    ensures r.licenseNumber == licenseNumber
    ensures reg.detail(licenseNumber).Err? ==> r == Failed(licenseNumber, reg.detail(licenseNumber).message)
    ensures reg.detail(licenseNumber).Ok? ==>
      var page := reg.page(reg.detail(licenseNumber).body);
      && (page.detailTab.None? ==> r == Failed(licenseNumber, page.alert.GetOr(NotFoundMessage)))
      && (page.detailTab.Some? ==>
            r == Assemble(licenseNumber, reg.detail(licenseNumber).body, FieldMap(page.detailTab.value)))
  {
    match reg.detail(licenseNumber)
    case Err(e) => Failed(licenseNumber, e)
    case Ok(body) =>
      var page := reg.page(body);
      match page.detailTab
      case None => Failed(licenseNumber, page.alert.GetOr(NotFoundMessage))
      case Some(labels) => Assemble(licenseNumber, body, FieldMap(labels))
  }

  /** A lookup succeeds exactly when the request succeeds and the answer has the details tab. */
  lemma LookupSucceedsIff(reg: Registry, licenseNumber: string)
    ensures Lookup(reg, licenseNumber).Found? <==>
      reg.detail(licenseNumber).Ok? && reg.page(reg.detail(licenseNumber).body).detailTab.Some?
  {
  }

  /** A details tab with no `Status` label gives an ACTIVE license. */
  lemma MissingStatusIsActive(reg: Registry, licenseNumber: string)
    requires reg.detail(licenseNumber).Ok?
    requires reg.page(reg.detail(licenseNumber).body).detailTab.Some?
    requires var labels := reg.page(reg.detail(licenseNumber).body).detailTab.value;
      forall i :: 0 <= i < |labels| ==> labels[i].key != "Status"
    ensures Lookup(reg, licenseNumber).status == "ACTIVE"
  {
    FieldIsLastLabel(reg.page(reg.detail(licenseNumber).body).detailTab.value, "Status");
  }

  // ---------------------------------------------------------------- name search

  /** The rows the search scans: those of the `<tbody>`, or of the whole table. */
  function RowsOf(t: ResultsTable): (rows: seq<seq<Cell>>)
    ensures t.tbody.Some? ==> rows == t.tbody.value
    ensures t.tbody.None? ==> rows == t.rows
  {
    t.tbody.GetOr(t.rows)
  }

  /** One row with at least five cells, as a hit. */
  function HitOf(row: seq<Cell>): (hit: SearchHit)
    requires |row| >= 5
    ensures row[0].licenseInput.Some? ==> hit.licenseNumber == row[0].licenseInput.value
    ensures row[0].licenseInput.None? ==> hit.licenseNumber == row[0].text
    ensures hit.name == row[1].text && hit.licenseType == row[3].text
    ensures hit.address == Some(row[2].text) && hit.board == row[4].text
  {
    SearchHit(row[0].licenseInput.GetOr(row[0].text), row[1].text, Some(row[2].text), row[3].text, row[4].text)
  }

  /** The hit a row gives: one when it has at least five cells, none otherwise. */
  function RowHits(row: seq<Cell>): seq<SearchHit> {
    if |row| >= 5 then [HitOf(row)] else []
  }

  /** The hits of the rows that have at least five cells, in row order. */
  function Hits(rows: seq<seq<Cell>>): (hits: seq<SearchHit>)
    ensures |hits| <= |rows|
  {
    if rows == [] then [] else RowHits(rows[0]) + Hits(rows[1..])
  }

  /** The hits of consecutive runs of rows follow each other. */
  lemma {:induction false} HitsAppend(a: seq<seq<Cell>>, b: seq<seq<Cell>>)
    ensures Hits(a + b) == Hits(a) + Hits(b)
  {
    if a == [] {
      assert a + b == b;
    } else {
      assert (a + b)[1..] == a[1..] + b;
      HitsAppend(a[1..], b);
    }
  }

  /** The hits of a row put in front of others. */
  lemma HitsCons(row: seq<Cell>, rest: seq<seq<Cell>>)
    ensures Hits([row] + rest) == RowHits(row) + Hits(rest)
  {
    assert ([row] + rest)[1..] == rest;
  }

  /** One more row scanned gives that row's hits after the earlier ones. */
  lemma HitsStep(rows: seq<seq<Cell>>, i: nat)
    requires i < |rows|
    ensures Hits(rows[..i + 1]) == Hits(rows[..i]) + RowHits(rows[i])
  {
    TakeOneMore(rows, i);
    HitsAppend(rows[..i], [rows[i]]);
    HitsCons(rows[i], []);
    assert [rows[i]] + [] == [rows[i]];
  }

  /** The hits of the rows around row `j`, and row `j`'s own. */
  lemma HitsAround(rows: seq<seq<Cell>>, j: nat)
    requires j < |rows|
    ensures Hits(rows) == Hits(rows[..j]) + RowHits(rows[j]) + Hits(rows[j + 1..])
  {
    SplitAround(rows, j);
    HitsAppend(rows[..j], [rows[j]] + rows[j + 1..]);
    HitsCons(rows[j], rows[j + 1..]);
  }

  /** Every hit is the reading of some row with at least five cells. */
  lemma {:induction false} HitsComeFromRows(rows: seq<seq<Cell>>, i: nat)
    requires i < |Hits(rows)|
    ensures exists j :: 0 <= j < |rows| && |rows[j]| >= 5 && Hits(rows)[i] == HitOf(rows[j])
  {
    var rest := rows[1..];
    var first := RowHits(rows[0]);
    if i < |first| {
      assert Hits(rows)[i] == HitOf(rows[0]);
    } else {
      HitsComeFromRows(rest, i - |first|);
      var j :| 0 <= j < |rest| && |rest[j]| >= 5 && Hits(rest)[i - |first|] == HitOf(rest[j]);
      assert rows[j + 1] == rest[j];
    }
  }

  /**
   * Rows keep their place among the hits: a row with at least five cells
   * gives its hit between those of the rows before and after it, and only a
   * shorter row gives none.
   */
  lemma FullRowsAreKept(rows: seq<seq<Cell>>, j: nat)
    requires j < |rows|
    ensures |rows[j]| >= 5 ==> Hits(rows) == Hits(rows[..j]) + [HitOf(rows[j])] + Hits(rows[j + 1..])
    ensures |rows[j]| < 5 ==> Hits(rows) == Hits(rows[..j]) + Hits(rows[j + 1..])
  {
    HitsAround(rows, j);
    var before, after := Hits(rows[..j]), Hits(rows[j + 1..]);
    if RowHits(rows[j]) == [] {
      assert before + [] == before;
    }
  }

  /**
   * `search_licenses`: a failed request, or an answer without the results
   * table, gives no hits; otherwise the first `limit` rows (Python slicing)
   * are scanned. Callers that omit `limit` get 20.
   */
  method Search(reg: Registry, query: string, limit: int) returns (hits: seq<SearchHit>)
    ensures reg.search(query).Err? ==> hits == []
    ensures reg.search(query).Ok? && reg.page(reg.search(query).body).resultsTable.None? ==> hits == []
    ensures reg.search(query).Ok? && reg.page(reg.search(query).body).resultsTable.Some? ==>
      hits == Hits(SliceTo(RowsOf(reg.page(reg.search(query).body).resultsTable.value), limit))
    ensures limit >= 0 ==> |hits| <= limit
  {
    hits := [];
    match reg.search(query) {
      case Err(_) =>
        return;
      case Ok(body) =>
        var table := reg.page(body).resultsTable;
        if table.None? {
          return;
        }
        var rows := SliceTo(RowsOf(table.value), limit);
        var i := 0;
        while i < |rows|
          invariant 0 <= i <= |rows|
          invariant hits == Hits(rows[..i])
        {
          var cells := rows[i];
          if |cells| >= 5 {
            hits := hits + [HitOf(cells)];
          }
          HitsStep(rows, i);
          i := i + 1;
        }
        assert rows[..i] == rows;
    }
  }
}
