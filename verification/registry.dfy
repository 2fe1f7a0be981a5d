/** The company registry: rows of the CSV with `Company` and `URL` columns,
    `get_companies_from_csv`, and the `df[df['URL'] == url]['Company'].iloc[0]`
    lookup used when grouping. */
module Registry {
  import opened Basics

  datatype Row = Row(company: string, url: string)

  /** Outcome of reading the CSV file with pandas. A readable file is a
      `Table` with both a `Company` and a `URL` column; a readable file that
      lacks one of the columns has no representation here. */
  datatype CsvRead =
    | MissingFile            // `os.path.exists` is false
    | ReadRaised             // `read_csv` raised: the file is unreadable or not a CSV
    | Table(rows: seq<Row>)

  /** `df['URL'].tolist()` */
  function UrlColumn(rows: seq<Row>): (us: seq<string>)
    ensures |us| == |rows|
    ensures forall i :: 0 <= i < |rows| ==> us[i] == rows[i].url
  {
    seq(|rows|, i requires 0 <= i < |rows| => rows[i].url)
  }

  /** `df['Company']` as a list. */
  function CompanyColumn(rows: seq<Row>): (cs: seq<string>)
    ensures |cs| == |rows|
    ensures forall i :: 0 <= i < |rows| ==> cs[i] == rows[i].company
  {
    seq(|rows|, i requires 0 <= i < |rows| => rows[i].company)
  }

  /** pandas `Series.unique()`: each value once, in order of first occurrence. */
  function Unique(xs: seq<string>): (r: seq<string>)
    ensures NoDups(r)
    ensures forall x :: x in r <==> x in xs
    decreases |xs|
  {
    if xs == [] then []
    else
      var u := Unique(xs[..|xs| - 1]);
      var x := xs[|xs| - 1];
      assert xs == xs[..|xs| - 1] + [x];
      if x in u then u else u + [x]
  }

  /** Values are listed in the order of their first occurrence. */
  lemma {:induction false} UniqueKeepsFirstOccurrenceOrder(xs: seq<string>)
    ensures forall i, j :: 0 <= i < j < |Unique(xs)| ==>
      FirstIndex(xs, Unique(xs)[i]) < FirstIndex(xs, Unique(xs)[j])
    decreases |xs|
  {
    if xs != [] {
      var init := xs[..|xs| - 1];
      var x := xs[|xs| - 1];
      UniqueKeepsFirstOccurrenceOrder(init);
      assert xs == init + [x];
      FirstIndexOfPrefix(init, x);
    }
  }

  /** Adding an element at the end does not move earlier first occurrences. */
  lemma FirstIndexOfPrefix(init: seq<string>, x: string)
    ensures forall y :: y in init ==> FirstIndex(init + [x], y) == FirstIndex(init, y)
    ensures x !in init ==> FirstIndex(init + [x], x) == |init|
  {
    forall y | y in init
      ensures FirstIndex(init + [x], y) == FirstIndex(init, y)
    {
      var k := FirstIndex(init, y);
      var k' := FirstIndex(init + [x], y);
      assert (init + [x])[k] == y;
    }
  }

  /** Pandas' unique on a sequence that already has no repeats changes nothing. */
  lemma {:induction false} UniqueOfDistinct(xs: seq<string>)
    requires NoDups(xs)
    ensures Unique(xs) == xs
    decreases |xs|
  {
    if xs != [] {
      var init := xs[..|xs| - 1];
      UniqueOfDistinct(init);
      assert xs[|xs| - 1] !in init;
      assert xs == init + [xs[|xs| - 1]];
    }
  }

  /** `get_companies_from_csv(file_path)`. */
  function CompaniesFromCsv(file: CsvRead): (names: seq<string>)
    ensures !file.Table? ==> names == []
    ensures file.Table? ==> NoDups(names)
    ensures file.Table? ==> forall i :: 0 <= i < |file.rows| ==> file.rows[i].company in names
    ensures file.Table? ==> forall n :: n in names ==> exists i :: 0 <= i < |file.rows| && file.rows[i].company == n
  {
    match file
    case MissingFile => []
    case ReadRaised => []
    case Table(rows) =>
      var names := Unique(CompanyColumn(rows));
      assert forall n :: n in names ==> CompanyColumn(rows)[FirstIndex(CompanyColumn(rows), n)] == n;
      names
  }

  /** The names come out in the order in which the rows first mention them. */
  lemma CompaniesInFirstMentionOrder(rows: seq<Row>)
    ensures forall n :: n in CompaniesFromCsv(Table(rows)) <==> n in CompanyColumn(rows)
    ensures var names := CompaniesFromCsv(Table(rows));
      forall i, j :: 0 <= i < j < |names| ==>
        FirstIndex(CompanyColumn(rows), names[i]) < FirstIndex(CompanyColumn(rows), names[j])
  {
    UniqueKeepsFirstOccurrenceOrder(CompanyColumn(rows));
  }

  /** Index of the first row whose `URL` equals `url`, if any. */
  function FirstRow(rows: seq<Row>, url: string): (r: Option<nat>)
    ensures r.None? <==> forall i :: 0 <= i < |rows| ==> rows[i].url != url
    ensures r.Some? ==> r.value < |rows| && rows[r.value].url == url
    ensures r.Some? ==> forall j :: 0 <= j < r.value ==> rows[j].url != url
  {
    var us := UrlColumn(rows);
    if url in us then Some(FirstIndex(us, url)) else None
  }

  predicate Registered(rows: seq<Row>, url: string) {
    FirstRow(rows, url).Some?
  }

  /** `df[df['URL'] == url]['Company'].iloc[0]`; raises when no row matches. */
  function CompanyFor(rows: seq<Row>, url: string): string
    requires Registered(rows, url)
  {
    rows[FirstRow(rows, url).value].company
  }

  /** Every URL of the registry is found by its own lookup. */
  lemma RegistryUrlsRegistered(rows: seq<Row>, i: nat)
    requires i < |rows|
    ensures Registered(rows, rows[i].url)
    ensures FirstRow(rows, rows[i].url).value <= i
  {
  }
}
