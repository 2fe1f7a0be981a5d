/** `ITKService.scrape_and_store_data` and the store choice of `ITKService.chat`:
    the whole ingestion cycle from the registry file to the vector stores. */
module Ingest {
  import opened Basics
  import opened TextClean
  import opened Scrape
  import opened Registry
  import opened Grouping
  import opened VectorStore

  /** One `embed_documets(company, docs)` task and what it did. */
  datatype EmbedCall = EmbedCall(company: string, docs: seq<Document>, run: Run)

  /** Outcome of one ingestion cycle. `LoadRaised`: `pd.read_csv` raised (a
      missing or unreadable file), so nothing was scraped or stored. */
  datatype Cycle =
    | LoadRaised
    | Completed(documents: seq<Document>, calls: seq<EmbedCall>, ok: bool)

  /** The documents handed to the embedding tasks, task after task. */
  function CallDocs(calls: seq<EmbedCall>): seq<Document>
    decreases |calls|
  {
    if calls == [] then []
    else CallDocs(calls[..|calls| - 1]) + calls[|calls| - 1].docs
  }

  /** Appending the task for `order[k]` keeps the tasks' documents equal to
      the groups of `order[..k + 1]` laid end to end. */
  lemma CallDocsStep(calls: seq<EmbedCall>, x: EmbedCall, order: seq<string>, m: map<string, seq<Document>>, k: nat)
    requires k < |order| && order[k] in m && x.docs == m[order[k]]
    requires CallDocs(calls) == Concat(order[..k], m)
    ensures CallDocs(calls + [x]) == Concat(order[..k + 1], m)
  {
    assert (calls + [x])[..|calls|] == calls;
    assert order[..k + 1][..k] == order[..k];
  }

  /** No embedding task raised. */
  predicate AllOk(calls: seq<EmbedCall>) {
    forall j :: 0 <= j < |calls| ==> calls[j].run.ok
  }

  lemma AllOkStep(calls: seq<EmbedCall>, x: EmbedCall)
    ensures AllOk(calls + [x]) <==> AllOk(calls) && x.run.ok
  {
    assert forall j :: 0 <= j < |calls| ==> (calls + [x])[j] == calls[j];
    assert (calls + [x])[|calls|] == x;
  }

  /** Every scraped document carries one of the registry's URLs, so the
      attribution in `parse_results` never raises here. */
  lemma ScrapedAreRegistered(isWord: char -> bool, web: Web, rows: seq<Row>, docs: seq<Document>)
    requires |docs| == |rows|
    requires forall i :: 0 <= i < |rows| ==> docs[i] == ProcessUrl(isWord, web, rows[i].url)
    ensures AllRegistered(rows, docs)
  {
    forall i | 0 <= i < |docs|
      ensures Registered(rows, docs[i].source)
    {
      RegistryUrlsRegistered(rows, i);
    }
  }

  /** The fan-out of `scrape_and_store_data`: one task `embed(company, docs)`
      per company, in the dictionary's order. `asyncio.gather` lets every task
      run; the cycle is `ok` only if none raised. */
  method EmbedAll(embed: (string, seq<Document>) -> Run, order: seq<string>, m: map<string, seq<Document>>)
    returns (calls: seq<EmbedCall>, ok: bool)
    requires forall c :: c in order ==> c in m
    ensures |calls| == |order|
    ensures forall j :: 0 <= j < |order| ==>
      calls[j] == EmbedCall(order[j], m[order[j]], embed(order[j], m[order[j]]))
    ensures CallDocs(calls) == Concat(order, m)
    ensures ok <==> forall j :: 0 <= j < |calls| ==> calls[j].run.ok
  {
    calls, ok := [], true;
    var k := 0;
    while k < |order|
      invariant k <= |order| && |calls| == k
      invariant forall j :: 0 <= j < k ==>
        calls[j] == EmbedCall(order[j], m[order[j]], embed(order[j], m[order[j]]))
      invariant CallDocs(calls) == Concat(order[..k], m)
      invariant ok == AllOk(calls)
      decreases |order| - k
    {
      var company := order[k];
      var call := EmbedCall(company, m[company], embed(company, m[company]));
      CallDocsStep(calls, call, order, m, k);
      AllOkStep(calls, call);
      calls := calls + [call];
      ok := ok && call.run.ok;
      k := k + 1;
    }
    assert order[..k] == order;
  }

  /** The calls made from the groups of `parse_results` are one per company,
      in order of first appearance, each with exactly that company's documents. */
  lemma CallsFollowGroups(env: StoreEnv, keys: seq<string>, docs: seq<Document>, g: Groups, calls: seq<EmbedCall>)
    requires |keys| == |docs|
    requires g.order == Unique(keys)
    requires forall c :: c in g.order <==> c in g.docs
    requires forall c :: c in g.docs ==> g.docs[c] == DocsFor(keys, docs, c) && g.docs[c] != []
    requires |calls| == |g.order|
    requires forall j :: 0 <= j < |g.order| ==>
      calls[j] == EmbedCall(g.order[j], g.docs[g.order[j]], EmbedDocuments(env, g.order[j], g.docs[g.order[j]]))
    ensures |calls| == |Unique(keys)|
    ensures forall j :: 0 <= j < |calls| ==>
      && calls[j].company == Unique(keys)[j]
      && calls[j].docs == DocsFor(keys, docs, calls[j].company)
      && calls[j].docs != []
      && calls[j].run == EmbedDocuments(env, calls[j].company, calls[j].docs)
  {
    forall j | 0 <= j < |calls|
      ensures calls[j].company == Unique(keys)[j]
      ensures calls[j].docs == DocsFor(keys, docs, calls[j].company) && calls[j].docs != []
      ensures calls[j].run == EmbedDocuments(env, calls[j].company, calls[j].docs)
    {
      assert g.order[j] in g.docs;
    }
  }

  /** Lines 108-109 of `scrape_and_store_data`: every registry URL scraped,
      in row order. */
  method ScrapeRegistry(isWord: char -> bool, web: Web, rows: seq<Row>) returns (docs: seq<Document>)
    ensures |docs| == |rows|
    ensures forall i :: 0 <= i < |rows| ==> docs[i] == ProcessUrl(isWord, web, rows[i].url)
    ensures AllRegistered(rows, docs)
  {
    var scraped := ScrapeContent(isWord, web, UrlList(UrlColumn(rows)), DEFAULT_MAX_CONCURRENT);
    docs := scraped.value;
    ScrapedAreRegistered(isWord, web, rows, docs);
  }

  /** Lines 112-120 of `scrape_and_store_data`: group the scraped documents
      and embed each company's group. */
  method StoreGroups(env: StoreEnv, rows: seq<Row>, docs: seq<Document>) returns (calls: seq<EmbedCall>, ok: bool)
    requires AllRegistered(rows, docs)
    ensures var keys := Keys(rows, docs);
      && |calls| == |Unique(keys)|
      && forall j :: 0 <= j < |calls| ==>
        && calls[j].company == Unique(keys)[j]
        && calls[j].docs == DocsFor(keys, docs, calls[j].company)
        && calls[j].docs != []
        && calls[j].run == EmbedDocuments(env, calls[j].company, calls[j].docs)
    ensures multiset(CallDocs(calls)) == multiset(docs)
    ensures ok <==> forall j :: 0 <= j < |calls| ==> calls[j].run.ok
  {
    var parsed := ParseResults(docs, rows);
    var g := parsed.value;
    calls, ok := EmbedAll((company, ds) => EmbedDocuments(env, company, ds), g.order, g.docs);
    CallsFollowGroups(env, Keys(rows, docs), docs, g, calls);
  }

  /** `scrape_and_store_data(file_path)`. */
  method ScrapeAndStore(isWord: char -> bool, web: Web, env: StoreEnv, file: CsvRead) returns (c: Cycle)
    ensures c.LoadRaised? <==> !file.Table?
    ensures c.Completed? ==>
      && |c.documents| == |file.rows|
      && forall i :: 0 <= i < |file.rows| ==> c.documents[i] == ProcessUrl(isWord, web, file.rows[i].url)
    ensures c.Completed? ==>
      && AllRegistered(file.rows, c.documents)
      && var keys := Keys(file.rows, c.documents);
      && |c.calls| == |Unique(keys)|
      && forall j :: 0 <= j < |c.calls| ==>
        && c.calls[j].company == Unique(keys)[j]
        && c.calls[j].docs == DocsFor(keys, c.documents, c.calls[j].company)
        && c.calls[j].docs != []
        && c.calls[j].run == EmbedDocuments(env, c.calls[j].company, c.calls[j].docs)
    ensures c.Completed? ==> multiset(CallDocs(c.calls)) == multiset(c.documents)
    ensures c.Completed? ==> (c.ok <==> forall j :: 0 <= j < |c.calls| ==> c.calls[j].run.ok)
  {
    if !file.Table? {
      return LoadRaised;
    }
    var docs := ScrapeRegistry(isWord, web, file.rows);
    var calls, ok := StoreGroups(env, file.rows, docs);
    return Completed(docs, calls, ok);
  }

  /** A URL listed on several rows credits every one of its documents to the
      company of the first such row. */
  lemma DuplicateUrlGoesToFirstRow(rows: seq<Row>, docs: seq<Document>, i: nat, j: nat)
    requires AllRegistered(rows, docs) && i < |docs|
    requires j < |rows| && rows[j].url == docs[i].source
    requires forall k :: 0 <= k < j ==> rows[k].url != docs[i].source
    ensures Keys(rows, docs)[i] == rows[j].company
  {
  }

  /** `chat(query, company_name)`: the collection it reads. A missing or empty
      name falls back to the aggregate collection. */
  function ChatCollection(companyName: Option<string>): (name: string)
    ensures companyName.None? ==> name == "all_companies_vectorstore"
    ensures companyName.Some? && companyName.value == "" ==> name == "all_companies_vectorstore"
    ensures companyName.Some? && companyName.value != "" ==> name == CollectionName(companyName.value)
  {
    AggregateCollectionName();
    if companyName.None? || companyName.value == "" then AggregateCollection()
    else CollectionName(companyName.value)
  }

  /** Opening the store `chat` reads; the call raises when opening does. */
  function ChatStore(fails: Step -> bool, companyName: Option<string>): (r: Run)
    ensures r.trace == [Open(ChatCollection(companyName))]
    ensures r.ok <==> !fails(Open(ChatCollection(companyName)))
  {
    Execute(fails, [Open(ChatCollection(companyName))])
  }

  /** A chat about a company reads the collection its documents were embedded
      into first. */
  lemma ChatReadsCompanyStore(env: StoreEnv, company: string, docs: seq<Document>)
    requires company != ""
    ensures ChatStore(env.fails, Some(company)).trace[0] == EmbedDocuments(env, company, docs).trace[0]
  {
  }

  /** A name made only of whitespace is not empty, so `chat` does not fall back
      to the aggregate: it opens the collection `_vectorstore`. */
  lemma ChatBlankName(name: string)
    requires name != [] && AllSpace(name)
    ensures ChatCollection(Some(name)) == COLLECTION_SUFFIX
    ensures ChatCollection(Some(name)) != ChatCollection(None)
  {
    StripIgnoresPadding(name, [], []);
    assert name + [] + [] == name;
    assert Strip([]) == [];
  }
}
