/** `ITKService.parse_results`: attribute each scraped document to the company
    of the first registry row with its URL, then group documents by company. */
module Grouping {
  import opened Basics
  import opened Scrape
  import opened Registry

  /** `company_docs`; a Python dict iterates in insertion order, kept in `order`. */
  datatype Groups = Groups(order: seq<string>, docs: map<string, seq<Document>>)

  /** `.iloc[0]` on an empty selection raises `IndexError`. */
  datatype ParseError = NoRowForSource(index: nat)

  /** `company_results`: the company of every document, computed eagerly by
      `list(map(...))`, so the first unregistered source raises. */
  function Attribute(rows: seq<Row>, docs: seq<Document>): (r: Result<seq<string>, ParseError>)
    ensures r.Success? ==> |r.value| == |docs|
    ensures r.Success? ==> forall i :: 0 <= i < |docs| ==>
      Registered(rows, docs[i].source) && r.value[i] == CompanyFor(rows, docs[i].source)
    ensures r.Failure? ==>
      && r.error.index < |docs|
      && !Registered(rows, docs[r.error.index].source)
      && forall j :: 0 <= j < r.error.index ==> Registered(rows, docs[j].source)
    decreases |docs|
  {
    if docs == [] then Success([])
    else if !Registered(rows, docs[0].source) then Failure(NoRowForSource(0))
    else
      match Attribute(rows, docs[1..])
      case Success(cs) => Success([CompanyFor(rows, docs[0].source)] + cs)
      case Failure(NoRowForSource(k)) =>
        assert forall j :: 1 <= j < k + 1 ==> docs[j] == docs[1..][j - 1];
        Failure(NoRowForSource(k + 1))
  }

  /** Reference definition of a group: the documents whose key is `c`, in input order. */
  function DocsFor(keys: seq<string>, docs: seq<Document>, c: string): (r: seq<Document>)
    requires |keys| == |docs|
    ensures r == [] <==> c !in keys
    decreases |docs|
  {
    if docs == [] then []
    else
      var n := |docs| - 1;
      var rest := DocsFor(keys[..n], docs[..n], c);
      assert keys == keys[..n] + [keys[n]];
      if keys[n] == c then rest + [docs[n]] else rest
  }

  /** A group keeps its documents in their relative input order. */
  lemma {:induction false} DocsForKeepsOrder(keys: seq<string>, docs: seq<Document>, c: string)
    requires |keys| == |docs|
    ensures IsSubseq(DocsFor(keys, docs, c), docs)
    decreases |docs|
  {
    if docs != [] {
      var n := |docs| - 1;
      DocsForKeepsOrder(keys[..n], docs[..n], c);
      assert docs == docs[..n] + [docs[n]];
      SnocSubseq(DocsFor(keys[..n], docs[..n], c), docs[..n], docs[n]);
    }
  }

  /** A group is as large as the number of documents attributed to its company. */
  lemma {:induction false} DocsForCount(keys: seq<string>, docs: seq<Document>, c: string)
    requires |keys| == |docs|
    ensures |DocsFor(keys, docs, c)| == multiset(keys)[c]
    decreases |docs|
  {
    if docs != [] {
      var n := |docs| - 1;
      DocsForCount(keys[..n], docs[..n], c);
      assert keys == keys[..n] + [keys[n]];
    }
  }

  /** Growing both sides, or only the larger one, keeps a subsequence. */
  lemma {:induction false} SnocSubseq<T>(a: seq<T>, b: seq<T>, x: T)
    requires IsSubseq(a, b)
    ensures IsSubseq(a + [x], b + [x])
    ensures IsSubseq(a, b + [x])
    decreases |b|
  {
    if a == [] {
      assert a + [x] == [x];
      SingletonInSnoc(b, x);
    } else {
      assert b != [];
      assert (a + [x])[1..] == a[1..] + [x];
      assert (b + [x])[1..] == b[1..] + [x];
      if a[0] == b[0] && IsSubseq(a[1..], b[1..]) {
        SnocSubseq(a[1..], b[1..], x);
      } else {
        SnocSubseq(a, b[1..], x);
      }
    }
  }

  lemma {:induction false} SingletonInSnoc<T>(b: seq<T>, x: T)
    ensures IsSubseq([x], b + [x])
    decreases |b|
  {
    if b != [] {
      assert (b + [x])[1..] == b[1..] + [x];
      SingletonInSnoc(b[1..], x);
    } else {
      assert [x][1..] == [];
    }
  }

  /** One iteration of the grouping loop: create the list on first sight, then append. */
  function Insert(g: Groups, company: string, d: Document): Groups {
    if company in g.docs then Groups(g.order, g.docs[company := g.docs[company] + [d]])
    else Groups(g.order + [company], g.docs[company := [d]])
  }

  /** The grouping loop over the attributed documents. */
  function Group(keys: seq<string>, docs: seq<Document>): (g: Groups)
    requires |keys| == |docs|
    ensures NoDups(g.order)
    ensures forall c :: c in g.order <==> c in keys
    ensures forall c :: c in g.docs <==> c in keys
    decreases |docs|
  {
    if docs == [] then Groups([], map[])
    else
      var n := |docs| - 1;
      assert keys == keys[..n] + [keys[n]];
      Insert(Group(keys[..n], docs[..n]), keys[n], docs[n])
  }

  /** Each group is the reference group of its company. */
  lemma {:induction false} GroupMatchesReference(keys: seq<string>, docs: seq<Document>)
    requires |keys| == |docs|
    ensures forall c :: c in Group(keys, docs).docs ==>
      Group(keys, docs).docs[c] == DocsFor(keys, docs, c) && Group(keys, docs).docs[c] != []
    decreases |docs|
  {
    if docs != [] {
      var n := |docs| - 1;
      GroupMatchesReference(keys[..n], docs[..n]);
      var g := Group(keys[..n], docs[..n]);
      assert Group(keys, docs) == Insert(g, keys[n], docs[n]);
      forall c | c in Group(keys, docs).docs
        ensures Group(keys, docs).docs[c] == DocsFor(keys, docs, c)
      {
        assert DocsFor(keys, docs, c) == DocsFor(keys[..n], docs[..n], c) + (if keys[n] == c then [docs[n]] else []);
      }
    }
  }

  /** Companies appear in the order of their first document, as `Series.unique` lists them. */
  lemma {:induction false} GroupOrder(keys: seq<string>, docs: seq<Document>)
    requires |keys| == |docs|
    ensures Group(keys, docs).order == Unique(keys)
    decreases |docs|
  {
    if docs != [] {
      var n := |docs| - 1;
      GroupOrder(keys[..n], docs[..n]);
      var g := Group(keys[..n], docs[..n]);
      assert Group(keys, docs) == Insert(g, keys[n], docs[n]);
      var u := Unique(keys[..n]);
      assert Unique(keys) == if keys[n] in u then u else u + [keys[n]];
      assert keys[n] in g.docs <==> keys[n] in u;
    }
  }

  /** The groups' documents, concatenated in key order. */
  function Concat(order: seq<string>, m: map<string, seq<Document>>): seq<Document>
    decreases |order|
  {
    if order == [] then []
    else
      var k := order[|order| - 1];
      Concat(order[..|order| - 1], m) + (if k in m then m[k] else [])
  }

  /** `Concat` only reads the keys it lists. */
  lemma {:induction false} ConcatFrame(order: seq<string>, m: map<string, seq<Document>>, k: string, v: seq<Document>)
    requires k !in order
    ensures Concat(order, m[k := v]) == Concat(order, m)
    decreases |order|
  {
    if order != [] {
      ConcatFrame(order[..|order| - 1], m, k, v);
    }
  }

  /** Appending one document to a key listed once adds exactly that document. */
  lemma {:induction false} ConcatAppend(order: seq<string>, m: map<string, seq<Document>>, k: string, d: Document)
    requires NoDups(order) && k in order && k in m
    ensures multiset(Concat(order, m[k := m[k] + [d]])) == multiset(Concat(order, m)) + multiset{d}
    decreases |order|
  {
    var init := order[..|order| - 1];
    var last := order[|order| - 1];
    if last == k {
      assert k !in init;
      ConcatFrame(init, m, k, m[k] + [d]);
    } else {
      assert k in init;
      ConcatAppend(init, m, k, d);
    }
  }

  lemma SnocMultiset<T>(s: seq<T>)
    requires s != []
    ensures multiset(s) == multiset(s[..|s| - 1]) + multiset{s[|s| - 1]}
  {
    assert s == s[..|s| - 1] + [s[|s| - 1]];
  }

  /** The groups partition the documents: every document lies in exactly one
      group, so the group sizes add up to the number of documents. */
  lemma {:induction false} GroupPartition(keys: seq<string>, docs: seq<Document>)
    requires |keys| == |docs|
    ensures multiset(Concat(Group(keys, docs).order, Group(keys, docs).docs)) == multiset(docs)
    ensures |Concat(Group(keys, docs).order, Group(keys, docs).docs)| == |docs|
    decreases |docs|
  {
    if docs != [] {
      var n := |docs| - 1;
      var g := Group(keys[..n], docs[..n]);
      var c, d := keys[n], docs[n];
      var g' := Group(keys, docs);
      assert g' == Insert(g, c, d);
      GroupPartition(keys[..n], docs[..n]);
      SnocMultiset(docs);
      if c in g.docs {
        ConcatAppend(g.order, g.docs, c, d);
      } else {
        assert (g.order + [c])[..|g.order|] == g.order;
        assert Concat(g'.order, g'.docs) == Concat(g.order, g'.docs) + [d];
        ConcatFrame(g.order, g.docs, c, [d]);
      }
    }
  }

  predicate AllRegistered(rows: seq<Row>, docs: seq<Document>) {
    forall i :: 0 <= i < |docs| ==> Registered(rows, docs[i].source)
  }

  /** The company each document is attributed to, when all sources are registered. */
  function Keys(rows: seq<Row>, docs: seq<Document>): (keys: seq<string>)
    requires AllRegistered(rows, docs)
  {
    seq(|docs|, i requires 0 <= i < |docs| && AllRegistered(rows, docs) => CompanyFor(rows, docs[i].source))
  }

  /** `parse_results(results, df)`. */
  function ParseResults(docs: seq<Document>, rows: seq<Row>): (r: Result<Groups, ParseError>)
    ensures r.Success? <==> AllRegistered(rows, docs)
    ensures r.Failure? ==> r.error.index < |docs| && !Registered(rows, docs[r.error.index].source)
    ensures r.Failure? ==> forall j :: 0 <= j < r.error.index ==> Registered(rows, docs[j].source)
    ensures r.Success? ==> NoDups(r.value.order)
    ensures r.Success? ==> forall c :: c in r.value.order <==> c in Keys(rows, docs)
    ensures r.Success? ==> forall c :: c in r.value.docs <==> c in Keys(rows, docs)
    ensures r.Success? ==> forall c :: c in r.value.docs ==>
      r.value.docs[c] == DocsFor(Keys(rows, docs), docs, c) && r.value.docs[c] != []
    ensures r.Success? ==> r.value.order == Unique(Keys(rows, docs))
    ensures r.Success? ==> multiset(Concat(r.value.order, r.value.docs)) == multiset(docs)
  {
    match Attribute(rows, docs)
    case Failure(e) => Failure(e)
    case Success(keys) =>
      assert keys == Keys(rows, docs);
      GroupMatchesReference(keys, docs);
      GroupOrder(keys, docs);
      GroupPartition(keys, docs);
      Success(Group(keys, docs))
  }
}
