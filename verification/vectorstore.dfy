/** `VectorStoreService`: the collection-name derivation of
    `get_or_create_vectorstore` and the write sequence of `embed_documets`.
    Chroma, the embeddings and the text splitter are uninterpreted. */
module VectorStore {
  import opened Basics
  import opened TextClean
  import opened Scrape

  const COLLECTION_SUFFIX: string := "_vectorstore"
  const AGGREGATE_COMPANY: string := "all_companies"

  /** `str.lower()` on one character, for the ASCII range. */
  function LowerChar(c: char): char {
    if 'A' <= c <= 'Z' then (c as int + 32) as char else c
  }

  /** Lower-casing keeps whitespace and yields no upper-case ASCII letter. */
  lemma LowerCharFacts(c: char)
    ensures IsSpace(LowerChar(c)) <==> IsSpace(c)
    ensures !('A' <= LowerChar(c) <= 'Z')
  {
  }

  function Lower(s: string): (r: string)
    ensures |r| == |s|
    ensures forall i :: 0 <= i < |s| ==> r[i] == LowerChar(s[i])
    ensures forall i :: 0 <= i < |s| ==> (IsSpace(r[i]) <==> IsSpace(s[i])) && !('A' <= r[i] <= 'Z')
  {
    var r := seq(|s|, i requires 0 <= i < |s| => LowerChar(s[i]));
    assert forall i :: 0 <= i < |s| ==> (IsSpace(r[i]) <==> IsSpace(s[i])) && !('A' <= r[i] <= 'Z') by {
      forall i | 0 <= i < |s|
        ensures (IsSpace(r[i]) <==> IsSpace(s[i])) && !('A' <= r[i] <= 'Z')
      {
        LowerCharFacts(s[i]);
      }
    }
    r
  }

  lemma LowerOfLowercase(s: string)
    requires forall i :: 0 <= i < |s| ==> !('A' <= s[i] <= 'Z')
    ensures Lower(s) == s
  {
  }

  /** `f'{company.strip().lower()}_vectorstore'`. */
  function CollectionName(company: string): (name: string)
    ensures |name| >= |COLLECTION_SUFFIX|
    ensures name[|name| - |COLLECTION_SUFFIX|..] == COLLECTION_SUFFIX
    ensures NoEdgeSpace(name[..|name| - |COLLECTION_SUFFIX|])
    ensures forall i :: 0 <= i < |name| - |COLLECTION_SUFFIX| ==> !('A' <= name[i] <= 'Z')
  {
    var stem := Lower(Strip(company));
    assert (stem + COLLECTION_SUFFIX)[..|stem|] == stem;
    stem + COLLECTION_SUFFIX
  }

  /** The shared collection every company's chunks are also written to. */
  function AggregateCollection(): string {
    CollectionName(AGGREGATE_COMPANY)
  }

  /** Scanning forward passes over a run of whitespace. */
  lemma {:induction false} SkipOver(w: string, i: nat, j: nat)
    requires i <= j <= |w|
    requires forall k :: i <= k < j ==> IsSpace(w[k])
    ensures SkipSpace(w, i) == SkipSpace(w, j)
    decreases j - i
  {
    if i < j {
      SkipOver(w, i + 1, j);
    }
  }

  /** Scanning backward passes over a run of whitespace. */
  lemma {:induction false} BackOver(w: string, i: nat, j: nat)
    requires i <= j <= |w|
    requires forall k :: i <= k < j ==> IsSpace(w[k])
    ensures BackSpace(w, j) == BackSpace(w, i)
    decreases j - i
  {
    if i < j {
      BackOver(w, i, j - 1);
    }
  }

  /** Scanning forward in a string that holds `s` at offset `p` finds what
      scanning `s` finds, once `s` has a non-whitespace character ahead. */
  lemma {:induction false} SkipShift(w: string, s: string, p: nat, i: nat)
    requires p + |s| <= |w| && forall k :: 0 <= k < |s| ==> w[p + k] == s[k]
    requires i <= |s| && SkipSpace(s, i) < |s|
    ensures SkipSpace(w, p + i) == p + SkipSpace(s, i)
    decreases |s| - i
  {
    assert w[p + i] == s[i];
    if IsSpace(s[i]) {
      SkipShift(w, s, p, i + 1);
    }
  }

  /** Scanning backward in a string that holds `s` at offset `p` finds what
      scanning `s` finds, once `s` has a non-whitespace character behind. */
  lemma {:induction false} BackShift(w: string, s: string, p: nat, j: nat)
    requires p + |s| <= |w| && forall k :: 0 <= k < |s| ==> w[p + k] == s[k]
    requires j <= |s| && 0 < BackSpace(s, j)
    ensures BackSpace(w, p + j) == p + BackSpace(s, j)
    decreases j
  {
    assert w[p + j - 1] == s[j - 1];
    if IsSpace(s[j - 1]) {
      BackShift(w, s, p, j - 1);
    }
  }

  lemma SliceOfSlice(w: string, s: string, p: nat, lo: nat, hi: nat)
    requires p + |s| <= |w| && forall k :: 0 <= k < |s| ==> w[p + k] == s[k]
    requires lo <= hi <= |s|
    ensures w[p + lo..p + hi] == s[lo..hi]
  {
    assert forall k :: 0 <= k < hi - lo ==> w[p + lo..p + hi][k] == s[lo..hi][k];
  }

  /** `s` sits at offset `p` of `w`, with only whitespace around it. */
  predicate Padded(w: string, s: string, p: nat) {
    && p + |s| <= |w|
    && (forall k :: 0 <= k < |s| ==> w[p + k] == s[k])
    && (forall k :: 0 <= k < p ==> IsSpace(w[k]))
    && (forall k :: p + |s| <= k < |w| ==> IsSpace(w[k]))
  }

  lemma PaddedStart(w: string, s: string, p: nat)
    requires Padded(w, s, p) && Start(s) < |s|
    ensures Start(w) == p + Start(s)
  {
    SkipOver(w, 0, p);
    SkipShift(w, s, p, 0);
  }

  lemma PaddedEnd(w: string, s: string, p: nat)
    requires Padded(w, s, p) && Start(s) < |s|
    ensures End(w) == p + End(s)
  {
    StartEnd(s);
    BackOver(w, p + |s|, |w|);
    BackShift(w, s, p, |s|);
  }

  lemma PaddedBlank(w: string, s: string, p: nat)
    requires Padded(w, s, p) && Start(s) == |s|
    ensures Start(w) == |w|
  {
    SkipOver(w, 0, p);
    assert forall k :: p <= k < p + |s| ==> w[k] == s[k - p];
    SkipOver(w, p, p + |s|);
    SkipOver(w, p + |s|, |w|);
  }

  /** A string that holds `s` at offset `p`, with only whitespace around it,
      strips to the same text as `s`. */
  lemma StripOfPadded(w: string, s: string, p: nat)
    requires Padded(w, s, p)
    ensures Strip(w) == Strip(s)
  {
    if Start(s) < |s| {
      PaddedStart(w, s, p);
      PaddedEnd(w, s, p);
      StripSlice(s);
      StripSlice(w);
      SliceOfSlice(w, s, p, Start(s), End(s));
    } else {
      PaddedBlank(w, s, p);
      StartEnd(s);
      StartEnd(w);
    }
  }

  /** `str.strip()` does not see whitespace padding around its argument. */
  lemma StripIgnoresPadding(pre: string, s: string, post: string)
    requires AllSpace(pre) && AllSpace(post)
    ensures Strip(pre + s + post) == Strip(s)
  {
    StripOfPadded(pre + s + post, s, |pre|);
  }

  /** Surrounding whitespace does not change the collection. */
  lemma CollectionNameIgnoresPadding(pre: string, company: string, post: string)
    requires AllSpace(pre) && AllSpace(post)
    ensures CollectionName(pre + company + post) == CollectionName(company)
  {
    StripIgnoresPadding(pre, company, post);
  }

  /** Whitespace sits at the same positions in both strings. */
  predicate SameSpaces(a: string, b: string) {
    |a| == |b| && forall i :: 0 <= i < |a| ==> (IsSpace(a[i]) <==> IsSpace(b[i]))
  }

  lemma {:induction false} SkipSamePattern(a: string, b: string, i: nat)
    requires SameSpaces(a, b) && i <= |a|
    ensures SkipSpace(a, i) == SkipSpace(b, i)
    decreases |a| - i
  {
    if i < |a| && IsSpace(a[i]) {
      SkipSamePattern(a, b, i + 1);
    }
  }

  lemma {:induction false} BackSamePattern(a: string, b: string, j: nat)
    requires SameSpaces(a, b) && j <= |a|
    ensures BackSpace(a, j) == BackSpace(b, j)
    decreases j
  {
    if 0 < j && IsSpace(a[j - 1]) {
      BackSamePattern(a, b, j - 1);
    }
  }

  /** Lower-casing moves no character into or out of the whitespace class. */
  lemma LowerKeepsSpaces(s: string)
    ensures SameSpaces(s, Lower(s))
  {
  }

  /** Lower-casing a slice is slicing the lower-cased string. */
  lemma LowerSlice(s: string, lo: nat, hi: nat)
    requires lo <= hi <= |s|
    ensures Lower(s[lo..hi]) == Lower(s)[lo..hi]
  {
    assert forall i :: 0 <= i < hi - lo ==> Lower(s[lo..hi])[i] == Lower(s)[lo..hi][i];
  }

  /** Stripping and lower-casing commute. */
  lemma LowerStripCommute(s: string)
    ensures Lower(Strip(s)) == Strip(Lower(s))
  {
    var t := Lower(s);
    LowerKeepsSpaces(s);
    SkipSamePattern(s, t, 0);
    BackSamePattern(s, t, |s|);
    if Start(s) < End(s) {
      LowerSlice(s, Start(s), End(s));
    }
  }

  /** Names that differ only in letter case map to the same collection. */
  lemma CollectionNameIgnoresCase(a: string, b: string)
    requires Lower(a) == Lower(b)
    ensures CollectionName(a) == CollectionName(b)
  {
    LowerStripCommute(a);
    LowerStripCommute(b);
  }

  /** Two company names share a collection exactly when they agree after
      `strip()` and lower-casing: distinct normalised names never collide. */
  lemma CollectionNameInjective(a: string, b: string)
    ensures CollectionName(a) == CollectionName(b) <==> Lower(Strip(a)) == Lower(Strip(b))
  {
    if CollectionName(a) == CollectionName(b) {
      var sa, sb := Lower(Strip(a)), Lower(Strip(b));
      assert sa == (sa + COLLECTION_SUFFIX)[..|sa|];
      assert sb == (sb + COLLECTION_SUFFIX)[..|sb|];
    }
  }

  /** One effect `embed_documets` attempts, in the order it attempts them. */
  datatype Step =
    | Open(collection: string)                       // constructing a `Chroma` store
    | Split(docs: seq<Document>)                     // `text_splitter.split_documents`
    | Add(collection: string, chunks: seq<Document>) // `aadd_documents`

  /** The splitter (size 750, overlap 50) and which effects raise. */
  datatype StoreEnv = StoreEnv(split: seq<Document> -> seq<Document>, fails: Step -> bool)

  /** The effects actually attempted, and whether the call returned normally. */
  datatype Run = Run(trace: seq<Step>, ok: bool)

  /** Runs `plan` in order; the first step that raises ends the run and the
      exception is re-raised. */
  function Execute(fails: Step -> bool, plan: seq<Step>): (r: Run)
    ensures |r.trace| <= |plan| && r.trace == plan[..|r.trace|]
    ensures forall i :: 0 <= i < |r.trace| - 1 ==> !fails(r.trace[i])
    ensures r.ok <==> r.trace == plan && forall i :: 0 <= i < |plan| ==> !fails(plan[i])
    ensures !r.ok ==> r.trace != [] && fails(r.trace[|r.trace| - 1])
    ensures plan != [] ==> r.trace != []
    decreases |plan|
  {
    if plan == [] then Run([], true)
    else if fails(plan[0]) then Run([plan[0]], false)
    else
      var rest := Execute(fails, plan[1..]);
      Run([plan[0]] + rest.trace, rest.ok)
  }

  /** The writes of a trace, in order. */
  function Writes(trace: seq<Step>): (ws: seq<Step>)
    ensures forall i :: 0 <= i < |ws| ==> ws[i].Add?
    decreases |trace|
  {
    if trace == [] then []
    else
      var last := trace[|trace| - 1];
      Writes(trace[..|trace| - 1]) + (if last.Add? then [last] else [])
  }

  /** What `embed_documets` sets out to do once the two collection names are
      known: the chunks are computed once and the same list goes to both. */
  function EmbedPlan(split: seq<Document> -> seq<Document>, target: string, aggregate: string, docs: seq<Document>): seq<Step> {
    var chunks := split(docs);
    [Open(target), Split(docs), Add(target, chunks), Open(aggregate), Add(aggregate, chunks)]
  }

  /** The writes of `embed_documets` into the collections `target` and
      `aggregate`: in that order, both when the call returns normally, and
      the failing step ends the call. */
  function EmbedInto(env: StoreEnv, target: string, aggregate: string, docs: seq<Document>): (r: Run)
    ensures r.trace != [] && r.trace[0] == Open(target)
    ensures |r.trace| <= 5 && r.trace == EmbedPlan(env.split, target, aggregate, docs)[..|r.trace|]
    ensures var full := [Add(target, env.split(docs)), Add(aggregate, env.split(docs))];
      |Writes(r.trace)| <= 2 && Writes(r.trace) == full[..|Writes(r.trace)|]
    ensures r.ok ==> |Writes(r.trace)| == 2
    ensures !r.ok ==> env.fails(r.trace[|r.trace| - 1]) && |Writes(r.trace[..|r.trace| - 1])| < 2
    ensures r.ok <==> forall s :: s in EmbedPlan(env.split, target, aggregate, docs) ==> !env.fails(s)
    ensures forall i :: 0 <= i < |r.trace| - 1 ==> !env.fails(r.trace[i])
  {
    var plan := EmbedPlan(env.split, target, aggregate, docs);
    ExecuteFivePlan(env.fails, plan);
    Execute(env.fails, plan)
  }

  /** `embed_documets(company, docs)`: the company's own collection, then the
      aggregate one. */
  function EmbedDocuments(env: StoreEnv, company: string, docs: seq<Document>): (r: Run)
    ensures r.trace != [] && r.trace[0] == Open(CollectionName(company))
    ensures |r.trace| <= 5 && r.trace == EmbedPlan(env.split, CollectionName(company), AggregateCollection(), docs)[..|r.trace|]
    ensures var full := [Add(CollectionName(company), env.split(docs)), Add(AggregateCollection(), env.split(docs))];
      |Writes(r.trace)| <= 2 && Writes(r.trace) == full[..|Writes(r.trace)|]
    ensures r.ok ==> |Writes(r.trace)| == 2
    ensures !r.ok ==> env.fails(r.trace[|r.trace| - 1]) && |Writes(r.trace[..|r.trace| - 1])| < 2
    ensures r.ok <==> forall s :: s in EmbedPlan(env.split, CollectionName(company), AggregateCollection(), docs) ==> !env.fails(s)
    ensures forall i :: 0 <= i < |r.trace| - 1 ==> !env.fails(r.trace[i])
  {
    EmbedInto(env, CollectionName(company), AggregateCollection(), docs)
  }

  lemma WritesOfPrefix(plan: seq<Step>, j: nat)
    requires 0 < j <= |plan|
    ensures Writes(plan[..j]) == Writes(plan[..j - 1]) + (if plan[j - 1].Add? then [plan[j - 1]] else [])
  {
    assert plan[..j][..j - 1] == plan[..j - 1];
  }

  /** The writes of each prefix of a five-step plan whose third and fifth steps write. */
  lemma PlanWrites(plan: seq<Step>, k: nat)
    requires |plan| == 5 && k <= 5
    requires !plan[0].Add? && !plan[1].Add? && plan[2].Add? && !plan[3].Add? && plan[4].Add?
    ensures k == 5 ==> Writes(plan[..k]) == [plan[2], plan[4]]
    ensures k < 5 ==> Writes(plan[..k]) == (if k <= 2 then [] else [plan[2]])
  {
    assert Writes(plan[..0]) == [];
    WritesOfPrefix(plan, 1);
    WritesOfPrefix(plan, 2);
    WritesOfPrefix(plan, 3);
    WritesOfPrefix(plan, 4);
    WritesOfPrefix(plan, 5);
  }

  /** Running a five-step plan whose third and fifth steps write: the writes
      happen in plan order, both of them when the run completes. */
  lemma ExecuteFivePlan(fails: Step -> bool, plan: seq<Step>)
    requires |plan| == 5
    requires !plan[0].Add? && !plan[1].Add? && plan[2].Add? && !plan[3].Add? && plan[4].Add?
    ensures var r := Execute(fails, plan);
      && r.trace != [] && r.trace[0] == plan[0]
      && |Writes(r.trace)| <= 2 && Writes(r.trace) == [plan[2], plan[4]][..|Writes(r.trace)|]
      && (r.ok ==> |Writes(r.trace)| == 2)
      && (!r.ok ==> fails(r.trace[|r.trace| - 1]) && |Writes(r.trace[..|r.trace| - 1])| < 2)
  {
    var trace := Execute(fails, plan).trace;
    PlanWrites(plan, |trace|);
    assert trace[..|trace| - 1] == plan[..|trace| - 1];
    PlanWrites(plan, |trace| - 1);
  }

  /** A write to the aggregate collection happens only after the company's
      own write succeeded. */
  lemma AggregateAfterCompany(env: StoreEnv, company: string, docs: seq<Document>)
    ensures var r := EmbedDocuments(env, company, docs);
      |r.trace| == 5 ==> r.trace[2] == Add(CollectionName(company), env.split(docs)) && !env.fails(r.trace[2])
  {
  }

  /** `all_companies` is already stripped and lower-case. */
  lemma AggregateStripped()
    ensures Strip(AGGREGATE_COMPANY) == AGGREGATE_COMPANY
  {
    StripOfStripped(AGGREGATE_COMPANY);
  }

  lemma AggregateLowered()
    ensures Lower(AGGREGATE_COMPANY) == AGGREGATE_COMPANY
  {
    LowerOfLowercase(AGGREGATE_COMPANY);
  }

  /** `get_or_create_vectorstore('all_companies')` opens `all_companies_vectorstore`. */
  lemma AggregateCollectionName()
    ensures AggregateCollection() == "all_companies_vectorstore"
  {
    AggregateStripped();
    AggregateLowered();
    assert AggregateCollection() == AGGREGATE_COMPANY + COLLECTION_SUFFIX;
  }

  /** Only a company whose normalised name is `all_companies` writes its own
      chunks to the aggregate collection. */
  lemma CollectionNameIsAggregate(company: string)
    ensures CollectionName(company) == AggregateCollection() <==> Lower(Strip(company)) == AGGREGATE_COMPANY
  {
    AggregateStripped();
    AggregateLowered();
    var s := Lower(Strip(company));
    if CollectionName(company) == AggregateCollection() {
      assert s == (s + COLLECTION_SUFFIX)[..|s|];
      assert AGGREGATE_COMPANY == (AGGREGATE_COMPANY + COLLECTION_SUFFIX)[..|AGGREGATE_COMPANY|];
    }
  }

  /** A company whose normalized name is `all_companies` targets the aggregate
      collection itself, so its chunks land there twice. */
  lemma AggregateCompanyWrittenTwice(env: StoreEnv, company: string, docs: seq<Document>)
    requires Lower(Strip(company)) == AGGREGATE_COMPANY
    ensures CollectionName(company) == AggregateCollection()
    ensures EmbedDocuments(env, company, docs).ok ==>
      Writes(EmbedDocuments(env, company, docs).trace) ==
        [Add(AggregateCollection(), env.split(docs)), Add(AggregateCollection(), env.split(docs))]
  {
    AggregateCollectionName();
  }
}
