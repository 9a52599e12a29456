/** The BM25 full-text index: an inverted index kept by `add` and `remove`, and a
    search that must agree with scoring every document from its own tokens.
    Reals stand for floats and `log` is a parameter. */
module FullText {
  import opened Prelude

  /** What was given to `add` for an id: its tokens and its namespace. */
  datatype Doc = Doc(tokens: seq<string>, namespace: string)

  type Docs = map<string, Doc>
  type Postings = map<string, map<string, nat>>
  type Length = x: real | x >= 0.0

  datatype Index = Index(inverted: Postings, lengths: map<string, nat>, namespaces: map<string, string>,
                         total: nat, average: Length)

  const NO_INDEX := Index(map[], map[], map[], 0, 0.0)

  // ---- BM25 from the documents alone

  ghost function SumValues(m: map<string, nat>): nat {
    if m == map[] then 0
    else var k :| k in m; m[k] + SumValues(m - {k})
  }

  ghost function LengthsOf(docs: Docs): map<string, nat> {
    map r | r in docs :: |docs[r].tokens|
  }

  ghost function NamespacesOf(docs: Docs): map<string, string> {
    map r | r in docs :: docs[r].namespace
  }

  function Mean(sum: nat, count: nat): Length {
    if count > 0 then sum as real / count as real else 0.0
  }

  /** The mean number of tokens of a document; zero when there is none. */
  ghost function AverageLength(docs: Docs): Length {
    Mean(SumValues(LengthsOf(docs)), |docs|)
  }

  ghost function Holding(docs: Docs, token: string): set<string> {
    set r | r in docs && token in docs[r].tokens
  }

  /** Documents without a token against those with it, smoothed. */
  function Odds(documents: nat, holding: nat): real {
    (documents as real - holding as real + 0.5) / (holding as real + 0.5)
  }

  function Idf(log: real -> real, documents: nat, holding: nat): real {
    log(Odds(documents, holding) + 1.0)
  }

  /** The saturated term weight, with k1 = 1.2 and b = 0.75. */
  function Weight(tf: nat, length: nat, average: Length): real
    ensures tf > 0 ==> Weight(tf, length, average) > 0.0
  {
    var mean := if average == 0.0 then 1.0 else average;
    assert length as real / mean >= 0.0;
    var norm := 0.25 + 0.75 * (length as real / mean);
    assert norm >= 0.25;
    (tf as real * 2.2) / (tf as real + 1.2 * norm)
  }

  lemma CancelPositive(x: real, y: real, k: real)
    requires k > 0.0 && x * k <= y * k
    ensures x <= y
  {
  }

  lemma PositiveQuotient(a: real, b: real)
    requires a > 0.0 && b > 0.0
    ensures a / b > 0.0
  {
  }

  lemma QuotientOrder(a: real, b: real, c: real, d: real)
    requires b > 0.0 && d > 0.0 && a * d <= c * b
    ensures a / b <= c / d
  {
    var x, y := a / b, c / d;
    assert x * b == a && y * d == c;
    assert x * (b * d) == (x * b) * d && y * (b * d) == (y * d) * b;
    CancelPositive(x, y, b * d);
  }

  /** The length part of the weight: 1.2 at the mean length, and growing with length. */
  function Damping(length: nat, average: Length): (c: real)
    ensures c >= 0.3
  {
    var mean := if average == 0.0 then 1.0 else average;
    assert length as real / mean >= 0.0;
    1.2 * (0.25 + 0.75 * (length as real / mean))
  }

  lemma DampingGrows(short: nat, long: nat, average: Length)
    requires short <= long
    ensures Damping(short, average) <= Damping(long, average)
  {
    var mean := if average == 0.0 then 1.0 else average;
    assert short as real * mean <= long as real * mean;
    QuotientOrder(short as real, mean, long as real, mean);
  }

  lemma WeightIsQuotient(tf: nat, length: nat, average: Length)
    ensures Weight(tf, length, average) == (tf as real * 2.2) / (tf as real + Damping(length, average))
  {
  }

  /** The weight grows with the number of occurrences, stays below k1 + 1, and falls with
      the length of the document. */
  lemma WeightSaturates(few: nat, many: nat, short: nat, long: nat, average: Length)
    requires few <= many && short <= long
    ensures Weight(few, short, average) <= Weight(many, short, average) <= 2.2
    ensures Weight(many, long, average) <= Weight(many, short, average)
  {
    WeightIsQuotient(few, short, average);
    WeightIsQuotient(many, short, average);
    WeightIsQuotient(many, long, average);
    DampingGrows(short, long, average);
    var f, m, c, d := few as real, many as real, Damping(short, average), Damping(long, average);
    hide Weight, Damping;
    QuotientsSaturate(f, m, c, d);
  }

  lemma QuotientsSaturate(f: real, m: real, c: real, d: real)
    requires 0.0 <= f <= m && 0.0 < c <= d
    ensures (f * 2.2) / (f + c) <= (m * 2.2) / (m + c) <= 2.2
    ensures (m * 2.2) / (m + d) <= (m * 2.2) / (m + c)
  {
    var a, b := f * 2.2, m * 2.2;
    MoreOccurrences(f, m, c, a, b);
    QuotientOrder(a, f + c, b, m + c);
    QuotientOrder(b, m + c, 2.2, 1.0);
    LongerDocument(b, m + c, m + d);
    QuotientOrder(b, m + d, b, m + c);
  }

  lemma MoreOccurrences(f: real, m: real, c: real, a: real, b: real)
    requires 0.0 <= f <= m && 0.0 < c && a == f * 2.2 && b == m * 2.2
    ensures a * (m + c) <= b * (f + c)
  {
    assert a * (m + c) == 2.2 * (f * m) + 2.2 * (f * c);
    assert b * (f + c) == 2.2 * (f * m) + 2.2 * (m * c);
    assert f * c <= m * c;
  }

  lemma LongerDocument(b: real, c: real, d: real)
    requires 0.0 <= b && c <= d
    ensures b * c <= b * d
  {
  }

  lemma FewerHold(n: real, r: real, c: real)
    requires 0.0 <= r <= c <= n
    ensures (n - c + 0.5) * (r + 0.5) <= (n - r + 0.5) * (c + 0.5)
  {
    assert (n - r + 0.5) * (c + 0.5) - (n - c + 0.5) * (r + 0.5) == (c - r) * (n + 1.0);
    assert (c - r) * (n + 1.0) >= 0.0;
  }

  /** With a growing `log`, a token that fewer documents hold counts for more. */
  lemma RarerCountsForMore(log: real -> real, documents: nat, rare: nat, common: nat)
    requires forall x, y :: 0.0 < x <= y ==> log(x) <= log(y)
    requires rare <= common <= documents
    ensures Idf(log, documents, common) <= Idf(log, documents, rare)
  {
    var odds, better := Odds(documents, common), Odds(documents, rare);
    OddsFall(documents, rare, common);
    assert 0.0 < odds + 1.0 <= better + 1.0;
    hide Odds;
  }

  lemma OddsFall(documents: nat, rare: nat, common: nat)
    requires rare <= common <= documents
    ensures 0.0 < Odds(documents, common) <= Odds(documents, rare)
  {
    var n, r, c := documents as real, rare as real, common as real;
    FewerHold(n, r, c);
    PositiveQuotient(n - c + 0.5, c + 0.5);
    QuotientOrder(n - c + 0.5, c + 0.5, n - r + 0.5, r + 0.5);
  }

  /** What one query token gives a document that holds it. */
  ghost function DirectTerm(docs: Docs, average: Length, log: real -> real, token: string, r: string): real
    requires r in docs
  {
    if token !in docs[r].tokens then 0.0
    else
      Idf(log, |docs|, |Holding(docs, token)|)
        * Weight(multiset(docs[r].tokens)[token], |docs[r].tokens|, average)
  }

  ghost function DirectScore(docs: Docs, average: Length, log: real -> real, query: seq<string>, r: string): real
    requires r in docs
  {
    if |query| == 0 then 0.0
    else
      var n := |query| - 1;
      DirectScore(docs, average, log, query[..n], r) + DirectTerm(docs, average, log, query[n], r)
  }

  /** No filter at all when the namespace is missing or empty. */
  predicate Passes(wanted: Option<string>, has: Option<string>) {
    wanted.None? || wanted.value == "" || has == wanted
  }

  ghost function DirectMatches(docs: Docs, query: seq<string>, namespace: Option<string>): set<string> {
    set r | r in docs && Passes(namespace, Some(docs[r].namespace)) && exists t :: t in query && t in docs[r].tokens
  }

  ghost function DirectScores(docs: Docs, average: Length, log: real -> real, query: seq<string>,
                              namespace: Option<string>): map<string, real>
  {
    map r | r in DirectMatches(docs, query, namespace) :: DirectScore(docs, average, log, query, r)
  }

  // ---- the same through the index

  function Get<T>(m: map<string, T>, k: string): Option<T> {
    if k in m then Some(m[k]) else None
  }

  function PostingsOf(s: Index, token: string): map<string, nat> {
    if token in s.inverted then s.inverted[token] else map[]
  }

  function LengthOf(s: Index, r: string): nat {
    if r in s.lengths then s.lengths[r] else 1
  }

  function IndexTerm(s: Index, log: real -> real, token: string, r: string): real {
    if r !in PostingsOf(s, token) then 0.0
    else
      Idf(log, s.total, |PostingsOf(s, token)|) * Weight(PostingsOf(s, token)[r], LengthOf(s, r), s.average)
  }

  ghost function IndexScore(s: Index, log: real -> real, query: seq<string>, r: string): real {
    if |query| == 0 then 0.0
    else IndexScore(s, log, query[..|query| - 1], r) + IndexTerm(s, log, query[|query| - 1], r)
  }

  ghost function Hits(s: Index, token: string, namespace: Option<string>): set<string> {
    set r | r in PostingsOf(s, token) && Passes(namespace, Get(s.namespaces, r))
  }

  ghost function IndexMatches(s: Index, query: seq<string>, namespace: Option<string>): set<string> {
    if |query| == 0 then {}
    else IndexMatches(s, query[..|query| - 1], namespace) + Hits(s, query[|query| - 1], namespace)
  }

  ghost function IndexScores(s: Index, log: real -> real, query: seq<string>, namespace: Option<string>)
    : map<string, real>
  {
    map r | r in IndexMatches(s, query, namespace) :: IndexScore(s, log, query, r)
  }

  // ---- when an index stands for a set of documents

  /** The postings a token should have. */
  ghost function TruePostings(docs: Docs, token: string): map<string, nat> {
    map r | r in Holding(docs, token) :: multiset(docs[r].tokens)[token]
  }

  ghost predicate PostingsAgree(s: Index, docs: Docs) {
    forall t :: PostingsOf(s, t) == TruePostings(docs, t)
  }

  ghost predicate TablesAgree(s: Index, docs: Docs) {
    && s.lengths == LengthsOf(docs)
    && s.namespaces == NamespacesOf(docs)
    && s.total == |docs|
  }

  /** Postings, lengths, namespaces and the count say exactly what `docs` says. */
  ghost predicate Agrees(s: Index, docs: Docs) {
    PostingsAgree(s, docs) && TablesAgree(s, docs)
  }

  lemma TermIsDirect(s: Index, docs: Docs, log: real -> real, token: string, r: string)
    requires Agrees(s, docs) && r in docs
    ensures IndexTerm(s, log, token, r) == DirectTerm(docs, s.average, log, token, r)
  {
    hide Weight, Idf;
    assert PostingsOf(s, token) == TruePostings(docs, token);
    assert PostingsOf(s, token).Keys == Holding(docs, token);
    assert |PostingsOf(s, token)| == |Holding(docs, token)|;
  }

  lemma {:induction false} ScoreIsDirect(s: Index, docs: Docs, log: real -> real, query: seq<string>, r: string)
    requires Agrees(s, docs) && r in docs
    ensures IndexScore(s, log, query, r) == DirectScore(docs, s.average, log, query, r)
  {
    hide Agrees, IndexTerm, DirectTerm;
    if |query| > 0 {
      ScoreIsDirect(s, docs, log, query[..|query| - 1], r);
      TermIsDirect(s, docs, log, query[|query| - 1], r);
    }
  }

  /** Scoring through the index is scoring each document from its own tokens, and it
      finds exactly the documents of the namespace that hold a token of the query. */
  lemma SearchIsDirect(s: Index, docs: Docs, log: real -> real, query: seq<string>, namespace: Option<string>)
    requires Agrees(s, docs)
    ensures IndexScores(s, log, query, namespace) == DirectScores(docs, s.average, log, query, namespace)
  {
    MatchesAreDirect(s, docs, query, namespace);
    forall r | r in docs
      ensures IndexScore(s, log, query, r) == DirectScore(docs, s.average, log, query, r)
    {
      ScoreIsDirect(s, docs, log, query, r);
    }
  }

  lemma HitsAreDirect(s: Index, docs: Docs, token: string, namespace: Option<string>)
    requires Agrees(s, docs)
    ensures Hits(s, token, namespace)
         == set r | r in docs && Passes(namespace, Some(docs[r].namespace)) && token in docs[r].tokens
  {
    assert PostingsOf(s, token) == TruePostings(docs, token);
  }

  lemma {:induction false} MatchesAreDirect(s: Index, docs: Docs, query: seq<string>, namespace: Option<string>)
    requires Agrees(s, docs)
    ensures IndexMatches(s, query, namespace) == DirectMatches(docs, query, namespace)
  {
    if |query| > 0 {
      hide Agrees, Hits;
      var init, t := query[..|query| - 1], query[|query| - 1];
      assert forall x :: x in query <==> x in init || x == t;
      MatchesAreDirect(s, docs, init, namespace);
      HitsAreDirect(s, docs, t, namespace);
    }
  }

  /** A document is found exactly when it holds a token of the query and, where a namespace is
      asked for, is of that namespace. */
  lemma FoundIff(s: Index, docs: Docs, log: real -> real, query: seq<string>, namespace: Option<string>, r: string)
    requires Agrees(s, docs)
    ensures r in IndexScores(s, log, query, namespace) <==>
              && r in docs
              && (exists i :: 0 <= i < |query| && query[i] in docs[r].tokens)
              && (namespace.Some? && namespace.value != "" ==> docs[r].namespace == namespace.value)
  {
    MatchesAreDirect(s, docs, query, namespace);
    hide Agrees, IndexMatches;
    if r in docs {
      assert (exists t :: t in query && t in docs[r].tokens)
        <==> (exists i :: 0 <= i < |query| && query[i] in docs[r].tokens);
    }
  }

  /** The term of a token in BM25: the logarithm of its odds plus one, times a weight that the
      occurrences, the length and the mean length give with k1 = 1.2 and b = 0.75. */
  lemma TermIsBM25(docs: Docs, average: Length, log: real -> real, token: string, r: string)
    returns (odds: real, weight: real)
    requires r in docs && token in docs[r].tokens && average > 0.0
    ensures DirectTerm(docs, average, log, token, r) == log(odds + 1.0) * weight
    ensures var n, df := |docs| as real, |Holding(docs, token)| as real;
            odds * (df + 0.5) == n - df + 0.5
    ensures var tf, length := multiset(docs[r].tokens)[token] as real, |docs[r].tokens| as real;
            weight * (tf + 1.2 * (1.0 - 0.75 + 0.75 * (length / average))) == tf * (1.2 + 1.0)
  {
    odds := Odds(|docs|, |Holding(docs, token)|);
    weight := Weight(multiset(docs[r].tokens)[token], |docs[r].tokens|, average);
  }

  lemma HoldingIsSome(docs: Docs, token: string)
    ensures |Holding(docs, token)| <= |docs|
  {
    SubsetIsSmaller(Holding(docs, token), docs.Keys);
  }

  lemma IdfIsPositive(log: real -> real, documents: nat, holding: nat)
    requires forall x :: x > 1.0 ==> log(x) > 0.0
    requires holding <= documents
    ensures Idf(log, documents, holding) > 0.0
  {
    OddsFall(documents, holding, holding);
  }

  lemma TermIsPositive(docs: Docs, average: Length, log: real -> real, token: string, r: string)
    requires r in docs && forall x :: x > 1.0 ==> log(x) > 0.0
    ensures DirectTerm(docs, average, log, token, r) >= 0.0
    ensures token in docs[r].tokens ==> DirectTerm(docs, average, log, token, r) > 0.0
  {
    if token in docs[r].tokens {
      HoldingIsSome(docs, token);
      var idf, weight := Idf(log, |docs|, |Holding(docs, token)|),
                         Weight(multiset(docs[r].tokens)[token], |docs[r].tokens|, average);
      IdfIsPositive(log, |docs|, |Holding(docs, token)|);
      assert idf > 0.0 && weight > 0.0;
      ProductIsPositive(idf, weight);
    }
  }

  lemma ProductIsPositive(x: real, y: real)
    requires x > 0.0 && y > 0.0
    ensures x * y > 0.0
  {
  }

  /** Every document found has a positive score. */
  lemma {:induction false} ScoresArePositive(docs: Docs, average: Length, log: real -> real, query: seq<string>,
                                             r: string)
    requires r in docs && forall x :: x > 1.0 ==> log(x) > 0.0
    ensures DirectScore(docs, average, log, query, r) >= 0.0
    ensures (exists t :: t in query && t in docs[r].tokens) <==> DirectScore(docs, average, log, query, r) > 0.0
  {
    if |query| > 0 {
      var init, t := query[..|query| - 1], query[|query| - 1];
      ScoresArePositive(docs, average, log, init, r);
      TermIsPositive(docs, average, log, t, r);
      assert forall x :: x in query <==> x in init || x == t;
    }
  }

  // ---- what add and remove do to the index

  function Counted(inverted: Postings, tokens: set<string>, counts: multiset<string>, r: string): Postings {
    map t | t in inverted.Keys + tokens ::
      if t in tokens then (if t in inverted then inverted[t] else map[])[r := counts[t]] else inverted[t]
  }

  ghost function Added(s: Index, r: string, doc: Doc): Index {
    if doc.tokens == [] then s
    else
      var lengths := s.lengths[r := |doc.tokens|];
      Index(Counted(s.inverted, set t | t in doc.tokens, multiset(doc.tokens), r),
            lengths, s.namespaces[r := doc.namespace], |lengths|, Mean(SumValues(lengths), |lengths|))
  }

  /** The average is left as it was. */
  function Removed(s: Index, r: string): Index {
    Index(map t | t in s.inverted :: s.inverted[t] - {r},
          s.lengths - {r}, s.namespaces - {r}, |s.lengths - {r}|, s.average)
  }

  function With(docs: Docs, r: string, doc: Doc): Docs {
    if doc.tokens == [] then docs else docs[r := doc]
  }

  lemma AddedPostings(s: Index, r: string, doc: Doc, t: string)
    requires doc.tokens != []
    ensures PostingsOf(Added(s, r, doc), t)
         == if t in doc.tokens then PostingsOf(s, t)[r := multiset(doc.tokens)[t]] else PostingsOf(s, t)
  {
  }

  /** `add` never clears the id's old postings, so an id added again keeps every old
      token the new text lacks. Those stale tokens are the only way out of step. */
  lemma AddAgreesIff(s: Index, docs: Docs, r: string, doc: Doc)
    requires Agrees(s, docs)
    ensures Agrees(Added(s, r, doc), With(docs, r, doc))
       <==> doc.tokens == [] || r !in docs || forall t :: t in docs[r].tokens ==> t in doc.tokens
  {
    if doc.tokens != [] {
      AddKeepsTables(s, docs, r, doc);
      if r in docs && exists t :: t in docs[r].tokens && t !in doc.tokens {
        var t :| t in docs[r].tokens && t !in doc.tokens;
        AddedPostings(s, r, doc, t);
        assert r in TruePostings(docs, t);
        assert r !in TruePostings(docs[r := doc], t);
      } else {
        AddKeepsPostings(s, docs, r, doc);
      }
    }
  }

  lemma AddKeepsPostings(s: Index, docs: Docs, r: string, doc: Doc)
    requires PostingsAgree(s, docs) && doc.tokens != []
    requires r !in docs || forall t :: t in docs[r].tokens ==> t in doc.tokens
    ensures PostingsAgree(Added(s, r, doc), docs[r := doc])
  {
    forall t ensures PostingsOf(Added(s, r, doc), t) == TruePostings(docs[r := doc], t) {
      AddedPostings(s, r, doc, t);
      assert PostingsOf(s, t) == TruePostings(docs, t);
      TruePostingsGrow(docs, r, doc, t);
    }
  }

  lemma TruePostingsGrow(docs: Docs, r: string, doc: Doc, t: string)
    requires r !in docs || (t in docs[r].tokens ==> t in doc.tokens)
    ensures TruePostings(docs[r := doc], t)
         == if t in doc.tokens then TruePostings(docs, t)[r := multiset(doc.tokens)[t]] else TruePostings(docs, t)
  {
    assert Holding(docs[r := doc], t) == if t in doc.tokens then Holding(docs, t) + {r} else Holding(docs, t);
  }

  lemma TablesGrow(docs: Docs, r: string, doc: Doc)
    ensures LengthsOf(docs[r := doc]) == LengthsOf(docs)[r := |doc.tokens|]
    ensures NamespacesOf(docs[r := doc]) == NamespacesOf(docs)[r := doc.namespace]
    ensures |LengthsOf(docs[r := doc])| == |docs[r := doc]|
  {
    assert LengthsOf(docs[r := doc]).Keys == docs[r := doc].Keys;
  }

  lemma AddKeepsTables(s: Index, docs: Docs, r: string, doc: Doc)
    requires TablesAgree(s, docs) && doc.tokens != []
    ensures TablesAgree(Added(s, r, doc), docs[r := doc])
  {
    TablesGrow(docs, r, doc);
    hide Mean, Counted, LengthsOf, NamespacesOf;
    assert Added(s, r, doc).total == |s.lengths[r := |doc.tokens|]|;
  }

  lemma RemovedPostings(s: Index, r: string, t: string)
    ensures PostingsOf(Removed(s, r), t) == PostingsOf(s, t) - {r}
  {
    if t in s.inverted {
      assert Removed(s, r).inverted[t] == s.inverted[t] - {r};
    }
  }

  lemma TruePostingsShrink(docs: Docs, r: string, t: string)
    ensures TruePostings(docs - {r}, t) == TruePostings(docs, t) - {r}
  {
    assert Holding(docs - {r}, t) == Holding(docs, t) - {r};
  }

  lemma TablesShrink(docs: Docs, r: string)
    ensures LengthsOf(docs - {r}) == LengthsOf(docs) - {r}
    ensures NamespacesOf(docs - {r}) == NamespacesOf(docs) - {r}
    ensures |LengthsOf(docs - {r})| == |docs - {r}|
  {
    assert LengthsOf(docs - {r}).Keys == (docs - {r}).Keys;
  }

  lemma RemoveAgrees(s: Index, docs: Docs, r: string)
    requires Agrees(s, docs)
    ensures Agrees(Removed(s, r), docs - {r})
  {
    forall t ensures PostingsOf(Removed(s, r), t) == TruePostings(docs - {r}, t) {
      RemovedPostings(s, r, t);
      TruePostingsShrink(docs, r, t);
    }
    TablesShrink(docs, r);
    hide PostingsOf, TruePostings, LengthsOf, NamespacesOf;
  }

  /** The document "r" is indexed with the text "aa", then again with the text "bb".
      It is still found under "aa". */
  lemma StaleTokenIsFound(s: Index, docs: Docs)
    requires s == Added(Added(NO_INDEX, "r", Doc(["aa"], "n")), "r", Doc(["bb"], "n"))
    requires docs == With(With(map[], "r", Doc(["aa"], "n")), "r", Doc(["bb"], "n"))
    ensures "r" in IndexMatches(s, ["aa"], None) && "r" !in DirectMatches(docs, ["aa"], None)
    ensures !Agrees(s, docs)
  {
    var first := Added(NO_INDEX, "r", Doc(["aa"], "n"));
    AddedPostings(NO_INDEX, "r", Doc(["aa"], "n"), "aa");
    AddedPostings(first, "r", Doc(["bb"], "n"), "aa");
    assert "aa" in ["aa"] && "aa" !in ["bb"];
    assert "r" in Hits(s, "aa", None);
    assert ["aa"][..0] == [];
    assert docs["r"].tokens == ["bb"];
    if Agrees(s, docs) {
      MatchesAreDirect(s, docs, ["aa"], None);
    }
  }

  lemma SumOfTwo(p: string, m: nat, q: string, n: nat)
    requires p != q
    ensures SumValues(map[p := m]) == m
    ensures SumValues(map[p := m, q := n]) == m + n
  {
    SumWithout(map[p := m], p);
    assert map[p := m] - {p} == map[];
    SumWithout(map[p := m, q := n], q);
    assert map[p := m, q := n] - {q} == map[p := m];
  }

  lemma MeansOfTwo()
    ensures Mean(4, 2) == 2.0 && Mean(1, 1) == 1.0
  {
  }

  lemma AveragesOfTwo(p: string, a: Doc, q: string, b: Doc)
    requires p != q && |a.tokens| == 1 && |b.tokens| == 3
    ensures AverageLength(map[p := a, q := b]) == 2.0
    ensures AverageLength(map[p := a]) == 1.0
  {
    var two, one := map[p := a, q := b], map[p := a];
    assert LengthsOf(two) == map[p := 1, q := 3];
    assert LengthsOf(one) == map[p := 1];
    SumOfTwo(p, 1, q, 3);
    assert two.Keys == {p, q} && |two| == 2;
    assert one.Keys == {p} && |one| == 1;
    MeansOfTwo();
    hide LengthsOf, Mean, SumValues;
  }

  /** Documents of one and of three tokens average two. Removing the longer one
      leaves the stored average at two, and the true one is one. */
  lemma RemoveLeavesStaleAverage(s: Index, p: string, a: Doc, q: string, b: Doc)
    requires p != q && |a.tokens| == 1 && |b.tokens| == 3
    requires s == Added(Added(NO_INDEX, p, a), q, b)
    ensures Agrees(Removed(s, q), map[p := a])
    ensures Removed(s, q).average == 2.0 && AverageLength(map[p := a]) == 1.0
  {
    TwoAdded(s, p, a, q, b);
    hide Added, Agrees, AverageLength;
    assert Removed(s, q).average == s.average;
    hide Removed;
    RemoveAgrees(s, map[p := a, q := b], q);
    WithoutSecond(p, a, q, b);
    AveragesOfTwo(p, a, q, b);
  }

  lemma WithoutSecond(p: string, a: Doc, q: string, b: Doc)
    requires p != q
    ensures map[p := a, q := b] - {q} == map[p := a]
  {
  }

  lemma AddedAlone(s: Index, docs: Docs, r: string, doc: Doc)
    requires Agrees(s, docs) && r !in docs && doc.tokens != []
    ensures Agrees(Added(s, r, doc), docs[r := doc])
    ensures Added(s, r, doc).average == AverageLength(docs[r := doc])
  {
    hide Agrees, Added, AverageLength;
    AddAgreesIff(s, docs, r, doc);
    AddKeepsAverage(s, docs, r, doc);
  }

  lemma NothingAgrees()
    ensures Agrees(NO_INDEX, map[])
  {
  }

  lemma TwoAdded(s: Index, p: string, a: Doc, q: string, b: Doc)
    requires p != q && a.tokens != [] && b.tokens != []
    requires s == Added(Added(NO_INDEX, p, a), q, b)
    ensures Agrees(s, map[p := a, q := b]) && s.average == AverageLength(map[p := a, q := b])
  {
    hide Agrees, Added, AverageLength;
    NothingAgrees();
    AddedAlone(NO_INDEX, map[], p, a);
    AddedAlone(Added(NO_INDEX, p, a), map[p := a], q, b);
  }

  // ---- over whole runs

  datatype Call = Add(r: string, doc: Doc) | Remove(r: string)

  ghost function RunIndex(s: Index, run: seq<Call>): Index {
    if |run| == 0 then s
    else
      var before := RunIndex(s, run[..|run| - 1]);
      match run[|run| - 1]
      case Add(r, doc) => Added(before, r, doc)
      case Remove(r) => Removed(before, r)
  }

  ghost function RunDocs(docs: Docs, run: seq<Call>): Docs {
    if |run| == 0 then docs
    else
      var before := RunDocs(docs, run[..|run| - 1]);
      match run[|run| - 1]
      case Add(r, doc) => With(before, r, doc)
      case Remove(r) => before - {r}
  }

  /** No id is added while it is still indexed. */
  ghost predicate AddsAreNew(docs: Docs, run: seq<Call>) {
    forall i :: 0 <= i < |run| && run[i].Add? ==> run[i].r !in RunDocs(docs, run[..i])
  }

  lemma {:induction false} RunAgrees(run: seq<Call>)
    requires AddsAreNew(map[], run)
    ensures Agrees(RunIndex(NO_INDEX, run), RunDocs(map[], run))
  {
    if |run| > 0 {
      var init := run[..|run| - 1];
      forall i | 0 <= i < |init| && init[i].Add? ensures init[i].r !in RunDocs(map[], init[..i]) {
        assert init[..i] == run[..i] && run[i] == init[i];
      }
      RunAgrees(init);
      match run[|run| - 1] {
        case Add(r, doc) => AddAgreesIff(RunIndex(NO_INDEX, init), RunDocs(map[], init), r, doc);
        case Remove(r) => RemoveAgrees(RunIndex(NO_INDEX, init), RunDocs(map[], init), r);
      }
    }
  }

  /** The document is as long as the others are on average. */
  ghost predicate OfMeanLength(docs: Docs, r: string)
    requires r in docs
  {
    if |docs| == 1 then docs[r].tokens == []
    else |docs[r].tokens| * |docs| == SumValues(LengthsOf(docs))
  }

  lemma QuotientsEqualIff(a: real, b: real, c: real, d: real)
    requires b > 0.0 && d > 0.0
    ensures a / b == c / d <==> a * d == c * b
  {
    if a * d == c * b {
      QuotientOrder(a, b, c, d);
      QuotientOrder(c, d, a, b);
    }
    SameQuotient(a, b, c, d);
  }

  lemma SameQuotient(a: real, b: real, c: real, d: real)
    requires b > 0.0 && d > 0.0
    ensures a / b == c / d ==> a * d == c * b
  {
    var x, y := a / b, c / d;
    assert x * b == a && y * d == c;
    assert (x * b) * d == x * (b * d) && (y * d) * b == y * (b * d);
  }

  lemma RealProduct(a: int, b: int)
    ensures (a * b) as real == a as real * b as real
  {
  }

  lemma MeansEqualIff(sum: nat, part: nat, n: nat)
    requires n > 1 && part <= sum
    ensures Mean(sum, n) == Mean(sum - part, n - 1) <==> part * n == sum
  {
    QuotientsEqualIff(sum as real, n as real, (sum - part) as real, (n - 1) as real);
    RealProduct(sum, n - 1);
    RealProduct(sum - part, n);
    assert sum * (n - 1) == sum * n - sum && (sum - part) * n == sum * n - part * n;
  }

  /** After an effective `add` the stored mean is the true one, whatever it was before. */
  lemma AddKeepsAverage(s: Index, docs: Docs, r: string, doc: Doc)
    requires Agrees(s, docs) && r !in docs
    requires doc.tokens == [] ==> s.average == AverageLength(docs)
    ensures Added(s, r, doc).average == AverageLength(With(docs, r, doc))
  {
    hide Mean;
    if doc.tokens != [] {
      TablesGrow(docs, r, doc);
    }
  }

  /** `remove` leaves the mean alone, so it stays right exactly when the document was not
      indexed, or was of mean length. */
  lemma RemoveKeepsAverageIff(s: Index, docs: Docs, r: string)
    requires Agrees(s, docs) && s.average == AverageLength(docs)
    ensures Removed(s, r).average == AverageLength(docs - {r}) <==> r !in docs || OfMeanLength(docs, r)
  {
    if r in docs {
      var lengths, n := LengthsOf(docs), |docs|;
      TablesShrink(docs, r);
      SumWithout(lengths, r);
      SizeWithout(docs, r);
      hide LengthsOf, SumValues;
      if n > 1 {
        MeansEqualIff(SumValues(lengths), |docs[r].tokens|, n);
      } else {
        LastDocument(docs, r, lengths);
      }
    } else {
      assert docs - {r} == docs;
    }
  }

  lemma SizeWithout(docs: Docs, r: string)
    requires r in docs
    ensures |docs - {r}| == |docs| - 1
  {
    assert (docs - {r}).Keys == docs.Keys - {r};
  }

  lemma LastDocument(docs: Docs, r: string, lengths: map<string, nat>)
    requires r in docs && |docs| == 1 && lengths == LengthsOf(docs)
    ensures AverageLength(docs) == 0.0 <==> docs[r].tokens == []
  {
    SumWithout(lengths, r);
    SizeWithout(docs, r);
    assert docs - {r} == map[];
    assert lengths - {r} == map[];
    hide LengthsOf, SumValues;
  }

  /** With distinct ids and nothing removed, a search of the index is BM25 over the
      documents themselves, average length included. */
  lemma {:induction false} AddsKeepAverage(run: seq<Call>)
    requires AddsAreNew(map[], run) && forall i :: 0 <= i < |run| ==> run[i].Add?
    ensures RunIndex(NO_INDEX, run).average == AverageLength(RunDocs(map[], run))
  {
    if |run| > 0 {
      var init := run[..|run| - 1];
      forall i | 0 <= i < |init| ensures init[i].Add? && init[i].r !in RunDocs(map[], init[..i]) {
        assert init[..i] == run[..i] && run[i] == init[i];
      }
      RunAgrees(init);
      AddsKeepAverage(init);
      var last := run[|run| - 1];
      AddKeepsAverage(RunIndex(NO_INDEX, init), RunDocs(map[], init), last.r, last.doc);
    }
  }

  lemma SearchAfterAdds(run: seq<Call>, log: real -> real, query: seq<string>, namespace: Option<string>)
    requires AddsAreNew(map[], run) && forall i :: 0 <= i < |run| ==> run[i].Add?
    requires forall x :: x > 1.0 ==> log(x) > 0.0
    ensures var docs := RunDocs(map[], run);
            var found := IndexScores(RunIndex(NO_INDEX, run), log, query, namespace);
            && found == DirectScores(docs, AverageLength(docs), log, query, namespace)
            && (forall r :: r in found ==> found[r] > 0.0)
            && forall r :: r in found <==>
                 && r in docs
                 && (exists i :: 0 <= i < |query| && query[i] in docs[r].tokens)
                 && (namespace.Some? && namespace.value != "" ==> docs[r].namespace == namespace.value)
  {
    hide Agrees, IndexScores, DirectScores, RunIndex, RunDocs;
    var docs, s := RunDocs(map[], run), RunIndex(NO_INDEX, run);
    RunAgrees(run);
    AddsKeepAverage(run);
    SearchIsDirect(s, docs, log, query, namespace);
    forall r
      ensures r in IndexScores(s, log, query, namespace) <==>
                && r in docs
                && (exists i :: 0 <= i < |query| && query[i] in docs[r].tokens)
                && (namespace.Some? && namespace.value != "" ==> docs[r].namespace == namespace.value)
    {
      FoundIff(s, docs, log, query, namespace, r);
    }
    FoundArePositive(docs, s.average, log, query, namespace);
  }

  lemma FoundArePositive(docs: Docs, average: Length, log: real -> real, query: seq<string>, namespace: Option<string>)
    requires forall x :: x > 1.0 ==> log(x) > 0.0
    ensures var found := DirectScores(docs, average, log, query, namespace); forall r :: r in found ==> found[r] > 0.0
  {
    forall r | r in DirectMatches(docs, query, namespace)
      ensures DirectScore(docs, average, log, query, r) > 0.0
    {
      ScoresArePositive(docs, average, log, query, r);
    }
  }

  // ---- ranking

  ghost predicate Ranked(ranked: seq<(string, real)>, r: string) {
    exists i :: 0 <= i < |ranked| && ranked[i].0 == r
  }

  ghost predicate Descending(ranked: seq<(string, real)>) {
    forall i, j :: 0 <= i < j < |ranked| ==> ranked[i].0 != ranked[j].0 && ranked[i].1 >= ranked[j].1
  }

  ghost predicate Placed(ranked: seq<(string, real)>, scores: map<string, real>) {
    forall i :: 0 <= i < |ranked| ==> ranked[i].0 in scores && ranked[i].1 == scores[ranked[i].0]
  }

  /** All scored ids, each once with its score, best first. */
  ghost predicate Ranking(ranked: seq<(string, real)>, scores: map<string, real>) {
    && Placed(ranked, scores)
    && (forall r :: r in scores ==> Ranked(ranked, r))
    && Descending(ranked)
  }

  method Place(ranked: seq<(string, real)>, scores: map<string, real>, r: string, score: real)
    returns (longer: seq<(string, real)>)
    requires Ranking(ranked, scores) && r !in scores
    ensures Ranking(longer, scores[r := score])
  {
    var i := |ranked|;
    while i > 0 && ranked[i - 1].1 < score
      invariant 0 <= i <= |ranked|
      invariant forall j :: i <= j < |ranked| ==> ranked[j].1 < score
    {
      i := i - 1;
    }
    longer := ranked[..i] + [(r, score)] + ranked[i..];
    PlacedRanks(ranked, scores, r, score, i, longer);
  }

  lemma PlacedRanks(ranked: seq<(string, real)>, scores: map<string, real>, r: string, score: real, i: nat,
                    longer: seq<(string, real)>)
    requires Ranking(ranked, scores) && r !in scores && i <= |ranked|
    requires i > 0 ==> ranked[i - 1].1 >= score
    requires forall j :: i <= j < |ranked| ==> ranked[j].1 < score
    requires longer == ranked[..i] + [(r, score)] + ranked[i..]
    ensures Ranking(longer, scores[r := score])
  {
    forall q | q in scores ensures Ranked(longer, q) {
      assert Ranked(ranked, q);
      PlacedStays(ranked, q, longer, i);
    }
    assert longer[i] == (r, score);
    assert Ranked(longer, r);
    assert forall j :: 0 <= j < |ranked| ==> ranked[j].0 != r;
    hide Ranked;
    PlacedOrder(ranked, r, score, i, longer);
    hide Ranked, Descending;
    assert Placed(longer, scores[r := score]) by {
      hide Ranked, Descending;
      PlacedFits(ranked, scores, r, score, i, longer);
    }
  }

  lemma PlacedFits(ranked: seq<(string, real)>, scores: map<string, real>, r: string, score: real, i: nat,
                   longer: seq<(string, real)>)
    requires Placed(ranked, scores) && r !in scores && i <= |ranked|
    requires longer == ranked[..i] + [(r, score)] + ranked[i..]
    ensures Placed(longer, scores[r := score])
  {
    forall j | 0 <= j < |longer|
      ensures longer[j].0 in scores[r := score] && longer[j].1 == scores[r := score][longer[j].0]
    {
      if j < i {
        assert longer[j] == ranked[j];
      } else if j > i {
        assert longer[j] == ranked[j - 1];
      }
    }
  }

  lemma PlacedOrder(ranked: seq<(string, real)>, r: string, score: real, i: nat, longer: seq<(string, real)>)
    requires Descending(ranked) && i <= |ranked|
    requires forall j :: 0 <= j < |ranked| ==> ranked[j].0 != r
    requires i > 0 ==> ranked[i - 1].1 >= score
    requires forall j :: i <= j < |ranked| ==> ranked[j].1 < score
    requires longer == ranked[..i] + [(r, score)] + ranked[i..]
    ensures Descending(longer)
  {
    assert forall j :: 0 <= j < i ==> ranked[j].1 >= ranked[i - 1].1;
    forall j, k | 0 <= j < k < |longer| ensures longer[j].0 != longer[k].0 && longer[j].1 >= longer[k].1 {
      if k < i {
        assert longer[j] == ranked[j] && longer[k] == ranked[k];
      } else if k == i {
        assert longer[j] == ranked[j] && longer[k] == (r, score);
      } else if j < i {
        assert longer[j] == ranked[j] && longer[k] == ranked[k - 1];
      } else if j == i {
        assert longer[j] == (r, score) && longer[k] == ranked[k - 1];
      } else {
        assert longer[j] == ranked[j - 1] && longer[k] == ranked[k - 1];
      }
    }
  }

  lemma PlacedStays(ranked: seq<(string, real)>, q: string, longer: seq<(string, real)>, i: nat)
    requires Ranked(ranked, q) && i <= |ranked| && |longer| == |ranked| + 1
    requires longer[..i] == ranked[..i] && longer[i + 1..] == ranked[i..]
    ensures Ranked(longer, q)
  {
    var k :| 0 <= k < |ranked| && ranked[k].0 == q;
    if k < i {
      assert longer[k] == longer[..i][k];
    } else {
      assert longer[k + 1] == longer[i + 1..][k - i];
    }
  }

  method Sorted(scores: map<string, real>) returns (ranked: seq<(string, real)>)
    ensures Ranking(ranked, scores)
  {
    ranked := [];
    var todo := scores;
    while todo != map[]
      invariant todo.Keys <= scores.Keys && forall r :: r in todo ==> todo[r] == scores[r]
      invariant Ranking(ranked, scores - todo.Keys)
      decreases |todo|
    {
      var r :| r in todo;
      ranked := Place(ranked, scores - todo.Keys, r, scores[r]);
      assert scores - (todo - {r}).Keys == (scores - todo.Keys)[r := scores[r]];
      todo := todo - {r};
    }
    assert scores - todo.Keys == scores;
  }

  lemma {:induction false} SumWithout(m: map<string, nat>, k: string)
    requires k in m
    ensures SumValues(m) == m[k] + SumValues(m - {k})
    decreases |m|
  {
    var j :| j in m && SumValues(m) == m[j] + SumValues(m - {j});
    if j != k {
      SumWithout(m - {j}, k);
      SumWithout(m - {k}, j);
      assert m - {j} - {k} == m - {k} - {j};
    }
  }

  /** `more` is `scores` with the token's term added for each document in `hits`. */
  ghost predicate Gains(s: Index, log: real -> real, scores: map<string, real>, token: string, hits: set<string>,
                        more: map<string, real>)
  {
    && more.Keys == scores.Keys + hits
    && forall r :: r in more ==>
         more[r] == (if r in scores then scores[r] else 0.0) + (if r in hits then IndexTerm(s, log, token, r) else 0.0)
  }

  lemma CountedOneMore(inverted: Postings, done: set<string>, counts: multiset<string>, r: string, t: string)
    requires t !in done
    ensures var now := Counted(inverted, done, counts, r);
            now[t := (if t in now then now[t] else map[])[r := counts[t]]] == Counted(inverted, done + {t}, counts, r)
  {
  }

  lemma GainsNothing(s: Index, log: real -> real, scores: map<string, real>, token: string)
    ensures Gains(s, log, scores, token, {}, scores)
  {
  }

  lemma GainsOneMore(s: Index, log: real -> real, scores: map<string, real>, token: string, done: set<string>,
                     more: map<string, real>, r: string, gain: real)
    requires Gains(s, log, scores, token, done, more)
    requires r !in done && gain == IndexTerm(s, log, token, r)
    ensures Gains(s, log, scores, token, done + {r}, more[r := (if r in more then more[r] else 0.0) + gain])
  {
    hide IndexTerm;
  }

  // ---- the index object

  class FullTextIndex {
    var inverted: Postings
    var docLengths: map<string, nat>
    var docNamespaces: map<string, string>
    var totalDocs: nat
    var averageLength: Length

    ghost function State(): Index
      reads this
    {
      Index(inverted, docLengths, docNamespaces, totalDocs, averageLength)
    }

    constructor ()
      ensures State() == NO_INDEX
    {
      inverted, docLengths, docNamespaces, totalDocs, averageLength := map[], map[], map[], 0, 0.0;
    }

    method Add(r: string, tokens: seq<string>, namespace: string)
      modifies this
      ensures State() == Added(old(State()), r, Doc(tokens, namespace))
    {
      hide Mean, Counted;
      if tokens == [] {
        return;
      }
      CountTokens(r, tokens);
      docLengths := docLengths[r := |tokens|];
      docNamespaces := docNamespaces[r := namespace];
      totalDocs := |docLengths|;
      averageLength := MeanLength();
    }

    /** Record how often each token occurs. */
    method CountTokens(r: string, tokens: seq<string>)
      modifies this`inverted
      ensures inverted == Counted(old(inverted), set t | t in tokens, multiset(tokens), r)
    {
      var counts := multiset(tokens);
      var todo := set t | t in tokens;
      ghost var done: set<string> := {};
      while todo != {}
        invariant done + todo == (set t | t in tokens) && done !! todo
        invariant inverted == Counted(old(inverted), done, counts, r)
        decreases todo
      {
        var t :| t in todo;
        CountedOneMore(old(inverted), done, counts, r, t);
        inverted := inverted[t := (if t in inverted then inverted[t] else map[])[r := counts[t]]];
        todo := todo - {t};
        done := done + {t};
      }
      assert done == set t | t in tokens;
    }

    method MeanLength() returns (mean: Length)
      ensures mean == Mean(SumValues(docLengths), |docLengths|)
    {
      hide Mean;
      var sum := 0;
      var todo := docLengths;
      while todo != map[]
        invariant sum + SumValues(todo) == SumValues(docLengths)
        decreases |todo|
      {
        var k :| k in todo;
        SumWithout(todo, k);
        sum := sum + todo[k];
        todo := todo - {k};
      }
      mean := Mean(sum, |docLengths|);
    }

    method Remove(r: string)
      modifies this
      ensures State() == Removed(old(State()), r)
    {
      inverted := map t | t in inverted :: inverted[t] - {r};
      docLengths := docLengths - {r};
      docNamespaces := docNamespaces - {r};
      totalDocs := |docLengths|;
    }

    /** Add one query token's contributions to the score table. */
    method Accumulate(log: real -> real, scores: map<string, real>, token: string, namespace: Option<string>)
      returns (more: map<string, real>)
      ensures Gains(State(), log, scores, token, Hits(State(), token, namespace), more)
    {
      hide Weight, Idf, Gains;
      GainsNothing(State(), log, scores, token);
      more := scores;
      var postings := if token in inverted then inverted[token] else map[];
      if postings == map[] {
        assert Hits(State(), token, namespace) == {};
        return;
      }
      var idf := Idf(log, totalDocs, |postings|);
      var todo := postings.Keys;
      ghost var done: set<string> := {};
      while todo != {}
        invariant todo <= postings.Keys
        invariant done == Hits(State(), token, namespace) - todo
        invariant postings == PostingsOf(State(), token) && idf == Idf(log, totalDocs, |postings|)
        invariant Gains(State(), log, scores, token, done, more)
        decreases todo
      {
        var r :| r in todo;
        todo := todo - {r};
        if !Passes(namespace, Get(docNamespaces, r)) {
          continue;
        }
        var length := if r in docLengths then docLengths[r] else 1;
        var gain := idf * Weight(postings[r], length, averageLength);
        GainsOneMore(State(), log, scores, token, done, more, r, gain);
        more := more[r := (if r in more then more[r] else 0.0) + gain];
        done := done + {r};
      }
      assert done == Hits(State(), token, namespace);
    }

    /** The best `topK` of all matches, scored through the index. */
    method Search(log: real -> real, query: seq<string>, namespace: Option<string>, topK: int)
      returns (best: seq<(string, real)>)
      ensures exists ranked ::
                Ranking(ranked, IndexScores(State(), log, query, namespace)) && best == Slice(ranked, topK)
      ensures namespace.Some? && namespace.value != "" ==>
                forall i :: 0 <= i < |best| ==>
                  best[i].0 in docNamespaces && docNamespaces[best[i].0] == namespace.value
    {
      if query == [] {
        assert Ranking([], IndexScores(State(), log, query, namespace));
        return [];
      }
      var scores: map<string, real> := map[];
      var i := 0;
      while i < |query|
        invariant 0 <= i <= |query|
        invariant scores == IndexScores(State(), log, query[..i], namespace)
      {
        ghost var before := scores;
        scores := Accumulate(log, scores, query[i], namespace);
        ScoresGrow(State(), log, query, i, namespace, before, scores);
        i := i + 1;
      }
      assert query[..i] == query;
      var ranked := Sorted(scores);
      best := Slice(ranked, topK);
      if namespace.Some? && namespace.value != "" {
        OfNamespace(State(), log, query, namespace, topK, ranked);
      }
    }
  }

  lemma OfNamespace(s: Index, log: real -> real, query: seq<string>, namespace: Option<string>, topK: int,
                    ranked: seq<(string, real)>)
    requires Ranking(ranked, IndexScores(s, log, query, namespace)) && namespace.Some? && namespace.value != ""
    ensures var best := Slice(ranked, topK);
            forall i :: 0 <= i < |best| ==>
              best[i].0 in s.namespaces && s.namespaces[best[i].0] == namespace.value
  {
    MatchesPass(s, query, namespace);
    hide IndexScore, IndexMatches, Ranked, Descending;
    assert forall i :: 0 <= i < |ranked| ==> ranked[i].0 in IndexScores(s, log, query, namespace);
  }

  /** What a search of an index in step with its documents returns: documents that hold a token
      of the query and are of the namespace, with their scores from their own tokens. */
  lemma BestAreFound(s: Index, docs: Docs, log: real -> real, query: seq<string>, namespace: Option<string>, topK: nat,
                     ranked: seq<(string, real)>)
    requires Agrees(s, docs) && Ranking(ranked, IndexScores(s, log, query, namespace))
    ensures forall i :: 0 <= i < |Slice(ranked, topK)| ==>
              var (r, score) := Slice(ranked, topK)[i];
              && r in docs && score == DirectScore(docs, s.average, log, query, r)
              && (exists j :: 0 <= j < |query| && query[j] in docs[r].tokens)
              && (namespace.Some? && namespace.value != "" ==> docs[r].namespace == namespace.value)
  {
    var best := Slice(ranked, topK);
    assert best == ranked[..|best|];
    hide Slice, IndexScores, Agrees, Ranking, DirectScore;
    forall i | 0 <= i < |best|
      ensures var (r, score) := best[i];
              && r in docs && score == DirectScore(docs, s.average, log, query, r)
              && (exists j :: 0 <= j < |query| && query[j] in docs[r].tokens)
              && (namespace.Some? && namespace.value != "" ==> docs[r].namespace == namespace.value)
    {
      ReturnedIsFound(s, docs, log, query, namespace, ranked, i);
    }
  }

  /** As many as asked for or as there are, each once, in falling order; and none with a higher
      score is missing. */
  lemma BestAreHighest(scores: map<string, real>, topK: nat, ranked: seq<(string, real)>)
    requires Ranking(ranked, scores)
    ensures var best := Slice(ranked, topK);
            && |best| == (if topK < |scores| then topK else |scores|)
            && (forall i, j :: 0 <= i < j < |best| ==> best[i].0 != best[j].0 && best[i].1 >= best[j].1)
            && (forall r, i :: r in scores && !Ranked(best, r) && 0 <= i < |best| ==> best[i].1 >= scores[r])
  {
    var best := Slice(ranked, topK);
    RankingLength(ranked, scores);
    assert best == ranked[..|best|];
    hide Ranked;
    forall r, i | r in scores && !Ranked(best, r) && 0 <= i < |best| ensures best[i].1 >= scores[r] {
      LaterIsLower(ranked, scores, topK, r, i);
    }
  }

  lemma ReturnedIsFound(s: Index, docs: Docs, log: real -> real, query: seq<string>, namespace: Option<string>,
                        ranked: seq<(string, real)>, i: nat)
    requires Agrees(s, docs) && Ranking(ranked, IndexScores(s, log, query, namespace)) && i < |ranked|
    ensures var (r, score) := ranked[i];
            && r in docs && score == DirectScore(docs, s.average, log, query, r)
            && (exists j :: 0 <= j < |query| && query[j] in docs[r].tokens)
            && (namespace.Some? && namespace.value != "" ==> docs[r].namespace == namespace.value)
  {
    FoundIff(s, docs, log, query, namespace, ranked[i].0);
    hide Agrees, IndexMatches, IndexScore, DirectScore, Ranked, Descending;
    assert ranked[i].0 in IndexScores(s, log, query, namespace);
    ScoreIsDirect(s, docs, log, query, ranked[i].0);
  }

  lemma LaterIsLower(ranked: seq<(string, real)>, scores: map<string, real>, topK: nat, r: string, i: nat)
    requires Ranking(ranked, scores) && r in scores && !Ranked(Slice(ranked, topK), r) && i < |Slice(ranked, topK)|
    ensures Slice(ranked, topK)[i].1 >= scores[r]
  {
    assert Ranked(ranked, r);
    var k :| 0 <= k < |ranked| && ranked[k].0 == r;
    var best := Slice(ranked, topK);
    assert best == ranked[..|best|];
    assert forall j :: 0 <= j < |best| ==> best[j] == ranked[j];
  }

  lemma {:induction false} RankingLength(ranked: seq<(string, real)>, scores: map<string, real>)
    requires Ranking(ranked, scores)
    ensures |ranked| == |scores|
  {
    var ids := set i | 0 <= i < |ranked| :: ranked[i].0;
    assert ids == scores.Keys by {
      forall r | r in scores ensures r in ids {
        assert Ranked(ranked, r);
      }
    }
    DistinctCount(ranked);
  }

  lemma {:induction false} DistinctCount(ranked: seq<(string, real)>)
    requires Descending(ranked)
    ensures |set i | 0 <= i < |ranked| :: ranked[i].0| == |ranked|
  {
    if |ranked| > 0 {
      var n := |ranked| - 1;
      DistinctCount(ranked[..n]);
      assert (set i | 0 <= i < |ranked| :: ranked[i].0) == (set i | 0 <= i < n :: ranked[..n][i].0) + {ranked[n].0};
    }
  }

  /** An id that no token so far has matched has no score so far. */
  lemma {:induction false} UnmatchedScoresZero(s: Index, log: real -> real, query: seq<string>,
                                               namespace: Option<string>, r: string)
    requires Passes(namespace, Get(s.namespaces, r)) && r !in IndexMatches(s, query, namespace)
    ensures IndexScore(s, log, query, r) == 0.0
  {
    if |query| > 0 {
      UnmatchedScoresZero(s, log, query[..|query| - 1], namespace, r);
    }
  }

  lemma {:induction false} MatchesPass(s: Index, query: seq<string>, namespace: Option<string>)
    ensures forall r :: r in IndexMatches(s, query, namespace) ==> Passes(namespace, Get(s.namespaces, r))
  {
    if |query| > 0 {
      MatchesPass(s, query[..|query| - 1], namespace);
    }
  }

  lemma MatchesGrow(s: Index, log: real -> real, query: seq<string>, i: nat, namespace: Option<string>,
                    before: map<string, real>, after: map<string, real>)
    requires i < |query| && before == IndexScores(s, log, query[..i], namespace)
    requires Gains(s, log, before, query[i], Hits(s, query[i], namespace), after)
    ensures after.Keys == IndexMatches(s, query[..i + 1], namespace)
    ensures forall r :: r in after ==> Passes(namespace, Get(s.namespaces, r))
  {
    hide IndexTerm, IndexScore, Passes, PostingsOf;
    assert query[..i + 1][..i] == query[..i];
    MatchesPass(s, query[..i + 1], namespace);
  }

  lemma ScoresGrow(s: Index, log: real -> real, query: seq<string>, i: nat, namespace: Option<string>,
                   before: map<string, real>, after: map<string, real>)
    requires i < |query| && before == IndexScores(s, log, query[..i], namespace)
    requires Gains(s, log, before, query[i], Hits(s, query[i], namespace), after)
    ensures after == IndexScores(s, log, query[..i + 1], namespace)
  {
    hide Gains, Hits, IndexScore, IndexTerm, PostingsOf, Passes, Get, IndexMatches;
    MatchesGrow(s, log, query, i, namespace, before, after);
    forall r | r in after ensures after[r] == IndexScore(s, log, query[..i + 1], r) {
      ScoreGrows(s, log, query, i, namespace, before, after, r);
    }
  }

  lemma ScoreGrows(s: Index, log: real -> real, query: seq<string>, i: nat, namespace: Option<string>,
                   before: map<string, real>, after: map<string, real>, r: string)
    requires i < |query| && before == IndexScores(s, log, query[..i], namespace)
    requires Gains(s, log, before, query[i], Hits(s, query[i], namespace), after)
    requires r in after && Passes(namespace, Get(s.namespaces, r))
    ensures after[r] == IndexScore(s, log, query[..i + 1], r)
  {
    hide IndexTerm, PostingsOf, Hits, IndexMatches;
    var longer, token := query[..i + 1], query[i];
    assert longer[..i] == query[..i] && longer[i] == token;
    assert IndexScore(s, log, longer, r) == IndexScore(s, log, query[..i], r) + IndexTerm(s, log, token, r);
    if r !in before {
      UnmatchedScoresZero(s, log, query[..i], namespace, r);
    }
    if r !in Hits(s, token, namespace) {
      NoHitNoTerm(s, log, token, namespace, r);
    }
  }

  lemma NoHitNoTerm(s: Index, log: real -> real, token: string, namespace: Option<string>, r: string)
    requires Passes(namespace, Get(s.namespaces, r)) && r !in Hits(s, token, namespace)
    ensures IndexTerm(s, log, token, r) == 0.0
  {
  }
}
