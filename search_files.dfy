/** The query runner (SearchFilesTest): read query lines until the end of
    the file or the first line that is blank after trimming, run one search
    per line, and list at most 100 hits per search, numbered from 1, each
    with its stored path (or a note that it has none) and its stored title
    when there is one. */
module SearchFiles {
  import opened JavaLang
  import opened LuceneDocuments
  import IndexFiles

  /** A parsed query; QueryParser and Query.toString are not modelled. */
  type Query

  /** A hit's relevance score, passed through as it comes. */
  type Score

  type DocId = nat

  /** One entry of a result list: which document, with what score. */
  datatype ScoreDoc = ScoreDoc(doc: DocId, score: Score)

  /** The open index as the query runner sees it. */
  datatype Searcher = Searcher(
    matches: Query -> seq<ScoreDoc>,  // every matching document, best first
    stored: DocId -> Document)        // searcher.doc(id): the stored fields

  /** The result of searcher.search(query, n). */
  datatype TopDocs = TopDocs(totalHits: nat, scoreDocs: seq<ScoreDoc>)

  /** The number of hits requested per search. */
  const MaxHits: nat := 100

  /** The number of hits per page the program declares; nothing reads it. */
  const HitsPerPage: nat := 10

  function Min(a: nat, b: nat): nat {
    if a <= b then a else b
  }

  /** searcher.search(query, n): the total count and the best n matches. */
  function Search(s: Searcher, q: Query, n: nat): TopDocs {
    var all := s.matches(q);
    TopDocs(|all|, all[..Min(n, |all|)])
  }

  /** The console lines, one constructor per println of the program. */
  datatype OutLine =
    | LookingFor(query: Query)                        // "Looking for: " + query
    | TotalMatching(total: nat)                       // total + " total matching documents"
    | Entry(rank: nat, path: string, score: Score)    // rank + ". " + path + " score = " + score
    | TitleLine(title: string)                        // "   Title: " + title
    | NoPath(rank: nat)                               // rank + ". No path for this document"

  /** What a listed hit shows: its stored path and title, if any, and its
      score. */
  datatype Hit = Hit(path: Option<string>, title: Option<string>, score: Score)

  function HitOf(s: Searcher, sd: ScoreDoc): Hit {
    var doc := s.stored(sd.doc);
    Hit(Get(doc, "path"), Get(doc, "title"), sd.score)
  }

  /** The lines printed for the hit listed at position `rank`. */
  function EntryLines(rank: nat, h: Hit): seq<OutLine> {
    match h.path
    case None => [NoPath(rank)]
    case Some(path) =>
      [Entry(rank, path, h.score)] + (match h.title case None => [] case Some(t) => [TitleLine(t)])
  }

  /** The lines printed for a result list, hit i at rank i + 1. */
  function Listing(s: Searcher, hits: seq<ScoreDoc>): seq<OutLine> {
    if hits == [] then []
    else Listing(s, hits[..|hits| - 1]) + EntryLines(|hits|, HitOf(s, hits[|hits| - 1]))
  }

  /** Everything doPagingSearch prints for one query. */
  function PagingOutput(s: Searcher, q: Query): seq<OutLine> {
    var results := Search(s, q, MaxHits);
    [TotalMatching(results.totalHits)] + Listing(s, results.scoreDocs)
  }

  /** The body of doPagingSearch's loop: the lines printed for the hit at
      position `rank`. */
  method PrintHit(s: Searcher, hit: ScoreDoc, rank: nat) returns (lines: seq<OutLine>)
    ensures lines == EntryLines(rank, HitOf(s, hit))
  {
    var doc := s.stored(hit.doc);
    var path := Get(doc, "path");
    if path.Some? {
      lines := [Entry(rank, path.value, hit.score)];
      var title := Get(doc, "title");
      if title.Some? {
        lines := lines + [TitleLine(Get(doc, "title").value)];
      }
    } else {
      lines := [NoPath(rank)];
    }
  }

  /** Listing one more hit appends its lines, numbered by its position. */
  lemma ListingStep(s: Searcher, hits: seq<ScoreDoc>, i: nat)
    requires i < |hits|
    ensures Listing(s, hits[..i + 1]) == Listing(s, hits[..i]) + EntryLines(i + 1, HitOf(s, hits[i]))
  {
    assert hits[..i + 1][..i] == hits[..i];
  }

  /** doPagingSearch: fetch the best 100 hits and print them in order. */
  method DoPagingSearch(s: Searcher, query: Query) returns (out: seq<OutLine>)
    ensures out == PagingOutput(s, query)
  {
    var results := Search(s, query, MaxHits);
    var hits := results.scoreDocs;
    var numTotalHits := results.totalHits;
    var listing := [];
    for i := 0 to |hits|
      invariant listing == Listing(s, hits[..i])
    {
      var lines := PrintHit(s, hits[i], i + 1);
      ListingStep(s, hits, i);
      listing := listing + lines;
    }
    assert hits[..|hits|] == hits;
    out := [TotalMatching(numTotalHits)] + listing;
  }

  /** The numbered header line of a listed hit. */
  function Header(rank: nat, h: Hit): OutLine {
    if h.path.Some? then Entry(rank, h.path.value, h.score) else NoPath(rank)
  }

  predicate IsHeader(l: OutLine) {
    l.Entry? || l.NoPath?
  }

  /** The header lines among the printed lines, in order. */
  function Headers(lines: seq<OutLine>): seq<OutLine> {
    if lines == [] then []
    else (if IsHeader(lines[0]) then [lines[0]] else []) + Headers(lines[1..])
  }

  lemma {:induction false} HeadersAppend(a: seq<OutLine>, b: seq<OutLine>)
    ensures Headers(a + b) == Headers(a) + Headers(b)
  {
    if a == [] {
      assert a + b == b;
    } else {
      var ab := a + b;
      assert ab[0] == a[0] && ab[1..] == a[1..] + b;
      HeadersAppend(a[1..], b);
      var first := if IsHeader(a[0]) then [a[0]] else [];
      assert Headers(ab) == first + Headers(a[1..] + b);
      assert Headers(a) == first + Headers(a[1..]);
    }
  }

  /** Each listed hit contributes exactly one numbered line. */
  lemma HeadersOfEntry(rank: nat, h: Hit)
    ensures Headers(EntryLines(rank, h)) == [Header(rank, h)]
  {
    var e := EntryLines(rank, h);
    assert e[0] == Header(rank, h);
    if h.path.Some? && h.title.Some? {
      var t := e[1..];
      assert t == [TitleLine(h.title.value)];
      assert t[1..] == [];
      assert Headers(t) == [];
    } else {
      assert e[1..] == [];
    }
  }

  /** Hits are listed in the searcher's order with one header each, numbered
      1, 2, ... : the header of the i-th hit has rank i + 1 and shows its
      path, or says that it has none. */
  lemma {:induction false} ListingHeaders(s: Searcher, hits: seq<ScoreDoc>)
    ensures |Headers(Listing(s, hits))| == |hits|
    ensures forall i :: 0 <= i < |hits| ==>
      Headers(Listing(s, hits))[i] == Header(i + 1, HitOf(s, hits[i]))
  {
    if hits != [] {
      var n := |hits|;
      var init := hits[..n - 1];
      ListingHeaders(s, init);
      var e := EntryLines(n, HitOf(s, hits[n - 1]));
      HeadersAppend(Listing(s, init), e);
      HeadersOfEntry(n, HitOf(s, hits[n - 1]));
      forall i | 0 <= i < n - 1
        ensures Headers(Listing(s, hits))[i] == Header(i + 1, HitOf(s, hits[i]))
      {
        assert init[i] == hits[i];
      }
    }
  }

  /** Every title line sits directly under a numbered line that shows a
      path. */
  predicate TitlesFollowEntries(l: seq<OutLine>) {
    forall j :: 0 <= j < |l| && l[j].TitleLine? ==> 0 < j && l[j - 1].Entry?
  }

  /** A title line is printed only directly under the numbered line of a hit
      that has a path; it never opens a listing and never follows a hit
      without a path. */
  lemma {:induction false} TitleFollowsPath(s: Searcher, hits: seq<ScoreDoc>)
    ensures TitlesFollowEntries(Listing(s, hits))
  {
    if hits != [] {
      var n := |hits|;
      TitleFollowsPath(s, hits[..n - 1]);
      var prev := Listing(s, hits[..n - 1]);
      var h := HitOf(s, hits[n - 1]);
      var e := EntryLines(n, h);
      var l := prev + e;
      assert l == Listing(s, hits);
      forall j | 0 <= j < |l| && l[j].TitleLine?
        ensures 0 < j && l[j - 1].Entry?
      {
        if j < |prev| {
          assert l[j] == prev[j];
          assert l[j - 1] == prev[j - 1];
        } else {
          assert l[j] == e[j - |prev|];
          assert h.path.Some? && h.title.Some? && j == |prev| + 1;
          assert l[j - 1] == e[0];
        }
      }
    }
  }

  /** At most 100 hits are listed per query, whatever the number of matches
      and whatever HitsPerPage says; fewer only when fewer documents match. */
  lemma ListingCap(s: Searcher, q: Query)
    ensures |Headers(PagingOutput(s, q))| == Min(MaxHits, |s.matches(q)|) <= 100
  {
    var results := Search(s, q, MaxHits);
    HeadersAppend([TotalMatching(results.totalHits)], Listing(s, results.scoreDocs));
    ListingHeaders(s, results.scoreDocs);
  }

  /** Against an index built by IndexFiles, whose stored fields are only the
      path, a hit prints its numbered path line and never a Title line. */
  lemma IndexedHitShowsPathOnly(s: Searcher, sd: ScoreDoc, rank: nat,
                                docsPath: string, name: string, p: IndexFiles.Platform)
    requires s.stored(sd.doc) == StoredView(IndexFiles.DocumentFor(IndexFiles.FilePath(docsPath, name), p))
    ensures EntryLines(rank, HitOf(s, sd)) == [Entry(rank, docsPath + "/" + name, sd.score)]
  {
    IndexFiles.DocumentShape(docsPath, name, p);
  }

  /** The queries the loop runs: the trimmed lines up to, not including, the
      first line that is empty after trimming. */
  function AcceptedQueries(lines: seq<string>): seq<string> {
    if lines == [] then []
    else
      var line := Trim(lines[0]);
      if |line| == 0 then [] else [line] + AcceptedQueries(lines[1..])
  }

  /** The index of the first line made only of chars <= ' ' (the empty line
      included), or the number of lines when there is none. */
  function FirstBlank(lines: seq<string>): (k: nat)
    ensures k <= |lines|
    ensures forall j :: 0 <= j < k ==> !AllTrimmable(lines[j])
    ensures k < |lines| ==> AllTrimmable(lines[k])
  {
    if lines == [] || AllTrimmable(lines[0]) then 0
    else 1 + FirstBlank(lines[1..])
  }

  /** One search per leading line that is not blank: as many queries as
      lines before the first blank one, each the trimmed line, none empty. */
  lemma {:induction false} QueriesAreLeadingLines(lines: seq<string>)
    ensures |AcceptedQueries(lines)| == FirstBlank(lines)
    ensures forall i :: 0 <= i < FirstBlank(lines) ==>
      AcceptedQueries(lines)[i] == Trim(lines[i]) && AcceptedQueries(lines)[i] != []
  {
    if lines != [] {
      TrimEmptyIffBlank(lines[0]);
      if !AllTrimmable(lines[0]) {
        QueriesAreLeadingLines(lines[1..]);
      }
    }
  }

  /** The lines after a blank line play no part: whatever follows it, the
      queries are those of the lines up to it. */
  lemma {:induction false} LinesAfterBlankIgnored(lines: seq<string>, rest: seq<string>)
    requires lines != [] && AllTrimmable(lines[|lines| - 1])
    ensures AcceptedQueries(lines + rest) == AcceptedQueries(lines)
  {
    TrimEmptyIffBlank(lines[0]);
    if |lines| > 1 {
      assert (lines + rest)[1..] == lines[1..] + rest;
      LinesAfterBlankIgnored(lines[1..], rest);
    }
  }

  /** Everything printed for a run of queries, in order. */
  function Transcript(queries: seq<string>, parse: string -> Query, s: Searcher): seq<OutLine> {
    if queries == [] then []
    else
      var q := parse(queries[|queries| - 1]);
      Transcript(queries[..|queries| - 1], parse, s) + [LookingFor(q)] + PagingOutput(s, q)
  }

  lemma TranscriptSnoc(queries: seq<string>, q: string, parse: string -> Query, s: Searcher)
    ensures Transcript(queries + [q], parse, s) ==
            Transcript(queries, parse, s) + [LookingFor(parse(q))] + PagingOutput(s, parse(q))
  {
    assert (queries + [q])[..|queries|] == queries;
  }

  /** The queries from line k on: none if line k is blank, else line k
      trimmed followed by the queries from line k + 1. */
  lemma AcceptedQueriesFrom(lines: seq<string>, k: nat)
    requires k < |lines|
    ensures AcceptedQueries(lines[k..]) ==
      if |Trim(lines[k])| == 0 then [] else [Trim(lines[k])] + AcceptedQueries(lines[k + 1..])
  {
    assert lines[k..][1..] == lines[k + 1..];
  }

  /** The loop's progress after reading k lines: `queries` followed by the
      queries of the unread lines are all the queries of the file. */
  ghost predicate QueriesBefore(lines: seq<string>, k: nat, queries: seq<string>)
    requires k <= |lines|
  {
    queries + AcceptedQueries(lines[k..]) == AcceptedQueries(lines)
  }

  /** Reading line k either ends the run (the line is blank, and the queries
      so far are all of them) or adds the trimmed line as the next query. */
  lemma AcceptStep(lines: seq<string>, k: nat, queries: seq<string>)
    requires k < |lines| && QueriesBefore(lines, k, queries)
    ensures |Trim(lines[k])| == 0 ==> queries == AcceptedQueries(lines)
    ensures |Trim(lines[k])| != 0 ==> QueriesBefore(lines, k + 1, queries + [Trim(lines[k])])
  {
    AcceptedQueriesFrom(lines, k);
    var rest := AcceptedQueries(lines[k + 1..]);
    assert (queries + [Trim(lines[k])]) + rest == queries + ([Trim(lines[k])] + rest);
  }

  /** Once every line is read, the queries so far are all of them. */
  lemma AcceptEnd(lines: seq<string>, queries: seq<string>)
    requires QueriesBefore(lines, |lines|, queries)
    ensures queries == AcceptedQueries(lines)
  {
    assert lines[|lines|..] == [];
    assert queries + [] == queries;
  }

  /** The query file read line by line: readLine() gives the next line, or
      null at the end of the file. */
  class LineReader {
    const lines: seq<string>
    var pos: nat

    ghost predicate Valid()
      reads this
    {
      pos <= |lines|
    }

    constructor (lines: seq<string>)
      ensures this.lines == lines && pos == 0 && Valid()
    {
      this.lines := lines;
      pos := 0;
    }

    method ReadLine() returns (line: Option<string>)
      requires Valid()
      modifies this
      ensures Valid()
      ensures old(pos) == |lines| ==> line == None && pos == old(pos)
      ensures old(pos) < |lines| ==> line == Some(lines[old(pos)]) && pos == old(pos) + 1
    {
      if pos == |lines| {
        line := None;
      } else {
        line := Some(lines[pos]);
        pos := pos + 1;
      }
    }
  }

  /** SearchFilesTest.main from opening the query file on: the query strings
      handed to the parser, in file order, and the console lines. */
  method RunQueries(lines: seq<string>, parse: string -> Query, s: Searcher)
    returns (queries: seq<string>, out: seq<OutLine>)
    ensures queries == AcceptedQueries(lines)
    ensures out == Transcript(queries, parse, s)
  {
    var queryString: Option<string> := None;
    var reader := new LineReader(lines);
    queries, out := [], [];
    while true
      invariant reader.Valid() && reader.lines == lines
      invariant QueriesBefore(lines, reader.pos, queries)
      invariant out == Transcript(queries, parse, s)
      decreases |lines| - reader.pos
    {
      ghost var before := reader.pos;
      var line := reader.ReadLine();
      if line == None || |line.value| == -1 {
        AcceptEnd(lines, queries);
        break;
      }
      var trimmed := Trim(line.value);
      AcceptStep(lines, before, queries);
      if |trimmed| == 0 {
        break;
      }

      var query := parse(trimmed);
      TranscriptSnoc(queries, trimmed, parse, s);
      out := out + [LookingFor(query)];
      var paging := DoPagingSearch(s, query);
      out := out + paging;
      queries := queries + [trimmed];

      if queryString != None {
        break;
      }
    }
  }
}
