/** Post-processing of one vector-store query into a labelled block of excerpts
    (`_format_source` and `_retrieve` in server.py). The store itself is not
    modelled: its answer to the query is an input. */
module Retrieval {
  import opened Wrappers
  import opened Text

  /** The metadata stored with a chunk; `None` is a key that is absent. */
  datatype Meta = Meta(filename: Option<string>, sourceUrl: Option<string>, url: Option<string>, chunkIndex: Option<string>)

  /** Metadata that is missing altogether reads as an empty dictionary. */
  const NoMeta := Meta(None, None, None, None)

  /** What the store answers to one query: a failure with its message, or the
      parallel lists of the single result set, in relevance order. A document
      or a metadata entry may be `None`. */
  datatype QueryResult =
    | QueryFailed(error: string)
    | QueryOk(ids: seq<string>, documents: seq<Option<string>>, metadatas: seq<Option<Meta>>)
  {
    /** Every id has a document and a metadata entry at the same position. */
    predicate WellFormed() {
      QueryOk? ==> |documents| >= |ids| && |metadatas| >= |ids|
    }
  }

  /** One excerpt taken into a block: the raw position `position` of its document
      in the result, its (stripped, capped) text and its metadata. */
  datatype Excerpt = Excerpt(position: nat, text: string, meta: Meta)

  function FileName(meta: Meta): string {
    meta.filename.GetOr("")
  }

  /** The link shown for a chunk: `source_url` when it is non-empty, else `url` (possibly empty). */
  function Link(meta: Meta): string {
    if meta.sourceUrl.Some? && meta.sourceUrl.value != "" then meta.sourceUrl.value else meta.url.GetOr("")
  }

  /** `_format_source`: the source line of an excerpt. */
  function FormatSource(meta: Meta): (line: string)
    ensures IsPrefix("Source: " + FileName(meta), line)
    ensures line == "Source: " + FileName(meta) <==> Link(meta) == ""
    ensures Link(meta) != "" ==> IsSuffix(" \U{2014} " + Link(meta), line)
  {
    var url := Link(meta);
    if url != "" then "Source: " + FileName(meta) + " \U{2014} " + url else "Source: " + FileName(meta)
  }

  /** A non-empty `source_url` wins over `url`; `url` is used only when `source_url` is absent or empty. */
  lemma SourceUrlPreferred(meta: Meta)
    ensures meta.sourceUrl.Some? && meta.sourceUrl.value != "" ==>
              FormatSource(meta) == "Source: " + FileName(meta) + " \U{2014} " + meta.sourceUrl.value
    ensures (meta.sourceUrl.None? || meta.sourceUrl.value == "") && meta.url.Some? && meta.url.value != "" ==>
              FormatSource(meta) == "Source: " + FileName(meta) + " \U{2014} " + meta.url.value
  {
  }

  /** The stripped text of the document at position `i` (`None` reads as empty). */
  function Document(res: QueryResult, i: nat): string
    requires res.QueryOk? && res.WellFormed() && i < |res.ids|
  {
    Strip(res.documents[i].GetOr(""))
  }

  function MetaAt(res: QueryResult, i: nat): Meta
    requires res.QueryOk? && res.WellFormed() && i < |res.ids|
  {
    res.metadatas[i].GetOr(NoMeta)
  }

  /** A document takes part unless it is blank once stripped. */
  predicate IsCandidate(res: QueryResult, i: nat)
    requires res.QueryOk? && res.WellFormed() && i < |res.ids|
  {
    Document(res, i) != ""
  }

  /** The result holds at least one document that is not blank. */
  predicate HasCandidate(res: QueryResult) {
    res.QueryOk? && res.WellFormed() && exists i :: 0 <= i < |res.ids| && IsCandidate(res, i)
  }

  /** Python's `text[:cap]` applied when the text is longer than `cap`. */
  function Truncate(text: string, cap: nat): (t: string)
    ensures |t| <= cap && IsPrefix(t, text)
    ensures |text| <= cap ==> t == text
    ensures |text| > cap ==> |t| == cap
  {
    if |text| > cap then text[..cap] else text
  }

  /** The excerpt the document at position `i` yields. */
  function ExcerptAt(res: QueryResult, cap: nat, i: nat): Excerpt
    requires res.QueryOk? && res.WellFormed() && i < |res.ids|
  {
    Excerpt(i, Truncate(Document(res, i), cap), MetaAt(res, i))
  }

  /** The excerpt `e` is what its own position yields: its document is not
      blank, its text is a prefix of the stripped document no longer than `cap`,
      the whole document when that fits, and `cap` characters otherwise. */
  predicate FaithfulExcerpt(res: QueryResult, cap: nat, e: Excerpt)
    requires res.QueryOk? && res.WellFormed()
  {
    && e.position < |res.ids|
    && var d := Document(res, e.position);
    && d != ""
    && |e.text| <= cap && IsPrefix(e.text, d)
    && (|d| <= cap ==> e.text == d)
    && (|d| > cap ==> |e.text| == cap)
    && e.meta == MetaAt(res, e.position)
  }

  /** The excerpt of a non-blank document is faithful to it. */
  lemma ExcerptAtFaithful(res: QueryResult, cap: nat, i: nat)
    requires res.QueryOk? && res.WellFormed() && i < |res.ids| && IsCandidate(res, i)
    ensures FaithfulExcerpt(res, cap, ExcerptAt(res, cap, i))
  {
  }

  /** Positions strictly increase along the block: relevance order is kept. */
  predicate InResultOrder(xs: seq<Excerpt>) {
    forall j, k :: 0 <= j < k < |xs| ==> xs[j].position < xs[k].position
  }

  /** Total length of the excerpts' texts (the running `total` of the loop). */
  function TextLength(xs: seq<Excerpt>): nat {
    if xs == [] then 0 else |xs[0].text| + TextLength(xs[1..])
  }

  /** Every excerpt the documents from position `i` on yield, with no budget:
      the reference against which the budgeted block is measured. */
  function Candidates(res: QueryResult, cap: nat, i: nat): (all: seq<Excerpt>)
    requires res.QueryOk? && res.WellFormed() && i <= |res.ids|
    decreases |res.ids| - i
    ensures forall j :: 0 <= j < |all| ==> i <= all[j].position < |res.ids|
  {
    if i == |res.ids| then []
    else if !IsCandidate(res, i) then Candidates(res, cap, i + 1)
    else [ExcerptAt(res, cap, i)] + Candidates(res, cap, i + 1)
  }

  /** The reference list holds faithful excerpts in result order, and is empty
      exactly when every document from `i` on is blank. */
  lemma {:induction false} CandidatesFaithful(res: QueryResult, cap: nat, i: nat)
    requires res.QueryOk? && res.WellFormed() && i <= |res.ids|
    ensures var all := Candidates(res, cap, i); forall j :: 0 <= j < |all| ==> FaithfulExcerpt(res, cap, all[j])
    ensures InResultOrder(Candidates(res, cap, i))
    ensures Candidates(res, cap, i) == [] <==> forall p :: i <= p < |res.ids| ==> !IsCandidate(res, p)
    decreases |res.ids| - i
  {
    if i < |res.ids| {
      CandidatesFaithful(res, cap, i + 1);
      if IsCandidate(res, i) {
        ExcerptAtFaithful(res, cap, i);
        ConsFaithful(res, cap, ExcerptAt(res, cap, i), Candidates(res, cap, i + 1));
      }
    }
  }

  /** Putting a faithful excerpt in front of faithful excerpts from later positions keeps the list faithful and ordered. */
  lemma ConsFaithful(res: QueryResult, cap: nat, e: Excerpt, rest: seq<Excerpt>)
    requires res.QueryOk? && res.WellFormed()
    requires FaithfulExcerpt(res, cap, e)
    requires forall j :: 0 <= j < |rest| ==> FaithfulExcerpt(res, cap, rest[j]) && e.position < rest[j].position
    requires InResultOrder(rest)
    ensures forall j :: 0 <= j < |[e] + rest| ==> FaithfulExcerpt(res, cap, ([e] + rest)[j])
    ensures InResultOrder([e] + rest)
  {
    var all := [e] + rest;
    forall j | 0 < j < |all|
      ensures all[j] == rest[j - 1]
    {
    }
  }

  /** No non-blank document is missing from the reference list. */
  lemma {:induction false} CandidatesComplete(res: QueryResult, cap: nat, i: nat)
    requires res.QueryOk? && res.WellFormed() && i <= |res.ids|
    ensures forall p :: i <= p < |res.ids| && IsCandidate(res, p) ==> ExcerptAt(res, cap, p) in Candidates(res, cap, i)
    decreases |res.ids| - i
  {
    if i < |res.ids| {
      CandidatesComplete(res, cap, i + 1);
    }
  }

  /** The accumulation loop of `_retrieve`, from position `i` with `total`
      characters already taken: blank documents are skipped, the rest are
      capped and taken in order, and taking stops right after the total first
      reaches `maxChars`. */
  function Scan(res: QueryResult, cap: nat, maxChars: int, i: nat, total: int): (taken: seq<Excerpt>)
    requires res.QueryOk? && res.WellFormed() && i <= |res.ids|
    decreases |res.ids| - i
    ensures forall j :: 0 <= j < |taken| ==> i <= taken[j].position < |res.ids|
  {
    if i == |res.ids| then []
    else if !IsCandidate(res, i) then Scan(res, cap, maxChars, i + 1, total)
    else
      var e := ExcerptAt(res, cap, i);
      if total + |e.text| >= maxChars then [e]
      else [e] + Scan(res, cap, maxChars, i + 1, total + |e.text|)
  }

  /** The loop takes the shortest prefix of the reference list whose running
      total reaches the budget, or the whole list when it never does: after
      every excerpt but the last the total is still below `maxChars`, and the
      loop leaves candidates behind only once the budget is reached. */
  lemma {:induction false} ScanIsBudgetedPrefix(res: QueryResult, cap: nat, maxChars: int, i: nat, total: int)
    requires res.QueryOk? && res.WellFormed() && i <= |res.ids|
    ensures var taken := Scan(res, cap, maxChars, i, total);
            var all := Candidates(res, cap, i);
            && |taken| <= |all| && taken == all[..|taken|]
            && (all != [] ==> taken != [])
            && (forall n :: 1 <= n < |taken| ==> total + TextLength(taken[..n]) < maxChars)
            && (|taken| < |all| ==> total + TextLength(taken) >= maxChars)
    decreases |res.ids| - i
  {
    if i < |res.ids| {
      if !IsCandidate(res, i) {
        ScanIsBudgetedPrefix(res, cap, maxChars, i + 1, total);
      } else {
        var e := ExcerptAt(res, cap, i);
        var all := Candidates(res, cap, i + 1);
        assert Candidates(res, cap, i) == [e] + all;
        if total + |e.text| < maxChars {
          var rest := Scan(res, cap, maxChars, i + 1, total + |e.text|);
          assert Scan(res, cap, maxChars, i, total) == [e] + rest;
          ScanIsBudgetedPrefix(res, cap, maxChars, i + 1, total + |e.text|);
          BudgetCons(e, rest, all, total, maxChars);
        } else {
          assert Scan(res, cap, maxChars, i, total) == [e];
          assert ([e] + all)[..1] == [e];
        }
      }
    }
  }

  /** One step of `ScanIsBudgetedPrefix`: taking `e` first, below budget, then `rest`. */
  lemma BudgetCons(e: Excerpt, rest: seq<Excerpt>, all: seq<Excerpt>, total: int, maxChars: int)
    requires total + |e.text| < maxChars
    requires |rest| <= |all| && rest == all[..|rest|]
    requires all != [] ==> rest != []
    requires forall n :: 1 <= n < |rest| ==> total + |e.text| + TextLength(rest[..n]) < maxChars
    requires |rest| < |all| ==> total + |e.text| + TextLength(rest) >= maxChars
    ensures var taken := [e] + rest;
            && taken == ([e] + all)[..|taken|]
            && (forall n :: 1 <= n < |taken| ==> total + TextLength(taken[..n]) < maxChars)
            && (|taken| < |[e] + all| ==> total + TextLength(taken) >= maxChars)
  {
    var taken := [e] + rest;
    forall n | 1 <= n < |taken|
      ensures total + TextLength(taken[..n]) < maxChars
    {
      assert taken[..n] == [e] + rest[..n - 1];
      assert TextLength([e] + rest[..n - 1]) == |e.text| + TextLength(rest[..n - 1]);
    }
    assert TextLength(taken) == |e.text| + TextLength(rest);
  }

  /** Lengths add up over concatenation. */
  lemma {:induction false} TextLengthAppend(xs: seq<Excerpt>, ys: seq<Excerpt>)
    ensures TextLength(xs + ys) == TextLength(xs) + TextLength(ys)
  {
    if xs == [] {
      assert xs + ys == ys;
    } else {
      assert (xs + ys)[1..] == xs[1..] + ys;
      TextLengthAppend(xs[1..], ys);
    }
  }

  /** The total of a list is the total of its first `n` excerpts plus the total of the rest. */
  lemma TextLengthSplit(xs: seq<Excerpt>, n: nat)
    requires n <= |xs|
    ensures TextLength(xs) == TextLength(xs[..n]) + TextLength(xs[n..])
  {
    assert xs == xs[..n] + xs[n..];
    TextLengthAppend(xs[..n], xs[n..]);
  }

  /** The excerpts `_retrieve` takes from a successful query, before rendering. */
  function Selected(res: QueryResult, maxChars: int, cap: nat): seq<Excerpt>
    requires res.QueryOk? && res.WellFormed()
  {
    Scan(res, cap, maxChars, 0, 0)
  }

  /** What the taken excerpts satisfy: each is its document stripped and capped
      at `cap`, taken only from a non-blank document (so its text is not empty
      when `cap` is positive), they follow the result order, they are the
      first non-blank documents with none skipped, the running total is below
      `maxChars` after every excerpt but the last, documents are left over only
      once the total has reached `maxChars`, and so the total overshoots the
      budget by less than one chunk. */
  lemma SelectedExcerpts(res: QueryResult, maxChars: int, cap: nat)
    requires res.QueryOk? && res.WellFormed()
    ensures var xs := Selected(res, maxChars, cap);
            var all := Candidates(res, cap, 0);
            && (forall j :: 0 <= j < |xs| ==> FaithfulExcerpt(res, cap, xs[j]))
            && (0 < cap ==> forall j :: 0 <= j < |xs| ==> xs[j].text != [])
            && InResultOrder(xs)
            && |xs| <= |all| && xs == all[..|xs|]
            && (forall n :: 1 <= n < |xs| ==> TextLength(xs[..n]) < maxChars)
            && (|xs| < |all| ==> TextLength(xs) >= maxChars)
            && (0 < maxChars ==> TextLength(xs) < maxChars + cap)
  {
    var xs := Selected(res, maxChars, cap);
    var all := Candidates(res, cap, 0);
    ScanIsBudgetedPrefix(res, cap, maxChars, 0, 0);
    CandidatesFaithful(res, cap, 0);
    PrefixKeepsFaithful(res, cap, xs, all);
    if 0 < maxChars {
      OvershootBelowOneChunk(xs, maxChars, cap);
    }
  }

  /** A prefix of a faithful, ordered list is faithful and ordered. */
  lemma PrefixKeepsFaithful(res: QueryResult, cap: nat, xs: seq<Excerpt>, all: seq<Excerpt>)
    requires res.QueryOk? && res.WellFormed()
    requires |xs| <= |all| && xs == all[..|xs|]
    requires forall j :: 0 <= j < |all| ==> FaithfulExcerpt(res, cap, all[j])
    requires InResultOrder(all)
    ensures forall j :: 0 <= j < |xs| ==> FaithfulExcerpt(res, cap, xs[j])
    ensures InResultOrder(xs)
  {
    assert forall j :: 0 <= j < |xs| ==> xs[j] == all[j];
  }

  /** If the total stays below `maxChars` after every excerpt but the last, and
      no excerpt is longer than `cap`, the total is below `maxChars + cap`. */
  lemma OvershootBelowOneChunk(xs: seq<Excerpt>, maxChars: int, cap: nat)
    requires forall n :: 1 <= n < |xs| ==> TextLength(xs[..n]) < maxChars
    requires forall j :: 0 <= j < |xs| ==> |xs[j].text| <= cap
    requires 0 < maxChars
    ensures TextLength(xs) < maxChars + cap
  {
    if xs != [] {
      var n := |xs| - 1;
      TextLengthSplit(xs, n);
      assert TextLength(xs[n..]) == |xs[n].text| by {
        assert xs[n..][1..] == [];
      }
      assert TextLength(xs[..n]) < maxChars by {
        if n == 0 {
          assert xs[..n] == [];
        }
      }
    }
  }

  /** The chunk index shown in a label: the stored `chunk_index`, by default the raw position. */
  function ChunkIndex(e: Excerpt): string {
    e.meta.chunkIndex.GetOr(NatToString(e.position))
  }

  /** How a label opens: the block's prefix and the excerpt's ordinal. */
  function Opening(prefix: string, ordinal: nat): string {
    "[" + prefix + NatToString(ordinal) + " "
  }

  /** The label of the `ordinal`-th excerpt of a block tagged `prefix`: the
      opening, the file name, `#`, the chunk index and `]`, with nothing else. */
  function Label(prefix: string, ordinal: nat, e: Excerpt): (tag: string)
    ensures IsPrefix(Opening(prefix, ordinal) + FileName(e.meta) + "#", tag)
    ensures IsSuffix("#" + ChunkIndex(e) + "]", tag)
    ensures |tag| == |Opening(prefix, ordinal)| + |FileName(e.meta)| + |ChunkIndex(e)| + 2
    ensures tag[0] == '[' && tag[|tag| - 1] == ']'
  {
    var front := Opening(prefix, ordinal) + FileName(e.meta) + "#";
    var back := "#" + ChunkIndex(e) + "]";
    var tag := front + ChunkIndex(e) + "]";
    assert tag[..|front|] == front;
    assert tag[|tag| - |back|..] == back;
    tag
  }

  /** The chunk index a label shows is the stored `chunk_index` when there is
      one, and otherwise the raw result position, not the ordinal. */
  lemma LabelChunkIndex(prefix: string, ordinal: nat, e: Excerpt)
    ensures e.meta.chunkIndex.None? ==> IsSuffix("#" + NatToString(e.position) + "]", Label(prefix, ordinal, e))
    ensures e.meta.chunkIndex.Some? ==> IsSuffix("#" + e.meta.chunkIndex.value + "]", Label(prefix, ordinal, e))
  {
  }

  /** Character by character, a label opens with `[`, the prefix, the ordinal's digits and a space. */
  lemma LabelOpeningAt(prefix: string, ordinal: nat, e: Excerpt, i: nat)
    requires i <= |NatToString(ordinal)|
    ensures var tag := Label(prefix, ordinal, e);
            var digits := NatToString(ordinal);
            && 1 + |prefix| + i < |tag|
            && tag[1 + |prefix| + i] == if i < |digits| then digits[i] else ' '
  {
    var tag := Label(prefix, ordinal, e);
    var open := Opening(prefix, ordinal);
    assert tag[..|open|] == open;
    assert tag[1 + |prefix| + i] == open[1 + |prefix| + i];
  }

  /** Labels with different ordinals differ, whatever their excerpts: the
      ordinal can be read back from a label. */
  lemma OrdinalsDistinguishLabels(prefix: string, m: nat, n: nat, e1: Excerpt, e2: Excerpt)
    requires m != n
    ensures Label(prefix, m, e1) != Label(prefix, n, e2)
  {
    var dm := NatToString(m);
    var dn := NatToString(n);
    var k := 1 + |prefix|;
    if |dm| < |dn| {
      LabelOpeningAt(prefix, m, e1, |dm|);
      LabelOpeningAt(prefix, n, e2, |dm|);
      assert IsDigit(dn[|dm|]);
    } else if |dn| < |dm| {
      LabelOpeningAt(prefix, m, e1, |dn|);
      LabelOpeningAt(prefix, n, e2, |dn|);
      assert IsDigit(dm[|dn|]);
    } else {
      if dm == dn {
        NatToStringInjective(m, n);
        assert false;
      }
      var i :| 0 <= i < |dm| && dm[i] != dn[i];
      LabelOpeningAt(prefix, m, e1, i);
      LabelOpeningAt(prefix, n, e2, i);
    }
  }

  /** One rendered excerpt: its label, its source line and its text, on
      separate lines, with nothing else. */
  function Render(prefix: string, ordinal: nat, e: Excerpt): (chunk: string)
    ensures IsPrefix(Label(prefix, ordinal, e) + "\n" + FormatSource(e.meta) + "\n", chunk)
    ensures IsSuffix(e.text, chunk)
    ensures |chunk| == |Label(prefix, ordinal, e)| + |FormatSource(e.meta)| + 2 + |e.text|
    ensures chunk[0] == '['
  {
    var head := Label(prefix, ordinal, e) + "\n" + FormatSource(e.meta) + "\n";
    var chunk := head + e.text;
    assert chunk[..|head|] == head;
    assert chunk[|chunk| - |e.text|..] == e.text;
    chunk
  }

  /** The rendered excerpts of a block: the `j`-th one (from 0) carries ordinal `j + 1`. */
  function RenderAll(prefix: string, xs: seq<Excerpt>): (chunks: seq<string>)
    ensures |chunks| == |xs|
    ensures forall j :: 0 <= j < |xs| ==> chunks[j] == Render(prefix, j + 1, xs[j])
  {
    seq(|xs|, j requires 0 <= j < |xs| => Render(prefix, j + 1, xs[j]))
  }

  /** The `j`-th rendered excerpt (from 0) opens with the label of ordinal
      `j + 1` and shows the excerpt's text at its end. */
  lemma RenderedOrdinals(prefix: string, xs: seq<Excerpt>, j: nat)
    requires j < |xs|
    ensures IsPrefix("[" + prefix + NatToString(j + 1) + " ", RenderAll(prefix, xs)[j])
    ensures IsSuffix(xs[j].text, RenderAll(prefix, xs)[j])
  {
    var chunk := RenderAll(prefix, xs)[j];
    var tag := Label(prefix, j + 1, xs[j]);
    var open := Opening(prefix, j + 1);
    assert chunk[..|tag|] == tag;
    assert tag[..|open|] == open;
    assert chunk[..|open|] == open;
  }

  /** The text and the number of excerpts `_retrieve` returns. */
  datatype Block = Block(text: string, used: nat)

  /** The failure notice `_retrieve` returns when the query itself fails. */
  function FailureNotice(prefix: string, error: string): string {
    FailureLabel(prefix) + " " + error
  }

  /** The part of the failure notice before the error message. */
  function FailureLabel(prefix: string): string {
    "[" + prefix + "1] Retrieval failed:"
  }

  /** The failure notice survives the strip `_build_prompt` applies to a block:
      the stripped notice still opens with the failure label. */
  lemma FailureNoticeSurvivesStrip(prefix: string, error: string)
    ensures IsPrefix(FailureLabel(prefix), Strip(FailureNotice(prefix, error)))
  {
    var notice := FailureNotice(prefix, error);
    var start := FailureLabel(prefix);
    assert notice[..|start|] == start;
    assert LStrip(notice) == notice;
    RStripKeepsPrefix(start, notice);
  }

  /** `_retrieve` over the store's answer `res`: the failure notice with no
      excerpts used when the query failed, otherwise the selected excerpts
      rendered, with consecutive ordinals, and separated by blank lines. */
  function Retrieve(res: QueryResult, maxChars: int, cap: nat, prefix: string): (b: Block)
    requires res.WellFormed()
    ensures res.QueryFailed? ==> b == Block(FailureNotice(prefix, res.error), 0)
    ensures res.QueryOk? ==> b.used == |Selected(res, maxChars, cap)|
    ensures res.QueryOk? ==> b.text == Join("\n\n", RenderAll(prefix, Selected(res, maxChars, cap)))
    ensures b.used > 0 <==> HasCandidate(res)
    ensures AllSpace(b.text) <==> res.QueryOk? && b.used == 0
  {
    match res
    case QueryFailed(e) =>
      var notice := FailureNotice(prefix, e);
      assert notice[0] == '[';
      Block(notice, 0)
    case QueryOk(ids, _, _) =>
      if ids == [] then Block("", 0)
      else
        var xs := Selected(res, maxChars, cap);
        var chunks := RenderAll(prefix, xs);
        var text := Join("\n\n", chunks);
        ScanIsBudgetedPrefix(res, cap, maxChars, 0, 0);
        CandidatesFaithful(res, cap, 0);
        assert xs != [] ==> text[0] == '[' by {
          if xs != [] {
            assert text[..|chunks[0]|] == chunks[0];
          }
        }
        Block(text, |xs|)
  }
}
