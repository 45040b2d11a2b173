/** The deterministic part of the knowledge lookup: splitting a question into
    sub-queries, merging them with earlier queries without repeats, and the
    bookkeeping around the reranker. The vector store and the cross-encoder
    are outside the model; the reranker's answer is a parameter. */
module Knowledge {
  import opened Wrappers
  import opened Text

  // ---------------------------------------------------------------------------
  // The separator patterns and `re.split`

  /** A separator pattern: `\s+word\s+` matched ignoring case, or
      `\s*c\s*` for a punctuation character. */
  datatype Pattern = Word(word: string) | Punct(mark: char)

  /** The patterns in the order they are applied: `\s+and\s+`, `\s+or\s+`,
      `\s+but\s+`, `\s+however\s+`, `\s*;\s*`, `\s*\.\s*`, `\s*,\s*`. */
  const SplitPatterns: seq<Pattern> :=
    [Word("and"), Word("or"), Word("but"), Word("however"), Punct(';'), Punct('.'), Punct(',')]

  /** A pattern of the shape the list uses: a word of lower-case ASCII
      letters, or a mark that is not whitespace. */
  predicate WellFormed(pat: Pattern) {
    match pat
    case Word(w) => |w| >= 1 && forall i :: 0 <= i < |w| ==> 'a' <= w[i] <= 'z'
    case Punct(c) => !IsSpace(c)
  }

  lemma SplitPatternsWellFormed()
    ensures forall pat :: pat in SplitPatterns ==> WellFormed(pat)
  {
    assert "however"[0] == 'h' && "however"[6] == 'r';
  }

  /** The end of the run of whitespace starting at `p`: what a greedy `\s*`
      consumes there. */
  function SpaceRunEnd(s: string, p: nat): (q: nat)
    requires p <= |s|
    ensures p <= q <= |s|
    ensures forall i :: p <= i < q ==> IsSpace(s[i])
    ensures q == |s| || !IsSpace(s[q])
    decreases |s| - p
  {
    if p < |s| && IsSpace(s[p]) then SpaceRunEnd(s, p + 1) else p
  }

  /** `c` matches the lower-case ASCII letter `lower` under IGNORECASE. */
  predicate SameLetter(c: char, lower: char) {
    c == lower || ('a' <= lower <= 'z' && c as int == lower as int - 32)
  }

  predicate WordAt(s: string, q: nat, w: string) {
    q + |w| <= |s| && forall i :: 0 <= i < |w| ==> SameLetter(s[q + i], w[i])
  }

  /** Where a match of `pat` that starts at `p` ends, if one does. A greedy run
      of whitespace can only be followed by a non-whitespace character, so no
      shorter run can let the match succeed, and the trailing run is taken
      whole. */
  function MatchAt(s: string, p: nat, pat: Pattern): (r: Option<nat>)
    requires p <= |s|
    ensures r.Some? ==> p < r.value <= |s|
  {
    match pat
    case Word(w) =>
      if p < |s| && IsSpace(s[p]) then
        var q := SpaceRunEnd(s, p);
        if WordAt(s, q, w) && q + |w| < |s| && IsSpace(s[q + |w|])
        then Some(SpaceRunEnd(s, q + |w|)) else None
      else None
    case Punct(c) =>
      var q := SpaceRunEnd(s, p);
      if q < |s| && s[q] == c then Some(SpaceRunEnd(s, q + 1)) else None
  }

  /** The leftmost match at or after `from`, as (start, end). */
  function NextMatch(s: string, from: nat, pat: Pattern): (r: Option<(nat, nat)>)
    requires from <= |s|
    ensures r.Some? ==> from <= r.value.0 < r.value.1 <= |s|
                        && MatchAt(s, r.value.0, pat) == Some(r.value.1)
    ensures r.Some? ==> forall k :: from <= k < r.value.0 ==> MatchAt(s, k, pat).None?
    ensures r.None? <==> forall k :: from <= k <= |s| ==> MatchAt(s, k, pat).None?
    decreases |s| - from
  {
    match MatchAt(s, from, pat)
    case Some(e) => Some((from, e))
    case None => if from == |s| then None else NextMatch(s, from + 1, pat)
  }

  /** `re.split(pat, s[start..])`: the text between successive leftmost
      matches. */
  function SplitFrom(s: string, start: nat, pat: Pattern): (parts: seq<string>)
    requires start <= |s|
    ensures |parts| >= 1
    decreases |s| - start
  {
    match NextMatch(s, start, pat)
    case None => [s[start..]]
    case Some((m, e)) => [s[start..m]] + SplitFrom(s, e, pat)
  }

  /** The matched separators, in order. */
  function SeparatorsFrom(s: string, start: nat, pat: Pattern): seq<string>
    requires start <= |s|
    decreases |s| - start
  {
    match NextMatch(s, start, pat)
    case None => []
    case Some((m, e)) => [s[m..e]] + SeparatorsFrom(s, e, pat)
  }

  function Split(s: string, pat: Pattern): seq<string> {
    SplitFrom(s, 0, pat)
  }

  function Separators(s: string, pat: Pattern): seq<string> {
    SeparatorsFrom(s, 0, pat)
  }

  /** parts[0] + seps[0] + parts[1] + ... + parts[n]. */
  function Interleave(parts: seq<string>, seps: seq<string>): string
    requires |parts| == |seps| + 1
  {
    if seps == [] then parts[0] else parts[0] + seps[0] + Interleave(parts[1..], seps[1..])
  }

  /** Putting the separators back between the parts gives the text that was
      split: nothing is lost or reordered. */
  lemma {:induction false} SplitFromRoundTrip(s: string, start: nat, pat: Pattern)
    requires start <= |s|
    ensures |SplitFrom(s, start, pat)| == |SeparatorsFrom(s, start, pat)| + 1
    ensures Interleave(SplitFrom(s, start, pat), SeparatorsFrom(s, start, pat)) == s[start..]
    decreases |s| - start
  {
    var next := NextMatch(s, start, pat);
    if next.Some? {
      var m, e := next.value.0, next.value.1;
      SplitFromRoundTrip(s, e, pat);
      var parts := SplitFrom(s, start, pat);
      var seps := SeparatorsFrom(s, start, pat);
      assert parts == [s[start..m]] + SplitFrom(s, e, pat);
      assert seps == [s[m..e]] + SeparatorsFrom(s, e, pat);
      assert parts[1..] == SplitFrom(s, e, pat);
      assert seps[1..] == SeparatorsFrom(s, e, pat);
      SliceSplit(s, start, m, e);
    }
  }

  lemma SliceSplit(s: string, a: nat, b: nat, c: nat)
    requires a <= b <= c <= |s|
    ensures s[a..] == s[a..b] + s[b..c] + s[c..]
  {
  }

  lemma SplitRoundTrip(s: string, pat: Pattern)
    ensures |Split(s, pat)| == |Separators(s, pat)| + 1
    ensures Interleave(Split(s, pat), Separators(s, pat)) == s
  {
    SplitFromRoundTrip(s, 0, pat);
  }

  /** A mark that is not whitespace matches wherever it occurs. */
  lemma MarkMatches(s: string, k: nat, c: char)
    requires k < |s| && !IsSpace(c)
    ensures s[k] == c ==> MatchAt(s, k, Punct(c)).Some?
  {
  }

  /** No part of a split on a punctuation pattern contains the mark. */
  lemma {:induction false} MarkNotInPartsFrom(s: string, start: nat, c: char)
    requires start <= |s| && !IsSpace(c)
    ensures forall part :: part in SplitFrom(s, start, Punct(c)) ==> c !in part
    decreases |s| - start
  {
    var next := NextMatch(s, start, Punct(c));
    var stop := if next.Some? then next.value.0 else |s|;
    forall k | start <= k < stop ensures s[k] != c {
      MarkMatches(s, k, c);
    }
    var first := s[start..stop];
    assert forall i :: 0 <= i < |first| ==> first[i] == s[start + i];
    if next.Some? {
      MarkNotInPartsFrom(s, next.value.1, c);
      assert SplitFrom(s, start, Punct(c)) == [first] + SplitFrom(s, next.value.1, Punct(c));
    }
  }

  lemma MarkNotInParts(s: string, c: char)
    requires !IsSpace(c)
    ensures forall part :: part in Split(s, Punct(c)) ==> c !in part
  {
    MarkNotInPartsFrom(s, 0, c);
  }

  /** A blank string holds no separator: neither a letter nor a mark. */
  lemma BlankHasNoMatch(s: string, k: nat, pat: Pattern)
    requires k <= |s| && WellFormed(pat) && IsBlank(s)
    ensures MatchAt(s, k, pat).None?
  {
    var q := SpaceRunEnd(s, k);
    match pat
    case Word(w) =>
      assert q == |s|;
    case Punct(c) =>
      assert q == |s|;
  }

  /** Splitting a blank string leaves it whole. */
  lemma SplitBlank(s: string, pat: Pattern)
    requires WellFormed(pat) && IsBlank(s)
    ensures Split(s, pat) == [s]
  {
    forall k | 0 <= k <= |s| ensures MatchAt(s, k, pat).None? {
      BlankHasNoMatch(s, k, pat);
    }
    assert s[0..] == s;
  }

  /** The first part is a prefix of the string split. */
  lemma SplitHeadPrefix(s: string, pat: Pattern)
    ensures StartsWith(s, Split(s, pat)[0])
  {
  }

  // ---------------------------------------------------------------------------
  // decompose_query

  /** `[part.strip() for part in parts if part.strip()]`. */
  function StrippedNonBlank(parts: seq<string>): seq<string>
  {
    if parts == [] then []
    else (if Strip(parts[0]) != "" then [Strip(parts[0])] else []) + StrippedNonBlank(parts[1..])
  }

  /** Every kept query is stripped and non-blank ... */
  lemma {:induction false} StrippedNonBlankClean(parts: seq<string>)
    ensures forall x :: x in StrippedNonBlank(parts) ==> x != "" && Trimmed(x)
  {
    if parts != [] {
      StrippedNonBlankClean(parts[1..]);
    }
  }

  /** ... no part that strips to something is dropped ... */
  lemma {:induction false} StrippedNonBlankKeeps(parts: seq<string>, i: nat)
    requires i < |parts| && Strip(parts[i]) != ""
    ensures Strip(parts[i]) in StrippedNonBlank(parts)
  {
    if i > 0 {
      StrippedNonBlankKeeps(parts[1..], i - 1);
      assert parts[1..][i - 1] == parts[i];
    }
  }

  /** ... and every kept query is a stripped part. */
  lemma {:induction false} StrippedNonBlankSource(parts: seq<string>, x: string)
    requires x in StrippedNonBlank(parts)
    ensures exists i :: 0 <= i < |parts| && x == Strip(parts[i])
  {
    if x != Strip(parts[0]) {
      StrippedNonBlankSource(parts[1..], x);
      var i :| 0 <= i < |parts[1..]| && x == Strip(parts[1..][i]);
      assert parts[1..][i] == parts[i + 1];
    }
  }

  /** The head still to be split and the queries collected so far. */
  datatype Progress = Progress(head: string, queries: seq<string>)

  /** One pattern: if it splits the head, the first part becomes the head and
      the other parts, stripped, non-blank ones only, are appended. */
  function Step(st: Progress, pat: Pattern): Progress {
    var parts := Split(st.head, pat);
    if |parts| > 1 then Progress(parts[0], st.queries + StrippedNonBlank(parts[1..])) else st
  }

  /** The patterns applied in order, each to the head the previous left. */
  function Decomposition(userQuery: string, pats: seq<Pattern>): Progress {
    if pats == [] then Progress(userQuery, [])
    else Step(Decomposition(userQuery, pats[..|pats| - 1]), pats[|pats| - 1])
  }

  /** What `decompose_query` returns: the stripped head first when it is not
      blank, then the collected queries; the query itself when nothing is
      left; at most five. */
  function Decompose(userQuery: string): (r: seq<string>)
    ensures 1 <= |r| <= 5
  {
    Assemble(userQuery, Decomposition(userQuery, SplitPatterns))
  }

  /** The last steps of `decompose_query`: the stripped head in front when it
      is not blank, the query itself when nothing was found, at most five. */
  function Assemble(userQuery: string, st: Progress): (r: seq<string>)
    ensures 1 <= |r| <= 5
  {
    var queries := if Strip(st.head) != "" then [Strip(st.head)] + st.queries else st.queries;
    var nonEmpty := if queries == [] then [userQuery] else queries;
    if |nonEmpty| <= 5 then nonEmpty else nonEmpty[..5]
  }

  lemma DecompositionSnoc(userQuery: string, pats: seq<Pattern>, i: nat)
    requires i < |pats|
    ensures Decomposition(userQuery, pats[..i + 1]) == Step(Decomposition(userQuery, pats[..i]), pats[i])
  {
    assert pats[..i + 1][..i] == pats[..i];
  }

  method DecomposeQuery(userQuery: string) returns (r: seq<string>)
    ensures r == Decompose(userQuery)
  {
    var queries: seq<string> := [];
    var currentQuery := userQuery;
    var patterns := SplitPatterns;
    for i := 0 to |patterns|
      invariant Progress(currentQuery, queries) == Decomposition(userQuery, patterns[..i])
    {
      ghost var before := Progress(currentQuery, queries);
      var parts := Split(currentQuery, patterns[i]);
      if |parts| > 1 {
        currentQuery := parts[0];
        queries := queries + StrippedNonBlank(parts[1..]);
      }
      assert Progress(currentQuery, queries) == Step(before, patterns[i]);
      DecompositionSnoc(userQuery, patterns, i);
    }
    assert patterns[..|patterns|] == patterns;
    if Strip(currentQuery) != "" {
      queries := [Strip(currentQuery)] + queries;
    }
    if queries == [] {
      queries := [userQuery];
    }
    r := if |queries| <= 5 then queries else queries[..5];
  }

  /** Every collected query is stripped and non-blank. */
  lemma {:induction false} QueriesClean(userQuery: string, pats: seq<Pattern>)
    ensures forall x :: x in Decomposition(userQuery, pats).queries ==> x != "" && Trimmed(x)
  {
    if pats != [] {
      var before := Decomposition(userQuery, pats[..|pats| - 1]);
      QueriesClean(userQuery, pats[..|pats| - 1]);
      var parts := Split(before.head, pats[|pats| - 1]);
      if |parts| > 1 {
        StrippedNonBlankClean(parts[1..]);
      }
    }
  }

  /** Each head is a prefix of the one before, so of the query. */
  lemma {:induction false} HeadShrinks(userQuery: string, pats: seq<Pattern>)
    ensures StartsWith(userQuery, Decomposition(userQuery, pats).head)
  {
    if pats != [] {
      var before := Decomposition(userQuery, pats[..|pats| - 1]);
      HeadShrinks(userQuery, pats[..|pats| - 1]);
      SplitHeadPrefix(before.head, pats[|pats| - 1]);
    }
  }

  /** A later pattern only ever appends to the queries already collected. */
  lemma {:induction false} QueriesGrow(userQuery: string, pats: seq<Pattern>, i: nat)
    requires i <= |pats|
    ensures var earlier := Decomposition(userQuery, pats[..i]).queries;
            var later := Decomposition(userQuery, pats).queries;
            |earlier| <= |later| && later[..|earlier|] == earlier
    decreases |pats|
  {
    if i == |pats| {
      assert pats[..i] == pats;
    } else {
      var init := pats[..|pats| - 1];
      QueriesGrow(userQuery, init, i);
      assert init[..i] == pats[..i];
      var mid := Decomposition(userQuery, init).queries;
      var later := Decomposition(userQuery, pats).queries;
      assert later[..|mid|] == mid;
    }
  }

  /** A blank query comes back as itself, alone. */
  lemma DecomposeBlank(userQuery: string)
    requires IsBlank(userQuery)
    ensures Decompose(userQuery) == [userQuery]
  {
    BlankDecomposition(userQuery, SplitPatterns);
  }

  lemma {:induction false} BlankDecomposition(userQuery: string, pats: seq<Pattern>)
    requires IsBlank(userQuery)
    requires forall pat :: pat in pats ==> WellFormed(pat)
    ensures Decomposition(userQuery, pats) == Progress(userQuery, [])
  {
    if pats != [] {
      BlankDecomposition(userQuery, pats[..|pats| - 1]);
      SplitBlank(userQuery, pats[|pats| - 1]);
    }
    SplitPatternsWellFormed();
  }

  /** Either every returned query is stripped and non-blank, or nothing was
      found and the query itself is returned. */
  lemma DecomposeClean(userQuery: string)
    ensures var r := Decompose(userQuery);
            r == [userQuery] || forall x :: x in r ==> x != "" && Trimmed(x)
  {
    QueriesClean(userQuery, SplitPatterns);
    AssembleClean(userQuery, Decomposition(userQuery, SplitPatterns));
  }

  /** Assembling clean queries gives clean queries, or the query itself. */
  lemma AssembleClean(userQuery: string, st: Progress)
    requires forall x :: x in st.queries ==> x != "" && Trimmed(x)
    ensures var r := Assemble(userQuery, st);
            r == [userQuery] || forall x :: x in r ==> x != "" && Trimmed(x)
  {
    var queries := if Strip(st.head) != "" then [Strip(st.head)] + st.queries else st.queries;
    assert forall x :: x in queries ==> x != "" && Trimmed(x);
    if |queries| > 5 {
      assert forall x :: x in queries[..5] ==> x in queries;
    }
  }

  /** A final head that is not blank is the first query, stripped; it is a
      prefix of the query. */
  lemma DecomposeHead(userQuery: string)
    ensures var head := Decomposition(userQuery, SplitPatterns).head;
            Strip(head) != "" ==> Decompose(userQuery)[0] == Strip(head) && StartsWith(userQuery, head)
  {
    HeadShrinks(userQuery, SplitPatterns);
  }

  // ---------------------------------------------------------------------------
  // De-duplication in get_knowledge_context

  /** The first occurrence of each element, in order of first occurrence. */
  function Dedup<T(==)>(xs: seq<T>): seq<T> {
    if xs == [] then []
    else
      var init := xs[..|xs| - 1];
      if xs[|xs| - 1] in init then Dedup(init) else Dedup(init) + [xs[|xs| - 1]]
  }

  predicate Distinct<T(==)>(xs: seq<T>) {
    forall i, j :: 0 <= i < j < |xs| ==> xs[i] != xs[j]
  }

  /** The position of the first `x` in `xs`; `|xs|` when there is none. */
  function FirstIndex<T(==)>(xs: seq<T>, x: T): (i: nat)
    ensures i <= |xs| && x !in xs[..i]
    ensures i < |xs| <==> x in xs
    ensures i < |xs| ==> xs[i] == x
  {
    if xs == [] then 0 else if xs[0] == x then 0 else 1 + FirstIndex(xs[1..], x)
  }

  /** Removing repeats keeps exactly the elements there were, each once, in
      the order of their first occurrence. */
  lemma {:induction false} DedupElements<T>(xs: seq<T>)
    ensures forall x :: x in Dedup(xs) <==> x in xs
  {
    if xs != [] {
      DedupElements(xs[..|xs| - 1]);
      assert xs == xs[..|xs| - 1] + [xs[|xs| - 1]];
    }
  }

  /** ... each once, ... */
  lemma {:induction false} DedupDistinct<T>(xs: seq<T>)
    ensures Distinct(Dedup(xs))
  {
    if xs != [] {
      var init := xs[..|xs| - 1];
      DedupDistinct(init);
      DedupElements(init);
    }
  }

  /** ... in the order of their first occurrence. */
  lemma {:induction false} DedupOrder<T>(xs: seq<T>)
    ensures forall i, j :: 0 <= i < j < |Dedup(xs)| ==>
              FirstIndex(xs, Dedup(xs)[i]) < FirstIndex(xs, Dedup(xs)[j])
  {
    if xs != [] {
      var init := xs[..|xs| - 1];
      var last := xs[|xs| - 1];
      var di := Dedup(init);
      DedupOrder(init);
      DedupElements(init);
      assert xs == init + [last];
      forall i | 0 <= i < |di|
        ensures di[i] in init && FirstIndex(xs, di[i]) == FirstIndex(init, di[i]) < |init|
      {
        DedupMember(init, i);
        FirstIndexPrefix(init, [last], di[i]);
      }
      if last !in init {
        assert Dedup(xs) == di + [last];
        FirstIndexAfter(init, last);
      } else {
        assert Dedup(xs) == di;
      }
    }
  }

  lemma DedupMember<T>(xs: seq<T>, i: nat)
    requires i < |Dedup(xs)|
    ensures Dedup(xs)[i] in xs
  {
    DedupElements(xs);
    assert Dedup(xs)[i] in Dedup(xs);
  }

  /** An element missing from `a` is first found right after it. */
  lemma FirstIndexAfter<T>(a: seq<T>, x: T)
    requires x !in a
    ensures FirstIndex(a + [x], x) == |a|
  {
    assert (a + [x])[..|a|] == a;
  }

  lemma {:induction false} FirstIndexPrefix<T>(a: seq<T>, b: seq<T>, x: T)
    requires x in a
    ensures FirstIndex(a + b, x) == FirstIndex(a, x)
  {
    if a[0] != x {
      assert (a + b)[0] == a[0];
      assert (a + b)[1..] == a[1..] + b;
      FirstIndexPrefix(a[1..], b, x);
    }
  }

  /** A list without repeats is left as it is; so de-duplicating twice is the
      same as once. */
  lemma {:induction false} DedupOfDistinct<T>(xs: seq<T>)
    requires Distinct(xs)
    ensures Dedup(xs) == xs
  {
    if xs != [] {
      var init := xs[..|xs| - 1];
      assert Distinct(init);
      DedupOfDistinct(init);
      assert forall i :: 0 <= i < |init| ==> init[i] == xs[i];
    }
  }

  lemma DedupIdempotent<T>(xs: seq<T>)
    ensures Dedup(Dedup(xs)) == Dedup(xs)
  {
    DedupDistinct(xs);
    DedupOfDistinct(Dedup(xs));
  }

  /** Appending more queries never disturbs the de-duplicated front. */
  lemma {:induction false} DedupPrefix<T>(a: seq<T>, b: seq<T>)
    ensures |Dedup(a)| <= |Dedup(a + b)|
    ensures Dedup(a + b)[..|Dedup(a)|] == Dedup(a)
  {
    if b != [] {
      var init := b[..|b| - 1];
      DedupPrefix(a, init);
      assert (a + b)[..|a + b| - 1] == a + init;
    } else {
      assert a + b == a;
    }
  }

  /** `seen` / `unique_queries`: the order-preserving de-duplication. */
  method RemoveDuplicates(allQueries: seq<string>) returns (unique: seq<string>)
    ensures unique == Dedup(allQueries)
  {
    var seen: set<string> := {};
    unique := [];
    for i := 0 to |allQueries|
      invariant unique == Dedup(allQueries[..i])
      invariant forall x :: x in seen <==> x in allQueries[..i]
    {
      var query := allQueries[i];
      assert allQueries[..i + 1][..i] == allQueries[..i];
      if query !in seen {
        seen := seen + {query};
        unique := unique + [query];
      }
    }
    assert allQueries[..|allQueries|] == allQueries;
  }

  /** The queries `get_knowledge_context` goes on to search: the decomposed
      queries, then the previous ones, each once. The decomposed queries keep
      their places at the front. */
  method QueriesToProcess(userQuery: string, previousQueries: seq<string>)
    returns (decomposed: seq<string>, unique: seq<string>)
    ensures decomposed == Decompose(userQuery)
    ensures unique == Dedup(decomposed + previousQueries)
    ensures forall x :: x in unique <==> x in decomposed || x in previousQueries
    ensures Distinct(unique)
    ensures |Dedup(decomposed)| <= |unique| && unique[..|Dedup(decomposed)|] == Dedup(decomposed)
  {
    decomposed := DecomposeQuery(userQuery);
    var allQueries := decomposed + previousQueries;
    unique := RemoveDuplicates(allQueries);
    DedupElements(allQueries);
    DedupDistinct(allQueries);
    DedupPrefix(decomposed, previousQueries);
  }

  // ---------------------------------------------------------------------------
  // rerank_documents

  const Blank := "\n\n"

  /** Each ranked document followed by a blank line, in rank order. */
  function RankedText(documents: seq<string>, ids: seq<nat>): string
    requires forall i :: 0 <= i < |ids| ==> ids[i] < |documents|
  {
    if ids == [] then ""
    else RankedText(documents, ids[..|ids| - 1]) + documents[ids[|ids| - 1]] + Blank
  }

  function Range(n: nat): (r: seq<nat>)
    ensures |r| == n && forall i :: 0 <= i < n ==> r[i] == i
  {
    seq(n, i => i)
  }

  predicate ValidRanking(documents: seq<string>, ids: seq<nat>) {
    forall i :: 0 <= i < |ids| ==> ids[i] < |documents|
  }

  /** What `rerank_documents` returns, given what the cross-encoder answers
      (None when it raises). An out-of-range corpus id raises in the loop, and
      every failure falls back to all documents in their original order. */
  function Rerank(documents: seq<string>, ranking: Option<seq<nat>>): (r: (string, seq<nat>))
    ensures documents == [] ==> r == ("", [])
    ensures forall i :: 0 <= i < |r.1| ==> r.1[i] < |documents|
    ensures documents != [] && ranking.Some? && ValidRanking(documents, ranking.value) ==>
              r.1 == ranking.value
    ensures documents != [] && (ranking.None? || !ValidRanking(documents, ranking.value)) ==>
              r == (Join(Blank, documents), Range(|documents|))
  {
    if documents == [] then ("", [])
    else if ranking.Some? && ValidRanking(documents, ranking.value) then
      (RankedText(documents, ranking.value), ranking.value)
    else (Join(Blank, documents), Range(|documents|))
  }

  /** The ranked text is the ranked documents' lengths plus a blank line each. */
  lemma {:induction false} RankedTextLength(documents: seq<string>, ids: seq<nat>)
    requires ValidRanking(documents, ids)
    ensures |RankedText(documents, ids)| == RankedLengths(documents, ids) + |Blank| * |ids|
  {
    if ids != [] {
      RankedTextLength(documents, ids[..|ids| - 1]);
    }
  }

  function RankedLengths(documents: seq<string>, ids: seq<nat>): nat
    requires ValidRanking(documents, ids)
  {
    if ids == [] then 0 else RankedLengths(documents, ids[..|ids| - 1]) + |documents[ids[|ids| - 1]]|
  }

  method RerankDocuments(documents: seq<string>, ranking: Option<seq<nat>>)
    returns (relevantText: string, relevantIds: seq<nat>)
    ensures (relevantText, relevantIds) == Rerank(documents, ranking)
  {
    if documents == [] {
      return "", [];
    }
    if ranking.None? {
      return Join(Blank, documents), Range(|documents|);
    }
    var ranks := ranking.value;
    relevantText := "";
    relevantIds := [];
    for i := 0 to |ranks|
      invariant ValidRanking(documents, ranks[..i])
      invariant relevantText == RankedText(documents, ranks[..i])
      invariant relevantIds == ranks[..i]
    {
      if ranks[i] >= |documents| {
        assert !ValidRanking(documents, ranks);
        return Join(Blank, documents), Range(|documents|);
      }
      assert ranks[..i + 1][..i] == ranks[..i];
      relevantText := relevantText + documents[ranks[i]] + Blank;
      relevantIds := relevantIds + [ranks[i]];
    }
    assert ranks[..|ranks|] == ranks;
  }
}
