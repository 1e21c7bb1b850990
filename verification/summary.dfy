/** `ResumeMatcher._generate_summary`, the summary of the fallback resume: the
    free-text experience is split into sections at `\n## ` and `\n### `
    headings; each section is scored by how many keywords occur in its
    lower-cased text; the (at most three) best-scoring sections contribute
    their first paragraph while the running length stays within 1500
    characters; a result shorter than 100 characters gets a fixed closing
    statement appended. */
module Summary {
  import opened Text
  import Ranking

  /** Budget for the combined length of the chosen paragraphs. */
  const MaxSummaryLength: nat := 1500

  /** Summaries shorter than this get `GenericStatement` appended. */
  const MinSummaryLength: nat := 100

  /** At most this many sections contribute. */
  const MaxSections: nat := 3

  const GenericStatement: string :=
    " Experienced professional with a track record of delivering high-quality results. Skilled in problem-solving and adapting to new challenges. Committed to continuous learning and professional growth."

  /** Length of the heading separator (`\n### ` or `\n## `, the pattern
      `\n#{2,3} `) that starts at position `i` of `s`, or 0 when none does. */
  function SeparatorAt(s: string, i: nat): nat {
    if i + 5 <= |s| && s[i] == '\n' && s[i + 1] == '#' && s[i + 2] == '#' && s[i + 3] == '#' && s[i + 4] == ' ' then 5
    else if i + 4 <= |s| && s[i] == '\n' && s[i + 1] == '#' && s[i + 2] == '#' && s[i + 3] == ' ' then 4
    else 0
  }

  /** No heading separator starts anywhere in `s`. */
  predicate NoSeparator(s: string) {
    forall j :: 0 <= j < |s| ==> SeparatorAt(s, j) == 0
  }

  /** Concatenation of each piece followed by the separator that ended it. */
  function Rejoin(pieces: seq<(string, string)>): string {
    if |pieces| == 0 then "" else pieces[0].0 + pieces[0].1 + Rejoin(pieces[1..])
  }

  /** A separator inside a slice is a separator of the whole text. */
  lemma SeparatorInside(s: string, start: nat, i: nat, j: nat)
    requires start <= i <= |s| && j < i - start
    ensures SeparatorAt(s[start..i], j) == 0 || SeparatorAt(s, start + j) == SeparatorAt(s[start..i], j)
  {
    var p := s[start..i];
    assert forall m :: 0 <= m < |p| ==> p[m] == s[start + m];
  }

  /** A stretch of the text in which no separator starts has none inside. */
  lemma PieceHasNoSeparator(s: string, start: nat, i: nat)
    requires start <= i <= |s|
    requires forall j :: start <= j < i ==> SeparatorAt(s, j) == 0
    ensures NoSeparator(s[start..i])
  {
    forall j | 0 <= j < i - start ensures SeparatorAt(s[start..i], j) == 0 {
      SeparatorInside(s, start, i, j);
    }
  }

  /** Cutting at the separator of length `k` at `i` keeps the text whole. */
  lemma SplitStep(s: string, start: nat, i: nat, k: nat, rest: seq<(string, string)>)
    requires start <= i && i + k <= |s| && 0 < k == SeparatorAt(s, i)
    requires Rejoin(rest) == s[i + k..]
    ensures Rejoin([(s[start..i], s[i..i + k])] + rest) == s[start..]
    ensures SeparatorAt(s[i..i + k], 0) == k
  {
    var sep := s[i..i + k];
    var pieces := [(s[start..i], sep)] + rest;
    assert pieces[1..] == rest;
    assert s[start..] == s[start..i] + sep + s[i + k..];
    assert forall m :: 0 <= m < k ==> sep[m] == s[i + m];
  }

  /** `re.split(r'\n#{2,3} ', s)` from position `start`, the current piece
      having been scanned up to `i`; each piece is paired with the separator
      that ends it (the last with `""`). */
  function SplitFrom(s: string, start: nat, i: nat): (pieces: seq<(string, string)>)
    requires start <= i <= |s|
    requires forall j :: start <= j < i ==> SeparatorAt(s, j) == 0
    ensures |pieces| > 0
    ensures Rejoin(pieces) == s[start..]
    ensures forall x :: 0 <= x < |pieces| ==> NoSeparator(pieces[x].0)
    ensures forall x :: 0 <= x < |pieces| - 1 ==> 0 < |pieces[x].1| == SeparatorAt(pieces[x].1, 0)
    ensures pieces[|pieces| - 1].1 == ""
    decreases |s| - i
  {
    if i == |s| then
      PieceHasNoSeparator(s, start, i);
      assert s[start..] == s[start..i];
      [(s[start..], "")]
    else
      var k := SeparatorAt(s, i);
      if k > 0 then
        var rest := SplitFrom(s, i + k, i + k);
        PieceHasNoSeparator(s, start, i);
        SplitStep(s, start, i, k, rest);
        [(s[start..i], s[i..i + k])] + rest
      else
        SplitFrom(s, start, i + 1)
  }

  /** The sections of the experience text. */
  function Sections(text: string): (secs: seq<string>)
    ensures |secs| > 0
    ensures forall x :: 0 <= x < |secs| ==> NoSeparator(secs[x])
  {
    var pieces := SplitFrom(text, 0, 0);
    seq(|pieces|, x requires 0 <= x < |pieces| => pieces[x].0)
  }

  /** `sum(1 for keyword in keywords if keyword in section.lower())`. */
  function Hits(keywords: seq<string>, section: string): (h: nat)
    ensures h <= |keywords|
  {
    if |keywords| == 0 then 0
    else (if Contains(Lower(section), keywords[0]) then 1 else 0) + Hits(keywords[1..], section)
  }

  /** The keywords of `keywords` found in the lower-cased section. */
  ghost function Found(keywords: seq<string>, section: string): set<string> {
    set k | k in keywords && Contains(Lower(section), k)
  }

  /** A section scores at least one exactly when some keyword occurs in
      its lower-cased text; with no repeated keyword, the score is the
      number of keywords that occur. */
  lemma {:induction false} HitsCountsFound(keywords: seq<string>, section: string)
    ensures Hits(keywords, section) > 0 <==> exists k :: k in keywords && Contains(Lower(section), k)
    ensures (forall i, j :: 0 <= i < j < |keywords| ==> keywords[i] != keywords[j]) ==>
      Hits(keywords, section) == |Found(keywords, section)|
    decreases |keywords|
  {
    if |keywords| > 0 {
      var k0, rest := keywords[0], keywords[1..];
      HitsCountsFound(rest, section);
      assert Hits(keywords, section) == (if Contains(Lower(section), k0) then 1 else 0) + Hits(rest, section);
      assert forall k :: k in keywords <==> k == k0 || k in rest;
      if forall i, j :: 0 <= i < j < |keywords| ==> keywords[i] != keywords[j] {
        assert forall i, j :: 0 <= i < j < |rest| ==> rest[i] != rest[j] by {
          forall i, j | 0 <= i < j < |rest| ensures rest[i] != rest[j] {
            assert rest[i] == keywords[i + 1] && rest[j] == keywords[j + 1];
          }
        }
        assert k0 !in rest by {
          forall i | 0 <= i < |rest| ensures rest[i] != k0 {
            assert rest[i] == keywords[i + 1];
          }
        }
        if Contains(Lower(section), k0) {
          assert Found(keywords, section) == {k0} + Found(rest, section);
        } else {
          assert Found(keywords, section) == Found(rest, section);
        }
      }
    } else {
      assert Found(keywords, section) == {};
    }
  }

  /** Indices, from `i` on, of the sections with at least one keyword hit, in
      text order. */
  function RelevantFrom(secs: seq<string>, keywords: seq<string>, i: nat): (rel: seq<nat>)
    requires i <= |secs|
    ensures forall x :: x in rel <==> i <= x < |secs| && Hits(keywords, secs[x]) > 0
    ensures forall a :: 0 <= a < |rel| ==> i <= rel[a] < |secs|
    ensures forall a, b :: 0 <= a < b < |rel| ==> rel[a] < rel[b]
    decreases |secs| - i
  {
    if i == |secs| then []
    else
      var rest := RelevantFrom(secs, keywords, i + 1);
      if Hits(keywords, secs[i]) > 0 then [i] + rest else rest
  }

  /** Section `i` is ranked before section `j`: more hits, or as many and
      earlier in the text. */
  predicate SectionOutranks(secs: seq<string>, keywords: seq<string>, i: nat, j: nat)
    requires i < |secs| && j < |secs|
  {
    Hits(keywords, secs[i]) > Hits(keywords, secs[j])
    || (Hits(keywords, secs[i]) == Hits(keywords, secs[j]) && i < j)
  }

  /** `top` are the (at most three) best sections: distinct indices of
      sections with a hit, in ranking order, and a section with a hit left out
      ranks below all of them (so it is left out only when three were kept). */
  ghost predicate IsTopSections(secs: seq<string>, keywords: seq<string>, top: seq<nat>) {
    && |top| <= MaxSections
    && (forall a :: 0 <= a < |top| ==> top[a] < |secs| && Hits(keywords, secs[top[a]]) > 0)
    && (forall a, b :: 0 <= a < b < |top| ==> SectionOutranks(secs, keywords, top[a], top[b]))
    && (forall i :: 0 <= i < |secs| && Hits(keywords, secs[i]) > 0 && i !in top ==>
          |top| == MaxSections && forall a :: 0 <= a < |top| ==> SectionOutranks(secs, keywords, top[a], i))
  }

  /** The sections the loop over `relevant_experience[:3]` visits, by index. */
  function TopSections(secs: seq<string>, keywords: seq<string>): (top: seq<nat>)
    ensures IsTopSections(secs, keywords, top)
  {
    var rel := RelevantFrom(secs, keywords, 0);
    var scores := Scores(secs, keywords, rel);
    var r := Ranking.RankOrder(scores);
    var n := if |r| < MaxSections then |r| else MaxSections;
    assert forall a :: 0 <= a < n ==> r[a] in r;
    var top := Pick(rel, r, n);
    TopSectionsRanked(secs, keywords, rel, scores, r, top);
    top
  }

  /** The hit count of each section listed in `rel`. */
  function Scores(secs: seq<string>, keywords: seq<string>, rel: seq<nat>): (scores: seq<nat>)
    requires forall a :: 0 <= a < |rel| ==> rel[a] < |secs|
    ensures |scores| == |rel| && forall x :: 0 <= x < |rel| ==> scores[x] == Hits(keywords, secs[rel[x]])
  {
    seq(|rel|, x requires 0 <= x < |rel| => Hits(keywords, secs[rel[x]]))
  }

  /** The entries of `xs` at the first `n` positions listed in `r`. */
  function Pick(xs: seq<nat>, r: seq<nat>, n: nat): (ys: seq<nat>)
    requires n <= |r| && forall a :: 0 <= a < n ==> r[a] < |xs|
    ensures |ys| == n && forall a :: 0 <= a < n ==> ys[a] == xs[r[a]]
  {
    seq(n, a requires 0 <= a < n => xs[r[a]])
  }

  lemma TopSectionsRanked(secs: seq<string>, keywords: seq<string>, rel: seq<nat>, scores: seq<nat>, r: seq<nat>, top: seq<nat>)
    requires forall x :: x in rel <==> 0 <= x < |secs| && Hits(keywords, secs[x]) > 0
    requires forall a :: 0 <= a < |rel| ==> rel[a] < |secs|
    requires forall a, b :: 0 <= a < b < |rel| ==> rel[a] < rel[b]
    requires |scores| == |rel| && forall x :: 0 <= x < |rel| ==> scores[x] == Hits(keywords, secs[rel[x]])
    requires Ranking.IsIndexPermutation(r, |rel|) && Ranking.Ranked(scores, r)
    requires |top| == (if |r| < MaxSections then |r| else MaxSections)
    requires forall a :: 0 <= a < |top| ==> top[a] == rel[r[a]]
    ensures IsTopSections(secs, keywords, top)
  {
    forall x | 0 <= x < |rel| ensures Hits(keywords, secs[rel[x]]) > 0 {
      assert rel[x] in rel;
    }
    forall a, b | 0 <= a < b < |r| ensures SectionOutranks(secs, keywords, rel[r[a]], rel[r[b]]) {
      assert Ranking.Outranks(scores, r[a], r[b]);
    }
    forall i | 0 <= i < |secs| && Hits(keywords, secs[i]) > 0 && i !in top
      ensures |top| == MaxSections && forall a :: 0 <= a < |top| ==> SectionOutranks(secs, keywords, top[a], i)
    {
      assert i in rel;
      var x :| 0 <= x < |rel| && rel[x] == i;
      assert x in r;
      var a :| 0 <= a < |r| && r[a] == x;
      forall b | 0 <= b < |top| ensures r[b] != x {
        assert top[b] in top;
      }
      assert |top| <= a < |r|;
      forall c | 0 <= c < |top| ensures SectionOutranks(secs, keywords, top[c], i) {
        assert SectionOutranks(secs, keywords, rel[r[c]], rel[r[a]]);
      }
    }
  }

  /** Index of the first `\n\n` at or after `i`, or `|s|`. */
  function ParagraphEnd(s: string, i: nat): (e: nat)
    requires i <= |s|
    ensures i <= e <= |s|
    ensures forall j :: i <= j && j + 1 < e ==> !(s[j] == '\n' && s[j + 1] == '\n')
    ensures e < |s| ==> e + 1 < |s| && s[e] == '\n' && s[e + 1] == '\n'
    decreases |s| - i
  {
    if i + 2 > |s| then |s|
    else if s[i] == '\n' && s[i + 1] == '\n' then i
    else ParagraphEnd(s, i + 1)
  }

  /** `section.split('\n\n')[0].strip()`. */
  function FirstParagraph(section: string): (p: string)
    ensures |p| <= |section|
  {
    Strip(section[..ParagraphEnd(section, 0)])
  }

  /** The budget loop: each paragraph in turn is taken when it still fits
      within `MaxSummaryLength` on top of the `used` characters. */
  function Greedy(paras: seq<string>, used: nat): (chosen: seq<string>)
    requires used <= MaxSummaryLength
    ensures used + TotalLength(chosen) <= MaxSummaryLength
    ensures |chosen| <= |paras|
  {
    if |paras| == 0 then []
    else if used + |paras[0]| <= MaxSummaryLength then [paras[0]] + Greedy(paras[1..], used + |paras[0]|)
    else Greedy(paras[1..], used)
  }

  /** The loop takes only paragraphs it is given, and leaves one out only
      when it would overflow the final total. */
  lemma {:induction false} GreedyChosen(paras: seq<string>, used: nat)
    requires used <= MaxSummaryLength
    ensures forall p :: p in Greedy(paras, used) ==> p in paras
    ensures forall p :: p in paras && p !in Greedy(paras, used) ==>
      used + TotalLength(Greedy(paras, used)) + |p| > MaxSummaryLength
    decreases |paras|
  {
    if |paras| > 0 {
      var a, tail := paras[0], paras[1..];
      assert paras == [a] + tail;
      var chosen := Greedy(paras, used);
      if used + |a| <= MaxSummaryLength {
        var rest := Greedy(tail, used + |a|);
        assert chosen == [a] + rest;
        GreedyChosen(tail, used + |a|);
        TotalLengthCons(a, rest);
      } else {
        assert chosen == Greedy(tail, used);
        GreedyChosen(tail, used);
      }
    }
  }

  /** The budget loop as written: the paragraphs are visited in order, and
      each is appended to what was taken before it when it fits on top of
      that. */
  function BudgetLoop(paras: seq<string>, used: nat): seq<string> {
    if |paras| == 0 then []
    else
      var before := BudgetLoop(paras[..|paras| - 1], used);
      var p := paras[|paras| - 1];
      before + (if used + TotalLength(before) + |p| <= MaxSummaryLength then [p] else [])
  }

  lemma TotalLengthCons(p: string, rest: seq<string>)
    ensures TotalLength([p] + rest) == |p| + TotalLength(rest)
  {
    assert ([p] + rest)[1..] == rest;
  }

  /** One more paragraph: the loop keeps what it took so far, and takes the
      new paragraph exactly when it fits on top of that. */
  lemma {:induction false} GreedyExtend(paras: seq<string>, p: string, used: nat)
    requires used <= MaxSummaryLength
    ensures Greedy(paras + [p], used) ==
      Greedy(paras, used) + (if used + TotalLength(Greedy(paras, used)) + |p| <= MaxSummaryLength then [p] else [])
    decreases |paras|
  {
    var xs := paras + [p];
    if |paras| == 0 {
      assert xs == [p] && xs[1..] == [];
    } else {
      assert xs[0] == paras[0] && xs[1..] == paras[1..] + [p];
      if used + |paras[0]| <= MaxSummaryLength {
        var used' := used + |paras[0]|;
        var rest := Greedy(paras[1..], used');
        assert Greedy(paras, used) == [paras[0]] + rest;
        GreedyExtend(paras[1..], p, used');
        TotalLengthCons(paras[0], rest);
        var tail := if used' + TotalLength(rest) + |p| <= MaxSummaryLength then [p] else [];
        assert Greedy(xs, used) == [paras[0]] + (rest + tail);
        assert [paras[0]] + (rest + tail) == ([paras[0]] + rest) + tail;
      } else {
        assert Greedy(paras, used) == Greedy(paras[1..], used);
        GreedyExtend(paras[1..], p, used);
        assert Greedy(xs, used) == Greedy(paras[1..] + [p], used);
      }
    }
  }

  /** `Greedy` is the budget loop: the same paragraphs, in the same order. */
  lemma {:induction false} GreedyIsBudgetLoop(paras: seq<string>, used: nat)
    requires used <= MaxSummaryLength
    ensures Greedy(paras, used) == BudgetLoop(paras, used)
    decreases |paras|
  {
    if |paras| > 0 {
      var init := paras[..|paras| - 1];
      assert paras == init + [paras[|paras| - 1]];
      GreedyIsBudgetLoop(init, used);
      GreedyExtend(init, paras[|paras| - 1], used);
    }
  }

  /** Paragraph `k` is taken exactly when it fits on top of what was taken
      from the paragraphs before it. */
  lemma GreedySteps(paras: seq<string>, used: nat)
    requires used <= MaxSummaryLength
    ensures forall k :: 0 <= k < |paras| ==>
      Greedy(paras[..k + 1], used) == Greedy(paras[..k], used)
        + (if used + TotalLength(Greedy(paras[..k], used)) + |paras[k]| <= MaxSummaryLength then [paras[k]] else [])
  {
    forall k | 0 <= k < |paras|
      ensures Greedy(paras[..k + 1], used) == Greedy(paras[..k], used)
        + (if used + TotalLength(Greedy(paras[..k], used)) + |paras[k]| <= MaxSummaryLength then [paras[k]] else [])
    {
      assert paras[..k + 1] == paras[..k] + [paras[k]];
      GreedyExtend(paras[..k], paras[k], used);
    }
  }

  /** A paragraph that would overflow the budget is skipped, yet a shorter
      one after it is still taken. */
  lemma SkipThenTake(a: string, b: string, c: string)
    requires |a| == 1000 && |b| == 600 && |c| == 400
    ensures Greedy([a, b, c], 0) == [a, c]
  {
    assert [a, b, c][1..] == [b, c];
    assert [b, c][1..] == [c];
    assert [c][1..] == [];
    assert Greedy([c], 1000) == [c] + Greedy([], 1400) == [c];
    assert Greedy([b, c], 1000) == Greedy([c], 1000);
    assert Greedy([a, b, c], 0) == [a] + Greedy([b, c], 1000);
  }

  /** The first paragraph of each of the sections `top`, in that order. */
  function FirstParagraphs(secs: seq<string>, top: seq<nat>): (paras: seq<string>)
    requires forall a :: 0 <= a < |top| ==> top[a] < |secs|
    ensures |paras| == |top|
    ensures forall a :: 0 <= a < |top| ==> paras[a] == FirstParagraph(secs[top[a]])
  {
    seq(|top|, a requires 0 <= a < |top| => FirstParagraph(secs[top[a]]))
  }

  /** The first paragraph of each top section, in ranking order: the
      candidates the budget loop considers. */
  function TopParagraphs(text: string, keywords: seq<string>): (paras: seq<string>)
    ensures |paras| == |TopSections(Sections(text), keywords)| <= MaxSections
  {
    var secs := Sections(text);
    FirstParagraphs(secs, TopSections(secs, keywords))
  }

  /** The paragraphs that make up the summary, in ranking order. */
  function SummaryParagraphs(text: string, keywords: seq<string>): (parts: seq<string>)
    ensures |parts| <= MaxSections
    ensures TotalLength(parts) <= MaxSummaryLength
  {
    Greedy(TopParagraphs(text, keywords), 0)
  }

  /** Every summary paragraph is the first paragraph of a top section, and a
      top paragraph is left out only when it would not fit in what remains of
      the budget. The summary paragraphs are what the budget loop takes from
      the top paragraphs in ranking order. */
  lemma SummaryParagraphsChosen(text: string, keywords: seq<string>)
    ensures forall p :: p in SummaryParagraphs(text, keywords) ==> p in TopParagraphs(text, keywords)
    ensures forall p :: p in TopParagraphs(text, keywords) && p !in SummaryParagraphs(text, keywords) ==>
      TotalLength(SummaryParagraphs(text, keywords)) + |p| > MaxSummaryLength
    ensures SummaryParagraphs(text, keywords) == BudgetLoop(TopParagraphs(text, keywords), 0)
  {
    GreedyChosen(TopParagraphs(text, keywords), 0);
    GreedyIsBudgetLoop(TopParagraphs(text, keywords), 0);
  }

  /** Appends `GenericStatement` to a summary shorter than
      `MinSummaryLength`. */
  function Pad(s: string): (r: string)
    ensures |r| >= MinSummaryLength && |r| >= |s|
    ensures r[..|s|] == s
    ensures r == s <==> |s| >= MinSummaryLength
    ensures |s| < MinSummaryLength ==> r[|s|..] == GenericStatement
  {
    if |s| < MinSummaryLength then s + GenericStatement else s
  }

  /** The chosen paragraphs joined by single spaces and padded. The result
      is never shorter than `MinSummaryLength`, never longer than the budget
      plus the joining spaces, and begins with the joined paragraphs. */
  function ComposeSummary(parts: seq<string>): (r: string)
    requires |parts| <= MaxSections && TotalLength(parts) <= MaxSummaryLength
    ensures MinSummaryLength <= |r| <= MaxSummaryLength + MaxSections - 1
    ensures |Join(" ", parts)| <= |r| && r[..|Join(" ", parts)|] == Join(" ", parts)
  {
    var joined := Join(" ", parts);
    assert |joined| <= MaxSummaryLength + MaxSections - 1 by {
      if |parts| > 0 {
        assert |" "| == 1;
        assert |joined| == TotalLength(parts) + (|parts| - 1);
      }
    }
    GenericStatementLength();
    Pad(joined)
  }

  /** `_generate_summary(job_description, keywords)`; the job description is
      not used. */
  function GenerateSummary(text: string, keywords: seq<string>): (r: string)
    ensures MinSummaryLength <= |r| <= MaxSummaryLength + MaxSections - 1
  {
    ComposeSummary(SummaryParagraphs(text, keywords))
  }

  lemma GenericStatementLength()
    ensures |GenericStatement| == 198
  {
  }

  /** A non-empty top list starts with a section that has a hit. */
  lemma FirstTopHasHit(secs: seq<string>, keywords: seq<string>, top: seq<nat>)
    requires IsTopSections(secs, keywords, top)
    ensures |top| == 0 || (top[0] < |secs| && Hits(keywords, secs[top[0]]) > 0)
  {
  }

  /** When no section mentions a keyword, the summary is the closing
      statement alone. */
  lemma NoHitsGivesGeneric(text: string, keywords: seq<string>)
    requires forall x :: 0 <= x < |Sections(text)| ==> Hits(keywords, Sections(text)[x]) == 0
    ensures GenerateSummary(text, keywords) == GenericStatement
  {
    FirstTopHasHit(Sections(text), keywords, TopSections(Sections(text), keywords));
  }
}
