/** `ResumeMatcher._extract_keywords`: the job description is lower-cased and
    split into words by the pattern `\b[a-zA-Z]+\b`; stopwords and words of at
    most three letters are dropped; the remaining words are counted in a dict
    (which remembers first-insertion order), sorted stably by descending count,
    and the first fifteen are kept.

    Word characters for `\b` are taken to be ASCII letters, digits and `_`;
    lower-casing touches ASCII letters only. */
module Keywords {
  import opened Text
  import Ranking

  /** The `common_words` set. */
  const StopWords: set<string> :=
    {"the", "and", "a", "to", "of", "in", "with", "for", "on", "is", "are", "you", "will", "be"}

  /** At most this many keywords are returned. */
  const MaxKeywords: nat := 15

  /** Words of this length or shorter are dropped. */
  const ShortWordLength: nat := 3

  predicate IsLetter(c: char) {
    'a' <= c <= 'z' || 'A' <= c <= 'Z'
  }

  /** Characters that count as part of a word for `\b`. */
  predicate IsWordChar(c: char) {
    IsLetter(c) || '0' <= c <= '9' || c == '_'
  }

  predicate AllLetters(t: string) {
    forall i :: 0 <= i < |t| ==> IsLetter(t[i])
  }

  predicate IsLowerWord(t: string) {
    forall i :: 0 <= i < |t| ==> 'a' <= t[i] <= 'z'
  }

  /** The length and stopword tests a candidate word must pass. */
  predicate Kept(w: string) {
    |w| > ShortWordLength && w !in StopWords
  }

  /** A word that survives the filter: lower-case ASCII letters only, longer
      than three characters, not a stopword. */
  predicate IsCandidate(w: string) {
    IsLowerWord(w) && Kept(w)
  }

  /** `t` is matched by `\b[a-zA-Z]+\b` at position `k` of `s`. */
  ghost predicate TokenAt(s: string, k: int, t: string) {
    && 0 <= k && k + |t| <= |s| && 0 < |t|
    && s[k..k + |t|] == t
    && AllLetters(t)
    && (k == 0 || !IsWordChar(s[k - 1]))
    && (k + |t| == |s| || !IsWordChar(s[k + |t|]))
  }

  /** End of the run of letters that starts at `i`. */
  function RunEnd(s: string, i: nat): (j: nat)
    requires i <= |s|
    ensures i <= j <= |s|
    ensures forall k :: i <= k < j ==> IsLetter(s[k])
    ensures j == |s| || !IsLetter(s[j])
    decreases |s| - i
  {
    if i < |s| && IsLetter(s[i]) then RunEnd(s, i + 1) else i
  }

  /** The letter run from `k` on is followed by the end of the text or by a
      non-letter at `e`: then `e` is where the run ends. */
  lemma {:induction false} RunEndUnique(s: string, k: nat, e: nat)
    requires k <= e <= |s|
    requires forall m :: k <= m < e ==> IsLetter(s[m])
    requires e == |s| || !IsLetter(s[e])
    ensures RunEnd(s, k) == e
    decreases e - k
  {
    if k < e {
      RunEndUnique(s, k + 1, e);
    }
  }

  /** A match of `\b[a-zA-Z]+\b` starts at `k`: a letter with no word
      character before it, whose run of letters has no word character after
      it. */
  predicate MatchStart(s: string, k: nat)
    requires k < |s|
  {
    && IsLetter(s[k]) && (k == 0 || !IsWordChar(s[k - 1]))
    && (RunEnd(s, k) == |s| || !IsWordChar(s[RunEnd(s, k)]))
  }

  /** The pattern matches `t` at `k` exactly when a match starts there and
      `t` is the whole run of letters. */
  lemma MatchIsRun(s: string, k: nat, t: string)
    ensures TokenAt(s, k, t) <==> k < |s| && MatchStart(s, k) && t == s[k..RunEnd(s, k)]
  {
    if TokenAt(s, k, t) {
      forall m | k <= m < k + |t| ensures IsLetter(s[m]) {
        assert s[m] == t[m - k];
      }
      RunEndUnique(s, k, k + |t|);
    }
    if k < |s| && MatchStart(s, k) && t == s[k..RunEnd(s, k)] {
      forall m | 0 <= m < |t| ensures IsLetter(t[m]) {
        assert t[m] == s[k + m];
      }
    }
  }

  /** The positions at or after `i` where `re.findall` finds a match, in the
      order of its scan: after a run of letters it resumes at the run's end,
      since no match starts inside a run. */
  function MatchStarts(s: string, i: nat): (ms: seq<nat>)
    requires i <= |s|
    ensures forall x :: 0 <= x < |ms| ==> i <= ms[x] < |s| && MatchStart(s, ms[x])
    ensures forall x, y :: 0 <= x < y < |ms| ==> ms[x] < ms[y]
    decreases |s| - i
  {
    if i == |s| then []
    else if IsLetter(s[i]) && (i == 0 || !IsWordChar(s[i - 1])) then
      var j := RunEnd(s, i);
      var rest := MatchStarts(s, j);
      if j == |s| || !IsWordChar(s[j]) then
        assert MatchStart(s, i);
        [i] + rest
      else
        rest
    else
      MatchStarts(s, i + 1)
  }

  /** The scan misses no match: every position at or after `i` where a
      match starts is listed. */
  lemma {:induction false} MatchStartsComplete(s: string, i: nat)
    requires i <= |s|
    ensures forall k :: i <= k < |s| && MatchStart(s, k) ==> k in MatchStarts(s, i)
    decreases |s| - i
  {
    if i < |s| {
      if IsLetter(s[i]) && (i == 0 || !IsWordChar(s[i - 1])) {
        var j := RunEnd(s, i);
        MatchStartsComplete(s, j);
        RunSkipsNoMatch(s, i, MatchStarts(s, j));
      } else {
        MatchStartsComplete(s, i + 1);
        assert !MatchStart(s, i);
      }
    }
  }

  /** No match starts inside a run of letters, since each position after
      the first has a letter before it: the matches after the run's start
      that the scan from the run's end lists are all of them. */
  lemma RunSkipsNoMatch(s: string, i: nat, rest: seq<nat>)
    requires i < |s|
    requires forall k :: RunEnd(s, i) <= k < |s| && MatchStart(s, k) ==> k in rest
    ensures forall k :: i < k < |s| && MatchStart(s, k) ==> k in rest
  {
    forall k | i < k < RunEnd(s, i) ensures !MatchStart(s, k) {
      assert IsLetter(s[k - 1]);
    }
  }

  /** `re.findall(r'\b[a-zA-Z]+\b', s)`: one word per match, in text
      order. */
  function Tokens(s: string): (ts: seq<string>)
    ensures |ts| == |MatchStarts(s, 0)|
    ensures forall x :: 0 <= x < |ts| ==> TokenAt(s, MatchStarts(s, 0)[x], ts[x])
  {
    var ms := MatchStarts(s, 0);
    assert forall x :: 0 <= x < |ms| ==> MatchStart(s, ms[x]);
    var ts := seq(|ms|, x requires 0 <= x < |ms| => s[ms[x]..RunEnd(s, ms[x])]);
    forall x | 0 <= x < |ms| ensures TokenAt(s, ms[x], ts[x]) {
      MatchIsRun(s, ms[x], ts[x]);
    }
    ts
  }

  /** The words found are exactly the matches of the pattern, one entry for
      each match, in the order of their positions. */
  lemma TokensExact(s: string, t: string)
    ensures t in Tokens(s) <==> exists k :: TokenAt(s, k, t)
    ensures forall x, y :: 0 <= x < y < |Tokens(s)| ==> MatchStarts(s, 0)[x] < MatchStarts(s, 0)[y]
    ensures forall k :: TokenAt(s, k, t) ==>
      exists x :: 0 <= x < |Tokens(s)| && MatchStarts(s, 0)[x] == k && Tokens(s)[x] == t
  {
    var ts, ms := Tokens(s), MatchStarts(s, 0);
    MatchStartsComplete(s, 0);
    forall k | TokenAt(s, k, t)
      ensures exists x :: 0 <= x < |ts| && ms[x] == k && ts[x] == t
    {
      MatchIsRun(s, k, t);
      var x :| 0 <= x < |ms| && ms[x] == k;
      MatchIsRun(s, k, ts[x]);
    }
  }

  /** The words of the lower-cased text that are neither stopwords nor short,
      in text order, repeats included. */
  function KeepCandidates(ts: seq<string>): (ws: seq<string>)
    ensures forall w :: w in ws <==> w in ts && Kept(w)
  {
    if |ts| == 0 then []
    else
      var rest := KeepCandidates(ts[1..]);
      assert forall w :: w in ts <==> w == ts[0] || w in ts[1..];
      if Kept(ts[0]) then [ts[0]] + rest else rest
  }

  /** The filter keeps the order of the words and treats each one on its
      own: filtering a concatenation filters each part, and a single word is
      kept or dropped by the length and stopword tests alone. */
  lemma {:induction false} KeepCandidatesAppend(a: seq<string>, b: seq<string>)
    ensures KeepCandidates(a + b) == KeepCandidates(a) + KeepCandidates(b)
    ensures |a| == 1 ==> KeepCandidates(a) == (if Kept(a[0]) then a else [])
    decreases |a|
  {
    if |a| > 0 {
      assert (a + b)[0] == a[0] && (a + b)[1..] == a[1..] + b;
      KeepCandidatesAppend(a[1..], b);
      if |a| == 1 {
        KeepCandidatesOne(a[0]);
        assert a == [a[0]];
      }
    } else {
      assert a + b == b;
    }
  }

  lemma KeepCandidatesOne(w: string)
    ensures KeepCandidates([w]) == if Kept(w) then [w] else []
  {
    assert [w][1..] == [];
  }

  /** A word passing the filter occurs as often among the kept words as
      among all words; any other word does not occur at all. */
  lemma {:induction false} KeepCandidatesCount(ts: seq<string>, w: string)
    ensures Count(KeepCandidates(ts), w) == if Kept(w) then Count(ts, w) else 0
    decreases |ts|
  {
    if |ts| > 0 {
      assert ts == [ts[0]] + ts[1..];
      assert multiset(ts) == multiset{ts[0]} + multiset(ts[1..]);
      KeepCandidatesCount(ts[1..], w);
      var rest := KeepCandidates(ts[1..]);
      if Kept(ts[0]) {
        assert multiset([ts[0]] + rest) == multiset{ts[0]} + multiset(rest);
      }
    }
  }

  /** A match in lower-cased text is a lower-case word. */
  lemma MatchOfLowered(jd: string, k: int, w: string)
    requires TokenAt(Lower(jd), k, w)
    ensures IsLowerWord(w)
  {
    var s := Lower(jd);
    forall m | 0 <= m < |w| ensures 'a' <= w[m] <= 'z' {
      assert w[m] == s[k + m] == LowerChar(jd[k + m]);
    }
  }

  /** Every token of lower-cased text is a lower-case word. */
  lemma TokenOfLowered(jd: string, w: string)
    requires w in Tokens(Lower(jd))
    ensures IsLowerWord(w)
  {
    var ts := Tokens(Lower(jd));
    var x :| 0 <= x < |ts| && ts[x] == w;
    MatchOfLowered(jd, MatchStarts(Lower(jd), 0)[x], w);
  }

  /** The `keywords` list of `_extract_keywords`, before counting. */
  function Candidates(jd: string): (ws: seq<string>)
    ensures forall w :: w in ws ==> IsCandidate(w)
    ensures forall w :: w in ws <==> w in Tokens(Lower(jd)) && Kept(w)
  {
    var ws := KeepCandidates(Tokens(Lower(jd)));
    forall w | w in ws ensures IsLowerWord(w) {
      TokenOfLowered(jd, w);
    }
    ws
  }

  /** Number of occurrences of `w` in `ws`. */
  function Count(ws: seq<string>, w: string): nat {
    multiset(ws)[w]
  }

  /** Position of the first occurrence of `w` in `ws`. */
  function FirstIndex(ws: seq<string>, w: string): (n: nat)
    requires w in ws
    ensures n < |ws| && ws[n] == w && w !in ws[..n]
  {
    if ws[0] == w then 0
    else
      var n := FirstIndex(ws[1..], w);
      assert ws[..n + 1] == [ws[0]] + ws[1..][..n];
      n + 1
  }

  lemma FirstIndexUnique(ws: seq<string>, w: string, n: nat)
    requires n < |ws| && ws[n] == w && w !in ws[..n]
    ensures FirstIndex(ws, w) == n
  {
    var m := FirstIndex(ws, w);
    assert forall j :: 0 <= j < n ==> ws[..n][j] == ws[j];
    assert forall j :: 0 <= j < m ==> ws[..m][j] == ws[j];
  }

  /** Word `a` is ranked before word `b`: it occurs more often, or as often
      and first occurs earlier. */
  predicate WordOutranks(ws: seq<string>, a: string, b: string)
    requires a in ws && b in ws
  {
    Count(ws, a) > Count(ws, b) || (Count(ws, a) == Count(ws, b) && FirstIndex(ws, a) < FirstIndex(ws, b))
  }

  /** The keys of a frequency table, in insertion order. */
  function KeysOf(t: seq<(string, nat)>): (ks: seq<string>)
    ensures |ks| == |t| && forall p :: 0 <= p < |t| ==> ks[p] == t[p].0
  {
    seq(|t|, p requires 0 <= p < |t| => t[p].0)
  }

  /** Position of key `w` in the table, or `|t|` when it is absent. */
  function Find(t: seq<(string, nat)>, w: string): (p: nat)
    ensures p <= |t|
    ensures p < |t| ==> t[p].0 == w
    ensures forall q :: 0 <= q < p ==> t[q].0 != w
  {
    if |t| == 0 then 0
    else if t[0].0 == w then 0
    else 1 + Find(t[1..], w)
  }

  /** `keyword_freq[word] = keyword_freq.get(word, 0) + 1` on an
      insertion-ordered dict. */
  function Bump(t: seq<(string, nat)>, w: string): seq<(string, nat)> {
    var p := Find(t, w);
    if p < |t| then t[p := (w, t[p].1 + 1)] else t + [(w, 1)]
  }

  /** `t` is the frequency dict of `ws`: one entry per distinct word, holding
      its number of occurrences, in order of first occurrence. */
  ghost predicate IsFrequencyTable(ws: seq<string>, t: seq<(string, nat)>) {
    && (forall p, q :: 0 <= p < q < |t| ==> t[p].0 != t[q].0)
    && (forall w :: w in ws <==> w in KeysOf(t))
    && (forall p :: 0 <= p < |t| ==> t[p].1 == Count(ws, t[p].0))
    && (forall p, q :: 0 <= p < q < |t| && t[p].0 in ws && t[q].0 in ws ==>
          FirstIndex(ws, t[p].0) < FirstIndex(ws, t[q].0))
  }

  /** The counting loop over `ws`. */
  function Tally(ws: seq<string>): (t: seq<(string, nat)>)
    ensures IsFrequencyTable(ws, t)
  {
    if |ws| == 0 then []
    else
      var ws0 := ws[..|ws| - 1];
      assert ws == ws0 + [ws[|ws| - 1]];
      var t0 := Tally(ws0);
      BumpStep(ws0, t0, ws[|ws| - 1]);
      Bump(t0, ws[|ws| - 1])
  }

  lemma BumpStep(ws0: seq<string>, t0: seq<(string, nat)>, w: string)
    requires IsFrequencyTable(ws0, t0)
    ensures IsFrequencyTable(ws0 + [w], Bump(t0, w))
  {
    if Find(t0, w) < |t0| {
      BumpExisting(ws0, t0, w);
    } else {
      BumpFresh(ws0, t0, w);
    }
  }

  /** Appending a word moves no earlier first occurrence. */
  lemma FirstIndexAppend(ws0: seq<string>, w: string, x: string)
    requires x in ws0
    ensures FirstIndex(ws0 + [w], x) == FirstIndex(ws0, x)
  {
    var ws, n := ws0 + [w], FirstIndex(ws0, x);
    assert ws[..n] == ws0[..n];
    FirstIndexUnique(ws, x, n);
  }

  /** Counting a word already in the table increments its entry. */
  lemma BumpExisting(ws0: seq<string>, t0: seq<(string, nat)>, w: string)
    requires IsFrequencyTable(ws0, t0) && Find(t0, w) < |t0|
    ensures IsFrequencyTable(ws0 + [w], Bump(t0, w))
  {
    var ws, t, p := ws0 + [w], Bump(t0, w), Find(t0, w);
    assert multiset(ws) == multiset(ws0) + multiset{w};
    assert KeysOf(t) == KeysOf(t0);
    assert w in KeysOf(t0);
    forall q | 0 <= q < |t| ensures t[q].1 == Count(ws, t[q].0) {
      assert t[q].0 == t0[q].0;
    }
    forall q | 0 <= q < |t| && t[q].0 in ws ensures FirstIndex(ws, t[q].0) == FirstIndex(ws0, t[q].0) {
      assert t[q].0 in KeysOf(t0);
      FirstIndexAppend(ws0, w, t[q].0);
    }
  }

  /** Counting a new word appends an entry of one. */
  lemma BumpFresh(ws0: seq<string>, t0: seq<(string, nat)>, w: string)
    requires IsFrequencyTable(ws0, t0) && Find(t0, w) == |t0|
    ensures IsFrequencyTable(ws0 + [w], Bump(t0, w))
  {
    var ws, t := ws0 + [w], Bump(t0, w);
    assert t == t0 + [(w, 1)];
    assert w !in KeysOf(t0);
    assert multiset(ws) == multiset(ws0) + multiset{w};
    assert KeysOf(t) == KeysOf(t0) + [w];
    FreshFirstIndex(ws0, t0, w);
  }

  /** A new word first occurs after every word already in the table. */
  lemma FreshFirstIndex(ws0: seq<string>, t0: seq<(string, nat)>, w: string)
    requires IsFrequencyTable(ws0, t0) && w !in ws0
    ensures forall p, q :: 0 <= p < q < |t0 + [(w, 1)]| ==>
      FirstIndex(ws0 + [w], (t0 + [(w, 1)])[p].0) < FirstIndex(ws0 + [w], (t0 + [(w, 1)])[q].0)
  {
    var ws, t := ws0 + [w], t0 + [(w, 1)];
    assert ws[..|ws0|] == ws0;
    FirstIndexUnique(ws, w, |ws0|);
    forall q | 0 <= q < |t0| ensures t0[q].0 in ws0 && FirstIndex(ws, t0[q].0) == FirstIndex(ws0, t0[q].0) < |ws0| {
      assert t0[q].0 in KeysOf(t0);
      FirstIndexAppend(ws0, w, t0[q].0);
    }
  }

  /** `kws` are the top candidates of `ws`: at most fifteen distinct words
      of `ws`, in ranking order, and any word of `ws` left out ranks below all
      of them (so it is left out only when fifteen were kept). */
  ghost predicate IsTopKeywords(ws: seq<string>, kws: seq<string>) {
    && |kws| <= MaxKeywords
    && (forall i :: 0 <= i < |kws| ==> kws[i] in ws)
    && (forall i, j :: 0 <= i < j < |kws| ==> kws[i] != kws[j])
    && (forall i, j :: 0 <= i < j < |kws| ==> WordOutranks(ws, kws[i], kws[j]))
    && (forall w :: w in ws && w !in kws ==>
          |kws| == MaxKeywords && forall i :: 0 <= i < |kws| ==> WordOutranks(ws, kws[i], w))
  }

  /** The fifteen highest-ranked words of `ws`: the dict of counts sorted
      stably by descending count and cut after fifteen entries. */
  function TopKeywords(ws: seq<string>): (kws: seq<string>)
    ensures IsTopKeywords(ws, kws)
  {
    var t := Tally(ws);
    var scores := seq(|t|, p requires 0 <= p < |t| => t[p].1);
    var r := Ranking.RankOrder(scores);
    var n := if |r| < MaxKeywords then |r| else MaxKeywords;
    assert forall a :: 0 <= a < n ==> r[a] < |t|;
    var kws := seq(n, a requires 0 <= a < n => t[r[a]].0);
    TopRanked(ws, t, scores, r, kws);
    kws
  }

  /** `_extract_keywords`: the fifteen highest-ranked candidate words. */
  function ExtractKeywords(jd: string): (kws: seq<string>)
    ensures IsTopKeywords(Candidates(jd), kws)
    ensures forall i :: 0 <= i < |kws| ==> IsCandidate(kws[i])
  {
    TopKeywords(Candidates(jd))
  }

  lemma TopRanked(ws: seq<string>, t: seq<(string, nat)>, scores: seq<nat>, r: seq<nat>, kws: seq<string>)
    requires IsFrequencyTable(ws, t)
    requires |scores| == |t| && forall p :: 0 <= p < |t| ==> scores[p] == t[p].1
    requires Ranking.IsIndexPermutation(r, |t|) && Ranking.Ranked(scores, r)
    requires |kws| == (if |r| < MaxKeywords then |r| else MaxKeywords)
    requires forall a :: 0 <= a < |kws| ==> kws[a] == t[r[a]].0
    ensures IsTopKeywords(ws, kws)
  {
    TableKeysInWords(ws, t);
    RankedWords(ws, t, scores, r);
    forall i, j | 0 <= i < j < |kws| ensures kws[i] != kws[j] && WordOutranks(ws, kws[i], kws[j]) {
      assert WordOutranks(ws, t[r[i]].0, t[r[j]].0);
    }
    forall w | w in ws && w !in kws
      ensures |kws| == MaxKeywords && forall i :: 0 <= i < |kws| ==> WordOutranks(ws, kws[i], w)
    {
      LeftOutRanksLower(ws, t, scores, r, kws, w);
    }
  }

  /** Every key of the table is a word of `ws`. */
  lemma TableKeysInWords(ws: seq<string>, t: seq<(string, nat)>)
    requires IsFrequencyTable(ws, t)
    ensures forall p :: 0 <= p < |t| ==> t[p].0 in ws
  {
    forall p | 0 <= p < |t| ensures t[p].0 in ws {
      assert t[p].0 in KeysOf(t);
    }
  }

  /** Ranking the table entries by count ranks their words. */
  lemma RankedWords(ws: seq<string>, t: seq<(string, nat)>, scores: seq<nat>, r: seq<nat>)
    requires IsFrequencyTable(ws, t)
    requires forall p :: 0 <= p < |t| ==> t[p].0 in ws
    requires |scores| == |t| && forall p :: 0 <= p < |t| ==> scores[p] == t[p].1
    requires Ranking.Ranked(scores, r)
    ensures forall a, b :: 0 <= a < b < |r| ==> WordOutranks(ws, t[r[a]].0, t[r[b]].0)
  {
    forall a, b | 0 <= a < b < |r| ensures WordOutranks(ws, t[r[a]].0, t[r[b]].0) {
      assert Ranking.Outranks(scores, r[a], r[b]);
      assert scores[r[a]] == scores[r[b]] ==> r[a] < r[b];
    }
  }

  /** A word of `ws` missing from the cut list sits at or after the cut, so
      the cut was at fifteen and every kept word ranks above it. */
  lemma LeftOutRanksLower(ws: seq<string>, t: seq<(string, nat)>, scores: seq<nat>, r: seq<nat>, kws: seq<string>, w: string)
    requires IsFrequencyTable(ws, t)
    requires forall p :: 0 <= p < |t| ==> t[p].0 in ws
    requires |scores| == |t| && Ranking.IsIndexPermutation(r, |t|) && Ranking.Ranked(scores, r)
    requires forall a, b :: 0 <= a < b < |r| ==> WordOutranks(ws, t[r[a]].0, t[r[b]].0)
    requires |kws| == (if |r| < MaxKeywords then |r| else MaxKeywords)
    requires forall a :: 0 <= a < |kws| ==> kws[a] == t[r[a]].0
    requires w in ws && w !in kws
    ensures |kws| == MaxKeywords && forall i :: 0 <= i < |kws| ==> WordOutranks(ws, kws[i], w)
  {
    assert w in KeysOf(t);
    var p :| 0 <= p < |t| && t[p].0 == w;
    assert p in r;
    var a :| 0 <= a < |r| && r[a] == p;
    forall b | 0 <= b < |kws| ensures r[b] != p {
      assert kws[b] in kws;
    }
    assert |kws| <= a < |r|;
    forall i | 0 <= i < |kws| ensures WordOutranks(ws, kws[i], w) {
      assert WordOutranks(ws, t[r[i]].0, t[r[a]].0);
    }
  }
}
