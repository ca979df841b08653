/**
 The corpus drafter: an n-gram index over local tokens that proposes
 continuations of the text seen so far.

 The search walks suffix lengths from long to short, looks positions up in the
 index, keeps one best candidate for each distinct continuation, and stops as
 soon as it holds `limit` of them.  The specification is the exhaustive ranking
 of every usable match of every length.  A float score `matched + len/100` is
 modelled exactly, as the integer `100 * matched + len`.
 */
module Drafter {
  import opened Wrappers

  type Token = int

  const DEFAULT_NGRAM := 4
  const DEFAULT_MAX_SUFFIX_TOKENS := 32
  const DEFAULT_MAX_DRAFT_TOKENS := 32

  datatype Candidate = Candidate(tokens: seq<Token>, matched: nat, matchStart: nat, sourceStart: nat) {

    function Score(): int {
      100 * matched + |tokens|
    }

    /** This one sorts before the other: score, then suffix, then length descending, then source ascending. */
    predicate Before(other: Candidate) {
      || Score() > other.Score()
      || (Score() == other.Score() && matched > other.matched)
      || (Score() == other.Score() && matched == other.matched && |tokens| > |other.tokens|)
      || (Score() == other.Score() && matched == other.matched && |tokens| == |other.tokens|
          && sourceStart < other.sourceStart)
    }
  }

  // ---------------------------------------------------------------- specification

  /** The last `m` tokens of `prefix` occur at `s` in the corpus, with at least one token after them. */
  predicate Usable(corpus: seq<Token>, prefix: seq<Token>, m: nat, s: nat) {
    m <= |prefix| && s + m < |corpus| && corpus[s..s + m] == prefix[|prefix| - m..]
  }

  function Draft(corpus: seq<Token>, m: nat, s: nat, d: nat): Candidate
    requires s + m <= |corpus|
  {
    Candidate(corpus[s + m..Min(s + m + d, |corpus|)], m, s, s + m)
  }

  /** `c` is the draft of at most `d` tokens for some usable match of between `lo` and `hi` tokens. */
  predicate IsMatch(c: Candidate, corpus: seq<Token>, prefix: seq<Token>, lo: nat, hi: int, d: nat) {
    && 0 < d
    && lo <= c.matched <= hi
    && Usable(corpus, prefix, c.matched, c.matchStart)
    && c == Draft(corpus, c.matched, c.matchStart, d)
  }

  ghost function Matches(corpus: seq<Token>, prefix: seq<Token>, lo: nat, hi: int, d: nat): iset<Candidate> {
    iset c: Candidate | IsMatch(c, corpus, prefix, lo, hi, d)
  }

  /** `c` is the best candidate of `pool` among those that propose the same tokens. */
  ghost predicate Leads(c: Candidate, pool: iset<Candidate>) {
    c in pool && forall o <- pool :: o.tokens == c.tokens ==> o == c || c.Before(o)
  }

  /** `r` is the ranking of `pool`, one candidate for each distinct continuation, cut to `limit` entries. */
  ghost predicate IsTop(r: seq<Candidate>, pool: iset<Candidate>, limit: int) {
    && |r| <= Max(0, limit)
    && (forall i, j :: 0 <= i < j < |r| ==> r[i].Before(r[j]))
    && (forall c <- r :: Leads(c, pool))
    && (|r| < limit ==> forall c <- pool :: Leads(c, pool) ==> c in r)
    && (forall c <- pool, i | Leads(c, pool) && c !in r && 0 <= i < |r| :: r[i].Before(c))
  }

  /** What the early-exiting search returns: the ranking of the matches down to the first level that fills `limit`. */
  ghost predicate IsEarlyExitAnswer(r: seq<Candidate>, corpus: seq<Token>, prefix: seq<Token>,
                                    lo: nat, hi: int, d: nat, limit: int)
  {
    exists level: nat {:trigger Matches(corpus, prefix, level, hi, d)} ::
      && lo <= level
      && IsTop(r, Matches(corpus, prefix, level, hi, d), limit)
      && (level == lo || |r| == limit)
      && forall m: nat, t :: level < m && IsTop(t, Matches(corpus, prefix, m, hi, d), limit) ==> |t| < limit
  }

  // ---------------------------------------------------------------- the order on candidates

  lemma BeforeIsTotal(a: Candidate, b: Candidate, corpus: seq<Token>, prefix: seq<Token>, lo: nat, hi: int, d: nat)
    requires IsMatch(a, corpus, prefix, lo, hi, d) && IsMatch(b, corpus, prefix, lo, hi, d)
    ensures a == b || a.Before(b) || b.Before(a)
  {
  }

  /** A ranking is unique, so two searches that both return it return the same list. */
  lemma {:induction false} TopIsUnique(r: seq<Candidate>, t: seq<Candidate>, pool: iset<Candidate>, limit: int)
    requires IsTop(r, pool, limit) && IsTop(t, pool, limit)
    ensures r == t
  {
    TopPrefix(r, t, pool, limit, |r|);
    TopPrefix(t, r, pool, limit, |t|);
  }

  lemma {:induction false} TopPrefix(r: seq<Candidate>, t: seq<Candidate>, pool: iset<Candidate>, limit: int, n: nat)
    requires IsTop(r, pool, limit) && IsTop(t, pool, limit)
    requires n <= |r|
    ensures n <= |t| && r[..n] == t[..n]
  {
    if n > 0 {
      TopPrefix(r, t, pool, limit, n - 1);
      var k := n - 1;
      NotEarlier(r, t, k);
      assert Leads(r[k], pool);
      assert k < |t|;
      NotEarlier(t, r, k);
      RanksNoLater(r, t, pool, limit, k);
      RanksNoLater(t, r, pool, limit, k);
      assert r[..n] == r[..k] + [r[k]] && t[..n] == t[..k] + [t[k]];
    }
  }

  lemma NotEarlier(r: seq<Candidate>, t: seq<Candidate>, k: nat)
    requires k < |r| && k <= |t| && r[..k] == t[..k]
    requires forall i, j :: 0 <= i < j < |r| ==> r[i].Before(r[j])
    ensures r[k] !in t[..k]
    ensures k == |t| ==> r[k] !in t
  {
    forall j | 0 <= j < k ensures t[j] != r[k] {
      assert t[j] == t[..k][j] == r[..k][j] == r[j];
    }
  }

  /** After equal prefixes of length `k`, entry `k` of `t` cannot rank before entry `k` of `r`. */
  lemma RanksNoLater(r: seq<Candidate>, t: seq<Candidate>, pool: iset<Candidate>, limit: int, k: nat)
    requires IsTop(r, pool, limit) && IsTop(t, pool, limit)
    requires k < |r| && k < |t| && t[k] !in r[..k]
    ensures r[k] == t[k] || r[k].Before(t[k])
  {
    assert Leads(t[k], pool);
    if t[k] in r {
      var j :| 0 <= j < |r| && r[j] == t[k];
      assert forall i :: 0 <= i < k ==> r[..k][i] == r[i];
    }
  }

  // ---------------------------------------------------------------- early exit is exact up to 101 tokens

  /** With at most 101 tokens in a draft, a longer matched suffix always ranks first. */
  lemma LongerSuffixFirst(a: Candidate, b: Candidate, corpus: seq<Token>, prefix: seq<Token>, lo: nat, hi: int, d: nat)
    requires IsMatch(a, corpus, prefix, lo, hi, d) && IsMatch(b, corpus, prefix, lo, hi, d)
    requires d <= 101 && a.matched > b.matched
    ensures a.Before(b)
  {
    assert 1 <= |a.tokens| && |b.tokens| <= 101;
    assert 100 * a.matched >= 100 * b.matched + 100;
  }

  /** For drafts of at most 101 tokens the early exit loses nothing: it returns the exhaustive ranking. */
  lemma EarlyExitIsExhaustive(r: seq<Candidate>, corpus: seq<Token>, prefix: seq<Token>,
                              lo: nat, hi: int, d: nat, limit: int)
    requires IsEarlyExitAnswer(r, corpus, prefix, lo, hi, d, limit)
    requires d <= 101
    ensures IsTop(r, Matches(corpus, prefix, lo, hi, d), limit)
  {
    var level: nat :| && lo <= level
                      && IsTop(r, Matches(corpus, prefix, level, hi, d), limit)
                      && (level == lo || |r| == limit);
    var near := Matches(corpus, prefix, level, hi, d);
    var all := Matches(corpus, prefix, lo, hi, d);
    if level > lo {
      forall a <- near, b <- all - near ensures a.Before(b) {
        LongerSuffixFirst(a, b, corpus, prefix, lo, hi, d);
      }
      assert near <= all;
      forall c <- near ensures Leads(c, near) <==> Leads(c, all) {
        forall o <- all | Leads(c, near) && o.tokens == c.tokens ensures o == c || c.Before(o) {
          if o !in near { assert c.Before(o); }
        }
      }
      assert forall c <- r :: Leads(c, all) by {
        forall c <- r ensures Leads(c, all) { assert Leads(c, near); assert c in near; }
      }
      forall c <- all, i | Leads(c, all) && c !in r && 0 <= i < |r| ensures r[i].Before(c) {
        assert r[i] in r;
        assert Leads(r[i], near);
        if c in near { assert Leads(c, near); }
      }
    }
  }

  /** Every continuation proposed by a match has a leader that ranks no later. */
  lemma {:induction false} LeaderExists(c: Candidate, corpus: seq<Token>, prefix: seq<Token>, lo: nat, hi: int, d: nat)
    returns (leader: Candidate)
    requires IsMatch(c, corpus, prefix, lo, hi, d)
    ensures Leads(leader, Matches(corpus, prefix, lo, hi, d))
    ensures leader == c || leader.Before(c)
    decreases hi - c.matched, c.sourceStart
  {
    var pool := Matches(corpus, prefix, lo, hi, d);
    if Leads(c, pool) {
      leader := c;
    } else {
      var o :| o in pool && o.tokens == c.tokens && o != c && !c.Before(o);
      BeforeIsTotal(o, c, corpus, prefix, lo, hi, d);
      leader := LeaderExists(o, corpus, prefix, lo, hi, d);
    }
  }

  /** With limit 1 the draft is the longest suffix match, then the longest continuation, then the earliest source. */
  lemma SingleDraftIsLongestMatch(r: seq<Candidate>, c: Candidate, corpus: seq<Token>, prefix: seq<Token>,
                                  lo: nat, hi: int, d: nat)
    requires d <= 101 && IsTop(r, Matches(corpus, prefix, lo, hi, d), 1)
    requires IsMatch(c, corpus, prefix, lo, hi, d)
    ensures |r| == 1 && IsMatch(r[0], corpus, prefix, lo, hi, d)
    ensures || r[0].matched > c.matched
            || (r[0].matched == c.matched && |r[0].tokens| > |c.tokens|)
            || (r[0].matched == c.matched && |r[0].tokens| == |c.tokens| && r[0].sourceStart <= c.sourceStart)
  {
    var leader := LeaderExists(c, corpus, prefix, lo, hi, d);
    assert |r| == 1;
    assert r[0] in r;
    assert r[0] == leader || r[0].Before(leader);
    if c.matched > r[0].matched {
      LongerSuffixFirst(c, r[0], corpus, prefix, lo, hi, d);
    }
  }

  // ---------------------------------------------------------------- beyond 101 tokens it is not

  const MISLEADING_PREFIX: seq<Token> := [1, 0]

  /** One long continuation of the suffix `[0]`, and a one-token continuation of the longer suffix `[1, 0]`. */
  function MisleadingCorpus(): (corpus: seq<Token>)
    ensures |corpus| == 106
    ensures corpus[0] == 0 && corpus[103] == 1 && corpus[104] == 0 && corpus[105] == 3
    ensures forall i :: 1 <= i < 103 ==> corpus[i] == 2
  {
    [0] + seq(102, i => 2) + [1, 0, 3]
  }

  lemma MisleadingMatches(corpus: seq<Token>, c: Candidate, d: nat)
    requires corpus == MisleadingCorpus() && d >= 102
    requires IsMatch(c, corpus, MISLEADING_PREFIX, 1, 2, d)
    ensures c.matched == 2 ==> c == Draft(corpus, 2, 103, d)
    ensures c.matched == 1 ==> c == Draft(corpus, 1, 0, d) || c == Draft(corpus, 1, 104, d)
  {
    var s := c.matchStart;
    assert corpus[s] == corpus[s..s + c.matched][0] == MISLEADING_PREFIX[2 - c.matched..][0];
  }

  lemma MisleadingWinner(corpus: seq<Token>, d: nat)
    requires corpus == MisleadingCorpus() && d >= 102
    ensures IsMatch(Draft(corpus, 2, 103, d), corpus, MISLEADING_PREFIX, 2, 2, d)
    ensures Leads(Draft(corpus, 1, 0, d), Matches(corpus, MISLEADING_PREFIX, 1, 2, d))
    ensures Draft(corpus, 1, 0, d).Before(Draft(corpus, 2, 103, d))
  {
    var long, pool := Draft(corpus, 1, 0, d), Matches(corpus, MISLEADING_PREFIX, 1, 2, d);
    assert corpus[103..105] == MISLEADING_PREFIX[0..];
    assert corpus[0..1] == MISLEADING_PREFIX[1..];
    assert IsMatch(long, corpus, MISLEADING_PREFIX, 1, 2, d);
    assert |long.tokens| >= 102;
    forall o <- pool ensures o == long || o.tokens != long.tokens {
      MisleadingMatches(corpus, o, d);
    }
  }

  /** A level that fills `limit` stops the search there or earlier. */
  lemma FullLevelStops(r: seq<Candidate>, t: seq<Candidate>, corpus: seq<Token>, prefix: seq<Token>,
                       lo: nat, at: nat, hi: int, d: nat, limit: int) returns (level: nat)
    requires IsEarlyExitAnswer(r, corpus, prefix, lo, hi, d, limit)
    requires lo < at && IsTop(t, Matches(corpus, prefix, at, hi, d), limit) && |t| >= limit
    ensures at <= level && |r| == limit && IsTop(r, Matches(corpus, prefix, level, hi, d), limit)
  {
    level :| && lo <= level
             && IsTop(r, Matches(corpus, prefix, level, hi, d), limit)
             && (level == lo || |r| == limit)
             && forall m: nat, t :: level < m && IsTop(t, Matches(corpus, prefix, m, hi, d), limit) ==> |t| < limit;
  }

  lemma ShortAlone(corpus: seq<Token>, d: nat)
    requires corpus == MisleadingCorpus() && d >= 102
    ensures IsTop([Draft(corpus, 2, 103, d)], Matches(corpus, MISLEADING_PREFIX, 2, 2, d), 1)
  {
    var short, near := Draft(corpus, 2, 103, d), Matches(corpus, MISLEADING_PREFIX, 2, 2, d);
    MisleadingWinner(corpus, d);
    forall c <- near ensures c == short {
      MisleadingMatches(corpus, c, d);
    }
    assert Leads(short, near);
  }

  /** For every draft length above 101 some search of that draft length misses the exhaustive winner. */
  lemma EarlyExitCanMissTheBest(r: seq<Candidate>, d: nat)
    requires d >= 102
    requires IsEarlyExitAnswer(r, MisleadingCorpus(), MISLEADING_PREFIX, 1, 2, d, 1)
    ensures !IsTop(r, Matches(MisleadingCorpus(), MISLEADING_PREFIX, 1, 2, d), 1)
  {
    var corpus := MisleadingCorpus();
    var short, long := Draft(corpus, 2, 103, d), Draft(corpus, 1, 0, d);
    ShortAlone(corpus, d);
    MisleadingWinner(corpus, d);
    var level := FullLevelStops(r, [short], corpus, MISLEADING_PREFIX, 1, 2, 2, d, 1);
    assert r[0] in r;
    MisleadingMatches(corpus, r[0], d);
    assert r[0] == short;
    assert long !in r;
  }

  lemma TopIsFromPool(t: seq<Candidate>, pool: iset<Candidate>, limit: int)
    requires IsTop(t, pool, limit) && t != []
    ensures t[0] in pool
  {
    assert Leads(t[0], pool);
  }

  lemma MisleadingAnswerExists(d: nat) returns (r: seq<Candidate>)
    requires d >= 102
    ensures IsEarlyExitAnswer(r, MisleadingCorpus(), MISLEADING_PREFIX, 1, 2, d, 1)
  {
    var corpus := MisleadingCorpus();
    r := [Draft(corpus, 2, 103, d)];
    ShortAlone(corpus, d);
    forall m: nat, t | 2 < m && IsTop(t, Matches(corpus, MISLEADING_PREFIX, m, 2, d), 1) ensures |t| < 1 {
      if t != [] {
        TopIsFromPool(t, Matches(corpus, MISLEADING_PREFIX, m, 2, d), 1);
      }
    }
    assert IsTop(r, Matches(corpus, MISLEADING_PREFIX, 2, 2, d), 1);
  }

  /** The early exit agrees with the exhaustive ranking on every input exactly when drafts have at most 101 tokens. */
  lemma EarlyExitExactIff(d: nat)
    ensures d <= 101 <==>
            forall r, corpus, prefix, lo: nat, hi, limit | IsEarlyExitAnswer(r, corpus, prefix, lo, hi, d, limit) ::
              IsTop(r, Matches(corpus, prefix, lo, hi, d), limit)
  {
    if d <= 101 {
      forall r, corpus, prefix, lo: nat, hi, limit | IsEarlyExitAnswer(r, corpus, prefix, lo, hi, d, limit)
        ensures IsTop(r, Matches(corpus, prefix, lo, hi, d), limit)
      {
        EarlyExitIsExhaustive(r, corpus, prefix, lo, hi, d, limit);
      }
    } else {
      var r := MisleadingAnswerExists(d);
      EarlyExitCanMissTheBest(r, d);
    }
  }

  // ---------------------------------------------------------------- the n-gram index

  function Gram(tokens: seq<Token>, p: nat, ngram: nat): seq<Token>
    requires p + ngram <= |tokens|
  {
    tokens[p..p + ngram]
  }

  /** `ps` lists positions below `n` at which `key` starts, in ascending order. */
  ghost predicate ListsGram(ps: seq<nat>, key: seq<Token>, tokens: seq<Token>, ngram: nat, n: nat) {
    && (forall i, j :: 0 <= i < j < |ps| ==> ps[i] < ps[j])
    && (forall i :: 0 <= i < |ps| ==> ps[i] < n && ps[i] + ngram <= |tokens| && Gram(tokens, ps[i], ngram) == key)
  }

  /** `index` lists exactly the positions below `n` at which each n-gram of `tokens` starts. */
  ghost predicate IndexesUpTo(index: map<seq<Token>, seq<nat>>, tokens: seq<Token>, ngram: nat, n: nat) {
    && (forall key <- index :: index[key] != [] && ListsGram(index[key], key, tokens, ngram, n))
    && (forall p: nat | p < n && p + ngram <= |tokens| ::
          Gram(tokens, p, ngram) in index && p in index[Gram(tokens, p, ngram)])
  }

  function Positions(index: map<seq<Token>, seq<nat>>, key: seq<Token>): seq<nat> {
    if key in index then index[key] else []
  }

  lemma IndexStep(index: map<seq<Token>, seq<nat>>, tokens: seq<Token>, ngram: nat, pos: nat)
    requires pos + ngram <= |tokens| && IndexesUpTo(index, tokens, ngram, pos)
    ensures var key := Gram(tokens, pos, ngram);
            IndexesUpTo(index[key := Positions(index, key) + [pos]], tokens, ngram, pos + 1)
  {
    var key := Gram(tokens, pos, ngram);
    var known := Positions(index, key);
    assert ListsGram(known, key, tokens, ngram, pos);
    assert ListsGram(known + [pos], key, tokens, ngram, pos + 1);
  }

  method BuildIndex(tokens: seq<Token>, ngram: int) returns (index: map<seq<Token>, seq<nat>>)
    ensures ngram <= 0 ==> index == map[]
    ensures ngram > 0 ==> IndexesUpTo(index, tokens, ngram, |tokens|)
  {
    index := map[];
    if ngram <= 0 {
      return;
    }
    for pos := 0 to Max(0, |tokens| - ngram + 1)
      invariant IndexesUpTo(index, tokens, ngram, pos)
    {
      var key := Gram(tokens, pos, ngram);
      IndexStep(index, tokens, ngram, pos);
      index := index[key := Positions(index, key) + [pos]];
    }
  }

  // ---------------------------------------------------------------- keeping the best of each continuation

  /** `best` holds, for every continuation proposed in `pool`, its leading candidate. */
  ghost predicate HoldsLeaders(best: map<seq<Token>, Candidate>, pool: iset<Candidate>) {
    && (forall t <- best :: best[t].tokens == t && Leads(best[t], pool))
    && (forall c <- pool :: c.tokens in best)
  }

  lemma BeforeIsTransitive()
    ensures forall a: Candidate, b: Candidate, c: Candidate :: a.Before(b) && b.Before(c) ==> a.Before(c)
  {
  }

  /** Python's `sorted` over the kept candidates: an insertion sort by the sort key. */
  method Ranked(best: map<seq<Token>, Candidate>, ghost pool: iset<Candidate>) returns (ranked: seq<Candidate>)
    requires HoldsLeaders(best, pool)
    requires forall a <- pool, b <- pool :: a == b || a.Before(b) || b.Before(a)
    ensures |ranked| == |best|
    ensures forall i, j :: 0 <= i < j < |ranked| ==> ranked[i].Before(ranked[j])
    ensures forall c :: c in ranked <==> Leads(c, pool)
  {
    ranked := [];
    var keys := best.Keys;
    while keys != {}
      invariant keys <= best.Keys
      invariant |ranked| + |keys| == |best|
      invariant forall i, j :: 0 <= i < j < |ranked| ==> ranked[i].Before(ranked[j])
      invariant forall c :: c in ranked <==> c.tokens in best && c.tokens !in keys && c == best[c.tokens]
      decreases keys
    {
      var key :| key in keys;
      ranked := Insert(best[key], ranked, pool);
      keys := keys - {key};
    }
  }

  function Insert(c: Candidate, ranked: seq<Candidate>, ghost pool: iset<Candidate>): (r: seq<Candidate>)
    requires c in pool && c !in ranked && forall x <- ranked :: x in pool
    requires forall a <- pool, b <- pool :: a == b || a.Before(b) || b.Before(a)
    requires forall i, j :: 0 <= i < j < |ranked| ==> ranked[i].Before(ranked[j])
    ensures |r| == |ranked| + 1
    ensures forall x :: x in r <==> x == c || x in ranked
    ensures forall i, j :: 0 <= i < j < |r| ==> r[i].Before(r[j])
  {
    BeforeIsTransitive();
    if ranked == [] then [c]
    else if c.Before(ranked[0]) then [c] + ranked
    else
      assert ranked == [ranked[0]] + ranked[1..];
      var rest := Insert(c, ranked[1..], pool);
      assert forall x <- ranked[1..] :: ranked[0].Before(x);
      assert ranked[0].Before(c);
      assert forall i :: 0 <= i < |rest| ==> rest[i] in rest;
      [ranked[0]] + rest
  }

  /** Keeping the better of two candidates for the same continuation keeps the leaders. */
  lemma KeepBetter(best: map<seq<Token>, Candidate>, c: Candidate, pool: iset<Candidate>)
    requires HoldsLeaders(best, pool)
    requires forall o <- pool :: o == c || o.Before(c) || c.Before(o)
    ensures c.tokens in best && !c.Before(best[c.tokens]) ==> HoldsLeaders(best, pool + iset{c})
    ensures c.tokens !in best || c.Before(best[c.tokens]) ==> HoldsLeaders(best[c.tokens := c], pool + iset{c})
  {
    BeforeIsTransitive();
    var more := pool + iset{c};
    forall t <- best | t != c.tokens ensures Leads(best[t], more) {
      assert Leads(best[t], pool);
    }
    if c.tokens in best {
      assert Leads(best[c.tokens], pool);
    }
  }

  lemma {:induction false} DistinctFit(ts: seq<seq<Token>>, keys: set<seq<Token>>)
    requires forall i, j :: 0 <= i < j < |ts| ==> ts[i] != ts[j]
    requires forall t <- ts :: t in keys
    ensures |ts| <= |keys|
  {
    if ts != [] {
      var n := |ts| - 1;
      assert ts[n] in ts;
      DistinctFit(ts[..n], keys - {ts[n]});
    }
  }

  /** A ranking has no more entries than there are distinct continuations. */
  lemma RankingFits(best: map<seq<Token>, Candidate>, t: seq<Candidate>, pool: iset<Candidate>, limit: int)
    requires HoldsLeaders(best, pool) && IsTop(t, pool, limit)
    ensures |t| <= |best|
  {
    var ts := seq(|t|, i requires 0 <= i < |t| => t[i].tokens);
    forall i | 0 <= i < |t| ensures Leads(t[i], pool) && ts[i] in best {
      assert t[i] in t;
    }
    forall i, j | 0 <= i < j < |t| ensures ts[i] != ts[j] {
      assert t[i].Before(t[j]);
    }
    DistinctFit(ts, best.Keys);
    assert |best.Keys| == |best|;
  }

  // ---------------------------------------------------------------- the drafter

  class CorpusDrafter {
    const ngram: nat
    const maxSuffix: nat
    const maxDraft: nat
    const corpus: seq<Token>
    const index: map<seq<Token>, seq<nat>>
    var history: seq<Token>

    ghost predicate Valid() {
      0 < ngram && 0 < maxSuffix && 0 < maxDraft && IndexesUpTo(index, corpus, ngram, |corpus|)
    }

    constructor (corpusTokens: seq<Token>, ngram: int, maxSuffixTokens: int, maxDraftTokens: int)
      ensures Valid() && corpus == corpusTokens && history == []
      ensures this.ngram == if ngram > 0 then ngram else DEFAULT_NGRAM
      ensures maxSuffix == if maxSuffixTokens > 0 then maxSuffixTokens else DEFAULT_MAX_SUFFIX_TOKENS
      ensures maxDraft == if maxDraftTokens > 0 then maxDraftTokens else DEFAULT_MAX_DRAFT_TOKENS
    {
      var n := if ngram > 0 then ngram else DEFAULT_NGRAM;
      this.ngram := n;
      maxSuffix := if maxSuffixTokens > 0 then maxSuffixTokens else DEFAULT_MAX_SUFFIX_TOKENS;
      maxDraft := if maxDraftTokens > 0 then maxDraftTokens else DEFAULT_MAX_DRAFT_TOKENS;
      corpus := corpusTokens;
      var built := BuildIndex(corpusTokens, n);
      index := built;
      history := [];
    }

    method Reset(prompt: seq<Token>)
      modifies this
      ensures history == prompt
    {
      history := prompt;
    }

    method Observe(committed: seq<Token>)
      modifies this
      ensures history == old(history) + committed
    {
      history := history + committed;
    }

    /** What the drafter answers for `prefix`, when a draft may have `d` tokens. */
    ghost predicate Answers(r: seq<Candidate>, prefix: seq<Token>, d: nat, limit: int) {
      && (limit <= 0 ==> r == [])
      && (limit > 0 ==> IsEarlyExitAnswer(r, corpus, prefix, ngram, maxSuffix, d, limit))
      && (d <= 101 ==> IsTop(r, Matches(corpus, prefix, ngram, maxSuffix, d), limit))
    }

    /** Every draft is what follows, in the corpus, a copy of the end of `prefix`. */
    ghost predicate FollowSuffixes(r: seq<Candidate>, prefix: seq<Token>, d: nat) {
      forall c <- r ::
        && ngram <= c.matched <= Min(maxSuffix, |prefix|)
        && c.sourceStart == c.matchStart + c.matched < |corpus|
        && corpus[c.matchStart..c.sourceStart] == prefix[|prefix| - c.matched..]
        && c.tokens == corpus[c.sourceStart..Min(c.sourceStart + d, |corpus|)] && 0 < |c.tokens| <= d
    }

    /** A suffix of `prefix` of a length the drafter considers occurs in the corpus, with a token after it. */
    ghost predicate CanDraft(prefix: seq<Token>) {
      exists m: nat, s: nat :: ngram <= m <= maxSuffix && Usable(corpus, prefix, m, s)
    }

    /** `c` has the longest suffix of all matches, then the longest draft, then the earliest source. */
    ghost predicate IsLongestMatch(c: Candidate, prefix: seq<Token>, d: nat) {
      forall m: nat, s: nat | ngram <= m <= maxSuffix && Usable(corpus, prefix, m, s) ::
        || c.matched > m
        || (c.matched == m && |c.tokens| > Min(d, |corpus| - s - m))
        || (c.matched == m && |c.tokens| == Min(d, |corpus| - s - m) && c.matchStart <= s)
    }

    method Candidates(current: seq<Token>, maxTokens: Option<int>, limit: int) returns (r: seq<Candidate>)
      requires Valid()
      ensures var d := if maxTokens.Some? then Min(maxDraft, Max(0, maxTokens.value)) else maxDraft;
              && Answers(r, history + current, d, limit) && FollowSuffixes(r, history + current, d)
              && |r| <= Max(0, limit)
              && (r != [] <==> limit > 0 && d > 0 && CanDraft(history + current))
              && (limit == 1 && d <= 101 && r != [] ==> |r| == 1 && IsLongestMatch(r[0], history + current, d))
      ensures corpus == [] ==> r == []
    {
      r := [];
      var d := maxDraft;
      if maxTokens.Some? {
        d := Min(d, Max(0, maxTokens.value));
      }
      var prefix := history + current;
      if limit <= 0 || corpus == [] || index == map[] || d <= 0 || |prefix| < ngram {
        NothingUsable(prefix, d, limit);
        return;
      }
      r := Search(prefix, d, limit);
    }

    /** The search proper, when there is something to search. */
    method Search(prefix: seq<Token>, d: nat, limit: int) returns (r: seq<Candidate>)
      requires Valid() && limit > 0 && 0 < d
      ensures Answers(r, prefix, d, limit) && FollowSuffixes(r, prefix, d) && |r| <= limit
      ensures r != [] <==> CanDraft(prefix)
      ensures limit == 1 && d <= 101 && r != [] ==> |r| == 1 && IsLongestMatch(r[0], prefix, d)
    {
      var best, level := SearchLevels(prefix, d, limit);
      ghost var pool := Matches(corpus, prefix, level, maxSuffix, d);
      TotalOnMatches(prefix, level, maxSuffix, d);
      var ranked := Ranked(best, pool);
      r := ranked[..Min(limit, |ranked|)];
      CutIsTop(ranked, pool, limit);
      assert IsTop(r, Matches(corpus, prefix, level, maxSuffix, d), limit);
      DraftsFollow(r, prefix, level, d, limit);
      AnswersWhenItCan(r, prefix, d, limit);
      if d <= 101 {
        EarlyExitIsExhaustive(r, corpus, prefix, ngram, maxSuffix, d, limit);
        if limit == 1 && r != [] {
          OneIsLongest(r, prefix, d);
        }
      }
    }

    lemma DraftsFollow(r: seq<Candidate>, prefix: seq<Token>, lo: nat, d: nat, limit: int)
      requires ngram <= lo && IsTop(r, Matches(corpus, prefix, lo, maxSuffix, d), limit)
      ensures FollowSuffixes(r, prefix, d)
    {
      forall c <- r ensures IsMatch(c, corpus, prefix, lo, maxSuffix, d) {
        assert Leads(c, Matches(corpus, prefix, lo, maxSuffix, d));
      }
    }

    /** Nothing is proposed only when nothing can be. */
    lemma AnswersWhenItCan(r: seq<Candidate>, prefix: seq<Token>, d: nat, limit: int)
      requires limit > 0 && 0 < d && IsEarlyExitAnswer(r, corpus, prefix, ngram, maxSuffix, d, limit)
      ensures r != [] <==> CanDraft(prefix)
    {
      var level: nat :| && ngram <= level
                        && IsTop(r, Matches(corpus, prefix, level, maxSuffix, d), limit)
                        && (level == ngram || |r| == limit);
      if r != [] {
        TopIsFromPool(r, Matches(corpus, prefix, level, maxSuffix, d), limit);
        assert Usable(corpus, prefix, r[0].matched, r[0].matchStart);
      } else if CanDraft(prefix) {
        var m: nat, s: nat :| ngram <= m <= maxSuffix && Usable(corpus, prefix, m, s);
        var leader := LeaderExists(Draft(corpus, m, s, d), corpus, prefix, ngram, maxSuffix, d);
        assert false;
      }
    }

    lemma OneIsLongest(r: seq<Candidate>, prefix: seq<Token>, d: nat)
      requires 0 < d <= 101 && r != [] && IsTop(r, Matches(corpus, prefix, ngram, maxSuffix, d), 1)
      ensures |r| == 1 && IsLongestMatch(r[0], prefix, d)
    {
      forall m: nat, s: nat | ngram <= m <= maxSuffix && Usable(corpus, prefix, m, s)
        ensures r[0].matched >= m
        ensures r[0].matched == m ==> |r[0].tokens| >= Min(d, |corpus| - s - m)
        ensures r[0].matched == m && |r[0].tokens| == Min(d, |corpus| - s - m) ==> r[0].matchStart <= s
      {
        SingleDraftIsLongestMatch(r, Draft(corpus, m, s, d), corpus, prefix, ngram, maxSuffix, d);
      }
    }

    /** The suffix lengths from the longest down, leaving at the first level that fills `limit`. */
    method SearchLevels(prefix: seq<Token>, d: nat, limit: int)
      returns (best: map<seq<Token>, Candidate>, ghost level: nat)
      requires Valid() && limit > 0 && 0 < d
      ensures ngram <= level && HoldsLeaders(best, Matches(corpus, prefix, level, maxSuffix, d))
      ensures level == ngram || |best| >= limit
      ensures Unfilled(level, prefix, d, limit)
    {
      best := map[];
      var m := Min(maxSuffix, |prefix|);
      level := Max(m + 1, ngram);
      NoneFill(best, level - 1, prefix, d, limit);
      while m >= ngram
        invariant m <= Min(maxSuffix, |prefix|) && level == Max(m + 1, ngram)
        invariant HoldsLeaders(best, Matches(corpus, prefix, level, maxSuffix, d))
        invariant Unfilled(level - 1, prefix, d, limit)
      {
        best := ScanLevel(prefix, m, maxSuffix, d, best);
        level := m;
        m := m - 1;
        if |best| >= limit {
          break;
        }
        NoneFill(best, level - 1, prefix, d, limit);
      }
    }

    /** No level above `m` fills `limit`. */
    ghost predicate Unfilled(m: nat, prefix: seq<Token>, d: nat, limit: int) {
      forall k: nat, t :: m < k && IsTop(t, Matches(corpus, prefix, k, maxSuffix, d), limit) ==> |t| < limit
    }

    lemma NoneFill(best: map<seq<Token>, Candidate>, m: nat, prefix: seq<Token>, d: nat, limit: int)
      requires HoldsLeaders(best, Matches(corpus, prefix, m + 1, maxSuffix, d)) && |best| < limit
      requires m < Min(maxSuffix, |prefix|) ==> Unfilled(m + 1, prefix, d, limit)
      ensures Unfilled(m, prefix, d, limit)
    {
      forall k: nat, t | m < k && IsTop(t, Matches(corpus, prefix, k, maxSuffix, d), limit) ensures |t| < limit {
        if k == m + 1 {
          RankingFits(best, t, Matches(corpus, prefix, k, maxSuffix, d), limit);
        } else if m >= Min(maxSuffix, |prefix|) && t != [] {
          TopIsFromPool(t, Matches(corpus, prefix, k, maxSuffix, d), limit);
        }
      }
    }

    lemma NothingUsable(prefix: seq<Token>, d: nat, limit: int)
      requires Valid()
      requires limit <= 0 || corpus == [] || index == map[] || d <= 0 || |prefix| < ngram
      ensures Answers([], prefix, d, limit)
      ensures limit > 0 && d > 0 ==> !CanDraft(prefix)
    {
      if limit > 0 {
        forall c, k: nat | ngram <= k ensures c !in Matches(corpus, prefix, k, maxSuffix, d) {
          assert |corpus| < ngram || Gram(corpus, 0, ngram) in index;
        }
        forall m: nat, t | ngram < m && IsTop(t, Matches(corpus, prefix, m, maxSuffix, d), limit) ensures |t| < limit {
          if t != [] {
            TopIsFromPool(t, Matches(corpus, prefix, m, maxSuffix, d), limit);
          }
        }
        assert IsTop([], Matches(corpus, prefix, ngram, maxSuffix, d), limit);
        if d > 0 {
          AnswersWhenItCan([], prefix, d, limit);
        }
      }
    }

    lemma TotalOnMatches(prefix: seq<Token>, lo: nat, hi: int, d: nat)
      ensures forall a <- Matches(corpus, prefix, lo, hi, d), b <- Matches(corpus, prefix, lo, hi, d) ::
                a == b || a.Before(b) || b.Before(a)
    {
    }

    lemma CutIsTop(ranked: seq<Candidate>, pool: iset<Candidate>, limit: nat)
      requires forall i, j :: 0 <= i < j < |ranked| ==> ranked[i].Before(ranked[j])
      requires forall c :: c in ranked <==> Leads(c, pool)
      ensures IsTop(ranked[..Min(limit, |ranked|)], pool, limit)
    {
      var r := ranked[..Min(limit, |ranked|)];
      forall c <- r ensures Leads(c, pool) {
        assert c in ranked;
      }
    }

    /** The matches longer than `m`, and those of length `m` at one of the given n-gram positions. */
    ghost function Seen(prefix: seq<Token>, m: nat, hi: nat, d: nat, positions: seq<nat>): iset<Candidate>
      requires ngram <= m
    {
      Matches(corpus, prefix, m + 1, hi, d)
      + iset c: Candidate | IsMatch(c, corpus, prefix, m, m, d) && c.matchStart + (m - ngram) in positions
    }

    lemma SeenStep(prefix: seq<Token>, m: nat, hi: nat, d: nat, before: seq<nat>, p: nat)
      requires Valid() && ngram <= m <= hi && m <= |prefix| && 0 < d
      ensures var s := p - (m - ngram);
              var more := Seen(prefix, m, hi, d, before + [p]);
              more == if 0 <= s && Usable(corpus, prefix, m, s)
                      then Seen(prefix, m, hi, d, before) + iset{Draft(corpus, m, s, d)}
                      else Seen(prefix, m, hi, d, before)
    {
    }

    lemma SeenIsTotal(prefix: seq<Token>, m: nat, hi: nat, d: nat, before: seq<nat>, c: Candidate)
      requires Valid() && ngram <= m <= hi && m <= |prefix| && 0 < d
      requires IsMatch(c, corpus, prefix, m, m, d)
      ensures forall o <- Seen(prefix, m, hi, d, before) :: o == c || o.Before(c) || c.Before(o)
    {
      forall o <- Seen(prefix, m, hi, d, before) ensures o == c || o.Before(c) || c.Before(o) {
        BeforeIsTotal(o, c, corpus, prefix, m, hi, d);
      }
    }

    lemma SeenAll(prefix: seq<Token>, m: nat, hi: nat, d: nat, positions: seq<nat>)
      requires Valid() && ngram <= m <= hi && m <= |prefix| && 0 < d
      requires var needle := prefix[|prefix| - ngram..];
               positions == Positions(index, needle)
      ensures Seen(prefix, m, hi, d, positions) == Matches(corpus, prefix, m, hi, d)
    {
      forall c | IsMatch(c, corpus, prefix, m, m, d) ensures c.matchStart + (m - ngram) in positions {
        var p := c.matchStart + (m - ngram);
        assert corpus[c.matchStart..c.matchStart + m][m - ngram..] == Gram(corpus, p, ngram);
        assert prefix[|prefix| - m..][m - ngram..] == prefix[|prefix| - ngram..];
      }
    }

    /** One position of the index: check the whole suffix there and keep its draft if it is the better one. */
    method ScanPosition(prefix: seq<Token>, m: nat, ghost hi: nat, d: nat, best: map<seq<Token>, Candidate>,
                        ghost before: seq<nat>, p: nat)
      returns (kept: map<seq<Token>, Candidate>)
      requires Valid() && ngram <= m <= hi && m <= |prefix| && 0 < d
      requires HoldsLeaders(best, Seen(prefix, m, hi, d, before))
      ensures HoldsLeaders(kept, Seen(prefix, m, hi, d, before + [p]))
    {
      ghost var pool := Seen(prefix, m, hi, d, before);
      var matchStart := p - (m - ngram);
      if 0 <= matchStart && matchStart + m < |corpus| && corpus[matchStart..matchStart + m] == prefix[|prefix| - m..] {
        var sourceStart := matchStart + m;
        var sourceEnd := Min(sourceStart + d, |corpus|);
        var candidate := Candidate(corpus[sourceStart..sourceEnd], m, matchStart, sourceStart);
        SeenIsTotal(prefix, m, hi, d, before, candidate);
        kept := Keep(best, candidate, pool);
        assert Seen(prefix, m, hi, d, before + [p]) == pool + iset{candidate} by {
          SeenStep(prefix, m, hi, d, before, p);
        }
      } else {
        kept := best;
        assert Seen(prefix, m, hi, d, before + [p]) == pool by {
          SeenStep(prefix, m, hi, d, before, p);
        }
      }
    }

    /** One suffix length of the search: every position the index lists for its last n-gram. */
    method ScanLevel(prefix: seq<Token>, m: nat, ghost hi: nat, d: nat, best0: map<seq<Token>, Candidate>)
      returns (best: map<seq<Token>, Candidate>)
      requires Valid() && ngram <= m <= hi && m <= |prefix| && 0 < d
      requires HoldsLeaders(best0, Matches(corpus, prefix, m + 1, hi, d))
      ensures HoldsLeaders(best, Matches(corpus, prefix, m, hi, d))
    {
      best := best0;
      var needle := prefix[|prefix| - ngram..];
      var positions := Positions(index, needle);
      assert Seen(prefix, m, hi, d, positions[..0]) == Matches(corpus, prefix, m + 1, hi, d);
      for i := 0 to |positions|
        invariant HoldsLeaders(best, Seen(prefix, m, hi, d, positions[..i]))
      {
        best := ScanPosition(prefix, m, hi, d, best, positions[..i], positions[i]);
        assert positions[..i + 1] == positions[..i] + [positions[i]];
      }
      assert positions[..|positions|] == positions;
      SeenAll(prefix, m, hi, d, positions);
    }
  }

  method Keep(best: map<seq<Token>, Candidate>, c: Candidate, ghost pool: iset<Candidate>)
    returns (kept: map<seq<Token>, Candidate>)
    requires HoldsLeaders(best, pool)
    requires forall o <- pool :: o == c || o.Before(c) || c.Before(o)
    ensures HoldsLeaders(kept, pool + iset{c})
  {
    KeepBetter(best, c, pool);
    kept := if c.tokens !in best || c.Before(best[c.tokens]) then best[c.tokens := c] else best;
  }
}
