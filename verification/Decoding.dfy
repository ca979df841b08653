/**
 Verified speculative decoding.

 The target is a deterministic function from a prefix to the next token.  A
 service may also offer span verification, in either of two shapes, and a
 native tail generator.  A verifier need not be deterministic: its answer may
 depend on the number of the call.  It only has to be sound.  The boosted loop
 is then proved to return exactly what plain greedy decoding returns.
 */
module Decoding {
  import opened Wrappers
  import opened Drafter

  type Target = seq<Token> -> Option<Token>

  /** A detailed verification: accepted draft tokens, the corrected token, and the token after a full match. */
  datatype Verdict = Verdict(accepted: int, residual: Option<Token>, bonus: Option<Token>)

  /** The two shapes a plain `verify` may answer in. */
  datatype VerifyResult = Count(accepted: int) | CountAndResidual(accepted: int, residual: Option<Token>)

  /** A natively generated tail and the pieces it was streamed in. */
  datatype Tail = Tail(tokens: seq<Token>, chunks: seq<seq<Token>>)

  datatype Service = Service(
    next: Target,
    verification: Option<(nat, seq<Token>, seq<Token>) -> Option<Verdict>>,
    verify: Option<(nat, seq<Token>, seq<Token>) -> VerifyResult>,
    continueTokens: Option<(seq<Token>, int, set<Token>) -> Option<Tail>>)

  // ---------------------------------------------------------------- plain greedy decoding

  /** At most `n` greedy tokens after `prefix`, ending before a stop token or where the target ends. */
  function Serial(next: Target, prefix: seq<Token>, n: nat, stops: set<Token>): seq<Token>
    decreases n
  {
    if n == 0 then []
    else match next(prefix)
      case None => []
      case Some(t) => if t in stops then [] else [t] + Serial(next, prefix + [t], n - 1, stops)
  }

  /** Every token of `tokens` is the one the target chooses at its place. */
  ghost predicate Greedy(next: Target, prefix: seq<Token>, tokens: seq<Token>) {
    forall i :: 0 <= i < |tokens| ==> next(prefix + tokens[..i]) == Some(tokens[i])
  }

  /** What greedy decoding means: a greedy, stop-free run that is maximal within `n` tokens. */
  ghost predicate IsGreedyRun(next: Target, prefix: seq<Token>, n: nat, stops: set<Token>, tokens: seq<Token>) {
    && |tokens| <= n
    && Greedy(next, prefix, tokens)
    && (forall t <- tokens :: t !in stops)
    && (|tokens| < n ==> var t := next(prefix + tokens); t.None? || t.value in stops)
  }

  lemma GreedyCons(next: Target, prefix: seq<Token>, t: Token, tokens: seq<Token>)
    ensures Greedy(next, prefix, [t] + tokens) <==> next(prefix) == Some(t) && Greedy(next, prefix + [t], tokens)
  {
    var all := [t] + tokens;
    assert prefix + all[..0] == prefix;
    forall i | 0 <= i < |tokens| ensures prefix + all[..i + 1] == (prefix + [t]) + tokens[..i] {}
    if Greedy(next, prefix, all) {
      assert next(prefix + all[..0]) == Some(all[0]);
      forall i | 0 <= i < |tokens| ensures next((prefix + [t]) + tokens[..i]) == Some(tokens[i]) {
        assert next(prefix + all[..i + 1]) == Some(all[i + 1]);
      }
    }
  }

  lemma GreedySnoc(next: Target, prefix: seq<Token>, tokens: seq<Token>, t: Token)
    requires Greedy(next, prefix, tokens) && next(prefix + tokens) == Some(t)
    ensures Greedy(next, prefix, tokens + [t])
  {
    var all := tokens + [t];
    assert all[..|tokens|] == tokens;
    forall i | 0 <= i < |tokens| ensures next(prefix + all[..i]) == Some(all[i]) {
      assert all[..i] == tokens[..i];
    }
  }

  lemma RunCons(next: Target, prefix: seq<Token>, n: nat, stops: set<Token>, t: Token, rest: seq<Token>)
    requires n > 0
    ensures IsGreedyRun(next, prefix, n, stops, [t] + rest)
            <==> next(prefix) == Some(t) && t !in stops && IsGreedyRun(next, prefix + [t], n - 1, stops, rest)
  {
    GreedyCons(next, prefix, t, rest);
    assert prefix + [t] + rest == prefix + ([t] + rest);
    assert forall x :: x in [t] + rest <==> x == t || x in rest;
  }

  /** `Serial` is the only maximal greedy run. */
  lemma {:induction false} SerialIsTheGreedyRun(next: Target, prefix: seq<Token>, n: nat, stops: set<Token>,
                                                tokens: seq<Token>)
    ensures IsGreedyRun(next, prefix, n, stops, tokens) <==> tokens == Serial(next, prefix, n, stops)
    decreases n
  {
    if tokens == [] {
      assert prefix + [] == prefix;
    } else if n > 0 {
      var t, rest := tokens[0], tokens[1..];
      assert tokens == [t] + rest;
      RunCons(next, prefix, n, stops, t, rest);
      SerialIsTheGreedyRun(next, prefix + [t], n - 1, stops, rest);
    }
  }

  /** The reference loop. */
  method MeasureBaseline(next: Target, prompt: seq<Token>, maxTokens: int, stops: set<Token>)
    returns (generated: seq<Token>)
    ensures generated == Serial(next, prompt, Max(0, maxTokens), stops)
  {
    generated := [];
    NothingYet(next, prompt, Max(0, maxTokens), stops);
    while |generated| < maxTokens
      invariant Advances(next, prompt, Max(0, maxTokens), stops, generated, false)
    {
      var token := next(prompt + generated);
      if token.None? || token.value in stops {
        AdvancesTwice(next, prompt, maxTokens, stops, generated, [], true);
        assert generated + [] == generated;
        return;
      }
      AdvancesTwice(next, prompt, maxTokens, stops, generated, [token.value], false);
      generated := generated + [token.value];
    }
  }

  // ---------------------------------------------------------------- progress along the serial run

  /**
   `chunk` is the next part of the serial run after `prefix`: all the rest of it
   when `stopped`, and otherwise a part after which the serial run goes on.
   */
  ghost predicate Advances(next: Target, prefix: seq<Token>, room: nat, stops: set<Token>, chunk: seq<Token>,
                           stopped: bool)
  {
    && |chunk| <= room
    && Serial(next, prefix, room, stops)
       == chunk + if stopped then [] else Serial(next, prefix + chunk, room - |chunk|, stops)
  }

  lemma NothingYet(next: Target, prefix: seq<Token>, room: nat, stops: set<Token>)
    ensures Advances(next, prefix, room, stops, [], false)
  {
    assert prefix + [] == prefix;
  }

  lemma AdvancesTwice(next: Target, prefix: seq<Token>, room: nat, stops: set<Token>,
                      first: seq<Token>, second: seq<Token>, stopped: bool)
    requires Advances(next, prefix, room, stops, first, false)
    requires Advances(next, prefix + first, room - |first|, stops, second, stopped)
    ensures Advances(next, prefix, room, stops, first + second, stopped)
  {
    assert prefix + (first + second) == (prefix + first) + second;
  }

  /** The tokens before the first stop token, and whether there was one. */
  function WithoutStopTokens(tokens: seq<Token>, stops: set<Token>): (seq<Token>, bool) {
    if tokens == [] then ([], false)
    else if tokens[0] in stops then ([], true)
    else
      var (visible, stopped) := WithoutStopTokens(tokens[1..], stops);
      ([tokens[0]] + visible, stopped)
  }

  method TakeVisible(tokens: seq<Token>, stops: set<Token>) returns (visible: seq<Token>, stopped: bool)
    ensures (visible, stopped) == WithoutStopTokens(tokens, stops)
  {
    visible, stopped := [], false;
    assert tokens[0..] == tokens;
    assert visible + WithoutStopTokens(tokens, stops).0 == WithoutStopTokens(tokens, stops).0;
    for i := 0 to |tokens|
      invariant var rest := WithoutStopTokens(tokens[i..], stops);
                WithoutStopTokens(tokens, stops) == (visible + rest.0, rest.1)
    {
      if tokens[i] in stops {
        assert visible + [] == visible;
        return visible, true;
      }
      ghost var rest := WithoutStopTokens(tokens[i + 1..], stops).0;
      assert tokens[i..][1..] == tokens[i + 1..];
      assert visible + ([tokens[i]] + rest) == visible + [tokens[i]] + rest;
      visible := visible + [tokens[i]];
    }
    assert visible + [] == visible;
  }

  lemma {:induction false} VisibleIsPrefix(tokens: seq<Token>, stops: set<Token>)
    ensures var (visible, stopped) := WithoutStopTokens(tokens, stops);
            && visible <= tokens
            && (forall t <- visible :: t !in stops)
            && (stopped <==> |visible| < |tokens|)
            && (stopped ==> tokens[|visible|] in stops)
  {
    if tokens != [] && tokens[0] !in stops {
      VisibleIsPrefix(tokens[1..], stops);
      assert tokens == [tokens[0]] + tokens[1..];
    }
  }

  /** A greedy span, cut at its first stop token, is the next part of the serial run. */
  lemma {:induction false} GreedySpanAdvances(next: Target, prefix: seq<Token>, room: nat, stops: set<Token>,
                                              span: seq<Token>)
    requires |span| <= room && Greedy(next, prefix, span)
    ensures var (visible, stopped) := WithoutStopTokens(span, stops);
            Advances(next, prefix, room, stops, visible, stopped)
    decreases |span|
  {
    if span == [] {
      assert prefix + [] == prefix;
    } else {
      var t, rest := span[0], span[1..];
      assert span == [t] + rest;
      GreedyCons(next, prefix, t, rest);
      if t !in stops {
        GreedySpanAdvances(next, prefix + [t], room - 1, stops, rest);
        var (visible, stopped) := WithoutStopTokens(rest, stops);
        AdvancesTwice(next, prefix, room, stops, [t], visible, stopped);
      }
    }
  }

  // ---------------------------------------------------------------- what a verifier must promise

  /** Every accepted token is greedy, and any continuation is the target's token right after them. */
  ghost predicate SoundVerdict(next: Target, prefix: seq<Token>, span: seq<Token>, v: Verdict) {
    && 0 <= v.accepted <= |span|
    && Greedy(next, prefix, span[..v.accepted])
    && (v.residual.Some? ==> next(prefix + span[..v.accepted]) == v.residual)
    && (v.bonus.Some? ==> next(prefix + span[..v.accepted]) == v.bonus)
  }

  function Clamp(accepted: int, n: nat): nat {
    Max(0, Min(accepted, n))
  }

  /** The verifier is sound on every prefix that extends the prompt, and on every call. */
  ghost predicate Sound(s: Service, prompt: seq<Token>) {
    && (s.verification.Some? ==>
          forall call: nat, prefix: seq<Token>, span: seq<Token> ::
            var v := s.verification.value(call, prefix, span);
            prompt <= prefix && v.Some? ==>
              SoundVerdict(s.next, prefix, span, v.value.(accepted := Clamp(v.value.accepted, |span|))))
    && (s.verify.Some? ==>
          forall call: nat, prefix: seq<Token>, span: seq<Token> ::
            var r := s.verify.value(call, prefix, span);
            prompt <= prefix ==> SoundVerdict(s.next, prefix, span, FromVerify(r, |span|)))
  }

  function FromVerify(r: VerifyResult, n: nat): Verdict {
    match r
    case Count(accepted) => Verdict(Clamp(accepted, n), None, None)
    case CountAndResidual(accepted, residual) => Verdict(Clamp(accepted, n), residual, None)
  }

  /** The black-box fallback: ask the target token by token, from the `k`-th token of the span on. */
  function BlackBox(next: Target, prefix: seq<Token>, span: seq<Token>, k: nat): (v: Verdict)
    requires k <= |span|
    ensures k <= v.accepted <= |span|
    decreases |span| - k
  {
    if k == |span| then Verdict(k, None, None)
    else match next(prefix + span[..k])
      case None => Verdict(k, None, None)
      case Some(t) => if t != span[k] then Verdict(k, Some(t), None) else BlackBox(next, prefix, span, k + 1)
  }

  /** The verdict the service reaches: detailed verification first, then `verify`, then the black box. */
  function VerdictOf(s: Service, call: nat, prefix: seq<Token>, span: seq<Token>): (v: Verdict)
    ensures 0 <= v.accepted <= |span|
  {
    if s.verification.Some? && s.verification.value(call, prefix, span).Some? then
      var v := s.verification.value(call, prefix, span).value;
      v.(accepted := Clamp(v.accepted, |span|))
    else if s.verify.Some? then
      FromVerify(s.verify.value(call, prefix, span), |span|)
    else
      BlackBox(s.next, prefix, span, 0)
  }

  /** The fallback accepts as much as the target agrees with, and reports the token the target wants instead. */
  lemma {:induction false} BlackBoxIsLongestAgreement(next: Target, prefix: seq<Token>, span: seq<Token>, k: nat)
    requires k <= |span| && Greedy(next, prefix, span[..k])
    ensures var v := BlackBox(next, prefix, span, k);
            && Greedy(next, prefix, span[..v.accepted]) && v.bonus == None
            && (v.accepted < |span| ==>
                  v.residual == next(prefix + span[..v.accepted]) && v.residual != Some(span[v.accepted]))
            && (v.accepted == |span| ==> v.residual == None)
    decreases |span| - k
  {
    if k < |span| && next(prefix + span[..k]) == Some(span[k]) {
      GreedySnoc(next, prefix, span[..k], span[k]);
      assert span[..k + 1] == span[..k] + [span[k]];
      BlackBoxIsLongestAgreement(next, prefix, span, k + 1);
    }
  }

  lemma {:induction false} BlackBoxIsSound(next: Target, prefix: seq<Token>, span: seq<Token>, k: nat)
    requires k <= |span| && Greedy(next, prefix, span[..k])
    ensures SoundVerdict(next, prefix, span, BlackBox(next, prefix, span, k))
    decreases |span| - k
  {
    if k < |span| && next(prefix + span[..k]) == Some(span[k]) {
      GreedySnoc(next, prefix, span[..k], span[k]);
      assert span[..k + 1] == span[..k] + [span[k]];
      BlackBoxIsSound(next, prefix, span, k + 1);
    }
  }

  /** Whatever a sound service offers, the verdict reached is sound; the black box needs no assumption. */
  lemma VerdictIsSound(s: Service, prompt: seq<Token>, call: nat, prefix: seq<Token>, span: seq<Token>)
    requires Sound(s, prompt) && prompt <= prefix
    ensures SoundVerdict(s.next, prefix, span, VerdictOf(s, call, prefix, span))
  {
    if s.verification.Some? && s.verification.value(call, prefix, span).Some? {
    } else if s.verify.Some? {
    } else {
      BlackBoxIsSound(s.next, prefix, span, 0);
    }
  }

  /** A verifier that rejects the first token says which token the target wanted, if it wanted one. */
  ghost predicate HonestRejection(s: Service, prompt: seq<Token>) {
    && s.verify.Some?
    && forall call: nat, prefix: seq<Token>, span: seq<Token> {:trigger VerdictOf(s, call, prefix, span)} ::
         var v := VerdictOf(s, call, prefix, span);
         prompt <= prefix && span != [] && v.accepted == 0 && s.next(prefix).Some? ==> v.residual.Some?
  }

  function Flatten(chunks: seq<seq<Token>>): seq<Token> {
    if chunks == [] then [] else Flatten(chunks[..|chunks| - 1]) + chunks[|chunks| - 1]
  }

  lemma {:induction false} FlattenAppend(a: seq<seq<Token>>, b: seq<seq<Token>>)
    ensures Flatten(a + b) == Flatten(a) + Flatten(b)
  {
    if b == [] {
      assert a + b == a;
    } else {
      var init := b[..|b| - 1];
      FlattenAppend(a, init);
      assert (a + b)[..|a + b| - 1] == a + init;
    }
  }

  ghost predicate NonEmptyChunks(chunks: seq<seq<Token>>) {
    forall c <- chunks :: c != []
  }

  /** What a callback receives for a chunk: nothing when the chunk is empty. */
  function Pieces(chunk: seq<Token>): (r: seq<seq<Token>>)
    ensures Flatten(r) == chunk && NonEmptyChunks(r) && |r| <= 1
  {
    assert [] + chunk == chunk;
    assert [chunk][..0] == [];
    if chunk == [] then [] else [chunk]
  }

  /** The native tail generator returns the serial tail, and streams what it returns. */
  ghost predicate TailIsSerial(s: Service, prompt: seq<Token>) {
    s.continueTokens.Some? ==>
      forall prefix: seq<Token>, n: nat, stops: set<Token> ::
        var tail := s.continueTokens.value(prefix, n, stops);
        prompt <= prefix && tail.Some? ==>
                       && tail.value.tokens == Serial(s.next, prefix, n, stops)
                       && Flatten(tail.value.chunks) == tail.value.tokens
                       && NonEmptyChunks(tail.value.chunks)
  }

  // ---------------------------------------------------------------- committing a verified span

  /** The accepted tokens that are shown, the tokens committed, and whether a stop token ended the run. */
  datatype Commit = Commit(visible: seq<Token>, chunk: seq<Token>, stopped: bool)

  function CommitSpan(span: seq<Token>, v: Verdict, room: nat, stops: set<Token>): Commit
    requires 0 <= v.accepted <= |span|
  {
    var (visible, stopped) := WithoutStopTokens(span[..v.accepted], stops);
    var continuation := if v.residual.Some? then v.residual else v.bonus;
    if !stopped && continuation.Some? && |visible| < room then
      if continuation.value in stops then Commit(visible, visible, true)
      else Commit(visible, visible + [continuation.value], false)
    else
      Commit(visible, visible, stopped)
  }

  /** Committing a sound verdict on a span moves along the serial run, by at least one token unless it ends there. */
  lemma CommitAdvances(next: Target, prefix: seq<Token>, span: seq<Token>, v: Verdict, room: nat, stops: set<Token>)
    requires SoundVerdict(next, prefix, span, v) && 0 < v.accepted && |span| <= room
    ensures var c := CommitSpan(span, v, room, stops);
            && Advances(next, prefix, room, stops, c.chunk, c.stopped)
            && (!c.stopped ==> c.visible != [])
            && |c.visible| <= |c.chunk| <= |c.visible| + 1
            && |c.chunk| <= |span| + 1
  {
    var accepted := span[..v.accepted];
    var (visible, stopped) := WithoutStopTokens(accepted, stops);
    VisibleIsPrefix(accepted, stops);
    GreedySpanAdvances(next, prefix, room, stops, accepted);
    var continuation := if v.residual.Some? then v.residual else v.bonus;
    if !stopped && continuation.Some? && |visible| < room {
      assert visible == accepted;
      if continuation.value in stops {
        AdvancesTwice(next, prefix, room, stops, visible, [], true);
        assert visible + [] == visible;
      } else {
        AdvancesTwice(next, prefix, room, stops, visible, [continuation.value], false);
      }
    }
  }

  /** What a verdict tells of the run: the accepted tokens and the one it names after them. */
  function Told(span: seq<Token>, v: Verdict): seq<Token>
    requires 0 <= v.accepted <= |span|
  {
    span[..v.accepted] + if v.residual.Some? then [v.residual.value] else if v.bonus.Some? then [v.bonus.value] else []
  }

  ghost predicate IsStopFreePart(chunk: seq<Token>, stopped: bool, tokens: seq<Token>, stops: set<Token>) {
    && chunk <= tokens && (forall t <- chunk :: t !in stops)
    && (stopped <==> |chunk| < |tokens|) && (stopped ==> tokens[|chunk|] in stops)
  }

  /** All that a verdict tells is committed, up to the first stop token and the room there is. */
  lemma CommitIsAllToldOf(span: seq<Token>, v: Verdict, room: nat, stops: set<Token>)
    requires 0 <= v.accepted <= |span| <= room
    ensures var c := CommitSpan(span, v, room, stops);
            && IsStopFreePart(c.chunk, c.stopped, Told(span, v)[..Min(room, |Told(span, v)|)], stops)
            && c.visible == c.chunk[..Min(v.accepted, |c.chunk|)]
  {
    var accepted := span[..v.accepted];
    VisibleIsPrefix(accepted, stops);
    var visible := WithoutStopTokens(accepted, stops).0;
    var told := Told(span, v);
    assert told[..v.accepted] == accepted;
    if visible == accepted && |told| > v.accepted && v.accepted < room {
      assert told == accepted + [told[v.accepted]];
      assert told[..Min(room, |told|)] == told;
    } else {
      assert visible[..|visible|] == visible;
    }
  }

  lemma FullSpanIsCommitted(span: seq<Token>, v: Verdict, room: nat, stops: set<Token>)
    requires v.accepted == |span| <= room && forall t <- span :: t !in stops
    ensures var c := CommitSpan(span, v, room, stops); c.visible == span && span <= c.chunk
  {
    CommitIsAllToldOf(span, v, room, stops);
    var c := CommitSpan(span, v, room, stops);
    assert span[..|span|] == span;
    assert forall i :: 0 <= i < |span| ==> Told(span, v)[i] == span[i] && span[i] in span;
  }

  // ---------------------------------------------------------------- accounting

  datatype RunStats = RunStats(
    generatedTokens: nat,
    baselineTargetCalls: nat,
    verifyCalls: nat,
    nextTokenCalls: nat,
    candidateRounds: nat,
    acceptedDraftTokens: nat,
    acceptedDraftSpans: nat,
    rejectedCandidates: nat)
  {
    function TargetCalls(): nat {
      verifyCalls + nextTokenCalls
    }

    function EstimatedSpeedup(): real {
      if TargetCalls() <= 0 then 1.0 else baselineTargetCalls as real / TargetCalls() as real
    }
  }

  /** The product `k * n`, as repeated addition. */
  ghost function Times(k: nat, n: nat): nat {
    if n == 0 then 0 else k + Times(k, n - 1)
  }

  lemma {:induction false} TimesIsProduct(k: nat, n: nat)
    ensures Times(k, n) == k * n
  {
    if n > 0 {
      TimesIsProduct(k, n - 1);
    }
  }

  /** The limits that the bounds depend on. */
  datatype Limits = Limits(candidates: nat, draft: nat, verifies: bool, honest: bool)

  /** The bounds that hold between iterations (`done` false) and after the last one (`done` true). */
  ghost predicate WithinBounds(s: RunStats, k: Limits, done: bool) {
    var over := if done then 1 else 0;
    && s.baselineTargetCalls == s.generatedTokens
    && s.acceptedDraftSpans <= s.acceptedDraftTokens <= s.generatedTokens
    && s.acceptedDraftSpans + s.rejectedCandidates <= s.candidateRounds
    && s.candidateRounds <= s.acceptedDraftSpans + s.rejectedCandidates + over
    && s.generatedTokens - s.acceptedDraftTokens <= s.TargetCalls()
    && WithinCalls(s.generatedTokens, s.TargetCalls(), k, over)
  }

  /** Each call yields at most a draft and a token; each token, and each way to end, costs a bounded number of calls. */
  ghost predicate WithinCalls(generated: nat, calls: nat, k: Limits, over: nat) {
    && generated <= Times(k.draft + 1, calls)
    && (k.verifies ==> calls <= Times(k.candidates + 1, generated + over))
    && (k.honest ==> calls <= Times(k.candidates, generated + over) + over)
  }

  lemma CallsAddUp(g: nat, c: nat, g': nat, c': nat, k: Limits, over: nat)
    requires WithinCalls(g, c, k, 0) && WithinCalls(g', c', k, over)
    ensures WithinCalls(g + g', c + c', k, over)
  {
    Distribute(k.draft + 1, c, c');
    Distribute(k.candidates + 1, g, g' + over);
    Distribute(k.candidates, g, g' + over);
  }

  function Plus(a: RunStats, b: RunStats): RunStats {
    RunStats(a.generatedTokens + b.generatedTokens, a.baselineTargetCalls + b.baselineTargetCalls,
             a.verifyCalls + b.verifyCalls, a.nextTokenCalls + b.nextTokenCalls,
             a.candidateRounds + b.candidateRounds, a.acceptedDraftTokens + b.acceptedDraftTokens,
             a.acceptedDraftSpans + b.acceptedDraftSpans, a.rejectedCandidates + b.rejectedCandidates)
  }

  const NoWork := RunStats(0, 0, 0, 0, 0, 0, 0, 0)

  const OneCall := RunStats(0, 0, 0, 1, 0, 0, 0, 0)

  lemma NoWorkIsWithinBounds(k: Limits)
    ensures WithinBounds(NoWork, k, false)
  {
    assert Times(k.draft + 1, 0) == Times(k.candidates + 1, 0) == Times(k.candidates, 0) == 0;
  }

  /** The bounds of two consecutive parts of a run add up. */
  lemma BoundsAddUp(a: RunStats, b: RunStats, k: Limits, done: bool)
    requires WithinBounds(a, k, false) && WithinBounds(b, k, done)
    ensures WithinBounds(Plus(a, b), k, done)
  {
    CallsAddUp(a.generatedTokens, a.TargetCalls(), b.generatedTokens, b.TargetCalls(), k, if done then 1 else 0);
  }

  lemma {:induction false} Distribute(k: nat, a: nat, b: nat)
    ensures Times(k, a + b) == Times(k, a) + Times(k, b)
  {
    if a > 0 {
      Distribute(k, a - 1, b);
    }
  }

  lemma {:induction false} AtLeastEach(k: nat, n: nat)
    requires k >= 1
    ensures n <= Times(k, n)
  {
    if n > 0 {
      AtLeastEach(k, n - 1);
    }
  }

  /** The estimated speedup is never more than one draft and one token per target call. */
  lemma SpeedupIsBounded(s: RunStats, k: Limits, done: bool)
    requires WithinBounds(s, k, done)
    ensures s.EstimatedSpeedup() <= (k.draft + 1) as real
  {
    if s.TargetCalls() > 0 {
      TimesAsReal(k.draft + 1, s.TargetCalls());
      DivideBound(s.baselineTargetCalls as real, s.TargetCalls() as real, (k.draft + 1) as real);
    }
  }

  /** The estimated speedup is tokens per call: above one exactly when the run took fewer calls than tokens. */
  lemma SpeedupIsTokensPerCall(s: RunStats)
    ensures s.TargetCalls() > 0 ==>
      s.EstimatedSpeedup() * (s.verifyCalls + s.nextTokenCalls) as real == s.baselineTargetCalls as real
    ensures s.TargetCalls() == 0 ==> s.EstimatedSpeedup() == 1.0
    ensures s.TargetCalls() > 0 ==>
      (s.EstimatedSpeedup() > 1.0 <==> s.verifyCalls + s.nextTokenCalls < s.baselineTargetCalls)
  {
    if s.TargetCalls() > 0 {
      QuotientIs(s.baselineTargetCalls as real, s.TargetCalls() as real);
    }
  }

  lemma QuotientIs(a: real, b: real)
    requires b > 0.0
    ensures a / b * b == a
    ensures a / b > 1.0 <==> a > b
  {
    assert (a / b - 1.0) * b == a - b;
  }

  lemma {:induction false} TimesAsReal(k: nat, n: nat)
    ensures Times(k, n) as real == n as real * k as real
  {
    if n > 0 {
      TimesAsReal(k, n - 1);
    }
  }

  lemma DivideBound(a: real, b: real, c: real)
    requires b > 0.0 && a <= b * c
    ensures a / b <= c
  {
    assert c == (b * c) / b;
    assert (b * c - a) / b >= 0.0;
  }

  // ---------------------------------------------------------------- the boosted loop

  /** What one pass over the candidates did: the commit or the fallback token, and the work spent. */
  datatype Trial = Trial(commit: Option<Commit>, fallback: Option<Token>, work: RunStats)

  /** One iteration: the tokens added, the pieces streamed, whether the run ended, and the probe budget left. */
  datatype Step = Step(chunk: seq<Token>, emitted: seq<seq<Token>>, done: bool, probe: int, work: RunStats)

  /** A round of a run: the state it began in, the candidates tried, and the step taken. */
  datatype Round = Round(generated: seq<Token>, streamed: seq<seq<Token>>, stats: RunStats, probe: int,
                         candidates: seq<Candidate>, step: Step)

  predicate HasEnded(trace: seq<Round>) {
    trace != [] && trace[|trace| - 1].step.done
  }

  function ProbeLeft(trace: seq<Round>, probe0: int): int {
    if trace == [] then probe0 else trace[|trace| - 1].step.probe
  }

  /** The sum of a counter over the rounds. */
  ghost function Total(trace: seq<Round>, f: RunStats -> nat): nat {
    if trace == [] then 0 else Total(trace[..|trace| - 1], f) + f(trace[|trace| - 1].step.work)
  }

  class BoostedService {
    const service: Service
    const drafter: CorpusDrafter
    const candidateLimit: nat
    const reentryProbeTokens: nat

    constructor (service: Service, drafter: CorpusDrafter, candidateLimit: int, reentryProbeTokens: int)
      ensures this.service == service && this.drafter == drafter
      ensures this.candidateLimit == Max(1, candidateLimit)
      ensures this.reentryProbeTokens == Max(0, reentryProbeTokens)
    {
      this.service := service;
      this.drafter := drafter;
      this.candidateLimit := Max(1, candidateLimit);
      this.reentryProbeTokens := Max(0, reentryProbeTokens);
    }

    ghost function Bounds(prompt: seq<Token>): Limits {
      Limits(candidateLimit, drafter.maxDraft, service.verify.Some?, HonestRejection(service, prompt))
    }

    /** The number of tokens a verifier accepts, brought within the length of the span. */
    ghost function Within(accepted: int, n: nat): nat {
      if accepted < 0 then 0 else if accepted > n then n else accepted
    }

    ghost predicate Undetailed(call: nat, prefix: seq<Token>, span: seq<Token>) {
      service.verification.None? || service.verification.value(call, prefix, span).None?
    }

    method Verify(prefix: seq<Token>, span: seq<Token>, call: nat) returns (v: Verdict)
      ensures v == VerdictOf(service, call, prefix, span)
      ensures service.verification.Some? && service.verification.value(call, prefix, span).Some? ==>
        var detail := service.verification.value(call, prefix, span).value;
        v.accepted == Within(detail.accepted, |span|) && v.residual == detail.residual && v.bonus == detail.bonus
      ensures Undetailed(call, prefix, span) && service.verify.Some? ==>
        match service.verify.value(call, prefix, span)
        case Count(n) => v.accepted == Within(n, |span|) && v.residual == None && v.bonus == None
        case CountAndResidual(n, t) => v.accepted == Within(n, |span|) && v.residual == t && v.bonus == None
      ensures Undetailed(call, prefix, span) && service.verify.None? ==>
        && Greedy(service.next, prefix, span[..v.accepted]) && v.bonus == None
        && (v.accepted < |span| ==>
              v.residual == service.next(prefix + span[..v.accepted]) && v.residual != Some(span[v.accepted]))
        && (v.accepted == |span| ==> v.residual == None)
    {
      BlackBoxIsLongestAgreement(service.next, prefix, span, 0);
      if service.verification.Some? {
        var detail := service.verification.value(call, prefix, span);
        if detail.Some? {
          return detail.value.(accepted := Clamp(detail.value.accepted, |span|));
        }
      }
      if service.verify.Some? {
        match service.verify.value(call, prefix, span)
        case CountAndResidual(accepted, residual) => return Verdict(Clamp(accepted, |span|), residual, None);
        case Count(accepted) => return Verdict(Clamp(accepted, |span|), None, None);
      }
      var accepted := 0;
      while accepted < |span|
        invariant 0 <= accepted <= |span|
        invariant BlackBox(service.next, prefix, span, 0) == BlackBox(service.next, prefix, span, accepted)
      {
        var predicted := service.next(prefix + span[..accepted]);
        if predicted.None? {
          return Verdict(accepted, None, None);
        }
        if predicted.value != span[accepted] {
          return Verdict(accepted, predicted, None);
        }
        accepted := accepted + 1;
      }
      return Verdict(accepted, None, None);
    }

    /** The candidates a call may be given: non-empty drafts that fit the room left. */
    ghost predicate Usables(candidates: seq<Candidate>, room: nat) {
      |candidates| <= candidateLimit && forall c <- candidates :: 0 < |c.tokens| <= Min(drafter.maxDraft, room)
    }

    /** The first `n` candidates are rejected at their first token. */
    ghost predicate Rejected(prefix: seq<Token>, candidates: seq<Candidate>, rounds: nat, n: nat)
      requires n <= |candidates|
    {
      forall j :: 0 <= j < n ==> VerdictOf(service, rounds + j, prefix, candidates[j].tokens).accepted == 0
    }

    ghost predicate GoodCommit(prompt: seq<Token>, prefix: seq<Token>, room: nat, stops: set<Token>, c: Commit,
                               work: RunStats)
    {
      && Advances(service.next, prefix, room, stops, c.chunk, c.stopped)
      && (!c.stopped ==> c.chunk != [])
      && work.generatedTokens == |c.chunk|
      && WithinBounds(work, Bounds(prompt), c.stopped)
    }

    /** Commit what candidate number `n` got accepted. */
    method CommitVerdict(ghost prompt: seq<Token>, prefix: seq<Token>, room: nat, span: seq<Token>, v: Verdict,
                         stops: set<Token>, verifyCalls: nat, nextCalls: nat, n: nat)
      returns (c: Commit, work: RunStats)
      requires SoundVerdict(service.next, prefix, span, v) && 0 < v.accepted
      requires |span| <= Min(drafter.maxDraft, room)
      requires 1 <= verifyCalls + nextCalls
      requires service.verify.Some? ==> verifyCalls == n + 1 <= candidateLimit && nextCalls == 0
      ensures c == CommitSpan(span, v, room, stops)
      ensures work == RunStats(|c.chunk|, |c.chunk|, verifyCalls, nextCalls, n + 1, |c.visible|,
                               if c.visible != [] then 1 else 0, n)
      ensures GoodCommit(prompt, prefix, room, stops, c, work)
    {
      CommitAdvances(service.next, prefix, span, v, room, stops);
      var visible, stopped := TakeVisible(span[..v.accepted], stops);
      var committed := visible;
      var continuation := if v.residual.Some? then v.residual else v.bonus;
      if !stopped && continuation.Some? && |committed| < room {
        if continuation.value in stops {
          stopped := true;
        } else {
          committed := committed + [continuation.value];
        }
      }
      c := Commit(visible, committed, stopped);
      work := RunStats(|c.chunk|, |c.chunk|, verifyCalls, nextCalls, n + 1, |c.visible|,
                       if c.visible != [] then 1 else 0, n);
      CommitBounds(prompt, work, c);
    }

    /** Verify candidates in rank order until one is accepted in part. */
    method TryCandidates(ghost prompt: seq<Token>, prefix: seq<Token>, room: nat, candidates: seq<Candidate>,
                         stops: set<Token>, rounds: nat)
      returns (t: Trial)
      requires Sound(service, prompt) && prompt <= prefix && 0 < candidateLimit && Usables(candidates, room)
      ensures t.commit.Some? ==> Informed(prefix, candidates, rounds, |candidates|)
      ensures t.commit.Some? ==>
                CommittedAt(prefix, room, candidates, stops, rounds, t.work.rejectedCandidates, t.commit.value)
      ensures t.commit.Some? ==> GoodCommit(prompt, prefix, room, stops, t.commit.value, t.work)
      ensures t.commit.Some? ==>
                && t.work.rejectedCandidates < |candidates|
                && t.work == CommitWork(prefix, candidates, rounds, t.work.rejectedCandidates, t.commit.value)
      ensures t.commit.None? ==>
                && Rejected(prefix, candidates, rounds, |candidates|)
                && RejectionWork(t.work, |candidates|)
                && t.work == Tries(prefix, candidates, rounds, |candidates|)
                && (t.fallback.Some? ==> service.next(prefix) == t.fallback && t.work.TargetCalls() >= 1)
                && (t.fallback.Some? <==> Informed(prefix, candidates, rounds, |candidates|))
                && (HonestRejection(service, prompt) && candidates != [] && t.fallback.None? ==>
                    service.next(prefix).None?)
    {
      var verifyCalls: nat, nextCalls: nat := 0, 0;
      var fallback: Option<Token> := None;
      for i := 0 to |candidates|
        invariant Rejected(prefix, candidates, rounds, i)
        invariant RunStats(0, 0, verifyCalls, nextCalls, i, 0, 0, i) == Tries(prefix, candidates, rounds, i)
        invariant fallback.Some? ==> service.next(prefix) == fallback && verifyCalls + nextCalls >= 1
        invariant fallback.Some? <==> Informed(prefix, candidates, rounds, i)
        invariant HonestRejection(service, prompt) && 0 < i && fallback.None? ==> service.next(prefix).None?
      {
        var span := candidates[i].tokens;
        assert candidates[i] in candidates;
        var v, asked := Try(prompt, prefix, span, rounds + i);
        OneMoreVerdict(prefix, room, candidates, stops, rounds, i, v);
        OneMoreTry(prefix, candidates, rounds, i, v, verifyCalls, nextCalls, asked);
        if service.verify.Some? {
          verifyCalls := verifyCalls + 1;
        } else {
          nextCalls := nextCalls + asked;
        }
        if v.accepted > 0 {
          var c, work := CommitVerdict(prompt, prefix, room, span, v, stops, verifyCalls, nextCalls, i);
          return Trial(Some(c), None, work);
        }
        if fallback.None? {
          fallback := v.residual;
        }
      }
      t := Trial(None, fallback, RunStats(0, 0, verifyCalls, nextCalls, |candidates|, 0, 0, |candidates|));
    }

    /** Verify one span, and count the target calls charged for it when there is no span verifier. */
    method Try(ghost prompt: seq<Token>, prefix: seq<Token>, span: seq<Token>, call: nat)
      returns (v: Verdict, asked: nat)
      requires Sound(service, prompt) && prompt <= prefix && span != []
      ensures v == VerdictOf(service, call, prefix, span) && SoundVerdict(service.next, prefix, span, v)
      ensures Settles(v) <==> v.accepted > 0 || v.residual.Some?
      ensures v.accepted == 0 && v.residual.Some? ==> service.next(prefix) == v.residual
      ensures v.accepted == 0 && v.residual.None? && HonestRejection(service, prompt) ==> service.next(prefix).None?
      ensures asked == Min(|span|, v.accepted + if v.residual.Some? then 1 else 0)
    {
      v := Verify(prefix, span, call);
      VerdictIsSound(service, prompt, call, prefix, span);
      assert v.accepted == 0 ==> prefix + span[..v.accepted] == prefix;
      asked := Min(|span|, v.accepted + if v.residual.Some? then 1 else 0);
    }

    /** All `n` candidates were rejected. */
    ghost predicate RejectionWork(work: RunStats, n: nat) {
      && work == RunStats(0, 0, work.verifyCalls, work.nextTokenCalls, n, 0, 0, n)
      && (service.verify.Some? ==> work.TargetCalls() == n)
    }

    lemma CommitBounds(prompt: seq<Token>, work: RunStats, c: Commit)
      requires work.generatedTokens == work.baselineTargetCalls == |c.chunk| && work.acceptedDraftTokens == |c.visible|
      requires |c.visible| <= |c.chunk| <= |c.visible| + 1 && |c.chunk| <= drafter.maxDraft + 1
      requires work.acceptedDraftSpans == if c.visible != [] then 1 else 0
      requires work.candidateRounds == work.rejectedCandidates + 1 && 1 <= work.TargetCalls()
      requires service.verify.Some? ==> work.TargetCalls() == work.candidateRounds <= candidateLimit
      requires !c.stopped ==> c.visible != []
      ensures WithinBounds(work, Bounds(prompt), c.stopped)
    {
    }

    lemma TailBounds(prompt: seq<Token>, work: RunStats, n: nat)
      requires 0 < candidateLimit
      requires work == RunStats(n, n, 0, n, 0, 0, 0, 0)
      ensures WithinBounds(work, Bounds(prompt), true)
    {
      AtLeastEach(drafter.maxDraft + 1, n);
      AtLeastEach(candidateLimit, n + 1);
      AtLeastEach(candidateLimit + 1, n + 1);
    }

    /**
     The verdict on one of the first `n` candidates settles the
     next token: one is accepted, or a residual returned.
     */
    ghost predicate Informed(prefix: seq<Token>, candidates: seq<Candidate>, rounds: nat, n: nat)
      requires n <= |candidates|
    {
      exists j :: 0 <= j < n && Settles(VerdictOf(service, rounds + j, prefix, candidates[j].tokens))
    }

    /** Candidate `n` is the first with an accepted token, and `c` is what its verdict commits. */
    ghost predicate CommittedAt(prefix: seq<Token>, room: nat, candidates: seq<Candidate>, stops: set<Token>,
                                rounds: nat, n: nat, c: Commit)
    {
      && n < |candidates| && Rejected(prefix, candidates, rounds, n)
      && var v := VerdictOf(service, rounds + n, prefix, candidates[n].tokens);
      && 0 < v.accepted <= |candidates[n].tokens| && c == CommitSpan(candidates[n].tokens, v, room, stops)
    }

    lemma OneMoreVerdict(prefix: seq<Token>, room: nat, candidates: seq<Candidate>, stops: set<Token>,
                         rounds: nat, i: nat, v: Verdict)
      requires i < |candidates| && Rejected(prefix, candidates, rounds, i)
      requires v == VerdictOf(service, rounds + i, prefix, candidates[i].tokens) &&
        0 <= v.accepted <= |candidates[i].tokens|
      ensures v.accepted == 0 ==> Rejected(prefix, candidates, rounds, i + 1)
      ensures v.accepted > 0 ==>
                CommittedAt(prefix, room, candidates, stops, rounds, i,
                            CommitSpan(candidates[i].tokens, v, room, stops))
      ensures Informed(prefix, candidates, rounds, i + 1) <==> Informed(prefix, candidates, rounds, i) || Settles(v)
      ensures Settles(v) ==> Informed(prefix, candidates, rounds, |candidates|)
    {
    }

    ghost predicate Settles(v: Verdict) {
      v.accepted > 0 || v.residual.Some?
    }

    /** The target calls charged for the verdicts on the first `n` candidates when there is no span verifier. */
    ghost function Charged(prefix: seq<Token>, candidates: seq<Candidate>, rounds: nat, n: nat): nat
      requires n <= |candidates|
    {
      if n == 0 then 0
      else
        var span := candidates[n - 1].tokens;
        var v := VerdictOf(service, rounds + n - 1, prefix, span);
        Charged(prefix, candidates, rounds, n - 1) + Min(|span|, v.accepted + if v.residual.Some? then 1 else 0)
    }

    /** The work of trying the first `n` candidates, before anything is committed. */
    ghost function Tries(prefix: seq<Token>, candidates: seq<Candidate>, rounds: nat, n: nat): RunStats
      requires n <= |candidates|
    {
      if service.verify.Some? then RunStats(0, 0, n, 0, n, 0, 0, n)
      else RunStats(0, 0, 0, Charged(prefix, candidates, rounds, n), n, 0, 0, n)
    }

    /** The work of committing candidate `n`, after the ones before it. */
    ghost function CommitWork(prefix: seq<Token>, candidates: seq<Candidate>, rounds: nat, n: nat, c: Commit): RunStats
      requires n < |candidates|
    {
      Tries(prefix, candidates, rounds, n + 1).(
        generatedTokens := |c.chunk|, baselineTargetCalls := |c.chunk|, acceptedDraftTokens := |c.visible|,
        acceptedDraftSpans := if c.visible != [] then 1 else 0, rejectedCandidates := n)
    }

    lemma OneMoreTry(prefix: seq<Token>, candidates: seq<Candidate>, rounds: nat, n: nat, v: Verdict,
                     verifyCalls: nat, nextCalls: nat, asked: nat)
      requires n < |candidates| && v == VerdictOf(service, rounds + n, prefix, candidates[n].tokens)
      requires asked == Min(|candidates[n].tokens|, v.accepted + if v.residual.Some? then 1 else 0)
      requires RunStats(0, 0, verifyCalls, nextCalls, n, 0, 0, n) == Tries(prefix, candidates, rounds, n)
      ensures Tries(prefix, candidates, rounds, n + 1) ==
        if service.verify.Some? then RunStats(0, 0, verifyCalls + 1, nextCalls, n + 1, 0, 0, n + 1)
        else RunStats(0, 0, verifyCalls, nextCalls + asked, n + 1, 0, 0, n + 1)
    {
    }

    /** The step appends the token the target wants, or ends the run where there is none or a stop token. */
    ghost predicate IsTokenStep(prefix: seq<Token>, stops: set<Token>, probe: int, work: RunStats, s: Step) {
      match service.next(prefix)
      case None => s.chunk == [] && s.emitted == [] && s.done && s.work == work
      case Some(t) =>
        if t in stops then s.chunk == [] && s.emitted == [] && s.done && s.work == work
        else s == Step([t], [[t]], false, probe, work.(generatedTokens := 1, baselineTargetCalls := 1))
    }

    /** The step returns what the native tail generator does, and ends the run. */
    ghost predicate IsTailStep(tail: Tail, s: Step) {
      s.chunk == tail.tokens && s.emitted == tail.chunks && s.done
      && s.work == RunStats(|tail.tokens|, |tail.tokens|, 0, |tail.tokens|, 0, 0, 0, 0)
    }

    /** Without a draft: one token while there is probe budget, then the native tail if there is one. */
    ghost predicate IsPlainStep(prefix: seq<Token>, room: nat, stops: set<Token>, probe: int, s: Step) {
      if probe > 0 then IsTokenStep(prefix, stops, probe - 1, OneCall, s)
      else if service.continueTokens.Some? && service.continueTokens.value(prefix, room, stops).Some? then
        IsTailStep(service.continueTokens.value(prefix, room, stops).value, s)
      else IsTokenStep(prefix, stops, probe, OneCall, s)
    }

    /** The step commits what the verdict on candidate `n` allows; the candidates before it were rejected. */
    ghost predicate IsCommitStep(prefix: seq<Token>, room: nat, candidates: seq<Candidate>, stops: set<Token>,
                                 rounds: nat, n: nat, c: Commit, s: Step)
    {
      && CommittedAt(prefix, room, candidates, stops, rounds, n, c)
      && s.chunk == c.chunk && s.emitted == (if c.chunk == [] then [] else [c.chunk]) && s.done == c.stopped
      && s.probe == Min(reentryProbeTokens, room - |c.chunk|)
      && s.work == CommitWork(prefix, candidates, rounds, n, c)
    }

    /** All candidates were rejected: the target's token follows, already known if some verdict named it. */
    ghost predicate IsRejectedStep(prefix: seq<Token>, room: nat, candidates: seq<Candidate>, stops: set<Token>,
                                   probe: int, rounds: nat, s: Step)
    {
      && Rejected(prefix, candidates, rounds, |candidates|)
      && var work := Tries(prefix, candidates, rounds, |candidates|);
      if Informed(prefix, candidates, rounds, |candidates|)
      then IsTokenStep(prefix, stops, Min(reentryProbeTokens, room - 1), work, s)
      else IsTokenStep(prefix, stops, probe, work.(nextTokenCalls := work.nextTokenCalls + 1), s)
    }

    /** What one iteration of the loop does with the candidates it was given. */
    ghost predicate IsStep(prefix: seq<Token>, room: nat, stops: set<Token>, candidates: seq<Candidate>, probe: int,
                           rounds: nat, s: Step)
    {
      if candidates == [] then IsPlainStep(prefix, room, stops, probe, s)
      else
        || IsRejectedStep(prefix, room, candidates, stops, probe, rounds, s)
        || exists c: Commit :: IsCommitStep(prefix, room, candidates, stops, rounds, s.work.rejectedCandidates, c, s)
    }

    /** A step moves along the serial run, streams what it adds, and stays within its share of the bounds. */
    ghost predicate GoodStep(prompt: seq<Token>, prefix: seq<Token>, room: nat, stops: set<Token>, s: Step) {
      && Advances(service.next, prefix, room, stops, s.chunk, s.done)
      && (!s.done ==> s.chunk != [])
      && Flatten(s.emitted) == s.chunk && NonEmptyChunks(s.emitted)
      && s.work.generatedTokens == |s.chunk| && WithinBounds(s.work, Bounds(prompt), s.done)
    }

    /** What holds between iterations. */
    ghost predicate Midway(prompt: seq<Token>, room: nat, stops: set<Token>, generated: seq<Token>,
                           streamed: seq<seq<Token>>, stats: RunStats, stopped: bool)
    {
      && Advances(service.next, prompt, room, stops, generated, stopped)
      && Flatten(streamed) == generated && NonEmptyChunks(streamed)
      && stats.generatedTokens == |generated| && WithinBounds(stats, Bounds(prompt), stopped)
    }

    lemma NothingDone(prompt: seq<Token>, room: nat, stops: set<Token>, generated: seq<Token>,
                      streamed: seq<seq<Token>>, stats: RunStats, stopped: bool)
      requires generated == [] && streamed == [] && stats == NoWork && !stopped
      ensures Midway(prompt, room, stops, generated, streamed, stats, stopped)
    {
      NothingYet(service.next, prompt, room, stops);
      NoWorkIsWithinBounds(Bounds(prompt));
    }

    lemma OneMoreStep(prompt: seq<Token>, room: nat, stops: set<Token>, generated: seq<Token>,
                      streamed: seq<seq<Token>>, stats: RunStats, s: Step)
      requires Midway(prompt, room, stops, generated, streamed, stats, false)
      requires GoodStep(prompt, prompt + generated, room - |generated|, stops, s)
      ensures Midway(prompt, room, stops, generated + s.chunk, streamed + s.emitted, Plus(stats, s.work), s.done)
    {
      AdvancesTwice(service.next, prompt, room, stops, generated, s.chunk, s.done);
      FlattenAppend(streamed, s.emitted);
      BoundsAddUp(stats, s.work, Bounds(prompt), s.done);
    }

    /** One iteration of the generation loop. */
    method Iterate(ghost prompt: seq<Token>, prefix: seq<Token>, room: nat, candidates: seq<Candidate>,
                   stops: set<Token>, probe: int, rounds: nat)
      returns (s: Step)
      requires Sound(service, prompt) && TailIsSerial(service, prompt) && prompt <= prefix
      requires 0 < candidateLimit && 0 < room && Usables(candidates, room)
      ensures GoodStep(prompt, prefix, room, stops, s)
      ensures !s.done ==>
                s.probe ==
                  if Informed(prefix, candidates, rounds, |candidates|) then Min(reentryProbeTokens, room - |s.chunk|)
                  else if candidates == [] then Spent(probe)
                  else probe
      ensures IsStep(prefix, room, stops, candidates, probe, rounds, s)
    {
      if candidates == [] {
        s := WithoutCandidates(prompt, prefix, room, stops, probe);
        return;
      }
      var t := TryCandidates(prompt, prefix, room, candidates, stops, rounds);
      if t.commit.Some? {
        var c := t.commit.value;
        s := Step(c.chunk, Pieces(c.chunk), c.stopped, Min(reentryProbeTokens, room - |c.chunk|), t.work);
        assert IsCommitStep(prefix, room, candidates, stops, rounds, s.work.rejectedCandidates, c, s);
      } else if t.fallback.Some? {
        s := AfterToken(prompt, prefix, room, t.fallback, stops, Min(reentryProbeTokens, room - 1), t.work);
      } else {
        var token := service.next(prefix);
        s := AfterToken(prompt, prefix, room, token, stops, probe,
                        t.work.(nextTokenCalls := t.work.nextTokenCalls + 1));
      }
    }

    /** The probe budget after an iteration without a draft. */
    function Spent(probe: int): int {
      if probe > 0 then probe - 1 else probe
    }

    /** An iteration without a draft: probe token by token, then hand over to the native tail if there is one. */
    method WithoutCandidates(ghost prompt: seq<Token>, prefix: seq<Token>, room: nat, stops: set<Token>, probe: int)
      returns (s: Step)
      requires TailIsSerial(service, prompt) && prompt <= prefix && 0 < candidateLimit && 0 < room
      ensures GoodStep(prompt, prefix, room, stops, s)
      ensures !s.done ==> s.probe == Spent(probe)
      ensures IsPlainStep(prefix, room, stops, probe, s)
    {
      if probe > 0 {
        var token := service.next(prefix);
        s := AfterToken(prompt, prefix, room, token, stops, Spent(probe), OneCall);
        return;
      }
      if service.continueTokens.Some? {
        var tail := service.continueTokens.value(prefix, room, stops);
        if tail.Some? {
          TailStepIsGood(prompt, prefix, room, stops, probe, tail.value);
          return TailStep(tail.value, probe);
        }
      }
      var token := service.next(prefix);
      s := AfterToken(prompt, prefix, room, token, stops, Spent(probe), OneCall);
    }

    /** The native tail ends the run; each of its tokens counts as one call. */
    function TailStep(tail: Tail, probe: int): Step {
      var n := |tail.tokens|;
      Step(tail.tokens, tail.chunks, true, probe, RunStats(n, n, 0, n, 0, 0, 0, 0))
    }

    lemma TailStepIsGood(prompt: seq<Token>, prefix: seq<Token>, room: nat, stops: set<Token>, probe: int, tail: Tail)
      requires 0 < candidateLimit
      requires tail.tokens == Serial(service.next, prefix, room, stops)
      requires Flatten(tail.chunks) == tail.tokens && NonEmptyChunks(tail.chunks)
      ensures GoodStep(prompt, prefix, room, stops, TailStep(tail, probe))
    {
      TailBounds(prompt, TailStep(tail, probe).work, |tail.tokens|);
      SerialAdvances(service.next, prefix, room, stops);
    }

    lemma SerialAdvances(next: Target, prefix: seq<Token>, room: nat, stops: set<Token>)
      ensures Advances(next, prefix, room, stops, Serial(next, prefix, room, stops), true)
    {
      SerialIsTheGreedyRun(next, prefix, room, stops, Serial(next, prefix, room, stops));
    }

    /** Commit the single token the target chose, or end the run. */
    method AfterToken(ghost prompt: seq<Token>, prefix: seq<Token>, room: nat, token: Option<Token>, stops: set<Token>,
                      probe: int, work: RunStats)
      returns (s: Step)
      requires 0 < candidateLimit && 0 < room && prompt <= prefix && token == service.next(prefix)
      requires work.generatedTokens == work.baselineTargetCalls == work.acceptedDraftTokens ==
        work.acceptedDraftSpans == 0
      requires work.candidateRounds == work.rejectedCandidates <= candidateLimit && work.TargetCalls() >= 1
      requires service.verify.Some? ==> work.TargetCalls() <= candidateLimit + 1
      requires HonestRejection(service, prompt) && token.Some? ==> work.TargetCalls() <= candidateLimit
      ensures GoodStep(prompt, prefix, room, stops, s)
      ensures s.chunk == if token.None? || token.value in stops then [] else [token.value]
      ensures s.done <==> s.chunk == []
      ensures !s.done ==> s.probe == probe
      ensures s.work == work.(generatedTokens := |s.chunk|, baselineTargetCalls := |s.chunk|)
      ensures IsTokenStep(prefix, stops, probe, work, s)
    {
      if token.None? || token.value in stops {
        s := Step([], Pieces([]), true, probe, work);
      } else {
        s := Step([token.value], Pieces([token.value]), false, probe,
                  work.(generatedTokens := 1, baselineTargetCalls := 1));
      }
    }

    /** The candidates are the drafter's answer for the whole prefix, with drafts that fit the room left. */
    ghost predicate Proposed(candidates: seq<Candidate>, prefix: seq<Token>, room: nat) {
      var d := Min(drafter.maxDraft, room);
      && IsEarlyExitAnswer(candidates, drafter.corpus, prefix, drafter.ngram, drafter.maxSuffix, d, candidateLimit)
      && drafter.Answers(candidates, prefix, d, candidateLimit) && drafter.FollowSuffixes(candidates, prefix, d)
      && (0 < d ==> (candidates != [] <==> drafter.CanDraft(prefix)))
      && (candidateLimit == 1 && d <= 101 && candidates != [] ==>
            |candidates| == 1 && drafter.IsLongestMatch(candidates[0], prefix, d))
    }

    /** The drafter was asked, and one iteration was done with its answer. */
    ghost predicate IsRound(prompt: seq<Token>, room: nat, stops: set<Token>, r: Round) {
      && |r.generated| < room
      && Proposed(r.candidates, prompt + r.generated, room - |r.generated|)
      && IsStep(prompt + r.generated, room - |r.generated|, stops, r.candidates, r.probe, r.stats.candidateRounds,
                r.step)
    }

    /** The rounds follow each other, from the prompt alone to what was generated, streamed and counted. */
    ghost predicate Ran(prompt: seq<Token>, room: nat, stops: set<Token>, probe0: int, trace: seq<Round>,
                        generated: seq<Token>, streamed: seq<seq<Token>>, stats: RunStats)
      decreases |trace|
    {
      if trace == [] then generated == [] && streamed == [] && stats == NoWork
      else
        var before, r := trace[..|trace| - 1], trace[|trace| - 1];
        && Ran(prompt, room, stops, probe0, before, r.generated, r.streamed, r.stats)
        && !HasEnded(before) && r.probe == ProbeLeft(before, probe0)
        && IsRound(prompt, room, stops, r)
        && generated == r.generated + r.step.chunk && streamed == r.streamed + r.step.emitted
        && stats == Plus(r.stats, r.step.work)
    }

    /** A run so far, with what it keeps. */
    ghost predicate InProgress(prompt: seq<Token>, room: nat, stops: set<Token>, probe0: int, trace: seq<Round>,
                               generated: seq<Token>, streamed: seq<seq<Token>>, stats: RunStats, stopped: bool)
    {
      && Ran(prompt, room, stops, probe0, trace, generated, streamed, stats) && stopped == HasEnded(trace)
      && Midway(prompt, room, stops, generated, streamed, stats, stopped) && |generated| <= room
    }

    lemma OneMoreRound(prompt: seq<Token>, room: nat, stops: set<Token>, probe0: int, trace: seq<Round>,
                       generated: seq<Token>, streamed: seq<seq<Token>>, stats: RunStats, r: Round)
      requires Ran(prompt, room, stops, probe0, trace, generated, streamed, stats) && !HasEnded(trace)
      requires r == Round(generated, streamed, stats, ProbeLeft(trace, probe0), r.candidates, r.step)
      requires IsRound(prompt, room, stops, r)
      ensures Ran(prompt, room, stops, probe0, trace + [r], generated + r.step.chunk, streamed + r.step.emitted,
                  Plus(stats, r.step.work))
      ensures HasEnded(trace + [r]) == r.step.done && ProbeLeft(trace + [r], probe0) == r.step.probe
    {
      assert (trace + [r])[..|trace|] == trace;
    }

    method Propose(room: nat) returns (candidates: seq<Candidate>)
      requires drafter.Valid() && 0 < candidateLimit
      ensures Usables(candidates, room)
      ensures Proposed(candidates, drafter.history, room)
    {
      assert drafter.history + [] == drafter.history;
      candidates := drafter.Candidates([], Some(room), candidateLimit);
    }

    lemma Regroup(a: seq<Token>, b: seq<Token>, c: seq<Token>)
      ensures (a + b) + c == a + (b + c)
    {
    }

    /** Verify and commit once. */
    method Advance(prompt: seq<Token>, room: nat, stops: set<Token>, generated: seq<Token>, candidates: seq<Candidate>,
                   ghost streamed: seq<seq<Token>>, stats: RunStats, probe: int, ghost probe0: int,
                   ghost trace: seq<Round>)
      returns (s: Step, ghost more: seq<Round>)
      requires 0 < candidateLimit && Sound(service, prompt) && TailIsSerial(service, prompt)
      requires |generated| < room && Usables(candidates, room - |generated|)
      requires Proposed(candidates, prompt + generated, room - |generated|)
      requires InProgress(prompt, room, stops, probe0, trace, generated, streamed, stats, false)
      requires probe == ProbeLeft(trace, probe0)
      ensures !s.done ==> s.chunk != []
      ensures ProbeLeft(more, probe0) == s.probe
      ensures InProgress(prompt, room, stops, probe0, more, generated + s.chunk, streamed + s.emitted,
                         Plus(stats, s.work), s.done)
    {
      s := Iterate(prompt, prompt + generated, room - |generated|, candidates, stops, probe, stats.candidateRounds);
      more := StepTaken(prompt, room, stops, generated, candidates, streamed, stats, probe0, trace, s);
    }

    lemma StepTaken(prompt: seq<Token>, room: nat, stops: set<Token>, generated: seq<Token>, candidates: seq<Candidate>,
                    streamed: seq<seq<Token>>, stats: RunStats, probe0: int, trace: seq<Round>, s: Step)
      returns (more: seq<Round>)
      requires |generated| < room && Proposed(candidates, prompt + generated, room - |generated|)
      requires InProgress(prompt, room, stops, probe0, trace, generated, streamed, stats, false)
      requires GoodStep(prompt, prompt + generated, room - |generated|, stops, s)
      requires IsStep(prompt + generated, room - |generated|, stops, candidates, ProbeLeft(trace, probe0),
                      stats.candidateRounds, s)
      ensures ProbeLeft(more, probe0) == s.probe
      ensures InProgress(prompt, room, stops, probe0, more, generated + s.chunk, streamed + s.emitted,
                         Plus(stats, s.work), s.done)
    {
      OneMoreStep(prompt, room, stops, generated, streamed, stats, s);
      more := RoundTaken(prompt, room, stops, generated, candidates, streamed, stats, probe0, trace, s);
    }

    lemma RoundTaken(prompt: seq<Token>, room: nat, stops: set<Token>, generated: seq<Token>,
                     candidates: seq<Candidate>, streamed: seq<seq<Token>>, stats: RunStats, probe0: int,
                     trace: seq<Round>, s: Step)
      returns (more: seq<Round>)
      requires |generated| < room && Proposed(candidates, prompt + generated, room - |generated|)
      requires Ran(prompt, room, stops, probe0, trace, generated, streamed, stats) && !HasEnded(trace)
      requires IsStep(prompt + generated, room - |generated|, stops, candidates, ProbeLeft(trace, probe0),
                      stats.candidateRounds, s)
      ensures ProbeLeft(more, probe0) == s.probe && HasEnded(more) == s.done
      ensures Ran(prompt, room, stops, probe0, more, generated + s.chunk, streamed + s.emitted, Plus(stats, s.work))
    {
      MakesARound(prompt, room, stops, generated, candidates, streamed, stats, ProbeLeft(trace, probe0), s);
      var r := Round(generated, streamed, stats, ProbeLeft(trace, probe0), candidates, s);
      OneMoreRound(prompt, room, stops, probe0, trace, generated, streamed, stats, r);
      more := trace + [r];
    }

    lemma MakesARound(prompt: seq<Token>, room: nat, stops: set<Token>, generated: seq<Token>,
                      candidates: seq<Candidate>, streamed: seq<seq<Token>>, stats: RunStats, probe: int, s: Step)
      requires |generated| < room && Proposed(candidates, prompt + generated, room - |generated|)
      requires IsStep(prompt + generated, room - |generated|, stops, candidates, probe, stats.candidateRounds, s)
      ensures IsRound(prompt, room, stops, Round(generated, streamed, stats, probe, candidates, s))
    {
    }

    /** Draft, verify and commit once. */
    method RunOnce(prompt: seq<Token>, room: nat, stops: set<Token>, generated: seq<Token>,
                   ghost streamed: seq<seq<Token>>, stats: RunStats, probe: int, ghost probe0: int,
                   ghost trace: seq<Round>)
      returns (s: Step, ghost more: seq<Round>)
      requires drafter.Valid() && 0 < candidateLimit && Sound(service, prompt) && TailIsSerial(service, prompt)
      requires drafter.history == prompt + generated && |generated| < room
      requires InProgress(prompt, room, stops, probe0, trace, generated, streamed, stats, false)
      requires probe == ProbeLeft(trace, probe0)
      modifies drafter
      ensures !s.done ==> s.chunk != []
      ensures drafter.history == prompt + (generated + s.chunk)
      ensures ProbeLeft(more, probe0) == s.probe
      ensures InProgress(prompt, room, stops, probe0, more, generated + s.chunk, streamed + s.emitted,
                         Plus(stats, s.work), s.done)
    {
      var candidates := Propose(room - |generated|);
      s, more := Advance(prompt, room, stops, generated, candidates, streamed, stats, probe, probe0, trace);
      drafter.Observe(s.chunk);
      Regroup(prompt, generated, s.chunk);
    }

    /** The loop, from the state after the drafter was reset to the prompt. */
    method RunLoop(prompt: seq<Token>, room: nat, stops: set<Token>, probe0: int)
      returns (generated: seq<Token>, stats: RunStats, streamed: seq<seq<Token>>, stopped: bool,
               ghost trace: seq<Round>)
      requires drafter.Valid() && 0 < candidateLimit && Sound(service, prompt) && TailIsSerial(service, prompt)
      requires drafter.history == prompt
      modifies drafter
      ensures stopped || |generated| == room
      ensures drafter.history == prompt + generated
      ensures InProgress(prompt, room, stops, probe0, trace, generated, streamed, stats, stopped)
    {
      generated, streamed, stats, trace := [], [], NoWork, [];
      stopped := false;
      var probe := probe0;
      assert prompt == prompt + generated;
      NothingDone(prompt, room, stops, generated, streamed, stats, stopped);
      while |generated| < room && !stopped
        invariant |generated| <= room && drafter.history == prompt + generated
        invariant InProgress(prompt, room, stops, probe0, trace, generated, streamed, stats, stopped)
        invariant probe == ProbeLeft(trace, probe0)
        decreases room - |generated| + if stopped then 0 else 1
      {
        var s;
        s, trace := RunOnce(prompt, room, stops, generated, streamed, stats, probe, probe0, trace);
        generated, streamed, stats := generated + s.chunk, streamed + s.emitted, Plus(stats, s.work);
        stopped, probe := s.done, s.probe;
      }
    }

    /** The boosted generation: exact, streamed as returned, and within its work bounds. */
    method Generate(prompt: seq<Token>, maxTokens: int, stops: set<Token>)
      returns (generated: seq<Token>, stats: RunStats, streamed: seq<seq<Token>>, ghost trace: seq<Round>)
      requires drafter.Valid() && 0 < candidateLimit
      requires Sound(service, prompt) && TailIsSerial(service, prompt)
      modifies drafter
      ensures generated == Serial(service.next, prompt, Max(0, maxTokens), stops)
      ensures drafter.history == prompt + generated
      ensures Flatten(streamed) == generated && NonEmptyChunks(streamed)
      ensures stats.generatedTokens == |generated| && WithinBounds(stats, Bounds(prompt), true)
      ensures stats.EstimatedSpeedup() <= (drafter.maxDraft + 1) as real
      ensures WithinProducts(stats, Bounds(prompt))
      ensures Ran(prompt, Max(0, maxTokens), stops,
                  if drafter.corpus != [] then Min(reentryProbeTokens, maxTokens) else 0,
                  trace, generated, streamed, stats)
      ensures HasEnded(trace) || |generated| == Max(0, maxTokens)
    {
      drafter.Reset(prompt);
      var stopped;
      var probe := if drafter.corpus != [] then Min(reentryProbeTokens, maxTokens) else 0;
      generated, stats, streamed, stopped, trace := RunLoop(prompt, Max(0, maxTokens), stops, probe);
      Finished(prompt, Max(0, maxTokens), stops, generated, streamed, stats, stopped);
    }

    // ---------------------------------------------------------------- what a run says about its rounds

    /** The counters of a run are the sums over its rounds. */
    lemma {:induction false} WorkAddsUp(prompt: seq<Token>, room: nat, stops: set<Token>, probe0: int,
                                        trace: seq<Round>,
                                        generated: seq<Token>, streamed: seq<seq<Token>>, stats: RunStats)
      requires Ran(prompt, room, stops, probe0, trace, generated, streamed, stats)
      ensures stats.verifyCalls == Total(trace, (w: RunStats) => w.verifyCalls)
      ensures stats.nextTokenCalls == Total(trace, (w: RunStats) => w.nextTokenCalls)
      ensures stats.candidateRounds == Total(trace, (w: RunStats) => w.candidateRounds)
      ensures stats.acceptedDraftTokens == Total(trace, (w: RunStats) => w.acceptedDraftTokens)
      ensures stats.acceptedDraftSpans == Total(trace, (w: RunStats) => w.acceptedDraftSpans)
      ensures stats.rejectedCandidates == Total(trace, (w: RunStats) => w.rejectedCandidates)
      decreases |trace|
    {
      if trace != [] {
        var r := trace[|trace| - 1];
        WorkAddsUp(prompt, room, stops, probe0, trace[..|trace| - 1], r.generated, r.streamed, r.stats);
      }
    }

    /** A round tries candidates exactly when its prefix has a match, and each try of a verifier is one call. */
    lemma RoundTriesIffItCan(prompt: seq<Token>, room: nat, stops: set<Token>, r: Round)
      requires IsRound(prompt, room, stops, r) && 0 < drafter.maxDraft
      ensures r.step.work.candidateRounds > 0 <==> drafter.CanDraft(prompt + r.generated)
      ensures r.step.work.verifyCalls == if service.verify.Some? then r.step.work.candidateRounds else 0
      ensures r.candidates == [] && service.continueTokens.None? ==> |r.step.chunk| <= 1
    {
    }

    /** With a span verifier every candidate tried is one verify call; without one there are no verify calls. */
    lemma {:induction false} VerifyCallsAreTries(prompt: seq<Token>, room: nat, stops: set<Token>, probe0: int,
                                                 trace: seq<Round>, generated: seq<Token>, streamed: seq<seq<Token>>,
                                                 stats: RunStats)
      requires Ran(prompt, room, stops, probe0, trace, generated, streamed, stats) && 0 < drafter.maxDraft
      ensures stats.verifyCalls == if service.verify.Some? then stats.candidateRounds else 0
      decreases |trace|
    {
      if trace != [] {
        var r := trace[|trace| - 1];
        VerifyCallsAreTries(prompt, room, stops, probe0, trace[..|trace| - 1], r.generated, r.streamed, r.stats);
        RoundTriesIffItCan(prompt, room, stops, r);
      }
    }

    /**
     A run without a native tail that tried no candidate had none to try: no prefix of it, from the prompt on, ends
     in a suffix that the corpus continues.
     */
    lemma {:induction false} NothingTriedNothingToTry(prompt: seq<Token>, room: nat, stops: set<Token>, probe0: int,
                                                      trace: seq<Round>, generated: seq<Token>,
                                                      streamed: seq<seq<Token>>, stats: RunStats, i: nat)
      requires Ran(prompt, room, stops, probe0, trace, generated, streamed, stats) && 0 < drafter.maxDraft
      requires service.continueTokens.None? && stats.candidateRounds == 0 && i < |generated|
      ensures !drafter.CanDraft(prompt + generated[..i])
      decreases |trace|
    {
      var r := trace[|trace| - 1];
      RoundTriesIffItCan(prompt, room, stops, r);
      if i < |r.generated| {
        NothingTriedNothingToTry(prompt, room, stops, probe0, trace[..|trace| - 1], r.generated, r.streamed, r.stats,
                                 i);
        assert generated[..i] == r.generated[..i];
      } else {
        assert generated[..i] == r.generated;
      }
    }

    lemma {:induction false} EveryRoundIsOne(prompt: seq<Token>, room: nat, stops: set<Token>, probe0: int,
                                             trace: seq<Round>, generated: seq<Token>, streamed: seq<seq<Token>>,
                                             stats: RunStats, k: nat)
      requires Ran(prompt, room, stops, probe0, trace, generated, streamed, stats) && k < |trace|
      ensures IsRound(prompt, room, stops, trace[k]) && trace[k].generated <= generated
      ensures k == 0 ==> trace[k].generated == [] && trace[k].stats == NoWork && trace[k].probe == probe0
      decreases |trace|
    {
      var before, r := trace[..|trace| - 1], trace[|trace| - 1];
      if k < |trace| - 1 {
        EveryRoundIsOne(prompt, room, stops, probe0, before, r.generated, r.streamed, r.stats, k);
        assert before[k] == trace[k];
      }
    }

    /** Wherever a run could draft, it did: its rounds tried candidates exactly where there was a match. */
    lemma TriedWhereItCould(prompt: seq<Token>, room: nat, stops: set<Token>, probe0: int, trace: seq<Round>,
                            generated: seq<Token>, streamed: seq<seq<Token>>, stats: RunStats, k: nat)
      requires Ran(prompt, room, stops, probe0, trace, generated, streamed, stats) && 0 < drafter.maxDraft
      requires k < |trace|
      ensures trace[k].step.work.candidateRounds > 0 <==> drafter.CanDraft(prompt + trace[k].generated)
    {
      EveryRoundIsOne(prompt, room, stops, probe0, trace, generated, streamed, stats, k);
      RoundTriesIffItCan(prompt, room, stops, trace[k]);
    }

    /**
     When the verifier accepts the whole first draft, and it fills the room and holds no stop token, the run takes one
     target call.
     */
    lemma FullDraftTakesOneCall(prompt: seq<Token>, room: nat, stops: set<Token>, probe0: int, trace: seq<Round>,
                                generated: seq<Token>, streamed: seq<seq<Token>>, stats: RunStats)
      requires Ran(prompt, room, stops, probe0, trace, generated, streamed, stats) && service.verify.Some?
      requires trace != [] && trace[0].candidates != []
      requires var span := trace[0].candidates[0].tokens;
               |span| == room && VerdictOf(service, 0, prompt, span).accepted == |span| &&
                 forall t <- span :: t !in stops
      ensures generated == trace[0].candidates[0].tokens
      ensures stats.TargetCalls() == stats.candidateRounds == 1 && stats.acceptedDraftTokens == |generated|
    {
      EveryRoundIsOne(prompt, room, stops, probe0, trace, generated, streamed, stats, 0);
      assert prompt + [] == prompt;
      FullDraftIsCounted(prompt, room, stops, trace[0]);
      OneRoundIsAll(prompt, room, stops, probe0, trace, generated, streamed, stats);
    }

    /** A first round that fills the room is the only one. */
    lemma {:induction false} OneRoundIsAll(prompt: seq<Token>, room: nat, stops: set<Token>, probe0: int,
                                           trace: seq<Round>, generated: seq<Token>, streamed: seq<seq<Token>>,
                                           stats: RunStats)
      requires Ran(prompt, room, stops, probe0, trace, generated, streamed, stats)
      requires trace != [] && |trace[0].step.chunk| >= room
      ensures |trace| == 1 && generated == trace[0].step.chunk && stats == Plus(NoWork, trace[0].step.work)
      decreases |trace|
    {
      var before, r := trace[..|trace| - 1], trace[|trace| - 1];
      if before != [] {
        assert before[0] == trace[0];
        OneRoundIsAll(prompt, room, stops, probe0, before, r.generated, r.streamed, r.stats);
        assert false;
      } else {
        assert [] + r.step.chunk == r.step.chunk;
      }
    }

    /** A first draft that is accepted in full and holds no stop token is committed and counted, token by token. */
    lemma FullDraftIsCounted(prompt: seq<Token>, room: nat, stops: set<Token>, r: Round)
      requires IsRound(prompt, room, stops, r) && r.candidates != []
      requires var span := r.candidates[0].tokens;
               && VerdictOf(service, r.stats.candidateRounds, prompt + r.generated, span).accepted == |span|
               && forall t <- span :: t !in stops
      ensures var span := r.candidates[0].tokens;
              && span <= r.step.chunk && r.step.work.acceptedDraftTokens == |span| && r.step.work.candidateRounds == 1
              && (service.verify.Some? ==> r.step.work.TargetCalls() == 1)
    {
      var span := r.candidates[0].tokens;
      var prefix, rounds, left := prompt + r.generated, r.stats.candidateRounds, room - |r.generated|;
      assert r.candidates[0] in r.candidates;
      var c := FirstIsCommitted(prefix, left, r.candidates, stops, r.probe, rounds, r.step);
      FullSpanIsCommitted(span, VerdictOf(service, rounds, prefix, span), left, stops);
    }

    lemma FirstIsCommitted(prefix: seq<Token>, room: nat, candidates: seq<Candidate>, stops: set<Token>, probe: int,
                           rounds: nat, s: Step) returns (c: Commit)
      requires IsStep(prefix, room, stops, candidates, probe, rounds, s) && candidates != []
      requires VerdictOf(service, rounds, prefix, candidates[0].tokens).accepted > 0
      ensures IsCommitStep(prefix, room, candidates, stops, rounds, 0, c, s)
    {
      assert VerdictOf(service, rounds + 0, prefix, candidates[0].tokens).accepted > 0;
      assert !Rejected(prefix, candidates, rounds, |candidates|);
      c :| IsCommitStep(prefix, room, candidates, stops, rounds, s.work.rejectedCandidates, c, s);
    }

    lemma Finished(prompt: seq<Token>, room: nat, stops: set<Token>, generated: seq<Token>,
                   streamed: seq<seq<Token>>, stats: RunStats, stopped: bool)
      requires Midway(prompt, room, stops, generated, streamed, stats, stopped)
      requires stopped || |generated| == room
      ensures generated == Serial(service.next, prompt, room, stops)
      ensures Midway(prompt, room, stops, generated, streamed, stats, true)
      ensures stats.EstimatedSpeedup() <= (drafter.maxDraft + 1) as real
      ensures WithinProducts(stats, Bounds(prompt))
    {
      SpeedupIsBounded(stats, Bounds(prompt), true);
      BoundsAsProducts(stats, Bounds(prompt));
    }
  }

  /** The bounds on target calls at the end of a run, as products. */
  ghost predicate WithinProducts(s: RunStats, k: Limits) {
    && s.generatedTokens <= s.TargetCalls() * (k.draft + 1)
    && (k.verifies ==> s.TargetCalls() <= (k.candidates + 1) * (s.generatedTokens + 1))
    && (k.honest ==> s.TargetCalls() <= k.candidates * (s.generatedTokens + 1) + 1)
  }

  lemma BoundsAsProducts(s: RunStats, k: Limits)
    requires WithinBounds(s, k, true)
    ensures WithinProducts(s, k)
  {
    TimesIsProduct(k.draft + 1, s.TargetCalls());
    TimesIsProduct(k.candidates + 1, s.generatedTokens + 1);
    TimesIsProduct(k.candidates, s.generatedTokens + 1);
  }

  // ---------------------------------------------------------------- a service that meets the assumptions

  /** The demonstration target: a fixed completion, indexed by how far the prefix is past the prompt. */
  function ScriptedNext(promptLength: nat, completion: seq<Token>, prefix: seq<Token>): Option<Token> {
    var offset := Max(0, |prefix| - promptLength);
    if offset >= |completion| then None else Some(completion[offset])
  }

  /** How many tokens of `span` agree with the completion from `offset` on. */
  function Agreement(completion: seq<Token>, offset: nat, span: seq<Token>): (n: nat)
    ensures n <= |span| && (n > 0 ==> offset + n <= |completion|)
    ensures forall i :: 0 <= i < n ==> span[i] == completion[offset + i]
    ensures n < |span| && offset + n < |completion| ==> span[n] != completion[offset + n]
    decreases |span|
  {
    if span == [] || offset >= |completion| || span[0] != completion[offset] then 0
    else 1 + Agreement(completion, offset + 1, span[1..])
  }

  function ScriptedVerify(promptLength: nat, completion: seq<Token>, prefix: seq<Token>,
                          span: seq<Token>): VerifyResult
  {
    var offset := Max(0, |prefix| - promptLength);
    var accepted := Agreement(completion, offset, span);
    if accepted == |span| then CountAndResidual(accepted, None)
    else
      CountAndResidual(accepted,
                       if offset + accepted < |completion| then Some(completion[offset + accepted]) else None)
  }

  function ScriptedService(promptLength: nat, completion: seq<Token>): Service {
    Service(prefix => ScriptedNext(promptLength, completion, prefix), None,
            Some((call, prefix, span) => ScriptedVerify(promptLength, completion, prefix, span)), None)
  }

  /** The demonstration service is sound and honest on every prefix that extends its prompt. */
  lemma ScriptedServiceMeetsAssumptions(prompt: seq<Token>, completion: seq<Token>)
    ensures var s := ScriptedService(|prompt|, completion);
            Sound(s, prompt) && HonestRejection(s, prompt) && TailIsSerial(s, prompt)
  {
    var s := ScriptedService(|prompt|, completion);
    forall call: nat, prefix: seq<Token>, span: seq<Token> | prompt <= prefix
      ensures SoundVerdict(s.next, prefix, span, FromVerify(s.verify.value(call, prefix, span), |span|))
    {
      var v := FromVerify(s.verify.value(call, prefix, span), |span|);
      forall i | 0 <= i < v.accepted ensures s.next(prefix + span[..v.accepted][..i]) == Some(span[..v.accepted][i]) {
        assert |prefix + span[..v.accepted][..i]| == |prefix| + i;
      }
    }
  }
}