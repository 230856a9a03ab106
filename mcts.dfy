/** The Monte Carlo tree search engine: six statistics tables updated in place
 *  by recursive simulations, and the conversion of root visit counts into a
 *  move policy. */
module Mcts {
  import opened Vectors
  import opened PyErrors

  /** The string representation of a canonical board, the key of every table. */
  type Key = string

  /** Added under the square root when scoring an edge that was never taken. */
  const EPS: real := 0.00000001

  /** The outcome memoised for a position reached at the depth limit. */
  const DepthSentinel: real := 0.0001

  /** The rules engine as the search sees it. Every query is made for player 1
   *  on a canonical board; the action index passed to getNextState is the one
   *  the search selected. */
  datatype Game<!B> = Game(
    stringRepresentation: B -> Key,
    getGameEnded: B -> real,
    getValidMoves: B -> seq<bool>,
    getNextState: (B, int) -> (B, int),
    getCanonicalForm: (B, int) -> B,
    getActionSize: nat)

  /** The configuration entries the search reads. */
  datatype Args = Args(numMCTSSims: nat, cpuct: real, maxMoves: int)

  /** What the search relies on its collaborators for: a non-empty action
   *  space, masks and policies of its size, outcomes and values in [-1, 1],
   *  non-negative policies, a legal move in every position that is not over,
   *  and an outcome that depends on the position key alone. */
  ghost predicate WellFormed<B(!new)>(game: Game<B>, predict: B -> (seq<real>, real))
  {
    && game.getActionSize > 0
    && (forall b :: |game.getValidMoves(b)| == game.getActionSize)
    && (forall b :: -1.0 <= game.getGameEnded(b) <= 1.0)
    && (forall b :: game.getGameEnded(b) == 0.0 ==> HasValid(game.getValidMoves(b)))
    && (forall b1, b2 :: game.stringRepresentation(b1) == game.stringRepresentation(b2) ==>
          game.getGameEnded(b1) == game.getGameEnded(b2))
    && (forall b :: |predict(b).0| == game.getActionSize && NonNegative(predict(b).0) && -1.0 <= predict(b).1 <= 1.0)
  }

  /** The visit count of edge `e`; 0 for an edge never taken. */
  function EdgeCount(nsa: map<(Key, int), nat>, e: (Key, int)): nat
  {
    if e in nsa then nsa[e] else 0
  }

  /** Visit counts of the edges leaving `s`, one per action. */
  function EdgeCounts(nsa: map<(Key, int), nat>, s: Key, n: nat): seq<nat>
  {
    seq(n, a => EdgeCount(nsa, (s, a)))
  }

  /** Taking one edge once adds one to its source's total and to no other. */
  lemma EdgeCountsAfterVisit(nsa: map<(Key, int), nat>, s: Key, a: int, n: nat, t: Key)
    requires 0 <= a < n
    ensures var nsa' := nsa[(s, a) := EdgeCount(nsa, (s, a)) + 1];
      SumNat(EdgeCounts(nsa', t, n)) == SumNat(EdgeCounts(nsa, t, n)) + (if t == s then 1 else 0)
  {
    var old_ := EdgeCounts(nsa, t, n);
    var nsa' := nsa[(s, a) := EdgeCount(nsa, (s, a)) + 1];
    if t == s {
      assert EdgeCounts(nsa', t, n) == old_[a := old_[a] + 1];
      SumNatIncrement(old_, a);
    } else {
      assert EdgeCounts(nsa', t, n) == old_;
    }
  }

  /** A position with no edge has visit total 0. */
  lemma EdgeCountsNone(nsa: map<(Key, int), nat>, s: Key, n: nat)
    requires forall e :: e in nsa ==> e.0 != s
    ensures SumNat(EdgeCounts(nsa, s, n)) == 0
  {
    SumNatZero(EdgeCounts(nsa, s, n));
  }

  /** The six statistics tables, as values. */
  datatype Tables = Tables(
    Qsa: map<(Key, int), real>,
    Nsa: map<(Key, int), nat>,
    Ns: map<Key, nat>,
    Ps: map<Key, seq<real>>,
    Es: map<Key, real>,
    Vs: map<Key, seq<bool>>)


  /** Every expanded position has a mask and a prior of the action-space size,
   *  a visit count and a memoised outcome. */
  ghost predicate ShapeOk(n: nat, ps: map<Key, seq<real>>, vs: map<Key, seq<bool>>, ns: map<Key, nat>, es: map<Key, real>)
  {
    forall s :: s in vs ==> |vs[s]| == n && s in ps && |ps[s]| == n && s in ns && s in es
  }

  /** Edge `e`, if it is in any edge table, is in all three; it is taken for a
   *  legal action of an expanded position, and its mean value is the mean of
   *  the values backed up through it. */
  ghost predicate EdgeOk(qsa: map<(Key, int), real>, nsa: map<(Key, int), nat>, vs: map<Key, seq<bool>>,
                         backups: map<(Key, int), seq<real>>, e: (Key, int))
  {
    (e in nsa || e in qsa || e in backups) ==>
      && e in nsa && e in qsa && e in backups
      && e.0 in vs && 0 <= e.1 < |vs[e.0]| && vs[e.0][e.1]
      && nsa[e] == |backups[e]| && nsa[e] > 0
      && InUnitRange(backups[e])
      && qsa[e] == Mean(backups[e])
  }

  /** Every edge is as EdgeOk says. */
  ghost predicate EdgesOk(qsa: map<(Key, int), real>, nsa: map<(Key, int), nat>, vs: map<Key, seq<bool>>,
                          backups: map<(Key, int), seq<real>>)
  {
    forall e {:trigger EdgeOk(qsa, nsa, vs, backups, e)} :: EdgeOk(qsa, nsa, vs, backups, e)
  }

  /** Key `s` has a prior exactly when it has a mask; then it has a legal move
   *  and its prior is a distribution over its legal moves. */
  ghost predicate PriorOk(ps: map<Key, seq<real>>, vs: map<Key, seq<bool>>, s: Key)
  {
    (s in vs || s in ps) ==> s in vs && s in ps && HasValid(vs[s]) && IsPrior(ps[s], vs[s])
  }

  /** Every key is as PriorOk says. */
  ghost predicate PriorsOk(ps: map<Key, seq<real>>, vs: map<Key, seq<bool>>)
  {
    forall s {:trigger PriorOk(ps, vs, s)} :: PriorOk(ps, vs, s)
  }

  /** If the key of `board` has a memoised outcome, it is the rules engine's
   *  outcome for `board` or the depth sentinel. */
  ghost predicate OutcomeOk<B(!new)>(game: Game<B>, es: map<Key, real>, board: B)
  {
    var s := game.stringRepresentation(board);
    s in es ==> es[s] == game.getGameEnded(board) || es[s] == DepthSentinel
  }

  /** Every memoised outcome is as OutcomeOk says. */
  ghost predicate OutcomesOk<B(!new)>(game: Game<B>, es: map<Key, real>)
  {
    forall b {:trigger OutcomeOk(game, es, b)} :: OutcomeOk(game, es, b)
  }

  /** Key `s` has a visit count exactly when it has a mask; the count is the
   *  sum of the counts of its edges. */
  ghost predicate VisitOk(n: nat, ns: map<Key, nat>, nsa: map<(Key, int), nat>, vs: map<Key, seq<bool>>, s: Key)
  {
    (s in ns || s in vs) ==> s in ns && s in vs && ns[s] == SumNat(EdgeCounts(nsa, s, n))
  }

  /** Every key is as VisitOk says. */
  ghost predicate VisitsOk(n: nat, ns: map<Key, nat>, nsa: map<(Key, int), nat>, vs: map<Key, seq<bool>>)
  {
    forall s {:trigger VisitOk(n, ns, nsa, vs, s)} :: VisitOk(n, ns, nsa, vs, s)
  }

  /** The invariant of the tables: the collaborators are well formed, and the
   *  shapes, priors, outcomes, edges and visit counts are as the predicates
   *  above say. */
  ghost predicate Inv<B(!new)>(game: Game<B>, predict: B -> (seq<real>, real), t: Tables, backups: map<(Key, int), seq<real>>)
  {
    && WellFormed(game, predict)
    && ShapeOk(game.getActionSize, t.Ps, t.Vs, t.Ns, t.Es)
    && PriorsOk(t.Ps, t.Vs)
    && OutcomesOk(game, t.Es)
    && EdgesOk(t.Qsa, t.Nsa, t.Vs, backups)
    && VisitsOk(game.getActionSize, t.Ns, t.Nsa, t.Vs)
  }

  /** From `t0` to `t`, key `s` keeps its prior and mask, its visit count does
   *  not decrease, and its memoised outcome changes only to the depth sentinel. */
  ghost predicate KeyGrows(t0: Tables, t: Tables, s: Key)
  {
    && (s in t0.Ps ==> s in t.Ps && t.Ps[s] == t0.Ps[s])
    && (s in t0.Vs ==> s in t.Vs && t.Vs[s] == t0.Vs[s])
    && (s in t0.Ns ==> s in t.Ns && t0.Ns[s] <= t.Ns[s])
    && (s in t0.Es ==> s in t.Es && (t.Es[s] == t0.Es[s] || t.Es[s] == DepthSentinel))
  }

  /** From `t0` to `t`, edge `e` stays and its visit count does not decrease. */
  ghost predicate EdgeGrows(t0: Tables, t: Tables, e: (Key, int))
  {
    e in t0.Nsa ==> e in t.Nsa && t0.Nsa[e] <= t.Nsa[e]
  }

  /** The tables only grow from `t0` to `t`: priors, masks and edges are never
   *  removed or rewritten, counts never decrease, and a memoised outcome
   *  changes only to the depth sentinel. */
  ghost predicate Extends(t0: Tables, t: Tables)
  {
    && (forall s {:trigger KeyGrows(t0, t, s)} :: KeyGrows(t0, t, s))
    && (forall e {:trigger EdgeGrows(t0, t, e)} :: EdgeGrows(t0, t, e))
  }

  lemma ExtendsTransitive(t0: Tables, t1: Tables, t2: Tables)
    requires Extends(t0, t1) && Extends(t1, t2)
    ensures Extends(t0, t2)
  {
    forall s ensures KeyGrows(t0, t2, s) {
      assert KeyGrows(t0, t1, s) && KeyGrows(t1, t2, s);
    }
    forall e ensures EdgeGrows(t0, t2, e) {
      assert EdgeGrows(t0, t1, e) && EdgeGrows(t1, t2, e);
    }
  }

  lemma ExtendsReflexive(t: Tables)
    ensures Extends(t, t)
  {
    forall s ensures KeyGrows(t, t, s) {
    }
    forall e ensures EdgeGrows(t, t, e) {
    }
  }

  /** Memoising an outcome for a key not seen yet, or the depth sentinel for
   *  any key, only adds to the tables. */
  lemma MemoExtends(t: Tables, s: Key, x: real)
    requires s !in t.Es || x == DepthSentinel
    ensures Extends(t, t.(Es := t.Es[s := x]))
  {
    var t' := t.(Es := t.Es[s := x]);
    forall u ensures KeyGrows(t, t', u) {
    }
    forall e ensures EdgeGrows(t, t', e) {
    }
  }

  /** Memoising the depth sentinel for any key keeps the outcomes invariant. */
  lemma SentinelKeepsOutcomes<B(!new)>(game: Game<B>, es: map<Key, real>, s: Key)
    requires OutcomesOk(game, es)
    ensures OutcomesOk(game, es[s := DepthSentinel])
  {
    var es' := es[s := DepthSentinel];
    forall b ensures OutcomeOk(game, es', b) {
      assert OutcomeOk(game, es, b);
    }
  }

  /** Memoising the rules engine's outcome keeps the outcomes invariant,
   *  because the engine gives boards with equal keys equal outcomes. */
  lemma OutcomeKeepsOutcomes<B(!new)>(game: Game<B>, predict: B -> (seq<real>, real), es: map<Key, real>, board: B)
    requires WellFormed(game, predict) && OutcomesOk(game, es)
    ensures OutcomesOk(game, es[game.stringRepresentation(board) := game.getGameEnded(board)])
  {
    var es' := es[game.stringRepresentation(board) := game.getGameEnded(board)];
    forall b ensures OutcomeOk(game, es', b) {
      assert OutcomeOk(game, es, b);
    }
  }

  /** Memoising, for the key of `board`, the rules engine's outcome or the
   *  depth sentinel keeps the invariant; `t2` is the tables afterwards. */
  lemma MemoKeepsInv<B(!new)>(game: Game<B>, predict: B -> (seq<real>, real), t: Tables, backups: map<(Key, int), seq<real>>,
                              board: B, x: real, t2: Tables)
    requires Inv(game, predict, t, backups)
    requires x == game.getGameEnded(board) || x == DepthSentinel
    requires t2 == t.(Es := t.Es[game.stringRepresentation(board) := x])
    ensures Inv(game, predict, t2, backups)
  {
    if x == DepthSentinel {
      SentinelKeepsOutcomes(game, t.Es, game.stringRepresentation(board));
    } else {
      OutcomeKeepsOutcomes(game, predict, t.Es, board);
    }
  }

  /** A new expanded position has no edge yet, so existing edges stay as they were. */
  lemma ExpandKeepsEdges(qsa: map<(Key, int), real>, nsa: map<(Key, int), nat>, vs: map<Key, seq<bool>>,
                         backups: map<(Key, int), seq<real>>, s: Key, valids: seq<bool>)
    requires EdgesOk(qsa, nsa, vs, backups) && s !in vs
    ensures EdgesOk(qsa, nsa, vs[s := valids], backups)
    ensures forall e :: e in nsa ==> e.0 != s
  {
    forall e ensures EdgeOk(qsa, nsa, vs[s := valids], backups, e) && (e in nsa ==> e.0 != s) {
      assert EdgeOk(qsa, nsa, vs, backups, e);
    }
  }

  /** The stored prior of a new expanded position is a distribution over its legal moves. */
  lemma ExpandKeepsPriors(ps: map<Key, seq<real>>, vs: map<Key, seq<bool>>, s: Key, policy: seq<real>, valids: seq<bool>)
    requires PriorsOk(ps, vs)
    requires |policy| == |valids| && NonNegative(policy) && HasValid(valids)
    ensures PriorsOk(ps[s := Renormalize(policy, valids)], vs[s := valids])
  {
    RenormalizeIsPrior(policy, valids);
    var ps', vs' := ps[s := Renormalize(policy, valids)], vs[s := valids];
    forall u ensures PriorOk(ps', vs', u) {
      assert PriorOk(ps, vs, u);
    }
  }

  /** A new expanded position has no edge, so its visit count 0 is their sum. */
  lemma ExpandKeepsVisits(n: nat, ns: map<Key, nat>, nsa: map<(Key, int), nat>, vs: map<Key, seq<bool>>, s: Key, valids: seq<bool>)
    requires VisitsOk(n, ns, nsa, vs)
    requires forall e :: e in nsa ==> e.0 != s
    ensures VisitsOk(n, ns[s := 0], nsa, vs[s := valids])
  {
    EdgeCountsNone(nsa, s, n);
    var ns', vs' := ns[s := 0], vs[s := valids];
    forall u ensures VisitOk(n, ns', nsa, vs', u) {
      assert VisitOk(n, ns, nsa, vs, u);
    }
  }

  /** Expanding a leaf whose memoised outcome is 0 keeps the invariant: the
   *  position is not over, so it has a legal move and its stored prior is a
   *  distribution, and it has no edge yet, so its visit count 0 is right. */
  lemma ExpandKeepsInv<B(!new)>(game: Game<B>, predict: B -> (seq<real>, real), t: Tables, backups: map<(Key, int), seq<real>>, board: B)
    requires Inv(game, predict, t, backups)
    requires var s := game.stringRepresentation(board); s !in t.Vs && s in t.Es && t.Es[s] == 0.0
    ensures game.getGameEnded(board) == 0.0 && HasValid(game.getValidMoves(board))
    ensures var s := game.stringRepresentation(board);
      var valids := game.getValidMoves(board);
      Inv(game, predict,
          Tables(t.Qsa, t.Nsa, t.Ns[s := 0], t.Ps[s := Renormalize(predict(board).0, valids)], t.Es, t.Vs[s := valids]),
          backups)
  {
    var s := game.stringRepresentation(board);
    var valids := game.getValidMoves(board);
    assert OutcomeOk(game, t.Es, board);
    ExpandKeepsPriors(t.Ps, t.Vs, s, predict(board).0, valids);
    ExpandKeepsEdges(t.Qsa, t.Nsa, t.Vs, backups, s, valids);
    ExpandKeepsVisits(game.getActionSize, t.Ns, t.Nsa, t.Vs, s, valids);
  }

  /** Expanding a position not expanded before only adds to the tables. */
  lemma ExpandExtends(t: Tables, s: Key, prior: seq<real>, valids: seq<bool>)
    requires s !in t.Ps && s !in t.Vs && s !in t.Ns
    ensures Extends(t, t.(Ns := t.Ns[s := 0], Ps := t.Ps[s := prior], Vs := t.Vs[s := valids]))
  {
    var t' := t.(Ns := t.Ns[s := 0], Ps := t.Ps[s := prior], Vs := t.Vs[s := valids]);
    forall u ensures KeyGrows(t, t', u) {
    }
    forall e ensures EdgeGrows(t, t', e) {
    }
  }

  /** The running-mean update of edge `e` with value `v`. */
  function UpdatedMean(qsa: map<(Key, int), real>, nsa: map<(Key, int), nat>, e: (Key, int), v: real): real
    requires e in qsa ==> e in nsa
  {
    if e in qsa then (nsa[e] as real * qsa[e] + v) / (nsa[e] as real + 1.0) else v
  }

  /** The history of edge `e` with `v` appended. */
  function Appended(backups: map<(Key, int), seq<real>>, e: (Key, int), v: real): map<(Key, int), seq<real>>
  {
    backups[e := (if e in backups then backups[e] else []) + [v]]
  }

  /** The last value backed up through edge `e` is `v`. */
  ghost predicate LastBacked(backups: map<(Key, int), seq<real>>, e: (Key, int), v: real)
  {
    e in backups && |backups[e]| > 0 && backups[e][|backups[e]| - 1] == v
  }

  /** The last value in an edge's appended history is the value appended. */
  lemma AppendedLast(backups: map<(Key, int), seq<real>>, e: (Key, int), v: real)
    ensures LastBacked(Appended(backups, e, v), e, v)
  {
  }

  /** Backing up through an edge already taken: the running mean is the mean
   *  of the extended history. */
  lemma BackupOldEdgeOk(qsa: map<(Key, int), real>, nsa: map<(Key, int), nat>, vs: map<Key, seq<bool>>,
                        backups: map<(Key, int), seq<real>>, e: (Key, int), v: real)
    requires EdgeOk(qsa, nsa, vs, backups, e) && e in nsa
    requires -1.0 <= v <= 1.0
    ensures EdgeOk(qsa[e := UpdatedMean(qsa, nsa, e, v)], nsa[e := nsa[e] + 1], vs, Appended(backups, e, v), e)
  {
    var h := backups[e];
    var h' := Appended(backups, e, v)[e];
    assert h' == h + [v];
    assert InUnitRange(h');
    RunningMean(h, v);
    assert UpdatedMean(qsa, nsa, e, v) == Mean(h');
  }

  /** Backing up through an edge not taken before: its history is [v]. */
  lemma BackupNewEdgeOk(qsa: map<(Key, int), real>, nsa: map<(Key, int), nat>, vs: map<Key, seq<bool>>,
                        backups: map<(Key, int), seq<real>>, e: (Key, int), v: real)
    requires e.0 in vs && 0 <= e.1 < |vs[e.0]| && vs[e.0][e.1]
    requires e !in qsa && e !in nsa && e !in backups
    requires -1.0 <= v <= 1.0
    ensures EdgeOk(qsa[e := UpdatedMean(qsa, nsa, e, v)], nsa[e := 1], vs, Appended(backups, e, v), e)
  {
    assert Appended(backups, e, v)[e] == [v];
    MeanSingleton(v);
  }

  /** Backing a value in [-1, 1] up through a legal edge keeps the edges invariant. */
  lemma BackupKeepsEdges(qsa: map<(Key, int), real>, nsa: map<(Key, int), nat>, vs: map<Key, seq<bool>>,
                         backups: map<(Key, int), seq<real>>, s: Key, a: int, v: real)
    requires EdgesOk(qsa, nsa, vs, backups)
    requires s in vs && 0 <= a < |vs[s]| && vs[s][a]
    requires -1.0 <= v <= 1.0
    ensures (s, a) in qsa ==> (s, a) in nsa
    ensures EdgesOk(qsa[(s, a) := UpdatedMean(qsa, nsa, (s, a), v)], nsa[(s, a) := EdgeCount(nsa, (s, a)) + 1], vs,
                    Appended(backups, (s, a), v))
  {
    var e := (s, a);
    assert EdgeOk(qsa, nsa, vs, backups, e);
    var qsa' := qsa[e := UpdatedMean(qsa, nsa, e, v)];
    var nsa' := nsa[e := EdgeCount(nsa, e) + 1];
    var backups' := Appended(backups, e, v);
    if e in nsa {
      BackupOldEdgeOk(qsa, nsa, vs, backups, e, v);
    } else {
      BackupNewEdgeOk(qsa, nsa, vs, backups, e, v);
    }
    forall e' | e' != e ensures EdgeOk(qsa', nsa', vs, backups', e') {
      assert EdgeOk(qsa, nsa, vs, backups, e');
      BackupOtherEdgeOk(qsa, nsa, vs, backups, e, v, e');
    }
  }

  /** Backing up through edge `e` leaves every other edge as it was. */
  lemma BackupOtherEdgeOk(qsa: map<(Key, int), real>, nsa: map<(Key, int), nat>, vs: map<Key, seq<bool>>,
                          backups: map<(Key, int), seq<real>>, e: (Key, int), v: real, e': (Key, int))
    requires e in qsa ==> e in nsa
    requires EdgeOk(qsa, nsa, vs, backups, e') && e' != e
    ensures EdgeOk(qsa[e := UpdatedMean(qsa, nsa, e, v)], nsa[e := EdgeCount(nsa, e) + 1], vs, Appended(backups, e, v), e')
  {
    var qsa' := qsa[e := UpdatedMean(qsa, nsa, e, v)];
    var nsa' := nsa[e := EdgeCount(nsa, e) + 1];
    var backups' := Appended(backups, e, v);
    assert (e' in nsa' <==> e' in nsa) && (e' in qsa' <==> e' in qsa) && (e' in backups' <==> e' in backups);
    if e' in nsa {
      assert nsa'[e'] == nsa[e'] && qsa'[e'] == qsa[e'] && backups'[e'] == backups[e'];
    }
  }

  /** Counting a visit of edge (s, a) and of s keeps the visit invariant. */
  lemma BackupKeepsVisits(n: nat, ns: map<Key, nat>, nsa: map<(Key, int), nat>, vs: map<Key, seq<bool>>, s: Key, a: int)
    requires VisitsOk(n, ns, nsa, vs) && s in vs && 0 <= a < n
    ensures s in ns
    ensures VisitsOk(n, ns[s := ns[s] + 1], nsa[(s, a) := EdgeCount(nsa, (s, a)) + 1], vs)
  {
    assert VisitOk(n, ns, nsa, vs, s);
    var ns', nsa' := ns[s := ns[s] + 1], nsa[(s, a) := EdgeCount(nsa, (s, a)) + 1];
    forall u ensures VisitOk(n, ns', nsa', vs, u) {
      assert VisitOk(n, ns, nsa, vs, u);
      EdgeCountsAfterVisit(nsa, s, a, n, u);
    }
  }

  /** Backing a value in [-1, 1] up through a legal edge of an expanded
   *  position keeps the invariant: `t2` and `backups2` are the tables and
   *  histories after the backup. */
  lemma BackupKeepsInv<B(!new)>(game: Game<B>, predict: B -> (seq<real>, real), t: Tables, backups: map<(Key, int), seq<real>>,
                                t2: Tables, backups2: map<(Key, int), seq<real>>, s: Key, a: int, v: real)
    requires Inv(game, predict, t, backups)
    requires s in t.Vs && 0 <= a < game.getActionSize && t.Vs[s][a]
    requires -1.0 <= v <= 1.0
    requires s in t.Ns && ((s, a) in t.Qsa ==> (s, a) in t.Nsa)
    requires t2 == Tables(t.Qsa[(s, a) := UpdatedMean(t.Qsa, t.Nsa, (s, a), v)],
                          t.Nsa[(s, a) := EdgeCount(t.Nsa, (s, a)) + 1],
                          t.Ns[s := t.Ns[s] + 1],
                          t.Ps, t.Es, t.Vs)
    requires backups2 == Appended(backups, (s, a), v)
    ensures Inv(game, predict, t2, backups2)
  {
    BackupKeepsEdges(t.Qsa, t.Nsa, t.Vs, backups, s, a, v);
    BackupKeepsVisits(game.getActionSize, t.Ns, t.Nsa, t.Vs, s, a);
  }

  /** A backup only adds to the tables. */
  lemma BackupExtends(t: Tables, s: Key, a: int, v: real)
    requires s in t.Ns && ((s, a) in t.Qsa ==> (s, a) in t.Nsa)
    ensures Extends(t, t.(Qsa := t.Qsa[(s, a) := UpdatedMean(t.Qsa, t.Nsa, (s, a), v)],
                          Nsa := t.Nsa[(s, a) := EdgeCount(t.Nsa, (s, a)) + 1],
                          Ns := t.Ns[s := t.Ns[s] + 1]))
  {
    var t' := t.(Qsa := t.Qsa[(s, a) := UpdatedMean(t.Qsa, t.Nsa, (s, a), v)],
                 Nsa := t.Nsa[(s, a) := EdgeCount(t.Nsa, (s, a)) + 1],
                 Ns := t.Ns[s := t.Ns[s] + 1]);
    forall u ensures KeyGrows(t, t', u) {
    }
    forall e ensures EdgeGrows(t, t', e) {
    }
  }

  /** Root visit counts are positive only on legal actions of an expanded
   *  position, so the policy built from them never favours an illegal move. */
  lemma CountsOnlyOnLegal<B(!new)>(game: Game<B>, predict: B -> (seq<real>, real), t: Tables, backups: map<(Key, int), seq<real>>, s: Key, a: int)
    requires Inv(game, predict, t, backups)
    requires EdgeCount(t.Nsa, (s, a)) > 0
    ensures s in t.Vs && 0 <= a < |t.Vs[s]| && t.Vs[s][a]
  {
    assert EdgeOk(t.Qsa, t.Nsa, t.Vs, backups, (s, a));
  }

  /** An expanded position's visit count is the sum of its root visit counts. */
  lemma VisitsAreEdgeSum<B(!new)>(game: Game<B>, predict: B -> (seq<real>, real), t: Tables, backups: map<(Key, int), seq<real>>, s: Key)
    requires Inv(game, predict, t, backups)
    requires s in t.Vs
    ensures s in t.Ns && t.Ns[s] == SumNat(EdgeCounts(t.Nsa, s, game.getActionSize))
  {
    assert VisitOk(game.getActionSize, t.Ns, t.Nsa, t.Vs, s);
  }

  /** The policy made from the visit counts of the root's edges: at
   *  temperature 0 all the mass goes to the first most-visited action; at
   *  temperature 1 each action's share is its count over the total, and a
   *  zero total is a division by zero. */
  function Policy(counts: seq<nat>, temp: real): Result<seq<real>>
    requires |counts| > 0
    requires temp == 0.0 || temp == 1.0
  {
    if temp == 0.0 then Ok(OneHot(|counts|, FirstArgMax(counts)))
    else if SumNat(counts) == 0 then Raise(ZeroDivisionError)
    else Ok(Normalize(counts))
  }

  /** The policy fails exactly at temperature 1 with no visits; otherwise it
   *  is a probability distribution over the actions. */
  lemma PolicyIsDistribution(counts: seq<nat>, temp: real)
    requires |counts| > 0
    requires temp == 0.0 || temp == 1.0
    ensures Policy(counts, temp).Raise? <==> temp == 1.0 && SumNat(counts) == 0
    ensures Policy(counts, temp).Raise? ==> Policy(counts, temp).error == ZeroDivisionError
    ensures Policy(counts, temp).Ok? ==>
      var p := Policy(counts, temp).value;
      |p| == |counts| && NonNegative(p) && Sum(p) == 1.0
  {
    if temp == 0.0 {
      OneHotIsDistribution(|counts|, FirstArgMax(counts));
    } else if SumNat(counts) > 0 {
      NormalizeIsDistribution(counts);
      NormalizeSumsToOne(counts);
    }
  }

  /** When some edge was taken, the policy gives positive probability only to
   *  actions that were visited. */
  lemma PolicyFollowsVisits(counts: seq<nat>, temp: real, a: int)
    requires |counts| > 0
    requires temp == 0.0 || temp == 1.0
    requires SumNat(counts) > 0 && 0 <= a < |counts|
    ensures Policy(counts, temp).Ok?
    ensures Policy(counts, temp).value[a] > 0.0 ==> counts[a] > 0
  {
    if temp == 0.0 {
      ArgMaxPositive(counts);
    } else {
      NormalizeZeros(counts);
    }
  }

  /** At temperature 0 the policy is one-hot on a most-visited action, the
   *  first among equals. */
  lemma PolicyGreedy(counts: seq<nat>, a: int)
    requires |counts| > 0 && 0 <= a < |counts|
    ensures var p := Policy(counts, 0.0).value;
      && (p[a] == 1.0 || p[a] == 0.0)
      && (p[a] == 1.0 ==> forall b :: 0 <= b < |counts| ==> counts[b] <= counts[a])
      && (p[a] == 1.0 ==> forall b :: 0 <= b < a ==> counts[b] < counts[a])
  {
  }

  class MCTS<B(!new)> {
    const game: Game<B>
    const predict: B -> (seq<real>, real)
    const args: Args
    /** math.sqrt, left abstract. */
    const sqrt: real -> real
    const maxTreeDepth: int

    /** Mean value of each edge (s, a). */
    var Qsa: map<(Key, int), real>
    /** Times each edge was taken. */
    var Nsa: map<(Key, int), nat>
    /** Times each expanded position was passed through. */
    var Ns: map<Key, nat>
    /** Prior of each expanded position. */
    var Ps: map<Key, seq<real>>
    /** Memoised outcome of each position seen. */
    var Es: map<Key, real>
    /** Legal-move mask of each expanded position. */
    var Vs: map<Key, seq<bool>>
    /** Every value backed up through each edge, oldest first. */
    ghost var Backups: map<(Key, int), seq<real>>

    function State(): Tables
      reads this
    {
      Tables(Qsa, Nsa, Ns, Ps, Es, Vs)
    }

    ghost predicate Valid()
      reads this
    {
      Inv(game, predict, State(), Backups)
    }

    constructor (game: Game<B>, predict: B -> (seq<real>, real), args: Args, sqrt: real -> real)
      requires WellFormed(game, predict)
      ensures Valid()
      ensures this.game == game && this.predict == predict && this.args == args && this.sqrt == sqrt
      ensures maxTreeDepth == args.maxMoves
      ensures State() == Tables(map[], map[], map[], map[], map[], map[])
    {
      this.game := game;
      this.predict := predict;
      this.args := args;
      this.sqrt := sqrt;
      this.maxTreeDepth := args.maxMoves;
      Qsa, Nsa, Ns, Ps, Es, Vs := map[], map[], map[], map[], map[], map[];
      Backups := map[];
    }

    function KeyOf(board: B): Key
    {
      game.stringRepresentation(board)
    }

    /** The visit counts of the edges leaving `s`, one per action. */
    function Counts(s: Key): seq<nat>
      reads this
    {
      EdgeCounts(Nsa, s, game.getActionSize)
    }

    /** The outcome the terminal check sees: the memoised one if there is
     *  one, else the rules engine's. */
    ghost function Outcome(board: B): real
      reads this
    {
      if KeyOf(board) in Es then Es[KeyOf(board)] else game.getGameEnded(board)
    }

    /** The upper confidence bound of edge (s, a). */
    function Score(s: Key, a: int): real
      reads this
      requires Valid() && s in Vs && 0 <= a < game.getActionSize
    {
      assert EdgeOk(Qsa, Nsa, Vs, Backups, (s, a));
      if (s, a) in Qsa then
        Qsa[(s, a)] + args.cpuct * Ps[s][a] * sqrt(Ns[s] as real) / (1 + Nsa[(s, a)]) as real
      else
        args.cpuct * Ps[s][a] * sqrt(Ns[s] as real + EPS)
    }

    /** The action the selection loop holds after scanning actions 0..n-1: a
     *  legal action of highest score, the first one among equal scores; -1
     *  when none of them is legal. */
    function BestUpTo(s: Key, n: nat): (best: int)
      reads this
      requires Valid() && s in Vs && n <= game.getActionSize
      ensures -1 <= best < n
      ensures best == -1 <==> forall a :: 0 <= a < n ==> !Vs[s][a]
      ensures best >= 0 ==> Vs[s][best]
      ensures best >= 0 ==> forall a :: 0 <= a < n && Vs[s][a] ==> Score(s, a) <= Score(s, best)
      ensures best >= 0 ==> forall a :: 0 <= a < best && Vs[s][a] ==> Score(s, a) < Score(s, best)
    {
      if n == 0 then -1
      else
        var best := BestUpTo(s, n - 1);
        if Vs[s][n - 1] && (best == -1 || Score(s, n - 1) > Score(s, best)) then n - 1 else best
    }

    /** Pick the action of an expanded position by upper confidence bound. */
    method Select(s: Key) returns (best: int)
      requires Valid() && s in Vs
      ensures best == BestUpTo(s, game.getActionSize)
      ensures 0 <= best < game.getActionSize && Vs[s][best]
      ensures forall a :: 0 <= a < game.getActionSize && Vs[s][a] ==> Score(s, a) <= Score(s, best)
      ensures forall a :: 0 <= a < best && Vs[s][a] ==> Score(s, a) < Score(s, best)
    {
      assert PriorOk(Ps, Vs, s);
      var curBest := 0.0;  // stands for minus infinity while best == -1
      best := -1;
      for a := 0 to game.getActionSize
        invariant best == BestUpTo(s, a)
        invariant best >= 0 ==> curBest == Score(s, best)
      {
        if Vs[s][a] {
          var u := Score(s, a);
          if best == -1 || u > curBest {
            curBest := u;
            best := a;
          }
        }
      }
    }

    /** Expand a leaf: store the masked, renormalised prior, the mask and a
     *  zero visit count, and return the negated value estimate. */
    method Expand(board: B) returns (r: real)
      requires Valid()
      requires KeyOf(board) !in Ps && KeyOf(board) in Es && Es[KeyOf(board)] == 0.0
      modifies this`Ps, this`Vs, this`Ns
      ensures Valid() && Extends(old(State()), State())
      ensures game.getGameEnded(board) == 0.0 && HasValid(game.getValidMoves(board))
      ensures Ps == old(Ps)[KeyOf(board) := Renormalize(predict(board).0, game.getValidMoves(board))]
      ensures Vs == old(Vs)[KeyOf(board) := game.getValidMoves(board)]
      ensures Ns == old(Ns)[KeyOf(board) := 0]
      ensures r == -predict(board).1
    {
      var s := KeyOf(board);
      assert PriorOk(Ps, Vs, s) && VisitOk(game.getActionSize, Ns, Nsa, Vs, s);
      var (policy, v) := predict(board);
      var valids := game.getValidMoves(board);
      ExpandKeepsInv(game, predict, State(), Backups, board);
      ExpandExtends(State(), s, Renormalize(policy, valids), valids);
      Ps, Vs, Ns := Ps[s := Renormalize(policy, valids)], Vs[s := valids], Ns[s := 0];
      r := -v;
    }

    /** Back up value `v` through edge (s, a): the edge's mean takes in `v`,
     *  and the edge and the position are counted once more. */
    method Backup(s: Key, a: int, v: real)
      requires Valid()
      requires s in Vs && 0 <= a < game.getActionSize && Vs[s][a]
      requires -1.0 <= v <= 1.0
      modifies this`Qsa, this`Nsa, this`Ns, this`Backups
      ensures Valid() && Extends(old(State()), State())
      ensures s in old(Ns) && ((s, a) in old(Qsa) ==> (s, a) in old(Nsa))
      ensures Qsa == old(Qsa)[(s, a) := UpdatedMean(old(Qsa), old(Nsa), (s, a), v)]
      ensures Nsa == old(Nsa)[(s, a) := EdgeCount(old(Nsa), (s, a)) + 1]
      ensures Ns == old(Ns)[s := old(Ns)[s] + 1]
      ensures Backups == Appended(old(Backups), (s, a), v)
    {
      var e := (s, a);
      assert VisitOk(game.getActionSize, Ns, Nsa, Vs, s);
      assert EdgeOk(Qsa, Nsa, Vs, Backups, e);
      BackupExtends(State(), s, a, v);
      Qsa, Nsa, Ns, Backups :=
        Qsa[e := UpdatedMean(Qsa, Nsa, e, v)], Nsa[e := EdgeCount(Nsa, e) + 1], Ns[s := Ns[s] + 1], Appended(Backups, e, v);
      BackupKeepsInv(game, predict, old(State()), old(Backups), State(), Backups, s, a, v);
    }
    /** Run the configured number of simulations from `board`, then turn
     *  the visit counts of its edges into a policy. Every action the policy
     *  gives positive probability, when some edge was taken, is legal. */
    method GetActionProb(board: B, temp: real) returns (probs: Result<seq<real>>)
      requires Valid()
      requires temp == 0.0 || temp == 1.0
      modifies this`Qsa, this`Nsa, this`Ns, this`Ps, this`Es, this`Vs, this`Backups
      ensures Valid() && Extends(old(State()), State())
      ensures probs == Policy(Counts(KeyOf(board)), temp)
      ensures probs.Ok? && SumNat(Counts(KeyOf(board))) > 0 ==>
        forall a :: 0 <= a < game.getActionSize && probs.value[a] > 0.0 ==>
          KeyOf(board) in Vs && Vs[KeyOf(board)][a]
      ensures args.numMCTSSims >= 1 && maxTreeDepth > 0 && old(Outcome(board)) == 0.0 ==>
        KeyOf(board) in Vs
      ensures args.numMCTSSims >= 2 && maxTreeDepth > 0 && old(Outcome(board)) == 0.0 ==>
        SumNat(Counts(KeyOf(board))) > 0
    {
      ghost var t0 := State();
      ghost var root := KeyOf(board);
      ghost var live := maxTreeDepth > 0 && Outcome(board) == 0.0;
      ExtendsReflexive(t0);
      for i := 0 to args.numMCTSSims
        invariant Valid() && Extends(t0, State())
        invariant i == 0 ==> State() == t0
        invariant i >= 1 && live ==> root in Vs && root in Ns && (Ns[root] > 0 || (root in Es && Es[root] == 0.0))
        invariant i >= 2 && live ==> root in Vs && root in Ns && Ns[root] > 0
      {
        ghost var t1 := State();
        var _ := Search(board, 0);
        assert KeyGrows(t1, State(), root);
        ExtendsTransitive(t0, t1, State());
      }
      if args.numMCTSSims >= 2 && live {
        VisitsAreEdgeSum(game, predict, State(), Backups, root);
      }
      var s := KeyOf(board);
      var counts := Counts(s);
      probs := Policy(counts, temp);
      if probs.Ok? && SumNat(counts) > 0 {
        forall a | 0 <= a < |counts| && probs.value[a] > 0.0
          ensures s in Vs && Vs[s][a]
        {
          PolicyFollowsVisits(counts, temp, a);
          CountsOnlyOnLegal(game, predict, State(), Backups, s, a);
        }
      }
    }

    /** Memoise the rules engine's outcome for `board` unless its key already
     *  has one; afterwards the memo holds the outcome the terminal check sees. */
    method Memo(board: B)
      requires Valid()
      modifies this`Es
      ensures Valid() && Extends(old(State()), State())
      ensures Es == old(Es)[KeyOf(board) := old(Outcome(board))]
      ensures -1.0 <= Es[KeyOf(board)] <= 1.0
      ensures Es[KeyOf(board)] == 0.0 ==> game.getGameEnded(board) == 0.0
    {
      var s := KeyOf(board);
      ghost var t0 := State();
      if s !in Es {
        MemoExtends(t0, s, game.getGameEnded(board));
        Es := Es[s := game.getGameEnded(board)];
        MemoKeepsInv(game, predict, t0, Backups, board, game.getGameEnded(board), State());
      } else {
        ExtendsReflexive(t0);
      }
      assert OutcomeOk(game, Es, board);
    }

    /** One simulation from `board`, `depth` moves below the root: stop at
     *  the depth limit, return the outcome of a finished game, expand a new
     *  leaf, or descend through an expanded position. The result is the value
     *  of `board` for the player who moved into it. */
    method Search(board: B, depth: int) returns (r: real)
      requires Valid()
      modifies this`Qsa, this`Nsa, this`Ns, this`Ps, this`Es, this`Vs, this`Backups
      decreases maxTreeDepth - depth, 1
      ensures Valid() && Extends(old(State()), State())
      ensures -1.0 <= r <= 1.0
      ensures depth >= maxTreeDepth ==>
        && r == -DepthSentinel
        && State() == old(State()).(Es := old(Es)[KeyOf(board) := DepthSentinel])
        && Backups == old(Backups)
      ensures depth < maxTreeDepth && old(Outcome(board)) != 0.0 ==>
        && r == -old(Outcome(board))
        && State() == old(State()).(Es := old(Es)[KeyOf(board) := old(Outcome(board))])
        && Backups == old(Backups)
      ensures depth < maxTreeDepth && old(Outcome(board)) == 0.0 && KeyOf(board) !in old(Vs) ==>
        && game.getGameEnded(board) == 0.0
        && r == -predict(board).1
        && State() == Tables(old(Qsa), old(Nsa), old(Ns)[KeyOf(board) := 0],
                             old(Ps)[KeyOf(board) := Renormalize(predict(board).0, game.getValidMoves(board))],
                             old(Es)[KeyOf(board) := 0.0], old(Vs)[KeyOf(board) := game.getValidMoves(board)])
        && Backups == old(Backups)
      ensures depth < maxTreeDepth && old(Outcome(board)) == 0.0 && KeyOf(board) in old(Vs) ==>
        var s := KeyOf(board);
        var a := old(BestUpTo(s, game.getActionSize));
        && 0 <= a && old(Vs)[s][a]
        && s in old(Ns) && s in Ns && old(Ns)[s] < Ns[s]
        && EdgeCount(old(Nsa), (s, a)) < EdgeCount(Nsa, (s, a))
        && LastBacked(Backups, (s, a), -r)
    {
      var s := KeyOf(board);
      ghost var t0 := State();
      if depth >= maxTreeDepth {
        MemoExtends(t0, s, DepthSentinel);
        Es := Es[s := DepthSentinel];
        MemoKeepsInv(game, predict, t0, Backups, board, DepthSentinel, State());
        return -Es[s];
      }
      Memo(board);
      if Es[s] != 0.0 {
        return -Es[s];
      }
      ghost var t1 := State();
      if s !in Ps {
        r := Expand(board);
        ExtendsTransitive(t0, t1, State());
        return;
      }
      assert PriorOk(t0.Ps, t0.Vs, s);
      assert Es == t0.Es;
      r := Descend(board, depth);
    }

    /** The search below an expanded position that is not over: select the
     *  edge of highest upper confidence bound, search the canonical board
     *  it leads to one level deeper, back the value up through the edge and
     *  return it negated. */
    method Descend(board: B, depth: int) returns (r: real)
      requires Valid() && depth < maxTreeDepth && KeyOf(board) in Vs
      modifies this`Qsa, this`Nsa, this`Ns, this`Ps, this`Es, this`Vs, this`Backups
      decreases maxTreeDepth - depth, 0
      ensures Valid() && Extends(old(State()), State())
      ensures -1.0 <= r <= 1.0
      ensures var s := KeyOf(board);
        var a := old(BestUpTo(s, game.getActionSize));
        && 0 <= a && old(Vs)[s][a]
        && s in old(Ns) && s in Ns && old(Ns)[s] < Ns[s]
        && EdgeCount(old(Nsa), (s, a)) < EdgeCount(Nsa, (s, a))
        && LastBacked(Backups, (s, a), -r)
    {
      var s := KeyOf(board);
      ghost var t1 := State();
      var a := Select(s);
      var (nextBoard, nextPlayer) := game.getNextState(board, a);
      var next := game.getCanonicalForm(nextBoard, nextPlayer);
      var v := Search(next, depth + 1);
      ghost var t2, backups2 := State(), Backups;
      assert KeyGrows(t1, t2, s) && EdgeGrows(t1, t2, (s, a));
      Backup(s, a, v);
      AppendedLast(backups2, (s, a), v);
      ExtendsTransitive(t1, t2, State());
      r := -v;
    }
  }
}
