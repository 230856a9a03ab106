# MiniChess AlphaZero: the search engine and the action decoder, in Dafny

This project models two parts of the MiniChess AlphaZero player and proves
properties of them.

- **The Monte Carlo tree search** (`learning/alpha_zero/distributed/mcts.py`,
  class `MCTS`), modelled in `mcts.dfy` as the class `Mcts.MCTS`. Like the
  original object, it holds six dictionaries that its methods update in place:
  - `Qsa`: the mean value of each edge (position, action);
  - `Nsa`: how often each edge was taken;
  - `Ns`: how often each expanded position was passed through;
  - `Ps`: the prior of each expanded position;
  - `Es`: the memoised outcome of each position seen;
  - `Vs`: the legal-move mask of each expanded position.

  It also holds the depth limit `maxTreeDepth`.
  - `Search` is one simulation: depth guard, outcome memo, terminal return, leaf expansion, and the descent along the edge of highest upper confidence bound followed by the backup.
  - `GetActionProb` runs the configured number of simulations and turns the root's visit counts into a policy.
  - The search's internal steps are methods of their own: `Memo`, `Expand`, `Select`, `Descend` and `Backup`.

  Each is proved against the class invariant `Valid()`:
  - every expanded position has a mask, a prior and a visit count of the right size, and a memoised outcome;
  - every prior is a distribution over the position's legal moves;
  - every memoised outcome is the rules engine's outcome or the depth sentinel;
  - every edge is legal, and its mean is the mean of the values backed up through it;
  - each position's visit count is the sum of its edges' counts.

  The methods also show that the tables only grow (`Extends`).

- **The action decoder** (`learning/action.py`), modelled in `action.dfy` as pure functions:
  - the lookup tables from network argmax indices to pieces, move types and magnitudes;
  - the geometry that turns a move type and a magnitude into a destination square;
  - the conversion of an action into a move.

`vectors.dfy` holds the numpy-style vector arithmetic the search uses:
- masking, renormalising and normalising;
- `argmax`, one-hot vectors and sums;
- the running mean.

It also holds the lemmas about them. `errors.dfy` names the Python exceptions that the modelled code can raise.

Nothing is executed. Values are exact reals and unbounded integers.

The collaborators are parameters, bundled in the `Game` datatype:
- the rules engine: `stringRepresentation`, `getGameEnded`, `getValidMoves`, `getNextState`, `getCanonicalForm` and `getActionSize`;
- the neural network's `predict`;
- `math.sqrt`.

What the search relies on them for is the predicate `WellFormed`:
- the action space is non-empty;
- masks and policies have the action-space size;
- policies are non-negative;
- outcomes and values lie in [-1, 1];
- a position that is not over has a legal move;
- positions with equal keys have equal outcomes.

## Model

| member | source | states |
|---|---|---|
| `Action.PieceDictColoursAgree` | learning/action.py:15-40 | the piece table has keys 0..9 for both colours; a key names the same piece kind in both; the white id is the key and the black id is ten more |
| `Action.PieceDictKinds` | learning/action.py:17-38 | keys 0..4 are pawns, then rook, knight, bishop, queen and king |
| `Action.TypeDictBijective` | learning/action.py:42-48 | the move-type table is a bijection from 0..4 onto the five action types; any other key raises KeyError |
| `Action.MagDictIncreasing` | learning/action.py:51-60 | the magnitude table is strictly increasing on its keys 0..7 |
| `Action.MagDictOnto` | learning/action.py:51-60 | the magnitude table maps its keys onto exactly the nonzero integers of [-4, 4]; `MagIndex` is its inverse |
| `Action.KnightwiseIsKnightJump` | learning/action.py:139-155 | each of the eight knight-wise magnitudes gives a knight's jump: one square along one axis and two along the other |
| `Action.KnightwiseInjective` | learning/action.py:139-155 | distinct knight-wise magnitudes give distinct destinations |
| `Action.KnightwiseMirror` | learning/action.py:139-155 | negating a knight-wise magnitude mirrors the jump: same row, opposite column offset |
| `Action.KnightwiseRaises` | learning/action.py:139-169 | a knight-wise magnitude outside the eight falls through to the RuntimeError, and only such a magnitude does |
| `Action.SlidingMoves` | learning/action.py:157-167 | the diagonal, horizontal and vertical types move `magnitude` steps along their direction; the distance covered is the magnitude's absolute value |
| `Action.DecodedActionsMove` | learning/action.py:42-60 | every action decoded through the type and magnitude tables has a destination, and it differs from the source square |
| `Action.ToMiniChessMove` | learning/action.py:114-136 | a piece not on the board gives INVALID_MOVE; otherwise the move goes from the piece's square to the computed destination and carries the piece on that square, and it raises exactly when the destination raises |
| `Action.InvalidOnlyWhenNotFound` | learning/action.py:126-136 | for a nonzero magnitude, the conversion returns INVALID_MOVE exactly when the piece is not on the board, and a converted move never stays in place |
| `Vectors.RenormalizeIsPrior` | learning/alpha_zero/distributed/mcts.py:89-110 | the prior stored for a new leaf is non-negative, zero on illegal moves and sums to one, in both the renormalising branch and the fallback branch |
| `Vectors.RenormalizeProportional` | learning/alpha_zero/distributed/mcts.py:94-102 | when the masked policy has positive mass, each legal move's prior times that mass is the network's probability for it |
| `Vectors.RenormalizeFallback` | learning/alpha_zero/distributed/mcts.py:103-110 | when the masked policy has no mass, the prior is the mask divided by the number of legal moves |
| `Vectors.RenormalizeUniform` | learning/alpha_zero/distributed/mcts.py:103-110 | in the fallback, every legal move gets the same share 1/(number of legal moves) |
| `Vectors.FirstArgMax` | learning/alpha_zero/distributed/mcts.py:41 | the argmax index holds a largest count, and every earlier index holds a smaller one |
| `Vectors.ArgMaxPositive` | learning/alpha_zero/distributed/mcts.py:41 | when some count is positive, the argmax count is positive |
| `Vectors.OneHotIsDistribution` | learning/alpha_zero/distributed/mcts.py:42-43 | the temperature-0 one-hot policy is non-negative and sums to one |
| `Vectors.NormalizeSumsToOne` | learning/alpha_zero/distributed/mcts.py:46-47 | the temperature-1 policy sums to one |
| `Vectors.NormalizeProportional` | learning/alpha_zero/distributed/mcts.py:46-47 | each share of the temperature-1 policy times the total count is that action's count |
| `Vectors.NormalizeZeros` | learning/alpha_zero/distributed/mcts.py:46-47 | shares are non-negative, and a share is zero exactly when its count is zero |
| `Vectors.NormalizeIsDistribution` | learning/alpha_zero/distributed/mcts.py:46-47 | the temperature-1 policy is a probability distribution |
| `Vectors.RunningMean` | learning/alpha_zero/distributed/mcts.py:139 | the running-mean update (n*q + v)/(n+1) is the mean of the history extended by v |
| `Vectors.MeanSingleton` | learning/alpha_zero/distributed/mcts.py:143 | a first backup sets the edge's mean to the value itself |
| `Vectors.MeanInUnitRange` | learning/alpha_zero/distributed/mcts.py:138-144 | the mean of values in [-1, 1] lies in [-1, 1] |
| `Mcts.EdgeCountsAfterVisit` | learning/alpha_zero/distributed/mcts.py:138-146 | taking an edge once adds one to its source position's edge total and changes no other position's total |
| `Mcts.SentinelKeepsOutcomes` | learning/alpha_zero/distributed/mcts.py:71-73 | storing the depth sentinel for any key keeps every memoised outcome either the engine's or the sentinel |
| `Mcts.OutcomeKeepsOutcomes` | learning/alpha_zero/distributed/mcts.py:75-76 | memoising the engine's outcome keeps the outcomes invariant, because equal keys have equal outcomes |
| `Mcts.MemoKeepsInv` | learning/alpha_zero/distributed/mcts.py:71-76 | memoising the engine's outcome or the depth sentinel keeps the whole invariant |
| `Mcts.MemoExtends` | learning/alpha_zero/distributed/mcts.py:71-76 | memoising for a new key, or storing the sentinel for any key, only grows the tables |
| `Mcts.ExpandKeepsInv` | learning/alpha_zero/distributed/mcts.py:81-114 | expanding a leaf whose outcome is 0 keeps the invariant: the position has a legal move, its prior is a distribution over its legal moves, and its visit count 0 is the sum of its (no) edges |
| `Mcts.ExpandExtends` | learning/alpha_zero/distributed/mcts.py:81-114 | expanding a position not expanded before only grows the tables |
| `Mcts.BackupOldEdgeOk` | learning/alpha_zero/distributed/mcts.py:138-140 | backing up through an edge already taken keeps the edge's mean equal to the mean of its values and its count equal to their number |
| `Mcts.BackupNewEdgeOk` | learning/alpha_zero/distributed/mcts.py:142-144 | backing up through a new legal edge gives it count 1 and mean v |
| `Mcts.BackupKeepsEdges` | learning/alpha_zero/distributed/mcts.py:138-144 | a backup through a legal edge keeps every edge legal, counted and averaged correctly; the mean is only read where the count exists |
| `Mcts.BackupKeepsVisits` | learning/alpha_zero/distributed/mcts.py:138-146 | after counting the edge and the position once more, each position's visit count is again the sum of its edges' counts |
| `Mcts.BackupKeepsInv` | learning/alpha_zero/distributed/mcts.py:138-146 | backing a value in [-1, 1] up through a legal edge keeps the whole invariant |
| `Mcts.BackupExtends` | learning/alpha_zero/distributed/mcts.py:138-146 | a backup only grows the tables: the counts of the edge and of the position increase |
| `Mcts.CountsOnlyOnLegal` | learning/alpha_zero/distributed/mcts.py:39 | an edge with a positive visit count leaves an expanded position by a legal action |
| `Mcts.VisitsAreEdgeSum` | learning/alpha_zero/distributed/mcts.py:146 | an expanded position's visit count is the sum of its root visit counts |
| `Mcts.PolicyIsDistribution` | learning/alpha_zero/distributed/mcts.py:38-48 | the policy raises ZeroDivisionError exactly at temperature 1 with no visits; otherwise it is a probability distribution over the actions |
| `Mcts.PolicyFollowsVisits` | learning/alpha_zero/distributed/mcts.py:40-48 | when some edge was taken, the policy gives positive probability only to visited actions |
| `Mcts.PolicyGreedy` | learning/alpha_zero/distributed/mcts.py:40-44 | at temperature 0 the policy is one-hot on a most-visited action, the first among equals |
| `Mcts.MCTS.constructor` | learning/alpha_zero/distributed/mcts.py:15-25 | all six tables start empty, the depth limit is `maxMoves`, and the invariant holds |
| `Mcts.MCTS.BestUpTo` | learning/alpha_zero/distributed/mcts.py:116-132 | after scanning actions 0..n-1, the selection holds a legal action of highest score, strictly ahead of every earlier legal action; it holds -1 exactly when none of them is legal |
| `Mcts.MCTS.Select` | learning/alpha_zero/distributed/mcts.py:116-132 | the selection loop returns a legal action whose upper confidence bound is the highest, the first among equals |
| `Mcts.MCTS.Expand` | learning/alpha_zero/distributed/mcts.py:81-114 | a leaf gets the renormalised prior, the mask and visit count 0, keeping the invariant; the result is the negated network value |
| `Mcts.MCTS.Backup` | learning/alpha_zero/distributed/mcts.py:138-147 | the edge's mean takes in v by the running-mean formula (or becomes v for a new edge); the edge and the position are counted once more; the invariant holds and the tables only grow |
| `Mcts.MCTS.Memo` | learning/alpha_zero/distributed/mcts.py:75-76 | the engine's outcome is memoised only for a key without one; afterwards the memo is in [-1, 1] and is 0 only for a game that is not over |
| `Mcts.MCTS.Search` | learning/alpha_zero/distributed/mcts.py:51-147 | see the list after this table |
| `Mcts.MCTS.Descend` | learning/alpha_zero/distributed/mcts.py:116-147 | the action taken is the one of highest bound at entry; its edge count and the position's visit count increase; the value just backed up through that edge is the child's value, and the result is its negation, in [-1, 1] |
| `Mcts.MCTS.GetActionProb` | learning/alpha_zero/distributed/mcts.py:27-48 | after the simulations, the result is the policy of the root's visit counts; when some edge was taken, it gives positive probability only to legal actions; with a positive depth limit and a root whose game is not over, one simulation expands the root and two give it a visited edge; the invariant holds and the tables only grow |

What `Mcts.MCTS.Search` states, case by case:
- **Depth limit.** Only the depth sentinel 1e-4 is stored, and the result is -1e-4.
- **Finished game.** The outcome is memoised, and the result is its negation.
- **New leaf.** The leaf is expanded, and the result is the negated network value.
- **Expanded position.** The search descends along the action of highest bound at entry. That edge and the position are counted once more. The last value backed up through the edge is the child's value, and the result is its negation.
- **In every case:**
  - the result lies in [-1, 1];
  - the invariant holds;
  - the tables only grow.

## Left out

- The neural network (`NNet.py`) is not part of this model. Its `predict` is a function parameter. The special case at mcts.py:83-86, where the network sees a dark-chess view, is folded into that parameter.
- `king.py` is not part of this model. Neither are the rules engine nor the board representation. They appear only through the `Game` parameter.
- `MCTS.__getstate__` (mcts.py:149-152) only concerns pickling.
- `MiniChessAction.from_vectors` (action.py:86-112) and `is_valid_action` are left out. The lookup tables that `from_vectors` reads are modelled.
- IEEE doubles are modelled as exact reals, and `math.sqrt` as an abstract function. The selection loop's initial minus infinity is modelled as "no action held yet" (`best == -1`).
- The player argument the search passes to `getGameEnded`, `getValidMoves` and `getNextState` is always 1. It is folded into those functions.
- The collaborators are pure, and `WellFormed` states what the search assumes of them. The source would also run on an engine that reports no legal move in a game that is not over. Expanding such a position stores a NaN prior, since numpy divides 0 by 0 at mcts.py:109-110. Only the next visit of that position would select action -1.
- `Mcts.MCTS.GetActionProb` requires the temperature to be 0 or 1. The source accepts any temperature and raises counts to the power 1/temp, and that real exponentiation is not modelled.
- The ghost table `Backups` is not in the source. It records every value backed up through each edge, so that the invariant can say what `Qsa` means.

Two behaviours of the depth guard are modelled as the code has them:
- It overwrites any memoised outcome with the sentinel, even one set before. A key's outcome can therefore change once more after it is first memoised, and only to the sentinel.
- It stores +1e-4 and returns the negation, -1e-4.
