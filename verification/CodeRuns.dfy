/** Runs of one thread that puts messages and writes leaves out, with the choices that the
    code makes from node sizes: a put splits a root that is too full, evenly, before it goes
    on; promotion goes all the way to a leaf at either edge of the tree, through children
    that need neither split nor merge; the shortcut is tried first once the score allows it,
    and leaves a leaf alone that is too full or too empty. What holds of all runs needs none
    of this; a statement that some run exists does. */
module CodeRuns {
  import opened Keys
  import opened Messages
  import opened Entries
  import opened Nodes
  import opened Leaves
  import opened Splitting
  import opened Paths
  import opened Query
  import opened Protocol
  import opened Flusher
  import opened Promotion
  import opened Rightmost
  import opened Shortcut
  import opened ShortcutTree
  import opened ShortcutRuns

  /** Sizes, and how much goes into one basement when a leaf is written out. */
  datatype Sizes = Sizes(tuning: Tuning, basement: nat)

  /** Promotion along an edge of the tree ends in the leaf at the end of the path. */
  predicate PromotesTo(t: Tuning, e: Kid, loc: Loc, path: Path)
    requires ValidPath(e, path)
    decreases path
  {
    if |path| == 0 then e.child.Leaf?
    else
      var kid, next := e.child.kids[path[0]], NextLoc(loc, e.child, path[0]);
      && |kid.buf| == 0 && next != NEITHER_EXTREME && ReactivityOf(t, kid.child).Stable?
      && PromotesTo(t, kid, next, path[1..])
  }

  /** The tests of ft_maybe_insert_into_rightmost_leaf once the leaf is locked. */
  predicate ShortcutTaken(t: Tuning, s: State, key: Key, unique: bool)
    requires AtLeaf(s)
  {
    ReactivityOf(t, LastLeaf(s)).Stable? && Inserts(LastLeaf(s), key, unique)
  }

  ghost predicate ByCode(z: Sizes, c: Config, move: Move)
    requires CanMove(c, move)
  {
    match move
    case Direct(key, unique, _) => c.score >= SCORE_THRESHOLD && ShortcutTaken(z.tuning, c.s, key, unique)
    case Ordinary(step) =>
      match step
      case Inject(path, scope, _) =>
        && !ReactivityOf(z.tuning, c.s.top.child).Fissible?
        && (scope.Once? ==> c.score < SCORE_THRESHOLD && PromotesTo(z.tuning, c.s.top, Loc(true, true), path))
      case LockTopDown(path) => |path| == 0 && ReactivityOf(z.tuning, c.s.top.child).Fissible?
      case NewRoot(_) => ReactivityOf(z.tuning, c.s.top.child).Fissible?
      case SplitChild(path, i, at, _) =>
        var n := EdgeAt(c.s.top, path).child.kids[i].child;
        && |path| == 0 && |EdgeAt(c.s.top, path).child.kids| == 1 && ReactivityOf(z.tuning, n).Fissible?
        && (n.Leaf? ==> EvenAt(n, at))
      case Unlock(_) => true
      case WriteLeafNode(_, limit) => limit == z.basement
      case _ => false
  }

  ghost predicate AllByCode(z: Sizes, c: Config, moves: seq<Move>)
    requires CanMoves(c, moves)
    decreases moves
  {
    |moves| == 0 || (ByCode(z, c, moves[0]) && AllByCode(z, Do(c, moves[0]), moves[1..]))
  }

  /** A new tree gets there by such a run. */
  ghost predicate Reached(z: Sizes, c: Config) {
    exists moves :: CanMoves(Start(0), moves) && AllByCode(z, Start(0), moves) && Moves(Start(0), moves) == c
  }

  lemma {:induction false} OneMore(z: Sizes, c: Config, moves: seq<Move>, move: Move)
    requires CanMoves(c, moves) && AllByCode(z, c, moves)
    requires CanMove(Moves(c, moves), move) && ByCode(z, Moves(c, moves), move)
    ensures CanMoves(c, moves + [move]) && Moves(c, moves + [move]) == Do(Moves(c, moves), move)
    ensures AllByCode(z, c, moves + [move])
    decreases moves
  {
    hide CanMove, Do, ByCode;
    var more := moves + [move];
    if |moves| == 0 {
      assert more[1..] == [];
    } else {
      OneMore(z, Do(c, moves[0]), moves[1..], move);
      assert more[1..] == moves[1..] + [move];
    }
  }

  lemma ReachedStart(z: Sizes)
    ensures Reached(z, Start(0))
  {
    assert CanMoves(Start(0), []) && AllByCode(z, Start(0), []) && Moves(Start(0), []) == Start(0);
  }

  lemma ReachedMove(z: Sizes, c: Config, step: Step) returns (d: Config)
    requires Reached(z, c) && Enabled(c.s, step) && Fresh(c.s, step) && ByCode(z, c, Ordinary(step))
    ensures d == Config(Exec(c.s, step), NextScore(c.s, step, c.score)) && Reached(z, d)
  {
    hide CanMoves, Moves, Exec, Enabled, NextScore, Fresh, ByCode, AllByCode;
    var moves :| CanMoves(Start(0), moves) && AllByCode(z, Start(0), moves) && Moves(Start(0), moves) == c;
    OneMore(z, Start(0), moves, Ordinary(step));
    d := Do(c, Ordinary(step));
    assert Moves(Start(0), moves + [Ordinary(step)]) == d;
  }

  lemma ReachedGood(z: Sizes, c: Config)
    requires Reached(z, c)
    ensures Good(c)
  {
    hide Good, AllByCode;
    var moves :| CanMoves(Start(0), moves) && AllByCode(z, Start(0), moves) && Moves(Start(0), moves) == c;
    StartGood(0);
    MovesGood(Start(0), moves);
  }
}
