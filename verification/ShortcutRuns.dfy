/** Runs in which threads also insert through the rightmost-leaf shortcut. */
module ShortcutRuns {
  import opened Keys
  import opened Messages
  import opened Entries
  import opened Nodes
  import opened PutMsg
  import opened Leaves
  import opened LeafMerge
  import opened Paths
  import opened Query
  import opened Reshape
  import opened Readings
  import opened Protocol
  import opened Rightmost
  import opened Shortcut
  import opened ShortcutTree

  /** The tree with its seqinsert_score. */
  datatype Config = Config(s: State, score: nat)

  /** A direct insert is the second half of ft_maybe_insert_into_rightmost_leaf: the
      score was read before, and the leaf is now locked. */
  datatype Move =
    | Ordinary(step: Step)
    | Direct(key: Key, unique: bool, effect: Effect)

  predicate CanMove(c: Config, move: Move) {
    match move
    case Ordinary(step) => Enabled(c.s, step) && Fresh(c.s, step)
    case Direct(key, unique, _) =>
      && 0 < c.score && AtLeaf(c.s) && FreePath(c.s.top, Spine(c.s.top))
      && SafeFor(LastLeaf(c.s), unique) && Inserts(LastLeaf(c.s), key, unique)
  }

  function Do(c: Config, move: Move): Config
    requires CanMove(c, move)
  {
    match move
    case Ordinary(step) => Config(Exec(c.s, step), NextScore(c.s, step, c.score))
    case Direct(key, unique, effect) => Config(ShortcutState(c.s, key, unique, effect), Raised(c.score))
  }

  predicate CanMoves(c: Config, moves: seq<Move>)
    decreases moves
  {
    |moves| == 0 || (CanMove(c, moves[0]) && CanMoves(Do(c, moves[0]), moves[1..]))
  }

  function Moves(c: Config, moves: seq<Move>): Config
    requires CanMoves(c, moves)
    decreases moves
  {
    if |moves| == 0 then c else Moves(Do(c, moves[0]), moves[1..])
  }

  ghost predicate Good(c: Config) {
    TreeOk(c.s) && Faithful(c.s) && RightOk(c.s, c.score)
  }

  lemma MoveGood(c: Config, move: Move)
    requires Good(c) && CanMove(c, move)
    ensures Good(Do(c, move))
  {
    hide TreeOk, Faithful, RightOk, Exec, EnabledAt, ShortcutState, NextScore, SafeFor, Inserts, Spine;
    match move
    case Ordinary(step) =>
      StepSafe(c.s, step);
      RightStepOk(c.s, step, c.score);
    case Direct(key, unique, effect) =>
      var step := Inject(Spine(c.s.top), Once(key), effect);
      ShortcutIsInject(c.s, c.score, key, unique, effect);
      StepSafe(c.s, step);
      RightStepOk(c.s, step, c.score);
  }

  lemma {:induction false} MovesGood(c: Config, moves: seq<Move>)
    requires Good(c) && CanMoves(c, moves)
    ensures Good(Moves(c, moves))
    decreases moves
  {
    hide Good, CanMove, Do;
    if |moves| > 0 {
      MoveGood(c, moves[0]);
      MovesGood(Do(c, moves[0]), moves[1..]);
    }
  }

  function Start(bn: BlockNum): Config {
    Config(Initial(bn), 0)
  }

  lemma StartGood(bn: BlockNum)
    ensures Good(Start(bn))
  {
    InitialOk(bn);
    InitialRight(bn);
  }

  /** Runs that insert through the shortcut on safe leaves still give every reader
      what the history says. */
  lemma ShortcutsMeanMessages(bn: BlockNum, moves: seq<Move>, k: Key)
    requires CanMoves(Start(bn), moves)
    ensures
      var c := Moves(Start(bn), moves);
      TreeOk(c.s) && View(c.s, k) == Replay(c.s.log, k) && Placed(c.s, k) && RightOk(c.s, c.score)
  {
    hide TreeOk, Replay, View, Placed, CanMoves, RightOk;
    StartGood(bn);
    MovesGood(Start(bn), moves);
    assert Faithful(Moves(Start(bn), moves).s);
  }

  // ------------------------------------- between reading the score and the insert

  /** The move does not inject anywhere but into the rightmost leaf. */
  predicate Quiet(c: Config, move: Move)
    requires CanMove(c, move)
  {
    move.Ordinary? && move.step.Inject? ==>
      NewRightmost(c.s, move.step) == Some(EdgeAt(c.s.top, move.step.path).child.bn)
  }

  predicate AllQuiet(c: Config, moves: seq<Move>)
    requires CanMoves(c, moves)
    decreases moves
  {
    |moves| == 0 || (Quiet(c, moves[0]) && AllQuiet(Do(c, moves[0]), moves[1..]))
  }

  lemma QuietScore(c: Config, move: Move)
    requires CanMove(c, move) && Quiet(c, move)
    ensures Do(c, move).score >= c.score
  {
    hide Exec, EnabledAt, ShortcutState, NewRightmost, SafeFor, Inserts, Spine;
  }

  /** As long as other threads inject nowhere but into the rightmost leaf, a score
      that was read high enough still is, and the way to the leaf is still clear. */
  lemma {:induction false} ScoreStillGood(c: Config, moves: seq<Move>)
    requires Good(c) && CanMoves(c, moves) && AllQuiet(c, moves) && c.score >= SCORE_THRESHOLD
    ensures Good(Moves(c, moves)) && Moves(c, moves).score >= SCORE_THRESHOLD
    ensures RightClear(Moves(c, moves).s.top)
    decreases moves
  {
    hide TreeOk, Faithful, CanMove, Do, Quiet, RightClear, Bns, RightBn;
    if |moves| > 0 {
      QuietScore(c, moves[0]);
      MoveGood(c, moves[0]);
      ScoreStillGood(Do(c, moves[0]), moves[1..]);
    }
  }

  /** A broadcast injected at the root in between. */
  function Broadcast(): Step {
    Inject([], All, Bump())
  }

  lemma BroadcastShape(s: State)
    requires AtLeaf(s) && s.top.child.Inner? && |s.top.child.kids| > 0 && Enabled(s, Broadcast())
    ensures AtLeaf(Exec(s, Broadcast())) && LastLeaf(Exec(s, Broadcast())) == LastLeaf(s)
  {
    var s' := Exec(s, Broadcast());
    var r, r' := s.top.child, s'.top.child;
    var i := |r.kids| - 1;
    assert r'.kids[i] == Append(r.kids[i], NextMessage(s, Broadcast()));
    SpineChild(r.kids[i], r'.kids[i]);
  }

  lemma SpineChild(e: Kid, e': Kid)
    requires e'.child == e.child && e'.pin == e.pin
    ensures Spine(e') == Spine(e) && ValidPath(e', Spine(e)) == ValidPath(e, Spine(e))
    ensures ValidPath(e, Spine(e)) ==>
              && EdgeAt(e', Spine(e)).child == EdgeAt(e, Spine(e)).child
              && EdgeAt(e', Spine(e)).pin == EdgeAt(e, Spine(e)).pin
  {
  }

  /** Without that, the insert may overtake a message: after a broadcast at the root
      the shortcut for the leaf's last key hides the broadcast from readers. */
  lemma RaceHidesBroadcast(s: State, score: nat)
    requires TreeOk(s) && Faithful(s) && RightOk(s, score) && score > 0 && AtLeaf(s) && Enabled(s, Broadcast())
    requires |Flat(LastLeaf(s).bases)| > 0 && SafeFor(LastLeaf(s), false)
    ensures
      var s' := Exec(s, Broadcast());
      && TreeOk(s') && Faithful(s') && AtLeaf(s') && LastLeaf(s') == LastLeaf(s)
      && Inserts(LastLeaf(s'), Last(LastLeaf(s)), false) && !RightAfter(s', Last(LastLeaf(s)), false)
  {
    hide TreeOk, Flat, Lookup, View, Spine, ReplaceAt, SafeFor, RightAfter, Bns, RightBn, RightClear, EnabledAt, Routed,
         Exec, NodeOk, NothingWaits, LoAt, EdgeAt;
    var s', n, lo := Exec(s, Broadcast()), LastLeaf(s), LoAt(s.top, Spine(s.top), None);
    TopNoEmptyNode(s);
    BroadcastShape(s);
    StepSafe(s, Broadcast());
    LeafInTree(s);
    LeafFlat(n, lo, None, Last(n));
    EndsOrdered(n, lo, None);
    LookupAt(Flat(n.bases), |Flat(n.bases)| - 1);
    SafeRight(n, lo, None, Last(n), false);
    SpineRouted(s, Last(n));
    SpineRouted(s', Last(n));
    ClearSees(s, Last(n));
    assert Beside(s', Last(n), false, Last(n));
    assert View(s', Last(n)) == ApplyOne(NextMessage(s, Broadcast()), Last(n), View(s, Last(n)));
    assert !NothingWaits(s', Last(n), false) by { Waits(s', Last(n)); }
    ShortcutExact(s', Last(n), false);
  }

  lemma Waits(s: State, key: Key)
    requires AtLeaf(s) && Beside(s, key, false, key) && View(s, key) != Lookup(Flat(LastLeaf(s).bases), key)
    ensures !NothingWaits(s, key, false)
  {
  }
}
