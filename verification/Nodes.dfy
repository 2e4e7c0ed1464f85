/** Nodes of the fractal tree, their well-formedness, and what a reader sees at a key. */
module Nodes {
  import opened Keys
  import opened Messages
  import opened Entries

  type BlockNum = nat

  /** A basement node: its entries in memory with the highest MSN applied to
      them, and the entries a reload from disk would bring back. */
  datatype Basement = Basement(entries: seq<Entry>, msn: nat, disk: seq<Entry>)

  /** Whether a thread keeps a node write-locked. `inflight` is a buffer detached
      from the parent and not yet put into the locked node. A `topDown` lock was
      reached from the root through empty buffers, or by lock coupling from such
      a lock; `asOf` is the highest MSN handed out at that moment. The cleaner
      thread locks an arbitrary node, which is not top-down. */
  datatype Pin = Free | Held(asOf: nat, topDown: bool, inflight: seq<Message>)

  /** A child of a nonleaf node: the stored blocknum, the message buffer, the
      lock state and the node that the blocknum names. */
  datatype Kid = Kid(bn: BlockNum, buf: seq<Message>, pin: Pin, child: Node)

  /** `maxMsn` is max_msn_applied_to_node_on_disk. A leaf may carry one trailing
      pivot more than it uses. */
  datatype Node =
    | Leaf(bn: BlockNum, maxMsn: nat, dirty: bool, pivots: seq<Key>, bases: seq<Basement>)
    | Inner(bn: BlockNum, height: nat, maxMsn: nat, pivots: seq<Key>, kids: seq<Kid>)

  function Height(n: Node): nat {
    if n.Leaf? then 0 else n.height
  }

  /** The pivots that separate the basements; a trailing slack pivot is not one. */
  function Used(n: Node): seq<Key>
    requires n.Leaf?
  {
    if 0 < |n.bases| <= |n.pivots| then n.pivots[..|n.bases| - 1] else n.pivots
  }

  function Inflight(e: Kid): seq<Message> {
    if e.pin.Held? then e.pin.inflight else []
  }

  // ---------------------------------------------------------------- reading

  /** Everything that determines what a reader of one key sees: the pending
      messages from the leaf up to the root, and the basement's value and MSN in
      memory (`val`, `msn`) and on disk (`diskVal`, `diskMsn`). */
  datatype KeyState = KeyState(
    pend: seq<Message>, val: Option<LeafEntry>, msn: nat,
    dirty: bool, diskVal: Option<LeafEntry>, diskMsn: nat)

  function Probe(n: Node, k: Key): KeyState {
    match n
    case Leaf(_, maxMsn, dirty, _, bases) =>
      var i := Route(Used(n), k);
      if i < |bases| then
        KeyState([], Lookup(bases[i].entries, k), bases[i].msn,
                 dirty, Lookup(bases[i].disk, k), maxMsn)
      else KeyState([], None, 0, dirty, None, 0)
    case Inner(_, _, _, pivots, kids) =>
      var i := Route(pivots, k);
      if i < |kids| then ProbeEdge(kids[i], k) else KeyState([], None, 0, true, None, 0)
  }

  function ProbeEdge(e: Kid, k: Key): KeyState {
    var p := Probe(e.child, k);
    p.(pend := p.pend + (Rel(Inflight(e), k) + Rel(e.buf, k)))
  }

  /** The value a query returns: pending messages newer than the basement, applied
      to the basement's value. */
  function ViewOf(p: KeyState, k: Key): Option<LeafEntry> {
    ReplayNewer(p.pend, p.msn, k, p.val)
  }

  /** What the same query would return after the basement is reloaded from disk. */
  function DiskViewOf(p: KeyState, k: Key): Option<LeafEntry> {
    ReplayNewer(p.pend, p.diskMsn, k, p.diskVal)
  }

  function Extend(p: KeyState, up: seq<Message>): KeyState {
    p.(pend := p.pend + up)
  }

  // --------------------------------------------------------- well-formedness

  /** `c` is newer than every basement of the leaf, or not newer than any. */
  ghost predicate Uniform(n: Node, c: nat)
    requires n.Leaf?
  {
    (forall i :: 0 <= i < |n.bases| ==> n.bases[i].msn < c)
    || (forall i :: 0 <= i < |n.bases| ==> c <= n.bases[i].msn)
  }

  /** A message with MSN `c` may be pending somewhere above node `n`. */
  ghost predicate Admits(n: Node, c: nat) {
    match n
    case Leaf(_, _, dirty, _, bases) => dirty ==> Uniform(n, c)
    case Inner(_, _, maxMsn, _, kids) =>
      maxMsn < c && forall i :: 0 <= i < |kids| ==> EdgeAdmits(kids[i], c)
  }

  /** A message with MSN `c` may be pending behind what is in flight on edge `e`. */
  ghost predicate EdgeAdmits(e: Kid, c: nat) {
    && Admits(e.child, c)
    && (e.pin.Held? ==>
          && (e.pin.topDown ==> e.pin.asOf < c)
          && (forall i :: 0 <= i < |e.pin.inflight| ==> e.pin.inflight[i].msn < c)
          && (e.child.Leaf? ==> Uniform(e.child, c)))
  }

  /** Everything inside `n` is at most `a`: buffered messages and basement MSNs. */
  ghost predicate Settled(n: Node, a: nat) {
    match n
    case Leaf(_, maxMsn, _, _, bases) =>
      maxMsn <= a && forall i :: 0 <= i < |bases| ==> bases[i].msn <= a
    case Inner(_, _, maxMsn, _, kids) =>
      maxMsn <= a && forall i :: 0 <= i < |kids| ==> EdgeSettled(kids[i], a)
  }

  ghost predicate EdgeSettled(e: Kid, a: nat) {
    && Settled(e.child, a)
    && (e.pin.Held? && e.pin.topDown ==> e.pin.asOf <= a)
    && (forall i :: 0 <= i < |e.buf| ==> e.buf[i].msn <= a)
    && (e.pin.Held? ==> forall i :: 0 <= i < |e.pin.inflight| ==> e.pin.inflight[i].msn <= a)
  }

  ghost predicate BasementOk(n: Node, b: Basement, lo: Option<Key>, hi: Option<Key>)
    requires n.Leaf?
  {
    && Sorted(b.entries) && Within(b.entries, lo, hi)
    && (!n.dirty ==> Sorted(b.disk) && Within(b.disk, lo, hi) && n.maxMsn <= b.msn)
  }

  /** Node well-formedness, as ft-verify checks it, for a node covering (lo, hi]. */
  ghost predicate NodeOk(n: Node, lo: Option<Key>, hi: Option<Key>) {
    match n
    case Leaf(_, _, _, pivots, bases) =>
      && 0 < |bases| && |bases| - 1 <= |pivots| <= |bases|
      && PivotsOk(Used(n), lo, hi)
      && (forall i :: 0 <= i < |bases| ==>
            BasementOk(n, bases[i], LowerOf(Used(n), lo, i), UpperOf(Used(n), hi, i)))
    case Inner(_, height, maxMsn, pivots, kids) =>
      && 0 < height && |kids| == |pivots| + 1
      && PivotsOk(pivots, lo, hi)
      && (forall i :: 0 <= i < |kids| ==>
            && EdgeOk(kids[i], LowerOf(pivots, lo, i), UpperOf(pivots, hi, i), height - 1)
            && BufferAtMost(kids[i], maxMsn))
  }

  ghost predicate PivotsOk(ps: seq<Key>, lo: Option<Key>, hi: Option<Key>) {
    Increasing(ps) && forall i :: 0 <= i < |ps| ==> Inside(lo, hi, ps[i])
  }

  ghost predicate BufferAtMost(e: Kid, a: nat) {
    forall i :: 0 <= i < |e.buf| ==> 0 < e.buf[i].msn <= a
  }

  ghost predicate EdgeOk(e: Kid, lo: Option<Key>, hi: Option<Key>, h: nat) {
    && e.bn == e.child.bn
    && Height(e.child) == h
    && NodeOk(e.child, lo, hi)
    && QueueOk(e, lo, hi)
  }

  /** The messages between a node and its child: in MSN order, newer than what
      is below them, and inside the child's range. */
  ghost predicate QueueOk(e: Kid, lo: Option<Key>, hi: Option<Key>) {
    && MsnIncreasing(e.buf)
    && (forall i :: 0 <= i < |e.buf| ==> EdgeAdmits(e, e.buf[i].msn) && Fits(e.buf[i], lo, hi))
    && (e.pin.Held? ==>
          && MsnIncreasing(e.pin.inflight)
          && (forall i :: 0 <= i < |e.pin.inflight| ==>
                Admits(e.child, e.pin.inflight[i].msn) && Fits(e.pin.inflight[i], lo, hi))
          && (e.pin.topDown ==>
                && Settled(e.child, e.pin.asOf)
                && forall i :: 0 <= i < |e.pin.inflight| ==> e.pin.inflight[i].msn <= e.pin.asOf))
  }
}
