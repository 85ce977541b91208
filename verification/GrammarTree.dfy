/** The logit masks of a draft tree under a grammar: a depth-first walk accepts a
    token, fills the mask of the node, visits the children, and rolls back. */
module GrammarTree {
  import opened Options
  import Arithmetic
  import opened TokenMasks

  // The contract of a grammar object: the tokens it allows, and whether it has
  // terminated, depend only on the tokens accepted so far.
  class Grammar {
    const allows: Allows
    const words: nat
    const terminated: seq<nat> -> bool
    var history: seq<nat>

    constructor (allows: Allows, words: nat, terminated: seq<nat> -> bool, history: seq<nat>)
      ensures this.allows == allows && this.words == words && this.terminated == terminated
      ensures this.history == history
    {
      this.allows, this.words, this.terminated, this.history := allows, words, terminated, history;
    }

    method AcceptToken(token: nat)
      modifies this
      ensures history == old(history) + [token]
    {
      history := history + [token];
    }

    method Rollback(count: nat)
      requires count <= |history|
      modifies this
      ensures history == old(history)[..|old(history)| - count]
    {
      history := history[..|history| - count];
    }

    predicate IsTerminated()
      reads this
    {
      terminated(history)
    }

    method FillVocabMask(rows: array<seq<Word>>, row: nat)
      requires row < rows.Length
      modifies rows
      ensures rows[..] == old(rows[..])[row := MaskRow(allows, history, words)]
    {
      rows[row] := MaskRow(allows, history, words);
    }
  }

  // The first-child and next-sibling links of a verify tree; -1 is no link.
  datatype Links = Links(child: seq<int>, sibling: seq<int>, draft: seq<nat>)

  // The tree that links spell out below and beside a node.
  datatype Forest = Nil | Node(pos: nat, children: Forest, siblings: Forest)

  predicate Encodes(t: Links, curr: int, f: Forest)
    decreases f
  {
    match f
    case Nil => curr == -1
    case Node(pos, children, siblings) =>
      && curr == pos < |t.child| == |t.sibling| == |t.draft|
      && Encodes(t, t.child[curr], children) && Encodes(t, t.sibling[curr], siblings)
  }

  function Positions(f: Forest): set<nat> {
    match f
    case Nil => {}
    case Node(pos, children, siblings) => {pos} + Positions(children) + Positions(siblings)
  }

  predicate Distinct(f: Forest) {
    match f
    case Nil => true
    case Node(pos, children, siblings) =>
      && pos !in Positions(children) && pos !in Positions(siblings) && Positions(children) !! Positions(siblings)
      && Distinct(children) && Distinct(siblings)
  }

  // A tree rooted at position 0; the root stands alone.
  predicate IsTree(t: Links, f: Forest) {
    Encodes(t, 0, f) && f.Node? && f.siblings == Nil && Distinct(f)
  }

  // The nodes from the top of a forest down to node n.
  function Path(f: Forest, n: nat): seq<nat>
    requires n in Positions(f)
  {
    if n == f.pos then [n]
    else if n in Positions(f.children) then [f.pos] + Path(f.children, n)
    else Path(f.siblings, n)
  }

  // --- What the grammar says about a path ---------------------------------------

  datatype Setup = Setup(links: Links, allows: Allows, words: nat, terminated: seq<nat> -> bool, vocab: Option<nat>) {
    // What the grammar puts in a row after these tokens.
    function Mask(history: seq<nat>): seq<Word> {
      MaskRow(allows, history, words)
    }

    ghost predicate Describes(g: Grammar) {
      g.allows == allows && g.words == words && g.terminated == terminated
    }
  }

  predicate Capped(vocab: Option<nat>, token: nat) {
    vocab.Some? && vocab.value > 0 && token >= vocab.value
  }

  // Masks have a word for every token the walk looks up.
  predicate MasksFit(u: Setup) {
    forall i | 0 <= i < |u.links.draft| && !Capped(u.vocab, u.links.draft[i]) :: u.links.draft[i] / 32 < u.words
  }

  predicate Allowed(u: Setup, h: seq<nat>, token: nat) {
    !Capped(u.vocab, token) && u.allows(h, token)
  }

  function Step(u: Setup, h: seq<nat>, pos: nat): seq<nat>
    requires pos < |u.links.draft|
  {
    if pos == 0 then h else h + [u.links.draft[pos]]
  }

  // The tokens accepted along a path; the root's token was accepted before.
  function History(u: Setup, h: seq<nat>, path: seq<nat>): seq<nat>
    requires forall i | 0 <= i < |path| :: path[i] < |u.links.draft|
    decreases |path|
  {
    if path == [] then h else History(u, Step(u, h, path[0]), path[1..])
  }

  predicate Survives(u: Setup, h: seq<nat>, path: seq<nat>)
    requires forall i | 0 <= i < |path| :: path[i] < |u.links.draft|
    decreases |path|
  {
    path != [] ==>
      && (path[0] != 0 ==> Allowed(u, h, u.links.draft[path[0]]))
      && !u.terminated(Step(u, h, path[0]))
      && Survives(u, Step(u, h, path[0]), path[1..])
  }

  // Node by node: each token but the root's is below the vocabulary size, if one is
  // set, and allowed by the grammar as the parent left it; and the grammar has not
  // terminated.
  predicate NodePasses(u: Setup, h: seq<nat>, path: seq<nat>, i: nat)
    requires (forall k | 0 <= k < |path| :: path[k] < |u.links.draft|) && i < |path|
  {
    var parent, token := History(u, h, path[..i]), u.links.draft[path[i]];
    && (path[i] != 0 && u.vocab.Some? && u.vocab.value > 0 ==> token < u.vocab.value)
    && (path[i] != 0 ==> u.allows(parent, token))
    && !u.terminated(if path[i] == 0 then parent else parent + [token])
  }

  predicate PassesEverywhere(u: Setup, h: seq<nat>, path: seq<nat>)
    requires forall k | 0 <= k < |path| :: path[k] < |u.links.draft|
  {
    forall i: nat | i < |path| :: NodePasses(u, h, path, i)
  }

  lemma {:induction false} SurvivesEverywhere(u: Setup, h: seq<nat>, path: seq<nat>)
    requires forall i | 0 <= i < |path| :: path[i] < |u.links.draft|
    ensures Survives(u, h, path) <==> PassesEverywhere(u, h, path)
    decreases |path|
  {
    if path != [] {
      var (h1, rest) := (Step(u, h, path[0]), path[1..]);
      SurvivesEverywhere(u, h1, rest);
      assert path[..0] == [];
      assert NodePasses(u, h, path, 0) <==>
             (path[0] != 0 ==> Allowed(u, h, u.links.draft[path[0]])) && !u.terminated(h1);
      forall i: nat | i < |rest| ensures NodePasses(u, h1, rest, i) <==> NodePasses(u, h, path, i + 1) {
        assert path[..i + 1][1..] == rest[..i];
      }
      assert forall i: nat | 0 < i < |path| :: NodePasses(u, h, path, i) <==> NodePasses(u, h1, rest, i - 1);
    }
  }

  lemma {:induction false} PathStays(t: Links, curr: int, f: Forest, n: nat)
    requires Encodes(t, curr, f) && n in Positions(f)
    ensures forall i | 0 <= i < |Path(f, n)| :: Path(f, n)[i] in Positions(f) && Path(f, n)[i] < |t.draft|
    ensures Path(f, n) != [] && Path(f, n)[|Path(f, n)| - 1] == n
    decreases f
  {
    if n != f.pos {
      if n in Positions(f.children) { PathStays(t, t.child[curr], f.children, n); }
      else { PathStays(t, t.sibling[curr], f.siblings, n); }
    }
  }

  // The row of node n after the walk of a forest entered with history h.
  ghost predicate Filled(u: Setup, f: Forest, curr: int, h: seq<nat>, n: nat)
    requires Encodes(u.links, curr, f)
  {
    n in Positions(f) && (PathStays(u.links, curr, f, n); Survives(u, h, Path(f, n)))
  }

  ghost function RowAfter(u: Setup, f: Forest, curr: int, h: seq<nat>, n: nat, row: seq<Word>): seq<Word>
    requires Encodes(u.links, curr, f)
  {
    if Filled(u, f, curr, h, n) then PathStays(u.links, curr, f, n); u.Mask(History(u, h, Path(f, n))) else row
  }

  lemma RowOfSelf(u: Setup, f: Forest, curr: int, h: seq<nat>, row: seq<Word>)
    requires Encodes(u.links, curr, f) && f.Node?
    ensures RowAfter(u, f, curr, h, f.pos, row) ==
            if (curr != 0 ==> Allowed(u, h, u.links.draft[curr])) && !u.terminated(Step(u, h, curr))
            then u.Mask(Step(u, h, curr)) else row
  {
    assert Path(f, f.pos) == [f.pos] && Path(f, f.pos)[1..] == [];
    assert Survives(u, Step(u, h, curr), []) && History(u, Step(u, h, curr), []) == Step(u, h, curr);
  }

  lemma RowOfChild(u: Setup, f: Forest, curr: int, h: seq<nat>, n: nat, row: seq<Word>)
    requires Encodes(u.links, curr, f) && f.Node? && Distinct(f) && n in Positions(f.children)
    ensures RowAfter(u, f, curr, h, n, row) ==
            if (curr != 0 ==> Allowed(u, h, u.links.draft[curr])) && !u.terminated(Step(u, h, curr))
            then RowAfter(u, f.children, u.links.child[curr], Step(u, h, curr), n, row) else row
  {
  }

  lemma RowOfSibling(u: Setup, f: Forest, curr: int, h: seq<nat>, n: nat, row: seq<Word>)
    requires Encodes(u.links, curr, f) && f.Node? && Distinct(f) && n in Positions(f.siblings)
    ensures RowAfter(u, f, curr, h, n, row) == RowAfter(u, f.siblings, u.links.sibling[curr], h, n, row)
  {
  }

  lemma {:induction false} PositionsFit(t: Links, curr: int, f: Forest)
    requires Encodes(t, curr, f)
    ensures forall n | n in Positions(f) :: n < |t.draft|
    decreases f
  {
    if f.Node? {
      PositionsFit(t, t.child[curr], f.children);
      PositionsFit(t, t.sibling[curr], f.siblings);
    }
  }

  // The rows of a request, starting at `base`, after the walk of a forest.
  ghost predicate Updated(u: Setup, f: Forest, curr: int, h: seq<nat>, base: nat, before: seq<seq<Word>>,
        after: seq<seq<Word>>)
    requires Encodes(u.links, curr, f)
  {
    && |before| == |after|
    && forall i | 0 <= i < |after| :: after[i] == NewRow(u, f, curr, h, base, i, before[i])
  }

  ghost function NewRow(u: Setup, f: Forest, curr: int, h: seq<nat>, base: nat, i: nat, row: seq<Word>): seq<Word>
    requires Encodes(u.links, curr, f)
  {
    if base <= i && i - base in Positions(f) then RowAfter(u, f, curr, h, i - base, row) else row
  }

  ghost predicate Live(u: Setup, curr: int, h: seq<nat>)
    requires 0 <= curr < |u.links.draft|
  {
    (curr != 0 ==> Allowed(u, h, u.links.draft[curr])) && !u.terminated(Step(u, h, curr))
  }

  // The rows once a node and its children have had their turn.
  ghost predicate NodeDone(u: Setup, f: Forest, curr: int, h: seq<nat>, base: nat,
                           before: seq<seq<Word>>, middle: seq<seq<Word>>)
    requires Encodes(u.links, curr, f) && f.Node? && base + |u.links.draft| <= |before|
  {
    if Live(u, curr, h)
    then
      var filled := before[base + curr := u.Mask(Step(u, h, curr))];
      Updated(u, f.children, u.links.child[curr], Step(u, h, curr), base, filled, middle)
    else middle == before
  }

  // A row of neither the node nor its children is as it was.
  lemma OthersStayed(u: Setup, f: Forest, curr: int, h: seq<nat>, base: nat,
                     before: seq<seq<Word>>, middle: seq<seq<Word>>, i: nat)
    requires Encodes(u.links, curr, f) && f.Node? && base + |u.links.draft| <= |before|
    requires NodeDone(u, f, curr, h, base, before, middle) && i < |before|
    requires base <= i ==> i - base != f.pos && i - base !in Positions(f.children)
    ensures |middle| == |before| && middle[i] == before[i]
  {
  }

  // A node's row, then its children's rows, then its siblings' rows.
  lemma Composed(u: Setup, f: Forest, curr: int, h: seq<nat>, base: nat,
                 before: seq<seq<Word>>, middle: seq<seq<Word>>, after: seq<seq<Word>>)
    requires Encodes(u.links, curr, f) && f.Node? && Distinct(f) && base + |u.links.draft| <= |before|
    requires NodeDone(u, f, curr, h, base, before, middle)
    requires Updated(u, f.siblings, u.links.sibling[curr], h, base, middle, after)
    ensures Updated(u, f, curr, h, base, before, after)
  {
    PositionsFit(u.links, curr, f);
    forall i | 0 <= i < |after| ensures after[i] == NewRow(u, f, curr, h, base, i, before[i]) {
      RowComposed(u, f, curr, h, base, before, middle, after, i);
    }
  }

  lemma RowComposed(u: Setup, f: Forest, curr: int, h: seq<nat>, base: nat,
                    before: seq<seq<Word>>, middle: seq<seq<Word>>, after: seq<seq<Word>>, i: nat)
    requires Encodes(u.links, curr, f) && f.Node? && Distinct(f) && base + |u.links.draft| <= |before|
    requires NodeDone(u, f, curr, h, base, before, middle) && i < |after|
    requires Updated(u, f.siblings, u.links.sibling[curr], h, base, middle, after)
    ensures |before| == |after| && after[i] == NewRow(u, f, curr, h, base, i, before[i])
  {
    if base <= i && i - base in Positions(f.siblings) {
      SiblingComposed(u, f, curr, h, base, before, middle, after, i);
    } else if base <= i && i - base in Positions(f) {
      assert after[i] == NewRow(u, f.siblings, u.links.sibling[curr], h, base, i, middle[i]) == middle[i];
      RowOfNode(u, f, curr, h, base, before, middle, i - base);
    } else {
      OutsideComposed(u, f, curr, h, base, before, middle, after, i);
    }
  }

  lemma SiblingComposed(u: Setup, f: Forest, curr: int, h: seq<nat>, base: nat,
                        before: seq<seq<Word>>, middle: seq<seq<Word>>, after: seq<seq<Word>>, i: nat)
    requires Encodes(u.links, curr, f) && f.Node? && Distinct(f) && base + |u.links.draft| <= |before|
    requires NodeDone(u, f, curr, h, base, before, middle) && i < |after|
    requires Updated(u, f.siblings, u.links.sibling[curr], h, base, middle, after)
    requires base <= i && i - base in Positions(f.siblings)
    ensures |before| == |after| && after[i] == NewRow(u, f, curr, h, base, i, before[i])
  {
    OthersStayed(u, f, curr, h, base, before, middle, i);
    RowOfSibling(u, f, curr, h, i - base, before[i]);
  }

  lemma OutsideComposed(u: Setup, f: Forest, curr: int, h: seq<nat>, base: nat,
                        before: seq<seq<Word>>, middle: seq<seq<Word>>, after: seq<seq<Word>>, i: nat)
    requires Encodes(u.links, curr, f) && f.Node? && base + |u.links.draft| <= |before|
    requires NodeDone(u, f, curr, h, base, before, middle) && i < |after|
    requires Updated(u, f.siblings, u.links.sibling[curr], h, base, middle, after)
    requires i < base || i - base !in Positions(f)
    ensures |before| == |after| && after[i] == NewRow(u, f, curr, h, base, i, before[i])
  {
    OthersStayed(u, f, curr, h, base, before, middle, i);
  }

  // The row of a node or of its descendants once they have had their turn.
  lemma RowOfNode(u: Setup, f: Forest, curr: int, h: seq<nat>, base: nat,
                  before: seq<seq<Word>>, middle: seq<seq<Word>>, n: nat)
    requires Encodes(u.links, curr, f) && f.Node? && Distinct(f) && base + |u.links.draft| <= |before|
    requires NodeDone(u, f, curr, h, base, before, middle)
    requires n in Positions(f) && n !in Positions(f.siblings) && base + n < |middle|
    ensures |before| == |middle| && middle[base + n] == RowAfter(u, f, curr, h, n, before[base + n])
  {
    if n == f.pos { RowOfSelf(u, f, curr, h, before[base + n]); }
    else { RowOfChild(u, f, curr, h, n, before[base + n]); }
  }

  // --- The walk -------------------------------------------------------------------

  // Whether the grammar allows a node's token, read off the row of its parent.
  method IsAccepted(u: Setup, rows: array<seq<Word>>, base: nat, curr: int, parent: int, ghost h: seq<nat>)
    returns (accepted: bool)
    requires MasksFit(u) && 0 <= curr < |u.links.draft| && base + |u.links.draft| <= rows.Length
    requires curr != 0 ==> 0 <= parent < |u.links.draft| && rows[base + parent] == u.Mask(h)
    ensures accepted <==> (curr != 0 ==> Allowed(u, h, u.links.draft[curr]))
  {
    var token := u.links.draft[curr];
    if curr == 0 {
      accepted := true;
    } else if u.vocab.Some? && u.vocab.value > 0 && token >= u.vocab.value {
      accepted := false;
    } else {
      accepted := Bit(rows[base + parent], token);
      BitSaysAllowed(u.allows, h, u.words, token);
    }
  }

  // The parts of a tree are trees, and the node is in neither.
  lemma PartsReady(t: Links, curr: int, f: Forest)
    requires Encodes(t, curr, f) && f.Node? && Distinct(f)
    ensures Encodes(t, t.child[curr], f.children) && Distinct(f.children) && curr !in Positions(f.children)
    ensures Encodes(t, t.sibling[curr], f.siblings) && Distinct(f.siblings)
    ensures t.child[curr] != -1 ==> f.children.Node? && t.child[curr] in Positions(f)
    ensures t.sibling[curr] != -1 ==> f.siblings.Node? && t.sibling[curr] in Positions(f)
    ensures Positions(f.children) <= Positions(f) && Positions(f.siblings) <= Positions(f)
  {
  }

  // One node, its children and its younger siblings; `base` is where the rows of
  // this request begin.
  method Visit(u: Setup, g: Grammar, rows: array<seq<Word>>, base: nat, curr: int, parent: int, ghost f: Forest)
    requires MasksFit(u) && u.Describes(g)
    requires Encodes(u.links, curr, f) && f.Node? && Distinct(f) && base + |u.links.draft| <= rows.Length
    requires curr == 0 ==> f.siblings == Nil
    requires curr != 0 ==>
      && 0 <= parent < |u.links.draft| && parent !in Positions(f) && 0 !in Positions(f)
      && rows[base + parent] == u.Mask(g.history)
    modifies g, rows
    ensures g.history == old(g.history)
    ensures Updated(u, f, curr, old(g.history), base, old(rows[..]), rows[..])
    decreases f, 1
  {
    ghost var (h, before) := (g.history, rows[..]);
    PartsReady(u.links, curr, f);
    VisitNode(u, g, rows, base, curr, parent, f);
    ghost var middle := rows[..];
    if u.links.sibling[curr] != -1 {
      OthersStayed(u, f, curr, h, base, before, middle, base + parent);
      Visit(u, g, rows, base, u.links.sibling[curr], parent, f.siblings);
    }
    Composed(u, f, curr, h, base, before, middle, rows[..]);
  }

  // The node's own turn, its children included.
  method VisitNode(u: Setup, g: Grammar, rows: array<seq<Word>>, base: nat, curr: int, parent: int, ghost f: Forest)
    requires MasksFit(u) && u.Describes(g)
    requires Encodes(u.links, curr, f) && f.Node? && Distinct(f) && base + |u.links.draft| <= rows.Length
    requires curr != 0 ==>
      && 0 <= parent < |u.links.draft| && 0 !in Positions(f) && rows[base + parent] == u.Mask(g.history)
    modifies g, rows
    ensures g.history == old(g.history)
    ensures NodeDone(u, f, curr, old(g.history), base, old(rows[..]), rows[..])
    decreases f, 0
  {
    var t := u.links;
    ghost var h := g.history;
    PartsReady(t, curr, f);
    var accepted := IsAccepted(u, rows, base, curr, parent, h);
    if accepted {
      if curr != 0 { g.AcceptToken(t.draft[curr]); }
      if !g.IsTerminated() {
        g.FillVocabMask(rows, base + curr);
        if t.child[curr] != -1 { Visit(u, g, rows, base, t.child[curr], curr, f.children); }
      }
      if curr != 0 { g.Rollback(1); }
    }
  }

  // `traverse_tree`: row n is filled exactly when every token on the path to n is
  // allowed and the grammar terminates nowhere on it; the mask is that of the
  // grammar after the path, and the grammar is left as it was.
  method TraverseTree(u: Setup, g: Grammar, rows: array<seq<Word>>, base: nat, ghost f: Forest)
    requires MasksFit(u) && u.Describes(g)
    requires IsTree(u.links, f) && base + |u.links.draft| <= rows.Length
    modifies g, rows
    ensures g.history == old(g.history)
    ensures forall i | 0 <= i < rows.Length ::
              rows[i] == if base <= i && i - base in Positions(f) && Reached(u, f, g.history, i - base)
                         then PathStays(u.links, 0, f, i - base); u.Mask(History(u, g.history, Path(f, i - base)))
                         else old(rows[i])
  {
    Visit(u, g, rows, base, 0, -1, f);
    forall n: nat | n in Positions(f) ensures Reached(u, f, g.history, n) <==> Filled(u, f, 0, g.history, n) {
      PathStays(u.links, 0, f, n);
      SurvivesEverywhere(u, g.history, Path(f, n));
    }
  }

  ghost predicate Reached(u: Setup, f: Forest, h: seq<nat>, n: nat)
    requires Encodes(u.links, 0, f) && n in Positions(f)
  {
    PathStays(u.links, 0, f, n);
    PassesEverywhere(u, h, Path(f, n))
  }

  // --- A batch of requests -----------------------------------------------------------

  // Where the rows of request j begin: j times the width.
  function StartOf(j: nat, width: nat): nat {
    if j == 0 then 0 else StartOf(j - 1, width) + width
  }

  lemma {:induction false} StartIs(j: nat, width: nat)
    ensures StartOf(j, width) == j * width
  {
    if j > 0 {
      StartIs(j - 1, width);
      Arithmetic.Successor(j - 1, width);
    }
  }

  // The rows of a request in the rows of the batch.
  function Own(rows: seq<seq<Word>>, base: nat, width: nat): seq<seq<Word>> {
    if base + width <= |rows| then rows[base..base + width] else []
  }

  // Masks along surviving paths, blank elsewhere.
  ghost predicate Masked(u: Setup, f: Forest, h: seq<nat>, blank: seq<Word>, own: seq<seq<Word>>)
    requires Encodes(u.links, 0, f)
  {
    forall n | 0 <= n < |own| :: own[n] == if n in Positions(f) then RowAfter(u, f, 0, h, n, blank) else blank
  }

  // A request whose grammar, if it has one, stands at `history`.
  datatype Request = Request(setup: Option<Setup>, forest: Forest, history: seq<nat>)

  // What a request finds in its rows: its masks, or what was allocated.
  ghost predicate RowsOf(r: Request, width: nat, blank: seq<Word>, own: seq<seq<Word>>) {
    && |own| == width
    && match r.setup
       case None => forall n | 0 <= n < width :: own[n] == blank
       case Some(u) => Encodes(u.links, 0, r.forest) && Masked(u, r.forest, r.history, blank, own)
  }

  // The walk of one request leaves the rows of every other request alone.
  lemma OthersStay(u: Setup, f: Forest, h: seq<nat>, base: nat, other: nat, width: nat, before: seq<seq<Word>>,
        after: seq<seq<Word>>)
    requires Encodes(u.links, 0, f) && |u.links.draft| == width
    requires base + width <= other || other + width <= base
    requires Updated(u, f, 0, h, base, before, after)
    ensures Own(after, other, width) == Own(before, other, width)
  {
    if other + width <= |before| {
      forall x | other <= x < other + width ensures after[x] == before[x] {
        if base <= x { Beyond(u.links, f, x - base); }
      }
    }
  }

  lemma Beyond(t: Links, f: Forest, n: nat)
    requires Encodes(t, 0, f) && |t.draft| <= n
    ensures n !in Positions(f)
  {
    PositionsFit(t, 0, f);
  }

  lemma OwnMasked(u: Setup, f: Forest, h: seq<nat>, base: nat, width: nat, blank: seq<Word>, before: seq<seq<Word>>,
        after: seq<seq<Word>>)
    requires Encodes(u.links, 0, f) && base + width <= |before|
    requires Updated(u, f, 0, h, base, before, after)
    requires forall n | 0 <= n < width :: Own(before, base, width)[n] == blank
    ensures |Own(after, base, width)| == width && Masked(u, f, h, blank, Own(after, base, width))
  {
    forall n | 0 <= n < width
      ensures Own(after, base, width)[n] == if n in Positions(f) then RowAfter(u, f, 0, h, n, blank) else blank
    {
      OwnRow(u, f, h, base, width, before, after, n);
      assert Own(before, base, width)[n] == blank;
    }
  }

  lemma OwnRow(u: Setup, f: Forest, h: seq<nat>, base: nat, width: nat, before: seq<seq<Word>>,
        after: seq<seq<Word>>, n: nat)
    requires Encodes(u.links, 0, f) && base + width <= |before| && n < width
    requires Updated(u, f, 0, h, base, before, after)
    ensures |after| == |before| && Own(after, base, width)[n] ==
            if n in Positions(f) then RowAfter(u, f, 0, h, n, Own(before, base, width)[n])
            else Own(before, base, width)[n]
  {
  }

  ghost predicate RowsAt(requests: seq<Request>, done: nat, width: nat, blank: seq<Word>, rows: seq<seq<Word>>, j: nat)
    requires j < |requests|
  {
    var r := if j < done then requests[j] else requests[j].(setup := None);
    RowsOf(r, width, blank, Own(rows, StartOf(j, width), width))
  }

  // The rows of a batch after the first `done` requests had their turn.
  ghost predicate AllRows(requests: seq<Request>, done: nat, width: nat, blank: seq<Word>, rows: seq<seq<Word>>) {
    forall j | 0 <= j < |requests| :: RowsAt(requests, done, width, blank, rows, j)
  }

  lemma BlankBatch(requests: seq<Request>, done: nat, width: nat, blank: seq<Word>, rows: seq<seq<Word>>)
    requires |rows| == StartOf(|requests|, width) && forall i | 0 <= i < |rows| :: rows[i] == blank
    requires forall j | 0 <= j < done && j < |requests| :: requests[j].setup == None
    ensures AllRows(requests, done, width, blank, rows)
  {
    forall j | 0 <= j < |requests| ensures RowsAt(requests, done, width, blank, rows, j) {
      InOrder(j, |requests|, width);
    }
  }

  lemma {:induction false} InOrder(i: nat, j: nat, width: nat)
    requires i < j
    ensures StartOf(i, width) + width <= StartOf(j, width)
  {
    if i < j - 1 { InOrder(i, j - 1, width); }
  }

  lemma Apart(i: nat, j: nat, width: nat)
    requires i != j
    ensures StartOf(i, width) + width <= StartOf(j, width) || StartOf(j, width) + width <= StartOf(i, width)
  {
    if i < j { InOrder(i, j, width); } else { InOrder(j, i, width); }
  }

  // After the walk of request i its rows hold its masks and no other rows moved.
  lemma RequestDone(requests: seq<Request>, i: nat, width: nat, blank: seq<Word>, before: seq<seq<Word>>,
        after: seq<seq<Word>>)
    requires i < |requests| && requests[i].setup.Some? && |before| == StartOf(|requests|, width)
    requires var u := requests[i].setup.value;
      && Encodes(u.links, 0, requests[i].forest) && |u.links.draft| == width
      && Updated(u, requests[i].forest, 0, requests[i].history, StartOf(i, width), before, after)
    requires AllRows(requests, i, width, blank, before)
    ensures AllRows(requests, i + 1, width, blank, after)
  {
    var done := i + 1;
    forall j | 0 <= j < |requests| ensures RowsAt(requests, done, width, blank, after, j) {
      assert RowsAt(requests, i, width, blank, before, j);
      if j == i { OwnRowsDone(requests, i, width, blank, before, after); }
      else {
        Apart(i, j, width);
        var r := if j < i then requests[j] else requests[j].(setup := None);
        OtherRowsKept(requests[i], StartOf(i, width), r, StartOf(j, width), width, blank, before, after);
      }
    }
  }

  lemma OwnRowsDone(requests: seq<Request>, i: nat, width: nat, blank: seq<Word>, before: seq<seq<Word>>,
        after: seq<seq<Word>>)
    requires i < |requests| && requests[i].setup.Some? && |before| == StartOf(|requests|, width)
    requires var u := requests[i].setup.value;
      && Encodes(u.links, 0, requests[i].forest) && |u.links.draft| == width
      && Updated(u, requests[i].forest, 0, requests[i].history, StartOf(i, width), before, after)
    requires RowsAt(requests, i, width, blank, before, i)
    ensures RowsAt(requests, i + 1, width, blank, after, i)
  {
    InOrder(i, |requests|, width);
    var r := requests[i];
    OwnMasked(r.setup.value, r.forest, r.history, StartOf(i, width), width, blank, before, after);
  }

  lemma OtherRowsKept(moved: Request, own: nat, r: Request, other: nat, width: nat, blank: seq<Word>,
                      before: seq<seq<Word>>, after: seq<seq<Word>>)
    requires moved.setup.Some? && (own + width <= other || other + width <= own)
    requires var u := moved.setup.value;
      && Encodes(u.links, 0, moved.forest) && |u.links.draft| == width
      && Updated(u, moved.forest, 0, moved.history, own, before, after)
    requires RowsOf(r, width, blank, Own(before, other, width))
    ensures RowsOf(r, width, blank, Own(after, other, width))
  {
    OthersStay(moved.setup.value, moved.forest, moved.history, own, other, width, before, after);
  }

  lemma SkipRequest(requests: seq<Request>, i: nat, width: nat, blank: seq<Word>, rows: seq<seq<Word>>)
    requires AllRows(requests, i, width, blank, rows) && i < |requests| && requests[i].setup == None
    ensures AllRows(requests, i + 1, width, blank, rows)
  {
    var done := i + 1;
    forall j | 0 <= j < |requests| ensures RowsAt(requests, done, width, blank, rows, j) {
      assert RowsAt(requests, i, width, blank, rows, j);
    }
  }

  // A request, as its tree and its grammar describe it.
  ghost predicate Describes(r: Request, t: Links, g: Grammar?, vocab: Option<nat>, width: nat) {
    && |t.draft| == width && IsTree(t, r.forest)
    && if g == null then r.setup == None
       else r.setup == Some(Setup(t, g.allows, g.words, g.terminated, vocab)) && MasksFit(r.setup.value)
  }

  ghost predicate AllDescribed(requests: seq<Request>, trees: seq<Links>, grammars: seq<Grammar?>,
        vocab: Option<nat>, width: nat) {
    && |trees| == |grammars| == |requests|
    && forall i | 0 <= i < |trees| :: Describes(requests[i], trees[i], grammars[i], vocab, width)
  }

  // Every grammar stands where its request says.
  ghost predicate Standing(requests: seq<Request>, grammars: seq<Grammar?>)
    requires |grammars| == |requests|
    reads grammars
  {
    forall i | 0 <= i < |grammars| && grammars[i] != null :: grammars[i].history == requests[i].history
  }

  lemma NoneSoFar(requests: seq<Request>, trees: seq<Links>, grammars: seq<Grammar?>, vocab: Option<nat>, width: nat,
        i: nat)
    requires AllDescribed(requests, trees, grammars, vocab, width)
    requires i <= |grammars| && forall j | 0 <= j < i :: grammars[j] == null
    ensures forall j | 0 <= j < i && j < |requests| :: requests[j].setup == None
  {
  }

  // The turn of request i.
  method FillRequest(u: Setup, g: Grammar, rows: array<seq<Word>>, i: nat, width: nat, blank: seq<Word>,
        ghost requests: seq<Request>)
    requires i < |requests| && requests[i].setup == Some(u) && requests[i].history == g.history
    requires rows.Length == StartOf(|requests|, width) && |u.links.draft| == width
    requires IsTree(u.links, requests[i].forest)
    requires MasksFit(u) && u.Describes(g)
    requires AllRows(requests, i, width, blank, rows[..])
    modifies g, rows
    ensures g.history == old(g.history)
    ensures AllRows(requests, i + 1, width, blank, rows[..])
  {
    ghost var before := rows[..];
    InOrder(i, |requests|, width);
    StartIs(i, width);
    Visit(u, g, rows, i * width, 0, -1, requests[i].forest);
    RequestDone(requests, i, width, blank, before, rows[..]);
  }

  // The rows of a batch as `allocate_vocab_mask` makes them.
  method AllocateRows(count: nat, width: nat, blank: seq<Word>, ghost requests: seq<Request>, ghost done: nat)
    returns (rows: array<seq<Word>>)
    requires count == |requests| && forall j | 0 <= j < done && j < |requests| :: requests[j].setup == None
    ensures fresh(rows) && rows.Length == StartOf(count, width) && AllRows(requests, done, width, blank, rows[..])
  {
    StartIs(count, width);
    rows := new seq<Word>[count * width](_ => blank);
    BlankBatch(requests, done, width, blank, rows[..]);
  }

  // The result after the first i requests: none before the first grammar.
  ghost predicate RowsSoFar(requests: seq<Request>, grammars: seq<Grammar?>, i: nat, width: nat, blank: seq<Word>,
                            rows: array?<seq<Word>>)
    requires i <= |grammars| == |requests|
    reads rows
  {
    && (rows == null <==> forall j | 0 <= j < i :: grammars[j] == null)
    && (rows != null ==> rows.Length == StartOf(|requests|, width) && AllRows(requests, i, width, blank, rows[..]))
  }

  // The turn of request i; the first one with a grammar allocates.
  method RequestTurn(trees: seq<Links>, grammars: seq<Grammar?>, i: nat, width: nat, vocab: Option<nat>,
                     blank: seq<Word>, ghost requests: seq<Request>, earlier: array?<seq<Word>>)
    returns (rows: array?<seq<Word>>)
    requires AllDescribed(requests, trees, grammars, vocab, width) && i < |grammars|
    requires Standing(requests, grammars) && RowsSoFar(requests, grammars, i, width, blank, earlier)
    modifies grammars, earlier
    ensures Standing(requests, grammars)
    ensures RowsSoFar(requests, grammars, i + 1, width, blank, rows)
    ensures if earlier != null then rows == earlier else rows != null ==> fresh(rows)
  {
    rows := earlier;
    assert Describes(requests[i], trees[i], grammars[i], vocab, width);
    if grammars[i] != null {
      if rows == null {
        NoneSoFar(requests, trees, grammars, vocab, width, i);
        rows := AllocateRows(|trees|, width, blank, requests, i);
      }
      var u := Setup(trees[i], grammars[i].allows, grammars[i].words, grammars[i].terminated, vocab);
      FillRequest(u, grammars[i], rows, i, width, blank, requests);
    } else if rows != null {
      SkipRequest(requests, i, width, blank, rows[..]);
    }
  }

  // `generate_token_bitmask`: every request with a grammar gets the masks of its
  // own tree in its own rows; the rows of the others stay as they were allocated.
  method GenerateTokenBitmask(trees: seq<Links>, grammars: seq<Grammar?>, width: nat, vocab: Option<nat>,
                              blank: seq<Word>, ghost requests: seq<Request>)
    returns (rows: array?<seq<Word>>)
    requires AllDescribed(requests, trees, grammars, vocab, width)
    requires Standing(requests, grammars)
    modifies grammars
    ensures Standing(requests, grammars)
    ensures rows == null <==> forall i | 0 <= i < |grammars| :: grammars[i] == null
    ensures rows != null ==> fresh(rows) && AllRows(requests, |trees|, width, blank, rows[..])
  {
    rows := null;
    for i := 0 to |grammars|
      invariant rows != null ==> fresh(rows)
      invariant Standing(requests, grammars)
      invariant RowsSoFar(requests, grammars, i, width, blank, rows)
    {
      rows := RequestTurn(trees, grammars, i, width, vocab, blank, requests, rows);
    }
  }
}
