/** The streamed softmax of the sparse prefill kernels: block by block it keeps a
    running maximum, a normalizer and an accumulator. Over the reals the result is
    the softmax-weighted mean of the values of all visited tokens, exactly when the
    first block holds a token; otherwise it is not a number. */
module StreamedSoftmax {
  import Arithmetic

  // exp2 and multiplication. Multiplication is a field so that a proof meets a
  // product only where it asks for its law.
  datatype Operations = Operations(exp: real -> real, mul: (real, real) -> real)

  predicate ProductAt(o: Operations, x: real, y: real) {
    o.mul(x, y) == x * y
  }

  // All that the loop needs of exp2.
  predicate PowerAt(o: Operations, x: real, y: real) {
    o.exp(x + y) == o.mul(o.exp(x), o.exp(y)) && 0.0 < o.exp(x)
  }

  ghost predicate Lawful(o: Operations) {
    && (forall x: real, y: real :: ProductAt(o, x, y))
    && (forall x: real, y: real :: PowerAt(o, x, y))
  }

  type Ops = o: Operations | Lawful(o) witness Operations(_ => 1.0, (x, y) => x * y)

  // The numbers of the loop; rounding is not modelled. Sums and products meet
  // finite numbers and NaN only.
  datatype Float = NaN | NegInf | PosInf | Fin(value: real)

  function Add(a: Float, b: Float): Float {
    if a.Fin? && b.Fin? then Fin(a.value + b.value) else NaN
  }

  function Sub(a: Float, b: Float): Float {
    if a.Fin? && b.Fin? then Fin(a.value - b.value)
    else if a.NegInf? && b.Fin? then NegInf
    else if a.Fin? && b.NegInf? then PosInf
    else NaN
  }

  function Mul(o: Ops, a: Float, b: Float): Float {
    if a.Fin? && b.Fin? then Fin(o.mul(a.value, b.value)) else NaN
  }

  function Div(a: Float, b: Float): Float {
    if a.Fin? && b.Fin? && b.value != 0.0 then Fin(a.value / b.value) else NaN
  }

  function Maximum(a: Float, b: Float): Float {
    if a.Fin? && b.Fin? then (if a.value < b.value then b else a)
    else if a.NegInf? then b
    else if b.NegInf? then a
    else NaN
  }

  function Exp2(o: Ops, a: Float): Float {
    match a
    case NaN => NaN
    case NegInf => Fin(0.0)
    case PosInf => PosInf
    case Fin(x) => Fin(o.exp(x))
  }

  // The columns of one query row: a token, or a negative number; and for each
  // token its scaled score and one component of its scaled value.
  datatype Row = Row(tokens: seq<int>, score: int -> real, value: int -> real) {
    // The mask of the loads: columns past the end load as -1.
    predicate Valid(c: nat) {
      (if c < |tokens| then tokens[c] else -1) >= 0
    }

    function Score(c: nat): Float {
      if Valid(c) then Fin(score(tokens[c])) else NegInf
    }

    function Value(c: nat): Float {
      if Valid(c) then Fin(value(tokens[c])) else Fin(0.0)
    }
  }

  // --- The direct form ----------------------------------------------------------

  // A column holds a token unless it is past the end or negative.
  predicate Holds(row: Row, c: nat) {
    c < |row.tokens| && 0 <= row.tokens[c]
  }

  function Weight(o: Ops, row: Row, n: nat): real {
    if n == 0 then 0.0
    else if !Holds(row, n - 1) then Weight(o, row, n - 1)
    else Weight(o, row, n - 1) + o.exp(row.score(row.tokens[n - 1]))
  }

  function Weighted(o: Ops, row: Row, n: nat): real {
    if n == 0 then 0.0
    else if !Holds(row, n - 1) then Weighted(o, row, n - 1)
    else Weighted(o, row, n - 1) + o.mul(o.exp(row.score(row.tokens[n - 1])), row.value(row.tokens[n - 1]))
  }

  predicate HasToken(row: Row, n: nat) {
    exists c: nat :: c < n && Holds(row, c)
  }

  lemma HasMore(row: Row, a: nat, b: nat)
    requires HasToken(row, a) && a <= b
    ensures HasToken(row, b)
  {
  }

  lemma {:induction false} WeightPositive(o: Ops, row: Row, n: nat)
    ensures 0.0 <= Weight(o, row, n)
    ensures HasToken(row, n) ==> 0.0 < Weight(o, row, n)
  {
    if n > 0 {
      WeightPositive(o, row, n - 1);
      var last: nat := n - 1;
      if Holds(row, last) { assert PowerAt(o, row.score(row.tokens[last]), 0.0); }
      else if c: nat :| c < n && Holds(row, c) { assert HasToken(row, last); }
    }
  }

  // The softmax-weighted mean over the first n columns.
  function Direct(o: Ops, row: Row, n: nat): real
    requires Weight(o, row, n) != 0.0
  {
    Weighted(o, row, n) / Weight(o, row, n)
  }

  // ... which is not a number if none of them holds a token.
  ghost function Mean(o: Ops, row: Row, n: nat): Float {
    if HasToken(row, n) then (WeightPositive(o, row, n); Fin(Direct(o, row, n))) else NaN
  }

  // --- One block ----------------------------------------------------------------

  function BlockMax(row: Row, a: nat, b: nat): Float
    requires a <= b
    decreases b - a
  {
    if a == b then NegInf else Maximum(BlockMax(row, a, b - 1), row.Score(b - 1))
  }

  // What column c adds against a maximum.
  function Term(o: Ops, row: Row, c: nat, top: Float): Float {
    Exp2(o, Sub(row.Score(c), top))
  }

  function ValueTerm(o: Ops, row: Row, c: nat, top: Float): Float {
    Mul(o, Term(o, row, c, top), row.Value(c))
  }

  function BlockSum(o: Ops, row: Row, a: nat, b: nat, top: Float): Float
    requires a <= b
    decreases b - a
  {
    if a == b then Fin(0.0) else Add(BlockSum(o, row, a, b - 1, top), Term(o, row, b - 1, top))
  }

  function BlockDot(o: Ops, row: Row, a: nat, b: nat, top: Float): Float
    requires a <= b
    decreases b - a
  {
    if a == b then Fin(0.0) else Add(BlockDot(o, row, a, b - 1, top), ValueTerm(o, row, b - 1, top))
  }

  lemma {:induction false} BlockMaxFinite(row: Row, a: nat, b: nat)
    requires a <= b
    ensures BlockMax(row, a, b).Fin? || BlockMax(row, a, b).NegInf?
    ensures BlockMax(row, a, b).Fin? <==> exists c: nat :: a <= c < b && Holds(row, c)
    decreases b - a
  {
    if a < b {
      BlockMaxFinite(row, a, b - 1);
      var last: nat := b - 1;
      if Holds(row, last) { assert a <= last < b; }
      else if c: nat :| a <= c < b && Holds(row, c) { assert a <= c < last; }
    }
  }

  lemma TermsFinite(o: Ops, row: Row, c: nat, top: real)
    ensures Term(o, row, c, Fin(top)).Fin? && ValueTerm(o, row, c, Fin(top)).Fin?
    ensures !Holds(row, c) ==> Term(o, row, c, Fin(top)) == Fin(0.0) == ValueTerm(o, row, c, Fin(top))
  {
    assert ProductAt(o, 0.0, 0.0);
  }

  lemma {:induction false} BlocksFinite(o: Ops, row: Row, a: nat, b: nat, top: real)
    requires a <= b
    ensures BlockSum(o, row, a, b, Fin(top)).Fin? && BlockDot(o, row, a, b, Fin(top)).Fin?
    decreases b - a
  {
    if a < b {
      BlocksFinite(o, row, a, b - 1, top);
      TermsFinite(o, row, b - 1, top);
    }
  }

  // --- Against another maximum ---------------------------------------------------

  lemma MulAdd(o: Ops, x: Float, y: Float, k: Float)
    requires x.Fin? && y.Fin? && k.Fin?
    ensures Mul(o, Add(x, y), k) == Add(Mul(o, x, k), Mul(o, y, k))
  {
    assert ProductAt(o, x.value + y.value, k.value) && ProductAt(o, x.value, k.value) && ProductAt(o, y.value, k.value);
  }

  lemma RealSwap(a: real, b: real, c: real)
    ensures a * b * c == a * c * b
  {
  }

  lemma MulSwap(o: Ops, x: Float, y: Float, k: Float)
    ensures Mul(o, Mul(o, x, y), k) == Mul(o, Mul(o, x, k), y)
  {
    if x.Fin? && y.Fin? && k.Fin? {
      var (a, b, c) := (x.value, y.value, k.value);
      assert ProductAt(o, a, b) && ProductAt(o, a, c);
      assert o.mul(o.mul(a, b), c) == a * b * c by { assert ProductAt(o, o.mul(a, b), c); }
      assert o.mul(o.mul(a, c), b) == a * c * b by { assert ProductAt(o, o.mul(a, c), b); }
      RealSwap(a, b, c);
    }
  }

  // A term is rescaled from one maximum to another by one factor.
  lemma TermScales(o: Ops, row: Row, c: nat, top: real, next: real)
    ensures Mul(o, Term(o, row, c, Fin(top)), Fin(o.exp(top - next))) == Term(o, row, c, Fin(next))
    ensures Mul(o, ValueTerm(o, row, c, Fin(top)), Fin(o.exp(top - next))) == ValueTerm(o, row, c, Fin(next))
  {
    if Holds(row, c) {
      var s := row.score(row.tokens[c]);
      assert PowerAt(o, s - top, top - next) && (s - top) + (top - next) == s - next;
    } else {
      assert ProductAt(o, 0.0, o.exp(top - next));
    }
    MulSwap(o, Term(o, row, c, Fin(top)), row.Value(c), Fin(o.exp(top - next)));
  }

  lemma {:induction false} BlocksScale(o: Ops, row: Row, a: nat, b: nat, top: real, next: real)
    requires a <= b
    ensures Mul(o, BlockSum(o, row, a, b, Fin(top)), Fin(o.exp(top - next))) == BlockSum(o, row, a, b, Fin(next))
    ensures Mul(o, BlockDot(o, row, a, b, Fin(top)), Fin(o.exp(top - next))) == BlockDot(o, row, a, b, Fin(next))
    decreases b - a
  {
    var k := Fin(o.exp(top - next));
    if a == b {
      assert ProductAt(o, 0.0, k.value);
    } else {
      BlocksScale(o, row, a, b - 1, top, next);
      BlocksFinite(o, row, a, b - 1, top);
      TermsFinite(o, row, b - 1, top);
      TermScales(o, row, b - 1, top, next);
      MulAdd(o, BlockSum(o, row, a, b - 1, Fin(top)), Term(o, row, b - 1, Fin(top)), k);
      MulAdd(o, BlockDot(o, row, a, b - 1, Fin(top)), ValueTerm(o, row, b - 1, Fin(top)), k);
    }
  }

  lemma {:induction false} BlocksJoin(o: Ops, row: Row, a: nat, b: nat, top: real)
    requires a <= b
    ensures Add(BlockSum(o, row, 0, a, Fin(top)), BlockSum(o, row, a, b, Fin(top))) == BlockSum(o, row, 0, b, Fin(top))
    ensures Add(BlockDot(o, row, 0, a, Fin(top)), BlockDot(o, row, a, b, Fin(top))) == BlockDot(o, row, 0, b, Fin(top))
    decreases b - a
  {
    BlocksFinite(o, row, 0, a, top);
    if a < b {
      BlocksJoin(o, row, a, b - 1, top);
      BlocksFinite(o, row, a, b - 1, top);
      TermsFinite(o, row, b - 1, top);
      AddAssociates(BlockSum(o, row, 0, a, Fin(top)), BlockSum(o, row, a, b - 1, Fin(top)),
                    Term(o, row, b - 1, Fin(top)));
      AddAssociates(BlockDot(o, row, 0, a, Fin(top)), BlockDot(o, row, a, b - 1, Fin(top)),
                    ValueTerm(o, row, b - 1, Fin(top)));
    }
  }

  lemma AddAssociates(x: Float, y: Float, z: Float)
    requires x.Fin? && y.Fin? && z.Fin?
    ensures Add(x, Add(y, z)) == Add(Add(x, y), z)
  {
  }

  lemma {:induction false} MaxJoins(row: Row, a: nat, b: nat)
    requires a <= b
    ensures Maximum(BlockMax(row, 0, a), BlockMax(row, a, b)) == BlockMax(row, 0, b)
    decreases b - a
  {
    BlockMaxFinite(row, 0, a);
    if a < b {
      MaxJoins(row, a, b - 1);
      BlockMaxFinite(row, a, b - 1);
    }
  }

  // --- The loop -----------------------------------------------------------------

  datatype Running = Running(top: Float, normalizer: Float, accumulator: Float)

  const START := Running(NegInf, Fin(0.0), Fin(0.0))

  // All of the first n columns taken as one block.
  function OneBlock(o: Ops, row: Row, n: nat): Running {
    var top := BlockMax(row, 0, n);
    Running(top, BlockSum(o, row, 0, n, top), BlockDot(o, row, 0, n, top))
  }

  // One iteration of the kernel loop, on columns [a, b).
  function Iterate(o: Ops, row: Row, a: nat, b: nat, s: Running): Running
    requires a <= b
  {
    var top := Maximum(s.top, BlockMax(row, a, b));
    var alpha := Exp2(o, Sub(s.top, top));
    Running(top,
            Add(Mul(o, s.normalizer, alpha), BlockSum(o, row, a, b, top)),
            Add(Mul(o, s.accumulator, alpha), BlockDot(o, row, a, b, top)))
  }

  lemma FirstBlock(o: Ops, row: Row, b: nat)
    requires HasToken(row, b)
    ensures Iterate(o, row, 0, b, START) == OneBlock(o, row, b)
  {
    BlockMaxFinite(row, 0, b);
    BlocksFinite(o, row, 0, b, BlockMax(row, 0, b).value);
    assert ProductAt(o, 0.0, 0.0);
  }

  // Streaming one more block is the same as a longer first block.
  lemma NextBlock(o: Ops, row: Row, a: nat, b: nat)
    requires a <= b && HasToken(row, a)
    ensures Iterate(o, row, a, b, OneBlock(o, row, a)) == OneBlock(o, row, b)
  {
    BlockMaxFinite(row, 0, a);
    HasMore(row, a, b);
    BlockMaxFinite(row, 0, b);
    MaxJoins(row, a, b);
    NextBlockAt(o, row, a, b, BlockMax(row, 0, a).value, BlockMax(row, 0, b).value);
  }

  lemma NextBlockAt(o: Ops, row: Row, a: nat, b: nat, top: real, next: real)
    requires a <= b && BlockMax(row, 0, a) == Fin(top) && BlockMax(row, 0, b) == Fin(next)
    requires Maximum(Fin(top), BlockMax(row, a, b)) == Fin(next)
    ensures Iterate(o, row, a, b, OneBlock(o, row, a)) == OneBlock(o, row, b)
  {
    RescaledJoin(o, row, a, b, top, next);
    assert Exp2(o, Sub(Fin(top), Fin(next))) == Fin(o.exp(top - next));
  }

  lemma RescaledJoin(o: Ops, row: Row, a: nat, b: nat, top: real, next: real)
    requires a <= b
    ensures Add(Mul(o, BlockSum(o, row, 0, a, Fin(top)), Fin(o.exp(top - next))), BlockSum(o, row, a, b, Fin(next)))
            == BlockSum(o, row, 0, b, Fin(next))
    ensures Add(Mul(o, BlockDot(o, row, 0, a, Fin(top)), Fin(o.exp(top - next))), BlockDot(o, row, a, b, Fin(next)))
            == BlockDot(o, row, 0, b, Fin(next))
  {
    BlocksScale(o, row, 0, a, top, next);
    BlocksJoin(o, row, a, b, next);
  }

  predicate Lost(s: Running) {
    s.normalizer == NaN && s.accumulator == NaN
  }

  lemma EmptyBlockIsLost(o: Ops, row: Row, b: nat)
    requires !HasToken(row, b)
    ensures Lost(Iterate(o, row, 0, b, START))
  {
    BlockMaxFinite(row, 0, b);
  }

  // Division as the kernel language divides: toward zero.
  function TruncatedDiv(a: int, b: nat): int
    requires 0 < b
  {
    if a >= 0 then a / b else -((-a) / b)
  }

  // How far the loop goes for a query that sees `visible` tokens.
  function RowLimit(topk: nat, visible: int, block: nat): int
    requires 0 < block
  {
    Arithmetic.Min(topk, TruncatedDiv(Arithmetic.Min(topk, visible) + block - 1, block) * block)
  }

  // One query of `_sparse_gqa_prefill` and of `_sparse_gqa_chunk_prefill`.
  method Attend(o: Ops, row: Row, visible: int, block: nat) returns (out: Float)
    requires 0 < block
    ensures var limit := RowLimit(|row.tokens|, visible, block);
      out == if 0 < limit && HasToken(row, Arithmetic.Min(block, limit)) then Mean(o, row, limit) else NaN
    ensures forall count: nat | CausallyPacked(row, visible, count) :: out == Mean(o, row, |row.tokens|)
  {
    var limit := RowLimit(|row.tokens|, visible, block);
    ghost var first := 0 < limit && HasToken(row, Arithmetic.Min(block, limit));
    var s := START;
    var start: nat := 0;
    while start < limit
      invariant start == 0 ==> s == START
      invariant start > 0 ==> block <= start && 0 < limit
      invariant start > 0 ==> if first then s == OneBlock(o, row, Arithmetic.Min(start, limit)) else Lost(s)
    {
      // Columns past the row's end load as invalid.
      var end := Arithmetic.Min(start + block, limit);
      if start == 0 {
        if first { FirstBlock(o, row, end); } else { EmptyBlockIsLost(o, row, end); }
      } else if first {
        HasMore(row, Arithmetic.Min(block, limit), start);
        NextBlock(o, row, start, end);
      }
      s := Iterate(o, row, start, end, s);
      start := start + block;
    }
    out := Div(s.accumulator, s.normalizer);
    if first {
      HasMore(row, Arithmetic.Min(block, limit), limit);
      Normalized(o, row, limit);
    }
    forall count: nat | CausallyPacked(row, visible, count) ensures out == Mean(o, row, |row.tokens|) {
      CutoffDropsNothing(o, row, visible, block, count);
    }
  }

  // --- The result -----------------------------------------------------------------

  // What a column adds against a maximum, from its plain weight.
  lemma ColumnScales(o: Ops, row: Row, c: nat, top: real)
    requires Holds(row, c)
    ensures var (k, w) := (Fin(o.exp(-top)), Fin(o.exp(row.score(row.tokens[c]))));
      && Term(o, row, c, Fin(top)) == Mul(o, w, k)
      && ValueTerm(o, row, c, Fin(top)) == Mul(o, Mul(o, w, Fin(row.value(row.tokens[c]))), k)
  {
    var (k, w) := (Fin(o.exp(-top)), Fin(o.exp(row.score(row.tokens[c]))));
    assert row.Valid(c) && PowerAt(o, row.score(row.tokens[c]), -top);
    MulSwap(o, w, row.Value(c), k);
  }

  // Against the largest score or against none, the weighted mean is the same.
  predicate ScalesTo(o: Ops, row: Row, n: nat, top: real) {
    && BlockSum(o, row, 0, n, Fin(top)) == Mul(o, Fin(Weight(o, row, n)), Fin(o.exp(-top)))
    && BlockDot(o, row, 0, n, Fin(top)) == Mul(o, Fin(Weighted(o, row, n)), Fin(o.exp(-top)))
  }

  lemma TokenScales(o: Ops, row: Row, c: nat, top: real)
    requires Holds(row, c) && ScalesTo(o, row, c, top)
    ensures ScalesTo(o, row, c + 1, top)
  {
    var (k, w) := (Fin(o.exp(-top)), Fin(o.exp(row.score(row.tokens[c]))));
    ColumnScales(o, row, c, top);
    MulAdd(o, Fin(Weight(o, row, c)), w, k);
    MulAdd(o, Fin(Weighted(o, row, c)), Mul(o, w, Fin(row.value(row.tokens[c]))), k);
  }

  lemma GapScales(o: Ops, row: Row, c: nat, top: real)
    requires !Holds(row, c) && ScalesTo(o, row, c, top)
    ensures ScalesTo(o, row, c + 1, top)
  {
    TermsFinite(o, row, c, top);
    PlusZero(BlockSum(o, row, 0, c, Fin(top)));
    PlusZero(BlockDot(o, row, 0, c, Fin(top)));
  }

  lemma {:induction false} WeightsScale(o: Ops, row: Row, n: nat, top: real)
    ensures ScalesTo(o, row, n, top)
  {
    if n == 0 {
      assert ProductAt(o, 0.0, o.exp(-top));
    } else {
      WeightsScale(o, row, n - 1, top);
      if Holds(row, n - 1) { TokenScales(o, row, n - 1, top); } else { GapScales(o, row, n - 1, top); }
    }
  }

  lemma PlusZero(x: Float)
    requires x.Fin?
    ensures Add(x, Fin(0.0)) == x
  {
  }

  lemma Normalized(o: Ops, row: Row, n: nat)
    requires HasToken(row, n)
    ensures Weight(o, row, n) > 0.0
    ensures Div(OneBlock(o, row, n).accumulator, OneBlock(o, row, n).normalizer) == Fin(Direct(o, row, n))
  {
    BlockMaxFinite(row, 0, n);
    var top := BlockMax(row, 0, n).value;
    WeightPositive(o, row, n);
    WeightsScale(o, row, n, top);
    assert PowerAt(o, -top, 0.0);
    Quotient(o, o.exp(-top), Weighted(o, row, n), Weight(o, row, n));
  }

  lemma Quotient(o: Ops, k: real, p: real, q: real)
    requires 0.0 < k && 0.0 < q
    ensures Div(Mul(o, Fin(p), Fin(k)), Mul(o, Fin(q), Fin(k))) == Fin(p / q)
  {
    assert ProductAt(o, p, k) && ProductAt(o, q, k);
    SameQuotient(k, p, q);
  }

  lemma SameQuotient(k: real, p: real, q: real)
    requires 0.0 < k && 0.0 < q
    ensures q * k != 0.0 && (p * k) / (q * k) == p / q
  {
  }

  // --- The cutoff -------------------------------------------------------------------

  // Valid tokens first: what the packing of the indices leaves.
  predicate FrontPacked(row: Row, count: nat) {
    count <= |row.tokens| && forall c: nat | c < |row.tokens| :: Holds(row, c) <==> c < count
  }

  // A causal selection without duplicates has at most as many tokens as the
  // query sees.
  lemma {:induction false} CountWithin(tokens: seq<int>, visible: nat)
    requires forall i | 0 <= i < |tokens| :: 0 <= tokens[i] < visible
    requires forall i, j | 0 <= i < j < |tokens| :: tokens[i] != tokens[j]
    ensures |tokens| <= visible
    decreases visible
  {
    if tokens != [] {
      assert 0 <= tokens[0] < visible;
      if i :| 0 <= i < |tokens| && tokens[i] == visible - 1 {
        CountWithin(tokens[..i] + tokens[i + 1..], visible - 1);
      } else {
        CountWithin(tokens, visible - 1);
      }
    }
  }

  // The loop goes to the end of the block that holds the last of the columns a query
  // may fill, or to the end of the row; a query that sees nothing visits nothing.
  lemma RowLimitIs(topk: nat, visible: int, block: nat)
    requires 0 < block
    ensures var (columns, limit) := (Arithmetic.Min(topk, visible), RowLimit(topk, visible, block));
      && (columns <= 0 ==> limit <= 0)
      && (0 < columns ==>
            columns <= limit <= topk && limit < columns + block && (limit == topk || limit % block == 0))
  {
    var columns := Arithmetic.Min(topk, visible);
    if 0 < columns { BlocksCover(columns, block); } else { NoBlocks(columns, block); }
  }

  lemma BlocksCover(columns: nat, block: nat)
    requires 0 < columns && 0 < block
    ensures var end := (columns + block - 1) / block * block; columns <= end < columns + block && end % block == 0
  {
    var q: nat := (columns + block - 1) / block;
    Arithmetic.Split(columns + block - 1, block);
    Arithmetic.QuotientUnique(q * block, block, q, 0);
  }

  lemma NoBlocks(columns: int, block: nat)
    requires columns <= 0 < block
    ensures TruncatedDiv(columns + block - 1, block) * block <= 0
  {
    var a := columns + block - 1;
    if 0 <= a {
      Arithmetic.QuotientUnique(a, block, 0, a);
    } else {
      Arithmetic.Split(-a, block);
      Arithmetic.MulMonotone(0, -a / block, block);
    }
  }

  // ... and each of them a different one that the query sees.
  predicate CausallyPacked(row: Row, visible: int, count: nat) {
    && 0 <= visible && FrontPacked(row, count)
    && (forall i | 0 <= i < count :: row.tokens[i] < visible)
    && (forall i, j | 0 <= i < j < count :: row.tokens[i] != row.tokens[j])
  }

  // With front-packed causal indices the cutoff drops no token: the result is the
  // direct softmax over the whole row.
  lemma CutoffDropsNothing(o: Ops, row: Row, visible: nat, block: nat, count: nat)
    requires 0 < block && CausallyPacked(row, visible, count)
    ensures var limit := RowLimit(|row.tokens|, visible, block);
      && count <= limit <= |row.tokens|
      && (0 < limit && HasToken(row, Arithmetic.Min(block, limit)) <==> 0 < count)
      && (0 < count ==> Mean(o, row, limit) == Mean(o, row, |row.tokens|))
      && (HasToken(row, |row.tokens|) <==> 0 < count)
  {
    forall i | 0 <= i < count ensures 0 <= row.tokens[..count][i] < visible { assert Holds(row, i); }
    CountWithin(row.tokens[..count], visible);
    RowLimitIs(|row.tokens|, visible, block);
    var limit := RowLimit(|row.tokens|, visible, block);
    EmptyTail(o, row, limit, |row.tokens|, count);
    if 0 < count { HasFirst(row, Arithmetic.Min(block, limit)); HasMore(row, Arithmetic.Min(block, limit), limit); }
  }

  lemma HasFirst(row: Row, n: nat)
    requires Holds(row, 0) && 0 < n
    ensures HasToken(row, n)
  {
  }

  lemma {:induction false} EmptyTail(o: Ops, row: Row, a: nat, b: nat, count: nat)
    requires count <= a <= b <= |row.tokens| && FrontPacked(row, count)
    ensures Weight(o, row, a) == Weight(o, row, b) && Weighted(o, row, a) == Weighted(o, row, b)
  {
    if a < b { EmptyTail(o, row, a, b - 1, count); }
  }
}
