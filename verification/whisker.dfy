/**
 * A whisker: one congestion-control rule (a window law and a send spacing)
 * bound to a domain of memory space, and the generator that enumerates the
 * cartesian product of rule parameters.
 */
module WhiskerRules {
  import opened NetworkMemory

  /** The cap on any window the law produces. */
  const MaxWindow: nat := 1000000

  /**
   * `NewWhisker(generation, windowIncrement, windowMultiple, intersend, domain)`
   * is this constructor: it stores its five arguments in the five fields.
   */
  datatype Whisker = Whisker(
    generation: nat,
    windowIncrement: int,
    windowMultiple: real,
    intersend: real,
    domain: Range)

  function Min(a: real, b: real): real { if a <= b then a else b }

  function Max(a: real, b: real): real { if a >= b then a else b }

  /**
   * The window law: `prev * windowMultiple + windowIncrement`, clamped to
   * [0, MaxWindow], then truncated to an unsigned integer.
   */
  function Window(w: Whisker, prev: nat): (r: nat)
    ensures r <= MaxWindow
  {
    Max(0.0, Min(prev as real * w.windowMultiple + w.windowIncrement as real, MaxWindow as real)).Floor
  }

  /** The unclamped value the law starts from. */
  function Raw(w: Whisker, prev: nat): real {
    prev as real * w.windowMultiple + w.windowIncrement as real
  }

  /** Below one the clamp to zero and the truncation leave nothing. */
  lemma WindowBelowOne(w: Whisker, prev: nat)
    requires Raw(w, prev) < 1.0
    ensures Window(w, prev) == 0
  {
  }

  /** From one upward the law is the floor of the capped raw value. */
  lemma WindowFromOne(w: Whisker, prev: nat)
    requires Raw(w, prev) >= 1.0
    ensures Window(w, prev) == Min(Raw(w, prev), MaxWindow as real).Floor
    ensures Window(w, prev) >= 1
  {
  }

  /** A rule with multiple 1 and increment 0 keeps the window, up to the cap. */
  lemma WindowIdentity(w: Whisker, prev: nat)
    requires w.windowMultiple == 1.0 && w.windowIncrement == 0
    ensures Window(w, prev) == if prev <= MaxWindow then prev else MaxWindow
  {
  }

  /**
   * The rule-generation parameters: a generation count and the lists that
   * the generator takes the cartesian product of.
   */
  datatype Config = Config(
    generations: nat,
    windowIncrements: seq<int>,
    windowMultiples: seq<real>,
    intersends: seq<real>,
    domains: seq<Range>)

  /** The blocks of `bs`, one after another. */
  function Concat<T>(bs: seq<seq<T>>): seq<T> {
    if bs == [] then [] else Concat(bs[..|bs| - 1]) + bs[|bs| - 1]
  }

  lemma {:induction false} ConcatLength<T>(bs: seq<seq<T>>, k: nat)
    requires forall i :: 0 <= i < |bs| ==> |bs[i]| == k
    ensures |Concat(bs)| == |bs| * k
  {
    if bs != [] {
      ConcatLength(bs[..|bs| - 1], k);
    }
  }

  /** With blocks of length `k`, position `a * k + j` is element `j` of block `a`. */
  lemma {:induction false} ConcatAt<T>(bs: seq<seq<T>>, k: nat, a: nat, j: nat)
    requires forall i :: 0 <= i < |bs| ==> |bs[i]| == k
    requires a < |bs| && j < k
    ensures a * k + j < |Concat(bs)|
    ensures Concat(bs)[a * k + j] == bs[a][j]
  {
    var init := bs[..|bs| - 1];
    ConcatLength(init, k);
    if a < |bs| - 1 {
      ConcatAt(init, k, a, j);
    } else {
      assert |Concat(init)| == a * k;
    }
  }

  lemma {:induction false} ConcatMember<T>(bs: seq<seq<T>>, x: T)
    ensures x in Concat(bs) <==> exists i :: 0 <= i < |bs| && x in bs[i]
  {
    if bs != [] {
      var init := bs[..|bs| - 1];
      ConcatMember(init, x);
      if x in Concat(init) {
        var i :| 0 <= i < |init| && x in init[i];
        assert bs[i] == init[i];
      }
      forall i | 0 <= i < |bs| - 1
        ensures bs[i] == init[i]
      {
      }
    }
  }

  lemma ConcatSnoc<T>(bs: seq<seq<T>>, i: nat)
    requires i < |bs|
    ensures Concat(bs[..i + 1]) == Concat(bs[..i]) + bs[i]
  {
    assert bs[..i + 1][..i] == bs[..i];
  }

  lemma MulAssoc(x: nat, y: nat, z: nat)
    ensures x * (y * z) == x * y * z
  {
  }

  // The five nested loops of the generator, innermost first. Each level is
  // the concatenation of the blocks produced by the level inside it, one
  // block per element of its own list.

  function DomainRow(g: nat, inc: int, mul: real, s: real, ds: seq<Range>): (r: seq<Whisker>)
    ensures |r| == |ds|
  {
    seq(|ds|, i requires 0 <= i < |ds| => Whisker(g, inc, mul, s, ds[i]))
  }

  function IntersendRows(g: nat, inc: int, mul: real, ss: seq<real>, ds: seq<Range>): seq<seq<Whisker>> {
    seq(|ss|, i requires 0 <= i < |ss| => DomainRow(g, inc, mul, ss[i], ds))
  }

  function IntersendBlock(g: nat, inc: int, mul: real, ss: seq<real>, ds: seq<Range>): (r: seq<Whisker>)
    ensures |r| == |ss| * |ds|
  {
    ConcatLength(IntersendRows(g, inc, mul, ss, ds), |ds|);
    Concat(IntersendRows(g, inc, mul, ss, ds))
  }

  function MultipleRows(g: nat, inc: int, ms: seq<real>, ss: seq<real>, ds: seq<Range>): seq<seq<Whisker>> {
    seq(|ms|, i requires 0 <= i < |ms| => IntersendBlock(g, inc, ms[i], ss, ds))
  }

  function MultipleBlock(g: nat, inc: int, ms: seq<real>, ss: seq<real>, ds: seq<Range>): (r: seq<Whisker>)
    ensures |r| == |ms| * (|ss| * |ds|)
  {
    ConcatLength(MultipleRows(g, inc, ms, ss, ds), |ss| * |ds|);
    Concat(MultipleRows(g, inc, ms, ss, ds))
  }

  function IncrementRows(g: nat, c: Config): seq<seq<Whisker>> {
    seq(|c.windowIncrements|, i requires 0 <= i < |c.windowIncrements| =>
      MultipleBlock(g, c.windowIncrements[i], c.windowMultiples, c.intersends, c.domains))
  }

  /** Length of the rules one generation contributes. */
  function BlockSize(c: Config): nat {
    |c.windowIncrements| * (|c.windowMultiples| * (|c.intersends| * |c.domains|))
  }

  function IncrementBlock(g: nat, c: Config): (r: seq<Whisker>)
    ensures |r| == BlockSize(c)
  {
    ConcatLength(IncrementRows(g, c), |c.windowMultiples| * (|c.intersends| * |c.domains|));
    Concat(IncrementRows(g, c))
  }

  function GenerationRows(c: Config): seq<seq<Whisker>> {
    seq(c.generations, g requires 0 <= g < c.generations => IncrementBlock(g, c))
  }

  /**
   * The rules `GenerateWhiskers` produces, in its order: generation
   * outermost, domain innermost; one rule per combination of the five
   * parameters.
   */
  function Generated(c: Config): (r: seq<Whisker>)
    ensures |r| == c.generations * BlockSize(c)
  {
    ConcatLength(GenerationRows(c), BlockSize(c));
    Concat(GenerationRows(c))
  }

  /** One rule per combination of the five parameter lists. */
  lemma GeneratedLength(c: Config)
    ensures |Generated(c)| == c.generations * |c.windowIncrements| * |c.windowMultiples| * |c.intersends| * |c.domains|
  {
    Product5(c.generations, |c.windowIncrements|, |c.windowMultiples|, |c.intersends|, |c.domains|);
  }

  lemma Product5(g: nat, i: nat, m: nat, s: nat, d: nat)
    ensures g * (i * (m * (s * d))) == g * i * m * s * d
  {
    MulAssoc(g, i, m * (s * d));
    MulAssoc(g * i, m, s * d);
    MulAssoc(g * i * m, s, d);
  }

  // One step of each loop: appending the block of the next element.

  lemma IntersendStep(g: nat, inc: int, mul: real, ss: seq<real>, ds: seq<Range>, s: nat)
    requires s < |ss|
    ensures Concat(IntersendRows(g, inc, mul, ss, ds)[..s + 1])
         == Concat(IntersendRows(g, inc, mul, ss, ds)[..s]) + DomainRow(g, inc, mul, ss[s], ds)
  {
    ConcatSnoc(IntersendRows(g, inc, mul, ss, ds), s);
  }

  lemma MultipleStep(g: nat, inc: int, ms: seq<real>, ss: seq<real>, ds: seq<Range>, b: nat)
    requires b < |ms|
    ensures Concat(MultipleRows(g, inc, ms, ss, ds)[..b + 1])
         == Concat(MultipleRows(g, inc, ms, ss, ds)[..b]) + Concat(IntersendRows(g, inc, ms[b], ss, ds)[..|ss|])
  {
    ConcatSnoc(MultipleRows(g, inc, ms, ss, ds), b);
    assert IntersendRows(g, inc, ms[b], ss, ds)[..|ss|] == IntersendRows(g, inc, ms[b], ss, ds);
  }

  lemma IncrementStep(g: nat, c: Config, a: nat)
    requires a < |c.windowIncrements|
    ensures Concat(IncrementRows(g, c)[..a + 1])
         == Concat(IncrementRows(g, c)[..a])
          + Concat(MultipleRows(g, c.windowIncrements[a], c.windowMultiples, c.intersends, c.domains)[..|c.windowMultiples|])
  {
    ConcatSnoc(IncrementRows(g, c), a);
    assert MultipleRows(g, c.windowIncrements[a], c.windowMultiples, c.intersends, c.domains)[..|c.windowMultiples|]
        == MultipleRows(g, c.windowIncrements[a], c.windowMultiples, c.intersends, c.domains);
  }

  lemma GenerationStep(c: Config, g: nat)
    requires g < c.generations
    ensures Concat(GenerationRows(c)[..g + 1])
         == Concat(GenerationRows(c)[..g]) + Concat(IncrementRows(g, c)[..|c.windowIncrements|])
  {
    ConcatSnoc(GenerationRows(c), g);
    assert IncrementRows(g, c)[..|c.windowIncrements|] == IncrementRows(g, c);
  }

  lemma Assoc<T>(a: seq<T>, b: seq<T>, c: seq<T>)
    ensures a + b + c == a + (b + c)
  {
  }

  /** The generator: five nested loops appending one rule per combination. */
  method GenerateWhiskers(c: Config) returns (ws: seq<Whisker>)
    ensures ws == Generated(c)
  {
    ws := [];
    var g := 0;
    while g < c.generations
      invariant g <= c.generations
      invariant ws == Concat(GenerationRows(c)[..g])
    {
      ghost var ws4 := ws;
      var a := 0;
      while a < |c.windowIncrements|
        invariant a <= |c.windowIncrements|
        invariant ws == ws4 + Concat(IncrementRows(g, c)[..a])
      {
        var inc := c.windowIncrements[a];
        ghost var ws3 := ws;
        var b := 0;
        while b < |c.windowMultiples|
          invariant b <= |c.windowMultiples|
          invariant ws == ws3 + Concat(MultipleRows(g, inc, c.windowMultiples, c.intersends, c.domains)[..b])
        {
          var mul := c.windowMultiples[b];
          ghost var ws2 := ws;
          var s := 0;
          while s < |c.intersends|
            invariant s <= |c.intersends|
            invariant ws == ws2 + Concat(IntersendRows(g, inc, mul, c.intersends, c.domains)[..s])
          {
            var sp := c.intersends[s];
            ghost var ws1 := ws;
            var d := 0;
            while d < |c.domains|
              invariant d <= |c.domains|
              invariant ws == ws1 + DomainRow(g, inc, mul, sp, c.domains)[..d]
            {
              Assoc(ws1, DomainRow(g, inc, mul, sp, c.domains)[..d], [Whisker(g, inc, mul, sp, c.domains[d])]);
              ws := ws + [Whisker(g, inc, mul, sp, c.domains[d])];
              assert DomainRow(g, inc, mul, sp, c.domains)[..d + 1]
                  == DomainRow(g, inc, mul, sp, c.domains)[..d] + [Whisker(g, inc, mul, sp, c.domains[d])];
              d := d + 1;
            }
            assert DomainRow(g, inc, mul, sp, c.domains)[..d] == DomainRow(g, inc, mul, sp, c.domains);
            IntersendStep(g, inc, mul, c.intersends, c.domains, s);
            Assoc(ws2, Concat(IntersendRows(g, inc, mul, c.intersends, c.domains)[..s]), DomainRow(g, inc, mul, sp, c.domains));
            s := s + 1;
          }
          MultipleStep(g, inc, c.windowMultiples, c.intersends, c.domains, b);
          Assoc(ws3, Concat(MultipleRows(g, inc, c.windowMultiples, c.intersends, c.domains)[..b]),
                Concat(IntersendRows(g, inc, mul, c.intersends, c.domains)[..s]));
          b := b + 1;
        }
        IncrementStep(g, c, a);
        Assoc(ws4, Concat(IncrementRows(g, c)[..a]),
              Concat(MultipleRows(g, inc, c.windowMultiples, c.intersends, c.domains)[..b]));
        a := a + 1;
      }
      GenerationStep(c, g);
      g := g + 1;
    }
    assert GenerationRows(c)[..g] == GenerationRows(c);
  }

  // Order and contents of the generated rules.

  /** Position of the rule for generation `g` and parameter indices `a`, `b`, `s`, `d`. */
  function Position(c: Config, g: nat, a: nat, b: nat, s: nat, d: nat): nat {
    (((g * |c.windowIncrements| + a) * |c.windowMultiples| + b) * |c.intersends| + s) * |c.domains| + d
  }

  /** Offset of the rule for indices `a`, `b`, `s`, `d` inside one generation's block. */
  function Offset(c: Config, a: nat, b: nat, s: nat, d: nat): nat {
    a * (|c.windowMultiples| * (|c.intersends| * |c.domains|))
      + (b * (|c.intersends| * |c.domains|) + (s * |c.domains| + d))
  }

  lemma PositionSplit(i: nat, m: nat, sz: nat, dz: nat, g: nat, a: nat, b: nat, s: nat, d: nat)
    ensures (((g * i + a) * m + b) * sz + s) * dz + d
         == g * (i * (m * (sz * dz))) + (a * (m * (sz * dz)) + (b * (sz * dz) + (s * dz + d)))
  {
    calc {
      (((g * i + a) * m + b) * sz + s) * dz + d;
      ((g * i + a) * m + b) * (sz * dz) + (s * dz + d);
      (g * i + a) * (m * (sz * dz)) + (b * (sz * dz) + (s * dz + d));
      g * (i * (m * (sz * dz))) + (a * (m * (sz * dz)) + (b * (sz * dz) + (s * dz + d)));
    }
  }

  lemma IntersendBlockAt(g: nat, inc: int, mul: real, ss: seq<real>, ds: seq<Range>, s: nat, d: nat)
    requires s < |ss| && d < |ds|
    ensures s * |ds| + d < |IntersendBlock(g, inc, mul, ss, ds)|
    ensures IntersendBlock(g, inc, mul, ss, ds)[s * |ds| + d] == Whisker(g, inc, mul, ss[s], ds[d])
  {
    ConcatAt(IntersendRows(g, inc, mul, ss, ds), |ds|, s, d);
  }

  lemma MultipleBlockAt(g: nat, inc: int, ms: seq<real>, ss: seq<real>, ds: seq<Range>, b: nat, j: nat)
    requires b < |ms| && j < |ss| * |ds|
    ensures b * (|ss| * |ds|) + j < |MultipleBlock(g, inc, ms, ss, ds)|
    ensures MultipleBlock(g, inc, ms, ss, ds)[b * (|ss| * |ds|) + j] == IntersendBlock(g, inc, ms[b], ss, ds)[j]
  {
    ConcatAt(MultipleRows(g, inc, ms, ss, ds), |ss| * |ds|, b, j);
  }

  lemma IncrementBlockAt(g: nat, c: Config, a: nat, j: nat)
    requires a < |c.windowIncrements| && j < |c.windowMultiples| * (|c.intersends| * |c.domains|)
    ensures a * (|c.windowMultiples| * (|c.intersends| * |c.domains|)) + j < |IncrementBlock(g, c)|
    ensures IncrementBlock(g, c)[a * (|c.windowMultiples| * (|c.intersends| * |c.domains|)) + j]
         == MultipleBlock(g, c.windowIncrements[a], c.windowMultiples, c.intersends, c.domains)[j]
  {
    ConcatAt(IncrementRows(g, c), |c.windowMultiples| * (|c.intersends| * |c.domains|), a, j);
  }

  lemma GenerationAt(c: Config, g: nat, j: nat, k: nat)
    requires g < c.generations && j < BlockSize(c) && k == g * BlockSize(c) + j
    ensures k < |Generated(c)|
    ensures Generated(c)[k] == IncrementBlock(g, c)[j]
  {
    ConcatAt(GenerationRows(c), BlockSize(c), g, j);
  }

  lemma MixedBound(x: nat, xs: nat, y: nat, ys: nat)
    requires x < xs && y < ys
    ensures x * ys + y < xs * ys
  {
    assert x * ys + y < x * ys + ys == (x + 1) * ys;
    assert (x + 1) * ys <= xs * ys;
  }

  lemma PositionIs(c: Config, g: nat, a: nat, b: nat, s: nat, d: nat)
    ensures Position(c, g, a, b, s, d) == g * BlockSize(c) + Offset(c, a, b, s, d)
  {
    PositionSplit(|c.windowIncrements|, |c.windowMultiples|, |c.intersends|, |c.domains|, g, a, b, s, d);
  }

  lemma MultipleBlockFullAt(g: nat, inc: int, ms: seq<real>, ss: seq<real>, ds: seq<Range>, b: nat, s: nat, d: nat, j: nat)
    requires b < |ms| && s < |ss| && d < |ds|
    requires j == b * (|ss| * |ds|) + (s * |ds| + d)
    ensures j < |MultipleBlock(g, inc, ms, ss, ds)|
    ensures MultipleBlock(g, inc, ms, ss, ds)[j] == Whisker(g, inc, ms[b], ss[s], ds[d])
  {
    MixedBound(s, |ss|, d, |ds|);
    IntersendBlockAt(g, inc, ms[b], ss, ds, s, d);
    MultipleBlockAt(g, inc, ms, ss, ds, b, s * |ds| + d);
  }

  lemma IncrementBlockFullAt(g: nat, c: Config, a: nat, b: nat, s: nat, d: nat, j: nat)
    requires a < |c.windowIncrements| && b < |c.windowMultiples| && s < |c.intersends| && d < |c.domains|
    requires j == a * (|c.windowMultiples| * (|c.intersends| * |c.domains|))
                + (b * (|c.intersends| * |c.domains|) + (s * |c.domains| + d))
    ensures j < |IncrementBlock(g, c)|
    ensures IncrementBlock(g, c)[j] == Whisker(g, c.windowIncrements[a], c.windowMultiples[b], c.intersends[s], c.domains[d])
  {
    var j2 := b * (|c.intersends| * |c.domains|) + (s * |c.domains| + d);
    MultipleBlockFullAt(g, c.windowIncrements[a], c.windowMultiples, c.intersends, c.domains, b, s, d, j2);
    IncrementBlockAt(g, c, a, j2);
  }

  /** The rule at offset `j` of generation `g`'s block, for the five choices that `j` encodes. */
  lemma GeneratedAtIndex(c: Config, g: nat, a: nat, b: nat, s: nat, d: nat, j: nat, k: nat)
    requires g < c.generations && a < |c.windowIncrements| && b < |c.windowMultiples|
    requires s < |c.intersends| && d < |c.domains|
    requires j == a * (|c.windowMultiples| * (|c.intersends| * |c.domains|))
                + (b * (|c.intersends| * |c.domains|) + (s * |c.domains| + d))
    requires k == g * BlockSize(c) + j
    ensures k < |Generated(c)|
    ensures Generated(c)[k] == Whisker(g, c.windowIncrements[a], c.windowMultiples[b], c.intersends[s], c.domains[d])
  {
    IncrementBlockFullAt(g, c, a, b, s, d, j);
    GenerationAt(c, g, j, k);
  }

  /**
   * The generator's order: generation outermost, then increment, multiple,
   * intersend, and domain innermost.
   */
  lemma GeneratedAt(c: Config, g: nat, a: nat, b: nat, s: nat, d: nat)
    requires g < c.generations && a < |c.windowIncrements| && b < |c.windowMultiples|
    requires s < |c.intersends| && d < |c.domains|
    ensures Position(c, g, a, b, s, d) < |Generated(c)|
    ensures Generated(c)[Position(c, g, a, b, s, d)]
         == Whisker(g, c.windowIncrements[a], c.windowMultiples[b], c.intersends[s], c.domains[d])
  {
    PositionIs(c, g, a, b, s, d);
    GeneratedAtIndex(c, g, a, b, s, d, Offset(c, a, b, s, d), Position(c, g, a, b, s, d));
  }

  lemma DomainRowMember(g: nat, inc: int, mul: real, sp: real, ds: seq<Range>, w: Whisker)
    ensures w in DomainRow(g, inc, mul, sp, ds)
        <==> (w.generation == g && w.windowIncrement == inc && w.windowMultiple == mul
              && w.intersend == sp && w.domain in ds)
  {
    if w.generation == g && w.windowIncrement == inc && w.windowMultiple == mul && w.intersend == sp && w.domain in ds {
      var i :| 0 <= i < |ds| && ds[i] == w.domain;
      assert DomainRow(g, inc, mul, sp, ds)[i] == w;
    }
  }

  lemma IntersendBlockMember(g: nat, inc: int, mul: real, ss: seq<real>, ds: seq<Range>, w: Whisker)
    ensures w in IntersendBlock(g, inc, mul, ss, ds)
        <==> (w.generation == g && w.windowIncrement == inc && w.windowMultiple == mul
              && w.intersend in ss && w.domain in ds)
  {
    var rows := IntersendRows(g, inc, mul, ss, ds);
    ConcatMember(rows, w);
    forall i | 0 <= i < |ss| {
      DomainRowMember(g, inc, mul, ss[i], ds, w);
    }
    if w.intersend in ss && w.generation == g && w.windowIncrement == inc && w.windowMultiple == mul && w.domain in ds {
      var i :| 0 <= i < |ss| && ss[i] == w.intersend;
      assert w in rows[i];
    }
  }

  lemma MultipleBlockMember(g: nat, inc: int, ms: seq<real>, ss: seq<real>, ds: seq<Range>, w: Whisker)
    ensures w in MultipleBlock(g, inc, ms, ss, ds)
        <==> (w.generation == g && w.windowIncrement == inc && w.windowMultiple in ms
              && w.intersend in ss && w.domain in ds)
  {
    var rows := MultipleRows(g, inc, ms, ss, ds);
    ConcatMember(rows, w);
    forall i | 0 <= i < |ms| {
      IntersendBlockMember(g, inc, ms[i], ss, ds, w);
    }
    if w.windowMultiple in ms && w.generation == g && w.windowIncrement == inc && w.intersend in ss && w.domain in ds {
      var i :| 0 <= i < |ms| && ms[i] == w.windowMultiple;
      assert w in rows[i];
    }
  }

  lemma IncrementBlockMember(g: nat, c: Config, w: Whisker)
    ensures w in IncrementBlock(g, c)
        <==> (w.generation == g && w.windowIncrement in c.windowIncrements
              && w.windowMultiple in c.windowMultiples && w.intersend in c.intersends && w.domain in c.domains)
  {
    var rows := IncrementRows(g, c);
    ConcatMember(rows, w);
    forall i | 0 <= i < |c.windowIncrements| {
      MultipleBlockMember(g, c.windowIncrements[i], c.windowMultiples, c.intersends, c.domains, w);
    }
    if w.windowIncrement in c.windowIncrements && w.generation == g && w.windowMultiple in c.windowMultiples
      && w.intersend in c.intersends && w.domain in c.domains
    {
      var i :| 0 <= i < |c.windowIncrements| && c.windowIncrements[i] == w.windowIncrement;
      assert w in rows[i];
    }
  }

  /**
   * The generated rules are exactly the cartesian product: generations
   * 0 .. generations - 1 and the listed increments, multiples, intersends
   * and domains.
   */
  lemma GeneratedMember(c: Config, w: Whisker)
    ensures w in Generated(c)
        <==> (w.generation < c.generations && w.windowIncrement in c.windowIncrements
              && w.windowMultiple in c.windowMultiples && w.intersend in c.intersends && w.domain in c.domains)
  {
    var rows := GenerationRows(c);
    ConcatMember(rows, w);
    forall g | 0 <= g < c.generations {
      IncrementBlockMember(g, c, w);
    }
    if w.generation < c.generations && w.windowIncrement in c.windowIncrements
      && w.windowMultiple in c.windowMultiples && w.intersend in c.intersends && w.domain in c.domains
    {
      IncrementBlockMember(w.generation, c, w);
      assert w in rows[w.generation];
    }
  }
}
