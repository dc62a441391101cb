/** The arithmetic by which the align mode chooses block columns, biases and accepted-token counts. */
module AlignDecision {

  /** Ceiling division; Dafny's division by a positive number rounds down, as the source's does. */
  function Cdiv(a: int, b: nat): int
    requires b > 0
  {
    (a + b - 1) / b
  }

  /** The column that seeds a request without a recorded state column; -1 when nothing is computed yet. */
  function SeedColumn(computed: int, blockSize: nat): int
    requires blockSize > 0
  {
    (computed - 1) / blockSize
  }

  /** The running column of a step: the block count minus the speculative blocks, minus one. */
  function RunningColumn(computed: int, scheduled: int, specBlocks: nat, blockSize: nat): int
    requires blockSize > 0
  {
    var numBlocks := Cdiv(computed + scheduled, blockSize) + specBlocks;
    numBlocks - 1 - specBlocks
  }

  /** `Save` migrates the state `bias` tokens past the running state into column `dest`; `reset` sets the
      accepted count back to 1; `copies` is false for a no-op self-copy. */
  datatype Post = NoCopy | Save(dest: int, bias: int, reset: bool, copies: bool)

  function PostDecision(src: int, running: int, newComputed: int, blockSize: nat): Post
    requires blockSize > 0
  {
    var aligned := (newComputed / blockSize) * blockSize;
    if aligned < running then NoCopy
    else
      var bias := aligned - running;
      var dest := aligned / blockSize - 1;
      Save(dest, bias, src == dest, !(src == dest && bias == 0))
  }

  /** Inputs counted by the kernel itself. */
  function PostFromCounts(src: int, computed: int, scheduled: int, drafts: int, accepted: int, blockSize: nat): Post
    requires blockSize > 0
  {
    var running := computed + scheduled - drafts;
    PostDecision(src, running, running + accepted - 1, blockSize)
  }

  /** Inputs with the advanced token count already in place. */
  function PostFromAdvanced(src: int, newComputed: int, accepted: int, blockSize: nat): Post
    requires blockSize > 0
  {
    PostDecision(src, newComputed - accepted + 1, newComputed, blockSize)
  }

  /** What the scheduler guarantees of one step. */
  predicate StepCounts(computed: int, scheduled: int, drafts: int, accepted: int) {
    0 <= computed && 0 <= drafts && drafts + 1 <= scheduled && 1 <= accepted <= drafts + 1
  }

  lemma Multiples(p: int, q: int, b: nat)
    requires p <= q
    ensures p * b <= q * b
    ensures p < q ==> p * b + b <= q * b
  {
    if p < q {
      assert (q - p - 1) * b >= 0;
    }
  }

  lemma DivMul(q: int, b: nat)
    requires b > 0
    ensures (q * b) / b == q && (q * b) % b == 0
  {
    var p := (q * b) / b;
    DivBounds(q * b, b);
    if p < q { Multiples(p, q, b); } else if q < p { Multiples(q, p, b); }
  }

  lemma DivBounds(a: int, b: nat)
    requires b > 0
    ensures (a / b) * b <= a < (a / b) * b + b
  {
    assert a == (a / b) * b + a % b;
  }

  lemma OrderOfMultiples(p: int, q: int, b: nat)
    requires b > 0
    ensures p <= q <==> p * b <= q * b
    ensures p < q <==> p * b + b <= q * b
  {
    if p <= q { Multiples(p, q, b); } else { Multiples(q, p, b); }
  }

  lemma CdivBounds(a: int, b: nat)
    requires b > 0
    ensures Cdiv(a, b) * b >= a > Cdiv(a, b) * b - b
  {
    DivBounds(a + b - 1, b);
  }

  /** The running column ends at or after the last scheduled token and starts before it. */
  lemma RunningColumnBounds(computed: int, scheduled: int, specBlocks: nat, blockSize: nat)
    requires blockSize > 0 && computed >= 0 && scheduled >= 1
    ensures var c := RunningColumn(computed, scheduled, specBlocks, blockSize);
            c >= 0 && (c + 1) * blockSize >= computed + scheduled > c * blockSize
  {
    CdivBounds(computed + scheduled, blockSize);
    var c := RunningColumn(computed, scheduled, specBlocks, blockSize);
    assert (c + 1) * blockSize == c * blockSize + blockSize;
    if c < 0 { OrderOfMultiples(c + 1, 0, blockSize); }
  }

  /** The seed column holds the last computed token; there is none before the first token. */
  lemma SeedColumnBounds(computed: nat, blockSize: nat)
    requires blockSize > 0
    ensures var c := SeedColumn(computed, blockSize);
            if computed == 0 then c == -1 else c >= 0 && c * blockSize < computed <= (c + 1) * blockSize
  {
    var c := SeedColumn(computed, blockSize);
    DivBounds(computed - 1, blockSize);
    assert (c + 1) * blockSize == c * blockSize + blockSize;
    OrderOfMultiples(c, 0, blockSize);
    OrderOfMultiples(c + 1, 0, blockSize);
  }

  /** A prefix hit that is a multiple of the block size seeds the column that ends at the hit. */
  lemma SeedOfHit(hit: nat, blockSize: nat)
    requires blockSize > 0 && hit % blockSize == 0
    ensures SeedColumn(hit, blockSize) == hit / blockSize - 1
  {
    var q := hit / blockSize;
    assert hit == q * blockSize;
    DivBounds(hit - 1, blockSize);
    var s := SeedColumn(hit, blockSize);
    OrderOfMultiples(s, q, blockSize);
    OrderOfMultiples(s, q - 1, blockSize);
    assert (q - 1) * blockSize == q * blockSize - blockSize;
  }

  function Times(k: int, b: nat): int { k * b }

  lemma TimesOrder(p: int, q: int, b: nat)
    requires b > 0
    ensures p < q <==> Times(p, b) + b <= Times(q, b)
    ensures Times(p + 1, b) == Times(p, b) + b
  {
    OrderOfMultiples(p, q, b);
  }

  /** The last boundary at or before `reached`, against the running column of the step that ends at `end`. */
  lemma BoundaryInColumn(src: int, q: int, end: int, reached: int, b: nat)
    requires b > 0 && Times(q, b) <= reached < Times(q, b) + b && Times(src, b) < end <= Times(src, b) + b
    requires reached <= end
    ensures q <= src + 1
    ensures q == src + 1 <==> reached == end == Times(src, b) + b
  {
    TimesOrder(src, q, b);
    TimesOrder(src + 1, q, b);
    TimesOrder(q, src + 1, b);
  }

  lemma BoundaryIs(src: int, end: int, b: nat)
    requires b > 0 && Times(src, b) < end <= Times(src, b) + b
    ensures end % b == 0 <==> end == Times(src, b) + b
  {
    TimesOrder(src, src, b);
    DivMul(src + 1, b);
    if end % b == 0 {
      DivBounds(end, b);
      assert end == Times(end / b, b);
      TimesOrder(src, end / b, b);
      TimesOrder(end / b, src + 1, b);
      TimesOrder(src + 1, end / b, b);
    }
  }

  /** What a save does, for every step: its destination column ends inside the accepted tokens and after the
      tokens computed before; it never lies to the right of the running column; and it is the running column
      exactly when every draft was accepted and the sequence ends on a block boundary. Then the bias is the whole
      accepted progress, so setting the count back to 1 loses nothing. */
  lemma SaveSound(computed: int, scheduled: int, drafts: int, accepted: int, specBlocks: nat, blockSize: nat)
    requires blockSize > 0 && StepCounts(computed, scheduled, drafts, accepted)
    requires PostFromCounts(RunningColumn(computed, scheduled, specBlocks, blockSize), computed, scheduled, drafts,
                            accepted, blockSize).Save?
    ensures var src := RunningColumn(computed, scheduled, specBlocks, blockSize);
            var post := PostFromCounts(src, computed, scheduled, drafts, accepted, blockSize);
            var running := computed + scheduled - drafts;
            && 0 <= post.bias <= accepted - 1
            && (post.dest + 1) * blockSize == running + post.bias
            && computed < (post.dest + 1) * blockSize <= running + accepted - 1
            && 0 <= post.dest <= src
            && (post.reset <==> post.dest == src)
            && (post.reset <==> accepted == drafts + 1 && (computed + scheduled) % blockSize == 0)
            && (post.reset ==> post.bias == accepted - 1)
            && (post.copies <==> post.dest != src || post.bias > 0)
  {
    var src, running := RunningColumn(computed, scheduled, specBlocks, blockSize), computed + scheduled - drafts;
    var reached := running + accepted - 1;
    var q := reached / blockSize;
    DivBounds(reached, blockSize);
    RunningColumnBounds(computed, scheduled, specBlocks, blockSize);
    TimesOrder(src, src, blockSize);
    BoundaryInColumn(src, q, computed + scheduled, reached, blockSize);
    BoundaryIs(src, computed + scheduled, blockSize);
    OrderOfMultiples(q, 0, blockSize);
    DivMul(q, blockSize);
  }

  predicate Boundary(b: int, blockSize: nat)
    requires blockSize > 0
  {
    b % blockSize == 0
  }

  /** A step saves exactly when some block boundary lies between the running state and the accepted tokens. */
  lemma SavesWhen(computed: int, scheduled: int, drafts: int, accepted: int, src: int, blockSize: nat)
    requires blockSize > 0
    ensures PostFromCounts(src, computed, scheduled, drafts, accepted, blockSize).Save? <==>
            exists b :: Boundary(b, blockSize) &&
              computed + scheduled - drafts <= b <= computed + scheduled - drafts + accepted - 1
  {
    var running := computed + scheduled - drafts;
    var reached := running + accepted - 1;
    DivBounds(reached, blockSize);
    DivMul(reached / blockSize, blockSize);
    if b :| Boundary(b, blockSize) && running <= b <= reached {
      DivBounds(b, blockSize);
      OrderOfMultiples(reached / blockSize, b / blockSize, blockSize);
    }
    if reached / blockSize * blockSize >= running {
      assert Boundary(reached / blockSize * blockSize, blockSize);
    }
  }

  /** The two ways of feeding the kernel decide alike. */
  lemma AdvancedAgrees(src: int, computed: int, scheduled: int, drafts: int, accepted: int, blockSize: nat)
    requires blockSize > 0
    ensures PostFromAdvanced(src, computed + scheduled - drafts + accepted - 1, accepted, blockSize)
            == PostFromCounts(src, computed, scheduled, drafts, accepted, blockSize)
  {
  }
}
