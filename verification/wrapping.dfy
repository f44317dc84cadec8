/** The `with(*methods, &block)` combinator of the hub: it nests named
    wrapper methods around a block by peeling the first name off the list and
    recursing with a block that calls that wrapper around the original block.
    A wrapper is modelled by what it contributes to the trace: it enters,
    runs its continuation once, and exits if the continuation returned. An
    exception from the continuation passes through the wrapper unchanged.
 */
module Wrapping {
  import opened Common

  /** `send(nil, &block)` raises TypeError: what `with` does with no names. */
  const SendNil: Exn := Exn("TypeError", true)

  /** One wrapper `stage` around the continuation whose run is `inner`. */
  function Wrap(stage: Stage, inner: Run): Run
  {
    Run([Enter(stage)] + inner.trace + (if inner.outcome.Normal? then [Exit(stage)] else []),
        inner.outcome)
  }

  /** The source's recursion, step for step: with more than one name, wrap the
      block in the first and recurse on the rest; with one, send it. */
  function With(stages: seq<Stage>, block: Run): Run
    decreases |stages|
  {
    if |stages| > 1 then With(stages[1..], Wrap(stages[0], block))
    else if |stages| == 1 then Wrap(stages[0], block)
    else Run([], Raised(SendNil))
  }

  /** Reference definition: the last-listed stage is the outermost wrapper. */
  function Nest(stages: seq<Stage>, block: Run): Run
    decreases |stages|
  {
    if |stages| == 0 then block
    else Wrap(stages[|stages| - 1], Nest(stages[..|stages| - 1], block))
  }

  /** Entry effects, outermost first: the stages in reverse order. */
  function Openings(stages: seq<Stage>): seq<Effect>
  {
    seq(|stages|, i requires 0 <= i < |stages| => Enter(stages[|stages| - 1 - i]))
  }

  /** Exit effects, innermost first: the stages in listed order. */
  function Closings(stages: seq<Stage>): seq<Effect>
  {
    seq(|stages|, i requires 0 <= i < |stages| => Exit(stages[i]))
  }

  /** Peeling the first stage into the block equals nesting the whole list. */
  lemma {:induction false} NestPeel(stages: seq<Stage>, block: Run)
    requires |stages| >= 1
    ensures Nest(stages[1..], Wrap(stages[0], block)) == Nest(stages, block)
    decreases |stages|
  {
    if |stages| == 1 {
      assert stages[1..] == [];
      assert stages[..0] == [];
    } else {
      var init := stages[..|stages| - 1];
      NestPeel(init, block);
      assert stages[1..][..|stages[1..]| - 1] == init[1..];
      assert stages[1..][|stages[1..]| - 1] == stages[|stages| - 1];
      assert init[0] == stages[0];
    }
  }

  /** The source's recursion builds exactly the reference nesting. */
  lemma {:induction false} WithIsNest(stages: seq<Stage>, block: Run)
    requires |stages| >= 1
    ensures With(stages, block) == Nest(stages, block)
    decreases |stages|
  {
    if |stages| > 1 {
      WithIsNest(stages[1..], Wrap(stages[0], block));
      NestPeel(stages, block);
    } else {
      assert stages[..0] == [];
    }
  }

  /** Shape of a nesting: every entry, then the block's trace exactly once,
      then every exit if the block returned; the block's outcome is kept. */
  lemma {:induction false} NestShape(stages: seq<Stage>, block: Run)
    ensures Nest(stages, block)
         == Run(Openings(stages) + block.trace
                + (if block.outcome.Normal? then Closings(stages) else []),
                block.outcome)
    decreases |stages|
  {
    if |stages| == 0 {
      assert Openings(stages) == [] && Closings(stages) == [];
      assert Openings(stages) + block.trace + [] == block.trace;
    } else {
      var n := |stages|;
      var init := stages[..n - 1];
      NestShape(init, block);
      assert Openings(stages) == [Enter(stages[n - 1])] + Openings(init);
      assert Closings(stages) == Closings(init) + [Exit(stages[n - 1])];
    }
  }

  /** `with` as a whole: the last-listed stage enters first and exits last,
      and the block's effects occur once, between the entries and exits. */
  lemma WithShape(stages: seq<Stage>, block: Run)
    requires |stages| >= 1
    ensures With(stages, block)
         == Run(Openings(stages) + block.trace
                + (if block.outcome.Normal? then Closings(stages) else []),
                block.outcome)
  {
    WithIsNest(stages, block);
    NestShape(stages, block);
  }

  /** `with` on no names never runs the block: `send(nil)` raises. */
  lemma WithNoStages(block: Run)
    ensures With([], block) == Run([], Raised(SendNil))
  {
  }

  /** The block runs exactly once: every effect that is not a wrapper's own
      entry or exit occurs in the wrapped run as often as in the block. */
  lemma WithRunsBlockOnce(stages: seq<Stage>, block: Run, e: Effect)
    requires |stages| >= 1
    requires !e.Enter? && !e.Exit?
    ensures Count(With(stages, block).trace, e) == Count(block.trace, e)
  {
    WithShape(stages, block);
    var closing := if block.outcome.Normal? then Closings(stages) else [];
    CountAppend(Openings(stages) + block.trace, closing, e);
    CountAppend(Openings(stages), block.trace, e);
    CountAbsent(Openings(stages), e);
    CountAbsent(closing, e);
  }

  /** `with(:benchmarking, :caching)` runs caching outside benchmarking. */
  lemma BenchmarkingInsideCaching(block: Run)
    ensures With([Benchmarking, Caching], block)
         == Run([Enter(Caching), Enter(Benchmarking)] + block.trace
                + (if block.outcome.Normal? then [Exit(Benchmarking), Exit(Caching)] else []),
                block.outcome)
  {
    WithShape([Benchmarking, Caching], block);
    assert Openings([Benchmarking, Caching]) == [Enter(Caching), Enter(Benchmarking)];
    assert Closings([Benchmarking, Caching]) == [Exit(Benchmarking), Exit(Caching)];
  }
}
