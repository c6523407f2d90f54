/** The bounded set of sequence numbers by which the client drops duplicates, over whole runs. */
module Dedup {
  import opened Bits

  const LIMIT: nat := 10000
  const BLOCK: nat := LIMIT + 1

  /** One critical section of a receive task: is the number new, and the set after it. The set is
      wiped as soon as it exceeds the limit. */
  function Offer(seen: set<u32>, x: u32): (set<u32>, bool) {
    if x in seen then (seen, false)
    else if |seen + {x}| > LIMIT then ({}, true)
    else (seen + {x}, true)
  }

  /** The set, with how often it was wiped and what was accepted, in order. */
  datatype History = History(seen: set<u32>, wipes: nat, accepted: seq<u32>)

  function Feed(h: History, x: u32): History {
    var (seen, isNew) := Offer(h.seen, x);
    if isNew then History(seen, h.wipes + (if |h.seen + {x}| > LIMIT then 1 else 0), h.accepted + [x]) else h
  }

  /** The history after some arrivals, whichever of the receive tasks brought each of them. */
  function Run(xs: seq<u32>): History {
    if xs == [] then History({}, 0, []) else Feed(Run(xs[..|xs| - 1]), xs[|xs| - 1])
  }

  // ---------------------------------------------------------------- invariants

  /** Accepted numbers whose positions fall into one block of 10001 are distinct. */
  ghost predicate DistinctBlocks(accepted: seq<u32>) {
    forall i, j :: 0 <= i < j < |accepted| && i / BLOCK == j / BLOCK ==> accepted[i] != accepted[j]
  }

  /** The accepted numbers since the last wipe. */
  function CurrentBlock(h: History): seq<u32>
    requires BLOCK * h.wipes <= |h.accepted|
  {
    h.accepted[BLOCK * h.wipes..]
  }

  function Count(xs: seq<u32>, x: u32): nat { multiset(xs)[x] }

  ghost predicate Shape(h: History) {
    && |h.seen| <= LIMIT
    && |h.accepted| == BLOCK * h.wipes + |h.seen|
    && (forall x :: x in h.seen <==> x in CurrentBlock(h))
    && DistinctBlocks(h.accepted)
  }

  ghost predicate CountBound(h: History, x: u32) {
    Count(h.accepted, x) <= h.wipes + if x in h.seen then 1 else 0
  }

  lemma SetSizeWith(s: set<u32>, x: u32)
    requires x !in s
    ensures |s + {x}| == |s| + 1
  {
  }

  /** Positions of the current block, up to the next one, have the number of wipes as quotient. */
  lemma BlockOf(wipes: nat, i: nat)
    ensures i / BLOCK == wipes <==> BLOCK * wipes <= i < BLOCK * wipes + BLOCK
  {
  }

  lemma FreshExtendsBlocks(h: History, x: u32)
    requires Shape(h) && x !in h.seen
    ensures DistinctBlocks(h.accepted + [x])
  {
    var n := |h.accepted|;
    var more := h.accepted + [x];
    BlockOf(h.wipes, n);
    forall i, j | 0 <= i < j < |more| && i / BLOCK == j / BLOCK
      ensures more[i] != more[j]
    {
      if j == n {
        BlockOf(h.wipes, i);
        assert more[i] == CurrentBlock(h)[i - BLOCK * h.wipes];
      }
    }
  }

  lemma FeedGrows(h: History, x: u32)
    requires Shape(h) && x !in h.seen && |h.seen| < LIMIT
    ensures Feed(h, x) == History(h.seen + {x}, h.wipes, h.accepted + [x]) && Shape(Feed(h, x))
  {
    SetSizeWith(h.seen, x);
    FreshExtendsBlocks(h, x);
    assert (h.accepted + [x])[BLOCK * h.wipes..] == CurrentBlock(h) + [x];
  }

  lemma FeedWipes(h: History, x: u32)
    requires Shape(h) && x !in h.seen && |h.seen| == LIMIT
    ensures Feed(h, x) == History({}, h.wipes + 1, h.accepted + [x]) && Shape(Feed(h, x))
  {
    SetSizeWith(h.seen, x);
    FreshExtendsBlocks(h, x);
    var h' := Feed(h, x);
    assert |h'.accepted| == BLOCK * h'.wipes;
    assert CurrentBlock(h') == [];
  }

  lemma FeedKeepsShape(h: History, x: u32)
    requires Shape(h)
    ensures Shape(Feed(h, x))
  {
    if x in h.seen {
    } else if |h.seen| < LIMIT {
      FeedGrows(h, x);
    } else {
      FeedWipes(h, x);
    }
  }

  lemma FeedKeepsCount(h: History, x: u32, y: u32)
    requires CountBound(h, y)
    ensures CountBound(Feed(h, x), y)
  {
  }

  lemma {:induction false} RunKeepsShape(xs: seq<u32>)
    ensures Shape(Run(xs))
  {
    if xs == [] {
    } else {
      RunKeepsShape(xs[..|xs| - 1]);
      FeedKeepsShape(Run(xs[..|xs| - 1]), xs[|xs| - 1]);
    }
  }

  lemma {:induction false} RunKeepsCount(xs: seq<u32>, y: u32)
    ensures CountBound(Run(xs), y)
  {
    if xs == [] {
    } else {
      RunKeepsCount(xs[..|xs| - 1], y);
      FeedKeepsCount(Run(xs[..|xs| - 1]), xs[|xs| - 1], y);
    }
  }

  // ---------------------------------------------------------------- results

  /** Over every run: the set never exceeds the limit; the accepted numbers are whole blocks of
      10001 distinct numbers and a distinct rest, which is the set; and no number is accepted more
      often than once per wipe and once more. */
  lemma BoundedDedup(xs: seq<u32>)
    ensures var h := Run(xs);
      && |h.seen| <= 10000
      && |h.accepted| == 10001 * h.wipes + |h.seen|
      && DistinctBlocks(h.accepted)
      && (forall x :: x in h.seen <==> x in h.accepted[10001 * h.wipes..])
      && (forall x: u32 :: Count(h.accepted, x) <= h.wipes + 1)
  {
    RunKeepsShape(xs);
    forall x: u32
      ensures Count(Run(xs).accepted, x) <= Run(xs).wipes + 1
    {
      RunKeepsCount(xs, x);
    }
  }

  /** A number is dropped exactly when it was accepted since the last wipe. */
  lemma DroppedExactly(xs: seq<u32>, x: u32)
    ensures var h := Run(xs);
      && BLOCK * h.wipes <= |h.accepted|
      && (Run(xs + [x]).accepted == h.accepted <==> x in CurrentBlock(h))
      && (Run(xs + [x]).accepted == h.accepted + [x] <==> x !in CurrentBlock(h))
  {
    RunKeepsShape(xs);
    assert (xs + [x])[..|xs|] == xs;
    assert |Run(xs).accepted + [x]| == |Run(xs).accepted| + 1;
  }

  function Numbers(xs: seq<u32>): set<u32> { set i | 0 <= i < |xs| :: xs[i] }

  lemma NumbersNext(seen: set<u32>, xs: seq<u32>, x: u32)
    ensures seen + Numbers(xs + [x]) == seen + Numbers(xs) + {x}
  {
    var more := xs + [x];
    assert more[|xs|] == x && forall i :: 0 <= i < |xs| ==> more[i] == xs[i];
  }

  lemma RunNext(xs: seq<u32>, x: u32)
    ensures Run(xs + [x]) == Feed(Run(xs), x)
  {
    assert (xs + [x])[..|xs|] == xs;
  }

  lemma SubsetSize(a: set<u32>, b: set<u32>)
    requires a <= b
    ensures |a| <= |b|
  {
    assert b == a + (b - a);
  }

  /** The set has been wiped since there were `wipes` exactly if it would hold too many numbers, and
      holds all of them else. */
  predicate Holds(h: History, wipes: nat, all: set<u32>) {
    && wipes <= h.wipes
    && (h.wipes == wipes <==> |all| <= LIMIT)
    && (h.wipes == wipes ==> h.seen == all)
  }

  lemma FeedHolds(h: History, wipes: nat, all: set<u32>, y: u32)
    requires Holds(h, wipes, all)
    ensures Holds(Feed(h, y), wipes, all + {y})
  {
    SubsetSize(all, all + {y});
    if y in all {
      assert all + {y} == all;
    }
  }

  /** More arrivals wipe the set exactly if it would exceed the limit with all their numbers; and
      until then it holds just these. */
  lemma {:induction false} WipedExactly(xs: seq<u32>, ys: seq<u32>)
    ensures Holds(Run(xs + ys), Run(xs).wipes, Run(xs).seen + Numbers(ys))
  {
    if ys == [] {
      RunKeepsShape(xs);
      assert xs + ys == xs;
      assert Run(xs).seen + Numbers(ys) == Run(xs).seen;
    } else {
      var before, y := ys[..|ys| - 1], ys[|ys| - 1];
      WipedExactly(xs, before);
      WipedNext(xs, before, y);
      assert before + [y] == ys;
    }
  }

  lemma WipedNext(xs: seq<u32>, ys: seq<u32>, y: u32)
    requires Holds(Run(xs + ys), Run(xs).wipes, Run(xs).seen + Numbers(ys))
    ensures Holds(Run(xs + (ys + [y])), Run(xs).wipes, Run(xs).seen + Numbers(ys + [y]))
  {
    FeedHolds(Run(xs + ys), Run(xs).wipes, Run(xs).seen + Numbers(ys), y);
    RunNext(xs + ys, y);
    NumbersNext(Run(xs).seen, ys, y);
    assert xs + (ys + [y]) == xs + ys + [y];
  }

  /** A number stays in the set until it is wiped, and does not come back by other numbers. */
  lemma {:induction false} SeenUntilWiped(xs: seq<u32>, x: u32, ys: seq<u32>)
    requires x !in Run(xs).seen && x !in ys
    ensures x in Run(xs + [x] + ys).seen <==> Run(xs + [x] + ys).wipes == Run(xs).wipes
    ensures Run(xs).wipes <= Run(xs + [x] + ys).wipes
  {
    RunNext(xs, x);
    if ys == [] {
      assert xs + [x] + ys == xs + [x];
    } else {
      var before, y := ys[..|ys| - 1], ys[|ys| - 1];
      SeenUntilWiped(xs, x, before);
      assert xs + [x] + ys == (xs + [x] + before) + [y];
      RunNext(xs + [x] + before, y);
    }
  }

  lemma WipedBetween(xs: seq<u32>, x: u32, ys: seq<u32>)
    ensures Run(xs + [x] + ys).wipes == Run(xs).wipes <==> |Run(xs).seen + {x} + Numbers(ys)| <= LIMIT
  {
    assert xs + [x] + ys == xs + ([x] + ys);
    WipedExactly(xs, [x] + ys);
    NumbersCons(x, ys);
    assert Run(xs).seen + Numbers([x] + ys) == Run(xs).seen + {x} + Numbers(ys);
  }

  /** The duplicate of a new number is dropped exactly if the set is not wiped from the first copy
      on to the second; and so exactly if what the set held before, with the number and all others
      in between, stays within the limit. */
  lemma DuplicateDropped(xs: seq<u32>, x: u32, ys: seq<u32>)
    requires x !in Run(xs).seen && x !in ys
    ensures var between := xs + [x] + ys;
      && (Run(between + [x]).accepted == Run(between).accepted <==> Run(between).wipes == Run(xs).wipes)
      && (Run(between).wipes == Run(xs).wipes <==> |Run(xs).seen + {x} + Numbers(ys)| <= LIMIT)
  {
    SeenUntilWiped(xs, x, ys);
    WipedBetween(xs, x, ys);
    AcceptedExactly(xs + [x] + ys, x);
  }

  lemma AcceptedExactly(xs: seq<u32>, x: u32)
    ensures Run(xs + [x]).accepted == Run(xs).accepted <==> x in Run(xs).seen
  {
    RunNext(xs, x);
    assert |Run(xs).accepted + [x]| == |Run(xs).accepted| + 1;
  }

  lemma NumbersCons(x: u32, ys: seq<u32>)
    ensures Numbers([x] + ys) == {x} + Numbers(ys)
  {
    var all := [x] + ys;
    assert all[0] == x && forall i :: 0 <= i < |ys| ==> all[i + 1] == ys[i];
    assert forall i :: 0 < i < |all| ==> all[i] == ys[i - 1];
  }
}
