// Fork identifiers (EIP-2124, EIP-6122) as src/spec/gnosis_spec.rs computes them: a fold over block
// forks and then timestamp forks, with early return and removal of repeated values. The checksum
// step is a parameter.
module ForkIds {
  import opened Primitives

  datatype ForkCondition =
    | Block(block: nat)
    | TTD(activation: nat, forkBlock: Option<nat>, totalDifficulty: nat)
    | Timestamp(time: nat)
    | Never

  datatype Head = Head(number: nat, timestamp: nat)

  datatype ForkId<H> = ForkId(hash: H, next: nat)

  /*** Fork points ***/

  // Where a fork shows up in the identifier, with the clock it is measured on.
  datatype Point = AtBlock(value: nat) | AtTime(value: nat)

  predicate Reached(head: Head, p: Point) {
    match p
    case AtBlock(n) => head.number >= n
    case AtTime(t) => head.timestamp >= t
  }

  function BlockPoint(c: ForkCondition): seq<Point> {
    match c
    case Block(n) => [AtBlock(n)]
    case TTD(_, Some(n), _) => [AtBlock(n)]
    case _ => []
  }

  function TimePoint(genesisTime: nat, c: ForkCondition): seq<Point> {
    if c.Timestamp? && c.time > genesisTime then [AtTime(c.time)] else []
  }

  function BlockPoints(forks: seq<ForkCondition>): seq<Point> {
    if forks == [] then [] else BlockPoints(forks[..|forks| - 1]) + BlockPoint(forks[|forks| - 1])
  }

  function TimePoints(genesisTime: nat, forks: seq<ForkCondition>): seq<Point> {
    if forks == [] then []
    else TimePoints(genesisTime, forks[..|forks| - 1]) + TimePoint(genesisTime, forks[|forks| - 1])
  }

  // All fork points: block forks first, then timestamp forks after genesis.
  function Points(genesisTime: nat, forks: seq<ForkCondition>): seq<Point> {
    BlockPoints(forks) + TimePoints(genesisTime, forks)
  }

  // The number of points before the first one that the head has not reached.
  function Passed(head: Head, points: seq<Point>): (k: nat)
    ensures k <= |points|
  {
    if points == [] || !Reached(head, points[0]) then 0 else 1 + Passed(head, points[1..])
  }

  lemma {:induction false} PassedExact(head: Head, points: seq<Point>, k: nat)
    requires k <= |points|
    ensures k == Passed(head, points) <==>
              (forall i :: 0 <= i < k ==> Reached(head, points[i])) && (k == |points| || !Reached(head, points[k]))
  {
    if points != [] {
      if k > 0 {
        PassedExact(head, points[1..], k - 1);
        assert forall i :: 0 < i < |points| ==> points[i] == points[1..][i - 1];
      }
      PassedReached(head, points);
    }
  }

  lemma {:induction false} PassedReached(head: Head, points: seq<Point>)
    ensures var k := Passed(head, points);
            && (forall i :: 0 <= i < k ==> Reached(head, points[i]))
            && (k < |points| ==> !Reached(head, points[k]))
  {
    if points != [] && Reached(head, points[0]) {
      PassedReached(head, points[1..]);
      assert forall i :: 0 < i < |points| ==> points[i] == points[1..][i - 1];
    }
  }

  /*** The fold ***/

  function LastOr0(s: seq<nat>): nat {
    if s == [] then 0 else s[|s| - 1]
  }

  // The applied values: repetitions of the value applied last are left out, and so is a leading 0.
  function Applied(points: seq<Point>): seq<nat> {
    if points == [] then []
    else
      var a, v := Applied(points[..|points| - 1]), points[|points| - 1].value;
      if v != LastOr0(a) then a + [v] else a
  }

  function Fold<H>(step: (H, nat) -> H, start: H, values: seq<nat>): H {
    if values == [] then start
    else step(Fold(step, start, values[..|values| - 1]), values[|values| - 1])
  }

  lemma FoldApplied<H>(step: (H, nat) -> H, start: H, points: seq<Point>, p: Point)
    ensures var a := Applied(points);
            Fold(step, start, Applied(points + [p]))
            == if p.value != LastOr0(a) then step(Fold(step, start, a), p.value) else Fold(step, start, a)
    ensures LastOr0(Applied(points + [p])) == p.value
  {
  }

  // The identifier in terms of the fork points.
  ghost function Expected<H>(step: (H, nat) -> H, genesis: H, genesisTime: nat, forks: seq<ForkCondition>,
      head: Head): ForkId<H> {
    var points := Points(genesisTime, forks);
    var k := Passed(head, points);
    ForkId(Fold(step, genesis, Applied(points[..k])), if k < |points| then points[k].value else 0)
  }

  lemma {:induction false} BlockPointsPrefix(forks: seq<ForkCondition>, i: nat)
    requires i <= |forks|
    ensures BlockPoints(forks[..i]) <= BlockPoints(forks)
    decreases |forks|
  {
    if i < |forks| {
      BlockPointsPrefix(forks[..|forks| - 1], i);
      assert forks[..|forks| - 1][..i] == forks[..i];
    } else {
      assert forks[..i] == forks;
    }
  }

  lemma {:induction false} TimePointsPrefix(genesisTime: nat, forks: seq<ForkCondition>, i: nat)
    requires i <= |forks|
    ensures TimePoints(genesisTime, forks[..i]) <= TimePoints(genesisTime, forks)
    decreases |forks|
  {
    if i < |forks| {
      TimePointsPrefix(genesisTime, forks[..|forks| - 1], i);
      assert forks[..|forks| - 1][..i] == forks[..i];
    } else {
      assert forks[..i] == forks;
    }
  }

  // If everything before a point has been reached and the point has not, the passed points are
  // those before it.
  lemma PassedUpTo(head: Head, points: seq<Point>, done: seq<Point>, p: Point)
    requires done + [p] <= points
    requires forall i :: 0 <= i < |done| ==> Reached(head, done[i])
    requires !Reached(head, p)
    ensures Passed(head, points) == |done| && points[..|done|] == done && points[|done|] == p
  {
    var stop := done + [p];
    assert forall i :: 0 <= i < |done| ==> points[i] == stop[i];
    assert points[|done|] == stop[|done|];
    PassedExact(head, points, |done|);
  }

  // The state of a pass: the points seen so far, all reached, and their fold.
  ghost predicate Folded<H>(step: (H, nat) -> H, genesis: H, points: seq<Point>, hash: H, applied: nat) {
    hash == Fold(step, genesis, Applied(points)) && applied == LastOr0(Applied(points))
  }

  ghost predicate AllReached(head: Head, points: seq<Point>) {
    forall i :: 0 <= i < |points| ==> Reached(head, points[i])
  }

  // Skip repeated values, fold others.
  method ApplyFork<H>(step: (H, nat) -> H, ghost genesis: H, ghost points: seq<Point>, hash: H, applied: nat, p: Point)
    returns (hash': H, applied': nat)
    requires Folded(step, genesis, points, hash, applied)
    ensures Folded(step, genesis, points + [p], hash', applied')
  {
    FoldApplied(step, genesis, points, p);
    if p.value != applied {
      hash', applied' := step(hash, p.value), p.value;
    } else {
      hash', applied' := hash, applied;
    }
  }

  lemma ReachedNext(head: Head, points: seq<Point>, p: Point)
    requires AllReached(head, points) && Reached(head, p)
    ensures AllReached(head, points + [p])
  {
  }

  lemma BlockPointsNext(forks: seq<ForkCondition>, i: nat)
    requires i < |forks|
    ensures BlockPoints(forks[..i + 1]) == BlockPoints(forks[..i]) + BlockPoint(forks[i])
    ensures BlockPoints(forks[..i + 1]) <= BlockPoints(forks)
  {
    assert forks[..i + 1][..i] == forks[..i];
    BlockPointsPrefix(forks, i + 1);
  }

  lemma TimePointsNext(genesisTime: nat, forks: seq<ForkCondition>, i: nat)
    requires i < |forks|
    ensures TimePoints(genesisTime, forks[..i + 1])
            == TimePoints(genesisTime, forks[..i]) + TimePoint(genesisTime, forks[i])
    ensures TimePoints(genesisTime, forks[..i + 1]) <= TimePoints(genesisTime, forks)
  {
    assert forks[..i + 1][..i] == forks[..i];
    TimePointsPrefix(genesisTime, forks, i + 1);
  }

  lemma ConcatSteps(a: seq<Point>, b: seq<Point>, c: seq<Point>)
    ensures a + (b + c) == (a + b) + c
    ensures c == [] ==> a + c == a && b + c == b
  {
  }

  // First pass of fork_id: up to the first block fork that is not active.
  method BlockPass<H>(step: (H, nat) -> H, genesis: H, forks: seq<ForkCondition>, head: Head)
    returns (hash: H, applied: nat, next: Option<nat>, ghost done: seq<Point>)
    ensures Folded(step, genesis, done, hash, applied) && AllReached(head, done)
    ensures next.None? ==> done == BlockPoints(forks)
    ensures next.Some? ==> done + [AtBlock(next.value)] <= BlockPoints(forks) && head.number < next.value
  {
    hash, applied, next, done := genesis, 0, None, [];
    for i := 0 to |forks|
      invariant done == BlockPoints(forks[..i]) && AllReached(head, done)
      invariant Folded(step, genesis, done, hash, applied)
    {
      BlockPointsNext(forks, i);
      var point := BlockPoint(forks[i]);
      if point != [] {
        var block := point[0].value;
        assert point == [AtBlock(block)];
        if head.number >= block {
          hash, applied := ApplyFork(step, genesis, done, hash, applied, AtBlock(block));
          ReachedNext(head, done, AtBlock(block));
          done := done + [AtBlock(block)];
        } else {
          next := Some(block);
          return;
        }
      } else {
        ConcatSteps(done, [], point);
      }
    }
    assert forks[..|forks|] == forks;
  }

  // Second pass of fork_id: the timestamp forks, on top of all block forks.
  method TimePass<H>(step: (H, nat) -> H, ghost genesis: H, genesisTime: nat, forks: seq<ForkCondition>, head: Head,
                     ghost blocks: seq<Point>, hash0: H, applied0: nat)
    returns (hash: H, next: Option<nat>, ghost done: seq<Point>)
    requires Folded(step, genesis, blocks, hash0, applied0) && AllReached(head, blocks)
    ensures hash == Fold(step, genesis, Applied(done)) && AllReached(head, done)
    ensures next.None? ==> done == blocks + TimePoints(genesisTime, forks)
    ensures next.Some? ==> done + [AtTime(next.value)] <= blocks + TimePoints(genesisTime, forks)
    ensures next.Some? ==> head.timestamp < next.value
  {
    var applied := applied0;
    hash, next, done := hash0, None, blocks;
    assert blocks + [] == blocks;
    for i := 0 to |forks|
      invariant done == blocks + TimePoints(genesisTime, forks[..i]) && AllReached(head, done)
      invariant Folded(step, genesis, done, hash, applied)
    {
      TimePointsNext(genesisTime, forks, i);
      ghost var point := TimePoint(genesisTime, forks[i]);
      ConcatSteps(blocks, TimePoints(genesisTime, forks[..i]), point);
      if forks[i].Timestamp? && forks[i].time > genesisTime {
        var timestamp := forks[i].time;
        if head.timestamp >= timestamp {
          hash, applied := ApplyFork(step, genesis, done, hash, applied, AtTime(timestamp));
          ReachedNext(head, done, AtTime(timestamp));
        } else {
          next := Some(timestamp);
          return;
        }
      } else {
        ConcatSteps(done, [], point);
      }
      done := done + point;
    }
    assert forks[..|forks|] == forks;
  }

  method ForkIdOf<H>(step: (H, nat) -> H, genesis: H, genesisTime: nat, forks: seq<ForkCondition>, head: Head)
    returns (id: ForkId<H>)
    ensures id == Expected(step, genesis, genesisTime, forks, head)
  {
    ghost var points := Points(genesisTime, forks);
    var hash, applied, next, blocks := BlockPass(step, genesis, forks, head);
    if next.Some? {
      PassedUpTo(head, points, blocks, AtBlock(next.value));
      return ForkId(hash, next.value);
    }
    ghost var done;
    hash, next, done := TimePass(step, genesis, genesisTime, forks, head, blocks, hash, applied);
    if next.Some? {
      PassedUpTo(head, points, done, AtTime(next.value));
      return ForkId(hash, next.value);
    }
    PassedExact(head, points, |points|);
    assert points[..|points|] == points;
    return ForkId(hash, 0);
  }

  // The hash that log_all_fork_ids ends with.
  method LogAllForkIds<H>(step: (H, nat) -> H, genesis: H, genesisTime: nat,
      forks: seq<ForkCondition>) returns (hash: H)
    ensures hash == Fold(step, genesis, Applied(Points(genesisTime, forks)))
  {
    var applied := 0;
    hash := genesis;
    ghost var done := [];
    for i := 0 to |forks|
      invariant done == BlockPoints(forks[..i]) && Folded(step, genesis, done, hash, applied)
    {
      BlockPointsNext(forks, i);
      var point := BlockPoint(forks[i]);
      ConcatSteps(done, [], point);
      if point != [] {
        hash, applied := ApplyFork(step, genesis, done, hash, applied, point[0]);
        assert [point[0]] == point;
      }
      done := done + point;
    }
    assert forks[..|forks|] == forks;
    hash := LogTimestampForks(step, genesis, genesisTime, forks, done, hash, applied);
  }

  method LogTimestampForks<H>(step: (H, nat) -> H, ghost genesis: H, genesisTime: nat, forks: seq<ForkCondition>,
                              ghost blocks: seq<Point>, hash0: H, applied0: nat) returns (hash: H)
    requires Folded(step, genesis, blocks, hash0, applied0)
    ensures hash == Fold(step, genesis, Applied(blocks + TimePoints(genesisTime, forks)))
  {
    var applied := applied0;
    hash := hash0;
    ghost var done := blocks;
    assert blocks + [] == blocks;
    for i := 0 to |forks|
      invariant done == blocks + TimePoints(genesisTime, forks[..i]) && Folded(step, genesis, done, hash, applied)
    {
      TimePointsNext(genesisTime, forks, i);
      ghost var point := TimePoint(genesisTime, forks[i]);
      ConcatSteps(blocks, TimePoints(genesisTime, forks[..i]), point);
      if forks[i].Timestamp? && forks[i].time > genesisTime {
        hash, applied := ApplyFork(step, genesis, done, hash, applied, AtTime(forks[i].time));
      } else {
        ConcatSteps(done, [], point);
      }
      done := done + point;
    }
    assert forks[..|forks|] == forks;
  }

  /*** What the identifier means ***/

  predicate Sorted(points: seq<Point>) {
    forall i, j :: 0 <= i < j < |points| ==> points[i].value <= points[j].value
  }

  predicate StrictlyIncreasing(s: seq<nat>) {
    forall i, j :: 0 <= i < j < |s| ==> s[i] < s[j]
  }

  // For sorted fork points the applied values are exactly the distinct nonzero ones, in increasing
  // order.
  lemma {:induction false} AppliedIsSortedSet(points: seq<Point>, v: nat)
    requires Sorted(points)
    ensures StrictlyIncreasing(Applied(points))
    ensures points != [] ==> LastOr0(Applied(points)) == points[|points| - 1].value
    ensures v in Applied(points) <==> v != 0 && exists i :: 0 <= i < |points| && points[i].value == v
  {
    if points != [] {
      var init, last := points[..|points| - 1], points[|points| - 1].value;
      AppliedIsSortedSet(init, v);
      AppliedIsSortedSet(init, 0);
      assert forall i :: 0 <= i < |init| ==> init[i] == points[i];
      if init != [] {
        assert init[|init| - 1].value <= last;
      }
    }
  }

  // The head has reached the first `n` points.
  predicate FirstReached(head: Head, points: seq<Point>, n: nat) {
    forall j :: 0 <= j < n && j < |points| ==> Reached(head, points[j])
  }

  // The points that count as passed at a head, by membership: a block fork when the head's number has
  // reached it, a timestamp fork when in addition no block fork is outstanding.
  lemma PassedBySortedPoints(head: Head, points: seq<Point>, blocks: nat, i: nat)
    requires Sorted(points) && blocks <= |points| && i < |points|
    requires forall j :: 0 <= j < |points| ==> (points[j].AtBlock? <==> j < blocks)
    ensures i < Passed(head, points) <==>
              Reached(head, points[i])
              && (points[i].AtTime? ==> FirstReached(head, points, blocks))
  {
    PassedReached(head, points);
    var k := Passed(head, points);
    if i >= k {
      assert !Reached(head, points[k]) && points[k].value <= points[i].value;
    }
  }

  lemma {:induction false} PointClocks(genesisTime: nat, forks: seq<ForkCondition>)
    ensures forall p :: p in BlockPoints(forks) ==> p.AtBlock?
    ensures forall p :: p in TimePoints(genesisTime, forks) ==> p.AtTime? && p.value > genesisTime
  {
    if forks != [] {
      PointClocks(genesisTime, forks[..|forks| - 1]);
    }
  }

  // Main result for sorted forks with timestamps above the block numbers: the hash folds exactly the
  // distinct nonzero points passed at the head, in increasing order, and `next` is the first point
  // not passed, 0 if there is none.
  lemma ForkIdMeaning<H>(step: (H, nat) -> H, genesis: H, genesisTime: nat, forks: seq<ForkCondition>,
      head: Head, v: nat)
    requires Sorted(Points(genesisTime, forks))
    ensures var points, id := Points(genesisTime, forks), Expected(step, genesis, genesisTime, forks, head);
            var passed := points[..Passed(head, points)];
            && id.hash == Fold(step, genesis, Applied(passed))
            && StrictlyIncreasing(Applied(passed))
            && (v in Applied(passed) <==> v != 0 && exists i :: 0 <= i < |passed| && passed[i].value == v)
            && (forall i :: 0 <= i < |points| ==>
                  (i < |passed| <==>
                     Reached(head, points[i])
                     && (points[i].AtTime? ==> FirstReached(head, points, |BlockPoints(forks)|))))
            && (if |passed| == |points| then id.next == 0
                else id.next == points[|passed|].value
                     && forall i :: |passed| <= i < |points| ==> id.next <= points[i].value)
  {
    var points := Points(genesisTime, forks);
    var passed := points[..Passed(head, points)];
    AppliedIsSortedSet(passed, v);
    forall i | 0 <= i < |points|
      ensures i < |passed| <==>
                Reached(head, points[i])
                && (points[i].AtTime? ==> FirstReached(head, points, |BlockPoints(forks)|))
    {
      PointsPassed(genesisTime, forks, head, i);
    }
  }

  /*** In terms of the fork entries ***/

  // An entry that forks at block `v`, and one that forks at time `v`, after genesis.
  predicate BlockFork(c: ForkCondition, v: nat) {
    c == Block(v) || (c.TTD? && c.forkBlock == Some(v))
  }

  predicate TimeFork(genesisTime: nat, c: ForkCondition, v: nat) {
    v > genesisTime && c == Timestamp(v)
  }

  ghost predicate ForksAtBlock(forks: seq<ForkCondition>, v: nat) {
    exists c :: c in forks && BlockFork(c, v)
  }

  ghost predicate ForksAtTime(genesisTime: nat, forks: seq<ForkCondition>, v: nat) {
    exists c :: c in forks && TimeFork(genesisTime, c, v)
  }

  lemma MemberSnoc<T>(s: seq<T>, c: T)
    requires s != []
    ensures c in s <==> c in s[..|s| - 1] || c == s[|s| - 1]
  {
    assert s == s[..|s| - 1] + [s[|s| - 1]];
  }

  lemma {:induction false} BlockPointsExact(forks: seq<ForkCondition>, v: nat)
    ensures AtBlock(v) in BlockPoints(forks) <==> ForksAtBlock(forks, v)
  {
    if forks != [] {
      var init, last := forks[..|forks| - 1], forks[|forks| - 1];
      BlockPointsExact(init, v);
      assert AtBlock(v) in BlockPoint(last) <==> BlockFork(last, v);
      forall c ensures c in forks <==> c in init || c == last {
        MemberSnoc(forks, c);
      }
    }
  }

  lemma {:induction false} TimePointsExact(genesisTime: nat, forks: seq<ForkCondition>, v: nat)
    ensures AtTime(v) in TimePoints(genesisTime, forks) <==> ForksAtTime(genesisTime, forks, v)
  {
    if forks != [] {
      var init, last := forks[..|forks| - 1], forks[|forks| - 1];
      TimePointsExact(genesisTime, init, v);
      assert AtTime(v) in TimePoint(genesisTime, last) <==> TimeFork(genesisTime, last, v);
      forall c ensures c in forks <==> c in init || c == last {
        MemberSnoc(forks, c);
      }
    }
  }

  lemma PointsExact(genesisTime: nat, forks: seq<ForkCondition>, v: nat)
    ensures AtBlock(v) in Points(genesisTime, forks) <==> ForksAtBlock(forks, v)
    ensures AtTime(v) in Points(genesisTime, forks) <==> ForksAtTime(genesisTime, forks, v)
  {
    BlockPointsExact(forks, v);
    TimePointsExact(genesisTime, forks, v);
    PointClocks(genesisTime, forks);
  }

  // All block forks are behind the head.
  ghost predicate BlockForksReached(forks: seq<ForkCondition>, head: Head) {
    forall n: nat :: ForksAtBlock(forks, n) ==> n <= head.number
  }

  // `v` is a fork that the head has passed: a block fork it has reached, or a time fork it has reached
  // with all block forks behind it.
  ghost predicate PassedFork(genesisTime: nat, forks: seq<ForkCondition>, head: Head, v: nat) {
    || (ForksAtBlock(forks, v) && v <= head.number)
    || (ForksAtTime(genesisTime, forks, v) && v <= head.timestamp && BlockForksReached(forks, head))
  }

  // `v` is a fork still ahead.
  ghost predicate ForkAhead(genesisTime: nat, forks: seq<ForkCondition>, head: Head, v: nat) {
    || (ForksAtBlock(forks, v) && v > head.number)
    || (ForksAtTime(genesisTime, forks, v) && (v > head.timestamp || !BlockForksReached(forks, head)))
  }
  lemma BlocksReachedExact(genesisTime: nat, forks: seq<ForkCondition>, head: Head)
    ensures BlockForksReached(forks, head)
            <==> FirstReached(head, Points(genesisTime, forks), |BlockPoints(forks)|)
  {
    var blocks, points := BlockPoints(forks), Points(genesisTime, forks);
    PointClocks(genesisTime, forks);
    forall j | 0 <= j < |blocks| ensures points[j] == AtBlock(blocks[j].value) && ForksAtBlock(forks, blocks[j].value) {
      assert blocks[j] in blocks;
      BlockPointsExact(forks, blocks[j].value);
    }
    forall n: nat | ForksAtBlock(forks, n) ensures exists j :: 0 <= j < |blocks| && points[j] == AtBlock(n) {
      BlockPointsExact(forks, n);
      var j :| 0 <= j < |blocks| && blocks[j] == AtBlock(n);
      assert points[j] == AtBlock(n);
    }
  }

  // Which fork a point is, and whether it has been passed.
  lemma PointExact(genesisTime: nat, forks: seq<ForkCondition>, head: Head, i: nat)
    requires Sorted(Points(genesisTime, forks)) && i < |Points(genesisTime, forks)|
    ensures var points := Points(genesisTime, forks);
            var v := points[i].value;
            && (i < Passed(head, points) ==> PassedFork(genesisTime, forks, head, v))
            && (i >= Passed(head, points) ==> ForkAhead(genesisTime, forks, head, v))
  {
    var points := Points(genesisTime, forks);
    assert points[i] in points;
    PointsExact(genesisTime, forks, points[i].value);
    BlocksReachedExact(genesisTime, forks, head);
    PointsPassed(genesisTime, forks, head, i);
  }

  lemma PointsPassed(genesisTime: nat, forks: seq<ForkCondition>, head: Head, i: nat)
    requires Sorted(Points(genesisTime, forks)) && i < |Points(genesisTime, forks)|
    ensures var points := Points(genesisTime, forks);
            i < Passed(head, points) <==>
              Reached(head, points[i])
              && (points[i].AtTime? ==> FirstReached(head, points, |BlockPoints(forks)|))
  {
    var points := Points(genesisTime, forks);
    PointClocks(genesisTime, forks);
    forall j | 0 <= j < |points| ensures points[j].AtBlock? <==> j < |BlockPoints(forks)| {
      if j < |BlockPoints(forks)| {
        assert points[j] == BlockPoints(forks)[j];
      } else {
        assert points[j] == TimePoints(genesisTime, forks)[j - |BlockPoints(forks)|];
      }
    }
    PassedBySortedPoints(head, points, |BlockPoints(forks)|, i);
  }

  // Where a fork that is passed or ahead stands among the points.
  lemma PassedForkIndex(genesisTime: nat, forks: seq<ForkCondition>, head: Head, v: nat) returns (i: nat)
    requires Sorted(Points(genesisTime, forks)) && PassedFork(genesisTime, forks, head, v)
    ensures i < Passed(head, Points(genesisTime, forks)) && Points(genesisTime, forks)[i].value == v
  {
    var points := Points(genesisTime, forks);
    PointsExact(genesisTime, forks, v);
    BlocksReachedExact(genesisTime, forks, head);
    var p := if ForksAtBlock(forks, v) && v <= head.number then AtBlock(v) else AtTime(v);
    i :| 0 <= i < |points| && points[i] == p;
    PointsPassed(genesisTime, forks, head, i);
  }

  lemma ForkAheadIndex(genesisTime: nat, forks: seq<ForkCondition>, head: Head, v: nat) returns (i: nat)
    requires Sorted(Points(genesisTime, forks)) && ForkAhead(genesisTime, forks, head, v)
    ensures Passed(head, Points(genesisTime, forks)) <= i < |Points(genesisTime, forks)|
    ensures Points(genesisTime, forks)[i].value == v
  {
    var points := Points(genesisTime, forks);
    PointsExact(genesisTime, forks, v);
    BlocksReachedExact(genesisTime, forks, head);
    var p := if ForksAtBlock(forks, v) && v > head.number then AtBlock(v) else AtTime(v);
    i :| 0 <= i < |points| && points[i] == p;
    PointsPassed(genesisTime, forks, head, i);
  }

  // Main result, in terms of the entries: the hash folds, in increasing order, exactly the nonzero forks
  // that the head has passed, and `next` is the least fork still ahead, 0 if there is none.
  lemma ForkIdOfEntries<H>(step: (H, nat) -> H, genesis: H, genesisTime: nat, forks: seq<ForkCondition>, head: Head,
      v: nat) returns (applied: seq<nat>)
    requires Sorted(Points(genesisTime, forks))
    ensures StrictlyIncreasing(applied)
    ensures v in applied <==> v != 0 && PassedFork(genesisTime, forks, head, v)
    ensures var id := Expected(step, genesis, genesisTime, forks, head);
            && id.hash == Fold(step, genesis, applied)
            && (ForkAhead(genesisTime, forks, head, v) ==> id.next <= v)
            && ((exists w: nat :: ForkAhead(genesisTime, forks, head, w)) ==>
                  ForkAhead(genesisTime, forks, head, id.next))
            && ((forall w: nat :: !ForkAhead(genesisTime, forks, head, w)) ==> id.next == 0)
  {
    var points := Points(genesisTime, forks);
    var k := Passed(head, points);
    applied := Applied(points[..k]);
    AppliedIsSortedSet(points[..k], v);
    if PassedFork(genesisTime, forks, head, v) {
      var i := PassedForkIndex(genesisTime, forks, head, v);
      assert points[..k][i].value == v;
    }
    if v in applied {
      var i :| 0 <= i < k && points[..k][i].value == v;
      PointExact(genesisTime, forks, head, i);
    }
    forall w: nat | ForkAhead(genesisTime, forks, head, w)
      ensures k < |points| && points[k].value <= w
    {
      var i := ForkAheadIndex(genesisTime, forks, head, w);
    }
    if k < |points| {
      PointExact(genesisTime, forks, head, k);
    }
  }

  // The fold takes the values from the first to the last.
  lemma FoldInOrder<H>(step: (H, nat) -> H, start: H, values: seq<nat>, v: nat)
    ensures Fold(step, start, []) == start
    ensures Fold(step, start, values + [v]) == step(Fold(step, start, values), v)
  {
    assert (values + [v])[..|values|] == values;
  }

  // Advancing the head only extends the list of applied values.
  lemma {:induction false} AppliedPrefix(points: seq<Point>, k: nat)
    requires k <= |points|
    ensures Applied(points[..k]) <= Applied(points)
    decreases |points|
  {
    if k < |points| {
      AppliedPrefix(points[..|points| - 1], k);
      assert points[..|points| - 1][..k] == points[..k];
    } else {
      assert points[..k] == points;
    }
  }

  lemma AdvancingHeadExtends(genesisTime: nat, forks: seq<ForkCondition>, head: Head, later: Head)
    requires head.number <= later.number && head.timestamp <= later.timestamp
    ensures var points := Points(genesisTime, forks);
            && Passed(head, points) <= Passed(later, points)
            && Applied(points[..Passed(head, points)]) <= Applied(points[..Passed(later, points)])
  {
    var points := Points(genesisTime, forks);
    var k, k' := Passed(head, points), Passed(later, points);
    PassedReached(head, points);
    PassedReached(later, points);
    assert k' < k ==> Reached(head, points[k']);
    AppliedPrefix(points[..k'], k);
    assert points[..k'][..k] == points[..k];
  }

  lemma {:induction false} BlockPointsConcat(a: seq<ForkCondition>, b: seq<ForkCondition>)
    ensures BlockPoints(a + b) == BlockPoints(a) + BlockPoints(b)
  {
    if b == [] {
      assert a + b == a;
    } else {
      var init, last := b[..|b| - 1], BlockPoint(b[|b| - 1]);
      assert (a + b)[..|a + b| - 1] == a + init;
      BlockPointsConcat(a, init);
      ConcatSteps(BlockPoints(a), BlockPoints(init), last);
    }
  }

  lemma {:induction false} TimePointsConcat(genesisTime: nat, a: seq<ForkCondition>, b: seq<ForkCondition>)
    ensures TimePoints(genesisTime, a + b) == TimePoints(genesisTime, a) + TimePoints(genesisTime, b)
  {
    if b == [] {
      assert a + b == a;
    } else {
      var init, last := b[..|b| - 1], TimePoint(genesisTime, b[|b| - 1]);
      assert (a + b)[..|a + b| - 1] == a + init;
      TimePointsConcat(genesisTime, a, init);
      ConcatSteps(TimePoints(genesisTime, a), TimePoints(genesisTime, init), last);
    }
  }

  lemma PointsConcat(genesisTime: nat, a: seq<ForkCondition>, b: seq<ForkCondition>)
    ensures BlockPoints(a + b) == BlockPoints(a) + BlockPoints(b)
    ensures TimePoints(genesisTime, a + b) == TimePoints(genesisTime, a) + TimePoints(genesisTime, b)
  {
    BlockPointsConcat(a, b);
    TimePointsConcat(genesisTime, a, b);
  }

  // A TTD entry without a fork block, inserted anywhere, changes no identifier: the Paris entry of
  // Gnosis chains is of this kind.
  lemma ParisEntryInvisible<H>(step: (H, nat) -> H, genesis: H, genesisTime: nat, before: seq<ForkCondition>,
      after: seq<ForkCondition>, activation: nat, ttd: nat, head: Head)
    ensures Expected(step, genesis, genesisTime, before + [TTD(activation, None, ttd)] + after, head)
            == Expected(step, genesis, genesisTime, before + after, head)
  {
    var paris := TTD(activation, None, ttd);
    PointsConcat(genesisTime, before + [paris], after);
    PointsConcat(genesisTime, before, [paris]);
    PointsConcat(genesisTime, before, after);
    assert BlockPoints([paris]) == [] && TimePoints(genesisTime, [paris]) == [];
    assert BlockPoints(before) + [] == BlockPoints(before);
    assert TimePoints(genesisTime, before) + [] == TimePoints(genesisTime, before);
  }

  // At a head past every fork the hash is the one log_all_fork_ids ends with, and nothing is next.
  lemma PastEveryFork<H>(step: (H, nat) -> H, genesis: H, genesisTime: nat, forks: seq<ForkCondition>, head: Head)
    requires forall p :: p in Points(genesisTime, forks) ==> Reached(head, p)
    ensures Expected(step, genesis, genesisTime, forks, head)
            == ForkId(Fold(step, genesis, Applied(Points(genesisTime, forks))), 0)
  {
    var points := Points(genesisTime, forks);
    PassedExact(head, points, |points|);
    assert points[..|points|] == points;
  }
}
