/** Catching up with a chain: the search for the block to start from, and the download from there. */
module Sync {
  import opened Options
  import opened BlockTree

  // --------------------------------------------------------------------------------------------
  // The base block
  // --------------------------------------------------------------------------------------------

  /**
   What the search works with: the hashes of the peers' chain by height, the hashes of the blocks
   held locally when so many requests have been made, and the height of the target.  Our last
   irreversible block is on the chain, a block is only held together with its parent, and blocks are
   added meanwhile but none is lost.
   */
  datatype Peers = Peers(chain: seq<Hash>, held: nat -> set<Hash>, lib: nat, target: nat) {
    ghost predicate Valid() {
      && lib < |chain| && target < |chain| && chain[lib] in held(0)
      && (forall k: nat, h :: 0 <= h && h + 1 < |chain| && chain[h + 1] in held(k) ==> chain[h] in held(k))
      && forall k: nat, l: nat :: k <= l ==> held(k) <= held(l)
    }

    function Distance(): nat {
      if lib < target then target - lib else lib - target
    }
  }

  /**
   A block below the target that is held now, while none between it and the target was held at the
   start; for a target not above our LIB the target itself.
   */
  ghost predicate IsBase(p: Peers, base: nat, now: nat)
    requires p.Valid()
  {
    if p.target <= p.lib then base == p.target
    else
      && p.lib <= base < p.target && p.chain[base] in p.held(now)
      && forall h :: base < h < p.target ==> p.chain[h] !in p.held(0)
  }

  /** If no block is added meanwhile, it is the highest block below the target that is held. */
  lemma BaseIsHighest(p: Peers, base: nat, now: nat, other: nat)
    requires p.Valid() && p.lib < p.target && IsBase(p, base, now) && p.held(now) == p.held(0)
    requires p.lib <= other < p.target
    ensures p.chain[other] in p.held(now) <==> other <= base
  {
    if other <= base && p.chain[other] !in p.held(now) {
      NothingHeldAbove(p, now, other, base);
    }
  }

  lemma {:induction false} NothingHeldAbove(p: Peers, k: nat, low: nat, h: nat)
    requires p.Valid() && low <= h < |p.chain| && p.chain[low] !in p.held(k)
    ensures p.chain[h] !in p.held(k)
    decreases h
  {
    if h > low {
      NothingHeldAbove(p, k, low, h - 1);
    }
  }

  /** The n answers from the k-th on stay out. */
  ghost predicate Unanswered(answers: nat -> bool, k: nat, n: nat) {
    forall i :: k <= i < k + n ==> !answers(i)
  }

  ghost function Pow2(n: nat): (p: nat)
    ensures p > 0
  {
    if n == 0 then 1 else 2 * Pow2(n - 1)
  }

  /** After k halvings the gap has shrunk by a factor of 2^k, rounded up or down. */
  ghost predicate Shrunk(gap: nat, first: nat, k: nat) {
    gap * Pow2(k) < first + Pow2(k)
  }

  ghost predicate ShrunkDown(gap: nat, first: nat, k: nat) {
    gap * Pow2(k) <= first
  }

  lemma ShrinksMore(gap: nat, next: nat, first: nat, k: nat)
    requires Shrunk(gap, first, k) && 2 * next <= gap + 1
    ensures Shrunk(next, first, k + 1)
  {
    Times(2 * next, gap + 1, Pow2(k));
    assert next * Pow2(k + 1) == 2 * next * Pow2(k);
  }

  lemma FewRounds(gap: nat, first: nat, k: nat)
    requires Shrunk(gap, first, k) && gap >= 2
    ensures Pow2(k) < first
  {
    Times(2, gap, Pow2(k));
  }

  lemma ShrinksMoreDown(gap: nat, next: nat, first: nat, k: nat)
    requires ShrunkDown(gap, first, k) && 2 * next <= gap && gap >= 1
    ensures ShrunkDown(next, first, k + 1) && Pow2(k) <= first
  {
    Times(2 * next, gap, Pow2(k));
    Times(1, gap, Pow2(k));
    assert next * Pow2(k + 1) == 2 * next * Pow2(k);
  }

  lemma Times(a: nat, b: nat, c: nat)
    requires a <= b
    ensures a * c <= b * c
  {
  }

  /** Between the ends of a search: upwards from our LIB, or downwards to a target below it. */
  ghost predicate Searching(p: Peers, low: nat, high: nat, rounds: nat, now: nat) {
    && p.Valid() && low < |p.chain| && p.chain[low] in p.held(now)
    && (rounds > 0 ==> Pow2(rounds - 1) <= p.Distance())
    && if p.lib < p.target
       then && p.lib <= low < high <= p.target && (high == p.target || p.chain[high] !in p.held(0))
            && Shrunk(high - low, p.Distance(), rounds)
       else p.target == high <= low <= p.lib && ShrunkDown(low - high, p.Distance(), rounds)
  }

  ghost function Gap(low: nat, high: nat): nat {
    if low < high then high - low else low - high
  }

  /** A round of the search, at the end of which a later number of requests have been made, brings the ends closer. */
  lemma NextRound(p: Peers, low: nat, high: nat, rounds: nat, try: nat, now: nat, later: nat)
    requires Searching(p, low, high, rounds, now) && try == (high + low) / 2 != low && now <= later
    ensures try < |p.chain|
    ensures p.chain[try] in p.held(later) ==>
            Searching(p, try, high, rounds + 1, later) && Gap(try, high) < Gap(low, high)
    ensures p.chain[try] !in p.held(later) ==>
            Searching(p, low, try, rounds + 1, later) && Gap(low, try) < Gap(low, high)
  {
    assert p.held(0) <= p.held(later) && p.held(now) <= p.held(later);
    if p.lib < p.target {
      FewRounds(high - low, p.Distance(), rounds);
      ShrinksMore(high - low, high - try, p.Distance(), rounds);
      ShrinksMore(high - low, try - low, p.Distance(), rounds);
    } else {
      if p.chain[try] !in p.held(later) {
        NothingHeldAbove(p, later, try, p.lib);
      }
      ShrinksMoreDown(low - high, try - high, p.Distance(), rounds);
    }
  }

  lemma SearchStarts(p: Peers)
    requires p.Valid()
    ensures Searching(p, p.lib, p.target, 0, 0)
  {
    assert Pow2(0) == 1;
  }

  lemma SearchEnds(p: Peers, low: nat, high: nat, rounds: nat, now: nat)
    requires Searching(p, low, high, rounds, now) && (high + low) / 2 == low
    ensures IsBase(p, low, now) && (rounds > 0 ==> Pow2(rounds - 1) <= p.Distance())
  {
    if p.lib < p.target {
      forall h | low < h < p.target
        ensures p.chain[h] !in p.held(0)
      {
        NothingHeldAbove(p, 0, high, h);
      }
    }
  }

  class Download {
    const peers: Peers
    const retries: nat
    var low: nat
    var high: nat
    var try: nat
    var base: nat

    constructor (p: Peers, n: nat)
      ensures peers == p && retries == n
    {
      peers, retries := p, n;
    }

    /** Asks for the hash at the height in the middle; the k-th request is answered if the k-th answer says so. */
    method Query(answers: nat -> bool, asked: nat) returns (ok: bool, asked': nat)
      requires try < |peers.chain|
      modifies this
      ensures asked <= asked' <= asked + retries && try == old(try)
      ensures ok ==> asked' > asked && answers(asked' - 1)
      ensures !ok ==> Unanswered(answers, asked, retries)
      ensures !ok ==> low == old(low) && high == old(high) && base == old(base)
      ensures ok ==> if peers.chain[try] in peers.held(asked') then low == base == try && high == old(high)
                     else high == try && low == old(low) && base == old(base)
    {
      asked' := asked;
      for retry := 0 to retries
        invariant asked' == asked + retry && low == old(low) && high == old(high) && base == old(base) && try == old(try)
        invariant forall i :: asked <= i < asked' ==> !answers(i)
      {
        asked' := asked' + 1;
        if answers(asked' - 1) {
          HandleResponse(peers.chain[try], peers.held(asked'));
          return true, asked';
        }
      }
      return false, asked';
    }

    method HandleResponse(tryHash: Hash, held: set<Hash>)
      modifies this
      ensures try == old(try)
      ensures if tryHash in held then low == base == try && high == old(high)
              else high == try && low == old(low) && base == old(base)
    {
      if tryHash !in held {
        high := try;
      } else {
        low := try;
        base := try;
      }
    }

    /** One round of the search, unless its request stays unanswered. */
    method Round(answers: nat -> bool, asked: nat, ghost rounds: nat) returns (ok: bool, asked': nat)
      requires Searching(peers, low, high, rounds, asked) && base == low && try == (high + low) / 2 != low
      modifies this
      ensures asked <= asked' <= asked + retries && (ok ==> asked < asked')
      ensures ok ==> Searching(peers, low, high, rounds + 1, asked') && base == low && Gap(low, high) < old(Gap(low, high))
      ensures !ok ==> Unanswered(answers, asked, retries)
    {
      ghost var l, h := low, high;
      NextRound(peers, l, h, rounds, try, asked, asked);
      ok, asked' := Query(answers, asked);
      NextRound(peers, l, h, rounds, try, asked, asked');
    }

    /**
     Finds the base block unless a request stays unanswered, in a number of rounds that is at most
     logarithmic in the distance to the target; each round takes at least one request, and at most as
     many as are allowed.
     */
    method FindBaseBlock(answers: nat -> bool) returns (ok: bool, rounds: nat, asked: nat)
      requires peers.Valid()
      modifies this
      ensures ok ==> IsBase(peers, base, asked)
      ensures ok || exists k: nat :: Unanswered(answers, k, retries)
      ensures rounds > 0 ==>
                Pow2(rounds - 1) <= if peers.lib < peers.target then peers.target - peers.lib else peers.lib - peers.target
      ensures rounds <= asked <= (if ok then rounds else rounds + 1) * retries
    {
      base, low, high := peers.lib, peers.lib, peers.target;
      rounds, asked := 0, 0;
      SearchStarts(peers);
      while true
        invariant Searching(peers, low, high, rounds, asked) && base == low
        invariant rounds <= asked <= rounds * retries
        decreases Gap(low, high)
      {
        try := (high + low) / 2;
        if try == low {
          break;
        }
        ok, asked := Round(answers, asked, rounds);
        assert (rounds + 1) * retries == rounds * retries + retries;
        if !ok {
          return false, rounds, asked;
        }
        rounds := rounds + 1;
      }
      SearchEnds(peers, low, high, rounds, asked);
      return true, rounds, asked;
    }
  }

  // --------------------------------------------------------------------------------------------
  // The download
  // --------------------------------------------------------------------------------------------

  /** A tick of the clock, the end of one of the requests under way, or a cancellation. */
  datatype Event = Tick | Result(height: nat, ok: bool) | Cancel

  datatype Ending = Success | Failure | Cancelled

  /** requests and height are the node's; requested, underWay and done are what has happened. */
  datatype Stage = Stage(
    requests: int, height: nat, outcome: Option<Ending>, requested: seq<nat>, underWay: set<nat>, done: set<nat>)

  function Begin(base: nat): Stage {
    Stage(0, base, None, [], {}, {})
  }

  function Step(s: Stage, e: Event, target: nat, limit: nat): Stage {
    if s.outcome.Some? then s
    else
      match e
      case Cancel => s.(outcome := Some(Cancelled))
      case Tick =>
        if s.requests >= limit || s.height == target then s
        else
          var h := s.height + 1;
          s.(requests := s.requests + 1, height := h, requested := s.requested + [h], underWay := s.underWay + {h})
      case Result(h, ok) =>
        if h !in s.underWay then s
        else if !ok then s.(outcome := Some(Failure), underWay := s.underWay - {h})
        else
          var requests := s.requests - 1;
          s.(requests := requests, underWay := s.underWay - {h}, done := s.done + {h},
             outcome := if requests == 0 && s.height == target then Some(Success) else None)
  }

  function Run(s: Stage, events: seq<Event>, target: nat, limit: nat): Stage {
    if events == [] then s else Step(Run(s, events[..|events| - 1], target, limit), events[|events| - 1], target, limit)
  }

  /** The loop over the events, with the node's own counters. */
  method StepUpRequest(base: nat, target: nat, limit: nat, events: seq<Event>) returns (outcome: Option<Ending>)
    ensures outcome == Run(Begin(base), events, target, limit).outcome
  {
    var requests, height := 0, base;
    var underWay: set<nat> := {};
    outcome := None;
    for i := 0 to |events|
      invariant var s := Run(Begin(base), events[..i], target, limit);
                outcome == s.outcome && requests == s.requests && height == s.height && underWay == s.underWay
      invariant outcome.None?
    {
      assert events[..i + 1][..i] == events[..i];
      match events[i] {
        case Cancel =>
          outcome := Some(Cancelled);
        case Tick =>
          if requests < limit && height != target {
            requests, height := requests + 1, height + 1;
            underWay := underWay + {height};
          }
        case Result(h, ok) =>
          if h in underWay {
            underWay := underWay - {h};
            if !ok {
              outcome := Some(Failure);
            } else {
              requests := requests - 1;
              if requests == 0 && height == target {
                outcome := Some(Success);
              }
            }
          }
      }
      if outcome.Some? {
        OverIsOver(Begin(base), events, i + 1, target, limit);
        return;
      }
    }
    assert events[..|events|] == events;
  }

  lemma {:induction false} OverIsOver(s: Stage, events: seq<Event>, i: nat, target: nat, limit: nat)
    requires i <= |events| && Run(s, events[..i], target, limit).outcome.Some?
    ensures Run(s, events, target, limit) == Run(s, events[..i], target, limit)
    decreases |events| - i
  {
    if i < |events| {
      assert events[..i + 1][..i] == events[..i];
      OverIsOver(s, events, i + 1, target, limit);
    } else {
      assert events[..i] == events;
    }
  }

  /** Heights are asked for once each and in order; what is asked for is under way or done, unless it failed. */
  ghost predicate Orderly(s: Stage, base: nat, target: nat, limit: nat) {
    && base <= s.height <= target
    && s.requested == seq(s.height - base, i => base + 1 + i)
    && s.done !! s.underWay
    && |s.underWay| <= limit
    && (s.outcome != Some(Failure) ==>
          && s.requests == |s.underWay|
          && forall h :: h in s.underWay || h in s.done <==> base < h <= s.height)
    && (s.outcome == Some(Success) ==> s.height == target && s.underWay == {})
    && (s.outcome.None? && s.height == target ==> base == target || s.underWay != {})
  }

  lemma StepKeepsOrder(s: Stage, e: Event, base: nat, target: nat, limit: nat)
    requires Orderly(s, base, target, limit)
    ensures Orderly(Step(s, e, target, limit), base, target, limit)
  {
    if s.outcome.None? && e.Result? && e.height in s.underWay {
      assert |s.underWay - {e.height}| == |s.underWay| - 1;
    }
    if s.outcome.None? && e.Tick? && s.requests < limit && s.height != target {
      TickKeepsOrder(s, base, target, limit);
    }
  }

  lemma TickKeepsOrder(s: Stage, base: nat, target: nat, limit: nat)
    requires Orderly(s, base, target, limit) && s.outcome.None? && s.requests < limit && s.height != target
    ensures Orderly(Step(s, Tick, target, limit), base, target, limit)
  {
    assert s.requested + [s.height + 1] == seq(s.height + 1 - base, i => base + 1 + i);
    assert |s.underWay + {s.height + 1}| == |s.underWay| + 1;
  }

  lemma {:induction false} EveryRunIsOrderly(base: nat, target: nat, limit: nat, events: seq<Event>)
    requires base <= target
    ensures Orderly(Run(Begin(base), events, target, limit), base, target, limit)
    decreases |events|
  {
    if events != [] {
      EveryRunIsOrderly(base, target, limit, events[..|events| - 1]);
      StepKeepsOrder(Run(Begin(base), events[..|events| - 1], target, limit), events[|events| - 1], base, target, limit);
    }
  }

  /**
   In every run the requests under way stay within the limit, and success means that each height from
   the one above the base to the target was requested once and has been downloaded.
   */
  lemma SuccessMeansAllDownloaded(base: nat, target: nat, limit: nat, events: seq<Event>)
    requires base <= target
    ensures var s := Run(Begin(base), events, target, limit);
            && |s.underWay| <= limit
            && (s.outcome == Some(Success) ==>
                  && s.requested == seq(target - base, i => base + 1 + i)
                  && forall h :: h in s.done <==> base < h <= target)
  {
    EveryRunIsOrderly(base, target, limit, events);
  }

  lemma OneMore(s: Stage, events: seq<Event>, e: Event, target: nat, limit: nat)
    ensures Run(s, events + [e], target, limit) == Step(Run(s, events, target, limit), e, target, limit)
  {
    assert (events + [e])[..|events|] == events;
  }

  /**
   What one more event does to a download, told from the heights that are under way: a tick asks for
   the next height if fewer than the limit are under way and one is left, a result ends its request and
   a failed one the download, and the last successful one ends it with success.
   */
  ghost predicate Counted(s: Stage, e: Event, s': Stage, base: nat, target: nat, limit: nat) {
    var next := base + |s.requested| + 1;
    match e
    case Cancel => s'.outcome == Some(Cancelled) && s'.underWay == s.underWay && s'.done == s.done
    case Tick =>
      if |s.underWay| < limit && next <= target
      then && s'.requested == s.requested + [next] && s'.underWay == s.underWay + {next}
           && s'.outcome == None && s'.done == s.done
      else s' == s
    case Result(h, ok) =>
      if h !in s.underWay then s' == s
      else
        && s'.requested == s.requested && s'.underWay == s.underWay - {h}
        && s'.done == (if ok then s.done + {h} else s.done)
        && s'.outcome == if !ok then Some(Failure)
                         else if s.underWay == {h} && next > target then Some(Success) else None
  }

  lemma EventCounts(base: nat, target: nat, limit: nat, events: seq<Event>, e: Event)
    requires base <= target
    ensures var s, s' := Run(Begin(base), events, target, limit), Run(Begin(base), events + [e], target, limit);
            if s.outcome.Some? then s' == s else Counted(s, e, s', base, target, limit)
  {
    EveryRunIsOrderly(base, target, limit, events);
    OneMore(Begin(base), events, e, target, limit);
    if Run(Begin(base), events, target, limit).outcome.None? {
      StepCounts(Run(Begin(base), events, target, limit), e, base, target, limit);
    }
  }

  lemma StepCounts(s: Stage, e: Event, base: nat, target: nat, limit: nat)
    requires Orderly(s, base, target, limit) && s.outcome.None?
    ensures Counted(s, e, Step(s, e, target, limit), base, target, limit)
  {
    assert |s.requested| == s.height - base;
    if e.Result? && e.height in s.underWay {
      TheOnlyOne(s.underWay, e.height);
    }
  }

  lemma TheOnlyOne(all: set<nat>, h: nat)
    requires h in all
    ensures |all| == 1 <==> all == {h}
  {
    assert |all - {h}| == |all| - 1;
    assert all - {h} == {} ==> all == {h};
  }

  /** A download fails exactly if one of the requests under way fails while it is not over. */
  lemma {:induction false} FailsIff(base: nat, target: nat, limit: nat, events: seq<Event>)
    ensures Run(Begin(base), events, target, limit).outcome == Some(Failure) <==>
            exists i :: 0 <= i < |events| && FailsAt(base, target, limit, events, i)
    decreases |events|
  {
    if events != [] {
      var front, last := events[..|events| - 1], |events| - 1;
      FailsIff(base, target, limit, front);
      assert FailsAt(base, target, limit, events, last) ==> Run(Begin(base), events, target, limit).outcome == Some(Failure);
      if i :| 0 <= i < last && FailsAt(base, target, limit, events, i) {
        assert front[..i] == events[..i];
        assert FailsAt(base, target, limit, front, i);
      }
      if i :| 0 <= i < last && FailsAt(base, target, limit, front, i) {
        assert front[..i] == events[..i];
        assert FailsAt(base, target, limit, events, i);
      }
    }
  }

  ghost predicate FailsAt(base: nat, target: nat, limit: nat, events: seq<Event>, i: nat)
    requires i < |events|
  {
    var s := Run(Begin(base), events[..i], target, limit);
    s.outcome.None? && events[i].Result? && events[i].height in s.underWay && !events[i].ok
  }

  /** A download under way is never stuck: something is under way, or the next tick starts a request. */
  lemma NeverStuck(base: nat, target: nat, limit: nat, events: seq<Event>)
    requires base < target && limit > 0
    ensures var s := Run(Begin(base), events, target, limit);
            s.outcome.None? && s.underWay == {} ==> |Step(s, Tick, target, limit).requested| == |s.requested| + 1
  {
    EveryRunIsOrderly(base, target, limit, events);
  }

  /** One request after the other, each successful. */
  ghost function OneByOne(base: nat, height: nat): seq<Event>
    requires base <= height
  {
    if base == height then [] else OneByOne(base, height - 1) + [Tick, Result(height, true)]
  }

  lemma {:induction false} OneByOneAdvances(base: nat, height: nat, target: nat, limit: nat)
    requires base <= height <= target && limit > 0
    ensures var s := Run(Begin(base), OneByOne(base, height), target, limit);
            && s.requests == 0 && s.height == height && s.underWay == {}
            && s.outcome == if base < height == target then Some(Success) else None
    decreases height
  {
    if base < height {
      OneByOneAdvances(base, height - 1, target, limit);
      var front, events := OneByOne(base, height - 1), OneByOne(base, height);
      TwoMore(Begin(base), front, Tick, Result(height, true), target, limit);
      assert events == front + [Tick, Result(height, true)];
    }
  }

  lemma TwoMore(s: Stage, front: seq<Event>, e: Event, f: Event, target: nat, limit: nat)
    ensures Run(s, front + [e, f], target, limit) ==
            Step(Step(Run(s, front, target, limit), e, target, limit), f, target, limit)
  {
    var one, two := front + [e], front + [e, f];
    assert one[..|one| - 1] == front && two[..|two| - 1] == one;
  }

  lemma {:induction false} NothingToDownload(target: nat, limit: nat, events: seq<Event>)
    ensures var s := Run(Begin(target), events, target, limit);
            s.height == target && s.underWay == {} && s.outcome != Some(Success)
    decreases |events|
  {
    if events != [] {
      NothingToDownload(target, limit, events[..|events| - 1]);
    }
  }

  /**
   A download can succeed exactly if there is something to download: the loop only looks for its end
   when a request ends, so that it goes on for ever when the base is the target.
   */
  lemma CanSucceedIff(base: nat, target: nat, limit: nat)
    requires base <= target && limit > 0
    ensures (exists events :: Run(Begin(base), events, target, limit).outcome == Some(Success)) <==> base < target
  {
    if base < target {
      OneByOneAdvances(base, target, target, limit);
    } else {
      forall events
        ensures Run(Begin(base), events, target, limit).outcome != Some(Success)
      {
        NothingToDownload(target, limit, events);
      }
    }
  }

  /** Whatever the search for the base ends with, a download can succeed exactly if its target is above our LIB. */
  lemma DownloadCanSucceedIff(p: Peers, base: nat, now: nat, limit: nat)
    requires p.Valid() && IsBase(p, base, now) && limit > 0
    ensures (exists events :: Run(Begin(base), events, p.target, limit).outcome == Some(Success)) <==> p.target > p.lib
  {
    CanSucceedIff(base, p.target, limit);
  }
}
