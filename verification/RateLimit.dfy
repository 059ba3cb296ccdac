/** The REST rate limiter (discordgo/ratelimit.go): a bucket is locked, waited for, used and released.
    Times are nanoseconds. */
module RateLimit {
  import opened Outcome

  const MILLISECOND := 1_000_000
  const SECOND := 1000 * MILLISECOND

  /** What every goroutine shares: the clock, which never goes back, and the global deadline, which other
      buckets may move whenever this one looks away. */
  class World {
    var now: int
    var globalDeadline: int

    constructor ()
    {
      now, globalDeadline := 0, 0;
    }

    /** `time.Now()`. */
    method Now() returns (t: int)
      modifies this
      ensures old(now) <= now == t
    {
      Others();
      t := now;
    }

    /** `time.Sleep(d)`: at least that long, and other goroutines run. */
    method Sleep(d: int)
      requires d >= 0
      modifies this
      ensures old(now) + d <= now
    {
      now := now + d;
      Others();
    }

    method Others()
      modifies this
      ensures old(now) <= now
    {
      var passed: nat, deadline: int := *, *;
      now, globalDeadline := now + passed, deadline;
    }

    method StoreGlobal(deadline: int)
      modifies this`globalDeadline
      ensures globalDeadline == deadline
    {
      globalDeadline := deadline;
    }
  }

  /** A custom limit: so many requests per so many nanoseconds. */
  datatype CustomLimit = CustomLimit(requests: int, reset: int)

  /** One call every 200 milliseconds, for bucket keys that end in `//reactions//`. */
  const REACTIONS := CustomLimit(1, 200 * MILLISECOND)

  /** A response header: missing, unreadable, or a number. Durations and dates are in nanoseconds. */
  datatype Field = Absent | Unreadable | Number(value: int)

  datatype Headers = Headers(remaining: Field, reset: Field, resetAfter: Field, global: bool, date: Field)

  /** One grant of a bucket: when its reset was compared with the clock, when the wait was computed, the global
      deadline that stood then, whether the wait was for the bucket's own reset, and when the call was granted. */
  datatype Grant = Grant(compared: int, computed: int, deadline: int, own: bool, wait: int, granted: int)

  /** What GetWaitTime returns for these readings: the own reset is looked at first, and only without it the
      global deadline. */
  predicate Waits(remaining: int, minRemaining: int, reset: int, g: Grant) {
    && g.compared <= g.computed
    && g.own == (remaining < minRemaining && reset > g.compared)
    && g.wait == if g.own then reset - g.computed else if g.computed < g.deadline then g.deadline - g.computed else 0
  }

  /** A grant comes no sooner than its wait says. */
  predicate Possible(remaining: int, reset: int, g: Grant) {
    Waits(remaining, 1, reset, g) && g.granted >= g.computed && g.granted >= g.computed + g.wait
  }

  class Bucket {
    const world: World
    const customRateLimit: Option<CustomLimit>
    var locked: bool
    var remaining: int
    var reset: int
    var lastReset: int
    ghost var acquired: nat
    ghost var released: nat

    /** GetBucket, for a key not seen before. */
    constructor (world: World, customRateLimit: Option<CustomLimit>)
      ensures this.world == world && this.customRateLimit == customRateLimit
      ensures !locked && remaining == 1 && reset == 0 && lastReset == 0 && acquired == released == 0
    {
      this.world, this.customRateLimit := world, customRateLimit;
      locked, remaining, reset, lastReset := false, 1, 0, 0;
      acquired, released := 0, 0;
    }

    method GetWaitTime(minRemaining: int) returns (wait: int, ghost g: Grant)
      modifies world
      ensures Waits(remaining, minRemaining, reset, g) && wait == g.wait
      ensures old(world.now) <= g.compared && g.computed <= world.now == g.granted
    {
      ghost var compared := world.now;
      if remaining < minRemaining {
        var first := world.Now();
        compared := first;
        if reset > first {
          var second := world.Now();
          wait := reset - second;
          g := Grant(first, second, world.globalDeadline, true, wait, second);
          return;
        }
      }
      var sleepTo := world.globalDeadline;
      var third := world.Now();
      wait := if third < sleepTo then sleepTo - third else 0;
      g := Grant(compared, third, sleepTo, false, wait, third);
    }

    /** LockBucketObject. At every grant either a call remained or the bucket's reset time has passed;
        a grant that did not wait for the bucket's own reset is not before the deadline it read. */
    method LockBucketObject() returns (ghost g: Grant)
      requires !locked
      modifies this`locked, this`remaining, this`acquired, world
      ensures locked && remaining == old(remaining) - 1 && acquired == old(acquired) + 1
      ensures Possible(old(remaining), reset, g) && old(world.now) <= g.compared && g.granted == world.now
      ensures old(remaining) >= 1 || world.now >= reset
      ensures !g.own ==> world.now >= g.deadline
    {
      locked := true;
      var wait;
      wait, g := GetWaitTime(1);
      if wait > 0 {
        world.Sleep(wait);
      }
      g := g.(granted := world.now);
      remaining := remaining - 1;
      acquired := acquired + 1;
    }

    /** Release: always unlocks; what it learns from the headers depends on which parse. `stored` is what it
        puts into the global deadline, which others may have moved again by the time it returns. */
    method Release(headers: Option<Headers>) returns (ok: bool, ghost stored: Option<int>)
      requires locked
      modifies this, world
      ensures !locked && released == old(released) + 1 && acquired == old(acquired)
      ensures world.now >= old(world.now)
      ensures customRateLimit.Some? ==>
                ok && ReleasedCustom(customRateLimit.value, old(remaining), old(reset), old(lastReset), old(world.now))
      ensures customRateLimit.None? ==> lastReset == old(lastReset)
      ensures customRateLimit.None? && headers.None? ==> ok && remaining == old(remaining) && reset == old(reset)
      ensures customRateLimit.None? && headers.Some? ==>
                ok == Readable(headers.value) && remaining == NewRemaining(headers.value, old(remaining))
      ensures customRateLimit.None? && headers.Some? ==>
                match NewReset(headers.value)
                case None => reset == old(reset)
                case Some(after) => old(world.now) <= reset - after <= world.now
      ensures stored.Some? <==> customRateLimit.None? && headers.Some? && GlobalLimit(headers.value)
      ensures stored.Some? ==> old(world.now) <= stored.value - headers.value.resetAfter.value <= world.now
    {
      ok, stored := Learn(headers);
      locked, released := false, released + 1;
      world.Others();
    }

    method Learn(headers: Option<Headers>) returns (ok: bool, ghost stored: Option<int>)
      modifies this`remaining, this`reset, this`lastReset, world
      ensures world.now >= old(world.now)
      ensures customRateLimit.Some? ==>
                ok && ReleasedCustom(customRateLimit.value, old(remaining), old(reset), old(lastReset), old(world.now))
      ensures customRateLimit.None? ==> lastReset == old(lastReset)
      ensures customRateLimit.None? && headers.None? ==> ok && remaining == old(remaining) && reset == old(reset)
      ensures customRateLimit.None? && headers.Some? ==>
                ok == Readable(headers.value) && remaining == NewRemaining(headers.value, old(remaining))
      ensures customRateLimit.None? && headers.Some? ==>
                match NewReset(headers.value)
                case None => reset == old(reset)
                case Some(after) => old(world.now) <= reset - after <= world.now
      ensures stored.Some? <==> customRateLimit.None? && headers.Some? && GlobalLimit(headers.value)
      ensures stored.Some? ==> old(world.now) <= stored.value - headers.value.resetAfter.value <= world.now
    {
      stored := None;
      if customRateLimit.Some? {
        var rl := customRateLimit.value;
        var t := world.Now();
        if t - lastReset >= rl.reset {
          remaining := rl.requests - 1;
          lastReset := world.Now();
        }
        if remaining < 1 {
          var u := world.Now();
          reset := u + rl.reset;
        }
        return true, stored;
      }
      if headers.None? {
        return true, stored;
      }
      var h := headers.value;
      if !h.resetAfter.Absent? {
        if h.resetAfter.Unreadable? {
          return false, stored;
        }
        var t := world.Now();
        if h.global {
          world.StoreGlobal(t + h.resetAfter.value);
          stored := Some(t + h.resetAfter.value);
        } else {
          reset := t + h.resetAfter.value;
        }
      } else if !h.reset.Absent? {
        if !h.date.Number? || h.reset.Unreadable? {
          return false, stored;
        }
        var t := world.Now();
        reset := t + (h.reset.value - h.date.value + 250 * MILLISECOND);
      }
      if !h.remaining.Absent? {
        if h.remaining.Unreadable? {
          return false, stored;
        }
        remaining := h.remaining.value;
      }
      return true, stored;
    }

    /** The effect of Release under a custom limit, from the old fields and the time it began. */
    ghost predicate ReleasedCustom(rl: CustomLimit, remaining0: int, reset0: int, lastReset0: int, began: int)
      reads this, world
    {
      && (remaining == remaining0 || remaining == rl.requests - 1)
      && (lastReset != lastReset0 ==> remaining == rl.requests - 1 && began <= lastReset <= world.now)
      && (world.now - lastReset0 < rl.reset ==> remaining == remaining0 && lastReset == lastReset0)
      && (began - lastReset0 >= rl.reset ==> remaining == rl.requests - 1 && began <= lastReset <= world.now)
      && (if remaining < 1 then began <= reset - rl.reset <= world.now else reset == reset0)
    }
  }

  /** Every header that is present and looked at can be read. */
  predicate Readable(h: Headers) {
    && (if h.resetAfter.Absent? then h.reset.Absent? || (h.date.Number? && h.reset.Number?) else h.resetAfter.Number?)
    && !h.remaining.Unreadable?
  }

  function NewRemaining(h: Headers, present: int): int {
    if Readable(h) && h.remaining.Number? then h.remaining.value else present
  }

  predicate GlobalLimit(h: Headers) {
    h.global && h.resetAfter.Number?
  }

  /** How far after now the bucket's reset is moved, if it is. */
  function NewReset(h: Headers): Option<int> {
    if h.resetAfter.Number? then if h.global then None else Some(h.resetAfter.value)
    else if h.resetAfter.Absent? && h.reset.Number? && h.date.Number? then
      Some(h.reset.value - h.date.value + 250 * MILLISECOND)
    else None
  }

  /** Which headers count, and what for. The server's reset time is turned into ours by its own date, a quarter of
      a second is added, and a reset-after header goes first. */
  lemma HeadersMean(h: Headers)
    ensures NewReset(h).Some? <==>
              (h.resetAfter.Number? && !h.global) || (h.resetAfter.Absent? && h.reset.Number? && h.date.Number?)
    ensures h.resetAfter.Number? && !h.global ==> NewReset(h) == Some(h.resetAfter.value)
    ensures GlobalLimit(h) <==> h.resetAfter.Number? && h.global
    ensures !Readable(h) <==> h.resetAfter.Unreadable? || h.remaining.Unreadable?
                              || (h.resetAfter.Absent? && !h.reset.Absent? && !(h.reset.Number? && h.date.Number?))
    ensures forall left ::
              NewRemaining(h, left) == if h.remaining.Number? && Readable(h) then h.remaining.value else left
  {
  }

  /** Seen from a clock `skew` behind the server's that reads `now` when the answer dated `date` is looked at, the
      bucket's new reset is never earlier than 250 ms after the server's, and exactly that if the answer took no
      time. */
  lemma ResetFollowsServer(h: Headers, skew: int, now: int)
    requires h.resetAfter.Absent? && h.reset.Number? && h.date.Number? && now >= h.date.value - skew
    ensures NewReset(h).Some?
    ensures now + NewReset(h).value >= h.reset.value - skew + 250_000_000
    ensures now == h.date.value - skew ==> now + NewReset(h).value == h.reset.value - skew + 250_000_000
  {
  }

  /** A possible grant with these readings. */
  predicate Granted(remaining: int, reset: int, deadline: int, compared: int, computed: int, g: Grant) {
    Possible(remaining, reset, g) && g.compared == compared && g.computed == computed && g.deadline == deadline
  }

  /** A grant can come at the bucket's reset if it is out of calls, and otherwise at the global deadline or at once,
      and never sooner. */
  lemma EarliestGrant(remaining: int, reset: int, deadline: int, compared: int, computed: int)
    requires compared <= computed
    ensures var due := if remaining < 1 && compared < reset then reset else deadline;
            var earliest := if due > computed then due else computed;
            && (exists g :: Granted(remaining, reset, deadline, compared, computed, g) && g.granted == earliest)
            && (forall g :: Granted(remaining, reset, deadline, compared, computed, g) ==> g.granted >= earliest)
  {
    var own := remaining < 1 && compared < reset;
    var wait := if own then reset - computed else if computed < deadline then deadline - computed else 0;
    var g := Grant(compared, computed, deadline, own, wait, if wait > 0 then computed + wait else computed);
    assert Granted(remaining, reset, deadline, compared, computed, g);
  }

  /** The units, and the one custom limit: one reaction in 200 ms. */
  lemma Units()
    ensures MILLISECOND == 1_000_000 && SECOND == 1_000_000_000 && REACTIONS == CustomLimit(1, 200_000_000)
  {
  }

  /** "Global" is meant to block all buckets until its deadline. Every grant that is possible for given readings
      comes no sooner than the deadline exactly when the bucket does not wait for its own reset, or that reset
      is late enough anyway: the own wait is returned before the deadline is looked at. */
  lemma GlobalRespectedExactly(remaining: int, reset: int, deadline: int, compared: int)
    ensures (forall g :: Possible(remaining, reset, g) && g.deadline == deadline && g.compared == compared ==>
            g.granted >= deadline)
            <==> remaining >= 1 || reset <= compared || reset >= deadline
  {
    if remaining < 1 && compared < reset < deadline {
      var early := Grant(compared, compared, deadline, true, reset - compared, reset);
      assert Possible(remaining, reset, early);
    }
  }

  /** A bucket out of calls whose reset is 10 ms away is granted then, 990 ms before a global deadline. */
  lemma GrantedEarly()
    ensures var g := Grant(0, 0, SECOND, true, 10 * MILLISECOND, 10 * MILLISECOND);
            Possible(0, 10 * MILLISECOND, g) && g.granted + 990 * MILLISECOND == g.deadline
  {
  }

  /** One use of the reactions bucket: when it was granted, when Release began and returned, and the clock
      reading in between from which Release counts the next reset. */
  datatype Use = Use(granted: int, began: int, stamp: int, returned: int)

  ghost predicate Spaced(uses: seq<Use>) {
    && (forall i :: 0 <= i < |uses| ==> uses[i].granted <= uses[i].began <= uses[i].stamp <= uses[i].returned)
    && (forall i :: 0 < i < |uses| ==> uses[i].granted >= uses[i - 1].stamp + 200_000_000)
  }

  /** The reactions bucket over any number of uses, however long each takes: every grant comes at least
      200 milliseconds after the previous Release read the clock, and so after it began. */
  method UseReactions(b: Bucket, delays: seq<nat>) returns (ghost uses: seq<Use>)
    requires !b.locked && b.customRateLimit == Some(REACTIONS) && b.remaining == 1
    modifies b, b.world
    ensures !b.locked && |uses| == |delays| && Spaced(uses)
    ensures b.acquired - old(b.acquired) == b.released - old(b.released) == |delays|
  {
    uses := [];
    for i := 0 to |delays|
      invariant !b.locked && |uses| == i && Spaced(uses)
      invariant i == 0 ==> b.remaining == 1
      invariant i > 0 ==> b.remaining < 1 && b.reset == uses[i - 1].stamp + 200 * MILLISECOND
      invariant b.acquired - old(b.acquired) == b.released - old(b.released) == i
    {
      ghost var g := b.LockBucketObject();
      b.world.Sleep(delays[i]);
      ghost var began := b.world.now;
      var _, _ := b.Release(None);
      uses := uses + [Use(g.granted, began, b.reset - 200 * MILLISECOND, b.world.now)];
    }
  }
}
