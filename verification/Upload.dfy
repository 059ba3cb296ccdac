/** The per-address sliding window of the upload handlers (server/uploadpic.go, CheckAndUpdateRateLimit). */
module Upload {
  /** `time.Minute`, in nanoseconds. */
  const REQUEST_INTERVAL := 60_000_000_000

  ghost predicate Monotone(ts: seq<int>) {
    forall i, j :: 0 <= i <= j < |ts| ==> ts[i] <= ts[j]
  }

  /** The times no more than a minute before `now`. */
  function Trailing(ts: seq<int>, now: int): (w: seq<int>)
    ensures |w| <= |ts|
  {
    if ts == [] then []
    else
      var n := |ts| - 1;
      Trailing(ts[..n], now) + (if now - ts[n] <= REQUEST_INTERVAL then [ts[n]] else [])
  }

  /** The last request of a log is accepted exactly when the minute that ends with it, itself included,
      holds at most `limit` requests, accepted or not. */
  predicate LastAccepted(log: seq<int>, limit: int)
    requires log != []
  {
    |Trailing(log, log[|log| - 1])| <= limit
  }

  /** How many accepted requests of the log fall into the closed interval from `lo` to `hi`. */
  function AcceptedIn(log: seq<int>, limit: int, lo: int, hi: int): nat {
    if log == [] then 0
    else
      var n := |log| - 1;
      AcceptedIn(log[..n], limit, lo, hi) + (if LastAccepted(log, limit) && lo <= log[n] <= hi then 1 else 0)
  }

  // ---- the limiter ----

  class RateLimiter {
    var counts: map<string, seq<int>>
    /** Every request an address ever made. */
    ghost var logs: map<string, seq<int>>
    ghost var latest: int

    /** The stored list of every address is the trailing minute of its full log. */
    ghost predicate Valid()
      reads this
    {
      AllTrack(logs, counts, latest)
    }

    constructor ()
      ensures Valid() && logs == map[]
    {
      counts, logs, latest := map[], map[], 0;
    }

    /** `limit` is what the configuration says at this call. */
    method CheckAndUpdateRateLimit(ip: string, now: int, limit: int) returns (ok: bool)
      requires Valid() && (logs == map[] || latest <= now)
      modifies this
      ensures Valid() && latest == now
      ensures logs == old(logs)[ip := old(ListOf(logs, ip)) + [now]]
      ensures counts == old(counts)[ip := Trailing(ListOf(logs, ip), now)]
      ensures ok <==> LastAccepted(ListOf(logs, ip), limit)
    {
      var list := ListOf(counts, ip) + [now];
      ghost var k;
      list, k := RemoveExpired(list, now);
      StillTrack(logs, counts, latest, ip, now, k);
      logs := logs[ip := ListOf(logs, ip) + [now]];
      counts := counts[ip := list];
      latest := now;
      ok := |list| <= limit;
    }
  }

  /** A missing entry of a Go map reads as an empty slice. */
  function ListOf(m: map<string, seq<int>>, ip: string): seq<int> {
    if ip in m then m[ip] else []
  }

  /** `kept` is the trailing minute of `log`, which is monotone and ends no later than `latest`. */
  ghost predicate Tracks(log: seq<int>, kept: seq<int>, latest: int) {
    if log == [] then kept == []
    else Monotone(log) && log[|log| - 1] <= latest && kept == Trailing(log, log[|log| - 1])
  }

  ghost predicate AllTrack(logs: map<string, seq<int>>, counts: map<string, seq<int>>, latest: int) {
    forall ip :: Tracks(ListOf(logs, ip), ListOf(counts, ip), latest)
  }

  /** The loop on the address's list. */
  method RemoveExpired(full: seq<int>, now: int) returns (rest: seq<int>, ghost k: nat)
    ensures k <= |full| && rest == full[k..]
    ensures forall i :: 0 <= i < k ==> now - full[i] > REQUEST_INTERVAL
    ensures k < |full| ==> now - full[k] <= REQUEST_INTERVAL
  {
    rest, k := full, 0;
    while |rest| > 0 && now - rest[0] > REQUEST_INTERVAL
      invariant k <= |full| && rest == full[k..]
      invariant forall i :: 0 <= i < k ==> now - full[i] > REQUEST_INTERVAL
      decreases |rest|
    {
      rest, k := rest[1..], k + 1;
    }
  }

  // ---- why trimming the front is enough ----

  lemma {:induction false} TrailingSplit(a: seq<int>, b: seq<int>, now: int)
    ensures Trailing(a + b, now) == Trailing(a, now) + Trailing(b, now)
  {
    if b == [] {
      assert a + b == a;
    } else {
      var n := |b| - 1;
      TrailingSplit(a, b[..n], now);
      assert (a + b)[..|a + b| - 1] == a + b[..n];
    }
  }

  lemma {:induction false} TrailingNone(ts: seq<int>, now: int)
    requires forall i :: 0 <= i < |ts| ==> now - ts[i] > REQUEST_INTERVAL
    ensures Trailing(ts, now) == []
  {
    if ts != [] {
      TrailingNone(ts[..|ts| - 1], now);
    }
  }

  lemma {:induction false} TrailingAll(ts: seq<int>, now: int)
    requires forall i :: 0 <= i < |ts| ==> now - ts[i] <= REQUEST_INTERVAL
    ensures Trailing(ts, now) == ts
  {
    if ts != [] {
      TrailingAll(ts[..|ts| - 1], now);
      assert ts == ts[..|ts| - 1] + [ts[|ts| - 1]];
    }
  }

  /** Trimming at an earlier and then at a later time is trimming once at the later. */
  lemma {:induction false} TrailingLater(ts: seq<int>, before: int, now: int)
    requires before <= now
    ensures Trailing(Trailing(ts, before), now) == Trailing(ts, now)
  {
    if ts != [] {
      var n := |ts| - 1;
      TrailingLater(ts[..n], before, now);
      var last := if before - ts[n] <= REQUEST_INTERVAL then [ts[n]] else [];
      TrailingSplit(Trailing(ts[..n], before), last, now);
      assert [ts[n]][..0] == [];
    }
  }

  lemma {:induction false} TrailingMonotone(ts: seq<int>, now: int)
    requires Monotone(ts)
    ensures Monotone(Trailing(ts, now)) && forall t :: t in Trailing(ts, now) ==> t in ts
  {
    if ts != [] {
      TrailingMonotone(ts[..|ts| - 1], now);
      var w := Trailing(ts[..|ts| - 1], now);
      assert forall i :: 0 <= i < |w| ==> w[i] in w;
    }
  }

  /** What the loop leaves of a monotone list is its trailing minute. */
  lemma SuffixIsTrailing(full: seq<int>, k: nat, now: int)
    requires Monotone(full) && k <= |full|
    requires forall i :: 0 <= i < k ==> now - full[i] > REQUEST_INTERVAL
    requires k < |full| ==> now - full[k] <= REQUEST_INTERVAL
    ensures full[k..] == Trailing(full, now)
  {
    var a, b := full[..k], full[k..];
    assert full == a + b;
    TrailingSplit(a, b, now);
    TrailingNone(a, now);
    forall i | 0 <= i < |b|
      ensures now - b[i] <= REQUEST_INTERVAL
    {
      assert full[k] <= full[k + i];
    }
    TrailingAll(b, now);
  }

  lemma AppendMonotone(ts: seq<int>, now: int)
    requires Monotone(ts) && forall t :: t in ts ==> t <= now
    ensures Monotone(ts + [now])
  {
    assert forall i :: 0 <= i < |ts| ==> ts[i] in ts;
  }

  /** Trimming the kept list with the new time at its end gives the trailing minute of the longer log. */
  lemma TrimIsTrailing(log: seq<int>, kept: seq<int>, latest: int, k: nat, now: int)
    requires Tracks(log, kept, latest) && (log == [] || latest <= now)
    requires k <= |kept + [now]| && forall i :: 0 <= i < k ==> now - (kept + [now])[i] > REQUEST_INTERVAL
    requires k < |kept + [now]| ==> now - (kept + [now])[k] <= REQUEST_INTERVAL
    ensures (kept + [now])[k..] == Trailing(log + [now], now) && Tracks(log + [now], (kept + [now])[k..], now)
  {
    if log != [] {
      var before := log[|log| - 1];
      TrailingMonotone(log, before);
      TrailingLater(log, before, now);
    }
    AppendMonotone(log, now);
    AppendMonotone(kept, now);
    SuffixIsTrailing(kept + [now], k, now);
    TrailingSplit(kept, [now], now);
    TrailingSplit(log, [now], now);
  }

  lemma TracksLater(log: seq<int>, kept: seq<int>, latest: int, now: int)
    requires Tracks(log, kept, latest) && (log == [] || latest <= now)
    ensures Tracks(log, kept, now)
  {
  }

  lemma TracksAfter(logs: map<string, seq<int>>, counts: map<string, seq<int>>, ip: string, log: seq<int>,
                    kept: seq<int>, now: int, other: string)
    requires Tracks(log, kept, now)
    requires other != ip ==> Tracks(ListOf(logs, other), ListOf(counts, other), now)
    ensures Tracks(ListOf(logs[ip := log], other), ListOf(counts[ip := kept], other), now)
  {
    if other == ip {
      assert ListOf(logs[ip := log], other) == log && ListOf(counts[ip := kept], other) == kept;
    } else {
      assert ListOf(logs[ip := log], other) == ListOf(logs, other)
          && ListOf(counts[ip := kept], other) == ListOf(counts, other);
    }
  }

  /** One request: its address's list is trimmed, every other list stays. */
  lemma StillTrack(logs: map<string, seq<int>>, counts: map<string, seq<int>>, latest: int, ip: string, now: int,
                   k: nat)
    requires AllTrack(logs, counts, latest) && (logs == map[] || latest <= now)
    requires var full := ListOf(counts, ip) + [now];
             k <= |full| && (forall i :: 0 <= i < k ==> now - full[i] > REQUEST_INTERVAL)
             && (k < |full| ==> now - full[k] <= REQUEST_INTERVAL)
    ensures var log, rest := ListOf(logs, ip) + [now], (ListOf(counts, ip) + [now])[k..];
            rest == Trailing(log, now) && AllTrack(logs[ip := log], counts[ip := rest], now)
  {
    var log, kept := ListOf(logs, ip), ListOf(counts, ip);
    assert Tracks(log, kept, latest);
    TrimIsTrailing(log, kept, latest, k, now);
    var logs', counts' := logs[ip := log + [now]], counts[ip := (kept + [now])[k..]];
    forall other
      ensures Tracks(ListOf(logs', other), ListOf(counts', other), now)
    {
      TracksLater(ListOf(logs, other), ListOf(counts, other), latest, now);
      TracksAfter(logs, counts, ip, log + [now], (kept + [now])[k..], now, other);
    }
  }

  // ---- the promise ----

  /** Accepted requests since `lo` are among the trailing minute of any time up to a minute later. */
  lemma {:induction false} AcceptedAreTrailing(log: seq<int>, limit: int, lo: int, hi: int, now: int)
    requires now - lo <= REQUEST_INTERVAL
    ensures AcceptedIn(log, limit, lo, hi) <= |Trailing(log, now)|
  {
    if log != [] {
      AcceptedAreTrailing(log[..|log| - 1], limit, lo, hi, now);
    }
  }

  /** No closed one-minute interval, wherever it starts, contains more than `limit` accepted requests of
      an address. */
  lemma {:induction false} WindowBound(log: seq<int>, limit: int, lo: int)
    ensures AcceptedIn(log, limit, lo, lo + REQUEST_INTERVAL) <= if limit > 0 then limit else 0
  {
    if log != [] {
      var n := |log| - 1;
      if LastAccepted(log, limit) && lo <= log[n] <= lo + REQUEST_INTERVAL {
        AcceptedAreTrailing(log, limit, lo, lo + REQUEST_INTERVAL, log[n]);
      } else {
        WindowBound(log[..n], limit, lo);
      }
    }
  }

  // ---- runs ----

  /** An upload: its address, its time, and the limit configured then. */
  datatype Request = Request(ip: string, at: int, limit: int)

  /** The times of one address's requests. */
  ghost function LogIn(requests: seq<Request>, ip: string): seq<int> {
    if requests == [] then []
    else
      var n := |requests| - 1;
      LogIn(requests[..n], ip) + (if requests[n].ip == ip then [requests[n].at] else [])
  }

  /** The answers: each request is decided by its own address's full log up to it. */
  ghost function Decisions(requests: seq<Request>): (oks: seq<bool>)
    ensures |oks| == |requests|
  {
    if requests == [] then []
    else
      var n := |requests| - 1;
      Decisions(requests[..n]) + [LastAccepted(LogIn(requests, requests[n].ip), requests[n].limit)]
  }

  /** The last request is one of the address in the closed interval, and was answered with true. */
  ghost predicate Here(requests: seq<Request>, oks: seq<bool>, ip: string, lo: int, hi: int)
    requires |oks| == |requests| > 0
  {
    var n := |requests| - 1;
    oks[n] && requests[n].ip == ip && lo <= requests[n].at <= hi
  }

  /** How many requests of an address in the closed interval were answered with true. */
  ghost function Granted(requests: seq<Request>, oks: seq<bool>, ip: string, lo: int, hi: int): nat
    requires |oks| == |requests|
  {
    if requests == [] then 0
    else
      var n := |requests| - 1;
      Granted(requests[..n], oks[..n], ip, lo, hi) + (if Here(requests, oks, ip, lo, hi) then 1 else 0)
  }

  /** How many in the minute that begins at `lo`, both ends included. */
  ghost function GrantedInMinute(requests: seq<Request>, oks: seq<bool>, ip: string, lo: int): nat
    requires |oks| == |requests|
  {
    Granted(requests, oks, ip, lo, lo + REQUEST_INTERVAL)
  }

  /** Granted requests since `lo` are in the address's trailing minute of any time up to a minute later. */
  lemma {:induction false} GrantedAreTrailing(requests: seq<Request>, oks: seq<bool>, ip: string, lo: int, hi: int,
                                              now: int)
    requires |oks| == |requests| && now - lo <= REQUEST_INTERVAL
    ensures Granted(requests, oks, ip, lo, hi) <= |Trailing(LogIn(requests, ip), now)|
  {
    if requests != [] {
      var n := |requests| - 1;
      GrantedAreTrailing(requests[..n], oks[..n], ip, lo, hi, now);
      var log := LogIn(requests[..n], ip);
      if requests[n].ip == ip {
        assert (log + [requests[n].at])[..|log|] == log;
      } else {
        assert log + [] == log;
      }
    }
  }

  /** A granted request's trailing minute holds at most its limit. */
  lemma GrantedWithinLimit(requests: seq<Request>, n: nat)
    requires n + 1 == |requests|
    ensures var oks, r := Decisions(requests), requests[n];
            && oks[..n] == Decisions(requests[..n])
            && (oks[n] ==> |Trailing(LogIn(requests, r.ip), r.at)| <= r.limit)
  {
    var log := LogIn(requests[..n], requests[n].ip);
    assert LogIn(requests, requests[n].ip) == log + [requests[n].at];
  }

  lemma GrantedHere(requests: seq<Request>, ip: string, lo: int)
    requires requests != [] && Here(requests, Decisions(requests), ip, lo, lo + REQUEST_INTERVAL)
    ensures GrantedInMinute(requests, Decisions(requests), ip, lo) <= requests[|requests| - 1].limit
  {
    var r, oks := requests[|requests| - 1], Decisions(requests);
    var w := |Trailing(LogIn(requests, ip), r.at)|;
    assert w <= r.limit by {
      GrantedWithinLimit(requests, |requests| - 1);
    }
    assert Granted(requests, oks, ip, lo, lo + REQUEST_INTERVAL) <= w by {
      GrantedAreTrailing(requests, oks, ip, lo, lo + REQUEST_INTERVAL, r.at);
    }
  }

  /** Over every run: in no closed minute are more requests of an address granted than the largest limit
      configured during the run. */
  lemma {:induction false} MinuteBound(requests: seq<Request>, ip: string, lo: int, most: int)
    requires forall i :: 0 <= i < |requests| ==> requests[i].limit <= most
    ensures GrantedInMinute(requests, Decisions(requests), ip, lo) <= if most > 0 then most else 0
  {
    if requests != [] {
      var n := |requests| - 1;
      if Here(requests, Decisions(requests), ip, lo, lo + REQUEST_INTERVAL) {
        GrantedHere(requests, ip, lo);
      } else {
        GrantedWithinLimit(requests, n);
        MinuteBound(requests[..n], ip, lo, most);
      }
    }
  }

  lemma LogsStep(requests: seq<Request>, i: nat, logs: map<string, seq<int>>)
    requires i < |requests| && forall ip :: ListOf(logs, ip) == LogIn(requests[..i], ip)
    ensures var r := requests[i];
            var logs' := logs[r.ip := ListOf(logs, r.ip) + [r.at]];
            forall other :: ListOf(logs', other) == LogIn(requests[..i + 1], other)
  {
    assert requests[..i + 1][..i] == requests[..i];
  }

  lemma DecisionsStep(requests: seq<Request>, i: nat)
    requires i < |requests|
    ensures var log := LogIn(requests[..i + 1], requests[i].ip);
            log != []
                && Decisions(requests[..i + 1]) == Decisions(requests[..i]) + [LastAccepted(log, requests[i].limit)]
  {
    assert requests[..i + 1][..i] == requests[..i];
  }

  /** Over every run of uploads from any addresses at nondecreasing times, the pruned lists decide as the
      full logs would. */
  method Decide(rl: RateLimiter, requests: seq<Request>) returns (oks: seq<bool>)
    requires rl.Valid() && rl.logs == map[]
    requires forall i, j :: 0 <= i <= j < |requests| ==> requests[i].at <= requests[j].at
    modifies rl
    ensures rl.Valid() && oks == Decisions(requests)
    ensures forall ip :: ListOf(rl.logs, ip) == LogIn(requests, ip)
  {
    oks := [];
    for i := 0 to |requests|
      invariant rl.Valid() && (i == 0 ==> rl.logs == map[]) && (i > 0 ==> rl.latest == requests[i - 1].at)
      invariant forall ip :: ListOf(rl.logs, ip) == LogIn(requests[..i], ip)
      invariant oks == Decisions(requests[..i])
    {
      LogsStep(requests, i, rl.logs);
      DecisionsStep(requests, i);
      var ok := rl.CheckAndUpdateRateLimit(requests[i].ip, requests[i].at, requests[i].limit);
      assert ListOf(rl.logs, requests[i].ip) == LogIn(requests[..i + 1], requests[i].ip);
      oks := oks + [ok];
    }
    assert requests[..|requests|] == requests;
  }

  /** The requests of the address of request i, itself and refused ones included, in the minute up to it. */
  function Recent(requests: seq<Request>, i: nat): set<nat>
    requires i < |requests|
  {
    set j: nat | j <= i && requests[j].ip == requests[i].ip && requests[i].at - requests[j].at <= 60_000_000_000
  }

  /** The requests before `n` of an address that are in its trailing minute of `now`. */
  function InMinute(requests: seq<Request>, n: nat, ip: string, now: int): set<nat>
    requires n <= |requests|
  {
    set j: nat | j < n && requests[j].ip == ip && now - requests[j].at <= 60_000_000_000
  }

  lemma {:induction false} TrailingCounts(requests: seq<Request>, ip: string, now: int)
    ensures |Trailing(LogIn(requests, ip), now)| == |InMinute(requests, |requests|, ip, now)|
  {
    if requests != [] {
      var n := |requests| - 1;
      var init := requests[..n];
      TrailingCounts(init, ip, now);
      assert InMinute(init, n, ip, now) == InMinute(requests, n, ip, now);
      var log := LogIn(init, ip);
      if requests[n].ip == ip {
        assert (log + [requests[n].at])[..|log|] == log;
        if now - requests[n].at <= REQUEST_INTERVAL {
          assert InMinute(requests, n + 1, ip, now) == InMinute(requests, n, ip, now) + {n};
        } else {
          assert InMinute(requests, n + 1, ip, now) == InMinute(requests, n, ip, now);
        }
      } else {
        assert log + [] == log;
        assert InMinute(requests, n + 1, ip, now) == InMinute(requests, n, ip, now);
      }
    }
  }

  /** A request is granted exactly when the minute up to it holds no more of its address's requests than the
      limit configured then. */
  lemma {:induction false} DecidedExactly(requests: seq<Request>, i: nat)
    requires i < |requests|
    ensures Decisions(requests)[i] <==> |Recent(requests, i)| <= requests[i].limit
    decreases |requests|
  {
    var n := |requests| - 1;
    if i < n {
      DecidedExactly(requests[..n], i);
      assert Recent(requests[..n], i) == Recent(requests, i);
    } else {
      var r := requests[n];
      var log := LogIn(requests[..n], r.ip);
      assert LogIn(requests, r.ip) == log + [r.at];
      TrailingCounts(requests, r.ip, r.at);
      assert InMinute(requests, n + 1, r.ip, r.at) == Recent(requests, n);
    }
  }

  /** Each answer is right, and no closed minute has more granted uploads of an address than the largest limit
      configured. */
  method Serve(rl: RateLimiter, requests: seq<Request>, ghost most: int) returns (oks: seq<bool>)
    requires rl.Valid() && rl.logs == map[]
    requires forall i, j :: 0 <= i <= j < |requests| ==> requests[i].at <= requests[j].at
    requires forall i :: 0 <= i < |requests| ==> requests[i].limit <= most
    modifies rl
    ensures |oks| == |requests| && oks == Decisions(requests)
    ensures forall i :: 0 <= i < |requests| ==> (oks[i] <==> |Recent(requests, i)| <= requests[i].limit)
    ensures forall ip, lo :: GrantedInMinute(requests, oks, ip, lo) <= if most > 0 then most else 0
  {
    oks := Decide(rl, requests);
    forall i | 0 <= i < |requests|
      ensures oks[i] <==> |Recent(requests, i)| <= requests[i].limit
    {
      DecidedExactly(requests, i);
    }
    forall ip, lo
      ensures GrantedInMinute(requests, oks, ip, lo) <= if most > 0 then most else 0
    {
      MinuteBound(requests, ip, lo, most);
    }
  }
}
