/**
 The token bucket of network/rate_limiter.py. Times and rates are real numbers, int() is the floor of a
 number that is not negative.
 */
module RateLimiter {

  const MIN_CHUNK_SIZE := 128
  const MAX_CHUNK_SIZE := 64 * 1024

  /** INTERVAL is 1/100 and MAX_CHUNK_DURATION 1/10 of a second. */
  const INTERVAL := 1.0 / 100.0

  function Clamp(size: int): (r: int)
    ensures MIN_CHUNK_SIZE <= r <= MAX_CHUNK_SIZE
  {
    if size < MIN_CHUNK_SIZE then MIN_CHUNK_SIZE else if size > MAX_CHUNK_SIZE then MAX_CHUNK_SIZE else size
  }

  function MinChunk(limit: nat): int
  {
    Clamp(limit / 100)
  }

  function MaxChunk(limit: nat): int
  {
    Clamp(limit / 10)
  }

  datatype Bucket = Bucket(tokens: int, lastRefill: real)

  /** A limit of at least 1 KiB/s. */
  predicate IsLimit(limit: nat)
  {
    limit >= 1024
  }

  predicate InBounds(limit: nat, b: Bucket)
  {
    0 <= b.tokens <= limit
  }

  /** Chunks are between a hundredth and a tenth of the limit, but never under 128 bytes or over 64 KiB. */
  lemma ChunkSizes(limit: nat)
    ensures limit < 12900 ==> MinChunk(limit) == 128
    ensures 12800 <= limit <= 6553600 ==> MinChunk(limit) == limit / 100
    ensures limit >= 6553600 ==> MinChunk(limit) == 65536
    ensures limit < 1290 ==> MaxChunk(limit) == 128
    ensures 1280 <= limit <= 655360 ==> MaxChunk(limit) == limit / 10
    ensures limit >= 655360 ==> MaxChunk(limit) == 65536
  {
  }

  // ---------------------------------------------------------------- refilling

  /** The tokens that accumulate: the emptier the bucket, the more. */
  function NewTokens(limit: nat, b: Bucket, now: real): int
  {
    ((limit - b.tokens) as real * (now - b.lastRefill)).Floor
  }

  /** What the limit allows in a span of time. */
  function Allowance(limit: nat, span: real): real
  {
    limit as real * span
  }

  lemma AllowanceGrows(limit: nat, x: real, y: real)
    requires x <= y
    ensures Allowance(limit, x) <= Allowance(limit, y)
    ensures 0.0 <= x ==> 0.0 <= Allowance(limit, x)
  {
    ProductAtLeast(limit as real, y, x);
    if 0.0 <= x { ProductAtLeast(limit as real, x, 0.0); }
  }

  lemma AllowanceAdds(limit: nat, x: real, y: real)
    ensures Allowance(limit, x) + Allowance(limit, y) == Allowance(limit, x + y)
  {
  }

  function Plus(limit: nat, tokens: int, amount: int): int
  {
    if tokens + amount > limit then limit else tokens + amount
  }

  /** refill: a full bucket is left alone, with its time. */
  function Refilled(limit: nat, b: Bucket, now: real): Bucket
  {
    if b.tokens == limit then b
    else Bucket(if b.tokens < limit then Plus(limit, b.tokens, NewTokens(limit, b, now)) else b.tokens, now)
  }

  lemma ProductAtLeast(a: real, x: real, y: real)
    requires a >= 0.0 && x >= y
    ensures a * x >= a * y
  {
  }

  lemma ProductBetween(a: real, b: real, x: real)
    requires 0.0 <= a <= b && x >= 0.0
    ensures 0.0 <= a * x <= b * x
  {
  }

  /**
   A bucket that is not full gains the share of its free room that the time passed is of a second, rounded down,
   and is full again after a second and not before; its time moves on. A full bucket stays as it is.
   */
  lemma RefillExactly(limit: nat, tokens: nat, last: real, span: real)
    requires tokens <= limit && span >= 0.0
    ensures tokens == limit ==> Refilled(limit, Bucket(tokens, last), last + span) == Bucket(tokens, last)
    ensures tokens < limit ==>
              var r := Refilled(limit, Bucket(tokens, last), last + span);
              && r.lastRefill == last + span && (r.tokens == limit <==> span >= 1.0)
              && (span < 1.0 ==> r.tokens == tokens + ((limit - tokens) as real * span).Floor)
  {
    if tokens < limit {
      NewTokensIn(limit, tokens, last, span);
      if span >= 1.0 {
        FloorReaches(limit - tokens, span);
      } else {
        FloorBelow(limit - tokens, span);
      }
    }
  }

  lemma NewTokensIn(limit: nat, tokens: nat, last: real, span: real)
    ensures NewTokens(limit, Bucket(tokens, last), last + span) == ((limit - tokens) as real * span).Floor
  {
    assert (last + span) - last == span;
  }

  lemma FloorReaches(room: nat, span: real)
    requires span >= 1.0
    ensures (room as real * span).Floor >= room
  {
    ProductAtLeast(room as real, span, 1.0);
  }

  lemma FloorBelow(room: nat, span: real)
    requires room > 0 && 0.0 <= span < 1.0
    ensures 0 <= (room as real * span).Floor < room
  {
    Below(room as real, span);
  }

  lemma Below(room: real, span: real)
    requires room > 0.0 && 0.0 <= span < 1.0
    ensures 0.0 <= room * span < room
  {
    assert room * (1.0 - span) > 0.0;
  }

  /** No more than the limit accumulates, and nothing is taken away. */
  lemma NewTokensAtMost(limit: nat, b: Bucket, now: real)
    requires InBounds(limit, b) && b.lastRefill <= now
    ensures 0 <= NewTokens(limit, b, now)
    ensures NewTokens(limit, b, now) as real <= Allowance(limit, now - b.lastRefill)
  {
    ProductBetween((limit - b.tokens) as real, limit as real, now - b.lastRefill);
  }

  lemma RefilledInBounds(limit: nat, b: Bucket, now: real)
    requires InBounds(limit, b) && b.lastRefill <= now
    ensures var r := Refilled(limit, b, now);
            InBounds(limit, r) && r.tokens >= b.tokens && b.lastRefill <= r.lastRefill <= now
    ensures (Refilled(limit, b, now).tokens - b.tokens) as real <= Allowance(limit, now - b.lastRefill)
  {
    NewTokensAtMost(limit, b, now);
    AllowanceGrows(limit, 0.0, now - b.lastRefill);
  }

  /** After an interval a bucket below the smallest chunk has gained a sixteenth of it, despite truncation. */
  lemma NewTokensAtLeast(limit: nat, b: Bucket, now: real)
    requires IsLimit(limit) && 0 <= b.tokens < MinChunk(limit) && now - b.lastRefill >= INTERVAL
    ensures 16 * NewTokens(limit, b, now) >= MinChunk(limit)
  {
    ProductAtLeast((limit - b.tokens) as real, now - b.lastRefill, INTERVAL);
    var gained := (limit - b.tokens) / 100;
    assert (limit - b.tokens) as real * INTERVAL >= gained as real;
    assert NewTokens(limit, b, now) >= gained;
  }

  // ---------------------------------------------------------------- taking

  /** One pass of the loop of take_tokens: the bucket afterwards and the tokens handed out, 0 for none. */
  datatype Polling = Polling(bucket: Bucket, amount: int)

  function Poll(limit: nat, b: Bucket, now: real): Polling
  {
    Take(limit, Refilled(limit, b, now))
  }

  /** Everything available is taken, up to the largest chunk. */
  function Take(limit: nat, r: Bucket): Polling
  {
    if r.tokens < MinChunk(limit) then Polling(r, 0)
    else
      var amount := if r.tokens < MaxChunk(limit) then r.tokens else MaxChunk(limit);
      Polling(r.(tokens := r.tokens - amount), amount)
  }

  /** What is handed out is a chunk of an admissible size, and comes out of the bucket. */
  lemma PollInBounds(limit: nat, b: Bucket, now: real)
    requires IsLimit(limit) && InBounds(limit, b) && b.lastRefill <= now
    ensures var p := Poll(limit, b, now);
            && InBounds(limit, p.bucket) && b.lastRefill <= p.bucket.lastRefill <= now
            && (p.amount == 0 || MinChunk(limit) <= p.amount <= MaxChunk(limit))
            && p.amount + p.bucket.tokens == Refilled(limit, b, now).tokens
  {
    RefilledInBounds(limit, b, now);
  }

  // ---------------------------------------------------------------- runs

  /** A pass of take_tokens, add_tokens, or copy_tokens from a limiter with these tokens and this time. */
  datatype Event = Polled(now: real) | TokensAdded(amount: nat) | TokensCopied(tokens: nat, last: real)

  function Do(limit: nat, b: Bucket, e: Event): Polling
  {
    match e
    case Polled(now) => Poll(limit, b, now)
    case TokensAdded(amount) => Polling(b.(tokens := Plus(limit, b.tokens, amount)), 0)
    case TokensCopied(tokens, last) => Polling(Bucket(Plus(limit, b.tokens, tokens), last), 0)
  }

  function Init(events: seq<Event>): seq<Event>
    requires events != []
  {
    events[..|events| - 1]
  }

  function Last(events: seq<Event>): Event
    requires events != []
  {
    events[|events| - 1]
  }

  function After(limit: nat, b: Bucket, events: seq<Event>): Bucket
  {
    if events == [] then b else Do(limit, After(limit, b, Init(events)), Last(events)).bucket
  }

  /** A run in which no pass comes before the last refill. */
  predicate IsRun(limit: nat, b: Bucket, events: seq<Event>)
  {
    events == [] ||
    (IsRun(limit, b, Init(events)) &&
     (Last(events).Polled? ==> After(limit, b, Init(events)).lastRefill <= Last(events).now))
  }

  function HandedOut(limit: nat, b: Bucket, events: seq<Event>): int
  {
    if events == [] then 0
    else HandedOut(limit, b, Init(events)) + Do(limit, After(limit, b, Init(events)), Last(events)).amount
  }

  /** What an event offers the bucket: what has accumulated, or the tokens given. */
  function Offered(limit: nat, b: Bucket, e: Event): int
  {
    match e
    case Polled(now) => NewTokens(limit, b, now)
    case TokensAdded(amount) => amount
    case TokensCopied(tokens, _) => tokens
  }

  /** Of what is offered, as much as there is room for comes in. */
  function Added(limit: nat, b: Bucket, events: seq<Event>): int
  {
    if events == [] then 0
    else
      var before := After(limit, b, Init(events));
      var offered, room := Offered(limit, before, Last(events)), limit - before.tokens;
      Added(limit, b, Init(events)) + if offered < room then offered else room
  }

  lemma DoInBounds(limit: nat, b: Bucket, e: Event)
    requires IsLimit(limit) && InBounds(limit, b) && (e.Polled? ==> b.lastRefill <= e.now)
    ensures InBounds(limit, Do(limit, b, e).bucket) && Do(limit, b, e).amount >= 0
    ensures var offered, room := Offered(limit, b, e), limit - b.tokens;
            Do(limit, b, e).amount + Do(limit, b, e).bucket.tokens == b.tokens + (if offered < room then offered else room)
  {
    if e.Polled? {
      PollInBounds(limit, b, e.now);
      NewTokensAtMost(limit, b, e.now);
    }
  }

  /** Tokens are conserved and the bucket stays within its bounds over every run. */
  lemma {:induction false} RunConserves(limit: nat, b: Bucket, events: seq<Event>)
    requires IsLimit(limit) && InBounds(limit, b) && IsRun(limit, b, events)
    ensures HandedOut(limit, b, events) + After(limit, b, events).tokens == b.tokens + Added(limit, b, events)
    ensures InBounds(limit, After(limit, b, events)) && HandedOut(limit, b, events) >= 0
  {
    if events != [] {
      RunConserves(limit, b, Init(events));
      DoInBounds(limit, After(limit, b, Init(events)), Last(events));
    }
  }

  // ---------------------------------------------------------------- windows

  /** Passes at times from s to t, one after the other, on a bucket last refilled before. */
  predicate IsWindow(limit: nat, b: Bucket, events: seq<Event>, s: real, t: real)
  {
    && b.lastRefill <= s <= t && IsRun(limit, b, events)
    && forall i :: 0 <= i < |events| ==> events[i].Polled? && s <= events[i].now <= t
  }

  lemma InitIsWindow(limit: nat, b: Bucket, events: seq<Event>, s: real, t: real)
    requires IsWindow(limit, b, events, s, t) && events != []
    ensures IsWindow(limit, b, Init(events), s, t)
    ensures Last(events).Polled? && s <= Last(events).now <= t && After(limit, b, Init(events)).lastRefill <= Last(events).now
  {
    assert forall i :: 0 <= i < |Init(events)| ==> Init(events)[i] == events[i];
  }

  /**
   Where a window that starts at time s stands: nothing handed out yet; one chunk handed out of a full
   bucket, whose time is still that of before the window; or refilled within the window, in which at most
   accrued tokens can have come since the first refill.
   */
  predicate WindowOk(limit: nat, s: real, handed: int, b: Bucket, accrued: real)
  {
    && InBounds(limit, b)
    && if b.lastRefill <= s && handed == 0 then true
       else if b.lastRefill < s then 0 <= handed <= MaxChunk(limit) && b.tokens < limit
       else (handed + b.tokens) as real <= (limit + MaxChunk(limit)) as real + accrued
  }

  /** One pass: b is refilled to r, then tokens are taken. */
  lemma WindowTake(limit: nat, s: real, handed: int, b: Bucket, r: Bucket, accrued: real, accrued': real)
    requires IsLimit(limit) && WindowOk(limit, s, handed, b, accrued) && handed >= 0 && InBounds(limit, r)
    requires if b.tokens == limit then r == b && accrued' == accrued else s <= r.lastRefill
    requires b.lastRefill >= s ==> (r.tokens - b.tokens) as real + accrued <= accrued'
    requires 0.0 <= accrued'
    ensures WindowOk(limit, s, handed + Take(limit, r).amount, Take(limit, r).bucket, accrued')
  {
  }

  /** Allowance since the window began, up to the last refill. */
  function Accrued(limit: nat, s: real, b: Bucket): real
  {
    Allowance(limit, b.lastRefill - s)
  }

  lemma AccruedGrows(limit: nat, s: real, b: Bucket, now: real)
    requires InBounds(limit, b) && b.lastRefill <= now && s <= now
    ensures var r := Refilled(limit, b, now);
            && (b.lastRefill >= s ==> (r.tokens - b.tokens) as real + Accrued(limit, s, b) <= Accrued(limit, s, r))
            && (r.lastRefill >= s ==> 0.0 <= Accrued(limit, s, r))
  {
    RefilledInBounds(limit, b, now);
    var r := Refilled(limit, b, now);
    if b.tokens != limit {
      AllowanceAdds(limit, b.lastRefill - s, now - b.lastRefill);
      assert (b.lastRefill - s) + (now - b.lastRefill) == r.lastRefill - s;
    }
    if r.lastRefill >= s { AllowanceGrows(limit, 0.0, r.lastRefill - s); }
  }

  function Larger(x: real, y: real): real
  {
    if x < y then y else x
  }

  function Since(limit: nat, s: real, b: Bucket): real
  {
    Larger(0.0, Accrued(limit, s, b))
  }

  lemma SinceGrows(limit: nat, s: real, b: Bucket, now: real)
    requires InBounds(limit, b) && b.lastRefill <= now && s <= now
    ensures var r := Refilled(limit, b, now);
            && InBounds(limit, r)
            && (if b.tokens == limit then r == b else s <= r.lastRefill)
            && (b.lastRefill >= s ==> (r.tokens - b.tokens) as real + Since(limit, s, b) <= Since(limit, s, r))
            && 0.0 <= Since(limit, s, r)
  {
    AccruedGrows(limit, s, b, now);
    RefilledInBounds(limit, b, now);
    if b.lastRefill >= s { AllowanceGrows(limit, 0.0, b.lastRefill - s); }
  }

  lemma WindowPoll(limit: nat, s: real, handed: int, b: Bucket, now: real, accrued: real) returns (accrued': real)
    requires IsLimit(limit) && WindowOk(limit, s, handed, b, accrued) && handed >= 0 && accrued == Since(limit, s, b)
    requires s <= now && b.lastRefill <= now
    ensures WindowOk(limit, s, handed + Poll(limit, b, now).amount, Poll(limit, b, now).bucket, accrued')
    ensures accrued' == Since(limit, s, Poll(limit, b, now).bucket)
  {
    SinceGrows(limit, s, b, now);
    var r := Refilled(limit, b, now);
    accrued' := Since(limit, s, r);
    WindowTake(limit, s, handed, b, r, accrued, accrued');
    assert Take(limit, r).bucket.lastRefill == r.lastRefill;
  }

  lemma {:induction false} WindowRun(limit: nat, b: Bucket, events: seq<Event>, s: real, t: real) returns (accrued: real)
    requires IsLimit(limit) && InBounds(limit, b) && IsWindow(limit, b, events, s, t)
    ensures WindowOk(limit, s, HandedOut(limit, b, events), After(limit, b, events), accrued)
    ensures accrued == Since(limit, s, After(limit, b, events)) && After(limit, b, events).lastRefill <= t
  {
    if events == [] {
      accrued := Since(limit, s, b);
    } else {
      InitIsWindow(limit, b, events, s, t);
      var before := After(limit, b, Init(events));
      accrued := WindowRun(limit, b, Init(events), s, t);
      RunConserves(limit, b, Init(events));
      PollInBounds(limit, before, Last(events).now);
      accrued := WindowPoll(limit, s, HandedOut(limit, b, Init(events)), before, Last(events).now, accrued);
    }
  }

  lemma SinceAtMost(limit: nat, s: real, b: Bucket, t: real)
    requires b.lastRefill <= t && s <= t
    ensures Since(limit, s, b) <= Allowance(limit, t - s) && 0.0 <= Allowance(limit, t - s)
  {
    AllowanceGrows(limit, 0.0, t - s);
    AllowanceGrows(limit, b.lastRefill - s, t - s);
  }

  lemma WindowEnds(limit: nat, s: real, handed: int, b: Bucket, accrued: real, allowed: real)
    requires WindowOk(limit, s, handed, b, accrued) && accrued <= allowed && 0.0 <= allowed
    ensures handed as real <= (limit + MaxChunk(limit)) as real + allowed
  {
  }

  /**
   In any window from s to t at most limit + max_chunk + limit * (t - s) tokens are handed out; the extra
   chunk is what a bucket that was full when the window began gives away without its time moving.
   */
  lemma WindowBound(limit: nat, b: Bucket, events: seq<Event>, s: real, t: real)
    requires IsLimit(limit) && InBounds(limit, b) && IsWindow(limit, b, events, s, t)
    ensures HandedOut(limit, b, events) as real <= (limit + MaxChunk(limit)) as real + Allowance(limit, t - s)
  {
    var accrued := WindowRun(limit, b, events, s, t);
    SinceAtMost(limit, s, After(limit, b, events), t);
    WindowEnds(limit, s, HandedOut(limit, b, events), After(limit, b, events), accrued, Allowance(limit, t - s));
  }

  /** A run continued from where it has come to. */
  lemma {:induction false} RunContinues(limit: nat, b: Bucket, first: seq<Event>, second: seq<Event>)
    ensures After(limit, b, first + second) == After(limit, After(limit, b, first), second)
    ensures HandedOut(limit, b, first + second) ==
            HandedOut(limit, b, first) + HandedOut(limit, After(limit, b, first), second)
    ensures IsRun(limit, b, first + second) <==> IsRun(limit, b, first) && IsRun(limit, After(limit, b, first), second)
    decreases |second|
  {
    if second == [] {
      assert first + second == first;
    } else {
      RunContinues(limit, b, first, Init(second));
      assert Init(first + second) == first + Init(second) && Last(first + second) == Last(second);
    }
  }

  /**
   After any run, with tokens added and copied in it, whatever the passes of a window hand out stays within
   the bound.
   */
  lemma AnyWindowBound(limit: nat, b: Bucket, first: seq<Event>, window: seq<Event>, s: real, t: real)
    requires IsLimit(limit) && InBounds(limit, b) && IsRun(limit, b, first + window)
    requires After(limit, b, first).lastRefill <= s <= t
    requires forall k :: 0 <= k < |window| ==> window[k].Polled? && s <= window[k].now <= t
    ensures (HandedOut(limit, b, first + window) - HandedOut(limit, b, first)) as real <=
            (limit + MaxChunk(limit)) as real + Allowance(limit, t - s)
  {
    RunContinues(limit, b, first, window);
    RunConserves(limit, b, first);
    WindowBound(limit, After(limit, b, first), window, s, t);
  }

  // ---------------------------------------------------------------- windows without the extra chunk

  /** Where a window stands that began with a bucket that was not full, or whose time was that of the beginning. */
  predicate StrictOk(limit: nat, s: real, handed: int, b: Bucket, accrued: real)
  {
    && InBounds(limit, b)
    && if b.lastRefill < s then handed == 0 && b.tokens < limit
       else (handed + b.tokens) as real <= limit as real + accrued
  }

  lemma StrictTake(limit: nat, s: real, handed: int, b: Bucket, r: Bucket, accrued: real, accrued': real)
    requires IsLimit(limit) && StrictOk(limit, s, handed, b, accrued) && InBounds(limit, r)
    requires if b.tokens == limit then r == b && accrued' == accrued else s <= r.lastRefill
    requires b.lastRefill >= s ==> (r.tokens - b.tokens) as real + accrued <= accrued'
    requires 0.0 <= accrued'
    ensures StrictOk(limit, s, handed + Take(limit, r).amount, Take(limit, r).bucket, accrued')
  {
  }

  lemma StrictPoll(limit: nat, s: real, handed: int, b: Bucket, now: real, accrued: real) returns (accrued': real)
    requires IsLimit(limit) && StrictOk(limit, s, handed, b, accrued) && accrued == Since(limit, s, b)
    requires s <= now && b.lastRefill <= now
    ensures StrictOk(limit, s, handed + Poll(limit, b, now).amount, Poll(limit, b, now).bucket, accrued')
    ensures accrued' == Since(limit, s, Poll(limit, b, now).bucket)
  {
    SinceGrows(limit, s, b, now);
    var r := Refilled(limit, b, now);
    accrued' := Since(limit, s, r);
    StrictTake(limit, s, handed, b, r, accrued, accrued');
    assert Take(limit, r).bucket.lastRefill == r.lastRefill;
  }

  lemma {:induction false} StrictRun(limit: nat, b: Bucket, events: seq<Event>, s: real, t: real) returns (accrued: real)
    requires IsLimit(limit) && InBounds(limit, b) && IsWindow(limit, b, events, s, t)
    requires b.tokens < limit || b.lastRefill == s
    ensures StrictOk(limit, s, HandedOut(limit, b, events), After(limit, b, events), accrued)
    ensures accrued == Since(limit, s, After(limit, b, events)) && After(limit, b, events).lastRefill <= t
  {
    if events == [] {
      accrued := Since(limit, s, b);
    } else {
      InitIsWindow(limit, b, events, s, t);
      var before := After(limit, b, Init(events));
      accrued := StrictRun(limit, b, Init(events), s, t);
      PollInBounds(limit, before, Last(events).now);
      accrued := StrictPoll(limit, s, HandedOut(limit, b, Init(events)), before, Last(events).now, accrued);
    }
  }

  lemma StrictEnds(limit: nat, s: real, handed: int, b: Bucket, accrued: real, allowed: real)
    requires StrictOk(limit, s, handed, b, accrued) && accrued <= allowed && 0.0 <= allowed
    ensures handed as real <= limit as real + allowed
  {
  }

  /** No extra chunk, when the bucket is not full as the window begins or was refilled at that very time. */
  lemma WindowWithinLimit(limit: nat, b: Bucket, events: seq<Event>, s: real, t: real)
    requires IsLimit(limit) && InBounds(limit, b) && IsWindow(limit, b, events, s, t)
    requires b.tokens < limit || b.lastRefill == s
    ensures HandedOut(limit, b, events) as real <= limit as real + Allowance(limit, t - s)
  {
    var accrued := StrictRun(limit, b, events, s, t);
    SinceAtMost(limit, s, After(limit, b, events), t);
    StrictEnds(limit, s, HandedOut(limit, b, events), After(limit, b, events), accrued, Allowance(limit, t - s));
  }

  lemma OnePass(limit: nat, b: Bucket, s: real)
    requires b.lastRefill <= s
    ensures IsWindow(limit, b, [Polled(s)], s, s)
    ensures After(limit, b, [Polled(s)]) == Poll(limit, b, s).bucket && HandedOut(limit, b, [Polled(s)]) == Poll(limit, b, s).amount
  {
    assert Init([Polled(s)]) == [];
  }

  /** A pass in front of a window at one time. */
  lemma PassFirst(limit: nat, b: Bucket, s: real, rest: seq<Event>)
    requires b.lastRefill <= s && IsWindow(limit, Poll(limit, b, s).bucket, rest, s, s)
    ensures IsWindow(limit, b, [Polled(s)] + rest, s, s)
    ensures HandedOut(limit, b, [Polled(s)] + rest) == Poll(limit, b, s).amount + HandedOut(limit, Poll(limit, b, s).bucket, rest)
  {
    OnePass(limit, b, s);
    RunContinues(limit, b, [Polled(s)], rest);
  }

  lemma NothingNew(limit: nat, b: Bucket, now: real)
    requires InBounds(limit, b) && b.lastRefill == now
    ensures Refilled(limit, b, now) == b
  {
    assert now - b.lastRefill == 0.0;
  }

  /** Passes that come all at once empty the bucket to less than the smallest chunk. */
  lemma {:induction false} Drain(limit: nat, b: Bucket, s: real) returns (events: seq<Event>)
    requires IsLimit(limit) && InBounds(limit, b) && b.lastRefill == s
    ensures IsWindow(limit, b, events, s, s) && HandedOut(limit, b, events) > b.tokens - MinChunk(limit)
    decreases b.tokens
  {
    events := [];
    if b.tokens >= MinChunk(limit) {
      NothingNew(limit, b, s);
      var rest := Drain(limit, Poll(limit, b, s).bucket, s);
      PassFirst(limit, b, s, rest);
      events := [Polled(s)] + rest;
    }
  }

  /** One pass takes a chunk out of a full bucket; a second before its time is what refills it. */
  lemma SecondPassIsFull(limit: nat, b: Bucket, s: real)
    requires IsLimit(limit) && b.tokens == limit && b.lastRefill + 1.0 <= s
    ensures Poll(limit, b, s) == Polling(Bucket(limit - MaxChunk(limit), b.lastRefill), MaxChunk(limit))
    ensures Refilled(limit, Poll(limit, b, s).bucket, s) == Bucket(limit, s)
  {
    ProductAtLeast(MaxChunk(limit) as real, s - b.lastRefill, 1.0);
  }

  /** A full bucket that has been idle for a second gives almost the largest chunk more than the limit at one time. */
  lemma FullBucketGivesMore(limit: nat, b: Bucket, s: real) returns (events: seq<Event>)
    requires IsLimit(limit) && b.tokens == limit && b.lastRefill + 1.0 <= s
    ensures IsWindow(limit, b, events, s, s) && HandedOut(limit, b, events) > limit + MaxChunk(limit) - MinChunk(limit)
  {
    SecondPassIsFull(limit, b, s);
    var low := Poll(limit, b, s).bucket;
    var next := Poll(limit, low, s);
    NothingNew(limit, next.bucket, s);
    var rest := Drain(limit, next.bucket, s);
    PassFirst(limit, low, s, rest);
    PassFirst(limit, b, s, [Polled(s)] + rest);
    events := [Polled(s)] + ([Polled(s)] + rest);
  }

  /** A bucket hands out no more than limit + limit * (t - s) in every window after it. */
  ghost predicate KeepsWithinLimit(limit: nat, b: Bucket)
  {
    forall events, s, t :: IsWindow(limit, b, events, s, t) ==>
      HandedOut(limit, b, events) as real <= limit as real + Allowance(limit, t - s)
  }

  /** It does so exactly when it is not full. */
  lemma WithinLimitExactly(limit: nat, b: Bucket)
    requires IsLimit(limit) && InBounds(limit, b)
    ensures KeepsWithinLimit(limit, b) <==> b.tokens < limit
  {
    if b.tokens < limit {
      forall events, s, t | IsWindow(limit, b, events, s, t)
        ensures HandedOut(limit, b, events) as real <= limit as real + Allowance(limit, t - s)
      {
        WindowWithinLimit(limit, b, events, s, t);
      }
    } else {
      var s := b.lastRefill + 1.0;
      var events := FullBucketGivesMore(limit, b, s);
      assert Allowance(limit, s - s) == 0.0;
    }
  }

  lemma OneMorePoll(limit: nat, b: Bucket, events: seq<Event>, now: real)
    requires IsRun(limit, b, events)
    ensures var p := Poll(limit, After(limit, b, events), now);
            After(limit, b, events + [Polled(now)]) == p.bucket &&
            HandedOut(limit, b, events + [Polled(now)]) == HandedOut(limit, b, events) + p.amount
    ensures After(limit, b, events).lastRefill <= now ==> IsRun(limit, b, events + [Polled(now)])
  {
    assert Init(events + [Polled(now)]) == events;
  }

  /** The bound with the extra chunk is reached. */
  lemma WindowBoundIsTight() returns (events: seq<Event>)
    ensures IsWindow(1024, Bucket(1024, 0.0), events, 100.0, 100.0)
    ensures HandedOut(1024, Bucket(1024, 0.0), events) == 1024 + MaxChunk(1024)
  {
    events := [];
    while |events| < 9
      invariant |events| <= 9 && IsRun(1024, Bucket(1024, 0.0), events)
      invariant forall i :: 0 <= i < |events| ==> events[i] == Polled(100.0)
      invariant HandedOut(1024, Bucket(1024, 0.0), events) == 128 * |events|
      invariant After(1024, Bucket(1024, 0.0), events) ==
                if |events| == 0 then Bucket(1024, 0.0)
                else if |events| == 1 then Bucket(896, 0.0) else Bucket(1024 - 128 * (|events| - 1), 100.0)
    {
      OneMorePoll(1024, Bucket(1024, 0.0), events, 100.0);
      events := events + [Polled(100.0)];
    }
  }

  // ---------------------------------------------------------------- the limiter object

  class LimitedRateLimiter {
    const limitBps: nat
    var bucket: int
    var lastRefill: real
    const minChunkSize: int
    const maxChunkSize: int

    constructor (limitKbps: nat)
      requires limitKbps > 0
      ensures limitBps == limitKbps * 1024 && View() == Bucket(0, 0.0) && Valid()
    {
      limitBps := limitKbps * 1024;
      bucket := 0;
      lastRefill := 0.0;
      minChunkSize := Clamp(limitKbps * 1024 / 100);
      maxChunkSize := Clamp(limitKbps * 1024 / 10);
    }

    function View(): Bucket
      reads this
    {
      Bucket(bucket, lastRefill)
    }

    ghost predicate Valid()
      reads this
    {
      && IsLimit(limitBps) && InBounds(limitBps, View())
      && minChunkSize == MinChunk(limitBps) && maxChunkSize == MaxChunk(limitBps)
    }

    method AddTokens(amount: nat)
      requires Valid()
      modifies this`bucket
      ensures Valid() && View() == Do(limitBps, old(View()), TokensAdded(amount)).bucket
      ensures bucket == if old(bucket) + amount < limitBps then old(bucket) + amount else limitBps
    {
      bucket := bucket + amount;
      if bucket > limitBps {
        bucket := limitBps;
      }
    }

    /** The tokens of another limiter, for a limit that has changed: they may exceed the new limit. */
    method CopyTokens(tokens: nat, last: real)
      requires Valid()
      modifies this
      ensures Valid() && View() == Do(limitBps, old(View()), TokensCopied(tokens, last)).bucket
      ensures bucket == (if old(bucket) + tokens < limitBps then old(bucket) + tokens else limitBps) && lastRefill == last
    {
      AddTokens(tokens);
      lastRefill := last;
    }

    method Refill(now: real) returns (isEmpty: bool)
      requires Valid() && lastRefill <= now
      modifies this
      ensures Valid() && View() == Refilled(limitBps, old(View()), now)
      ensures old(bucket) != limitBps ==> (isEmpty <==> bucket < MIN_CHUNK_SIZE)
    {
      if limitBps == bucket {
        return false;
      }
      NewTokensAtMost(limitBps, View(), now);
      if bucket < limitBps {
        AddTokens(NewTokens(limitBps, View(), now));
      }
      lastRefill := now;
      return bucket < MIN_CHUNK_SIZE;
    }

    /** One pass of the loop of take_tokens; no tokens stand for another pass after a pause. */
    method Pass(now: real) returns (amount: int)
      requires Valid() && lastRefill <= now
      modifies this
      ensures Valid() && Polling(View(), amount) == Poll(limitBps, old(View()), now)
      ensures amount != 0 ==> amount == maxChunkSize || (bucket == 0 && minChunkSize <= amount < maxChunkSize)
    {
      var _ := Refill(now);
      if bucket >= minChunkSize {
        amount := if bucket < maxChunkSize then bucket else maxChunkSize;
        bucket := bucket - amount;
      } else {
        amount := 0;
      }
    }

    /**
     take_tokens, with the lock held: clock(k) is the time of the k-th pass of the loop. When the passes are
     at least an interval apart, the seventeenth at the latest finds enough tokens.
     */
    method TakeTokens(clock: nat -> real) returns (amount: int, passes: nat)
      requires Valid() && lastRefill <= clock(0)
      requires forall k: nat :: clock(k) + INTERVAL <= clock(k + 1)
      modifies this
      ensures Valid() && minChunkSize <= amount <= maxChunkSize
      ensures amount == maxChunkSize || bucket == 0
      ensures 1 <= passes <= 17
      ensures var polls := Passes(clock, passes);
              View() == After(limitBps, old(View()), polls) && amount == HandedOut(limitBps, old(View()), polls)
    {
      amount, passes := 0, 0;
      while amount == 0
        invariant Valid() && passes <= 17 && (amount == 0 || minChunkSize <= amount <= maxChunkSize)
        invariant amount == 0 || amount == maxChunkSize || bucket == 0
        invariant IsRun(limitBps, old(View()), Passes(clock, passes))
        invariant View() == After(limitBps, old(View()), Passes(clock, passes))
        invariant amount == HandedOut(limitBps, old(View()), Passes(clock, passes))
        invariant if passes == 0 then amount == 0 && lastRefill <= clock(0)
                  else amount == 0 ==> lastRefill == clock(passes - 1) && bucket < minChunkSize
        invariant amount == 0 ==> 16 * bucket >= Due(passes, minChunkSize)
        decreases 17 - passes, amount == 0
      {
        ghost var before := View();
        if passes > 0 { NotYetDue(passes, minChunkSize, bucket); }
        if passes > 0 { PassGains(limitBps, before, clock(passes)); }
        PollInBounds(limitBps, before, clock(passes));
        amount := Pass(clock(passes));
        OneMorePoll(limitBps, old(View()), Passes(clock, passes), clock(passes));
        MorePasses(clock, passes);
        passes := passes + 1;
      }
    }
  }

  function Passes(clock: nat -> real, n: nat): seq<Event>
  {
    seq(n, k requires 0 <= k < n => Polled(clock(k)))
  }

  lemma MorePasses(clock: nat -> real, n: nat)
    ensures Passes(clock, n + 1) == Passes(clock, n) + [Polled(clock(n))]
  {
  }

  /** What 16 times the bucket has come to after n passes. */
  function Due(n: nat, chunk: int): int
  {
    if n == 0 then -chunk else Due(n - 1, chunk) + chunk
  }

  lemma {:induction false} DueIs(n: nat, chunk: int)
    ensures Due(n, chunk) == (n - 1) * chunk
  {
    if n > 0 {
      DueIs(n - 1, chunk);
    }
  }

  lemma NotYetDue(n: nat, chunk: int, tokens: int)
    requires n <= 17 && 16 * tokens >= Due(n, chunk) && tokens < chunk
    ensures n < 17
  {
    DueIs(n, chunk);
  }

  /** A pass that comes an interval after the last one and finds too little has gained a sixteenth of a chunk. */
  lemma PassGains(limit: nat, b: Bucket, now: real)
    requires IsLimit(limit) && 0 <= b.tokens < MinChunk(limit) && now - b.lastRefill >= INTERVAL
    ensures var p := Poll(limit, b, now);
            p.amount == 0 ==>
              16 * p.bucket.tokens >= 16 * b.tokens + MinChunk(limit) && p.bucket.tokens < MinChunk(limit) && p.bucket.lastRefill == now
  {
    NewTokensAtLeast(limit, b, now);
  }
}
