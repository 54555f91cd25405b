/** The registered-satellite cache against the table it speeds up
    (backend/src/ingestion/registry.py). */
module SatelliteRegistry {
  import opened Basics

  const REFRESH: Time := 30 * SECOND
  const NEGATIVE_TTL: Time := 10 * SECOND
  const MAX_LOOKUPS: nat := 20
  const MAX_NEGATIVE_ENTRIES: nat := 10_000

  /** Which ids the satellites table holds at each instant: arbitrary. */
  type Rows = Time -> set<string>

  /** A targeted query: when it was sent, and what it found. */
  datatype Lookup = Lookup(id: string, sent: Time, found: bool)

  /** The satellites table and the clock.  It logs the queries it is sent. */
  class SatelliteTable {
    const rows: Rows
    var now: Time
    /** The targeted queries. */
    ghost var lookups: seq<Lookup>
    /** When each query for all ids was answered. */
    ghost var reloads: seq<Time>

    constructor (rows: Rows, now: Time)
      ensures this.rows == rows && this.now == now && lookups == [] && reloads == []
    {
      this.rows, this.now := rows, now;
      lookups, reloads := [], [];
    }

    /** Time passes. */
    method Wait()
      modifies `now
      ensures old(now) <= now
    {
      var d: int := *;
      if d > 0 {
        now := now + d;
      }
    }

    /** SELECT id FROM satellites */
    method SelectIds() returns (ids: set<string>)
      modifies `now, `reloads
      ensures old(now) <= now && ids == rows(now) && reloads == old(reloads) + [now]
    {
      Wait();
      ids := rows(now);
      reloads := reloads + [now];
    }

    /** SELECT EXISTS (SELECT 1 FROM satellites WHERE id = $1) */
    method Exists(id: string) returns (found: bool)
      modifies `now, `lookups
      ensures old(now) <= now && found == (id in rows(now))
      ensures lookups == old(lookups) + [Lookup(id, old(now), found)]
    {
      ghost var sent := now;
      Wait();
      found := id in rows(now);
      lookups := lookups + [Lookup(id, sent, found)];
    }
  }

  ghost predicate RegisteredWithin(rows: Rows, id: string, lo: Time, hi: Time) {
    exists t :: lo <= t <= hi && id in rows(t)
  }

  ghost predicate AbsentWithin(rows: Rows, id: string, lo: Time, hi: Time) {
    exists t :: lo <= t <= hi && id !in rows(t)
  }

  // ---------------------------------------------------------------------
  // Rate windows
  // ---------------------------------------------------------------------

  /** One rate window: its start and when its targeted queries were sent. */
  datatype Window = Window(start: Time, sent: seq<Time>)

  /** At most 20 queries, none before the start; all but the last go out within
      the window's second (a reload can delay the query of its own call). */
  ghost predicate WindowValid(w: Window) {
    && |w.sent| <= MAX_LOOKUPS
    && (forall k :: 0 <= k < |w.sent| ==> w.start <= w.sent[k])
    && (forall k :: 0 <= k < |w.sent| - 1 ==> w.sent[k] < w.start + SECOND)
  }

  ghost predicate SentBy(w: Window, t: Time) {
    forall k :: 0 <= k < |w.sent| ==> w.sent[k] <= t
  }

  /** Windows are a second or more apart, and what one sends is sent before the next starts. */
  ghost predicate WindowsValid(ws: seq<Window>) {
    && (forall i :: 0 <= i < |ws| ==> WindowValid(ws[i]))
    && (forall i, j :: 0 <= i < j < |ws| ==> ws[i].start + SECOND <= ws[j].start)
    && (forall i, j :: 0 <= i < j < |ws| ==> SentBy(ws[i], ws[j].start))
  }

  /** All queries of all windows, in order. */
  ghost function AllSent(ws: seq<Window>): seq<Time> {
    if ws == [] then [] else AllSent(ws[..|ws| - 1]) + ws[|ws| - 1].sent
  }

  ghost function Times(log: seq<Lookup>): seq<Time> {
    if log == [] then [] else Times(log[..|log| - 1]) + [log[|log| - 1].sent]
  }

  /** One more query in the current window. */
  ghost function WithLookup(ws: seq<Window>, sent: Time): seq<Window>
    requires ws != []
  {
    var last := |ws| - 1;
    ws[..last] + [Window(ws[last].start, ws[last].sent + [sent])]
  }

  lemma SentLater(w: Window, t: Time, u: Time)
    requires SentBy(w, t) && t <= u
    ensures SentBy(w, u)
  {
  }

  lemma WindowOpened(ws: seq<Window>, now: Time)
    requires WindowsValid(ws) && ws != [] && ws[|ws| - 1].start + SECOND <= now && SentBy(ws[|ws| - 1], now)
    ensures WindowsValid(ws + [Window(now, [])]) && AllSent(ws + [Window(now, [])]) == AllSent(ws)
    ensures SentBy(Window(now, []), now)
  {
    AllBefore(ws, now);
    hide SentBy;
    assert WindowValid(Window(now, [])) && SentBy(Window(now, []), now) by { NothingSent(now); }
    hide WindowValid;
    assert (ws + [Window(now, [])])[..|ws|] == ws;
  }

  lemma NothingSent(now: Time)
    ensures WindowValid(Window(now, [])) && SentBy(Window(now, []), now)
  {
  }

  lemma AllBefore(ws: seq<Window>, now: Time)
    requires WindowsValid(ws) && ws != [] && ws[|ws| - 1].start + SECOND <= now && SentBy(ws[|ws| - 1], now)
    ensures forall i :: 0 <= i < |ws| ==> ws[i].start + SECOND <= now && SentBy(ws[i], now)
  {
    hide SentBy, WindowValid;
    var last := |ws| - 1;
    forall i | 0 <= i < |ws| ensures ws[i].start + SECOND <= now && SentBy(ws[i], now) {
      if i < last { SentLater(ws[i], ws[last].start, now); }
    }
  }

  lemma OneMoreSent(w: Window, now: Time, sent: Time)
    requires WindowValid(w) && |w.sent| < MAX_LOOKUPS && SentBy(w, now) && w.start <= now < w.start + SECOND && now <= sent
    ensures WindowValid(Window(w.start, w.sent + [sent])) && SentBy(Window(w.start, w.sent + [sent]), sent)
  {
  }

  lemma LookupAdded(ws: seq<Window>, now: Time, sent: Time)
    requires WindowsValid(ws) && ws != [] && |ws[|ws| - 1].sent| < MAX_LOOKUPS && SentBy(ws[|ws| - 1], now)
    requires ws[|ws| - 1].start <= now < ws[|ws| - 1].start + SECOND && now <= sent
    ensures var vs := WithLookup(ws, sent);
            WindowsValid(vs) && AllSent(vs) == AllSent(ws) + [sent] && SentBy(vs[|vs| - 1], sent)
  {
    var vs, last := WithLookup(ws, sent), |ws| - 1;
    assert WindowValid(ws[last]);
    OneMoreSent(ws[last], now, sent);
    hide SentBy, WindowValid;
    assert forall i :: 0 <= i < |ws| ==> vs[i].start == ws[i].start && (i < last ==> vs[i] == ws[i]);
    assert vs[..last] == ws[..last];
  }

  lemma TimesGrow(log: seq<Lookup>, l: Lookup)
    ensures Times(log + [l]) == Times(log) + [l.sent]
  {
    assert (log + [l])[..|log|] == log;
  }

  // ---------------------------------------------------------------------
  // The cache
  // ---------------------------------------------------------------------

  /** The negative entries with one more, which clears them first when there are too many. */
  function WithNegative(unknown: map<string, Time>, id: string, now: Time): map<string, Time> {
    (if |unknown| >= MAX_NEGATIVE_ENTRIES then map[] else unknown)[id := now + NEGATIVE_TTL]
  }

  /** All these ids were registered at an instant from lo to hi. */
  ghost predicate AllRegistered(rows: Rows, known: set<string>, lo: Time, hi: Time) {
    forall id :: id in known ==> RegisteredWithin(rows, id, lo, hi)
  }

  /** All these ids were absent at an instant of the 10 s before their entry ends. */
  ghost predicate AllAbsent(rows: Rows, unknown: map<string, Time>, hi: Time) {
    forall id :: id in unknown ==> AbsentWithin(rows, id, unknown[id] - NEGATIVE_TTL, hi)
  }

  lemma OneMoreRegistered(rows: Rows, known: set<string>, lo: Time, hi: Time, id: string)
    requires AllRegistered(rows, known, lo, hi) && id in rows(hi) && lo <= hi
    ensures AllRegistered(rows, known + {id}, lo, hi)
  {
    assert RegisteredWithin(rows, id, lo, hi);
    hide RegisteredWithin;
  }

  lemma OneMoreAbsent(rows: Rows, unknown: map<string, Time>, id: string, now: Time, hi: Time)
    requires AllAbsent(rows, unknown, hi) && id !in rows(hi) && now <= hi
    ensures AllAbsent(rows, WithNegative(unknown, id, now), hi)
  {
    assert AbsentWithin(rows, id, now, hi);
    hide AbsentWithin;
  }

  lemma WithNegativeFits(unknown: map<string, Time>, id: string, now: Time)
    requires |unknown| <= MAX_NEGATIVE_ENTRIES
    ensures |WithNegative(unknown, id, now)| <= MAX_NEGATIVE_ENTRIES
  {
    assert unknown[id := now + NEGATIVE_TTL].Keys == unknown.Keys + {id};
  }

  class SatelliteRegistry {
    const db: SatelliteTable
    var known: set<string>
    var expires: Time
    var unknown: map<string, Time>
    var windowStart: Time
    var windowLookups: nat
    /** The end of the latest call. */
    ghost var clock: Time
    /** Every rate window so far, the current one last. */
    ghost var windows: seq<Window>

    /** What the cache claims was true recently enough, and no later than `hi`. */
    ghost predicate Truthful(hi: Time)
      reads `known, `expires, `unknown
    {
      && expires - REFRESH <= hi && AllRegistered(db.rows, known, expires - REFRESH, hi)
      && AllAbsent(db.rows, unknown, hi) && |unknown| <= MAX_NEGATIVE_ENTRIES
    }

    /** The windows hold exactly the targeted queries that the table was sent. */
    ghost predicate Recorded()
      reads `windows, db`lookups
    {
      windows != [] && WindowsValid(windows) && AllSent(windows) == Times(db.lookups)
    }

    /** The current window started by now, and sent nothing later. */
    ghost predicate Current(hi: Time)
      reads `windows, `windowStart
    {
      windows != [] && windows[|windows| - 1].start == windowStart <= hi && SentBy(windows[|windows| - 1], hi)
    }

    /** The queries of the current window, as the registry counts its attempts. */
    ghost predicate Counted()
      reads `windows, `windowLookups
    {
      windows != []
      && |windows[|windows| - 1].sent| == (if windowLookups < MAX_LOOKUPS then windowLookups else MAX_LOOKUPS)
    }

    ghost predicate Valid()
      reads this, db`lookups
    {
      Truthful(clock) && Recorded() && Current(clock) && Counted()
    }

    /** Is a targeted query left in the window that `now` falls in? */
    predicate Allowed(now: Time)
      reads `windowStart, `windowLookups
    {
      now - windowStart >= SECOND || windowLookups < MAX_LOOKUPS
    }

    lemma TruthStays(lo: Time, hi: Time)
      requires Truthful(lo) && lo <= hi
      ensures Truthful(hi)
    {
    }

    lemma KnownIsRecent(id: string, now: Time, hi: Time)
      requires Truthful(hi) && id in known && now < expires
      ensures RegisteredWithin(db.rows, id, now - REFRESH + 1, hi)
    {
    }

    lemma UnknownIsRecent(id: string, now: Time, hi: Time)
      requires Truthful(hi) && id in unknown && unknown[id] > now
      ensures AbsentWithin(db.rows, id, now - NEGATIVE_TTL + 1, hi)
    {
    }

    /** What the lookup just made says of the id. */
    lemma Looked(id: string, now: Time, registered: bool)
      requires now <= db.now
      ensures registered == (id in db.rows(db.now)) ==>
                if registered then RegisteredWithin(db.rows, id, now - REFRESH + 1, db.now)
                else AbsentWithin(db.rows, id, now - NEGATIVE_TTL + 1, db.now)
    {
    }

    constructor (db: SatelliteTable)
      requires db.lookups == []
      ensures Valid() && this.db == db && clock == 0 && known == {} && unknown == map[] && expires == 0
    {
      this.db := db;
      known, expires, unknown := {}, 0, map[];
      windowStart, windowLookups := 0, 0;
      clock, windows := 0, [Window(0, [])];
    }

    /** _reload: the ids of the table at an instant from now on, good for 30 s. */
    method Reload(now: Time)
      requires Truthful(now) && now <= db.now
      modifies `known, `expires, db`now, db`reloads
      ensures old(db.now) <= db.now && db.reloads == old(db.reloads) + [db.now]
      ensures known == db.rows(db.now) && expires == now + REFRESH && Truthful(db.now)
    {
      known := db.SelectIds();
      expires := now + REFRESH;
    }

    /** _lookup_allowed: at most MAX_LOOKUPS per window of a second. */
    method LookupAllowed(now: Time) returns (allowed: bool)
      requires Recorded() && Current(now) && Counted()
      modifies `windowStart, `windowLookups, `windows
      ensures allowed == old(Allowed(now)) && Recorded() && Current(now) && now < windowStart + SECOND
      ensures if allowed then |windows[|windows| - 1].sent| + 1 == windowLookups <= MAX_LOOKUPS
              else Counted() && |windows[|windows| - 1].sent| == MAX_LOOKUPS
      ensures windows == if now - old(windowStart) >= SECOND then old(windows) + [Window(now, [])] else old(windows)
    {
      hide WindowsValid, SentBy, AllSent, Times;
      if now - windowStart >= SECOND {
        WindowOpened(windows, now);
        windowStart := now;
        windowLookups := 0;
        windows := windows + [Window(now, [])];
      }
      windowLookups := windowLookups + 1;
      allowed := windowLookups <= MAX_LOOKUPS;
    }

    /** The query of an id that _lookup_allowed let pass: it is recorded in the
        current window. */
    method Query(id: string, now: Time) returns (found: bool)
      requires Recorded() && Current(now) && now < windowStart + SECOND && now <= db.now
      requires |windows[|windows| - 1].sent| + 1 == windowLookups <= MAX_LOOKUPS
      modifies `windows, db`now, db`lookups
      ensures old(db.now) <= db.now && Recorded() && Current(db.now) && Counted()
      ensures found == (id in db.rows(db.now))
      ensures db.lookups == old(db.lookups) + [Lookup(id, old(db.now), found)]
      ensures windows == WithLookup(old(windows), old(db.now))
    {
      hide WindowsValid, SentBy, AllSent, Times;
      ghost var sent, log := db.now, db.lookups;
      LookupAdded(windows, now, sent);
      found := db.Exists(id);
      TimesGrow(log, Lookup(id, sent, found));
      windows := WithLookup(windows, sent);
      SentLater(windows[|windows| - 1], sent, db.now);
    }

    /** Remember the outcome of a targeted lookup, never more than the cap of
        negative ones. */
    method Remember(id: string, now: Time, found: bool)
      requires Truthful(db.now) && now <= db.now && found == (id in db.rows(db.now))
      modifies `known, `unknown
      ensures Truthful(db.now)
      ensures known == if found then old(known) + {id} else old(known)
      ensures unknown == if found then old(unknown) else WithNegative(old(unknown), id, now)
    {
      hide AllRegistered, AllAbsent;
      if found {
        OneMoreRegistered(db.rows, known, expires - REFRESH, db.now, id);
        known := known + {id};
      } else {
        OneMoreAbsent(db.rows, unknown, id, now, db.now);
        WithNegativeFits(unknown, id, now);
        if |unknown| >= MAX_NEGATIVE_ENTRIES {
          unknown := map[];
        }
        unknown := unknown[id := now + NEGATIVE_TTL];
      }
    }

    /** The targeted lookup of an id the cache does not know: it is sent if one is
        left in this second, and then its outcome is cached. */
    method LookUp(id: string, now: Time) returns (registered: bool)
      requires Truthful(db.now) && Recorded() && Current(now) && Counted() && now <= db.now && id !in known
      modifies `known, `unknown, `windowStart, `windowLookups, `windows, db`now, db`lookups
      ensures old(db.now) <= db.now && Truthful(db.now) && Recorded() && Current(db.now) && Counted()
      ensures registered <==> id in known
      ensures windowStart <= now < windowStart + SECOND
      ensures db.lookups == old(db.lookups) + if old(Allowed(now)) then [Lookup(id, old(db.now), registered)] else []
      ensures old(Allowed(now)) ==>
                && registered == (id in db.rows(db.now)) && known == old(known) + (if registered then {id} else {})
                && unknown == if registered then old(unknown) else WithNegative(old(unknown), id, now)
      ensures !old(Allowed(now)) ==>
                known == old(known) && unknown == old(unknown) && |windows[|windows| - 1].sent| == MAX_LOOKUPS
    {
      hide WindowsValid, RegisteredWithin, AbsentWithin, SentBy, AllSent, Times, Truthful, Recorded, Counted, WithNegative;
      ghost var start := db.now;
      var allowed := LookupAllowed(now);
      if !allowed {
        SentLater(windows[|windows| - 1], now, db.now);
        return false;
      }
      registered := Query(id, now);
      TruthStays(start, db.now);
      Remember(id, now, registered);
    }

    /** The known ids, asked for again once they have expired. */
    method KnownIds(now: Time)
      requires Truthful(now) && now == db.now
      modifies `known, `expires, db`now, db`reloads
      ensures old(db.now) <= db.now && Truthful(db.now)
      ensures var reload := now >= old(expires);
              && |db.reloads| == |old(db.reloads)| + (if reload then 1 else 0) && old(db.reloads) <= db.reloads
              && known == (if reload then db.rows(db.reloads[|old(db.reloads)|]) else old(known))
              && (reload ==> now <= db.reloads[|old(db.reloads)|] <= db.now)
              && expires == if reload then now + 30_000_000 else old(expires)
    {
      if now >= expires {
        Reload(now);
      }
    }

    /** An id that the cache does not decide. */
    method Ask(id: string, now: Time) returns (registered: bool, ghost asked: bool)
      requires Truthful(db.now) && Recorded() && Current(now) && Counted() && now <= db.now && id !in known
      modifies `known, `unknown, `windowStart, `windowLookups, `windows, db`now, db`lookups
      ensures old(db.now) <= db.now && Truthful(db.now) && Recorded() && Current(db.now) && Counted()
      ensures asked <==> now - old(windowStart) >= 1_000_000 || old(windowLookups) < 20
      ensures db.lookups == old(db.lookups) + if asked then [Lookup(id, old(db.now), registered)] else []
      ensures known == old(known) + if registered then {id} else {}
      ensures registered ==> asked
      ensures unknown ==
              if asked && !registered
              then (if |old(unknown)| >= 10_000 then map[] else old(unknown))[id := now + 10_000_000]
              else old(unknown)
      ensures registered ==> RegisteredWithin(db.rows, id, now - 30_000_000 + 1, db.now)
      ensures !registered ==>
                || AbsentWithin(db.rows, id, now - 10_000_000 + 1, db.now)
                || (windowStart <= now < windowStart + 1_000_000 && |windows[|windows| - 1].sent| == 20)
    {
      hide WindowsValid, SentBy, AllSent, Times, Recorded, Counted, Truthful, RegisteredWithin, AbsentWithin;
      asked := Allowed(now);
      registered := LookUp(id, now);
      Looked(id, now, registered);
    }

    /** What the cache says of the id, if it says something. */
    method Cached(id: string, now: Time) returns (answer: Option<bool>)
      requires Truthful(db.now) && now < expires
      ensures answer == if id in known then Some(true)
                        else if id in unknown && unknown[id] > now then Some(false) else None
      ensures answer == Some(true) ==> RegisteredWithin(db.rows, id, now - 30_000_000 + 1, db.now)
      ensures answer == Some(false) ==> AbsentWithin(db.rows, id, now - 10_000_000 + 1, db.now)
    {
      if id in known {
        KnownIsRecent(id, now, db.now);
        return Some(true);
      }
      if id in unknown && unknown[id] > now {
        UnknownIsRecent(id, now, db.now);
        return Some(false);
      }
      return None;
    }

    /** is_registered.  The table is asked for all ids exactly when they have
        expired, and for this id exactly when the cache does not decide and a
        query is left in this second.
        True: the id was registered at an instant of the last 30 s.
        False: it was absent at an instant of the last 10 s, or the current
        window's queries are spent. */
    method IsRegistered(id: string) returns (registered: bool, ghost base: set<string>, ghost asked: bool)
      requires Valid() && clock <= db.now
      modifies this, db`now, db`lookups, db`reloads
      ensures Valid() && old(db.now) <= db.now == clock && |unknown| <= 10_000
      ensures var reload := old(db.now) >= old(expires);
              && |db.reloads| == |old(db.reloads)| + (if reload then 1 else 0) && old(db.reloads) <= db.reloads
              && base == (if reload then db.rows(db.reloads[|old(db.reloads)|]) else old(known))
              && (reload ==> old(db.now) <= db.reloads[|old(db.reloads)|] <= db.now)
              && expires == (if reload then old(db.now) + 30_000_000 else old(expires))
      ensures asked <==>
                && id !in base && !(id in old(unknown) && old(unknown)[id] > old(db.now))
                && (old(db.now) - old(windowStart) >= 1_000_000 || old(windowLookups) < 20)
      ensures |db.lookups| == |old(db.lookups)| + (if asked then 1 else 0) && old(db.lookups) <= db.lookups
      ensures asked ==> var l := db.lookups[|old(db.lookups)|];
                        l == Lookup(id, l.sent, registered) && old(db.now) <= l.sent <= db.now
      ensures registered <==> id in known
      ensures known == base + (if asked && registered then {id} else {})
      ensures unknown ==
              if asked && !registered
              then (if |old(unknown)| >= 10_000 then map[] else old(unknown))[id := old(db.now) + 10_000_000]
              else old(unknown)
      ensures registered ==> RegisteredWithin(db.rows, id, old(db.now) - 30_000_000 + 1, db.now)
      ensures !registered ==>
                || AbsentWithin(db.rows, id, old(db.now) - 10_000_000 + 1, db.now)
                || (windowStart <= old(db.now) < windowStart + 1_000_000 && |windows[|windows| - 1].sent| == 20)
    {
      hide WindowsValid, SentBy, AllSent, Times, Recorded, Counted, Truthful, RegisteredWithin, AbsentWithin;
      var now := db.now;
      SentLater(windows[|windows| - 1], clock, now);
      TruthStays(clock, now);
      KnownIds(now);
      base, asked := known, false;
      var cached := Cached(id, now);
      if cached.Some? {
        SentLater(windows[|windows| - 1], now, db.now);
        clock := db.now;
        return cached.value, base, asked;
      }
      registered, asked := Ask(id, now);
      clock := db.now;
    }
  }

  // ---------------------------------------------------------------------
  // The rate of targeted queries
  // ---------------------------------------------------------------------

  function CountIn(times: seq<Time>, lo: Time, hi: Time): (n: nat)
    ensures n <= |times|
  {
    if times == [] then 0 else
    CountIn(times[..|times| - 1], lo, hi) + if lo <= times[|times| - 1] <= hi then 1 else 0
  }

  lemma {:induction false} CountInConcat(a: seq<Time>, b: seq<Time>, lo: Time, hi: Time)
    ensures CountIn(a + b, lo, hi) == CountIn(a, lo, hi) + CountIn(b, lo, hi)
    decreases |b|
  {
    if b == [] {
      assert a + b == a;
    } else {
      assert (a + b)[..|a + b| - 1] == a + b[..|b| - 1];
      CountInConcat(a, b[..|b| - 1], lo, hi);
    }
  }

  lemma {:induction false} CountInOutside(times: seq<Time>, lo: Time, hi: Time)
    requires forall k :: 0 <= k < |times| ==> !(lo <= times[k] <= hi)
    ensures CountIn(times, lo, hi) == 0
    decreases |times|
  {
    if times != [] { CountInOutside(times[..|times| - 1], lo, hi); }
  }

  lemma {:induction false} AllSentConcat(a: seq<Window>, b: seq<Window>)
    ensures AllSent(a + b) == AllSent(a) + AllSent(b)
    decreases |b|
  {
    if b == [] {
      assert a + b == a;
    } else {
      assert (a + b)[..|a + b| - 1] == a + b[..|b| - 1];
      AllSentConcat(a, b[..|b| - 1]);
    }
  }

  /** Windows that start no later than `hi`, each a second after the one before. */
  lemma {:induction false} WindowsFit(ws: seq<Window>, after: Time, hi: Time)
    requires WindowsValid(ws) && forall i :: 0 <= i < |ws| ==> after <= ws[i].start <= hi
    ensures ws != [] ==> after + (|ws| - 1) * SECOND <= ws[|ws| - 1].start
    decreases |ws|
  {
    if |ws| > 1 { WindowsFit(ws[..|ws| - 1], after, hi); }
  }

  lemma {:induction false} AtMostAll(ws: seq<Window>, lo: Time, hi: Time)
    requires forall i :: 0 <= i < |ws| ==> WindowValid(ws[i])
    ensures CountIn(AllSent(ws), lo, hi) <= MAX_LOOKUPS * |ws|
    decreases |ws|
  {
    if ws != [] {
      AtMostAll(ws[..|ws| - 1], lo, hi);
      CountInConcat(AllSent(ws[..|ws| - 1]), ws[|ws| - 1].sent, lo, hi);
    }
  }

  lemma {:induction false} AllOutside(ws: seq<Window>, lo: Time, hi: Time)
    requires forall i, k :: 0 <= i < |ws| && 0 <= k < |ws[i].sent| ==> !(lo <= ws[i].sent[k] <= hi)
    ensures CountIn(AllSent(ws), lo, hi) == 0
    decreases |ws|
  {
    if ws != [] {
      var w := ws[|ws| - 1];
      AllOutside(ws[..|ws| - 1], lo, hi);
      assert forall k :: 0 <= k < |w.sent| ==> !(lo <= w.sent[k] <= hi);
      CountInOutside(w.sent, lo, hi);
      CountInConcat(AllSent(ws[..|ws| - 1]), w.sent, lo, hi);
    }
  }

  /** Of the windows that started a second or more before lo, at most one query,
      the delayed last one of the last window, is sent from lo on. */
  lemma OldWindows(ws: seq<Window>, lo: Time, hi: Time)
    requires WindowsValid(ws) && forall i :: 0 <= i < |ws| ==> ws[i].start + SECOND <= lo
    ensures CountIn(AllSent(ws), lo, hi) <= 1
    ensures CountIn(AllSent(ws), lo, hi) == 1 ==> ws != [] && !SentBy(ws[|ws| - 1], lo - 1)
  {
    if ws != [] {
      var n := |ws| - 1;
      EarlierSendNothing(ws, lo, hi);
      LastSendsOne(ws[n], lo, hi);
      CountInConcat(AllSent(ws[..n]), ws[n].sent, lo, hi);
    }
  }

  lemma EarlierSendNothing(ws: seq<Window>, lo: Time, hi: Time)
    requires ws != [] && WindowsValid(ws) && ws[|ws| - 1].start < lo
    ensures CountIn(AllSent(ws[..|ws| - 1]), lo, hi) == 0
  {
    var n := |ws| - 1;
    forall i, k | 0 <= i < n && 0 <= k < |ws[..n][i].sent| ensures !(lo <= ws[..n][i].sent[k] <= hi) {
      assert SentBy(ws[i], ws[n].start);
    }
    AllOutside(ws[..n], lo, hi);
  }

  lemma LastSendsOne(w: Window, lo: Time, hi: Time)
    requires WindowValid(w) && w.start + SECOND <= lo
    ensures CountIn(w.sent, lo, hi) <= 1 && (CountIn(w.sent, lo, hi) == 1 ==> !SentBy(w, lo - 1))
  {
    if w.sent != [] {
      var m := |w.sent| - 1;
      CountInOutside(w.sent[..m], lo, hi);
      assert SentBy(w, lo - 1) ==> w.sent[m] <= lo - 1;
    }
  }

  /** Where the windows begin that started less than a second before lo, or later. */
  lemma {:induction false} SplitAt(ws: seq<Window>, t: Time, least: nat) returns (m: nat)
    requires WindowsValid(ws) && least <= |ws| && forall i :: 0 <= i < least ==> ws[i].start <= t
    ensures least <= m <= |ws| && (forall i :: 0 <= i < m ==> ws[i].start <= t) && (forall i :: m <= i < |ws| ==> ws[i].start > t)
  {
    m := |ws|;
    while m > least && ws[m - 1].start > t
      invariant least <= m <= |ws| && forall i :: m <= i < |ws| ==> ws[i].start > t
    {
      m := m - 1;
    }
  }

  lemma LaterWindowsSendNothing(ws: seq<Window>, lo: Time, hi: Time)
    requires WindowsValid(ws) && forall i :: 0 <= i < |ws| ==> ws[i].start > hi
    ensures CountIn(AllSent(ws), lo, hi) == 0
  {
    forall i, k | 0 <= i < |ws| && 0 <= k < |ws[i].sent| ensures !(lo <= ws[i].sent[k] <= hi) {
      assert WindowValid(ws[i]);
    }
    AllOutside(ws, lo, hi);
  }

  lemma SliceValid(ws: seq<Window>, i: nat, j: nat)
    requires WindowsValid(ws) && i <= j <= |ws|
    ensures WindowsValid(ws[i..j])
  {
  }

  lemma ThreeParts(ws: seq<Window>, m: nat, n: nat, lo: Time, hi: Time)
    requires m <= n <= |ws|
    ensures CountIn(AllSent(ws), lo, hi) ==
            CountIn(AllSent(ws[..m]), lo, hi) + CountIn(AllSent(ws[m..n]), lo, hi) + CountIn(AllSent(ws[n..]), lo, hi)
  {
    var older, between, later := ws[..m], ws[m..n], ws[n..];
    assert ws == older + (between + later);
    AllSentConcat(older, between + later);
    AllSentConcat(between, later);
    CountInConcat(AllSent(older), AllSent(between) + AllSent(later), lo, hi);
    CountInConcat(AllSent(between), AllSent(later), lo, hi);
  }

  /** The queries of the windows that start after `after`, up to `hi`. */
  lemma WindowsBetween(ws: seq<Window>, after: Time, lo: Time, hi: Time)
    requires WindowsValid(ws) && after <= hi && forall i :: 0 <= i < |ws| ==> after <= ws[i].start <= hi
    ensures CountIn(AllSent(ws), lo, hi) <= MAX_LOOKUPS * ((hi - after) / SECOND + 1)
  {
    AtMostAll(ws, lo, hi);
    WindowsFit(ws, after, hi);
  }

  /** Any interval of length L sees at most 20 * (floor(L) + 2) of the queries sent. */
  lemma {:induction false} WindowsBoundQueries(ws: seq<Window>, lo: Time, hi: Time)
    requires WindowsValid(ws) && lo <= hi
    ensures CountIn(AllSent(ws), lo, hi) <= MAX_LOOKUPS * ((hi - lo) / SECOND + 2)
  {
    hide AllSent, CountIn, SentBy;
    var m := SplitAt(ws, lo - SECOND, 0);
    var n := SplitAt(ws, hi, m);
    SliceValid(ws, 0, m);
    SliceValid(ws, m, n);
    SliceValid(ws, n, |ws|);
    hide WindowsValid;
    assert ws[0..m] == ws[..m] && ws[n..|ws|] == ws[n..];
    ThreeParts(ws, m, n, lo, hi);
    OldWindows(ws[..m], lo, hi);
    LaterWindowsSendNothing(ws[n..], lo, hi);
    if CountIn(AllSent(ws[..m]), lo, hi) == 1 {
      LateMeansLater(ws, m, lo);
      WindowsBetween(ws[m..n], lo, lo, hi);
    } else {
      WindowsBetween(ws[m..n], lo - SECOND + 1, lo, hi);
    }
  }

  lemma LateMeansLater(ws: seq<Window>, m: nat, lo: Time)
    requires WindowsValid(ws) && 0 < m <= |ws| && !SentBy(ws[m - 1], lo - 1)
    ensures forall i :: m <= i < |ws| ==> ws[i].start >= lo
  {
    forall i | m <= i < |ws| ensures ws[i].start >= lo {
      assert SentBy(ws[m - 1], ws[i].start);
    }
  }

  /** After any sequence of calls, any interval of length L has seen the table
      sent at most 20 * (floor(L) + 2) targeted queries. */
  lemma LookupsAreBounded(r: SatelliteRegistry, lo: Time, hi: Time)
    requires r.Valid() && lo <= hi
    ensures CountIn(Times(r.db.lookups), lo, hi) <= 20 * ((hi - lo) / 1_000_000 + 2)
  {
    WindowsBoundQueries(r.windows, lo, hi);
  }
}
