/** How often the detector repeats itself, over whole traces
    (backend/src/anomaly/detector.py). */
module AnomalyCooldown {
  import opened Basics
  import opened AnomalyModel
  import opened AnomalyIsolation
  import opened AnomalyHysteresis

  // ---------------------------------------------------------------------
  // The events of a trace, reading by reading
  // ---------------------------------------------------------------------

  /** What reading j adds to the events. */
  function EmittedBy(c: Config, rs: seq<Reading>, j: nat): seq<Event>
    requires j < |rs|
  {
    KeyEmits(c, View(After(c, rs[..j]), rs[j].key), rs[j])
  }

  lemma {:induction false} EmittedPrefix(c: Config, rs: seq<Reading>, j: nat)
    requires j < |rs|
    ensures Emitted(c, rs[..j + 1]) == Emitted(c, rs[..j]) + EmittedBy(c, rs, j)
  {
    assert rs[..j + 1][..j] == rs[..j];
  }

  predicate EmitsAt(c: Config, rs: seq<Reading>, j: nat, key: Key, band: Band) {
    j < |rs| && rs[j].key == key && EmittedBy(c, rs, j) != [] && EmittedBy(c, rs, j)[0].band == band
  }

  predicate SilentAt(c: Config, rs: seq<Reading>, j: nat, key: Key) {
    !EmitsAt(c, rs, j, key, Warning) && !EmitsAt(c, rs, j, key, Critical)
  }

  /** Of the events of the key before reading n, the latest is at i. */
  predicate LatestAt(c: Config, rs: seq<Reading>, n: nat, key: Key, i: nat, band: Band) {
    i < n && EmitsAt(c, rs, i, key, band) && forall k :: i < k < n ==> SilentAt(c, rs, k, key)
  }

  /** The key has had no event before reading n. */
  predicate NoneBefore(c: Config, rs: seq<Reading>, n: nat, key: Key) {
    forall k :: 0 <= k < n ==> SilentAt(c, rs, k, key)
  }

  lemma NextLast(c: Config, k: KeyState, r: Reading)
    ensures KeyNext(c, k, r).alarm.last ==
            if KeyEmits(c, k, r) != [] then Some((KeyEmits(c, k, r)[0].band, r.now)) else k.alarm.last
  {
    hide Score;
  }

  lemma FeedLast(c: Config, d: Detector, r: Reading, key: Key)
    ensures Get(Feed(c, d, r).lastEmit, key) ==
            if key == r.key then KeyNext(c, View(d, r.key), r).alarm.last else Get(d.lastEmit, key)
    ensures View(d, key).alarm.last == Get(d.lastEmit, key)
  {
    hide KeyNext, Tracked, Narrowed;
  }

  lemma {:induction false} AfterOneMore(c: Config, rs: seq<Reading>, n: nat)
    requires n < |rs|
    ensures After(c, rs[..n + 1]) == Feed(c, After(c, rs[..n]), rs[n])
  {
    assert rs[..n + 1][..n] == rs[..n];
    hide Feed;
  }

  lemma {:induction false} LastEmitMoves(c: Config, rs: seq<Reading>, n: nat, key: Key)
    requires n < |rs|
    ensures var before, after := Get(After(c, rs[..n]).lastEmit, key), Get(After(c, rs[..n + 1]).lastEmit, key);
            if rs[n].key == key && EmittedBy(c, rs, n) != []
            then after == Some((EmittedBy(c, rs, n)[0].band, rs[n].now))
            else after == before
  {
    hide Feed, KeyNext, KeyEmits, View, After, Get;
    var d := After(c, rs[..n]);
    AfterOneMore(c, rs, n);
    FeedLast(c, d, rs[n], key);
    NextLast(c, View(d, rs[n].key), rs[n]);
  }

  lemma SilentIff(c: Config, rs: seq<Reading>, n: nat, key: Key)
    requires n < |rs|
    ensures SilentAt(c, rs, n, key) <==> rs[n].key != key || EmittedBy(c, rs, n) == []
    ensures !SilentAt(c, rs, n, key) ==> EmitsAt(c, rs, n, key, EmittedBy(c, rs, n)[0].band)
  {
    hide EmittedBy;
  }

  lemma LatestNow(c: Config, rs: seq<Reading>, i: nat, key: Key, band: Band)
    requires EmitsAt(c, rs, i, key, band)
    ensures LatestAt(c, rs, i + 1, key, i, band)
  {
  }

  lemma {:induction false} LatestStays(c: Config, rs: seq<Reading>, n: nat, key: Key, i: nat, band: Band)
    requires LatestAt(c, rs, n, key, i, band) && SilentAt(c, rs, n, key)
    ensures LatestAt(c, rs, n + 1, key, i, band)
  {
    hide EmitsAt, SilentAt;
  }

  lemma NoneStays(c: Config, rs: seq<Reading>, n: nat, key: Key)
    requires NoneBefore(c, rs, n, key) && SilentAt(c, rs, n, key)
    ensures NoneBefore(c, rs, n + 1, key)
  {
    hide SilentAt;
  }

  /** What the detector remembers of a key is the band and the time of its latest event. */
  predicate Remembers(c: Config, rs: seq<Reading>, n: nat, key: Key, i: nat)
    requires n <= |rs|
  {
    match Get(After(c, rs[..n]).lastEmit, key)
    case None => NoneBefore(c, rs, n, key)
    case Some(last) => LatestAt(c, rs, n, key, i, last.0) && rs[i].now == last.1
  }

  lemma {:induction false} RemembersOneMore(c: Config, rs: seq<Reading>, n: nat, key: Key, i: nat) returns (m: nat)
    requires n < |rs| && Remembers(c, rs, n, key, i)
    ensures Remembers(c, rs, n + 1, key, m)
  {
    hide After, EmittedBy, Get, LatestAt, EmitsAt, SilentAt, NoneBefore;
    m := i;
    LastEmitMoves(c, rs, n, key);
    SilentIff(c, rs, n, key);
    var now := Get(After(c, rs[..n + 1]).lastEmit, key);
    if !SilentAt(c, rs, n, key) {
      m := n;
      LatestNow(c, rs, n, key, now.value.0);
    } else if now.Some? {
      LatestStays(c, rs, n, key, i, now.value.0);
    } else {
      NoneStays(c, rs, n, key);
    }
  }

  lemma {:induction false} LatestIsRemembered(c: Config, rs: seq<Reading>, n: nat, key: Key) returns (i: nat)
    requires n <= |rs|
    ensures Remembers(c, rs, n, key, i)
    decreases n
  {
    i := 0;
    if n == 0 {
      assert rs[..0] == [];
    } else {
      hide Remembers;
      i := LatestIsRemembered(c, rs, n - 1, key);
      i := RemembersOneMore(c, rs, n - 1, key, i);
    }
  }

  // ---------------------------------------------------------------------
  // The cooldown, exactly
  // ---------------------------------------------------------------------

  /** Reading j scores in this band; a warning counts only if the key has recovered
      from every critical score before. */
  ghost predicate Alarming(c: Config, rs: seq<Reading>, j: nat, band: Band)
    requires j < |rs|
  {
    && JudgedScore(c, rs, j).Some?
    && (match band
        case Critical => JudgedScore(c, rs, j).value >= 3.0
        case Warning => 2.0 <= JudgedScore(c, rs, j).value < 3.0 && !Unrecovered(c, rs, j, rs[j].key, 3.0))
  }

  /** The same as the detector decides it, by the active severity. */
  predicate NotBelowActive(c: Config, rs: seq<Reading>, j: nat, band: Band)
    requires j < |rs|
  {
    var k := View(After(c, rs[..j]), rs[j].key);
    && Judged(c, k.window, rs[j].value)
    && BandOf(Score(c.sqrt, k.window, rs[j].value).value) == Some(band)
    && Rank(Some(band)) >= Rank(k.alarm.active)
  }

  lemma AlarmingIs(c: Config, rs: seq<Reading>, j: nat, band: Band)
    requires j < |rs|
    ensures Alarming(c, rs, j, band) <==> NotBelowActive(c, rs, j, band)
  {
    hide After, Score, Unrecovered;
    JudgedNeedsBaseline(c, View(After(c, rs[..j]), rs[j].key).window, rs[j].value);
    ActiveIsStanding(c, rs, j, rs[j].key);
    hide Judged;
    assert View(After(c, rs[..j]), rs[j].key).alarm.active == Get(After(c, rs[..j]).active, rs[j].key);
  }

  /** An event of this band that is the key's latest is less than the cooldown old. */
  ghost predicate Cooling(c: Config, rs: seq<Reading>, j: nat, band: Band)
    requires j < |rs|
  {
    exists i: nat :: LatestAt(c, rs, j, rs[j].key, i, band) && rs[j].now - rs[i].now < c.cooldown
  }

  lemma {:induction false} LatestIsUnique(c: Config, rs: seq<Reading>, n: nat, key: Key, i: nat, j: nat, a: Band, b: Band)
    requires LatestAt(c, rs, n, key, i, a) && LatestAt(c, rs, n, key, j, b)
    ensures i == j && a == b
  {
    hide EmittedBy;
    assert i < j ==> SilentAt(c, rs, j, key);
    assert j < i ==> SilentAt(c, rs, i, key);
  }

  lemma AlarmingEmits(c: Config, rs: seq<Reading>, j: nat, band: Band)
    requires j < |rs| && Alarming(c, rs, j, band)
    ensures EmitsAt(c, rs, j, rs[j].key, band) <==>
            !InCooldown(Alarm(None, Get(After(c, rs[..j]).lastEmit, rs[j].key)), band, rs[j].now, c.cooldown)
  {
    AlarmingIs(c, rs, j, band);
    hide Score, After, Alarming;
  }

  /** An alarming reading emits an event if and only if it is not the case that
      the key's latest event has its severity and is within the cooldown. */
  lemma CooldownExactly(c: Config, rs: seq<Reading>, j: nat, band: Band)
    requires j < |rs| && Alarming(c, rs, j, band)
    ensures EmitsAt(c, rs, j, rs[j].key, band) <==> !Cooling(c, rs, j, band)
  {
    AlarmingEmits(c, rs, j, band);
    hide EmitsAt, Alarming, After, LatestAt, SilentAt, Get, NoneBefore;
    var key := rs[j].key;
    var i := LatestIsRemembered(c, rs, j, key);
    var last := Get(After(c, rs[..j]).lastEmit, key);
    forall m: nat | LatestAt(c, rs, j, key, m, band) ensures last.Some? && m == i && band == last.value.0 {
      NoneIsNotLatest(c, rs, j, key, m, band);
      LatestIsUnique(c, rs, j, key, m, i, band, last.value.0);
    }
  }

  lemma {:induction false} NoneIsNotLatest(c: Config, rs: seq<Reading>, n: nat, key: Key, i: nat, band: Band)
    requires LatestAt(c, rs, n, key, i, band)
    ensures !NoneBefore(c, rs, n, key)
  {
    hide EmittedBy;
    assert !SilentAt(c, rs, i, key);
  }

  lemma EmittingIsAlarming(c: Config, rs: seq<Reading>, j: nat, key: Key, band: Band)
    requires EmitsAt(c, rs, j, key, band)
    ensures rs[j].key == key && Alarming(c, rs, j, band)
  {
    AlarmingIs(c, rs, j, band);
    hide Score, After, Alarming;
  }

  /** Before an event there is a latest one, if there is any. */
  lemma {:induction false} LatestBefore(c: Config, rs: seq<Reading>, n: nat, key: Key, i: nat, band: Band) returns (m: nat, b: Band)
    requires i < n <= |rs| && EmitsAt(c, rs, i, key, band)
    ensures LatestAt(c, rs, n, key, m, b) && i <= m
  {
    hide EmittedBy, After;
    m := LatestIsRemembered(c, rs, n, key);
    var last := Get(After(c, rs[..n]).lastEmit, key);
    assert !SilentAt(c, rs, i, key);
    b := last.value.0;
  }

  function Other(band: Band): Band {
    if band == Warning then Critical else Warning
  }

  /** Two events of a key with the same severity are at least the cooldown apart,
      unless an event of the other severity came between them. */
  lemma {:induction false} EventsCoolDown(c: Config, rs: seq<Reading>, key: Key, band: Band, i: nat, j: nat)
    requires c.cooldown >= 0 && i < j < |rs|
    requires EmitsAt(c, rs, i, key, band) && EmitsAt(c, rs, j, key, band)
    requires forall k :: i < k < j ==> !EmitsAt(c, rs, k, key, Other(band))
    ensures rs[j].now - rs[i].now >= c.cooldown
    decreases j
  {
    hide EmitsAt, Alarming, LatestAt;
    EmittingIsAlarming(c, rs, j, key, band);
    CooldownExactly(c, rs, j, band);
    var m, b := LatestBefore(c, rs, j, key, i, band);
    LatestEmits(c, rs, j, key, m, b);
    if m > i {
      assert !EmitsAt(c, rs, m, key, Other(band));
      assert b == band || b == Other(band) by { OneOrOther(b, band); }
      EventsCoolDown(c, rs, key, band, i, m);
    } else {
      SameEvent(c, rs, i, key, band, b);
    }
    assert LatestAt(c, rs, j, key, m, band);
  }

  lemma OneOrOther(a: Band, b: Band)
    ensures a == b || a == Other(b)
  {
  }

  lemma {:induction false} LatestEmits(c: Config, rs: seq<Reading>, n: nat, key: Key, i: nat, band: Band)
    requires LatestAt(c, rs, n, key, i, band)
    ensures i < n && EmitsAt(c, rs, i, key, band)
  {
  }

  lemma {:induction false} SameEvent(c: Config, rs: seq<Reading>, i: nat, key: Key, a: Band, b: Band)
    requires EmitsAt(c, rs, i, key, a) && EmitsAt(c, rs, i, key, b)
    ensures a == b
  {
  }

  // ---------------------------------------------------------------------
  // The same of the list of events
  // ---------------------------------------------------------------------

  lemma EmittedGrows(c: Config, rs: seq<Reading>)
    requires rs != []
    ensures var n := |rs| - 1;
            && Emitted(c, rs) == Emitted(c, rs[..n]) + EmittedBy(c, rs, n)
            && |EmittedBy(c, rs, n)| <= 1 && forall e :: e in EmittedBy(c, rs, n) ==> e.key == rs[n].key
  {
    assert rs[..|rs|] == rs;
    EmittedPrefix(c, rs, |rs| - 1);
    hide After, Score;
  }

  /** The reading that event a comes from. */
  function Source(c: Config, rs: seq<Reading>, a: nat): (j: nat)
    requires a < |Emitted(c, rs)|
    ensures j < |rs|
  {
    var n := |rs| - 1;
    if a < |Emitted(c, rs[..n])| then Source(c, rs[..n], a) else n
  }

  lemma {:induction false} ByPrefix(c: Config, rs: seq<Reading>, n: nat, j: nat)
    requires j < n <= |rs|
    ensures EmittedBy(c, rs[..n], j) == EmittedBy(c, rs, j)
  {
    assert rs[..n][..j] == rs[..j];
  }

  lemma {:induction false} EmitsInPrefix(c: Config, rs: seq<Reading>, n: nat, j: nat, key: Key, band: Band)
    requires n <= |rs| && EmitsAt(c, rs[..n], j, key, band)
    ensures EmitsAt(c, rs, j, key, band)
  {
    hide EmittedBy;
    ByPrefix(c, rs, n, j);
  }

  /** An event that the last reading added. */
  lemma {:induction false} LastEmits(c: Config, rs: seq<Reading>, a: nat)
    requires rs != [] && |Emitted(c, rs[..|rs| - 1])| <= a < |Emitted(c, rs)|
    ensures a == |Emitted(c, rs[..|rs| - 1])|
    ensures EmitsAt(c, rs, |rs| - 1, Emitted(c, rs)[a].key, Emitted(c, rs)[a].band)
  {
    hide EmittedBy, Emitted;
    EmittedGrows(c, rs);
    assert Emitted(c, rs)[a] == EmittedBy(c, rs, |rs| - 1)[0];
  }

  /** Reading j emitted event a, and there are a events before it. */
  predicate Adds(c: Config, rs: seq<Reading>, j: nat, a: nat)
    requires a < |Emitted(c, rs)| && j < |rs|
  {
    |Emitted(c, rs[..j])| == a && EmitsAt(c, rs, j, Emitted(c, rs)[a].key, Emitted(c, rs)[a].band)
  }

  lemma {:induction false} AddsInPrefix(c: Config, rs: seq<Reading>, j: nat, a: nat)
    requires rs != [] && j < |rs| - 1 && a < |Emitted(c, rs[..|rs| - 1])| && Adds(c, rs[..|rs| - 1], j, a)
    ensures a < |Emitted(c, rs)| && Adds(c, rs, j, a)
  {
    hide EmittedBy, Emitted, EmitsAt;
    var n := |rs| - 1;
    EmittedGrows(c, rs);
    EmitsInPrefix(c, rs, n, j, Emitted(c, rs)[a].key, Emitted(c, rs)[a].band);
    assert rs[..n][..j] == rs[..j];
  }

  lemma {:induction false} LastAdds(c: Config, rs: seq<Reading>, a: nat)
    requires rs != [] && |Emitted(c, rs[..|rs| - 1])| <= a < |Emitted(c, rs)|
    ensures Adds(c, rs, |rs| - 1, a)
  {
    LastEmits(c, rs, a);
    hide EmittedBy, Emitted, EmitsAt;
  }

  /** Event a is what its source emitted. */
  lemma {:induction false} SourceEmits(c: Config, rs: seq<Reading>, a: nat)
    requires a < |Emitted(c, rs)|
    ensures Adds(c, rs, Source(c, rs, a), a)
    decreases |rs|
  {
    assert rs != [];
    hide EmittedBy, Emitted, EmitsAt, Adds;
    var n := |rs| - 1;
    if a < |Emitted(c, rs[..n])| {
      SourceEmits(c, rs[..n], a);
      AddsInPrefix(c, rs, Source(c, rs[..n], a), a);
    } else {
      LastAdds(c, rs, a);
    }
  }

  lemma {:induction false} EmittedIsMonotone(c: Config, rs: seq<Reading>, i: nat, j: nat)
    requires i <= j <= |rs|
    ensures Emitted(c, rs[..i]) <= Emitted(c, rs[..j])
    decreases j
  {
    hide Emitted, EmittedBy;
    if i < j {
      EmittedIsMonotone(c, rs, i, j - 1);
      EmittedPrefix(c, rs, j - 1);
      PrefixOfSum(Emitted(c, rs[..i]), Emitted(c, rs[..j - 1]), EmittedBy(c, rs, j - 1));
    }
  }

  lemma PrefixOfSum(a: seq<Event>, b: seq<Event>, d: seq<Event>)
    requires a <= b
    ensures a <= b + d
  {
  }

  /** Every emission is an event of the list, and its source. */
  lemma {:induction false} EmissionIsListed(c: Config, rs: seq<Reading>, j: nat, key: Key, band: Band) returns (a: nat)
    requires EmitsAt(c, rs, j, key, band)
    ensures a == |Emitted(c, rs[..j])| < |Emitted(c, rs)| && Source(c, rs, a) == j
    ensures Emitted(c, rs)[a].key == key && Emitted(c, rs)[a].band == band
  {
    a := |Emitted(c, rs[..j])|;
    EmittedPrefix(c, rs, j);
    EmittedIsMonotone(c, rs, j + 1, |rs|);
    assert rs[..|rs|] == rs;
    hide Emitted, EmittedBy;
    SourceEmits(c, rs, a);
    SourcesAreOrdered(c, rs, a, j);
  }

  /** A reading that emits as event a is its only source. */
  lemma {:induction false} SourcesAreOrdered(c: Config, rs: seq<Reading>, a: nat, j: nat)
    requires a < |Emitted(c, rs)| && j < |rs| && |Emitted(c, rs[..j])| == a && EmittedBy(c, rs, j) != []
    ensures Source(c, rs, a) == j
  {
    SourceEmits(c, rs, a);
    var i := Source(c, rs, a);
    hide Emitted;
    EmittedPrefix(c, rs, j);
    EmittedPrefix(c, rs, i);
    if i < j {
      EmittedIsMonotone(c, rs, i + 1, j);
    } else if j < i {
      EmittedIsMonotone(c, rs, j + 1, i);
    }
  }

  lemma {:induction false} SourcesIncrease(c: Config, rs: seq<Reading>, a: nat, b: nat)
    requires a < b < |Emitted(c, rs)|
    ensures Source(c, rs, a) < Source(c, rs, b)
  {
    SourceEmits(c, rs, a);
    SourceEmits(c, rs, b);
    var i, j := Source(c, rs, a), Source(c, rs, b);
    hide Emitted, EmittedBy;
    if j <= i { EmittedIsMonotone(c, rs, j, i); }
  }

  /** Of the key, only events of this severity lie between two events of the list. */
  ghost predicate OnlyBetween(es: seq<Event>, key: Key, band: Band, a: nat, b: nat)
    requires b <= |es|
  {
    forall m :: a < m < b && es[m].key == key ==> es[m].band == band
  }

  lemma {:induction false} NoOtherBetween(c: Config, rs: seq<Reading>, key: Key, band: Band, a: nat, b: nat, k: nat)
    requires a < b < |Emitted(c, rs)| && OnlyBetween(Emitted(c, rs), key, band, a, b)
    requires Source(c, rs, a) < k < Source(c, rs, b)
    ensures !EmitsAt(c, rs, k, key, Other(band))
  {
    hide Emitted, EmitsAt, Source;
    if EmitsAt(c, rs, k, key, Other(band)) {
      var m := EmissionIsListed(c, rs, k, key, Other(band));
      if m < a { SourcesIncrease(c, rs, m, a); }
      if b < m { SourcesIncrease(c, rs, b, m); }
    }
  }

  /** In the list of events: two of a key with the same severity come from readings
      at least the cooldown apart, unless one of the other severity is between. */
  lemma {:induction false} ListedEventsCoolDown(c: Config, rs: seq<Reading>, a: nat, b: nat)
    requires c.cooldown >= 0 && a < b < |Emitted(c, rs)|
    requires var es := Emitted(c, rs); es[a].key == es[b].key && es[a].band == es[b].band
    requires OnlyBetween(Emitted(c, rs), Emitted(c, rs)[a].key, Emitted(c, rs)[a].band, a, b)
    ensures rs[Source(c, rs, b)].now - rs[Source(c, rs, a)].now >= c.cooldown
  {
    hide Emitted, EmitsAt, Source, OnlyBetween, Other;
    var es, i, j := Emitted(c, rs), Source(c, rs, a), Source(c, rs, b);
    SourceEmits(c, rs, a);
    SourceEmits(c, rs, b);
    SourcesIncrease(c, rs, a, b);
    forall k | i < k < j ensures !EmitsAt(c, rs, k, es[a].key, Other(es[a].band)) {
      NoOtherBetween(c, rs, es[a].key, es[a].band, a, b, k);
    }
    EventsCoolDown(c, rs, es[a].key, es[a].band, i, j);
  }

  /** Event a is the latest of its key in the list. */
  predicate LatestIn(es: seq<Event>, key: Key, a: nat) {
    a < |es| && es[a].key == key && forall m :: a < m < |es| ==> es[m].key != key
  }

  /** The list ends with an event of the key with this severity, less than the
      cooldown before reading j; other keys may have followed. */
  ghost predicate ListCooling(c: Config, rs: seq<Reading>, j: nat, band: Band)
    requires j < |rs|
  {
    exists a: nat :: LatestIn(Emitted(c, rs[..j]), rs[j].key, a) && Emitted(c, rs[..j])[a].band == band
                     && rs[j].now - rs[Source(c, rs[..j], a)].now < c.cooldown
  }

  lemma {:induction false} LatestAgrees(c: Config, rs: seq<Reading>, j: nat, key: Key, a: nat)
    requires j <= |rs| && LatestIn(Emitted(c, rs[..j]), key, a)
    ensures LatestAt(c, rs, j, key, Source(c, rs[..j], a), Emitted(c, rs[..j])[a].band)
  {
    hide Emitted, EmittedBy;
    var before := rs[..j];
    var i := Source(c, before, a);
    SourceEmits(c, before, a);
    ByPrefix(c, rs, j, i);
    forall k | i < k < j ensures SilentAt(c, rs, k, key) {
      ByPrefix(c, rs, j, k);
      SilentIff(c, rs, k, key);
      if !SilentAt(c, rs, k, key) {
        var band := EmittedBy(c, rs, k)[0].band;
        var m := EmissionIsListed(c, before, k, key, band);
        if m < a { SourcesIncrease(c, before, m, a); }
        assert false;
      }
    }
  }

  /** The other way round. */
  lemma {:induction false} LatestIsListed(c: Config, rs: seq<Reading>, j: nat, key: Key, i: nat, band: Band) returns (a: nat)
    requires j <= |rs| && LatestAt(c, rs, j, key, i, band)
    ensures LatestIn(Emitted(c, rs[..j]), key, a) && Emitted(c, rs[..j])[a].band == band && Source(c, rs[..j], a) == i
  {
    hide Emitted, EmittedBy;
    var before := rs[..j];
    ByPrefix(c, rs, j, i);
    a := EmissionIsListed(c, before, i, key, band);
    forall m | a < m < |Emitted(c, before)| ensures Emitted(c, before)[m].key != key {
      SourcesIncrease(c, before, a, m);
      SourceEmits(c, before, m);
      var k := Source(c, before, m);
      ByPrefix(c, rs, j, k);
      SilentIff(c, rs, k, key);
      assert SilentAt(c, rs, k, key);
    }
  }

  /** In the list of events: an alarming reading adds one if and only if the key's
      latest event in it does not both have this severity and lie within the cooldown. */
  lemma {:induction false} ListedCooldownExactly(c: Config, rs: seq<Reading>, j: nat, band: Band)
    requires j < |rs| && Alarming(c, rs, j, band)
    ensures |Emitted(c, rs[..j + 1])| == |Emitted(c, rs[..j])| + 1 <==> !ListCooling(c, rs, j, band)
    ensures !ListCooling(c, rs, j, band) ==>
              var e := Emitted(c, rs[..j + 1])[|Emitted(c, rs[..j])|]; e.key == rs[j].key && e.band == band
  {
    CooldownExactly(c, rs, j, band);
    AlarmingMeansBand(c, rs, j, band);
    EmittedPrefix(c, rs, j);
    hide Emitted, EmittedBy, Alarming;
    var key := rs[j].key;
    if a: nat :| LatestIn(Emitted(c, rs[..j]), key, a) && Emitted(c, rs[..j])[a].band == band
                 && rs[j].now - rs[Source(c, rs[..j], a)].now < c.cooldown {
      LatestAgrees(c, rs, j, key, a);
    }
    if i: nat :| LatestAt(c, rs, j, key, i, band) && rs[j].now - rs[i].now < c.cooldown {
      var a := LatestIsListed(c, rs, j, key, i, band);
    }
  }

  /** What an alarming reading emits, if anything, is one event of this band. */
  lemma AlarmingMeansBand(c: Config, rs: seq<Reading>, j: nat, band: Band)
    requires j < |rs| && Alarming(c, rs, j, band)
    ensures |EmittedBy(c, rs, j)| <= 1
    ensures EmittedBy(c, rs, j) != [] ==> EmittedBy(c, rs, j)[0].key == rs[j].key && EmittedBy(c, rs, j)[0].band == band
  {
    AlarmingIs(c, rs, j, band);
    hide Score, After, Alarming;
  }

  // ---------------------------------------------------------------------
  // De-escalation, and what an event says
  // ---------------------------------------------------------------------

  /** Between a critical score of a key and a later warning of it lies a score
      that is back in the noise. */
  lemma WarningNeedsRecovery(c: Config, rs: seq<Reading>, key: Key, i: nat, j: nat)
    requires i < j && Reaches(c, rs, i, key, 3.0) && EmitsAt(c, rs, j, key, Warning)
    ensures exists m :: i < m < j && Recovers(c, rs, m, key)
  {
    EmittingIsAlarming(c, rs, j, key, Warning);
    hide Reaches, Recovers, EmitsAt, JudgedScore;
    assert !Unrecovered(c, rs, j, key, 3.0);
  }

  lemma EmissionTells(c: Config, rs: seq<Reading>, j: nat)
    requires j < |rs| && EmittedBy(c, rs, j) != []
    ensures var e := EmittedBy(c, rs, j)[0];
            && e.key == rs[j].key && e.value == rs[j].value && JudgedScore(c, rs, j) == Some(e.z)
            && e.z >= 2.0 && (e.band == Critical <==> e.z >= 3.0)
  {
    hide After, Score;
    JudgedNeedsBaseline(c, View(After(c, rs[..j]), rs[j].key).window, rs[j].value);
  }

  lemma SourceGives(c: Config, rs: seq<Reading>, a: nat)
    requires a < |Emitted(c, rs)|
    ensures var j := Source(c, rs, a); EmittedBy(c, rs, j) != [] && Emitted(c, rs)[a] == EmittedBy(c, rs, j)[0]
  {
    var j := Source(c, rs, a);
    SourceEmits(c, rs, a);
    hide Emitted, EmittedBy, Source;
    EmittedPrefix(c, rs, j);
    EmittedIsMonotone(c, rs, j + 1, |rs|);
    assert rs[..|rs|] == rs;
    assert Emitted(c, rs[..j + 1]) <= Emitted(c, rs) && Emitted(c, rs[..j + 1])[a] == EmittedBy(c, rs, j)[0];
  }

  /** Every event of the list tells the key, the value and the score of its
      reading, and the severity that the score amounts to. */
  lemma {:induction false} EventsTell(c: Config, rs: seq<Reading>, a: nat)
    requires a < |Emitted(c, rs)|
    ensures var e, j := Emitted(c, rs)[a], Source(c, rs, a);
            && e.key == rs[j].key && e.value == rs[j].value && JudgedScore(c, rs, j) == Some(e.z)
            && e.z >= 2.0 && (e.band == Critical <==> e.z >= 3.0)
  {
    hide Emitted, EmittedBy, JudgedScore, Source;
    SourceGives(c, rs, a);
    EmissionTells(c, rs, Source(c, rs, a));
  }
}
