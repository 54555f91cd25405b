/** The detector's bounded memory, and that keys do not disturb each other. */
module AnomalyIsolation {
  import opened Basics
  import opened AnomalyModel

  // ---------------------------------------------------------------------
  // Which keys have statistics
  // ---------------------------------------------------------------------

  /** All keys ever fed, least recently fed first. */
  function Recent(rs: seq<Reading>): seq<Key> {
    if rs == [] then [] else
    Without(Recent(rs[..|rs| - 1]), rs[|rs| - 1].key) + [rs[|rs| - 1].key]
  }

  ghost predicate Distinct(ks: seq<Key>) {
    forall i, j :: 0 <= i < j < |ks| ==> ks[i] != ks[j]
  }

  lemma {:induction false} WithoutConcat(a: seq<Key>, b: seq<Key>, key: Key)
    ensures Without(a + b, key) == Without(a, key) + Without(b, key)
  {
    if b == [] {
      assert a + b == a;
    } else {
      var n := |b| - 1;
      WithoutConcat(a, b[..n], key);
      assert (a + b)[..|a + b| - 1] == a + b[..n];
    }
  }

  lemma WithoutLast(a: seq<Key>, last: Key, key: Key)
    ensures Without(a + [last], key) == Without(a, key) + if last == key then [] else [last]
  {
    assert (a + [last])[..|a|] == a;
  }

  lemma DistinctAppend(ks: seq<Key>, key: Key)
    requires Distinct(ks) && key !in ks
    ensures Distinct(ks + [key])
  {
  }

  lemma {:induction false} WithoutDistinct(ks: seq<Key>, key: Key)
    requires Distinct(ks)
    ensures Distinct(Without(ks, key))
    ensures |Without(ks, key)| == if key in ks then |ks| - 1 else |ks|
    ensures key !in ks ==> Without(ks, key) == ks
    decreases |ks|
  {
    if ks != [] {
      var n := |ks| - 1;
      var k := ks[n];
      WithoutDistinct(ks[..n], key);
      assert ks == ks[..n] + [k];
      assert k !in ks[..n];
      if k != key {
        DistinctAppend(Without(ks[..n], key), k);
      }
    }
  }

  lemma {:induction false} RecentDistinct(rs: seq<Reading>)
    ensures Distinct(Recent(rs))
    decreases |rs|
  {
    if rs != [] {
      var n := |rs| - 1;
      RecentDistinct(rs[..n]);
      WithoutDistinct(Recent(rs[..n]), rs[n].key);
      DistinctAppend(Without(Recent(rs[..n]), rs[n].key), rs[n].key);
    }
  }

  /** Was the key ever fed? */
  predicate Fed(rs: seq<Reading>, key: Key) {
    rs != [] && (rs[|rs| - 1].key == key || Fed(rs[..|rs| - 1], key))
  }

  /** The keys in the recency order are those that were fed. */
  lemma {:induction false} RecentIsFed(rs: seq<Reading>, key: Key)
    ensures key in Recent(rs) <==> Fed(rs, key)
    decreases |rs|
  {
    if rs != [] { RecentIsFed(rs[..|rs| - 1], key); }
  }

  lemma LastNConcat<T>(a: seq<T>, b: seq<T>, n: nat)
    requires |b| >= n
    ensures LastN(a + b, n) == LastN(b, n)
  {
    assert |b| == n ==> (a + b)[|a + b| - n..] == b;
    assert |b| > n ==> (a + b)[|a + b| - n..] == b[|b| - n..];
    assert a == [] ==> a + b == b;
  }

  /** Trimming before or after a move to the end makes no difference. */
  lemma {:induction false} TrackedTail(ks: seq<Key>, key: Key)
    requires Distinct(ks)
    ensures Tracked(LastN(ks, MAX_TRACKED_KEYS), key) == LastN(Without(ks, key) + [key], MAX_TRACKED_KEYS)
  {
    hide Without;
    if |ks| > MAX_TRACKED_KEYS {
      var m := |ks| - MAX_TRACKED_KEYS;
      var head, tail := ks[..m], ks[m..];
      assert ks == head + tail;
      WithoutConcat(head, tail, key);
      WithoutDistinct(tail, key);
      assert Without(ks, key) + [key] == Without(head, key) + (Without(tail, key) + [key]);
      LastNConcat(Without(head, key), Without(tail, key) + [key], MAX_TRACKED_KEYS);
    }
  }

  lemma OrderMoves(c: Config, d: Detector, r: Reading, ks: seq<Key>)
    requires d.order == LastN(ks, MAX_TRACKED_KEYS) && Distinct(ks) && d.windows.Keys == set k | k in d.order
    ensures var f := Feed(c, d, r);
            && f.order == LastN(Without(ks, r.key) + [r.key], MAX_TRACKED_KEYS)
            && f.windows.Keys == (set k | k in f.order) && r.key in f.order
  {
    hide KeyNext, Put, Get;
    TrackedTail(ks, r.key);
    var order := Tracked(d.order, r.key);
    assert order[|order| - 1] == r.key;
    forall k | k in order ensures k in d.windows || k == r.key {
      assert k in Without(d.order, r.key) + [r.key];
    }
  }

  /** The statistics are those of the most recently fed keys, at most 1000, and
      the key just fed is always among them. */
  lemma {:induction false} MostRecentAreTracked(c: Config, rs: seq<Reading>)
    ensures After(c, rs).order == LastN(Recent(rs), MAX_TRACKED_KEYS)
    ensures After(c, rs).windows.Keys == set k | k in After(c, rs).order
    ensures |After(c, rs).order| <= 1000
    ensures rs != [] ==> rs[|rs| - 1].key in After(c, rs).order
    decreases |rs|
  {
    if rs != [] {
      hide Feed;
      var n := |rs| - 1;
      MostRecentAreTracked(c, rs[..n]);
      RecentDistinct(rs[..n]);
      OrderMoves(c, After(c, rs[..n]), rs[n], Recent(rs[..n]));
    }
  }

  // ---------------------------------------------------------------------
  // One key on its own
  // ---------------------------------------------------------------------

  /** A key's statistics survive until 1000 other keys were fed since. */
  predicate Remembered(rs: seq<Reading>, key: Key) {
    key in LastN(Recent(rs), MAX_TRACKED_KEYS)
  }

  /** A key's state when it is fed: its own history, minus a forgotten window. */
  function AtFeed(c: Config, rs: seq<Reading>, key: Key): KeyState
    decreases |rs|, 1
  {
    var k := KeyAfter(c, rs, key);
    if Remembered(rs, key) then k else k.(window := [])
  }

  /** The state of one key, from its own readings alone. */
  function KeyAfter(c: Config, rs: seq<Reading>, key: Key): KeyState
    decreases |rs|, 0
  {
    if rs == [] then UNSEEN else
    var before, r := rs[..|rs| - 1], rs[|rs| - 1];
    if r.key != key then KeyAfter(c, before, key) else KeyNext(c, AtFeed(c, before, key), r)
  }

  /** The events of one key, from its own readings alone. */
  function KeyEvents(c: Config, rs: seq<Reading>, key: Key): seq<Event> {
    if rs == [] then [] else
    var before, r := rs[..|rs| - 1], rs[|rs| - 1];
    KeyEvents(c, before, key) + if r.key != key then [] else KeyEmits(c, AtFeed(c, before, key), r)
  }

  function Only(es: seq<Event>, key: Key): seq<Event> {
    if es == [] then [] else
    Only(es[..|es| - 1], key) + if es[|es| - 1].key == key then [es[|es| - 1]] else []
  }

  function Readings(rs: seq<Reading>, key: Key): seq<Reading> {
    if rs == [] then [] else
    Readings(rs[..|rs| - 1], key) + if rs[|rs| - 1].key == key then [rs[|rs| - 1]] else []
  }

  lemma ViewAfterFeed(c: Config, d: Detector, r: Reading, key: Key)
    requires d.windows.Keys == set k | k in d.order
    requires key in Feed(c, d, r).order ==> key == r.key || key in d.order
    ensures var f := Feed(c, d, r);
            && (key == r.key && key in f.order ==> View(f, key) == KeyNext(c, View(d, key), r))
            && (key != r.key ==> View(f, key).alarm == View(d, key).alarm)
            && (key != r.key && key in f.order ==> View(f, key).window == View(d, key).window)
            && (key != r.key && key !in f.order ==> View(f, key).window == [])
  {
  }

  /** The detector's view of a key is what the key's own readings determine. */
  lemma {:induction false} ViewIsOwn(c: Config, rs: seq<Reading>, key: Key)
    ensures View(After(c, rs), key) == AtFeed(c, rs, key)
    decreases |rs|
  {
    MostRecentAreTracked(c, rs);
    if rs != [] {
      var n := |rs| - 1;
      var d := After(c, rs[..n]);
      ViewIsOwn(c, rs[..n], key);
      MostRecentAreTracked(c, rs[..n]);
      if key in After(c, rs).order && key != rs[n].key {
        assert key in Without(d.order, rs[n].key) + [rs[n].key];
      }
      ViewAfterFeed(c, d, rs[n], key);
    }
  }

  lemma OnlyConcat(a: seq<Event>, b: seq<Event>, key: Key)
    requires |b| <= 1
    ensures Only(a + b, key) == Only(a, key) + if b != [] && b[0].key == key then b else []
  {
    if b == [] { assert a + b == a; } else { assert (a + b)[..|a|] == a; }
  }

  /** Whatever else is fed, the events of a key are those its own readings
      determine, given which of its windows were forgotten. */
  lemma {:induction false} EventsAreOwn(c: Config, rs: seq<Reading>, key: Key)
    ensures Only(Emitted(c, rs), key) == KeyEvents(c, rs, key)
    decreases |rs|
  {
    if rs != [] {
      var n := |rs| - 1;
      EventsAreOwn(c, rs[..n], key);
      ViewIsOwn(c, rs[..n], rs[n].key);
      var d := After(c, rs[..n]);
      OnlyConcat(Emitted(c, rs[..n]), KeyEmits(c, View(d, rs[n].key), rs[n]), key);
    }
  }

  // ---------------------------------------------------------------------
  // Within the cap: no interference at all
  // ---------------------------------------------------------------------

  lemma RecentGrows(rs: seq<Reading>)
    requires rs != []
    ensures |Recent(rs[..|rs| - 1])| <= |Recent(rs)|
  {
    RecentDistinct(rs[..|rs| - 1]);
    WithoutDistinct(Recent(rs[..|rs| - 1]), rs[|rs| - 1].key);
  }

  lemma {:induction false} ReadingsAreOfKey(rs: seq<Reading>, key: Key)
    ensures forall r :: r in Readings(rs, key) <==> r in rs && r.key == key
  {
    if rs != [] {
      ReadingsAreOfKey(rs[..|rs| - 1], key);
      assert rs == rs[..|rs| - 1] + [rs[|rs| - 1]];
    }
  }

  lemma {:induction false} RecentOfOneKey(rs: seq<Reading>, key: Key)
    requires forall i :: 0 <= i < |rs| ==> rs[i].key == key
    ensures Recent(rs) == if rs == [] then [] else [key]
  {
    if rs != [] {
      RecentOfOneKey(rs[..|rs| - 1], key);
      WithoutLast([], key, key);
      assert [] + [key] == [key];
    }
  }

  lemma {:induction false} NeverFedIsUnseen(c: Config, rs: seq<Reading>, key: Key)
    requires !Fed(rs, key)
    ensures KeyAfter(c, rs, key) == UNSEEN
  {
    if rs != [] { NeverFedIsUnseen(c, rs[..|rs| - 1], key); }
  }

  /** Within the cap a key's state at a feed is its state. */
  lemma AtFeedWithinCap(c: Config, rs: seq<Reading>, key: Key)
    requires |Recent(rs)| <= MAX_TRACKED_KEYS
    ensures AtFeed(c, rs, key) == KeyAfter(c, rs, key)
  {
    RecentIsFed(rs, key);
    if key !in Recent(rs) {
      NeverFedIsUnseen(c, rs, key);
    }
  }

  function Values(rs: seq<Reading>): (vs: seq<real>)
    ensures |vs| == |rs|
  {
    if rs == [] then [] else Values(rs[..|rs| - 1]) + [rs[|rs| - 1].value]
  }

  /** The window of a key, while at most 1000 keys were fed: its latest 60 values. */
  lemma {:induction false} WindowIsLatest(c: Config, rs: seq<Reading>, key: Key)
    requires |Recent(rs)| <= 1000
    ensures var vs := Values(Readings(rs, key));
            View(After(c, rs), key).window == if |vs| > 60 then vs[|vs| - 60..] else vs
  {
    ViewIsOwn(c, rs, key);
    AtFeedWithinCap(c, rs, key);
    WindowOfKey(c, rs, key);
  }

  /** The latest 60. */
  function Latest60(vs: seq<real>): seq<real> {
    if |vs| > 60 then vs[|vs| - 60..] else vs
  }

  lemma WindowMoves(vs: seq<real>, v: real)
    ensures Appended(Latest60(vs), v) == Latest60(vs + [v])
  {
  }

  lemma ValuesGrow(rs: seq<Reading>, r: Reading)
    ensures Values(rs + [r]) == Values(rs) + [r.value]
  {
    assert (rs + [r])[..|rs|] == rs;
  }

  lemma {:induction false} WindowOfKey(c: Config, rs: seq<Reading>, key: Key)
    requires |Recent(rs)| <= 1000
    ensures KeyAfter(c, rs, key).window == Latest60(Values(Readings(rs, key)))
    decreases |rs|
  {
    if rs != [] {
      var n := |rs| - 1;
      RecentGrows(rs);
      hide Recent, Judged, Decide, Score, Values, Latest60, Appended;
      WindowOfKey(c, rs[..n], key);
      if rs[n].key == key {
        AtFeedWithinCap(c, rs[..n], key);
        WindowMoves(Values(Readings(rs[..n], key)), rs[n].value);
        ValuesGrow(Readings(rs[..n], key), rs[n]);
      } else {
        assert Readings(rs, key) == Readings(rs[..n], key);
      }
    } else {
      assert Values([]) == [];
    }
  }

  lemma OwnReadingsWithinCap(rs: seq<Reading>, key: Key)
    ensures |Recent(Readings(rs, key))| <= 1
  {
    ReadingsAreOfKey(rs, key);
    RecentOfOneKey(Readings(rs, key), key);
  }

  lemma {:induction false} OwnReadingsSuffice(c: Config, rs: seq<Reading>, key: Key)
    requires |Recent(rs)| <= MAX_TRACKED_KEYS
    ensures KeyAfter(c, Readings(rs, key), key) == KeyAfter(c, rs, key)
    ensures KeyEvents(c, Readings(rs, key), key) == KeyEvents(c, rs, key)
    decreases |rs|
  {
    if rs != [] {
      var n := |rs| - 1;
      RecentGrows(rs);
      OwnReadingsSuffice(c, rs[..n], key);
      AtFeedWithinCap(c, rs[..n], key);
      OwnReadingsWithinCap(rs[..n], key);
      AtFeedWithinCap(c, Readings(rs[..n], key), key);
      var own := Readings(rs, key);
      if rs[n].key == key {
        assert own[..|own| - 1] == Readings(rs[..n], key) && own[|own| - 1] == rs[n];
      } else {
        assert own == Readings(rs[..n], key);
      }
    }
  }

  /** While at most 1000 keys have been fed, the events of a key in any
      interleaving equal those of a detector fed that key's readings alone. */
  lemma {:induction false} NoInterference(c: Config, rs: seq<Reading>, key: Key)
    requires |Recent(rs)| <= MAX_TRACKED_KEYS
    ensures Only(Emitted(c, rs), key) == Emitted(c, Readings(rs, key))
  {
    EventsAreOwn(c, rs, key);
    OwnReadingsSuffice(c, rs, key);
    EventsAreOwn(c, Readings(rs, key), key);
    ReadingsAreOfKey(rs, key);
    SingleKeyEvents(c, Readings(rs, key), key);
  }

  lemma {:induction false} OnlyOwn(es: seq<Event>, key: Key)
    requires forall e :: e in es ==> e.key == key
    ensures Only(es, key) == es
  {
    if es != [] {
      OnlyOwn(es[..|es| - 1], key);
      assert es == es[..|es| - 1] + [es[|es| - 1]];
    }
  }

  lemma {:induction false} SingleKeyEvents(c: Config, rs: seq<Reading>, key: Key)
    requires forall r :: r in rs ==> r.key == key
    ensures Only(Emitted(c, rs), key) == Emitted(c, rs)
    ensures forall e :: e in Emitted(c, rs) ==> e.key == key
  {
    if rs != [] {
      SingleKeyEvents(c, rs[..|rs| - 1], key);
    }
    OnlyOwn(Emitted(c, rs), key);
  }
}
