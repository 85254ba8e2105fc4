/**
  The trailing history used for spike detection: (time, player count) pairs in
  the order they were recorded, cut down to the last two minutes on every reading.
  Times are microseconds, the resolution of the clock the bot reads.
 */
module History {

  /** One recorded reading: when it was taken and how many players there were. */
  datatype Entry = Entry(time: int, count: int)

  /** Two minutes, in microseconds: how far back the history reaches. */
  const WindowSpan: int := 120_000_000

  /** An entry is kept when it is at most two minutes older than now (entries from the future are kept too). */
  predicate InWindow(e: Entry, now: int) {
    now - e.time <= WindowSpan
  }

  /** a can be obtained from b by deleting entries: order is preserved. */
  predicate IsSubsequence(a: seq<Entry>, b: seq<Entry>) {
    if a == [] then true
    else if b == [] then false
    else if a[0] == b[0] then IsSubsequence(a[1..], b[1..])
    else IsSubsequence(a, b[1..])
  }

  /** How many times e occurs in h. */
  function Occurrences(h: seq<Entry>, e: Entry): nat {
    if h == [] then 0 else (if h[0] == e then 1 else 0) + Occurrences(h[1..], e)
  }

  /** Entries in non-decreasing time order. */
  predicate Chronological(h: seq<Entry>) {
    forall i, j :: 0 <= i < j < |h| ==> h[i].time <= h[j].time
  }

  /**
    The history filtered down to the entries still in the window, in their
    original order.
   */
  function Prune(h: seq<Entry>, now: int): (r: seq<Entry>)
    ensures forall e :: e in r <==> e in h && InWindow(e, now)
    ensures forall e :: Occurrences(r, e) == if InWindow(e, now) then Occurrences(h, e) else 0
    ensures IsSubsequence(r, h)
    ensures |r| <= |h|
    ensures h != [] && InWindow(h[|h| - 1], now) ==> r != [] && r[|r| - 1] == h[|h| - 1]
  {
    if h == [] then []
    else
      var rest := Prune(h[1..], now);
      assert h[1..] != [] ==> h[1..][|h| - 2] == h[|h| - 1];
      assert forall e :: e in h <==> e == h[0] || e in h[1..];
      if InWindow(h[0], now) then
        assert ([h[0]] + rest)[1..] == rest;
        [h[0]] + rest
      else
        rest
  }

  /** Pruning keeps a chronological history chronological. */
  lemma {:induction false} PruneChronological(h: seq<Entry>, now: int)
    requires Chronological(h)
    ensures Chronological(Prune(h, now))
  {
    var k := PruneDropsPrefix(h, now);
  }

  /** The history after recording a reading of count players at now: append, then prune. */
  function Admit(h: seq<Entry>, now: int, count: int): (r: seq<Entry>)
    ensures r != [] && r[|r| - 1] == Entry(now, count)
    ensures forall e :: e in r <==> (e in h && InWindow(e, now)) || e == Entry(now, count)
    ensures IsSubsequence(r, h + [Entry(now, count)])
    ensures forall e :: Occurrences(r, e) == if InWindow(e, now) then Occurrences(h + [Entry(now, count)], e) else 0
  {
    Prune(h + [Entry(now, count)], now)
  }

  /** A history whose entries all lie in the window is left unchanged by pruning. */
  lemma {:induction false} PruneKeepsAll(h: seq<Entry>, now: int)
    requires forall e :: e in h ==> InWindow(e, now)
    ensures Prune(h, now) == h
  {
    if h != [] {
      assert forall e :: e in h[1..] ==> e in h;
      PruneKeepsAll(h[1..], now);
      assert [h[0]] + h[1..] == h;
    }
  }

  /** On a chronological history, pruning only ever drops entries from the front. */
  lemma {:induction false} PruneDropsPrefix(h: seq<Entry>, now: int) returns (k: nat)
    requires Chronological(h)
    ensures k <= |h| && Prune(h, now) == h[k..]
  {
    if h == [] {
      k := 0;
    } else if InWindow(h[0], now) {
      forall e | e in h
        ensures InWindow(e, now)
      {
        var i :| 0 <= i < |h| && h[i] == e;
        assert h[0].time <= h[i].time;
      }
      PruneKeepsAll(h, now);
      k := 0;
    } else {
      assert Chronological(h[1..]) by {
        forall i, j | 0 <= i < j < |h| - 1
          ensures h[1..][i].time <= h[1..][j].time
        {
          assert h[1..][i] == h[i + 1] && h[1..][j] == h[j + 1];
        }
      }
      var k' := PruneDropsPrefix(h[1..], now);
      k := k' + 1;
      assert h[1..][k'..] == h[k..];
    }
  }

  /** Pruning twice at the same time changes nothing. */
  lemma PruneIdempotent(h: seq<Entry>, now: int)
    ensures Prune(Prune(h, now), now) == Prune(h, now)
  {
    PruneKeepsAll(Prune(h, now), now);
  }
}
