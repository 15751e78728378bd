/** The export of a whole history, page by page, while the history may still grow. */
module HistoryExport {
  import opened Options
  import opened Xes
  import XesReader
  import XesExport

  /** A row of the history; `at` is its instant in milliseconds. The driver hands it out as
      a date. */
  datatype Recorded = Recorded(seqNo: nat, kind: string, at: int, elementId: Option<string>, edgeId: Option<string>)

  /** The events of an instance by sequence number, as one read finds them. */
  type History = h: map<nat, Recorded> | forall n :: n in h ==> h[n].seqNo == n witness map[]

  datatype Page = Page(items: seq<Recorded>, nextCursor: Option<nat>)

  predicate IsLeast(m: nat, s: set<nat>) { m in s && forall n :: n in s ==> m <= n }

  function Least(s: set<nat>): (m: nat)
    requires s != {}
    ensures IsLeast(m, s)
  {
    LeastExists(s);
    var m :| IsLeast(m, s);
    assert forall k :: IsLeast(k, s) ==> k == m;
    m
  }

  lemma {:induction false} LeastExists(s: set<nat>)
    requires s != {}
    ensures exists m :: IsLeast(m, s)
  {
    var k :| k in s;
    var others := s - {k};
    if others == {} {
      assert s == {k};
      assert IsLeast(k, s);
    } else {
      LeastExists(others);
      var m :| IsLeast(m, others);
      LeastOf(s, k, m);
    }
  }

  lemma LeastOf(s: set<nat>, k: nat, m: nat)
    requires k in s && IsLeast(m, s - {k})
    ensures IsLeast(if m <= k then m else k, s)
  {
    forall n | n in s && n != k ensures m <= n {
      assert n in s - {k};
    }
  }

  /** `ORDER BY seq`. */
  function Ascending(s: set<nat>): seq<nat> {
    if s == {} then [] else [Least(s)] + Ascending(s - {Least(s)})
  }

  function Above(h: History, after: int): set<nat> { set n | n in h && n > after }

  function Take<T>(s: seq<T>, n: nat): seq<T> { if n <= |s| then s[..n] else s }

  /** The rows in the order of their numbers, as far as they are rows. */
  function EventsAt(h: History, keys: seq<nat>): (r: seq<Recorded>)
    requires forall i :: 0 <= i < |keys| ==> keys[i] in h
    ensures |r| == |keys| && forall i :: 0 <= i < |keys| ==> r[i] == h[keys[i]]
  {
    seq(|keys|, i requires 0 <= i < |keys| => h[keys[i]])
  }

  function Clamp(limit: int): nat { if limit < 1 then 1 else if limit > 100 then 100 else limit }

  predicate Increasing(s: seq<nat>) { forall i, j :: 0 <= i < j < |s| ==> s[i] < s[j] }

  predicate Lists(s: seq<nat>, keys: set<nat>) {
    && (forall i :: 0 <= i < |s| ==> s[i] in keys)
    && (forall n :: n in keys ==> n in s)
  }

  lemma {:induction false} AscendingLists(s: set<nat>)
    ensures Increasing(Ascending(s)) && Lists(Ascending(s), s)
  {
    if s != {} {
      var m := Least(s);
      var others := s - {m};
      AscendingLists(others);
      LeastFirst(m, others, Ascending(others));
      assert others + {m} == s;
    }
  }

  lemma LeastFirst(m: nat, others: set<nat>, rest: seq<nat>)
    requires Increasing(rest) && Lists(rest, others) && forall n :: n in others ==> m < n
    ensures Increasing([m] + rest) && Lists([m] + rest, others + {m})
  {
    forall n | n in others + {m} ensures n in [m] + rest {
      if n != m { assert n in rest; }
    }
  }

  /** One page: one row more than the limit is read to see whether there is a next one. */
  function ReadPage(h: History, cursor: Option<nat>, limit: int): Page {
    var keys := Ascending(Above(h, After(cursor)));
    AscendingLists(Above(h, After(cursor)));
    var rows := EventsAt(h, Take(keys, Clamp(limit) + 1));
    var items := Take(rows, Clamp(limit));
    Page(items, if |rows| > Clamp(limit) then Some(items[|items| - 1].seqNo) else None)
  }

  predicate EventsIncrease(events: seq<Recorded>) {
    forall i, j :: 0 <= i < j < |events| ==> events[i].seqNo < events[j].seqNo
  }

  function After(cursor: Option<nat>): int { if cursor.Some? then cursor.value else -1 }

  /** The events of `h` after `from` and up to `to` are exactly those of `page`. */
  predicate Covers(page: seq<Recorded>, h: History, from: int, to: int) {
    && (forall i :: 0 <= i < |page| ==> from < page[i].seqNo <= to && page[i].seqNo in h && h[page[i].seqNo] == page[i])
    && (forall n :: n in h && from < n <= to ==> h[n] in page)
  }

  /** What a page promises, without saying how it is read: its events increase, they are
      all there are from the cursor to the next one, and a page without a next cursor
      reaches the end. */
  ghost predicate PageIs(p: Page, h: History, after: int, limit: nat) {
    && EventsIncrease(p.items)
    && |p.items| <= limit
    && (p.nextCursor.Some? ==> after < p.nextCursor.value && p.nextCursor.value in h
                               && Covers(p.items, h, after, p.nextCursor.value))
    && (p.nextCursor.None? ==> forall to :: (forall n :: n in h ==> n <= to) ==> Covers(p.items, h, after, to))
  }

  /** The first rows, up to the number of the last of them. */
  lemma FrontCovers(h: History, after: int, keys: seq<nat>, n: nat)
    requires Increasing(keys) && Lists(keys, Above(h, after)) && 0 < n <= |keys|
    ensures EventsIncrease(EventsAt(h, keys[..n])) && Covers(EventsAt(h, keys[..n]), h, after, keys[n - 1])
  {
    var items := EventsAt(h, keys[..n]);
    forall k | k in h && after < k <= keys[n - 1] ensures h[k] in items {
      assert k in Above(h, after);
      var i :| 0 <= i < |keys| && keys[i] == k;
      assert items[i] == h[k];
    }
  }

  lemma AllCovers(h: History, after: int, keys: seq<nat>, to: int)
    requires Increasing(keys) && Lists(keys, Above(h, after)) && forall k :: k in h ==> k <= to
    ensures EventsIncrease(EventsAt(h, keys)) && Covers(EventsAt(h, keys), h, after, to)
  {
    var items := EventsAt(h, keys);
    forall k | k in h && after < k ensures h[k] in items {
      assert k in Above(h, after);
      var i :| 0 <= i < |keys| && keys[i] == k;
      assert items[i] == h[k];
    }
  }

  /** The cut of a page: the first rows, and the number of the last one if a row is left. */
  lemma PageCut(h: History, cursor: Option<nat>, limit: int)
    ensures var keys := Ascending(Above(h, After(cursor)));
            var n := Clamp(limit);
            var p := ReadPage(h, cursor, limit);
            && (forall i :: 0 <= i < |keys| ==> keys[i] in h)
            && n >= 1
            && (|keys| > n ==> p == Page(EventsAt(h, keys[..n]), Some(keys[n - 1])))
            && (|keys| <= n ==> p == Page(EventsAt(h, keys), None))
  {
    AscendingLists(Above(h, After(cursor)));
    hide Ascending, Increasing;
    var keys := Ascending(Above(h, After(cursor)));
    var n := Clamp(limit);
    if |keys| > n {
      assert EventsAt(h, keys[..n + 1])[..n] == EventsAt(h, keys[..n]);
    } else {
      assert Take(EventsAt(h, keys), n) == EventsAt(h, keys);
    }
  }

  lemma PageCovers(h: History, cursor: Option<nat>, limit: int)
    ensures PageIs(ReadPage(h, cursor, limit), h, After(cursor), Clamp(limit))
  {
    AscendingLists(Above(h, After(cursor)));
    PageCut(h, cursor, limit);
    var keys := Ascending(Above(h, After(cursor)));
    var n := Clamp(limit);
    hide Ascending, Increasing, ReadPage, Covers, EventsIncrease, Clamp;
    if |keys| > n {
      FrontCovers(h, After(cursor), keys, n);
    } else {
      forall to | (forall k :: k in h ==> k <= to) ensures Covers(EventsAt(h, keys), h, After(cursor), to) {
        AllCovers(h, After(cursor), keys, to);
      }
      AllCovers(h, After(cursor), keys, MaxKey(h));
    }
  }

  ghost predicate Within(a: History, b: History) { forall n :: n in a ==> n in b && a[n] == b[n] }

  /** The database over time: nothing recorded is taken back, and growth ends. */
  ghost predicate Grows(seen: nat -> History, final: History) {
    && (forall k: nat :: Within(seen(k), seen(k + 1)))
    && (forall k: nat :: Within(seen(k), final))
  }

  lemma {:induction false} StartRemains(seen: nat -> History, final: History, k: nat)
    requires Grows(seen, final)
    ensures Within(seen(0), seen(k))
  {
    if k > 0 {
      StartRemains(seen, final, k - 1);
      assert Within(seen(k - 1), seen(k - 1 + 1));
    }
  }

  /** The events collected up to `to`: they increase, all were recorded, and every event
      of the history the export started from is among them. */
  ghost predicate Collected(all: seq<Recorded>, start: History, final: History, to: int) {
    && EventsIncrease(all)
    && (forall i :: 0 <= i < |all| ==> all[i].seqNo <= to && all[i].seqNo in final && final[all[i].seqNo] == all[i])
    && (forall n :: n in start && n <= to ==> start[n] in all)
  }

  lemma CollectPage(all: seq<Recorded>, page: seq<Recorded>, start: History, h: History, final: History, from: int,
                    to: int)
    requires Collected(all, start, final, from) && Covers(page, h, from, to) && EventsIncrease(page)
    requires from <= to && Within(start, h) && Within(h, final)
    ensures Collected(all + page, start, final, to)
  {
    forall n | n in start && n <= to ensures start[n] in all + page {
      if n > from {
        assert h[n] in page;
      } else {
        assert start[n] in all;
      }
    }
  }

  function MaxKey(h: History): (m: int)
    ensures forall n :: n in h ==> n <= m
    ensures m >= -1
    decreases |h|
  {
    if h == map[] then -1
    else
      var k := Least(h.Keys);
      var rest := h - {k};
      assert forall n :: n in h ==> n == k || n in rest;
      if k > MaxKey(rest) then k else MaxKey(rest)
  }

  /** The loop of the export. It ends, whatever is recorded meanwhile, and collects the
      events in strictly increasing order, without duplicates, all of them recorded, and
      among them every event that was there when it began. */
  method Export(seen: nat -> History, ghost final: History) returns (all: seq<Recorded>)
    requires Grows(seen, final)
    ensures EventsIncrease(all)
    ensures forall i :: 0 <= i < |all| ==> all[i].seqNo in final && final[all[i].seqNo] == all[i]
    ensures forall n :: n in seen(0) ==> seen(0)[n] in all
  {
    hide ReadPage, Ascending, Covers;
    var cursor: Option<nat> := None;
    all := [];
    var k := 0;
    ghost var start := seen(0);
    while true
      invariant Collected(all, start, final, After(cursor))
      invariant cursor.Some? ==> cursor.value in final
      decreases Above(final, After(cursor))
    {
      var page := ReadPage(seen(k), cursor, 100);
      StartRemains(seen, final, k);
      PageCovers(seen(k), cursor, 100);
      ghost var from := After(cursor);
      ghost var last := MaxKey(final);
      ghost var to := if page.nextCursor.Some? then page.nextCursor.value else if last > from then last else from;
      CollectPage(all, page.items, start, seen(k), final, from, to);
      all := all + page.items;
      if page.nextCursor.None? {
        return;
      }
      assert page.nextCursor.value in Above(final, from);
      cursor := page.nextCursor;
      k := k + 1;
    }
  }

  /** With nothing recorded meanwhile the export is the history, each event once. */
  lemma QuietExportIsHistory(all: seq<Recorded>, h: History)
    requires EventsIncrease(all)
    requires forall i :: 0 <= i < |all| ==> all[i].seqNo in h && h[all[i].seqNo] == all[i]
    requires forall n :: n in h ==> h[n] in all
    ensures |all| == |h|
  {
    var numbers := seq(|all|, i requires 0 <= i < |all| => all[i].seqNo);
    assert Increasing(numbers);
    forall n ensures n in numbers <==> n in h.Keys {
      if n in h {
        var i :| 0 <= i < |all| && all[i] == h[n];
        assert numbers[i] == n;
      }
    }
    IncreasingCounts(numbers, h.Keys);
  }

  lemma {:induction false} IncreasingCounts(s: seq<nat>, keys: set<nat>)
    requires Increasing(s) && forall n :: n in s <==> n in keys
    ensures |s| == |keys|
  {
    if s == [] {
      assert keys == {};
    } else {
      var last := s[|s| - 1];
      var front := s[..|s| - 1];
      assert last in keys;
      forall n ensures n in front <==> n in keys - {last} {
        if n in keys - {last} {
          assert n in s;
        }
      }
      IncreasingCounts(front, keys - {last});
    }
  }

  // What is sent.

  /** `String(date)` shows whole seconds, so this is the instant that is read from it. */
  function Shown(at: int): int { at - at % 1000 }

  /** The event that is printed for a row; `iso` is how an instant is written. */
  function Sent(r: Recorded, iso: int -> string): Event {
    Event(r.seqNo, r.kind, iso(Shown(r.at)), r.elementId, r.edgeId)
  }

  function SentAll(rows: seq<Recorded>, iso: int -> string): seq<Event> {
    seq(|rows|, i requires 0 <= i < |rows| => Sent(rows[i], iso))
  }

  /** The whole request: the rows that were collected, and what a reader gets from the
      text that is sent for them. */
  method ExportXes(instance: Instance, seen: nat -> History, iso: int -> string, ghost final: History)
    returns (text: string, rows: seq<Recorded>)
    requires Grows(seen, final)
    ensures EventsIncrease(rows)
    ensures forall i :: 0 <= i < |rows| ==> rows[i].seqNo in final && final[rows[i].seqNo] == rows[i]
    ensures forall n :: n in seen(0) ==> seen(0)[n] in rows
    ensures XesReader.ReadLog(text, false)
         == Some(XesReader.Log("buildtovalue " + instance.definitionRef, TraceName(instance),
                               seq(|rows|, i requires 0 <= i < |rows| => XesExport.Kept(Sent(rows[i], iso)))))
  {
    hide Text, XesReader.ReadLog, XesExport.Kept, Sent;
    rows := Export(seen, final);
    var events := SentAll(rows, iso);
    text := InstanceHistoryToXes(instance, events);
    XesExport.RoundTrip(instance, events);
    assert seq(|events|, i requires 0 <= i < |events| => XesExport.Kept(events[i]))
        == seq(|rows|, i requires 0 <= i < |rows| => XesExport.Kept(Sent(rows[i], iso)));
  }

  /** Two instants are never written alike. */
  ghost predicate Injective(iso: int -> string) { forall a, b :: iso(a) == iso(b) ==> a == b }

  /** The timestamp that is sent is the one that was recorded exactly when that falls on a
      whole second; the milliseconds are lost on the way through `String`. */
  lemma TimestampIff(r: Recorded, iso: int -> string)
    requires Injective(iso)
    ensures Sent(r, iso).timestamp == iso(r.at) <==> r.at % 1000 == 0
  {
    assert iso(Shown(r.at)) == iso(r.at) ==> Shown(r.at) == r.at;
  }

  /** So two events within one second are sent with one and the same timestamp. */
  lemma SameSecondSameTimestamp(r: Recorded, q: Recorded, iso: int -> string)
    requires Injective(iso)
    ensures Sent(r, iso).timestamp == Sent(q, iso).timestamp <==> r.at / 1000 == q.at / 1000
  {
    assert r.at == 1000 * (r.at / 1000) + r.at % 1000 && q.at == 1000 * (q.at / 1000) + q.at % 1000;
    assert iso(Shown(r.at)) == iso(Shown(q.at)) ==> Shown(r.at) == Shown(q.at);
  }

  // How full a page is.

  lemma {:induction false} AscendingCounts(s: set<nat>)
    ensures |Ascending(s)| == |s|
  {
    if s != {} { AscendingCounts(s - {Least(s)}); }
  }

  /** A page is as full as can be: it has as many events as are left behind the cursor, but no more
      than the limit, which is at least 1 and at most 100; and it has a next cursor, the number
      of its last event, exactly if events are left behind it. */
  lemma PageIsFull(h: History, cursor: Option<nat>, limit: int)
    ensures var left := set n | n in h && (cursor.None? || n > cursor.value);
            var most := if limit < 1 then 1 else if limit > 100 then 100 else limit;
            var p := ReadPage(h, cursor, limit);
            && |p.items| == (if |left| < most then |left| else most)
            && (p.nextCursor.Some? <==> |left| > most)
            && (p.nextCursor.Some? ==> p.nextCursor.value == p.items[|p.items| - 1].seqNo)
  {
    var left := set n | n in h && (cursor.None? || n > cursor.value);
    assert Above(h, After(cursor)) == left;
    AscendingCounts(left);
    PageCut(h, cursor, limit);
    hide Ascending, ReadPage;
  }
}
