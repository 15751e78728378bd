/** The host's own history events, whose numbers are not kept apart. */
module HostNotes {
  import opened Options
  import opened Outbox
  import opened OutboxRuns

  // A fact is numbered by its step, a seal not at all, a new proposal and a resumption by a
  // count, and a pin by its place; all but the last two within the revision of the moment. The
  // table takes one event of an instance under a number.

  predicate ClashInOrder(a: Note, b: Note) {
    match (a, b)
    case (Fact(_, i, r), Fact(_, j, s)) => r == s && i == j
    case (Fact(_, i, r), Seal(_, s)) => r == s && i == 5000
    case (Fact(_, i, r), Reproposal(_, j, s)) => r == s && i == 11000 + j
    case (Fact(_, i, r), Resumption(n)) => r == 0 && i == 10000 + n
    case (Seal(_, r), Seal(_, s)) => r == s
    case (Reproposal(_, i, r), Reproposal(_, j, s)) => r == s && i == j
    case (Reproposal(_, j, r), Resumption(n)) => r == 0 && n == 1000 + j
    case (Resumption(i), Resumption(j)) => i == j
    case (Pin(_, i), Pin(_, j)) => i == j
    case (Pin(_, i), Fact(_, j, r)) => r == 0 && i == 50000 + j
    case (Pin(_, i), Seal(_, r)) => r == 0 && i == 55000
    case (Pin(_, i), Reproposal(_, j, r)) => r == 0 && i == 61000 + j
    case (Pin(_, i), Resumption(n)) => i == 60000 + n
    case _ => false
  }

  predicate Clash(a: Note, b: Note) { ClashInOrder(a, b) || ClashInOrder(b, a) }

  /** Main result: exactly when two of the host's notes have one number. Elements and gates play
      no part in it: two seals of one revision always have, and two facts of one step. */
  lemma SameNumberIff(a: Note, b: Note)
    requires IndexIn(a) < SPAN && IndexIn(b) < SPAN
    ensures NumberIn(a) == NumberIn(b) <==> Clash(a, b)
  {
    SeqOrder(RevisionIn(a), IndexIn(a), RevisionIn(b), IndexIn(b));
  }

  /** And exactly when a note has the number of the `i`-th event of a revision's audit. */
  lemma SameNumberAsAuditIff(note: Note, r: nat, i: nat)
    requires IndexIn(note) < SPAN && i < SPAN - AUDIT
    ensures NumberIn(note) == HistorySeq(r, AUDIT + i) <==>
            match note
            case Fact(_, step, s) => s == r && step == 40000 + i
            case Seal(_, _) => false
            case Reproposal(_, count, s) => s == r && count == 29000 + i
            case Resumption(n) => r == 0 && n == 30000 + i
            case Pin(_, index) => r == 0 && index == 90000 + i
  {
    SeqOrder(RevisionIn(note), IndexIn(note), r, AUDIT + i);
  }

  // ------------------------------------------------------------ one note after another

  lemma PlaceOf(t: Tables, instance: nat, note: Note) returns (p: (nat, nat))
    requires HasNote(t, instance, note)
    ensures NoteAt(t, instance, p, note)
  {
    p :| p in t.history.Keys && NoteAt(t, instance, p, note);
  }

  lemma NotedAt(t: Tables, instance: nat, p: (nat, nat), note: Note)
    requires NoteAt(t, instance, p, note)
    ensures HasNote(t, instance, note)
  {
    assert p in t.history.Keys;
  }

  lemma SameKeys(a: Note, b: Note, c: Note)
    requires SameKey(a, b)
    ensures SameKey(a, c) <==> SameKey(b, c)
  {
  }

  /** What has been noted after a note. */
  lemma NotedHas(t: Tables, instance: nat, note: Note, other: Note)
    requires Noted(t, instance, note).Some?
    ensures HasNote(Noted(t, instance, note).value, instance, other) <==>
            HasNote(t, instance, other) || SameKey(note, other)
  {
    var t', place := Noted(t, instance, note).value, (instance, NumberIn(note));
    NotedIs(t, instance, note);
    if HasNote(t, instance, other) {
      var p := PlaceOf(t, instance, other);
      NotedAt(t', instance, p, other);
    } else if SameKey(note, other) {
      SameStill(t, instance, note, other);
    } else if HasNote(t', instance, other) {
      hide HasNote, Noted;
      var p := PlaceOf(t', instance, other);
      if p in t.history { NotedAt(t, instance, p, other); }
    }
  }

  lemma SameStill(t: Tables, instance: nat, note: Note, other: Note)
    requires Noted(t, instance, note).Some? && SameKey(note, other) && !HasNote(t, instance, other)
    ensures HasNote(Noted(t, instance, note).value, instance, other)
  {
    var t', place := Noted(t, instance, note).value, (instance, NumberIn(note));
    if HasNote(t, instance, note) {
      var p := PlaceOf(t, instance, note);
      SameKeys(t.history[p].source.note, note, other);
      NotedAt(t, instance, p, other);
    } else {
      hide HasNote;
      SameKeys(note, other, other);
      assert NoteAt(t', instance, place, other);
      NotedAt(t', instance, place, other);
    }
  }

  /** A fact can be written: it was before, or its number is free. */
  predicate Writable(t: Tables, instance: nat, note: Note) {
    HasNote(t, instance, note) || (instance, NumberIn(note)) !in t.history
  }

  lemma WritableIff(t: Tables, instance: nat, note: Note)
    ensures Noted(t, instance, note).Some? <==> Writable(t, instance, note)
  {
    hide HasNote;
  }

  /** A trail is written, wholly, if and only if each of its facts can be; then each is noted,
      and of the other events none is changed. */
  lemma {:induction false} TrailIff(t: Tables, instance: nat, element: string, revision: nat, n: nat)
    ensures NotedAll(t, instance, Trail(element, revision, n)).Some? <==>
            forall i :: 0 <= i < n ==> Writable(t, instance, Fact(element, i, revision))
    ensures NotedAll(t, instance, Trail(element, revision, n)).Some? ==>
            TrailAdds(t, NotedAll(t, instance, Trail(element, revision, n)).value, instance, element, revision, n)
  {
    hide HasNote, Noted, Writable;
    if n == 0 {
      assert Trail(element, revision, n) == [];
    } else {
      TrailFront(t, instance, element, revision, n);
      TrailIff(t, instance, element, revision, n - 1);
      var m := NotedAll(t, instance, Trail(element, revision, n - 1));
      hide NotedAll;
      if m.Some? {
        var note := Fact(element, n - 1, revision);
        WritableIff(m.value, instance, note);
        SameWritable(t, m.value, instance, element, revision, n - 1);
        hide TrailAdds;
        if Noted(m.value, instance, note).Some? {
          OneMoreFact(t, m.value, instance, element, revision, n - 1);
        }
      }
    }
  }

  lemma TrailFront(t: Tables, instance: nat, element: string, revision: nat, n: nat)
    requires n > 0
    ensures var m := NotedAll(t, instance, Trail(element, revision, n - 1));
            NotedAll(t, instance, Trail(element, revision, n)) ==
            if m.None? then None else Noted(m.value, instance, Fact(element, n - 1, revision))
  {
    hide Noted;
    assert Trail(element, revision, n)[..n - 1] == Trail(element, revision, n - 1);
  }

  /** After the first `n` facts of a trail: what is new is theirs. */
  ghost predicate EventsAdded(t: Tables, t': Tables, instance: nat, element: string, revision: nat, n: nat) {
    && (forall p <- t.history :: p in t'.history && t'.history[p] == t.history[p])
    && (forall p <- t'.history :: p !in t.history ==>
          var i := p.1 - HistorySeq(revision, HOST);
          p.0 == instance && 0 <= i < n && t'.history[p].source == OfHost(Fact(element, i, revision)))
  }

  /** And they are noted. */
  ghost predicate FactsNoted(t: Tables, t': Tables, instance: nat, element: string, n: nat) {
    forall i: nat, e: string, r: nat ::
      HasNote(t', instance, Fact(e, i, r)) <==> HasNote(t, instance, Fact(e, i, r)) || (e == element && i < n)
  }

  ghost predicate TrailAdds(t: Tables, t': Tables, instance: nat, element: string, revision: nat, n: nat) {
    EventsAdded(t, t', instance, element, revision, n) && FactsNoted(t, t', instance, element, n)
  }

  lemma SameWritable(t: Tables, t': Tables, instance: nat, element: string, revision: nat, n: nat)
    requires TrailAdds(t, t', instance, element, revision, n)
    ensures Writable(t', instance, Fact(element, n, revision)) <==> Writable(t, instance, Fact(element, n, revision))
  {
    hide HasNote;
    var place := (instance, NumberIn(Fact(element, n, revision)));
    assert place.1 - HistorySeq(revision, HOST) == n;
  }

  lemma OneMoreFact(t: Tables, m: Tables, instance: nat, element: string, revision: nat, n: nat)
    requires TrailAdds(t, m, instance, element, revision, n)
    requires Noted(m, instance, Fact(element, n, revision)).Some?
    ensures TrailAdds(t, Noted(m, instance, Fact(element, n, revision)).value, instance, element, revision, n + 1)
  {
    var note := Fact(element, n, revision);
    var t' := Noted(m, instance, note).value;
    forall i: nat, e: string, r: nat
      ensures HasNote(t', instance, Fact(e, i, r)) <==> HasNote(m, instance, Fact(e, i, r)) || (e == element && i == n)
    {
      NotedHas(m, instance, note, Fact(e, i, r));
    }
    OneMoreEvent(t, m, instance, element, revision, n);
    hide HasNote, Noted, EventsAdded;
    assert FactsNoted(t, t', instance, element, n + 1);
  }

  lemma OneMoreEvent(t: Tables, m: Tables, instance: nat, element: string, revision: nat, n: nat)
    requires EventsAdded(t, m, instance, element, revision, n)
    requires Noted(m, instance, Fact(element, n, revision)).Some?
    ensures EventsAdded(t, Noted(m, instance, Fact(element, n, revision)).value, instance, element, revision, n + 1)
  {
    var note := Fact(element, n, revision);
    NotedIs(m, instance, note);
    hide Noted;
    assert NumberIn(note) - HistorySeq(revision, HOST) == n;
  }

  // ------------------------------------------------------------ two trails

  /** Nothing of a trail has been written, and its numbers are free. */
  predicate Clear(t: Tables, instance: nat, element: string, revision: nat, n: nat) {
    forall i :: 0 <= i < n ==>
      && !HasNote(t, instance, Fact(element, i, revision))
      && (instance, NumberIn(Fact(element, i, revision))) !in t.history
  }

  /** Main result: two agents' trails are both written if and only if the agents conclude at
      different revisions. At one revision the second trail is lost as a whole, whatever the
      elements are and however long the trails: their first facts have one number. */
  lemma TwoTrailsIff(t: Tables, instance: nat, a: string, ra: nat, m: nat, b: string, rb: nat, n: nat)
    requires a != b && 0 < m <= SPAN - HOST && 0 < n <= SPAN - HOST
    requires Clear(t, instance, a, ra, m) && Clear(t, instance, b, rb, n)
    ensures NotedAll(t, instance, Trail(a, ra, m)).Some?
    ensures NotedAll(NotedAll(t, instance, Trail(a, ra, m)).value, instance, Trail(b, rb, n)).Some? <==> ra != rb
  {
    hide HasNote, NotedAll;
    TrailIff(t, instance, a, ra, m);
    var t' := NotedAll(t, instance, Trail(a, ra, m)).value;
    TrailIff(t', instance, b, rb, n);
    if ra == rb {
      FirstFactTaken(t, t', instance, a, ra, m);
      assert !HasNote(t', instance, Fact(b, 0, rb));
      assert !Writable(t', instance, Fact(b, 0, rb));
    } else {
      forall i | 0 <= i < n ensures Writable(t', instance, Fact(b, i, rb)) {
        FactsApart(t, t', instance, a, ra, m, Fact(b, i, rb));
      }
    }
  }

  lemma FirstFactTaken(t: Tables, t': Tables, instance: nat, a: string, r: nat, m: nat)
    requires m > 0 && !HasNote(t, instance, Fact(a, 0, r)) && TrailAdds(t, t', instance, a, r, m)
    ensures (instance, HistorySeq(r, HOST)) in t'.history
  {
    hide HasNote;
    var note := Fact(a, 0, r);
    assert !HasNote(t, instance, note) && HasNote(t', instance, note);
    var p := PlaceOf(t', instance, note);
    assert !NoteAt(t, instance, p, note) by { NoteAtOnly(t, instance, p, note); }
    assert p !in t.history;
    var i := p.1 - HistorySeq(r, HOST);
    assert 0 <= i < m && t'.history[p].source == OfHost(Fact(a, i, r));
    assert i == 0;
  }

  lemma NoteAtOnly(t: Tables, instance: nat, p: (nat, nat), note: Note)
    requires !HasNote(t, instance, note)
    ensures !NoteAt(t, instance, p, note)
  {
    assert p in t.history.Keys <==> p in t.history;
  }

  lemma FactsApart(t: Tables, t': Tables, instance: nat, a: string, ra: nat, m: nat, note: Note)
    requires TrailAdds(t, t', instance, a, ra, m) && m <= SPAN - HOST
    requires IndexIn(note) < SPAN && RevisionIn(note) != ra && (instance, NumberIn(note)) !in t.history
    ensures (instance, NumberIn(note)) !in t'.history
  {
    hide HasNote;
    var place := (instance, NumberIn(note));
    if place in t'.history {
      var i := place.1 - HistorySeq(ra, HOST);
      SeqOrder(ra, HOST + i, RevisionIn(note), IndexIn(note));
    }
  }

  // ------------------------------------------------------------ every run

  lemma NoteStays(states: seq<State>, steps: seq<Step>, m: nat, n: nat, instance: nat, note: Note)
    requires IsRun(states, steps) && m <= n < |states| && HasNote(states[m].t, instance, note)
    ensures HasNote(states[n].t, instance, note)
  {
    hide HasNote;
    var p := PlaceOf(states[m].t, instance, note);
    NumberKept(states, steps, m, n, p);
    NotedAt(states[n].t, instance, p, note);
  }

  /** Where a note has been written, a different one of the same number is refused for good. */
  lemma RefusedForGood(states: seq<State>, steps: seq<Step>, m: nat, n: nat, instance: nat, a: Note, b: Note)
    requires IsRun(states, steps) && m <= n < |states| && NumberIn(a) == NumberIn(b)
    requires (instance, NumberIn(a)) in states[m].t.history && !HasNote(states[n].t, instance, b)
    ensures Noted(states[n].t, instance, b).None?
  {
    NumberKept(states, steps, m, n, (instance, NumberIn(a)));
    hide HasNote;
  }

  /** Main result: once a gate's effect was sealed at a revision, no other gate's can be. */
  lemma OneSealPerRevision(states: seq<State>, steps: seq<Step>, m: nat, n: nat, instance: nat, r: nat,
                           a: string, b: string)
    requires IsRun(states, steps) && m < n < |states| && steps[m] == Write(instance, [Seal(a, r)])
    requires !HasNote(states[m].t, instance, Seal(a, r)) && !HasNote(states[n].t, instance, Seal(b, r))
    ensures Noted(states[n].t, instance, Seal(b, r)).None?
  {
    assert Enabled(states[m], steps[m]) && states[m + 1] == Next(states[m], steps[m]);
    OneNote(states[m].t, instance, Seal(a, r));
    hide HasNote;
    assert (instance, NumberIn(Seal(a, r))) in states[m + 1].t.history;
    RefusedForGood(states, steps, m + 1, n, instance, Seal(a, r), Seal(b, r));
  }

  lemma OneNote(t: Tables, instance: nat, note: Note)
    ensures NotedAll(t, instance, [note]) == Noted(t, instance, note)
  {
    hide Noted;
    assert [note][..0] == [] && NotedAll(t, instance, []) == Some(t);
  }

  /** Main result: of the agents that conclude at one revision the first leaves its trail; the
      trail of any other is lost, then and later. */
  lemma OneTrailPerRevision(states: seq<State>, steps: seq<Step>, m: nat, n: nat, instance: nat, r: nat,
                            a: string, length: nat, b: string, length': nat)
    requires IsRun(states, steps) && m < n < |states| && steps[m] == Write(instance, Trail(a, r, length))
    requires length > 0 && length' > 0
    requires !HasNote(states[m].t, instance, Fact(a, 0, r)) && !HasNote(states[n].t, instance, Fact(b, 0, r))
    ensures NotedAll(states[n].t, instance, Trail(b, r, length')).None?
  {
    assert Enabled(states[m], steps[m]) && states[m + 1] == Next(states[m], steps[m]);
    TrailIff(states[m].t, instance, a, r, length);
    FirstFactTaken(states[m].t, states[m + 1].t, instance, a, r, length);
    hide HasNote, Noted, Next, Enabled, NotedAll;
    RefusedForGood(states, steps, m + 1, n, instance, Fact(a, 0, r), Fact(b, 0, r));
    WritableIff(states[n].t, instance, Fact(b, 0, r));
    TrailIff(states[n].t, instance, b, r, length');
  }

  /** Main result: the key of a fact has no revision in it, so that an agent's task leaves no
      trail of a second run, at whatever revision, but for steps that the first did not reach. */
  lemma SecondRunSilent(states: seq<State>, steps: seq<Step>, m: nat, n: nat, instance: nat, element: string,
                        r: nat, length: nat, r': nat, length': nat)
    requires IsRun(states, steps) && m < n < |states| && steps[m] == Write(instance, Trail(element, r, length))
    requires length' <= length
    ensures NotedAll(states[n].t, instance, Trail(element, r', length')) == Some(states[n].t)
  {
    assert Enabled(states[m], steps[m]) && states[m + 1] == Next(states[m], steps[m]);
    TrailIff(states[m].t, instance, element, r, length);
    forall i | 0 <= i < length' ensures HasNote(states[n].t, instance, Fact(element, i, r')) {
      assert HasNote(states[m + 1].t, instance, Fact(element, i, r'));
      NoteStays(states, steps, m + 1, n, instance, Fact(element, i, r'));
    }
    hide IsRun, HasNote, Next, Enabled;
    AllNoted(states[n].t, instance, element, r', length');
  }

  lemma {:induction false} AllNoted(t: Tables, instance: nat, element: string, r: nat, n: nat)
    requires forall i :: 0 <= i < n ==> HasNote(t, instance, Fact(element, i, r))
    ensures NotedAll(t, instance, Trail(element, r, n)) == Some(t)
  {
    hide HasNote;
    if n > 0 {
      assert Trail(element, r, n)[..n - 1] == Trail(element, r, n - 1);
      AllNoted(t, instance, element, r, n - 1);
    }
  }
}
