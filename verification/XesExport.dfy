/** What the export keeps of a history, and what a reader gets back. */
module XesExport {
  import opened Options
  import opened Xes
  import opened XesReader
  import opened XesRoundTrip
  import opened XesLogs

  /** An event as a reader gets it: an empty id is gone. */
  function SeenId(id: Option<string>, conforming: bool): Option<string> {
    if Written(id) then Some(Seen(id.value, conforming)) else None
  }

  function SeenEvent(e: Event, conforming: bool): Event {
    Event(e.seqNo, Seen(e.kind, conforming), Seen(e.timestamp, conforming),
          SeenId(e.elementId, conforming), SeenId(e.edgeId, conforming))
  }

  function SeenEvents(events: seq<Event>, conforming: bool): seq<Event> {
    if events == [] then [] else [SeenEvent(events[0], conforming)] + SeenEvents(events[1..], conforming)
  }

  function SeenLog(instance: Instance, events: seq<Event>, conforming: bool): Log {
    Log(Seen("buildtovalue " + instance.definitionRef, conforming),
        Seen(TraceName(instance), conforming),
        SeenEvents(events, conforming))
  }

  // Attributes.

  lemma SeenUnbroken(s: string, conforming: bool)
    requires Unbroken(s)
    ensures Seen(s, conforming) == s
  {
    NormaliseIff(s);
  }

  /** The row carries one key and value. */
  predicate Carries(r: Row, key: string, value: string) {
    && r.tag.Element? && r.tag.ending == Empty && Unbroken(key)
    && r.tag.attributes == [("key", key), ("value", value)]
  }

  lemma SeenCarried(r: Row, key: string, value: string, conforming: bool)
    requires Carries(r, key, value)
    ensures var t := SeenTag(r.tag, conforming);
            && IsAttribute(t) && t.name == r.tag.name
            && t.attributes[0].1 == key && t.attributes[1].1 == Seen(value, conforming)
  {
    SeenUnbroken(key, conforming);
    var a := r.tag.attributes;
    assert a[1..] == [("value", value)] && a[1..][1..] == [];
    hide Seen, Unbroken;
    assert SeenPairs(a[1..][1..], conforming) == [];
    assert SeenPairs(a[1..], conforming) == [("value", Seen(value, conforming))];
    assert SeenPairs(a, conforming) == [("key", key), ("value", Seen(value, conforming))];
  }

  predicate AllCarry(rows: seq<Row>, pairs: seq<(string, string)>) {
    |rows| == |pairs| && forall i :: 0 <= i < |rows| ==> Carries(rows[i], pairs[i].0, pairs[i].1)
  }

  lemma {:induction false} ReadAllPairs(rows: seq<Row>, pairs: seq<(string, string)>, rest: seq<Tag>, conforming: bool)
    requires AllCarry(rows, pairs)
    ensures ReadPairs(SeenTags(rows, conforming) + [Closing("event")] + rest)
            == Some((SeenPairs(pairs, conforming), rest))
  {
    hide SeenTag, Seen, Carries;
    var tags := SeenTags(rows, conforming) + [Closing("event")] + rest;
    if rows == [] {
      assert tags == [Closing("event")] + rest;
    } else {
      assert Carries(rows[0], pairs[0].0, pairs[0].1);
      SeenCarried(rows[0], pairs[0].0, pairs[0].1, conforming);
      assert tags[1..] == SeenTags(rows[1..], conforming) + [Closing("event")] + rest;
      ReadAllPairs(rows[1..], pairs[1..], rest, conforming);
    }
  }

  // One event.

  function FixedPairs(e: Event): seq<(string, string)> {
    [("concept:name", e.kind), ("time:timestamp", e.timestamp),
     ("lifecycle:transition", "complete"), ("btv:seq", Decimal(e.seqNo))]
  }

  function IdPair(key: string, id: Option<string>): seq<(string, string)> {
    if Written(id) then [(key, id.value)] else []
  }

  function EventPairs(e: Event): seq<(string, string)> {
    FixedPairs(e) + IdPair("btv:elementId", e.elementId) + IdPair("btv:edgeId", e.edgeId)
  }

  /** The rows of an event between its opening and its close. */
  function BodyRows(e: Event): seq<Row> {
    FixedRows(e)[1..] + IdRow("btv:elementId", e.elementId) + IdRow("btv:edgeId", e.edgeId)
  }

  lemma UnbrokenKeys()
    ensures Unbroken("concept:name") && Unbroken("time:timestamp") && Unbroken("lifecycle:transition")
    ensures Unbroken("btv:seq") && Unbroken("btv:elementId") && Unbroken("btv:edgeId") && Unbroken("complete")
  {
  }

  lemma BodyCarries(e: Event)
    ensures AllCarry(BodyRows(e), EventPairs(e))
  {
    UnbrokenKeys();
    hide Unbroken, Decimal, SIX;
  }

  lemma {:induction false} UnderConcat(a: seq<(string, string)>, b: seq<(string, string)>, key: string)
    ensures Under(a + b, key) == if Under(a, key).Some? then Under(a, key) else Under(b, key)
  {
    if a == [] {
      assert a + b == b;
    } else {
      assert (a + b)[1..] == a[1..] + b;
      UnderConcat(a[1..], b, key);
    }
  }

  lemma {:induction false} UnderSeen(pairs: seq<(string, string)>, key: string, conforming: bool)
    ensures Under(SeenPairs(pairs, conforming), key)
         == if Under(pairs, key).Some? then Some(Seen(Under(pairs, key).value, conforming)) else None
  {
    hide Seen;
    if pairs != [] {
      UnderSeen(pairs[1..], key, conforming);
    }
  }

  lemma KeysDiffer()
    ensures |"concept:name"| == 12 && |"time:timestamp"| == 14 && |"lifecycle:transition"| == 20
    ensures |"btv:seq"| == 7 && |"btv:elementId"| == 13 && |"btv:edgeId"| == 10
  {
  }

  lemma UnderFixed(e: Event, key: string)
    ensures Under(FixedPairs(e), key) ==
      if key == "concept:name" then Some(e.kind)
      else if key == "time:timestamp" then Some(e.timestamp)
      else if key == "lifecycle:transition" then Some("complete")
      else if key == "btv:seq" then Some(Decimal(e.seqNo))
      else None
  {
    hide Decimal;
    var p := FixedPairs(e);
    assert p[1..] == [p[1], p[2], p[3]];
    assert p[1..][1..] == [p[2], p[3]];
    assert [p[2], p[3]][1..] == [p[3]];
    assert [p[3]][1..] == [];
    assert Under([p[3]], key) == if p[3].0 == key then Some(p[3].1) else None;
    assert Under([p[2], p[3]], key) == if p[2].0 == key then Some(p[2].1) else Under([p[3]], key);
  }

  lemma UnderId(key: string, id: Option<string>, other: string)
    ensures Under(IdPair(key, id), other) == if other == key && Written(id) then Some(id.value) else None
  {
    if Written(id) { assert IdPair(key, id)[1..] == []; }
  }

  /** Looking a key up among an event's pairs. */
  lemma UnderEvent(e: Event, key: string)
    ensures Under(EventPairs(e), key) ==
      if Under(FixedPairs(e), key).Some? then Under(FixedPairs(e), key)
      else if key == "btv:elementId" && Written(e.elementId) then Some(e.elementId.value)
      else if key == "btv:edgeId" && Written(e.edgeId) then Some(e.edgeId.value)
      else None
  {
    KeysDiffer();
    UnderId("btv:elementId", e.elementId, key);
    UnderId("btv:edgeId", e.edgeId, key);
    hide FixedPairs, IdPair, Under;
    UnderConcat(FixedPairs(e), IdPair("btv:elementId", e.elementId), key);
    UnderConcat(FixedPairs(e) + IdPair("btv:elementId", e.elementId), IdPair("btv:edgeId", e.edgeId), key);
  }

  /** The value under a key as the reader sees it. */
  lemma SeenUnder(e: Event, key: string, conforming: bool)
    ensures Under(SeenPairs(EventPairs(e), conforming), key)
         == if Under(EventPairs(e), key).Some? then Some(Seen(Under(EventPairs(e), key).value, conforming)) else None
  {
    UnderSeen(EventPairs(e), key, conforming);
  }

  lemma IdsSeen(e: Event, conforming: bool)
    ensures Under(SeenPairs(EventPairs(e), conforming), "btv:elementId") == SeenId(e.elementId, conforming)
    ensures Under(SeenPairs(EventPairs(e), conforming), "btv:edgeId") == SeenId(e.edgeId, conforming)
  {
    KeysDiffer();
    hide Under, SeenPairs, EventPairs, Seen, FixedPairs;
    UnderFixed(e, "btv:elementId");
    UnderEvent(e, "btv:elementId");
    SeenUnder(e, "btv:elementId", conforming);
    UnderFixed(e, "btv:edgeId");
    UnderEvent(e, "btv:edgeId");
    SeenUnder(e, "btv:edgeId", conforming);
  }

  lemma FixedSeen(e: Event, conforming: bool)
    ensures Under(SeenPairs(EventPairs(e), conforming), "concept:name") == Some(Seen(e.kind, conforming))
    ensures Under(SeenPairs(EventPairs(e), conforming), "time:timestamp") == Some(Seen(e.timestamp, conforming))
    ensures Under(SeenPairs(EventPairs(e), conforming), "btv:seq") == Some(Decimal(e.seqNo))
  {
    KeysDiffer();
    DecimalPlain(e.seqNo);
    hide Under, SeenPairs, EventPairs, FixedPairs, Normalise, Decimal;
    UnderFixed(e, "concept:name");
    UnderEvent(e, "concept:name");
    SeenUnder(e, "concept:name", conforming);
    UnderFixed(e, "time:timestamp");
    UnderEvent(e, "time:timestamp");
    SeenUnder(e, "time:timestamp", conforming);
    UnderFixed(e, "btv:seq");
    UnderEvent(e, "btv:seq");
    SeenUnder(e, "btv:seq", conforming);
  }

  lemma EventOfSeen(e: Event, conforming: bool)
    ensures EventOf(SeenPairs(EventPairs(e), conforming)) == Some(SeenEvent(e, conforming))
  {
    hide Under, SeenPairs, EventPairs, Seen, Number, Decimal;
    FixedSeen(e, conforming);
    IdsSeen(e, conforming);
    NumberOfDecimal(e.seqNo);
  }

  function EventTag(): Tag { Element("event", [], Opening) }

  /** The rows of an event are its opening, its body and its close. */
  lemma EventTags(e: Event, conforming: bool)
    ensures SeenTags(EventRows(e), conforming)
         == [EventTag()] + SeenTags(BodyRows(e), conforming) + [Closing("event")]
  {
    var first := FixedRows(e)[..1];
    var end := [Row("    ", Closing("event"))];
    assert EventRows(e) == first + BodyRows(e) + end by { assert FixedRows(e) == first + FixedRows(e)[1..]; }
    assert first[1..] == [] && end[1..] == [];
    assert SeenTags(first, conforming) == [EventTag()];
    assert SeenTags(end, conforming) == [Closing("event")];
    hide SeenTags, EventRows, BodyRows;
    SeenTagsConcat(first + BodyRows(e), end, conforming);
    SeenTagsConcat(first, BodyRows(e), conforming);
  }

  lemma {:induction false} AllEventRowsFront(events: seq<Event>)
    requires events != []
    ensures AllEventRows(events) == EventRows(events[0]) + AllEventRows(events[1..])
  {
    hide EventRows;
    var front := events[..|events| - 1];
    if |events| == 1 {
      assert front == [] && events[1..] == [];
      assert AllEventRows(events) == AllEventRows([]) + EventRows(events[0]);
    } else {
      AllEventRowsFront(front);
      assert front[1..] == events[1..][..|events| - 2] && front[0] == events[0];
      var middle, last := AllEventRows(front[1..]), EventRows(events[|events| - 1]);
      assert AllEventRows(events[1..]) == middle + last;
      assert (EventRows(events[0]) + middle) + last == EventRows(events[0]) + (middle + last);
    }
  }

  lemma ReadEventStep(first: Tag, body: seq<Tag>, pairs: seq<(string, string)>, e: Event,
                      others: seq<Tag>, events: seq<Event>, rest: seq<Tag>)
    requires IsOpening(first, "event") && ReadPairs(body) == Some((pairs, others))
    requires EventOf(pairs) == Some(e) && ReadEvents(others) == Some((events, rest))
    ensures ReadEvents([first] + body) == Some(([e] + events, rest))
  {
    hide IsOpening, ReadPairs, EventOf;
    assert ([first] + body)[1..] == body;
  }

  /** The events of a trace, in order. */
  lemma {:induction false} ReadAllEvents(events: seq<Event>, rest: seq<Tag>, conforming: bool)
    requires rest != [] && !IsOpening(rest[0], "event")
    ensures ReadEvents(SeenTags(AllEventRows(events), conforming) + rest)
            == Some((SeenEvents(events, conforming), rest))
  {
    if events == [] {
      assert SeenTags([], conforming) + rest == rest;
    } else {
      ReadAllEvents(events[1..], rest, conforming);
      ReadFrontEvent(events, rest, conforming);
    }
  }

  lemma EventOpens()
    ensures IsOpening(EventTag(), "event")
  {
  }

  lemma ReadFrontEvent(events: seq<Event>, rest: seq<Tag>, conforming: bool)
    requires events != []
    requires ReadEvents(SeenTags(AllEventRows(events[1..]), conforming) + rest)
             == Some((SeenEvents(events[1..], conforming), rest))
    ensures ReadEvents(SeenTags(AllEventRows(events), conforming) + rest)
            == Some((SeenEvents(events, conforming), rest))
  {
    var e := events[0];
    hide EventTag, SeenTags, BodyRows, AllCarry, EventPairs, AllEventRows, SeenPairs, FixedRows, SeenEvent, EventOf,
        IsOpening,
         ReadPairs, ReadEvents;
    var others := SeenTags(AllEventRows(events[1..]), conforming) + rest;
    var body := SeenTags(BodyRows(e), conforming) + [Closing("event")] + others;
    FrontTags(events, conforming);
    BodyCarries(e);
    ReadAllPairs(BodyRows(e), EventPairs(e), others, conforming);
    EventOfSeen(e, conforming);
    assert IsOpening(EventTag(), "event") by { EventOpens(); }
    ReadEventStep(EventTag(), body, SeenPairs(EventPairs(e), conforming), SeenEvent(e, conforming),
                  others, SeenEvents(events[1..], conforming), rest);
    Regroup([EventTag()], SeenTags(BodyRows(e), conforming), [Closing("event")],
            SeenTags(AllEventRows(events[1..]), conforming), rest);
  }

  lemma Regroup(a: seq<Tag>, b: seq<Tag>, c: seq<Tag>, d: seq<Tag>, r: seq<Tag>)
    ensures a + b + c + d + r == a + (b + c + (d + r))
  {
  }

  lemma FrontTags(events: seq<Event>, conforming: bool)
    requires events != []
    ensures SeenTags(AllEventRows(events), conforming)
         == [EventTag()] + SeenTags(BodyRows(events[0]), conforming)
            + [Closing("event")] + SeenTags(AllEventRows(events[1..]), conforming)
  {
    hide SeenTags, AllEventRows, EventRows, FixedRows, BodyRows;
    AllEventRowsFront(events);
    SeenTagsConcat(EventRows(events[0]), AllEventRows(events[1..]), conforming);
    EventTags(events[0], conforming);
  }

  // The whole log.

  lemma {:induction false} SkipAll(a: seq<Tag>, b: seq<Tag>)
    requires forall t <- a :: InPreamble(t)
    requires b != [] && !InPreamble(b[0])
    ensures SkipPreamble(a + b) == b
  {
    hide InPreamble;
    if a == [] {
      assert a + b == b;
    } else {
      assert (a + b)[1..] == a[1..] + b;
      SkipAll(a[1..], b);
    }
  }

  lemma {:induction false} SeenTagsAt(rows: seq<Row>, conforming: bool)
    ensures |SeenTags(rows, conforming)| == |rows|
    ensures forall i :: 0 <= i < |rows| ==> SeenTags(rows, conforming)[i] == SeenTag(rows[i].tag, conforming)
  {
    hide SeenTag;
    if rows != [] {
      SeenTagsAt(rows[1..], conforming);
    }
  }

  lemma HeaderSeen(conforming: bool)
    ensures forall t <- SeenTags(HeaderRows(), conforming) :: InPreamble(t)
  {
    hide SeenPairs;
    SeenTagsAt(HeaderRows(), conforming);
  }

  /** The rows between the header and the events. */
  function NameRows(instance: Instance): seq<Row> {
    [AttributeRow("  ", "string", "concept:name", "buildtovalue " + instance.definitionRef),
     Row("  ", Element("trace", [], Opening)),
     AttributeRow("    ", "string", "concept:name", TraceName(instance))]
  }

  lemma NamesSeen(instance: Instance, conforming: bool)
    ensures var t := SeenTags(NameRows(instance), conforming);
            && |t| == 3 && IsNamed(t[0]) && IsOpening(t[1], "trace") && IsNamed(t[2]) && !InPreamble(t[0])
            && t[0].attributes[1].1 == Seen("buildtovalue " + instance.definitionRef, conforming)
            && t[2].attributes[1].1 == Seen(TraceName(instance), conforming)
  {
    UnbrokenKeys();
    var rows := NameRows(instance);
    SeenTagsAt(rows, conforming);
    assert |"string"| == 6 && |"extension"| == 9;
    hide Seen, Unbroken, SeenTags;
    SeenCarried(rows[0], "concept:name", "buildtovalue " + instance.definitionRef, conforming);
    SeenCarried(rows[2], "concept:name", TraceName(instance), conforming);
  }

  lemma EndSeen(conforming: bool)
    ensures SeenTags(EndRows(), conforming) == [Closing("trace"), Closing("log")]
  {
    SeenTagsAt(EndRows(), conforming);
  }

  lemma LogOfRows(instance: Instance, events: seq<Event>, conforming: bool)
    ensures LogOf(SeenTags(Rows(instance, events), conforming)) == Some(SeenLog(instance, events, conforming))
  {
    hide SeenTags, HeaderRows, NameRows, AllEventRows, EndRows, Seen, SkipPreamble, InPreamble, ReadEvents, IsNamed;
    var end := [Closing("trace"), Closing("log")];
    var names := SeenTags(NameRows(instance), conforming);
    var body := SeenTags(AllEventRows(events), conforming) + end;
    TagsOfRows(instance, events, conforming);
    HeaderSeen(conforming);
    NamesSeen(instance, conforming);
    SkipAll(SeenTags(HeaderRows(), conforming), names + body);
    ReadAllEvents(events, end, conforming);
    assert (names + body)[3..] == body;
  }

  lemma TagsOfRows(instance: Instance, events: seq<Event>, conforming: bool)
    ensures SeenTags(Rows(instance, events), conforming)
         == SeenTags(HeaderRows(), conforming)
            + (SeenTags(NameRows(instance), conforming)
               + (SeenTags(AllEventRows(events), conforming) + [Closing("trace"), Closing("log")]))
  {
    assert TopRows(instance) == HeaderRows() + NameRows(instance);
    hide SeenTags, HeaderRows, NameRows, AllEventRows, EndRows, TopRows;
    EndSeen(conforming);
    SeenTagsConcat(TopRows(instance) + AllEventRows(events), EndRows(), conforming);
    SeenTagsConcat(TopRows(instance), AllEventRows(events), conforming);
    SeenTagsConcat(HeaderRows(), NameRows(instance), conforming);
  }

  /** Either reader recovers the log, the event count and order, and every field of every
      event, up to what it does to each string; a conforming one only where it accepts
      the characters. */
  lemma ReadBack(instance: Instance, events: seq<Event>, conforming: bool)
    ensures ReadLog(Text(instance, events), conforming)
         == if conforming && !AllXml(Text(instance, events)) then None else Some(SeenLog(instance, events, conforming))
  {
    hide Text, ReadTags, LogOf, Rows, SeenLog, AllXml;
    ReadExport(instance, events, conforming);
    LogOfRows(instance, events, conforming);
  }

  /** What the export keeps of an event: everything but an empty id. */
  function Kept(e: Event): Event {
    e.(elementId := if Written(e.elementId) then e.elementId else None,
       edgeId := if Written(e.edgeId) then e.edgeId else None)
  }

  lemma {:induction false} SeenEventsAt(events: seq<Event>, conforming: bool)
    ensures |SeenEvents(events, conforming)| == |events|
    ensures forall i :: 0 <= i < |events| ==> SeenEvents(events, conforming)[i] == SeenEvent(events[i], conforming)
  {
    hide SeenEvent;
    if events != [] {
      SeenEventsAt(events[1..], conforming);
    }
  }

  /** The round trip, for arbitrary strings: a reader that takes values up to the next
      quote and unescapes them gets back the log that was printed. */
  lemma RoundTrip(instance: Instance, events: seq<Event>)
    ensures ReadLog(Text(instance, events), false)
         == Some(Log("buildtovalue " + instance.definitionRef, TraceName(instance),
                     seq(|events|, i requires 0 <= i < |events| => Kept(events[i]))))
  {
    hide Text, ReadLog;
    ReadBack(instance, events, false);
    SeenEventsAt(events, false);
    assert SeenEvents(events, false) == seq(|events|, i requires 0 <= i < |events| => Kept(events[i]));
  }

  /** Every string of the log that comes from outside: the reference, the name, and the
      kind, timestamp and written ids of every event. */
  ghost predicate Printed(instance: Instance, events: seq<Event>, s: string) {
    || s == instance.definitionRef
    || s == TraceName(instance)
    || exists e :: e in events && PrintedIn(e, s)
  }

  predicate PrintedIn(e: Event, s: string) {
    || s == e.kind || s == e.timestamp
    || (Written(e.elementId) && s == e.elementId.value)
    || (Written(e.edgeId) && s == e.edgeId.value)
  }

  // Which characters the text consists of.

  lemma XmlConcat(a: string, b: string)
    ensures AllXml(a + b) <==> AllXml(a) && AllXml(b)
  {
    if AllXml(a + b) {
      assert forall i :: 0 <= i < |a| ==> a[i] == (a + b)[i];
      assert forall i :: 0 <= i < |b| ==> b[i] == (a + b)[|a| + i];
    }
  }

  lemma {:induction false} XmlEsc(s: string)
    ensures AllXml(Esc(s)) <==> AllXml(s)
  {
    if s == "" {
      EscPlain("");
    } else {
      XmlEsc(s[1..]);
      XmlEscFront(s);
    }
  }

  lemma XmlEscFront(s: string)
    requires s != "" && (AllXml(Esc(s[1..])) <==> AllXml(s[1..]))
    ensures AllXml(Esc(s)) <==> AllXml(s)
  {
    hide Esc, EscChar, AllXml;
    EscHead(s);
    XmlEscChar(s[0]);
    XmlConcat(EscChar(s[0]), Esc(s[1..]));
    XmlConcat([s[0]], s[1..]);
    assert s == [s[0]] + s[1..];
  }

  lemma XmlEscChar(c: char)
    ensures AllXml(EscChar(c)) <==> AllXml([c])
  {
  }

  predicate AllXmlLines(lines: seq<string>) { forall i :: 0 <= i < |lines| ==> AllXml(lines[i]) }

  lemma XmlLinesConcat(a: seq<string>, b: seq<string>)
    ensures AllXmlLines(a + b) <==> AllXmlLines(a) && AllXmlLines(b)
  {
    hide AllXml;
    if AllXmlLines(a + b) {
      assert forall i :: 0 <= i < |a| ==> a[i] == (a + b)[i];
      assert forall i :: 0 <= i < |b| ==> b[i] == (a + b)[|a| + i];
    }
  }

  lemma {:induction false} XmlJoined(lines: seq<string>)
    ensures AllXml(JoinLines(lines)) <==> AllXmlLines(lines)
  {
    if |lines| > 1 {
      XmlJoined(lines[1..]);
      XmlConcat(lines[0] + "\n", JoinLines(lines[1..]));
      XmlConcat(lines[0], "\n");
      assert AllXml("\n");
      hide AllXml;
      XmlLinesConcat(lines[..1], lines[1..]);
      assert lines == lines[..1] + lines[1..];
    }
  }

  lemma XmlPair(key: string, value: string)
    requires AllXml(key)
    ensures AllXml(Pair(key, value)) <==> AllXml(value)
  {
    assert AllXml(" ") && AllXml("=\"") && AllXml("\"");
    hide AllXml;
    XmlConcat(" ", key);
    XmlConcat(" " + key, "=\"");
    XmlConcat(" " + key + "=\"", value);
    XmlConcat(" " + key + "=\"" + value, "\"");
  }

  lemma XmlAttribute(indent: string, kind: string, key: string, value: string)
    requires AllXml(indent) && AllXml(kind) && AllXml(key)
    ensures AllXml(Attribute(indent, kind, key, value)) <==> AllXml(value)
  {
    assert AllXml("<") && AllXml("key") && AllXml("value") && AllXml("/>");
    hide AllXml, Pair;
    var keyPair, valuePair := Pair("key", key), Pair("value", value);
    XmlPair("key", key);
    XmlPair("value", value);
    XmlConcat(indent, "<");
    XmlConcat(indent + "<", kind);
    XmlConcat(indent + "<" + kind, keyPair);
    XmlConcat(indent + "<" + kind + keyPair, valuePair);
    XmlConcat(indent + "<" + kind + keyPair + valuePair, "/>");
  }

  lemma XmlKeys()
    ensures AllXml("concept:name") && AllXml("time:timestamp") && AllXml("lifecycle:transition")
    ensures AllXml("btv:seq") && AllXml("btv:elementId") && AllXml("btv:edgeId") && AllXml("complete")
  {
  }

  lemma XmlKinds()
    ensures AllXml("string") && AllXml("date") && AllXml("int") && AllXml("  ") && AllXml("    ") && AllXml(SIX)
  {
  }

  lemma XmlExtension(name: string, prefix: string, uri: string)
    requires AllXml(name) && AllXml(prefix) && AllXml(uri)
    ensures AllXml(ExtensionLine(name, prefix, uri))
  {
    assert AllXml("  ") && AllXml("<extension") && AllXml("name") && AllXml("prefix") && AllXml("uri") && AllXml("/>");
    hide AllXml, Pair;
    var a, b, c := Pair("name", name), Pair("prefix", prefix), Pair("uri", uri);
    XmlPair("name", name);
    XmlPair("prefix", prefix);
    XmlPair("uri", uri);
    XmlConcat("  ", "<extension");
    XmlConcat("  " + "<extension", a);
    XmlConcat("  " + "<extension" + a, b);
    XmlConcat("  " + "<extension" + a + b, c);
    XmlConcat("  " + "<extension" + a + b + c, "/>");
  }

  /** The start of the text, which is the same for every log. */
  lemma XmlHeader()
    ensures AllXmlLines(Header())
  {
    XmlFirstLines();
    XmlExtensionNames();
    XmlSites();
    hide AllXml, ExtensionLine, DeclarationLine, LogLine;
    XmlExtension("Concept", "concept", SITE + "concept.xesext");
    XmlExtension("Time", "time", SITE + "time.xesext");
    XmlExtension("Lifecycle", "lifecycle", SITE + "lifecycle.xesext");
  }

  lemma XmlExtensionNames()
    ensures AllXml("Concept") && AllXml("concept") && AllXml("Time") && AllXml("time")
    ensures AllXml("Lifecycle") && AllXml("lifecycle")
  {
  }

  lemma XmlFiles()
    ensures AllXml("concept.xesext") && AllXml("time.xesext") && AllXml("lifecycle.xesext")
  {
  }

  lemma XmlSites()
    ensures AllXml(SITE + "concept.xesext") && AllXml(SITE + "time.xesext") && AllXml(SITE + "lifecycle.xesext")
  {
    assert AllXml(SITE);
    hide AllXml;
    XmlFiles();
    XmlConcat(SITE, "concept.xesext");
    XmlConcat(SITE, "time.xesext");
    XmlConcat(SITE, "lifecycle.xesext");
  }

  lemma XmlTag(start: string, k1: string, v1: string, k2: string, v2: string, end: string)
    requires AllXml(start) && AllXml(k1) && AllXml(v1) && AllXml(k2) && AllXml(v2) && AllXml(end)
    ensures AllXml(start + Pair(k1, v1) + Pair(k2, v2) + end)
  {
    hide AllXml, Pair;
    XmlPair(k1, v1);
    XmlPair(k2, v2);
    XmlConcat(start, Pair(k1, v1));
    XmlConcat(start + Pair(k1, v1), Pair(k2, v2));
    XmlConcat(start + Pair(k1, v1) + Pair(k2, v2), end);
  }

  lemma XmlFirstLines()
    ensures AllXml(DeclarationLine()) && AllXml(LogLine())
  {
    XmlDeclarationNames();
    XmlLogNames();
    hide AllXml, Pair;
    XmlTag("<?xml", "version", "1.0", "encoding", "UTF-8", "?>");
    XmlTag("<log", "xes.version", "2.0", "xes.features", "nested-attributes", ">");
  }

  lemma XmlDeclarationNames()
    ensures AllXml("<?xml") && AllXml("version") && AllXml("1.0") && AllXml("encoding") && AllXml("UTF-8")
        && AllXml("?>")
  {
  }

  lemma XmlLogNames()
    ensures AllXml("<log") && AllXml("xes.version") && AllXml("2.0") && AllXml("xes.features")
    ensures AllXml("nested-attributes") && AllXml(">")
  {
  }

  lemma XmlTop(instance: Instance)
    ensures AllXmlLines(TopLines(instance)) <==> AllXml(instance.definitionRef) && AllXml(TraceName(instance))
  {
    XmlKeys();
    XmlKinds();
    assert AllXml("buildtovalue ") && AllXml("  <trace>");
    hide AllXml, Attribute, Header, Esc, TraceName;
    var title, name := "buildtovalue " + instance.definitionRef, TraceName(instance);
    XmlHeader();
    XmlEsc(title);
    XmlConcat("buildtovalue ", instance.definitionRef);
    XmlEsc(name);
    XmlAttribute("  ", "string", "concept:name", Esc(title));
    XmlAttribute("    ", "string", "concept:name", Esc(name));
    var rest := [Attribute("  ", "string", "concept:name", Esc(title)), "  <trace>",
                 Attribute("    ", "string", "concept:name", Esc(name))];
    XmlLinesConcat(Header(), rest);
    assert AllXml(rest[1]);
    assert AllXmlLines(rest) <==> AllXml(rest[0]) && AllXml(rest[2]);
  }

  lemma XmlFixed(e: Event)
    ensures AllXmlLines(FixedLines(e)) <==> AllXml(e.kind) && AllXml(e.timestamp)
  {
    XmlKeys();
    XmlKinds();
    assert AllXml("    <event>");
    assert AllXml(Decimal(e.seqNo));
    hide AllXml, Attribute, Esc, Decimal;
    XmlEsc(e.kind);
    XmlEsc(e.timestamp);
    XmlAttribute(SIX, "string", "concept:name", Esc(e.kind));
    XmlAttribute(SIX, "date", "time:timestamp", Esc(e.timestamp));
    XmlAttribute(SIX, "string", "lifecycle:transition", "complete");
    XmlAttribute(SIX, "int", "btv:seq", Decimal(e.seqNo));
    var l := FixedLines(e);
    assert AllXml(l[0]) && AllXml(l[3]) && AllXml(l[4]);
    assert AllXmlLines(l) <==> AllXml(l[1]) && AllXml(l[2]);
  }

  lemma XmlId(key: string, id: Option<string>)
    requires AllXml(key)
    ensures AllXmlLines(IdLine(key, id)) <==> (Written(id) ==> AllXml(id.value))
  {
    XmlKinds();
    hide AllXml, Attribute, Esc;
    if Written(id) {
      XmlEsc(id.value);
      XmlAttribute(SIX, "string", key, Esc(id.value));
      assert AllXmlLines(IdLine(key, id)) <==> AllXml(IdLine(key, id)[0]);
    }
  }

  predicate XmlEvent(e: Event) {
    && AllXml(e.kind) && AllXml(e.timestamp)
    && (Written(e.elementId) ==> AllXml(e.elementId.value))
    && (Written(e.edgeId) ==> AllXml(e.edgeId.value))
  }

  lemma XmlEventLines(e: Event)
    ensures AllXmlLines(EventLines(e)) <==> XmlEvent(e)
  {
    XmlKeys();
    assert AllXml("    </event>");
    hide AllXml, FixedLines, IdLine;
    var a, b, c, d := FixedLines(e), IdLine("btv:elementId", e.elementId), IdLine("btv:edgeId", e.edgeId),
        ["    </event>"];
    XmlFixed(e);
    XmlId("btv:elementId", e.elementId);
    XmlId("btv:edgeId", e.edgeId);
    assert AllXml(d[0]);
    XmlLinesConcat(a, b);
    XmlLinesConcat(a + b, c);
    XmlLinesConcat(a + b + c, d);
  }

  lemma {:induction false} XmlAllEvents(events: seq<Event>)
    ensures AllXmlLines(AllEventLines(events)) <==> forall e <- events :: XmlEvent(e)
  {
    hide XmlEvent, EventLines;
    if events != [] {
      var front, last := events[..|events| - 1], events[|events| - 1];
      XmlAllEvents(front);
      XmlEventLines(last);
      hide AllXmlLines;
      XmlLinesConcat(AllEventLines(front), EventLines(last));
      assert events == front + [last];
    }
  }

  lemma XmlEnd()
    ensures AllXmlLines(["  </trace>", "</log>", ""])
  {
  }

  lemma XmlWholeText(instance: Instance, events: seq<Event>)
    ensures AllXml(Text(instance, events)) <==>
            AllXml(instance.definitionRef) && AllXml(TraceName(instance)) && forall e <- events :: XmlEvent(e)
  {
    hide AllXml, AllXmlLines, TopLines, AllEventLines, TraceName, XmlEvent;
    var a, b, c := TopLines(instance), AllEventLines(events), ["  </trace>", "</log>", ""];
    XmlEnd();
    XmlJoined(Lines(instance, events));
    XmlLinesConcat(a, b);
    XmlLinesConcat(a + b, c);
    XmlTop(instance);
    XmlAllEvents(events);
  }

  /** The text is a document of XML characters exactly when every printed string is. */
  lemma XmlText(instance: Instance, events: seq<Event>)
    ensures AllXml(Text(instance, events)) <==> forall s :: Printed(instance, events, s) ==> AllXml(s)
  {
    hide Text, AllXml, TraceName, Printed, XmlEvent;
    XmlWholeText(instance, events);
    XmlPrinted(instance, events);
  }

  lemma XmlPrinted(instance: Instance, events: seq<Event>)
    ensures (forall s :: Printed(instance, events, s) ==> AllXml(s)) <==>
            AllXml(instance.definitionRef) && AllXml(TraceName(instance)) && forall e <- events :: XmlEvent(e)
  {
    hide AllXml, TraceName;
    if forall s :: Printed(instance, events, s) ==> AllXml(s) {
      assert Printed(instance, events, instance.definitionRef) && Printed(instance, events, TraceName(instance));
      forall e | e in events ensures XmlEvent(e) {
        assert PrintedIn(e, e.kind) && PrintedIn(e, e.timestamp);
        if Written(e.elementId) { assert PrintedIn(e, e.elementId.value); }
        if Written(e.edgeId) { assert PrintedIn(e, e.edgeId.value); }
        assert forall s :: PrintedIn(e, s) ==> Printed(instance, events, s);
      }
    }
  }

  // What a conforming processor makes of the export.

  /** It rejects the text exactly when a printed string holds a character that XML 1.0
      forbids; the export writes such a character as it is. */
  lemma RejectedIff(instance: Instance, events: seq<Event>)
    ensures ReadLog(Text(instance, events), true) == None
       <==> exists s :: Printed(instance, events, s) && !AllXml(s)
  {
    hide Text, ReadLog, AllXml, Printed;
    ReadBack(instance, events, true);
    XmlText(instance, events);
  }

  /** A business key of one control character makes a text that nobody may read. */
  lemma ControlCharacterRejected(id: string, ref: string, events: seq<Event>)
    ensures ReadLog(Text(Instance(id, Some("\U{0001}"), ref), events), true) == None
    ensures ReadLog(Text(Instance(id, Some("\U{0001}"), ref), events), false) != None
  {
    var instance := Instance(id, Some("\U{0001}"), ref);
    assert !IsXmlChar(TraceName(instance)[0]);
    assert Printed(instance, events, TraceName(instance));
    hide Text, ReadLog, Printed;
    RejectedIff(instance, events);
    ReadBack(instance, events, false);
  }

  predicate UnbrokenId(id: Option<string>) { Written(id) ==> Unbroken(id.value) }

  predicate UnbrokenEvent(e: Event) {
    Unbroken(e.kind) && Unbroken(e.timestamp) && UnbrokenId(e.elementId) && UnbrokenId(e.edgeId)
  }

  lemma SeenEventIff(e: Event)
    ensures SeenEvent(e, true) == SeenEvent(e, false) <==> UnbrokenEvent(e)
  {
    NormaliseIff(e.kind);
    NormaliseIff(e.timestamp);
    if Written(e.elementId) { NormaliseIff(e.elementId.value); }
    if Written(e.edgeId) { NormaliseIff(e.edgeId.value); }
    hide Normalise, Unbroken;
  }

  lemma UnbrokenPrinted(instance: Instance, events: seq<Event>)
    ensures (forall s :: Printed(instance, events, s) ==> Unbroken(s)) <==>
            Unbroken(instance.definitionRef) && Unbroken(TraceName(instance)) && forall e <- events :: UnbrokenEvent(e)
  {
    hide Unbroken, TraceName;
    if forall s :: Printed(instance, events, s) ==> Unbroken(s) {
      assert Printed(instance, events, instance.definitionRef) && Printed(instance, events, TraceName(instance));
      forall e | e in events ensures UnbrokenEvent(e) {
        assert PrintedIn(e, e.kind) && PrintedIn(e, e.timestamp);
        if Written(e.elementId) { assert PrintedIn(e, e.elementId.value); }
        if Written(e.edgeId) { assert PrintedIn(e, e.edgeId.value); }
        assert forall s :: PrintedIn(e, s) ==> Printed(instance, events, s);
      }
    }
  }

  lemma SeenEventsIff(events: seq<Event>)
    ensures SeenEvents(events, true) == SeenEvents(events, false) <==> forall e <- events :: UnbrokenEvent(e)
  {
    hide SeenEvents, SeenEvent, UnbrokenEvent;
    SeenEventsAt(events, true);
    SeenEventsAt(events, false);
    var seen, kept := SeenEvents(events, true), SeenEvents(events, false);
    forall i | 0 <= i < |events| ensures seen[i] == kept[i] <==> UnbrokenEvent(events[i]) {
      SeenEventIff(events[i]);
    }
    if forall e <- events :: UnbrokenEvent(e) {
      assert seen == kept;
    }
  }

  lemma SeenLogIff(instance: Instance, events: seq<Event>)
    ensures SeenLog(instance, events, true) == SeenLog(instance, events, false)
       <==> forall s :: Printed(instance, events, s) ==> Unbroken(s)
  {
    var title := "buildtovalue " + instance.definitionRef;
    NormaliseIff(title);
    NormaliseIff(TraceName(instance));
    TitleUnbroken(instance.definitionRef);
    hide Normalise, Unbroken, TraceName, SeenEvents, Printed;
    SeenEventsIff(events);
    UnbrokenPrinted(instance, events);
  }

  lemma TitleUnbroken(ref: string)
    ensures Unbroken("buildtovalue " + ref) <==> Unbroken(ref)
  {
    var p := "buildtovalue ";
    assert Unbroken(p);
    if Unbroken(p + ref) {
      assert forall i :: 0 <= i < |ref| ==> ref[i] == (p + ref)[|p| + i];
    }
  }

  /** The exact condition for a conforming XML processor: it gets the same log if and only
      if every printed string consists of XML characters and none of them is a literal
      tab, line feed or carriage return, which the export writes as they are. */
  lemma ConformingIff(instance: Instance, events: seq<Event>)
    ensures ReadLog(Text(instance, events), true) == ReadLog(Text(instance, events), false)
       <==> forall s :: Printed(instance, events, s) ==> AllXml(s) && Unbroken(s)
  {
    hide Text, ReadLog, AllXml, Unbroken, Printed, SeenLog;
    ReadBack(instance, events, true);
    ReadBack(instance, events, false);
    XmlText(instance, events);
    SeenLogIff(instance, events);
  }
}
