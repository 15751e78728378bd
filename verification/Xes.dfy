/** The XES export of one instance's history: the text that is written. */
module Xes {
  import opened Options

  datatype Instance = Instance(id: string, businessKey: Option<string>, definitionRef: string)

  /** A history event as the export uses it; `timestamp` is already in ISO form, and the
      ids are present when the payload holds them as strings. */
  datatype Event = Event(seqNo: nat, kind: string, timestamp: string, elementId: Option<string>, edgeId: Option<string>)

  function TraceName(instance: Instance): string {
    if instance.businessKey.Some? then instance.businessKey.value else instance.id
  }

  /** `replaceAll` of one character. */
  function ReplaceAll(s: string, c: char, entity: string): string {
    if s == "" then "" else (if s[0] == c then entity else [s[0]]) + ReplaceAll(s[1..], c, entity)
  }

  /** The four replacements, in the order they are made. */
  function Esc(s: string): string {
    ReplaceAll(ReplaceAll(ReplaceAll(ReplaceAll(s, '&', "&amp;"), '<', "&lt;"), '>', "&gt;"), '"', "&quot;")
  }

  function Digit(d: nat): char
    requires d < 10
  {
    ('0' as int + d) as char
  }

  /** A number as a template literal shows it. */
  function Decimal(n: nat): (s: string)
    ensures s != "" && forall i :: 0 <= i < |s| ==> '0' <= s[i] <= '9'
  {
    if n < 10 then [Digit(n)] else Decimal(n / 10) + [Digit(n % 10)]
  }

  /** An id that is present and not empty; an empty one is not written. */
  predicate Written(id: Option<string>) { id.Some? && id.value != "" }

  /** One attribute of a tag, as the templates write it; `value` stands as it is. */
  function Pair(key: string, value: string): string {
    " " + key + "=\"" + value + "\""
  }

  function ExtensionLine(name: string, prefix: string, uri: string): string {
    "  " + "<extension" + Pair("name", name) + Pair("prefix", prefix) + Pair("uri", uri) + "/>"
  }

  const SITE := "http://www.xes-standard.org/"

  function DeclarationLine(): string { "<?xml" + Pair("version", "1.0") + Pair("encoding", "UTF-8") + "?>" }

  function LogLine(): string {
    "<log" + Pair("xes.version", "2.0") + Pair("xes.features", "nested-attributes") + ">"
  }

  /** The lines every export starts with. */
  function Header(): seq<string> {
    [DeclarationLine(),
     LogLine(),
     ExtensionLine("Concept", "concept", SITE + "concept.xesext"),
     ExtensionLine("Time", "time", SITE + "time.xesext"),
     ExtensionLine("Lifecycle", "lifecycle", SITE + "lifecycle.xesext")]
  }

  /** One attribute line of a log, trace or event. */
  function Attribute(indent: string, kind: string, key: string, value: string): string {
    indent + "<" + kind + Pair("key", key) + Pair("value", value) + "/>"
  }

  const SIX := "      "

  /** The lines every event has, before its ids. */
  function FixedLines(e: Event): seq<string> {
    ["    <event>",
     Attribute(SIX, "string", "concept:name", Esc(e.kind)),
     Attribute(SIX, "date", "time:timestamp", Esc(e.timestamp)),
     Attribute(SIX, "string", "lifecycle:transition", "complete"),
     Attribute(SIX, "int", "btv:seq", Decimal(e.seqNo))]
  }

  function IdLine(key: string, id: Option<string>): seq<string> {
    if Written(id) then [Attribute(SIX, "string", key, Esc(id.value))] else []
  }

  function EventLines(e: Event): seq<string> {
    FixedLines(e) + IdLine("btv:elementId", e.elementId) + IdLine("btv:edgeId", e.edgeId) + ["    </event>"]
  }

  function AllEventLines(events: seq<Event>): seq<string> {
    if events == [] then [] else AllEventLines(events[..|events| - 1]) + EventLines(events[|events| - 1])
  }

  function TopLines(instance: Instance): seq<string> {
    Header()
    + [Attribute("  ", "string", "concept:name", Esc("buildtovalue " + instance.definitionRef)),
       "  <trace>",
       Attribute("    ", "string", "concept:name", Esc(TraceName(instance)))]
  }

  function Lines(instance: Instance, events: seq<Event>): seq<string> {
    TopLines(instance) + AllEventLines(events) + ["  </trace>", "</log>", ""]
  }

  function JoinLines(lines: seq<string>): string {
    if lines == [] then "" else if |lines| == 1 then lines[0] else lines[0] + "\n" + JoinLines(lines[1..])
  }

  /** The text the export sends. */
  function Text(instance: Instance, events: seq<Event>): string { JoinLines(Lines(instance, events)) }

  /** The body of the loop: what one event adds to the lines. */
  method PushEvent(lines: seq<string>, event: Event) returns (more: seq<string>)
    ensures more == lines + EventLines(event)
  {
    hide Attribute, Esc, Decimal;
    var own := ["    <event>",
                Attribute(SIX, "string", "concept:name", Esc(event.kind)),
                Attribute(SIX, "date", "time:timestamp", Esc(event.timestamp)),
                Attribute(SIX, "string", "lifecycle:transition", "complete"),
                Attribute(SIX, "int", "btv:seq", Decimal(event.seqNo))];
    assert own == FixedLines(event);
    hide FixedLines;
    if Written(event.elementId) {
      own := own + [Attribute(SIX, "string", "btv:elementId", Esc(event.elementId.value))];
    }
    if Written(event.edgeId) {
      own := own + [Attribute(SIX, "string", "btv:edgeId", Esc(event.edgeId.value))];
    }
    more := lines + (own + ["    </event>"]);
  }

  method InstanceHistoryToXes(instance: Instance, events: seq<Event>) returns (text: string)
    ensures text == Text(instance, events)
  {
    hide TopLines, EventLines;
    var lines := TopLines(instance);
    var i := 0;
    while i < |events|
      invariant i <= |events|
      invariant lines == TopLines(instance) + AllEventLines(events[..i])
    {
      assert events[..i + 1][..i] == events[..i];
      lines := PushEvent(lines, events[i]);
      i := i + 1;
    }
    assert events[..i] == events;
    lines := lines + ["  </trace>", "</log>", ""];
    text := JoinLines(lines);
  }

  // In literal terms.

  lemma AttributeIs(indent: string, kind: string, key: string, value: string)
    ensures Attribute(indent, kind, key, value) ==
            (indent + "<" + kind + " key=\"" + key + "\" value=\"") + value + "\"/>"
  {
    var front := indent + "<" + kind;
    var first := " key=\"" + key + "\"";
    assert Pair("key", key) == first by { PairIs("key", key); }
    assert Pair("value", value) == " value=\"" + value + "\"" by { PairIs("value", value); }
    assert front + first + (" value=\"" + value + "\"") + "/>" ==
           (front + " key=\"" + key + "\" value=\"") + value + "\"/>";
  }

  lemma PairIs(key: string, value: string)
    ensures Pair(key, value) == (" " + key + "=\"") + value + "\""
  {
  }

  /** The first two lines. */
  lemma DeclarationIs()
    ensures DeclarationLine() == "<?xml" + " version=\"1.0\"" + " encoding=\"UTF-8\"" + "?>"
  {
    assert Pair("version", "1.0") == " version=\"1.0\"";
    assert Pair("encoding", "UTF-8") == " encoding=\"UTF-8\"";
    hide Pair;
  }

  lemma LogIs()
    ensures LogLine() == "<log" + " xes.version=\"2.0\"" + (" xes.features=\"" + "nested-attributes" + "\"") + ">"
  {
    assert Pair("xes.version", "2.0") == " xes.version=\"2.0\"";
    PairIs("xes.features", "nested-attributes");
    assert " " + "xes.features" + "=\"" == " xes.features=\"";
    hide Pair;
  }

  lemma ExtensionIs(name: string, prefix: string, uri: string)
    ensures ExtensionLine(name, prefix, uri) ==
            "  " + "<extension" + (" name=\"" + name + "\"") + (" prefix=\"" + prefix + "\"")
            + (" uri=\"" + uri + "\"") + "/>"
  {
    assert Pair("name", name) == " name=\"" + name + "\"";
    assert Pair("prefix", prefix) == " prefix=\"" + prefix + "\"";
    assert Pair("uri", uri) == " uri=\"" + uri + "\"";
    hide Pair;
  }

  /** An export without events: the fixed lines, and between them the name of the log and that of
      the trace. */
  lemma EmptyExportIs(instance: Instance)
    ensures Lines(instance, []) ==
            [DeclarationLine(),
             LogLine(),
             ExtensionLine("Concept", "concept", "http://www.xes-standard.org/" + "concept.xesext"),
             ExtensionLine("Time", "time", "http://www.xes-standard.org/" + "time.xesext"),
             ExtensionLine("Lifecycle", "lifecycle", "http://www.xes-standard.org/" + "lifecycle.xesext"),
             Attribute("  ", "string", "concept:name", Esc("buildtovalue " + instance.definitionRef)),
             "  <trace>",
             Attribute("    ", "string", "concept:name",
                       Esc(if instance.businessKey.Some? then instance.businessKey.value else instance.id)),
             "  </trace>", "</log>", ""]
  {
    hide Esc, DeclarationLine, LogLine, ExtensionLine, Attribute;
  }

  /** The lines of an event: its kind, its time, the transition, its number, and its ids where they
      are not empty. */
  lemma EventLinesAre(e: Event)
    ensures EventLines(e) ==
            ["    <event>",
             Attribute("      ", "string", "concept:name", Esc(e.kind)),
             Attribute("      ", "date", "time:timestamp", Esc(e.timestamp)),
             Attribute("      ", "string", "lifecycle:transition", "complete"),
             Attribute("      ", "int", "btv:seq", Decimal(e.seqNo))]
            + (if e.elementId.Some? && e.elementId.value != ""
               then [Attribute("      ", "string", "btv:elementId", Esc(e.elementId.value))] else [])
            + (if e.edgeId.Some? && e.edgeId.value != ""
               then [Attribute("      ", "string", "btv:edgeId", Esc(e.edgeId.value))] else [])
            + ["    </event>"]
  {
    hide Esc, Decimal, Attribute;
  }

  /** Line ends stand between the lines. */
  lemma {:induction false} LinesJoin(lines: seq<string>, last: string)
    requires lines != []
    ensures JoinLines(lines + [last]) == JoinLines(lines) + "\n" + last
  {
    if |lines| == 1 {
      assert (lines + [last])[1..] == [last];
    } else {
      assert (lines + [last])[1..] == lines[1..] + [last];
      LinesJoin(lines[1..], last);
      var rest := JoinLines(lines[1..]);
      assert lines[0] + "\n" + (rest + "\n" + last) == lines[0] + "\n" + rest + "\n" + last;
    }
  }
}
