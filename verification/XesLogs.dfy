/** The export as a list of tags.

    Each line of the export is one tag behind some white space. A reader that takes one
    tag after another therefore sees exactly the tags that the lines were made from, in
    order. */
module XesLogs {
  import opened Options
  import opened Xes
  import opened XesReader
  import opened XesRoundTrip

  /** A line of the export as an indented tag. */
  datatype Row = Row(indent: string, tag: Tag)

  function AttributeRow(indent: string, kind: string, key: string, value: string): Row {
    Row(indent, Element(kind, [("key", key), ("value", value)], Empty))
  }

  /** `line` is the row as XML writes it. */
  predicate Renders(line: string, r: Row) {
    line == r.indent + Markup(r.tag) && '<' !in r.indent && ProperTag(r.tag)
  }

  predicate AllRender(lines: seq<string>, rows: seq<Row>) {
    |lines| == |rows| && forall i :: 0 <= i < |rows| ==> Renders(lines[i], rows[i])
  }

  function SeenTags(rows: seq<Row>, conforming: bool): seq<Tag> {
    if rows == [] then [] else [SeenTag(rows[0].tag, conforming)] + SeenTags(rows[1..], conforming)
  }

  lemma {:induction false} SeenTagsConcat(a: seq<Row>, b: seq<Row>, conforming: bool)
    ensures SeenTags(a + b, conforming) == SeenTags(a, conforming) + SeenTags(b, conforming)
  {
    if a == [] {
      assert a + b == b;
    } else {
      assert (a + b)[1..] == a[1..] + b;
      SeenTagsConcat(a[1..], b, conforming);
    }
  }

  /** A text of rows, one a line with a line end after the last, reads as their tags. */
  lemma {:induction false} ReadRows(gap: string, lines: seq<string>, rows: seq<Row>, conforming: bool)
    requires '<' !in gap && AllRender(lines, rows)
    ensures ReadTags(gap + JoinLines(lines + [""]), conforming) == Some(SeenTags(rows, conforming))
    decreases |rows|
  {
    hide Markup, ReadTags, SeenTag, ProperTag;
    if rows == [] {
      assert lines + [""] == [""];
      assert gap + JoinLines([""]) == gap;
      ReadGap(gap, conforming);
    } else {
      var r := rows[0];
      assert Renders(lines[0], r);
      assert (lines + [""])[1..] == lines[1..] + [""];
      var others := JoinLines(lines[1..] + [""]);
      ReadRows("\n", lines[1..], rows[1..], conforming);
      ReadRow(gap + r.indent, r.tag, "\n" + others, conforming);
      assert gap + JoinLines(lines + [""]) == (gap + r.indent) + Markup(r.tag) + ("\n" + others);
    }
  }

  lemma ReadGap(gap: string, conforming: bool)
    requires '<' !in gap
    ensures ReadTags(gap, conforming) == Some([])
  {
  }

  // The lines of the export as rows.

  lemma SplitAttributes(a: seq<(string, string)>)
    requires a != []
    ensures AttributesText(a) == AttributeText(a[0].0, a[0].1) + AttributesText(a[1..])
  {
  }

  lemma TwoAttributes(k1: string, v1: string, k2: string, v2: string)
    ensures AttributesText([(k1, v1), (k2, v2)]) == Pair(k1, Esc(v1)) + Pair(k2, Esc(v2))
  {
    var a := [(k1, v1), (k2, v2)];
    assert a[1..] == [(k2, v2)] && a[1..][1..] == [];
    SplitAttributes(a);
    SplitAttributes(a[1..]);
    NoAttributes();
    hide Esc, Pair, AttributesText;
  }

  /** A tag with two attributes, from its pieces. */
  lemma TwoAttributeLine(indent: string, name: string, k1: string, v1: string, k2: string, v2: string, ending: Ending)
    requires NameLike(name) && NameLike(k1) && NameLike(k2) && '<' !in indent
    ensures Renders(indent + (if ending.Declaration? then "<?" else "<") + name
                    + Pair(k1, Esc(v1)) + Pair(k2, Esc(v2)) + EndText(ending),
                    Row(indent, Element(name, [(k1, v1), (k2, v2)], ending)))
  {
    TwoAttributes(k1, v1, k2, v2);
    hide Esc, AttributesText, Pair, NameLike, EndText;
  }

  /** The names and keys the export uses are names and keys to the reader. */
  lemma KnownNames()
    ensures NameLike("string") && NameLike("date") && NameLike("int") && NameLike("key") && NameLike("value")
  {
  }

  lemma KnownKeys()
    ensures Plain("concept:name") && Plain("time:timestamp") && Plain("lifecycle:transition") && Plain("complete")
    ensures Plain("btv:seq") && Plain("btv:elementId") && Plain("btv:edgeId")
  {
  }

  lemma HeaderNames()
    ensures NameLike("xml") && NameLike("version") && NameLike("encoding") && Plain("1.0") && Plain("UTF-8")
  {
  }

  lemma LogNames()
    ensures NameLike("log") && NameLike("xes.version") && NameLike("xes.features")
    ensures Plain("2.0") && Plain("nested-attributes")
  {
  }

  lemma ExtensionNames()
    ensures NameLike("extension") && NameLike("name") && NameLike("prefix") && NameLike("uri")
  {
  }

  lemma PlainConcat(a: string, b: string)
    requires Plain(a) && Plain(b)
    ensures Plain(a + b)
  {
  }

  lemma ExtensionValues()
    ensures Plain("Concept") && Plain("concept") && Plain(SITE + "concept.xesext")
    ensures Plain("Time") && Plain("time") && Plain(SITE + "time.xesext")
    ensures Plain("Lifecycle") && Plain("lifecycle") && Plain(SITE + "lifecycle.xesext")
  {
    assert Plain(SITE);
    assert Plain("concept.xesext") && Plain("time.xesext") && Plain("lifecycle.xesext");
    assert Plain("Concept") && Plain("concept") && Plain("Time") && Plain("time") && Plain("Lifecycle")
        && Plain("lifecycle");
    hide Plain;
    PlainConcat(SITE, "concept.xesext");
    PlainConcat(SITE, "time.xesext");
    PlainConcat(SITE, "lifecycle.xesext");
  }

  lemma AttributeLine(indent: string, kind: string, key: string, value: string)
    requires Plain(key) && NameLike(kind) && '<' !in indent
    ensures Renders(Attribute(indent, kind, key, Esc(value)), AttributeRow(indent, kind, key, value))
  {
    KnownNames();
    EscPlain(key);
    hide Esc, Pair, Renders, NameLike, Plain;
    TwoAttributeLine(indent, kind, "key", key, "value", value, Empty);
  }

  function ExtensionRow(name: string, prefix: string, uri: string): Row {
    Row("  ", Element("extension", [("name", name), ("prefix", prefix), ("uri", uri)], Empty))
  }

  lemma ExtensionAttributes(name: string, prefix: string, uri: string)
    requires Plain(name) && Plain(prefix) && Plain(uri)
    ensures AttributesText([("name", name), ("prefix", prefix), ("uri", uri)])
         == Pair("name", name) + (Pair("prefix", prefix) + Pair("uri", uri))
  {
    EscPlain(name);
    EscPlain(prefix);
    EscPlain(uri);
    TwoAttributes("prefix", prefix, "uri", uri);
    var a := [("name", name), ("prefix", prefix), ("uri", uri)];
    assert a[1..] == [("prefix", prefix), ("uri", uri)];
    SplitAttributes(a);
    hide Esc, AttributesText, Pair, Plain;
  }

  lemma ExtensionRenders(name: string, prefix: string, uri: string)
    requires Plain(name) && Plain(prefix) && Plain(uri)
    ensures Renders(ExtensionLine(name, prefix, uri), ExtensionRow(name, prefix, uri))
  {
    ExtensionNames();
    assert '<' !in "  ";
    assert "<" + "extension" == "<extension";
    hide AttributesText, Pair, Plain, NameLike;
    ExtensionAttributes(name, prefix, uri);
    Regrouped("  ", "<", "extension", Pair("name", name), Pair("prefix", prefix), Pair("uri", uri), "/>");
  }

  lemma Regrouped(indent: string, open: string, name: string, a: string, b: string, c: string, end: string)
    ensures indent + (open + name) + a + b + c + end == indent + (open + name + (a + (b + c)) + end)
  {
  }

  function DeclarationRow(): Row {
    Row("", Element("xml", [("version", "1.0"), ("encoding", "UTF-8")], Declaration))
  }

  function LogRow(): Row {
    Row("", Element("log", [("xes.version", "2.0"), ("xes.features", "nested-attributes")], Opening))
  }

  function HeaderRows(): seq<Row> {
    [DeclarationRow(), LogRow(),
     ExtensionRow("Concept", "concept", SITE + "concept.xesext"),
     ExtensionRow("Time", "time", SITE + "time.xesext"),
     ExtensionRow("Lifecycle", "lifecycle", SITE + "lifecycle.xesext")]
  }

  /** The same for values that need no escaping, with the start of the line in one piece. */
  lemma PlainLine(start: string, name: string, k1: string, v1: string, k2: string, v2: string, ending: Ending)
    requires start == (if ending.Declaration? then "<?" else "<") + name
    requires NameLike(name) && NameLike(k1) && NameLike(k2) && Plain(v1) && Plain(v2)
    ensures Renders(start + Pair(k1, v1) + Pair(k2, v2) + EndText(ending),
                    Row("", Element(name, [(k1, v1), (k2, v2)], ending)))
  {
    EscPlain(v1);
    EscPlain(v2);
    hide Esc, Pair, Renders, NameLike, EndText, Plain;
    TwoAttributeLine("", name, k1, v1, k2, v2, ending);
    var open := if ending.Declaration? then "<?" else "<";
    assert "" + open + name == open + name;
  }

  lemma DeclarationRenders()
    ensures Renders(DeclarationLine(), DeclarationRow())
  {
    HeaderNames();
    assert "<?" + "xml" == "<?xml";
    hide Plain, Pair, Renders, NameLike;
    PlainLine("<?xml", "xml", "version", "1.0", "encoding", "UTF-8", Declaration);
  }

  lemma LogRenders()
    ensures Renders(LogLine(), LogRow())
  {
    LogNames();
    assert "<" + "log" == "<log";
    hide Plain, Pair, Renders, NameLike;
    PlainLine("<log", "log", "xes.version", "2.0", "xes.features", "nested-attributes", Opening);
  }

  lemma HeaderLines()
    ensures AllRender(Header(), HeaderRows())
  {
    ExtensionValues();
    hide Renders, DeclarationLine, DeclarationRow, LogLine, LogRow, ExtensionLine, ExtensionRow, Pair, Plain, NameLike;
    DeclarationRenders();
    LogRenders();
    ExtensionRenders("Concept", "concept", SITE + "concept.xesext");
    ExtensionRenders("Time", "time", SITE + "time.xesext");
    ExtensionRenders("Lifecycle", "lifecycle", SITE + "lifecycle.xesext");
  }

  lemma BareLine(indent: string, name: string)
    requires NameLike(name) && '<' !in indent
    ensures Renders(indent + "<" + name + ">", Row(indent, Element(name, [], Opening)))
    ensures Renders(indent + "</" + name + ">", Row(indent, Closing(name)))
  {
    NoAttributes();
  }

  function TopRows(instance: Instance): seq<Row> {
    HeaderRows()
    + [AttributeRow("  ", "string", "concept:name", "buildtovalue " + instance.definitionRef),
       Row("  ", Element("trace", [], Opening)),
       AttributeRow("    ", "string", "concept:name", TraceName(instance))]
  }

  lemma TopLinesRender(instance: Instance)
    ensures AllRender(TopLines(instance), TopRows(instance))
  {
    hide Renders, Attribute, AttributeRow, Header, HeaderRows, Esc;
    HeaderLines();
    KnownNames();
    KnownKeys();
    AttributeLine("  ", "string", "concept:name", "buildtovalue " + instance.definitionRef);
    BareLine("  ", "trace");
    assert "  " + "<" + "trace" + ">" == "  <trace>";
    hide Plain, NameLike;
    AttributeLine("    ", "string", "concept:name", TraceName(instance));
  }

  function FixedRows(e: Event): seq<Row> {
    [Row("    ", Element("event", [], Opening)),
     AttributeRow(SIX, "string", "concept:name", e.kind),
     AttributeRow(SIX, "date", "time:timestamp", e.timestamp),
     AttributeRow(SIX, "string", "lifecycle:transition", "complete"),
     AttributeRow(SIX, "int", "btv:seq", Decimal(e.seqNo))]
  }

  function IdRow(key: string, id: Option<string>): seq<Row> {
    if Written(id) then [AttributeRow(SIX, "string", key, id.value)] else []
  }

  function EventRows(e: Event): seq<Row> {
    FixedRows(e) + IdRow("btv:elementId", e.elementId) + IdRow("btv:edgeId", e.edgeId)
    + [Row("    ", Closing("event"))]
  }

  function AllEventRows(events: seq<Event>): seq<Row> {
    if events == [] then [] else AllEventRows(events[..|events| - 1]) + EventRows(events[|events| - 1])
  }

  lemma FixedLinesRender(e: Event)
    ensures AllRender(FixedLines(e), FixedRows(e))
  {
    hide Renders, Attribute, AttributeRow, Esc, Decimal;
    BareLine("    ", "event");
    assert "    " + "<" + "event" + ">" == "    <event>";
    KnownNames();
    KnownKeys();
    hide Plain, NameLike;
    AttributeLine(SIX, "string", "concept:name", e.kind);
    AttributeLine(SIX, "date", "time:timestamp", e.timestamp);
    EscPlain("complete");
    AttributeLine(SIX, "string", "lifecycle:transition", "complete");
    DecimalPlain(e.seqNo);
    AttributeLine(SIX, "int", "btv:seq", Decimal(e.seqNo));
  }

  lemma EventLinesRender(e: Event)
    ensures AllRender(EventLines(e), EventRows(e))
  {
    hide Renders, Attribute, AttributeRow, FixedLines, FixedRows, Esc;
    FixedLinesRender(e);
    BareLine("    ", "event");
    assert "    " + "</" + "event" + ">" == "    </event>";
    KnownNames();
    KnownKeys();
    hide Plain, NameLike;
    if Written(e.elementId) { AttributeLine(SIX, "string", "btv:elementId", e.elementId.value); }
    if Written(e.edgeId) { AttributeLine(SIX, "string", "btv:edgeId", e.edgeId.value); }
  }

  lemma {:induction false} AllEventLinesRender(events: seq<Event>)
    ensures AllRender(AllEventLines(events), AllEventRows(events))
  {
    hide Renders, EventLines, EventRows;
    if events != [] {
      AllEventLinesRender(events[..|events| - 1]);
      EventLinesRender(events[|events| - 1]);
    }
  }

  function EndRows(): seq<Row> { [Row("  ", Closing("trace")), Row("", Closing("log"))] }

  lemma EndLinesRender()
    ensures AllRender(["  </trace>", "</log>"], EndRows())
  {
    hide Renders;
    BareLine("  ", "trace");
    BareLine("", "log");
    assert "  " + "</" + "trace" + ">" == "  </trace>";
    assert "" + "</" + "log" + ">" == "</log>";
  }

  function Rows(instance: Instance, events: seq<Event>): seq<Row> {
    TopRows(instance) + AllEventRows(events) + EndRows()
  }

  /** The export is the markup of its rows, and a reader sees exactly their tags. */
  lemma ReadExport(instance: Instance, events: seq<Event>, conforming: bool)
    ensures ReadTags(Text(instance, events), conforming) == Some(SeenTags(Rows(instance, events), conforming))
  {
    hide Renders, TopLines, TopRows, AllEventLines, AllEventRows, ReadTags, SeenTags, EndRows;
    TopLinesRender(instance);
    AllEventLinesRender(events);
    EndLinesRender();
    var lines := TopLines(instance) + AllEventLines(events) + ["  </trace>", "</log>"];
    assert AllRender(lines, Rows(instance, events));
    ReadRows("", lines, Rows(instance, events), conforming);
    assert lines + [""] == Lines(instance, events);
    assert "" + JoinLines(lines + [""]) == Text(instance, events);
  }
}
