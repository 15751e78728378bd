/** A reader for the exported text, written from the XML side: tags, attribute values
    up to the next quote, entity references; then the XES tree by attribute key. It
    knows nothing of how the text was made. */
module XesReader {
  import opened Options
  import opened Xes

  datatype Ending = Opening | Empty | Declaration

  datatype Tag = Element(name: string, attributes: seq<(string, string)>, ending: Ending) | Closing(name: string)

  /** Position of the first `c`, or the length. */
  function IndexOf(s: string, c: char): (i: nat)
    ensures i <= |s| && c !in s[..i] && (i < |s| ==> s[i] == c)
  {
    if s == "" || s[0] == c then 0 else 1 + IndexOf(s[1..], c)
  }

  predicate StartsWith(s: string, p: string) { |p| <= |s| && s[..|p|] == p }

  /** Replaces the references to the predefined entities (sections 2.4 and 4.6 of
      XML 1.0); a bare `<`, `&` or quote is not an attribute value (section 2.3). */
  function Unescape(s: string): Option<string>
    decreases |s|
  {
    if s == "" then Some("")
    else if s[0] == '<' || s[0] == '"' then None
    else if s[0] != '&' then Prepend(s[0], Unescape(s[1..]))
    else if StartsWith(s, "&amp;") then Prepend('&', Unescape(s[5..]))
    else if StartsWith(s, "&lt;") then Prepend('<', Unescape(s[4..]))
    else if StartsWith(s, "&gt;") then Prepend('>', Unescape(s[4..]))
    else if StartsWith(s, "&quot;") then Prepend('"', Unescape(s[6..]))
    else if StartsWith(s, "&apos;") then Prepend('\'', Unescape(s[6..]))
    else None
  }

  function Prepend(c: char, s: Option<string>): Option<string> {
    if s.Some? then Some([c] + s.value) else None
  }

  predicate IsBreak(c: char) { c == '\t' || c == '\n' || c == '\r' }

  /** The normalisation a conforming processor applies to an attribute value before it
      resolves references: a carriage return and line feed are one line end (section
      2.11 of XML 1.0), and a literal tab or line end is a space (section 3.3.3). */
  function Normalise(s: string): string
    decreases |s|
  {
    if s == "" then ""
    else if |s| > 1 && s[0] == '\r' && s[1] == '\n' then " " + Normalise(s[2..])
    else [if IsBreak(s[0]) then ' ' else s[0]] + Normalise(s[1..])
  }

  /** An attribute value read between its quotes; `conforming` readers normalise. */
  function ReadValue(raw: string, conforming: bool): Option<string> {
    Unescape(if conforming then Normalise(raw) else raw)
  }

  function SkipSpaces(s: string): (r: string)
    ensures |r| <= |s|
  {
    if s != "" && (s[0] == ' ' || IsBreak(s[0])) then SkipSpaces(s[1..]) else s
  }

  datatype Attributes = Attributes(pairs: seq<(string, string)>, ending: Ending, rest: string)

  /** The attributes of a tag and its end. */
  function ReadAttributes(s: string, conforming: bool): (r: Option<Attributes>)
    ensures r.Some? ==> |r.value.rest| <= |s|
    decreases |s|
  {
    var t := SkipSpaces(s);
    if StartsWith(t, "/>") then Some(Attributes([], Empty, t[2..]))
    else if StartsWith(t, "?>") then Some(Attributes([], Declaration, t[2..]))
    else if StartsWith(t, ">") then Some(Attributes([], Opening, t[1..]))
    else
      var k := IndexOf(t, '=');
      if k + 1 >= |t| || t[k + 1] != '"' then None
      else
        var body := t[k + 2..];
        var q := IndexOf(body, '"');
        if q == |body| then None
        else
          var value := ReadValue(body[..q], conforming);
          var others := ReadAttributes(body[q + 1..], conforming);
          if value.None? || others.None? then None
          else Some(others.value.(pairs := [(t[..k], value.value)] + others.value.pairs))
  }

  predicate EndsName(c: char) { c == ' ' || IsBreak(c) || c == '>' || c == '/' || c == '?' }

  function NameLength(s: string): (n: nat)
    ensures n <= |s|
  {
    if s == "" || EndsName(s[0]) then 0 else 1 + NameLength(s[1..])
  }

  /** A tag, from just after its `<`. */
  function ReadTag(s: string, conforming: bool): (r: Option<(Tag, string)>)
    ensures r.Some? ==> |r.value.1| <= |s|
  {
    if s == "" then None
    else if s[0] == '/' then
      var n := IndexOf(s, '>');
      if n == |s| || n == 0 then None else Some((Closing(s[1..n]), s[n + 1..]))
    else
      var declaration := s[0] == '?';
      var t := if declaration then s[1..] else s;
      var n := NameLength(t);
      var a := ReadAttributes(t[n..], conforming);
      if a.None? || (a.value.ending == Declaration) != declaration then None
      else Some((Element(t[..n], a.value.pairs, a.value.ending), a.value.rest))
  }

  /** Every tag of a text, in order. */
  function ReadTags(s: string, conforming: bool): Option<seq<Tag>>
    decreases |s|
  {
    var i := IndexOf(s, '<');
    if i == |s| then Some([])
    else
      var first := ReadTag(s[i + 1..], conforming);
      if first.None? then None
      else
        var others := ReadTags(first.value.1, conforming);
        if others.None? then None else Some([first.value.0] + others.value)
  }

  datatype Log = Log(title: string, name: string, events: seq<Event>)

  /** The value under a key: the `value` of an attribute element whose `key` it is. */
  predicate IsAttribute(t: Tag) {
    && t.Element? && t.ending == Empty && |t.attributes| == 2
    && t.attributes[0].0 == "key" && t.attributes[1].0 == "value"
  }

  predicate IsOpening(t: Tag, name: string) { t.Element? && t.name == name && t.ending == Opening }

  predicate IsNamed(t: Tag) { IsAttribute(t) && t.name == "string" && t.attributes[0].1 == "concept:name" }

  /** The key-value pairs up to the close of the event. */
  function ReadPairs(tags: seq<Tag>): (r: Option<(seq<(string, string)>, seq<Tag>)>)
    ensures r.Some? ==> |r.value.1| < |tags|
  {
    if tags == [] then None
    else if tags[0] == Closing("event") then Some(([], tags[1..]))
    else if !IsAttribute(tags[0]) then None
    else
      var others := ReadPairs(tags[1..]);
      if others.None? then None
      else Some(([(tags[0].attributes[0].1, tags[0].attributes[1].1)] + others.value.0, others.value.1))
  }

  function Under(pairs: seq<(string, string)>, key: string): Option<string> {
    if pairs == [] then None else if pairs[0].0 == key then Some(pairs[0].1) else Under(pairs[1..], key)
  }

  predicate IsDigit(c: char) { '0' <= c <= '9' }

  function Number(s: string): Option<nat> {
    if s == "" || !IsDigit(s[|s| - 1]) then None
    else if |s| == 1 then Some(s[0] as int - '0' as int)
    else
      var front := Number(s[..|s| - 1]);
      if front.None? then None else Some(10 * front.value + (s[|s| - 1] as int - '0' as int))
  }

  function EventOf(pairs: seq<(string, string)>): Option<Event> {
    var kind, timestamp, number := Under(pairs, "concept:name"), Under(pairs, "time:timestamp"),
        Under(pairs, "btv:seq");
    if kind.None? || timestamp.None? || number.None? || Number(number.value).None? then None
    else Some(Event(Number(number.value).value, kind.value, timestamp.value,
                    Under(pairs, "btv:elementId"), Under(pairs, "btv:edgeId")))
  }

  /** The events of a trace and the tags after them. */
  function ReadEvents(tags: seq<Tag>): Option<(seq<Event>, seq<Tag>)>
    decreases |tags|
  {
    if tags == [] || !IsOpening(tags[0], "event") then Some(([], tags))
    else
      var pairs := ReadPairs(tags[1..]);
      if pairs.None? || EventOf(pairs.value.0).None? then None
      else
        var others := ReadEvents(pairs.value.1);
        if others.None? then None
        else Some(([EventOf(pairs.value.0).value] + others.value.0, others.value.1))
  }

  /** The declaration, the opening of the log and its extensions. */
  predicate InPreamble(t: Tag) {
    t.Element? && (t.ending == Declaration || IsOpening(t, "log") || t.name == "extension")
  }

  function SkipPreamble(tags: seq<Tag>): seq<Tag> {
    if tags != [] && InPreamble(tags[0]) then SkipPreamble(tags[1..]) else tags
  }

  function LogOf(tags: seq<Tag>): Option<Log> {
    var t := SkipPreamble(tags);
    if |t| < 3 || !IsNamed(t[0]) || !IsOpening(t[1], "trace") || !IsNamed(t[2]) then None
    else
      var events := ReadEvents(t[3..]);
      if events.None? || events.value.1 != [Closing("trace"), Closing("log")] then None
      else Some(Log(t[0].attributes[1].1, t[2].attributes[1].1, events.value.0))
  }

  /** The characters a document may consist of (the Char production, section 2.2 of
      XML 1.0). */
  predicate IsXmlChar(c: char) {
    || c == '\t' || c == '\n' || c == '\r'
    || ' ' <= c <= '\U{D7FF}'
    || '\U{E000}' <= c <= '\U{FFFD}'
    || '\U{10000}' <= c <= '\U{10FFFF}'
  }

  predicate AllXml(s: string) { forall i :: 0 <= i < |s| ==> IsXmlChar(s[i]) }

  /** A conforming reader rejects a document with any other character in it. */
  function ReadLog(text: string, conforming: bool): Option<Log> {
    if conforming && !AllXml(text) then None
    else
      var tags := ReadTags(text, conforming);
      if tags.None? then None else LogOf(tags.value)
  }
}
