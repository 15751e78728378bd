/** One piece of the exported text read back.

    First a single value: what escaping does to it, what a processor's normalisation
    does to it, and that replacing the references gets it back. Then numbers, and then
    one tag with its attributes, whatever stands around it. */
module XesRoundTrip {
  import opened Options
  import opened Xes
  import opened XesReader

  // Escaping of one value.

  lemma {:induction false} ReplaceConcat(a: string, b: string, c: char, entity: string)
    ensures ReplaceAll(a + b, c, entity) == ReplaceAll(a, c, entity) + ReplaceAll(b, c, entity)
  {
    if a == "" {
      assert a + b == b;
    } else {
      assert (a + b)[1..] == a[1..] + b;
      ReplaceConcat(a[1..], b, c, entity);
    }
  }

  lemma {:induction false} ReplaceNone(s: string, c: char, entity: string)
    requires c !in s
    ensures ReplaceAll(s, c, entity) == s
  {
    if s != "" {
      ReplaceNone(s[1..], c, entity);
    }
  }

  lemma EscConcat(a: string, b: string)
    ensures Esc(a + b) == Esc(a) + Esc(b)
  {
    ReplaceConcat(a, b, '&', "&amp;");
    var a1, b1 := ReplaceAll(a, '&', "&amp;"), ReplaceAll(b, '&', "&amp;");
    ReplaceConcat(a1, b1, '<', "&lt;");
    var a2, b2 := ReplaceAll(a1, '<', "&lt;"), ReplaceAll(b1, '<', "&lt;");
    ReplaceConcat(a2, b2, '>', "&gt;");
    ReplaceConcat(ReplaceAll(a2, '>', "&gt;"), ReplaceAll(b2, '>', "&gt;"), '"', "&quot;");
  }

  predicate Special(c: char) { c == '&' || c == '<' || c == '>' || c == '"' }

  /** What one character becomes. */
  function EscChar(c: char): string {
    if c == '&' then "&amp;" else if c == '<' then "&lt;" else if c == '>' then "&gt;"
    else if c == '"' then "&quot;" else [c]
  }

  lemma ReplaceOne(c: char, d: char, entity: string)
    ensures ReplaceAll([c], d, entity) == if c == d then entity else [c]
  {
    assert [c][1..] == "";
  }

  /** The chain of replacements never touches what an earlier one wrote. */
  lemma EscOne(c: char)
    ensures Esc([c]) == EscChar(c)
  {
    hide ReplaceAll;
    ReplaceOne(c, '&', "&amp;");
    if c == '&' {
      ReplaceNone("&amp;", '<', "&lt;");
      ReplaceNone("&amp;", '>', "&gt;");
      ReplaceNone("&amp;", '"', "&quot;");
    } else {
      ReplaceOne(c, '<', "&lt;");
      if c == '<' {
        ReplaceNone("&lt;", '>', "&gt;");
        ReplaceNone("&lt;", '"', "&quot;");
      } else {
        ReplaceOne(c, '>', "&gt;");
        if c == '>' {
          ReplaceNone("&gt;", '"', "&quot;");
        } else {
          ReplaceOne(c, '"', "&quot;");
        }
      }
    }
  }

  lemma EscHead(s: string)
    requires s != ""
    ensures Esc(s) == EscChar(s[0]) + Esc(s[1..])
  {
    hide Esc;
    assert s == [s[0]] + s[1..];
    EscConcat([s[0]], s[1..]);
    EscOne(s[0]);
  }

  predicate Plain(s: string) { forall i :: 0 <= i < |s| ==> !Special(s[i]) }

  lemma EscPlain(s: string)
    requires Plain(s)
    ensures Esc(s) == s
  {
    ReplaceNone(s, '&', "&amp;");
    ReplaceNone(s, '<', "&lt;");
    ReplaceNone(s, '>', "&gt;");
    ReplaceNone(s, '"', "&quot;");
  }

  lemma EscCharQuotable(c: char)
    ensures '"' !in EscChar(c) && '<' !in EscChar(c) && '>' !in EscChar(c)
  {
  }

  /** An escaped value is an AttValue of XML 1.0: no quote and no `<` in it. */
  lemma {:induction false} EscQuotable(s: string)
    ensures '"' !in Esc(s) && '<' !in Esc(s) && '>' !in Esc(s)
  {
    if s != "" {
      EscHead(s);
      EscCharQuotable(s[0]);
      EscQuotable(s[1..]);
      hide Esc, EscChar;
    }
  }

  lemma UnescapeHead(c: char, rest: string)
    ensures Unescape(EscChar(c) + rest) == Prepend(c, Unescape(rest))
  {
    var t := EscChar(c) + rest;
    assert t[|EscChar(c)|..] == rest;
    if Special(c) {
      assert t[..|EscChar(c)|] == EscChar(c);
      assert t[0] == '&';
      if c != '&' { assert t[1] != 'a'; }
      if c == '>' { assert t[1] != 'l'; }
      if c == '"' { assert t[1] != 'l' && t[1] != 'g'; }
    }
  }

  /** Unescaping is the inverse of escaping, for every string. */
  lemma {:induction false} UnescapeEsc(s: string)
    ensures Unescape(Esc(s)) == Some(s)
  {
    if s == "" {
    } else {
      EscHead(s);
      UnescapeEsc(s[1..]);
      UnescapeHead(s[0], Esc(s[1..]));
      assert [s[0]] + s[1..] == s;
    }
  }

  // Normalisation by a conforming processor.

  predicate Unbroken(s: string) { forall i :: 0 <= i < |s| ==> !IsBreak(s[i]) }

  lemma {:induction false} NormalisePlain(p: string, rest: string)
    requires Unbroken(p)
    ensures Normalise(p + rest) == p + Normalise(rest)
  {
    if p == "" {
      assert p + rest == rest;
    } else {
      assert (p + rest)[1..] == p[1..] + rest;
      NormalisePlain(p[1..], rest);
    }
  }

  /** Normalising and escaping commute: no break is written as a reference. */
  lemma {:induction false} NormaliseEsc(s: string)
    ensures Normalise(Esc(s)) == Esc(Normalise(s))
    decreases |s|
  {
    if s == "" {
    } else if StartsPair(s) {
      NormaliseEsc(s[2..]);
      NormalisePair(s);
    } else {
      NormaliseEsc(s[1..]);
      NormaliseSingle(s);
    }
  }

  lemma NormalisePair(s: string)
    requires StartsPair(s)
    requires Normalise(Esc(s[2..])) == Esc(Normalise(s[2..]))
    ensures Normalise(Esc(s)) == Esc(Normalise(s))
  {
    hide Esc;
    EscHead(s);
    EscHead(s[1..]);
    assert s[1..][1..] == s[2..];
    var t := Esc(s);
    assert t == "\r" + ("\n" + Esc(s[2..]));
    assert t[2..] == Esc(s[2..]);
    EscConcat(" ", Normalise(s[2..]));
    EscOne(' ');
  }

  predicate StartsPair(s: string) { |s| > 1 && s[0] == '\r' && s[1] == '\n' }

  function NormalisedChar(c: char): char { if IsBreak(c) then ' ' else c }

  lemma NormaliseSingle(s: string)
    requires s != "" && !StartsPair(s)
    requires Normalise(Esc(s[1..])) == Esc(Normalise(s[1..]))
    ensures Normalise(Esc(s)) == Esc(Normalise(s))
  {
    var c, n := NormalisedChar(s[0]), Normalise(s[1..]);
    assert Normalise(s) == [c] + n;
    hide *;
    EscapedHead(s);
    EscConcat([c], n);
    EscOne(c);
  }

  lemma EscapedHead(s: string)
    requires s != "" && !StartsPair(s)
    ensures Normalise(Esc(s)) == EscChar(NormalisedChar(s[0])) + Normalise(Esc(s[1..]))
  {
    hide Esc, Normalise;
    if IsBreak(s[0]) {
      NormaliseBreak(s);
    } else {
      EscHead(s);
      EscCharUnbroken(s[0]);
      NormalisePlain(EscChar(s[0]), Esc(s[1..]));
    }
  }

  lemma EscCharUnbroken(c: char)
    requires !IsBreak(c)
    ensures Unbroken(EscChar(c))
  {
  }

  lemma NormaliseBreak(s: string)
    requires s != "" && IsBreak(s[0]) && !StartsPair(s)
    ensures Normalise(Esc(s)) == " " + Normalise(Esc(s[1..]))
  {
    hide Esc;
    EscHead(s);
    var t := Esc(s);
    assert t == [s[0]] + Esc(s[1..]);
    assert t[1..] == Esc(s[1..]);
    if |s| > 1 {
      EscHead(s[1..]);
      assert t[1] == EscChar(s[1])[0];
    } else {
      EscPlain("");
      assert s[1..] == "";
    }
  }

  /** A value survives normalisation exactly when it holds no tab and no line end. */
  lemma {:induction false} NormaliseIff(s: string)
    ensures Normalise(s) == s <==> Unbroken(s)
    decreases |s|
  {
    if Unbroken(s) {
      NormalisePlain(s, "");
      assert s + "" == s;
    } else {
      NormaliseUnbroken(s);
    }
  }

  lemma {:induction false} NormaliseUnbroken(s: string)
    ensures Unbroken(Normalise(s))
    decreases |s|
  {
    if s == "" {
    } else if StartsPair(s) {
      NormaliseUnbroken(s[2..]);
    } else {
      NormaliseUnbroken(s[1..]);
    }
  }

  /** What a reader makes of a string. */
  function Seen(s: string, conforming: bool): string { if conforming then Normalise(s) else s }

  lemma ReadValueOf(s: string, conforming: bool)
    ensures ReadValue(Esc(s), conforming) == Some(Seen(s, conforming))
  {
    hide Esc, Unescape, Normalise;
    NormaliseEsc(s);
    UnescapeEsc(Seen(s, conforming));
  }

  // Numbers.

  lemma {:induction false} NumberOfDecimal(n: nat)
    ensures Number(Decimal(n)) == Some(n)
  {
    if n < 10 {
      assert Decimal(n) == [Digit(n)];
    } else {
      NumberOfDecimal(n / 10);
      var s := Decimal(n);
      assert s[..|s| - 1] == Decimal(n / 10);
    }
  }

  lemma DecimalPlain(n: nat)
    ensures Esc(Decimal(n)) == Decimal(n) && Normalise(Decimal(n)) == Decimal(n)
  {
    EscPlain(Decimal(n));
    NormaliseIff(Decimal(n));
  }

  // One tag.

  predicate NameLike(s: string) {
    s != "" && forall i :: 0 <= i < |s| ==> !EndsName(s[i]) && !Special(s[i]) && s[i] != '='
  }

  predicate ProperTag(t: Tag) {
    && NameLike(t.name)
    && (t.Element? ==> forall a <- t.attributes :: NameLike(a.0))
  }

  function AttributeText(key: string, value: string): string { Pair(key, Esc(value)) }

  function AttributesText(attributes: seq<(string, string)>): string {
    if attributes == [] then "" else AttributeText(attributes[0].0, attributes[0].1) + AttributesText(attributes[1..])
  }

  function EndText(ending: Ending): string {
    match ending case Opening => ">" case Empty => "/>" case Declaration => "?>"
  }

  /** A tag as XML writes it. */
  function Markup(t: Tag): string {
    match t
    case Closing(name) => "</" + name + ">"
    case Element(name, attributes, ending) =>
      (if ending.Declaration? then "<?" else "<") + name + AttributesText(attributes) + EndText(ending)
  }

  function SeenPairs(pairs: seq<(string, string)>, conforming: bool): seq<(string, string)> {
    if pairs == [] then [] else [(pairs[0].0, Seen(pairs[0].1, conforming))] + SeenPairs(pairs[1..], conforming)
  }

  function SeenTag(t: Tag, conforming: bool): Tag {
    if t.Element? then t.(attributes := SeenPairs(t.attributes, conforming)) else t
  }

  lemma {:induction false} IndexOfFirst(p: string, c: char, rest: string)
    requires c !in p
    ensures IndexOf(p + [c] + rest, c) == |p|
  {
    if p == "" {
      assert p + [c] + rest == [c] + rest;
    } else {
      assert (p + [c] + rest)[1..] == p[1..] + [c] + rest;
      IndexOfFirst(p[1..], c, rest);
    }
  }

  lemma {:induction false} ReadEnd(ending: Ending, rest: string, conforming: bool)
    ensures ReadAttributes(EndText(ending) + rest, conforming) == Some(Attributes([], ending, rest))
  {
    var t := EndText(ending) + rest;
    assert SkipSpaces(t) == t;
    assert t[|EndText(ending)|..] == rest;
    assert t[..|EndText(ending)|] == EndText(ending);
    if ending != Opening { assert t[0] != '>'; }
    if ending == Declaration || ending == Opening { assert !StartsWith(t, "/>"); }
    if ending == Opening { assert !StartsWith(t, "?>"); }
  }

  /** An attribute text as the reader cuts it: key up to the equals sign, then the value
      up to the quote. */
  lemma CutAttribute(key: string, value: string, rest: string)
    requires NameLike(key)
    ensures var t := key + ['='] + (['"'] + Esc(value) + ['"'] + rest);
            && SkipSpaces(AttributeText(key, value) + rest) == t
            && IndexOf(t, '=') == |key| && t[|key| + 1] == '"' && t[..|key|] == key
            && t[|key| + 2..] == Esc(value) + ['"'] + rest
            && !StartsWith(t, "/>") && !StartsWith(t, "?>") && !StartsWith(t, ">")
  {
    hide Esc;
    var quoted := Esc(value);
    var after := ['"'] + quoted + ['"'] + rest;
    var t := key + ['='] + after;
    var s := AttributeText(key, value) + rest;
    assert s[1..] == t;
    assert t[0] == key[0] && !EndsName(key[0]);
    assert SkipSpaces(t) == t;
    IndexOfFirst(key, '=', after);
    assert t[|key| + 2..] == after[1..];
  }

  lemma CutValue(value: string, rest: string)
    ensures var body := Esc(value) + ['"'] + rest;
            IndexOf(body, '"') == |Esc(value)| && body[..|Esc(value)|] == Esc(value) && body[|Esc(value)| + 1..] == rest
  {
    hide Esc;
    EscQuotable(value);
    IndexOfFirst(Esc(value), '"', rest);
  }

  /** One attribute in front of the others. */
  lemma ReadFirst(key: string, value: string, rest: string, conforming: bool)
    requires NameLike(key)
    ensures var others := ReadAttributes(rest, conforming);
            ReadAttributes(AttributeText(key, value) + rest, conforming) ==
            if others.None? then None
            else Some(others.value.(pairs := [(key, Seen(value, conforming))] + others.value.pairs))
  {
    hide Esc, ReadValue, Normalise, StartsWith, SkipSpaces, IndexOf, NameLike, AttributeText;
    CutAttribute(key, value, rest);
    CutValue(value, rest);
    ReadValueOf(value, conforming);
  }

  lemma {:induction false} ReadAllAttributes(
      attributes: seq<(string, string)>, ending: Ending, rest: string, conforming: bool)
    requires forall a <- attributes :: NameLike(a.0)
    ensures ReadAttributes(AttributesText(attributes) + (EndText(ending) + rest), conforming)
            == Some(Attributes(SeenPairs(attributes, conforming), ending, rest))
  {
    hide AttributeText, ReadAttributes, EndText, NameLike, Seen;
    var end := EndText(ending) + rest;
    if attributes == [] {
      assert AttributesText(attributes) + end == end;
      ReadEnd(ending, rest, conforming);
    } else {
      var a := attributes[0];
      var others := AttributesText(attributes[1..]);
      ReadAllAttributes(attributes[1..], ending, rest, conforming);
      ReadFirst(a.0, a.1, others + end, conforming);
      assert (AttributeText(a.0, a.1) + others) + end == AttributeText(a.0, a.1) + (others + end);
    }
  }

  lemma {:induction false} NameLengthOf(name: string, rest: string)
    requires forall i :: 0 <= i < |name| ==> !EndsName(name[i])
    requires rest != "" && EndsName(rest[0])
    ensures NameLength(name + rest) == |name|
  {
    if name == "" {
      assert name + rest == rest;
    } else {
      assert (name + rest)[1..] == name[1..] + rest;
      NameLengthOf(name[1..], rest);
    }
  }

  /** What follows the name of an element. */
  function TailText(t: Tag, rest: string): string
    requires t.Element?
  {
    AttributesText(t.attributes) + (EndText(t.ending) + rest)
  }

  lemma MarkupSplit(t: Tag, rest: string)
    requires t.Element?
    ensures Markup(t)[1..] + rest == (if t.ending.Declaration? then "?" else "") + (t.name + TailText(t, rest))
    ensures TailText(t, rest) != "" && EndsName(TailText(t, rest)[0])
  {
    hide AttributesText;
    var a := AttributesText(t.attributes);
    if t.attributes == [] {
      assert a == "" by { NoAttributes(); }
    } else {
      assert a != "" && a[0] == ' ' by { SomeAttributes(t.attributes); }
    }
  }

  lemma NoAttributes()
    ensures AttributesText([]) == ""
  {
  }

  lemma SomeAttributes(attributes: seq<(string, string)>)
    requires attributes != []
    ensures AttributesText(attributes) != "" && AttributesText(attributes)[0] == ' '
  {
    hide Esc;
  }

  lemma ReadElement(t: Tag, rest: string, conforming: bool)
    requires ProperTag(t) && t.Element?
    ensures ReadTag(Markup(t)[1..] + rest, conforming) == Some((SeenTag(t, conforming), rest))
  {
    hide Markup, ReadAttributes, SeenPairs, TailText, NameLength;
    var tail := TailText(t, rest);
    MarkupSplit(t, rest);
    NameLengthOf(t.name, tail);
    assert (t.name + tail)[|t.name|..] == tail && (t.name + tail)[..|t.name|] == t.name;
    ReadTail(t, rest, conforming);
    assert !EndsName(t.name[0]);
    if t.ending.Declaration? {
      assert ("?" + (t.name + tail))[1..] == t.name + tail;
    } else {
      assert "" + (t.name + tail) == t.name + tail;
    }
  }

  lemma ReadTail(t: Tag, rest: string, conforming: bool)
    requires ProperTag(t) && t.Element?
    ensures ReadAttributes(TailText(t, rest), conforming)
            == Some(Attributes(SeenPairs(t.attributes, conforming), t.ending, rest))
  {
    hide ReadAttributes, SeenPairs, NameLike;
    ReadAllAttributes(t.attributes, t.ending, rest, conforming);
  }

  lemma ReadClosing(name: string, rest: string, conforming: bool)
    requires NameLike(name)
    ensures ReadTag(Markup(Closing(name))[1..] + rest, conforming) == Some((Closing(name), rest))
  {
    var s := Markup(Closing(name))[1..] + rest;
    assert s == ("/" + name) + ['>'] + rest;
    assert '>' !in "/" + name;
    IndexOfFirst("/" + name, '>', rest);
    assert s[1..|name| + 1] == name && s[|name| + 2..] == rest;
  }

  /** One tag, whatever stands before it and after it. */
  lemma ReadRow(gap: string, t: Tag, rest: string, conforming: bool)
    requires '<' !in gap && ProperTag(t)
    ensures var others := ReadTags(rest, conforming);
            ReadTags(gap + Markup(t) + rest, conforming) ==
            if others.None? then None else Some([SeenTag(t, conforming)] + others.value)
  {
    hide ReadTag, SeenTag, AttributesText;
    var s := gap + Markup(t) + rest;
    assert s == gap + ['<'] + (Markup(t)[1..] + rest);
    IndexOfFirst(gap, '<', Markup(t)[1..] + rest);
    assert s[|gap| + 1..] == Markup(t)[1..] + rest;
    if t.Element? { ReadElement(t, rest, conforming); } else { ReadClosing(t.name, rest, conforming);
      assert SeenTag(t, conforming) == t by { SeenClosing(t, conforming); } }
  }

  lemma SeenClosing(t: Tag, conforming: bool)
    requires t.Closing?
    ensures SeenTag(t, conforming) == t
  {
  }
}

