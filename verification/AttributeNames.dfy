/** Camel-case attribute names on their way through an HTML parser.

    The parser lower-cases names, so they are written with hyphens before parsing and
    read back after it. */
module AttributeNames {

  predicate IsUpper(c: char) { 'A' <= c <= 'Z' }

  predicate IsLower(c: char) { 'a' <= c <= 'z' }

  function Lower(c: char): char
    requires IsUpper(c)
  {
    (c as int - 'A' as int + 'a' as int) as char
  }

  function Upper(c: char): char
    requires IsLower(c)
  {
    (c as int - 'a' as int + 'A' as int) as char
  }

  /** Every capital becomes a hyphen and its small letter. */
  function CamelToKebab(s: string): string {
    if s == "" then ""
    else (if IsUpper(s[0]) then ['-', Lower(s[0])] else [s[0]]) + CamelToKebab(s[1..])
  }

  /** Every hyphen with a small letter behind it becomes that letter's capital, from the left. */
  function KebabToCamel(s: string): string
    decreases |s|
  {
    if s == "" then ""
    else if |s| > 1 && s[0] == '-' && IsLower(s[1]) then [Upper(s[1])] + KebabToCamel(s[2..])
    else [s[0]] + KebabToCamel(s[1..])
  }

  predicate NoUpper(s: string) { forall i :: 0 <= i < |s| ==> !IsUpper(s[i]) }

  /** No hyphen stands right before a small letter. */
  predicate NoHyphenated(s: string) { forall i :: 0 <= i < |s| - 1 && s[i] == '-' ==> !IsLower(s[i + 1]) }

  /** The names the encoder matches: small letters, a capital, then letters and digits. */
  predicate IsCamelName(s: string) {
    && s != "" && IsLower(s[0])
    && (exists k :: 0 < k < |s| && IsUpper(s[k]) && forall i :: 0 <= i < k ==> IsLower(s[i]))
    && forall i :: 0 <= i < |s| ==> IsLower(s[i]) || IsUpper(s[i]) || '0' <= s[i] <= '9'
  }

  lemma {:induction false} KebabHasNoUpper(s: string)
    ensures NoUpper(CamelToKebab(s))
  {
    if s != "" {
      KebabHasNoUpper(s[1..]);
    }
  }

  lemma {:induction false} DecodeEncoded(s: string)
    requires NoHyphenated(s)
    ensures KebabToCamel(CamelToKebab(s)) == s
    decreases |s|
  {
    if s != "" {
      var rest := CamelToKebab(s[1..]);
      DecodeEncoded(s[1..]);
      var t := CamelToKebab(s);
      if IsUpper(s[0]) {
        assert t[2..] == rest;
      } else {
        assert t[1..] == rest;
        if s[0] == '-' && |s| > 1 {
          assert rest[0] == if IsUpper(s[1]) then '-' else s[1];
        }
      }
    }
  }

  /** Decoding leaves no hyphen before a small letter, and starts small only where the
      encoded name did. */
  lemma {:induction false} DecodedIsNotHyphenated(s: string)
    ensures NoHyphenated(KebabToCamel(s))
    ensures KebabToCamel(s) != "" && IsLower(KebabToCamel(s)[0]) ==> IsLower(s[0]) && s != ""
    decreases |s|
  {
    if s == "" {
    } else if |s| > 1 && s[0] == '-' && IsLower(s[1]) {
      DecodedIsNotHyphenated(s[2..]);
    } else {
      DecodedIsNotHyphenated(s[1..]);
    }
  }

  /** Encoding then decoding: the identity exactly on names without a hyphen before a
      small letter. */
  lemma {:induction false} DecodeEncodedIff(s: string)
    ensures KebabToCamel(CamelToKebab(s)) == s <==> NoHyphenated(s)
  {
    if NoHyphenated(s) {
      DecodeEncoded(s);
    } else {
      DecodedIsNotHyphenated(CamelToKebab(s));
    }
  }

  lemma EncodeFront(c: char, rest: string)
    ensures CamelToKebab([c] + rest) == (if IsUpper(c) then ['-', Lower(c)] else [c]) + CamelToKebab(rest)
  {
    assert ([c] + rest)[1..] == rest;
  }

  lemma CaseRoundTrip(c: char)
    ensures IsLower(c) ==> IsUpper(Upper(c)) && Lower(Upper(c)) == c
  {
  }

  lemma {:induction false} EncodeDecoded(s: string)
    requires NoUpper(s)
    ensures CamelToKebab(KebabToCamel(s)) == s
    decreases |s|
  {
    if s == "" {
    } else if |s| > 1 && s[0] == '-' && IsLower(s[1]) {
      EncodeDecoded(s[2..]);
      EncodePair(s);
    } else {
      EncodeDecoded(s[1..]);
      EncodeSingle(s);
    }
  }

  lemma EncodePair(s: string)
    requires |s| > 1 && s[0] == '-' && IsLower(s[1]) && CamelToKebab(KebabToCamel(s[2..])) == s[2..]
    ensures CamelToKebab(KebabToCamel(s)) == s
  {
    var camel := KebabToCamel(s[2..]);
    assert KebabToCamel(s) == [Upper(s[1])] + camel;
    CaseRoundTrip(s[1]);
    EncodeFront(Upper(s[1]), camel);
    hide CamelToKebab, KebabToCamel, IsLower, IsUpper, Lower, Upper;
    assert s == ['-', s[1]] + s[2..];
  }

  lemma EncodeSingle(s: string)
    requires s != "" && !IsUpper(s[0]) && !(|s| > 1 && s[0] == '-' && IsLower(s[1]))
    requires CamelToKebab(KebabToCamel(s[1..])) == s[1..]
    ensures CamelToKebab(KebabToCamel(s)) == s
  {
    var camel := KebabToCamel(s[1..]);
    assert KebabToCamel(s) == [s[0]] + camel;
    EncodeFront(s[0], camel);
    hide CamelToKebab, KebabToCamel, IsLower, IsUpper;
    assert s == [s[0]] + s[1..];
  }

  /** Decoding then encoding: the identity exactly on names without capitals. */
  lemma {:induction false} EncodeDecodedIff(s: string)
    ensures CamelToKebab(KebabToCamel(s)) == s <==> NoUpper(s)
  {
    if NoUpper(s) {
      EncodeDecoded(s);
    } else {
      KebabHasNoUpper(KebabToCamel(s));
    }
  }

  const PREFIX := "sc-camel-"

  /** What the encoder writes for a name it matches. */
  function Written(name: string): string { PREFIX + CamelToKebab(name) }

  /** What the HTML parser makes of an attribute name. */
  function Lowered(s: string): (r: string)
    ensures |r| == |s|
    ensures forall i :: 0 <= i < |s| ==> r[i] == if IsUpper(s[i]) then Lower(s[i]) else s[i]
  {
    seq(|s|, i requires 0 <= i < |s| => if IsUpper(s[i]) then Lower(s[i]) else s[i])
  }

  /** The key that the compiler takes an attribute name for. */
  function KeyOf(name: string): string {
    if |name| >= |PREFIX| && name[..|PREFIX|] == PREFIX then KebabToCamel(name[|PREFIX|..]) else name
  }

  lemma LoweredSame(s: string)
    requires NoUpper(s)
    ensures Lowered(s) == s
  {
  }

  lemma NoUpperConcat(a: string, b: string)
    requires NoUpper(a) && NoUpper(b)
    ensures NoUpper(a + b)
  {
  }

  lemma CapitalLost(s: string, k: nat)
    requires k < |s| && IsUpper(s[k])
    ensures Lowered(s) != s
  {
    assert Lowered(s)[k] == Lower(s[k]) && !IsUpper(Lower(s[k]));
  }

  lemma KeyOfPrefixed(kebab: string)
    ensures KeyOf(PREFIX + kebab) == KebabToCamel(kebab)
  {
    var name := PREFIX + kebab;
    assert name[..|PREFIX|] == PREFIX && name[|PREFIX|..] == kebab;
    hide KebabToCamel;
  }

  lemma CamelHasCapital(s: string) returns (k: nat)
    requires IsCamelName(s)
    ensures k < |s| && IsUpper(s[k]) && NoHyphenated(s)
  {
    k :| 0 < k < |s| && IsUpper(s[k]);
  }

  lemma PrefixHasNoUpper()
    ensures NoUpper(PREFIX)
  {
  }

  /** Every name the encoder matches passes the parser and is read back, prefix and all,
      where the bare name would have lost its capitals. */
  lemma MatchedNamesSurvive(s: string)
    requires IsCamelName(s)
    ensures KeyOf(Lowered(Written(s))) == s && Lowered(s) != s
  {
    hide IsCamelName, NoHyphenated, NoUpper, CamelToKebab, KebabToCamel, KeyOf, Lowered, PREFIX;
    var k := CamelHasCapital(s);
    CapitalLost(s, k);
    DecodeEncoded(s);
    PrefixHasNoUpper();
    KebabHasNoUpper(s);
    NoUpperConcat(PREFIX, CamelToKebab(s));
    LoweredSame(Written(s));
    KeyOfPrefixed(CamelToKebab(s));
  }

  /** A capital is written as a hyphen and its small letter, 32 codes on; anything else as it is. */
  lemma {:induction false} WrittenEach(front: string, c: char, rest: string)
    ensures CamelToKebab(front + [c] + rest) ==
            CamelToKebab(front) + (if 'A' <= c <= 'Z' then ['-', (c as int + 32) as char] else [c]) + CamelToKebab(rest)
    ensures Written(front) == "sc-camel-" + CamelToKebab(front)
  {
    if front == "" {
      assert ([c] + rest)[1..] == rest && "" + [c] + rest == [c] + rest;
    } else {
      assert (front + [c] + rest)[1..] == front[1..] + [c] + rest;
      WrittenEach(front[1..], c, rest);
    }
  }
}
