/** Where the holes of a template text are: `{{` up to the next `}}` with something in
    between, cut out of the surrounding text. */
module Holes {
  /** The first position from `i` on where `c` stands twice, or the length. */
  function FirstPair(s: string, c: char, i: nat): (k: nat)
    requires i <= |s|
    ensures i <= k <= |s|
    ensures k < |s| ==> PairAt(s, c, k)
    ensures forall j :: i <= j < k ==> !PairAt(s, c, j)
    decreases |s| - i
  {
    if i == |s| || PairAt(s, c, i) then i else FirstPair(s, c, i + 1)
  }

  predicate PairAt(s: string, c: char, k: nat) { k + 1 < |s| && s[k] == c && s[k + 1] == c }

  /** The first hole: where it opens and where it closes. */
  datatype Hole = NoHole | Hole(open: nat, close: nat)

  function FirstHole(s: string): (h: Hole)
    ensures h.Hole? ==> h.open + 3 <= h.close && h.close + 2 <= |s|
    ensures h.Hole? ==> PairAt(s, '{', h.open) && PairAt(s, '}', h.close)
  {
    var p := FirstPair(s, '{', 0);
    if p + 3 > |s| then NoHole
    else
      var q := FirstPair(s, '}', p + 3);
      if q == |s| then NoHole else Hole(p, q)
  }

  /** The parts of a text as the split by holes returns them: text, hole, text, and so
      on, ending with text. */
  function SplitHoles(s: string): (parts: seq<string>)
    ensures |parts| % 2 == 1
    decreases |s|
  {
    match FirstHole(s)
    case NoHole => [s]
    case Hole(p, q) => [s[..p], s[p + 2..q]] + SplitHoles(s[q + 2..])
  }

  /** A template text as it is meant: pieces of text with expressions in between. */
  datatype Mixed = Last(text: string) | Then(text: string, source: string, rest: Mixed)

  function Print(m: Mixed): string {
    match m
    case Last(text) => text
    case Then(text, source, rest) => text + "{{" + source + "}}" + Print(rest)
  }

  function Parts(m: Mixed): seq<string> {
    match m
    case Last(text) => [text]
    case Then(text, source, rest) => [text, source] + Parts(rest)
  }

  /** A text may not open a hole early, a source may not close its hole early, and the
      last text holds no hole. */
  ghost predicate Proper(m: Mixed) {
    match m
    case Last(text) =>
      forall p, q :: 0 <= p && p + 3 <= q ==> !(PairAt(text, '{', p) && PairAt(text, '}', q))
    case Then(text, source, rest) =>
      && OpensFirst(text) && ClosesFirst(source) && Proper(rest)
  }

  predicate OpensFirst(text: string) {
    forall p :: 0 <= p < |text| ==> !PairAt(text + "{{", '{', p)
  }

  predicate ClosesFirst(source: string) {
    source != "" && forall q :: 1 <= q < |source| ==> !PairAt(source + "}}", '}', q)
  }

  /** A text read as pieces. */
  function Read(s: string): Mixed
    decreases |s|
  {
    match FirstHole(s)
    case NoHole => Last(s)
    case Hole(p, q) => Then(s[..p], s[p + 2..q], Read(s[q + 2..]))
  }

  lemma {:induction false} PartsOfRead(s: string)
    ensures Parts(Read(s)) == SplitHoles(s)
    decreases |s|
  {
    match FirstHole(s)
    case NoHole =>
    case Hole(p, q) => PartsOfRead(s[q + 2..]);
  }

  lemma CutIsProper(s: string, p: nat, q: nat)
    requires FirstHole(s) == Hole(p, q)
    ensures OpensFirst(s[..p]) && ClosesFirst(s[p + 2..q])
    ensures s == s[..p] + "{{" + s[p + 2..q] + "}}" + s[q + 2..]
  {
    var text, source := s[..p], s[p + 2..q];
    forall k | 0 <= k < p ensures !PairAt(text + "{{", '{', k) {
      assert !PairAt(s, '{', k);
    }
    var t := source + "}}";
    forall k: nat | 1 <= k < |source| && t[k] == '}' ensures !PairAt(t, '}', k) {
      assert !PairAt(s, '}', p + 2 + k);
    }
  }

  /** Every text is the print of a proper reading. */
  lemma {:induction false} ReadPrints(s: string)
    ensures Print(Read(s)) == s && Proper(Read(s))
    decreases |s|
  {
    match FirstHole(s)
    case NoHole =>
      assert forall p, q :: 0 <= p && p + 3 <= q && PairAt(s, '{', p) ==> !PairAt(s, '}', q);
    case Hole(p, q) =>
      ReadPrints(s[q + 2..]);
      CutIsProper(s, p, q);
  }

  lemma HoleFound(text: string, source: string, rest: string)
    requires OpensFirst(text) && ClosesFirst(source)
    ensures FirstHole(text + "{{" + source + "}}" + rest) == Hole(|text|, |text| + 2 + |source|)
  {
    var s := text + "{{" + source + "}}" + rest;
    assert PairAt(s, '{', |text|);
    forall k | 0 <= k < |text| ensures !PairAt(s, '{', k) {
      assert !PairAt(text + "{{", '{', k);
    }
    var end := |text| + 2 + |source|;
    assert PairAt(s, '}', end);
    forall k | |text| + 3 <= k < end ensures !PairAt(s, '}', k) {
      assert !PairAt(source + "}}", '}', k - |text| - 2);
    }
  }

  lemma HolePieces(text: string, source: string, rest: string)
    ensures var s := text + "{{" + source + "}}" + rest;
            && s[..|text|] == text && s[|text| + 2..|text| + 2 + |source|] == source
            && s[|text| + 2 + |source| + 2..] == rest
  {
  }

  lemma ReadStep(text: string, source: string, rest: string)
    requires OpensFirst(text) && ClosesFirst(source)
    ensures Read(text + "{{" + source + "}}" + rest) == Then(text, source, Read(rest))
  {
    HoleFound(text, source, rest);
    HolePieces(text, source, rest);
    hide FirstHole, OpensFirst, ClosesFirst;
  }

  /** The reading is the only one: printing and reading are inverse to each other. */
  lemma {:induction false} ReadIsUnique(m: Mixed)
    requires Proper(m)
    ensures Read(Print(m)) == m
  {
    match m
    case Last(text) =>
    case Then(text, source, rest) =>
      ReadIsUnique(rest);
      ReadStep(text, source, Print(rest));
      hide Read, FirstHole, OpensFirst, ClosesFirst, Proper;
  }
}
