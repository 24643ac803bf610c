/** The criterion pattern of the protocol chunker and Python's `findall`
    over it, written out as a deterministic scanner.

    The pattern is: start of text or a newline, optional whitespace, one
    marker (`N.`, `N)`, `(N)`, `a.`, `a)`, `(a)`, a bullet glyph or a
    dash), optional whitespace, then the item body — at least one character,
    as few as possible — up to the first place where a newline, optional
    whitespace and another marker follow, or the end of the text (Python's
    `$` also matches just before a final newline). Because every marker
    starts with a non-whitespace character, the marker of a match always
    begins at the first non-whitespace character after the line start, and
    an attempt fails only when that is not a marker or when the marker is
    the last thing in the text. */
module Markers {
  import opened Wrappers
  import opened Text

  /** What introduced an item: its digits (`1.`, `1)`, `(1)`), its letter
      (`a.`, `a)`, `(a)`), or no number at all (a bullet glyph or a dash). */
  datatype Marker = Digits(digits: string) | Letter(letter: char) | Unmarked

  /** One element of the `findall` result: the marker's capture groups and
      the captured item text. */
  datatype Item = Item(marker: Marker, body: string)

  datatype Token = Token(marker: Marker, end: nat)

  /** U+2022, U+2023, U+25E6, U+2043, U+2219 (the pattern lists U+2022 twice). */
  predicate IsBullet(c: char) {
    c == '\U{2022}' || c == '\U{2023}' || c == '\U{25E6}' || c == '\U{2043}' || c == '\U{2219}'
  }

  /** Hyphen-minus, en dash and em dash. */
  predicate IsDash(c: char) {
    c == '-' || c == '\U{2013}' || c == '\U{2014}'
  }

  predicate IsCloser(c: char) { c == '.' || c == ')' }

  /** The marker alternatives, in the pattern's order, tried at `f`; the
      token ends just after the marker. At most one alternative can apply,
      since they begin with disjoint characters. */
  function MarkerAt(t: string, f: nat): (r: Option<Token>)
    requires f <= |t|
    ensures r.Some? ==> f < r.value.end <= |t| && !IsSpace(t[f])
  {
    if f == |t| then None
    else
      var d := DigitEnd(t, f);
      var e := DigitEnd(t, f + 1);
      if f < d < |t| && IsCloser(t[d]) then Some(Token(Digits(t[f..d]), d + 1))
      else if t[f] == '(' && f + 1 < e < |t| && t[e] == ')' then Some(Token(Digits(t[f + 1..e]), e + 1))
      else if IsLower(t[f]) && f + 1 < |t| && IsCloser(t[f + 1]) then Some(Token(Letter(t[f]), f + 2))
      else if t[f] == '(' && f + 2 < |t| && IsLower(t[f + 1]) && t[f + 2] == ')' then Some(Token(Letter(t[f + 1]), f + 3))
      else if IsBullet(t[f]) || IsDash(t[f]) then Some(Token(Unmarked, f + 1))
      else None
  }

  /** The lookahead that closes an item body at `q`. */
  predicate EndsItem(t: string, q: nat)
    requires q <= |t|
  {
    q == |t|
    || (q == |t| - 1 && t[q] == '\n')
    || (t[q] == '\n' && MarkerAt(t, SkipSpace(t, q + 1)).Some?)
  }

  /** The first position at or after `q` where the lookahead holds (the lazy
      body stops there). */
  function ItemEnd(t: string, q: nat): (e: nat)
    requires q <= |t|
    ensures q <= e <= |t| && EndsItem(t, e)
    ensures forall k :: q <= k < e ==> !EndsItem(t, k)
    decreases |t| - q
  {
    if EndsItem(t, q) then q else ItemEnd(t, q + 1)
  }

  predicate LineStart(t: string, p: nat) {
    p == 0 || (p < |t| && t[p] == '\n')
  }

  /** The match attempted at position `p`: the item and where it ends. */
  function MatchAt(t: string, p: nat): (r: Option<(Item, nat)>)
    requires p < |t|
    ensures r.Some? ==> LineStart(t, p) && p < r.value.1 <= |t|
    ensures r.Some? ==> r.value.0.body != []
  {
    if !LineStart(t, p) then None
    else match MarkerAt(t, SkipSpace(t, p))
      case None => None
      case Some(tok) =>
        if tok.end == |t| then None
        else
          var w := SkipSpace(t, tok.end);
          var b := if w == |t| then |t| - 1 else w;
          var q := ItemEnd(t, b + 1);
          Some((Item(tok.marker, t[b..q]), q))
  }

  /** `findall` from position `p`: after a match the search resumes where
      it ended, otherwise one character further on. */
  function FindAllFrom(t: string, p: nat): seq<Item>
    requires p <= |t|
    decreases |t| - p
  {
    if p == |t| then []
    else match MatchAt(t, p)
      case Some((item, q)) => [item] + FindAllFrom(t, q)
      case None => FindAllFrom(t, p + 1)
  }

  function FindAll(t: string): seq<Item> {
    FindAllFrom(t, 0)
  }

  /** The number a criterion gets: the value of its digits, the 1-based
      alphabet position of its letter, or else its 1-based position `i + 1`
      among all matches. */
  function CriterionNumber(m: Marker, i: nat): int {
    match m
    case Digits(ds) => DecimalValue(ds)
    case Letter(c) => c as int - 'a' as int + 1
    case Unmarked => i + 1
  }

  /** The scan finds nothing exactly when no line start carries a complete
      match; then, and only then, the chunker falls back to lines. */
  lemma {:induction false} FindAllFromEmpty(t: string, p: nat)
    requires p <= |t|
    ensures FindAllFrom(t, p) == [] <==> forall k :: p <= k < |t| ==> MatchAt(t, k).None?
    decreases |t| - p
  {
    if p < |t| {
      FindAllFromEmpty(t, p + 1);
      if MatchAt(t, p).None? {
        assert FindAllFrom(t, p) == FindAllFrom(t, p + 1);
      } else {
        assert FindAllFrom(t, p) != [];
      }
    }
  }

  lemma FindAllEmpty(t: string)
    ensures FindAll(t) == [] <==> forall k :: 0 <= k < |t| ==> MatchAt(t, k).None?
  {
    FindAllFromEmpty(t, 0);
  }

  /** A text whose first non-blank character is a marker followed by more
      text always yields at least one item. */
  lemma LeadingMarkerFound(t: string)
    requires MarkerAt(t, SkipSpace(t, 0)).Some?
    requires MarkerAt(t, SkipSpace(t, 0)).value.end < |t|
    ensures FindAll(t) != []
  {
    assert MatchAt(t, 0).Some?;
    FindAllEmpty(t);
  }

  /** Letter markers give the numbers 1..26. */
  lemma LetterNumberRange(c: char, i: nat)
    requires IsLower(c)
    ensures 1 <= CriterionNumber(Letter(c), i) <= 26
  {
  }
}
