/** Narrative chunking of the protocol chunker, as a specification: the
    sentence split, the approximate token count, the overlap taken from a
    closed chunk, and the chunk boundaries that greedy packing produces,
    each chunk being a window `[start, end)` of the sentence list.

    Token counts are kept in tenths of a token: a sentence of `w` words
    counts `13 * w` (Python: `w * 1.3`), compared against ten times the
    configured budget. */
module Packing {
  import opened Text

  /** Approximate tokens of one sentence, in tenths. */
  function Tokens(s: string): nat {
    13 * WordCount(s)
  }

  /** The token counts of a list of sentences. */
  function Counts(ss: seq<string>): (c: seq<nat>)
    ensures |c| == |ss|
  {
    seq(|ss|, k requires 0 <= k < |ss| => Tokens(ss[k]))
  }

  /** Each count is the tokens of its sentence. */
  lemma CountsAt(ss: seq<string>, k: nat)
    requires k < |ss|
    ensures Counts(ss)[k] == Tokens(ss[k])
  {
  }

  lemma CountsSlice(ss: seq<string>, i: nat, j: nat)
    requires i <= j <= |ss|
    ensures Counts(ss[i..j]) == Counts(ss)[i..j]
  {
    var l, r := Counts(ss[i..j]), Counts(ss)[i..j];
    assert |l| == |r|;
    forall k | 0 <= k < |l|
      ensures l[k] == r[k]
    {
      CountsAt(ss[i..j], k);
      CountsAt(ss, i + k);
      assert ss[i..j][k] == ss[i + k];
    }
  }

  /** Total of a list of token counts. */
  function TokenSum(ss: seq<nat>): nat
    decreases |ss|
  {
    if ss == [] then 0 else TokenSum(ss[..|ss| - 1]) + ss[|ss| - 1]
  }

  lemma {:induction false} TokenSumCons(x: nat, ss: seq<nat>)
    ensures TokenSum([x] + ss) == x + TokenSum(ss)
    decreases |ss|
  {
    if ss != [] {
      assert ([x] + ss)[..|ss|] == [x] + ss[..|ss| - 1];
      TokenSumCons(x, ss[..|ss| - 1]);
    } else {
      assert ([x] + ss)[..0] == [];
    }
  }

  /** Appending one count to a window adds it to the total. */
  lemma TokenSumSnoc(c: seq<nat>, a: nat, i: nat)
    requires a <= i < |c|
    ensures TokenSum(c[a..i + 1]) == TokenSum(c[a..i]) + c[i]
  {
    assert c[a..i + 1][..i - a] == c[a..i];
  }

  lemma {:induction false} TokenSumMonotone(ss: seq<nat>, k: nat)
    requires k <= |ss|
    ensures TokenSum(ss[k..]) <= TokenSum(ss)
    decreases k
  {
    if k > 0 {
      TokenSumMonotone(ss, k - 1);
      assert ss[k - 1..] == [ss[k - 1]] + ss[k..];
      TokenSumCons(ss[k - 1], ss[k..]);
    }
  }

  /** Position of the first sentence break at or after `i`: a whitespace
      character preceded by `.`, `!` or `?` (the pattern `(?<=[.!?])\s+`). */
  function BreakAt(t: string, i: nat): (p: nat)
    requires 1 <= i <= |t| + 1
    ensures i <= p
    ensures p <= |t| ==> p < |t| && IsSpace(t[p]) && t[p - 1] in ".!?"
    ensures forall k :: i <= k < p && k < |t| ==> !(IsSpace(t[k]) && t[k - 1] in ".!?")
    decreases |t| + 1 - i
  {
    if i >= |t| then |t| + 1
    else if IsSpace(t[i]) && t[i - 1] in ".!?" then i
    else BreakAt(t, i + 1)
  }

  /** Python `re.split(r"(?<=[.!?])\s+", t)`: the pieces between maximal
      whitespace runs that follow terminal punctuation. */
  function SplitSentences(t: string): (r: seq<string>)
    ensures |r| >= 1
    decreases |t|
  {
    var p := BreakAt(t, 1);
    if p > |t| then [t]
    else
      var e := SkipSpace(t, p);
      [t[..p]] + SplitSentences(t[e..])
  }

  /** What the packing loop keeps of one piece: the stripped piece, unless
      it is blank. */
  function Kept(piece: string): (r: seq<string>)
    ensures r == [] <==> IsBlank(piece)
  {
    StripEmptyIffBlank(piece);
    if Strip(piece) == [] then [] else [Strip(piece)]
  }

  /** The sentences the packing loop keeps: each piece stripped, blank
      pieces dropped. */
  function CleanSentences(pieces: seq<string>): (r: seq<string>)
    ensures |r| <= |pieces|
    decreases |pieces|
  {
    if pieces == [] then []
    else CleanSentences(pieces[..|pieces| - 1]) + Kept(pieces[|pieces| - 1])
  }

  /** Every kept sentence is non-empty and has no surrounding whitespace. */
  lemma {:induction false} CleanSentencesStripped(pieces: seq<string>)
    ensures forall k :: 0 <= k < |CleanSentences(pieces)| ==>
      CleanSentences(pieces)[k] != [] && IsStripped(CleanSentences(pieces)[k])
    decreases |pieces|
  {
    if pieces != [] {
      var init := pieces[..|pieces| - 1];
      CleanSentencesStripped(init);
      var prev := CleanSentences(init);
      var r := CleanSentences(pieces);
      forall k | 0 <= k < |r| ensures r[k] != [] && IsStripped(r[k]) {
        if k < |prev| {
          assert r[k] == prev[k];
        } else {
          StripEmptyIffBlank(pieces[|pieces| - 1]);
        }
      }
    }
  }

  lemma CleanSentencesSnoc(xs: seq<string>, x: string)
    ensures CleanSentences(xs + [x]) == CleanSentences(xs) + Kept(x)
  {
    assert (xs + [x])[..|xs|] == xs;
  }

  /** Cleaning distributes over concatenation of piece lists. */
  lemma {:induction false} CleanSentencesAppend(xs: seq<string>, ys: seq<string>)
    ensures CleanSentences(xs + ys) == CleanSentences(xs) + CleanSentences(ys)
    decreases |ys|
  {
    if ys == [] {
      assert xs + ys == xs;
    } else {
      var init, last := ys[..|ys| - 1], ys[|ys| - 1];
      assert ys == init + [last];
      assert xs + ys == (xs + init) + [last];
      CleanSentencesAppend(xs, init);
      CleanSentencesSnoc(xs + init, last);
      CleanSentencesSnoc(init, last);
    }
  }

  /** Taking piece `p` in the packing loop: the sentences kept so far grow
      by the stripped piece unless it is blank, and they are always a
      prefix of all the kept sentences. */
  lemma CleanSentencesStep(pieces: seq<string>, p: nat)
    requires p < |pieces|
    ensures |CleanSentences(pieces[..p + 1])| == |CleanSentences(pieces[..p])| + (if IsBlank(pieces[p]) then 0 else 1)
    ensures |CleanSentences(pieces[..p + 1])| <= |CleanSentences(pieces)|
    ensures !IsBlank(pieces[p]) ==> CleanSentences(pieces)[|CleanSentences(pieces[..p])|] == Strip(pieces[p])
  {
    assert pieces[..p + 1] == pieces[..p] + [pieces[p]];
    CleanSentencesSnoc(pieces[..p], pieces[p]);
    assert pieces == pieces[..p + 1] + pieces[p + 1..];
    CleanSentencesAppend(pieces[..p + 1], pieces[p + 1..]);
  }

  /** The step of a loop that strips `pieces[p]` and keeps it when it is
      not empty, having kept `i` sentences so far. */
  lemma CleanSentencesNext(pieces: seq<string>, p: nat, i: nat)
    requires p < |pieces| && i == |CleanSentences(pieces[..p])|
    ensures Strip(pieces[p]) == [] ==> |CleanSentences(pieces[..p + 1])| == i
    ensures Strip(pieces[p]) != [] ==>
              |CleanSentences(pieces[..p + 1])| == i + 1 && i < |CleanSentences(pieces)|
              && CleanSentences(pieces)[i] == Strip(pieces[p])
  {
    CleanSentencesStep(pieces, p);
    StripEmptyIffBlank(pieces[p]);
  }

  /** The sentences of a text: its sentence pieces, stripped, blank ones
      dropped. */
  function Sentences(text: string): (r: seq<string>)
    ensures r == [] <==> IsBlank(text)
  {
    if IsBlank(text) then
      BlankHasNoSentences(text);
      CleanSentences(SplitSentences(text))
    else
      SentencesOfNonBlank(text);
      CleanSentences(SplitSentences(text))
  }

  /** A text that is not blank has at least one sentence. */
  lemma {:induction false} SentencesOfNonBlank(t: string)
    requires !IsBlank(t)
    ensures CleanSentences(SplitSentences(t)) != []
    decreases |t|
  {
    var p := BreakAt(t, 1);
    if p > |t| {
      assert SplitSentences(t) == [t];
      assert CleanSentences([t]) == CleanSentences([]) + Kept(t);
    } else {
      var e := SkipSpace(t, p);
      var rest := SplitSentences(t[e..]);
      assert SplitSentences(t) == [t[..p]] + rest;
      CleanSentencesAppend([t[..p]], rest);
      assert CleanSentences([t[..p]]) == CleanSentences([]) + Kept(t[..p]);
      if IsBlank(t[..p]) {
        BlankHeadRest(t, p, e);
        SentencesOfNonBlank(t[e..]);
      }
    }
  }

  /** A blank text has no sentences. */
  lemma BlankHasNoSentences(t: string)
    requires IsBlank(t)
    ensures CleanSentences(SplitSentences(t)) == []
  {
    var pieces := SplitSentences(t);
    BlankPieces(t);
    BlankPiecesClean(pieces);
  }

  /** Every sentence piece of a blank text is blank. */
  lemma {:induction false} BlankPieces(t: string)
    requires IsBlank(t)
    ensures forall k :: 0 <= k < |SplitSentences(t)| ==> IsBlank(SplitSentences(t)[k])
    decreases |t|
  {
    var p := BreakAt(t, 1);
    if p <= |t| {
      var e := SkipSpace(t, p);
      BlankPieces(t[e..]);
      var rest := SplitSentences(t[e..]);
      assert SplitSentences(t) == [t[..p]] + rest;
      forall k | 0 <= k < |SplitSentences(t)| ensures IsBlank(SplitSentences(t)[k]) {
        if k > 0 {
          assert SplitSentences(t)[k] == rest[k - 1];
        }
      }
    }
  }

  lemma {:induction false} BlankPiecesClean(pieces: seq<string>)
    requires forall k :: 0 <= k < |pieces| ==> IsBlank(pieces[k])
    ensures CleanSentences(pieces) == []
    decreases |pieces|
  {
    if pieces != [] {
      BlankPiecesClean(pieces[..|pieces| - 1]);
    }
  }

  /** Skipping a blank head and the whitespace after it leaves a text that
      is not blank, if the whole text was not. */
  lemma BlankHeadRest(t: string, p: nat, e: nat)
    requires p <= e <= |t| && !IsBlank(t) && IsBlank(t[..p])
    requires forall k :: p <= k < e ==> IsSpace(t[k])
    ensures !IsBlank(t[e..])
  {
    var k :| 0 <= k < |t| && !IsSpace(t[k]);
    forall q | 0 <= q < p
      ensures IsSpace(t[q])
    {
      assert t[..p][q] == t[q];
    }
    assert t[e..][k - e] == t[k];
  }

  /** How many trailing sentences of a closed chunk seed the next one:
      collected from the end while the running total stays within `room`,
      stopping at the first sentence that does not fit. */
  function OverlapLen(cur: seq<nat>, room: int): (n: nat)
    ensures n <= |cur|
    decreases |cur|
  {
    if cur == [] || cur[|cur| - 1] > room then 0
    else 1 + OverlapLen(cur[..|cur| - 1], room - cur[|cur| - 1])
  }

  /** One more sentence from the back fits the remaining overlap room. */
  lemma OverlapLenStep(cs: seq<nat>, j: nat, room: int)
    requires 0 < j <= |cs| && cs[j - 1] <= room
    ensures OverlapLen(cs[..j], room) == 1 + OverlapLen(cs[..j - 1], room - cs[j - 1])
  {
    assert cs[..j][..j - 1] == cs[..j - 1];
  }

  /** The step of collecting the overlap from the back: taking sentence
      `j - 1` keeps the overlap length accounted for. */
  lemma OverlapLenTake(cs: seq<nat>, j: nat, room: int, used: int, n: int)
    requires 0 < j <= |cs| && used + cs[j - 1] <= room
    requires n == |cs| - j + OverlapLen(cs[..j], room - used)
    ensures n == |cs| - (j - 1) + OverlapLen(cs[..j - 1], room - (used + cs[j - 1]))
  {
    OverlapLenStep(cs, j, room - used);
  }

  /** The sentence before the suffix does not fit the remaining room. */
  lemma OverlapLenStop(cs: seq<nat>, j: nat, room: int)
    requires 0 < j <= |cs| && cs[j - 1] > room
    ensures OverlapLen(cs[..j], room) == 0
  {
    assert cs[..j][j - 1] == cs[j - 1];
  }

  /** The overlap is the longest suffix of the closed chunk whose tokens fit
      the overlap budget: it fits, and one more sentence would not. */
  lemma {:induction false} OverlapLenIsLongestFit(cur: seq<nat>, room: int)
    ensures TokenSum(cur[|cur| - OverlapLen(cur, room)..]) <= room
            || OverlapLen(cur, room) == 0
    ensures OverlapLen(cur, room) < |cur|
            ==> TokenSum(cur[|cur| - OverlapLen(cur, room) - 1..]) > room
    decreases |cur|
  {
    if cur == [] {
    } else {
      var init := cur[..|cur| - 1];
      var x := cur[|cur| - 1];
      if x > room {
        assert cur[|cur| - 1..] == [x];
        assert TokenSum([x]) == TokenSum([]) + x;
      } else {
        var n := OverlapLen(init, room - x);
        assert OverlapLen(cur, room) == n + 1;
        OverlapLenIsLongestFit(init, room - x);
        SuffixSplit(cur, n);
        assert TokenSum(cur[|cur| - n - 1..]) == TokenSum(init[|init| - n..]) + x;
        if n == 0 {
          assert init[|init|..] == [];
        }
        if n < |init| {
          SuffixSplit(cur, n + 1);
          assert TokenSum(cur[|cur| - n - 2..]) == TokenSum(init[|init| - n - 1..]) + x;
        }
      }
    }
  }

  /** Taking a suffix of `cur` of length `n + 1` is taking one of `init` of
      length `n` and the last sentence. */
  lemma SuffixSplit(cur: seq<nat>, n: nat)
    requires n < |cur|
    ensures TokenSum(cur[|cur| - n - 1..])
         == TokenSum(cur[..|cur| - 1][|cur| - 1 - n..]) + cur[|cur| - 1]
  {
    var s := cur[|cur| - n - 1..];
    assert s[..|s| - 1] == cur[..|cur| - 1][|cur| - 1 - n..];
  }

  /** The chunk windows produced from state `(a, i)`: the open chunk is the
      sentence window `[a, i)` and sentence `i` is next. A chunk is closed
      only when it is non-empty and adding the next sentence would take it
      over `budget`; the next chunk then starts with the overlap. */
  function PackFrom(c: seq<nat>, budget: int, room: int, a: nat, i: nat): seq<(nat, nat)>
    requires a <= i <= |c|
    decreases |c| - i
  {
    if i == |c| then (if a < i then [(a, i)] else [])
    else if Closes(c, budget, a, i) then
      [(a, i)] + PackFrom(c, budget, room, i - OverlapLen(c[a..i], room), i + 1)
    else PackFrom(c, budget, room, a, i + 1)
  }

  /** The open window `[a, i)` is closed before sentence `i`: it is
      non-empty and the sentence would take it over the budget. */
  predicate Closes(c: seq<nat>, budget: int, a: nat, i: nat)
    requires a <= i < |c|
  {
    a < i && TokenSum(c[a..i]) + c[i] > budget
  }

  /** One packing step that keeps the current window open. */
  lemma PackOpen(c: seq<nat>, budget: int, room: int, a: nat, i: nat, done: seq<(nat, nat)>)
    requires a <= i < |c| && !Closes(c, budget, a, i)
    ensures done + PackFrom(c, budget, room, a, i) == done + PackFrom(c, budget, room, a, i + 1)
  {
  }

  /** One packing step that closes the window `[a, i)` and opens the
      overlap window ending at `i`. */
  lemma PackClose(c: seq<nat>, budget: int, room: int, a: nat, i: nat, done: seq<(nat, nat)>)
    requires a <= i < |c| && Closes(c, budget, a, i)
    ensures done + PackFrom(c, budget, room, a, i)
         == (done + [(a, i)]) + PackFrom(c, budget, room, i - OverlapLen(c[a..i], room), i + 1)
  {
  }

  /** The last step of packing: the open window, if any, is closed. */
  lemma PackEnd(c: seq<nat>, budget: int, room: int, a: nat, done: seq<(nat, nat)>)
    requires a <= |c|
    ensures done + PackFrom(c, budget, room, a, |c|) == if a < |c| then done + [(a, |c|)] else done
  {
  }

  /** The chunk windows of a sentence list under the given budgets (in
      tokens). */
  function Windows(s: seq<string>, chunkSize: int, overlap: int): (w: seq<(nat, nat)>)
    ensures Spans(Counts(s), 0, 0, w)
  {
    PackFromSpans(Counts(s), 10 * chunkSize, 10 * overlap, 0, 0);
    PackFrom(Counts(s), 10 * chunkSize, 10 * overlap, 0, 0)
  }

  /** No sentence strictly between the first fresh sentence `f` of the
      window `[a, b)` and its end would have closed it. */
  ghost predicate NoEarlyClose(c: seq<nat>, budget: int, a: nat, f: nat, b: nat) {
    a <= f <= b <= |c|
    && forall j :: f < j < b ==> TokenSum(c[a..j]) + c[j] <= budget
  }

  /** Window `y` follows window `x`: `x` was closed because its next
      sentence would have exceeded the budget, `y` starts with the longest
      fitting suffix of `x` and ends further on, and no sentence added to `y`
      before its own end would have closed it. */
  ghost predicate Follows(c: seq<nat>, budget: int, room: int, x: (nat, nat), y: (nat, nat)) {
    x.0 < x.1 < y.1 <= |c|
    && y.0 == x.1 - OverlapLen(c[x.0..x.1], room)
    && TokenSum(c[x.0..x.1]) + c[x.1] > budget
    && NoEarlyClose(c, budget, y.0, x.1, y.1)
  }

  /** Each window of `w` follows the one before it. */
  ghost predicate Chained(c: seq<nat>, budget: int, room: int, w: seq<(nat, nat)>) {
    forall k :: 0 <= k < |w| - 1 ==> Follows(c, budget, room, w[k], w[k + 1])
  }

  /** Everything greedy packing promises about its windows: they tile the
      sentence list from the first sentence to the last, each is non-empty,
      each later one follows the one before, and the first was not closed
      early either. */
  ghost predicate Packed(c: seq<nat>, budget: int, room: int, w: seq<(nat, nat)>) {
    (|w| == 0 <==> |c| == 0)
    && (forall k :: 0 <= k < |w| ==> w[k].0 < w[k].1 <= |c|)
    && (|w| > 0 ==> w[0].0 == 0 && w[|w| - 1].1 == |c| && NoEarlyClose(c, budget, 0, 0, w[0].1))
    && Chained(c, budget, room, w)
  }

  /** From state `(a, i)` the windows run from `a` to the last sentence,
      each non-empty and inside the list. */
  ghost predicate Spans(c: seq<nat>, a: nat, i: nat, w: seq<(nat, nat)>) {
    (|w| == 0 <==> a == |c|)
    && (forall k :: 0 <= k < |w| ==> w[k].0 < w[k].1 <= |c|)
    && (|w| > 0 ==> w[0].0 == a && w[0].1 >= i && w[|w| - 1].1 == |c|)
  }

  lemma {:induction false} PackFromSpans(c: seq<nat>, budget: int, room: int, a: nat, i: nat)
    requires a <= i <= |c|
    ensures Spans(c, a, i, PackFrom(c, budget, room, a, i))
    decreases |c| - i
  {
    if i == |c| {
      assert PackFrom(c, budget, room, a, i) == if a < i then [(a, i)] else [];
    } else if Closes(c, budget, a, i) {
      var a' := i - OverlapLen(c[a..i], room);
      PackFromSpans(c, budget, room, a', i + 1);
      SpansCons(c, a, i, a', PackFrom(c, budget, room, a', i + 1));
    } else {
      PackFromSpans(c, budget, room, a, i + 1);
    }
  }

  lemma SpansCons(c: seq<nat>, a: nat, i: nat, a': nat, rest: seq<(nat, nat)>)
    requires a < i < |c| && a' <= i
    requires Spans(c, a', i + 1, rest)
    ensures Spans(c, a, i, [(a, i)] + rest)
  {
    var w := [(a, i)] + rest;
    forall k | 0 <= k < |w| ensures w[k].0 < w[k].1 <= |c| {
      if k > 0 {
        assert w[k] == rest[k - 1];
      }
    }
  }

  /** The first window from state `(a, i)` is not closed before it must be,
      when the open window `[a, i)` was not either. */
  lemma {:induction false} PackFromFirst(c: seq<nat>, budget: int, room: int, a: nat, f: nat, i: nat)
    requires a <= f <= i <= |c|
    requires NoEarlyClose(c, budget, a, f, i)
    ensures var w := PackFrom(c, budget, room, a, i);
      w != [] ==> w[0].0 == a && NoEarlyClose(c, budget, a, f, w[0].1)
    decreases |c| - i
  {
    if i == |c| {
      assert PackFrom(c, budget, room, a, i) == if a < i then [(a, i)] else [];
    } else if Closes(c, budget, a, i) {
    } else {
      assert NoEarlyClose(c, budget, a, f, i + 1) by {
        forall j | f < j < i + 1 ensures TokenSum(c[a..j]) + c[j] <= budget {
          if j == i {
            assert a < i;
          }
        }
      }
      PackFromFirst(c, budget, room, a, f, i + 1);
    }
  }

  /** From any reachable state, each window follows the one before it. */
  lemma {:induction false} PackFromFollows(c: seq<nat>, budget: int, room: int, a: nat, i: nat)
    requires a <= i <= |c|
    ensures Chained(c, budget, room, PackFrom(c, budget, room, a, i))
    decreases |c| - i
  {
    if i == |c| {
      assert PackFrom(c, budget, room, a, i) == if a < i then [(a, i)] else [];
    } else if Closes(c, budget, a, i) {
      var a' := i - OverlapLen(c[a..i], room);
      PackFromFollows(c, budget, room, a', i + 1);
      ClosedFollows(c, budget, room, a, i);
    } else {
      assert PackFrom(c, budget, room, a, i) == PackFrom(c, budget, room, a, i + 1);
      PackFromFollows(c, budget, room, a, i + 1);
    }
  }

  /** Closing `[a, i)` keeps the packing chained, when the packing from
      the overlap state is. */
  lemma ClosedFollows(c: seq<nat>, budget: int, room: int, a: nat, i: nat)
    requires a <= i < |c| && Closes(c, budget, a, i)
    requires Chained(c, budget, room, PackFrom(c, budget, room, i - OverlapLen(c[a..i], room), i + 1))
    ensures Chained(c, budget, room, PackFrom(c, budget, room, a, i))
  {
    var a' := i - OverlapLen(c[a..i], room);
    var rest := PackFrom(c, budget, room, a', i + 1);
    PackFromSpans(c, budget, room, a', i + 1);
    PackFromFirst(c, budget, room, a', i, i + 1);
    ClosedThenFollows(c, budget, room, a, i, a', rest);
    FollowsCons(c, budget, room, (a, i), rest);
  }

  /** A window closed before sentence `i` is followed by the first window
      packed from the overlap state. */
  lemma ClosedThenFollows(c: seq<nat>, budget: int, room: int, a: nat, i: nat, a': nat, rest: seq<(nat, nat)>)
    requires a <= i < |c| && Closes(c, budget, a, i)
    requires a' == i - OverlapLen(c[a..i], room)
    requires rest != [] ==> rest[0].0 == a' && i < rest[0].1 <= |c|
    requires rest != [] ==> NoEarlyClose(c, budget, a', i, rest[0].1)
    ensures rest != [] ==> Follows(c, budget, room, (a, i), rest[0])
  {
  }

  lemma FollowsCons(c: seq<nat>, budget: int, room: int, x: (nat, nat), rest: seq<(nat, nat)>)
    requires rest != [] ==> Follows(c, budget, room, x, rest[0])
    requires Chained(c, budget, room, rest)
    ensures Chained(c, budget, room, [x] + rest)
  {
    var w := [x] + rest;
    forall k | 0 <= k < |w| - 1
      ensures Follows(c, budget, room, w[k], w[k + 1])
    {
      if k > 0 {
        assert w[k] == rest[k - 1] && w[k + 1] == rest[k];
      }
    }
  }

  /** The windows greedy packing produces satisfy Packed. */
  lemma PackedWindows(s: seq<string>, chunkSize: int, overlap: int)
    ensures Packed(Counts(s), 10 * chunkSize, 10 * overlap, Windows(s, chunkSize, overlap))
  {
    var c, budget, room := Counts(s), 10 * chunkSize, 10 * overlap;
    PackFromFirst(c, budget, room, 0, 0, 0);
    PackFromFollows(c, budget, room, 0, 0);
  }

  /** Every sentence lies in some window: none is dropped, and since
      windows hold whole sentences, none is split. */
  lemma {:induction false} WindowsCover(s: seq<string>, chunkSize: int, overlap: int, j: nat)
    requires j < |s|
    ensures var w := Windows(s, chunkSize, overlap);
      exists k :: 0 <= k < |w| && w[k].0 <= j < w[k].1
  {
    var w := Windows(s, chunkSize, overlap);
    PackedWindows(s, chunkSize, overlap);
    var k := 0;
    while w[k].1 <= j
      invariant 0 <= k < |w|
      invariant w[k].0 <= j
      decreases |w| - k
    {
      k := k + 1;
    }
  }

  /** A sentence list whose tokens fit the budget becomes exactly one
      chunk. */
  lemma {:induction false} ShortTextOneChunk(s: seq<string>, chunkSize: int, overlap: int)
    requires s != []
    requires TokenSum(Counts(s)) <= 10 * chunkSize
    ensures Windows(s, chunkSize, overlap) == [(0, |s|)]
  {
    var c, budget := Counts(s), 10 * chunkSize;
    var i := 0;
    while i < |c|
      invariant 0 <= i <= |c|
      invariant Windows(s, chunkSize, overlap) == PackFrom(c, budget, 10 * overlap, 0, i)
    {
      if i > 0 {
        assert c[..i + 1] == c[0..i] + [c[i]];
        assert TokenSum(c[..i + 1]) == TokenSum(c[0..i]) + c[i];
        PrefixTokens(c, i + 1);
      }
      i := i + 1;
    }
  }

  lemma {:induction false} PrefixTokens(c: seq<nat>, n: nat)
    requires n <= |c|
    ensures TokenSum(c[..n]) <= TokenSum(c)
    decreases |c| - n
  {
    if n < |c| {
      PrefixTokens(c, n + 1);
      assert c[..n + 1][..n] == c[..n];
      assert TokenSum(c[..n + 1]) == TokenSum(c[..n]) + c[n];
    } else {
      assert c[..n] == c;
    }
  }
}
