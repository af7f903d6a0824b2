/**
 * Citation markers that the assistant service embeds in its answers, of the
 * shape `【<digits>:<digits>†source】`, and their removal by one global,
 * left-to-right regular-expression replace.
 */
module Citations {
  import opened Common

  /** The bracket that opens every marker. */
  const Open: char := '【'

  /** Everything a marker holds after its second number. */
  const Tail: string := "†source】"

  /** `\d` without the Unicode flag: an ASCII decimal digit. */
  predicate IsDigit(c: char) {
    '0' <= c <= '9'
  }

  ghost predicate AllDigits(s: seq<char>) {
    forall k :: 0 <= k < |s| ==> IsDigit(s[k])
  }

  /**
   * `w` is `【`, one or more digits, `:` at index `i`, one or more digits,
   * and `†source】` starting at index `j`.
   */
  ghost predicate MarkerShape(w: seq<char>, i: nat, j: nat) {
    && 1 < i && i + 1 < j && |w| == j + |Tail|
    && w[0] == Open && w[i] == ':' && w[j..] == Tail
    && AllDigits(w[1..i]) && AllDigits(w[i + 1..j])
  }

  /** `w` is exactly one citation marker. */
  ghost predicate IsMarker(w: seq<char>) {
    exists i: nat, j: nat :: MarkerShape(w, i, j)
  }

  /** The number of digits `\d+` consumes at the start of `s` (0: no match). */
  function DigitRun(s: seq<char>): (n: nat)
    ensures n <= |s|
    ensures forall k :: 0 <= k < n ==> IsDigit(s[k])
    ensures n == |s| || !IsDigit(s[n])
  {
    if s != [] && IsDigit(s[0]) then 1 + DigitRun(s[1..]) else 0
  }

  /**
   * Tries the marker pattern at the start of `s`, as the regular-expression
   * engine does at one position: the length of the match, if any.
   */
  function MarkerAt(s: seq<char>): (r: Option<nat>)
    ensures r.Some? ==> 0 < r.value <= |s|
  {
    if s == [] || s[0] != Open then None
    else
      var a := DigitRun(s[1..]);
      if a == 0 || 1 + a >= |s| || s[1 + a] != ':' then None
      else
        var b := DigitRun(s[2 + a..]);
        var end := 2 + a + b + |Tail|;
        if b == 0 || end > |s| || s[2 + a + b..end] != Tail then None
        else Some(end)
  }

  /**
   * `s.replace(/【\d+:\d+†source】/g, '')`: scanning left to right, a marker
   * found at the current position is dropped and the scan resumes after it;
   * otherwise the current character is kept.
   */
  function StripMarkers(s: seq<char>): (r: seq<char>)
    ensures |r| <= |s|
    decreases |s|
  {
    if s == [] then []
    else
      match MarkerAt(s)
      case Some(n) => StripMarkers(s[n..])
      case None => [s[0]] + StripMarkers(s[1..])
  }

  // ---------------------------------------------------------------------
  // The matcher recognises exactly the markers
  // ---------------------------------------------------------------------

  /** A maximal run of digits is what DigitRun measures. */
  lemma DigitRunIs(s: seq<char>, m: nat)
    requires m <= |s|
    requires forall k :: 0 <= k < m ==> IsDigit(s[k])
    requires m == |s| || !IsDigit(s[m])
    ensures DigitRun(s) == m
  {
  }

  /** Every match of the matcher is a marker. */
  lemma MarkerAtSound(s: seq<char>)
    requires MarkerAt(s).Some?
    ensures IsMarker(s[..MarkerAt(s).value])
  {
    var n := MarkerAt(s).value;
    var a := DigitRun(s[1..]);
    var b := DigitRun(s[2 + a..]);
    var w := s[..n];
    var i, j := 1 + a, 2 + a + b;
    assert w[1..i] == s[1..][..a];
    assert w[i + 1..j] == s[2 + a..][..b];
    assert w[j..] == s[j..n];
    assert MarkerShape(w, i, j);
  }

  /** Every marker at the start of `s` is found by the matcher, with its exact length. */
  lemma MarkerAtComplete(s: seq<char>, n: nat)
    requires n <= |s| && IsMarker(s[..n])
    ensures MarkerAt(s) == Some(n)
  {
    var i: nat, j: nat :| MarkerShape(s[..n], i, j);
    FirstNumberOf(s, n, i, j);
    SecondNumberOf(s, n, i, j);
    MarkerAtFromParts(s, i - 1, j - i - 1, n);
  }

  /** The bracket, the first number and the colon of a marker at the start of `s`. */
  lemma FirstNumberOf(s: seq<char>, n: nat, i: nat, j: nat)
    requires n <= |s| && MarkerShape(s[..n], i, j)
    ensures s[0] == Open && s[i] == ':' && DigitRun(s[1..]) == i - 1
  {
    var w := s[..n];
    assert s[0] == w[0] && s[i] == w[i];
    forall k | 1 <= k < i ensures IsDigit(s[k]) {
      assert s[k] == w[1..i][k - 1];
    }
    DigitRunFrom(s, 1, i);
  }

  /** The second number and the closing text of a marker at the start of `s`. */
  lemma SecondNumberOf(s: seq<char>, n: nat, i: nat, j: nat)
    requires n <= |s| && MarkerShape(s[..n], i, j)
    ensures DigitRun(s[i + 1..]) == j - i - 1 && s[j..n] == Tail
  {
    var w := s[..n];
    forall k | i + 1 <= k < j ensures IsDigit(s[k]) {
      assert s[k] == w[i + 1..j][k - i - 1];
    }
    assert s[j] == w[j..][0] == '†';
    DigitRunFrom(s, i + 1, j);
    assert s[j..n] == w[j..];
  }

  /** The digits of `s` from `start` up to a non-digit at `end` are one digit run. */
  lemma DigitRunFrom(s: seq<char>, start: nat, end: nat)
    requires start <= end < |s|
    requires forall k :: start <= k < end ==> IsDigit(s[k])
    requires !IsDigit(s[end])
    ensures DigitRun(s[start..]) == end - start
  {
    var d := s[start..];
    forall k | 0 <= k < end - start ensures IsDigit(d[k]) {
      assert d[k] == s[start + k];
    }
    assert d[end - start] == s[end];
    DigitRunIs(d, end - start);
  }

  /** The matcher's verdict from the pieces it inspects. */
  lemma MarkerAtFromParts(s: seq<char>, a: nat, b: nat, n: nat)
    requires 0 < a && 0 < b && 2 + a + b + |Tail| == n <= |s|
    requires s[0] == Open && s[1 + a] == ':'
    requires DigitRun(s[1..]) == a && DigitRun(s[2 + a..]) == b
    requires s[2 + a + b..n] == Tail
    ensures MarkerAt(s) == Some(n)
  {
  }

  /** The matcher succeeds with length `n` exactly when `s` begins with an `n`-character marker. */
  lemma MarkerAtIff(s: seq<char>, n: nat)
    ensures MarkerAt(s) == Some(n) <==> n <= |s| && IsMarker(s[..n])
  {
    if MarkerAt(s) == Some(n) {
      MarkerAtSound(s);
    }
    if n <= |s| && IsMarker(s[..n]) {
      MarkerAtComplete(s, n);
    }
  }

  // ---------------------------------------------------------------------
  // What one left-to-right pass removes and keeps
  // ---------------------------------------------------------------------

  /** A marker at the current position is removed entirely. */
  lemma StripDropsMarker(w: seq<char>, rest: seq<char>)
    requires IsMarker(w)
    ensures StripMarkers(w + rest) == StripMarkers(rest)
  {
    assert (w + rest)[..|w|] == w;
    MarkerAtComplete(w + rest, |w|);
    assert (w + rest)[|w|..] == rest;
  }

  /** Where no marker begins, the character is kept and the scan moves on by one. */
  lemma StripKeepsChar(s: seq<char>)
    requires s != []
    requires forall n :: 0 < n <= |s| ==> !IsMarker(s[..n])
    ensures StripMarkers(s) == [s[0]] + StripMarkers(s[1..])
  {
    if MarkerAt(s).Some? {
      MarkerAtSound(s);
    }
  }

  /** A marker between two bracket-free texts disappears and glues them together. */
  lemma StripGluesNeighbours(a: seq<char>, w: seq<char>, b: seq<char>)
    requires Open !in a && IsMarker(w) && Open !in b
    ensures StripMarkers(a + w + b) == a + b
  {
    var wb := w + b;
    assert StripMarkers(wb) == b by {
      StripDropsMarker(w, b);
      StripPlainText(b);
    }
    assert StripMarkers(a + wb) == a + StripMarkers(wb) by {
      StripPlainPrefix(a, wb);
    }
    assert a + w + b == a + wb;
  }

  /** A character other than the opening bracket never starts a marker, so it is kept. */
  lemma StripKeepsOther(s: seq<char>)
    requires s != [] && s[0] != Open
    ensures StripMarkers(s) == [s[0]] + StripMarkers(s[1..])
  {
    assert MarkerAt(s) == None;
  }

  /** A text with no opening bracket passes through unchanged. */
  lemma {:induction false} StripPlainText(s: seq<char>)
    requires Open !in s
    ensures StripMarkers(s) == s
    decreases |s|
  {
    if s != [] {
      StripKeepsOther(s);
      StripPlainText(s[1..]);
    }
  }

  /** `s` holds a marker of `n` characters starting at index `i`. */
  ghost predicate MarkerSlice(s: seq<char>, i: int, n: int) {
    0 <= i && 0 < n && i + n <= |s| && IsMarker(s[i..i + n])
  }

  /** No slice of `s` is a marker, though `s` may hold a stray `【`. */
  ghost predicate NoMarkerIn(s: seq<char>) {
    forall i, n :: !MarkerSlice(s, i, n)
  }

  /** A text in which no marker occurs passes through unchanged. */
  lemma NoMarkerUnchanged(s: seq<char>)
    requires NoMarkerIn(s)
    ensures StripMarkers(s) == s
  {
    NoMarkerUnchangedFrom(s, 0);
  }

  /** The scan from index `k` of a marker-free text keeps everything behind `k`. */
  lemma {:induction false} NoMarkerUnchangedFrom(s: seq<char>, k: nat)
    requires k <= |s| && NoMarkerIn(s)
    ensures StripMarkers(s[k..]) == s[k..]
    decreases |s| - k
  {
    if k < |s| {
      var t := s[k..];
      forall n | 0 < n <= |t| ensures !IsMarker(t[..n]) {
        assert t[..n] == s[k..k + n];
        assert !MarkerSlice(s, k, n);
      }
      StripKeepsChar(t);
      assert t[1..] == s[k + 1..];
      NoMarkerUnchangedFrom(s, k + 1);
      assert t == [t[0]] + t[1..];
    }
  }

  /** The shortest marker, `【0:0†source】`, has twelve characters. */
  lemma ShortNotMarker(w: seq<char>)
    requires |w| < 4 + |Tail|
    ensures !IsMarker(w)
  {
  }

  /** A text shorter than any marker holds none. */
  lemma ShortTextHasNoMarker(s: seq<char>)
    requires |s| < 4 + |Tail|
    ensures NoMarkerIn(s)
  {
    forall i: int, n: int ensures !MarkerSlice(s, i, n) {
      if 0 <= i && 0 < n && i + n <= |s| {
        ShortNotMarker(s[i..i + n]);
      }
    }
  }

  /** A bracket-free prefix is kept as it is, and the scan continues behind it. */
  lemma {:induction false} StripPlainPrefix(a: seq<char>, b: seq<char>)
    requires Open !in a
    ensures StripMarkers(a + b) == a + StripMarkers(b)
    decreases |a|
  {
    if a == [] {
      assert a + b == b;
    } else {
      var tail := a[1..] + b;
      SplitHead(a, b);
      StripPlainPrefix(a[1..], b);
      StripKeepsUnmatched(a[0], tail);
      SplitHead(a, StripMarkers(b));
    }
  }

  /** The marker that cites `a:b`. */
  function Marker(a: seq<char>, b: seq<char>): (w: seq<char>)
    requires a != [] && b != [] && AllDigits(a) && AllDigits(b)
    ensures IsMarker(w)
  {
    var w := [Open] + a + [':'] + b + Tail;
    assert w[1..1 + |a|] == a;
    assert w[2 + |a|..2 + |a| + |b|] == b;
    assert MarkerShape(w, 1 + |a|, 2 + |a| + |b|);
    w
  }

  /** At a position where the matcher finds nothing, the character is kept. */
  lemma StripKeepsUnmatched(c: char, rest: seq<char>)
    requires MarkerAt([c] + rest) == None
    ensures StripMarkers([c] + rest) == [c] + StripMarkers(rest)
  {
    assert ([c] + rest)[1..] == rest;
  }

  /** No marker begins at an opening bracket followed by digits, a colon and another bracket. */
  lemma NoMarkerBeforeBracket(a: seq<char>, rest: seq<char>)
    requires a != [] && AllDigits(a)
    ensures MarkerAt([Open] + (a + ([':'] + ([Open] + rest)))) == None
  {
    var s := [Open] + (a + ([':'] + ([Open] + rest)));
    DigitRunIs(s[1..], |a|);
    assert s[2 + |a|] == Open;
  }

  /** The closing part of a marker does not reopen one. */
  lemma TailHasNoBracket()
    ensures Open !in Tail
  {
    assert forall k :: 0 <= k < |Tail| ==> Tail[k] != Open;
  }

  /** Digits never contain the opening bracket. */
  lemma DigitsHaveNoBracket(a: seq<char>)
    requires AllDigits(a)
    ensures Open !in a
  {
  }

  /**
   * One pass is not enough to remove every marker: deleting an inner marker
   * can splice together a new one, which survives the pass. With the digits
   * 1, 2, 3, 2 the input is `【1:【2:3†source】2†source】`; it becomes
   * `【1:2†source】`, which a second pass would remove.
   */
  lemma StripNotIdempotent(a: seq<char>, b: seq<char>, c: seq<char>, d: seq<char>)
    requires a != [] && b != [] && c != [] && d != []
    requires AllDigits(a) && AllDigits(b) && AllDigits(c) && AllDigits(d)
    ensures StripMarkers([Open] + (a + ([':'] + (Marker(b, c) + (d + Tail))))) == Marker(a, d)
    ensures StripMarkers(Marker(a, d)) == []
  {
    DigitsHaveNoBracket(d);
    TailHasNoBracket();
    SpliceFirstPass(a, Marker(b, c), d + Tail);
    MarkerSpelled(a, d);
    StripWholeMarker(Marker(a, d));
  }

  lemma MarkerSpelled(a: seq<char>, d: seq<char>)
    requires a != [] && d != [] && AllDigits(a) && AllDigits(d)
    ensures Marker(a, d) == [Open] + (a + [':'] + (d + Tail))
  {
  }

  /** A text that is one marker is removed completely. */
  lemma StripWholeMarker(w: seq<char>)
    requires IsMarker(w)
    ensures StripMarkers(w) == []
  {
    StripDropsMarker(w, []);
    assert w + [] == w;
  }

  /** The first pass over `【a:` + marker + rest keeps `【a:` and the rest, dropping the marker. */
  lemma SpliceFirstPass(a: seq<char>, inner: seq<char>, after: seq<char>)
    requires a != [] && AllDigits(a)
    requires IsMarker(inner) && Open !in after
    ensures StripMarkers([Open] + (a + ([':'] + (inner + after)))) == [Open] + (a + [':'] + after)
  {
    var t := inner + after;
    var head := a + [':'];
    SkipBracketAndNumber(a, inner, after);
    DigitsHaveNoBracket(a);
    StripPlainPrefix(head, t);
    StripDropsMarker(inner, after);
    StripPlainText(after);
  }

  /** The scan keeps `【a:` in front of a marker. */
  lemma SkipBracketAndNumber(a: seq<char>, inner: seq<char>, after: seq<char>)
    requires a != [] && AllDigits(a) && IsMarker(inner)
    ensures StripMarkers([Open] + (a + ([':'] + (inner + after))))
         == [Open] + StripMarkers((a + [':']) + (inner + after))
  {
    var t := inner + after;
    var rest := inner[1..] + after;
    SplitHead(inner, after);
    assert inner[0] == Open;
    NoMarkerBeforeBracket(a, rest);
    StripKeepsUnmatched(Open, a + ([':'] + t));
    assert a + ([':'] + t) == (a + [':']) + t;
  }
}
