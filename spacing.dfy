/**
 * White space as JavaScript sees it: the `\s` class of regular expressions,
 * `String.prototype.trim`, and the `replace(/\s+/g, ' ')` idiom that turns
 * every run of white space into one plain space.
 */
module Spacing {
  import opened Common

  /**
   * The characters matched by `\s` (and removed by `trim`): the ECMAScript
   * WhiteSpace and LineTerminator code points.
   */
  predicate IsSpace(c: char) {
    || c == ' ' || c == '\t' || c == '\n' || c == '\U{000B}' || c == '\U{000C}' || c == '\r'
    || c == '\U{00A0}' || c == '\U{1680}' || ('\U{2000}' <= c <= '\U{200A}')
    || c == '\U{2028}' || c == '\U{2029}' || c == '\U{202F}' || c == '\U{205F}'
    || c == '\U{3000}' || c == '\U{FEFF}'
  }

  /** `w` is a word: non-empty and holding no white space at all. */
  ghost predicate IsWord(w: seq<char>) {
    w != [] && forall i :: 0 <= i < |w| ==> !IsSpace(w[i])
  }

  /** No two white-space characters stand next to each other in `s`. */
  ghost predicate NoDoubleSpace(s: seq<char>) {
    forall i, j :: 0 <= i < j < |s| && j == i + 1 ==> !(IsSpace(s[i]) && IsSpace(s[j]))
  }

  /** Every white-space character of `s` is the plain space `' '`. */
  ghost predicate OnlyPlainSpaces(s: seq<char>) {
    forall i :: 0 <= i < |s| && IsSpace(s[i]) ==> s[i] == ' '
  }

  /** `s` neither starts nor ends with white space. */
  ghost predicate NoEdgeSpace(s: seq<char>) {
    s == [] || (!IsSpace(s[0]) && !IsSpace(s[|s| - 1]))
  }

  /** The shape every cleaned reply has. */
  ghost predicate IsNormalized(s: seq<char>) {
    NoEdgeSpace(s) && OnlyPlainSpaces(s) && NoDoubleSpace(s)
  }

  /** `trimStart`: drops the leading white space of `s`. */
  function TrimStart(s: seq<char>): (r: seq<char>)
    ensures |r| <= |s| && r == s[|s| - |r|..]
    ensures r == [] || !IsSpace(r[0])
    ensures forall i :: 0 <= i < |s| - |r| ==> IsSpace(s[i])
    ensures s != [] && IsSpace(s[0]) ==> |r| < |s|
  {
    if s != [] && IsSpace(s[0]) then TrimStart(s[1..]) else s
  }

  /** `trimEnd`: drops the trailing white space of `s`. */
  function TrimEnd(s: seq<char>): (r: seq<char>)
    ensures |r| <= |s| && r == s[..|r|]
    ensures r == [] || !IsSpace(r[|r| - 1])
    ensures forall i :: |r| <= i < |s| ==> IsSpace(s[i])
  {
    if s != [] && IsSpace(s[|s| - 1]) then TrimEnd(s[..|s| - 1]) else s
  }

  /** `s` holds nothing but white space, so `s.trim()` is the empty string. */
  predicate IsBlank(s: seq<char>) {
    forall i :: 0 <= i < |s| ==> IsSpace(s[i])
  }

  /**
   * `trim`: drops the white space at both ends of `s`. The result starts at
   * some index `k` of `s`; everything before `k`, and everything after the
   * result, is white space.
   */
  function Trim(s: seq<char>): (r: seq<char>)
    ensures NoEdgeSpace(r)
    ensures |r| <= |s|
    ensures exists k :: 0 <= k <= |s| - |r| && r == s[k..][..|r|] && IsBlank(s[..k]) && IsBlank(s[k..][|r|..])
  {
    TrimIsSlice(s, TrimStart(s), TrimEnd(TrimStart(s)));
    TrimEnd(TrimStart(s))
  }

  /** Trimming first the start and then the end of `s` keeps a slice of it between white space. */
  lemma TrimIsSlice(s: seq<char>, t: seq<char>, r: seq<char>)
    requires t == TrimStart(s) && r == TrimEnd(t)
    ensures var k := |s| - |t|;
      && 0 <= k <= |s| - |r| && r == s[k..][..|r|] && IsBlank(s[..k]) && IsBlank(s[k..][|r|..])
  {
    var k := |s| - |t|;
    assert t == s[k..];
  }

  /** Trimming leaves nothing exactly when there was nothing but white space. */
  lemma BlankIffTrimsToEmpty(s: seq<char>)
    ensures IsBlank(s) <==> Trim(s) == []
  {
    var t := TrimStart(s);
    assert Trim(s) == TrimEnd(t);
    if TrimEnd(t) == [] {
      assert t == [];
    }
  }

  /**
   * `s.replace(/\s+/g, ' ')`: every maximal run of white space becomes a
   * single `' '`; every other character is kept in place.
   */
  function Collapse(s: seq<char>): (r: seq<char>)
    ensures s == [] <==> r == []
    ensures s != [] ==> (IsSpace(r[0]) <==> IsSpace(s[0]))
    decreases |s|
  {
    if s == [] then []
    else if IsSpace(s[0]) then [' '] + Collapse(TrimStart(s))
    else [s[0]] + Collapse(s[1..])
  }

  /** The leading run of non-space characters of `s`. */
  function TakeWord(s: seq<char>): (w: seq<char>)
    ensures |w| <= |s| && w == s[..|w|]
    ensures forall i :: 0 <= i < |w| ==> !IsSpace(w[i])
    ensures |w| == |s| || IsSpace(s[|w|])
  {
    if s == [] || IsSpace(s[0]) then [] else [s[0]] + TakeWord(s[1..])
  }

  /** The maximal runs of non-space characters of `s`, in order. */
  function Words(s: seq<char>): (ws: seq<seq<char>>)
    ensures forall k :: 0 <= k < |ws| ==> IsWord(ws[k])
    decreases |s|
  {
    if s == [] then []
    else if IsSpace(s[0]) then Words(s[1..])
    else
      var w := TakeWord(s);
      [w] + Words(s[|w|..])
  }

  /** The words of `ws` separated by single spaces. */
  function Join(ws: seq<seq<char>>): seq<char> {
    if |ws| == 0 then []
    else if |ws| == 1 then ws[0]
    else ws[0] + [' '] + Join(ws[1..])
  }

  /** All words of `ws` written one after the other. */
  function Concat(ws: seq<seq<char>>): seq<char> {
    if ws == [] then [] else ws[0] + Concat(ws[1..])
  }

  /** The characters of `s` that are not white space, in order. */
  function Visible(s: seq<char>): seq<char> {
    if s == [] then []
    else if IsSpace(s[0]) then Visible(s[1..])
    else [s[0]] + Visible(s[1..])
  }

  // ---------------------------------------------------------------------
  // Helper facts
  // ---------------------------------------------------------------------

  lemma {:induction false} VisibleAppend(a: seq<char>, b: seq<char>)
    ensures Visible(a + b) == Visible(a) + Visible(b)
    decreases |a|
  {
    if a == [] {
      assert a + b == b;
    } else {
      assert (a + b)[1..] == a[1..] + b;
      VisibleAppend(a[1..], b);
    }
  }

  lemma {:induction false} VisibleOfWord(w: seq<char>)
    requires forall i :: 0 <= i < |w| ==> !IsSpace(w[i])
    ensures Visible(w) == w
    decreases |w|
  {
    if w != [] {
      VisibleOfWord(w[1..]);
    }
  }

  /** Collapsing a string that starts with a word keeps the word in front. */
  lemma {:induction false} CollapseWordPrefix(s: seq<char>, n: nat)
    requires n <= |s|
    requires forall i :: 0 <= i < n ==> !IsSpace(s[i])
    ensures Collapse(s) == s[..n] + Collapse(s[n..])
  {
    assert s == s[..n] + s[n..];
    CollapseWord(s[..n], s[n..]);
  }

  /** Collapsing a word followed by more text keeps the word and collapses the rest. */
  lemma {:induction false} CollapseWord(w: seq<char>, rest: seq<char>)
    requires forall i :: 0 <= i < |w| ==> !IsSpace(w[i])
    ensures Collapse(w + rest) == w + Collapse(rest)
    decreases |w|
  {
    if w == [] {
      assert w + rest == rest;
    } else {
      SplitHead(w, rest);
      CollapseWord(w[1..], rest);
      CollapseKeepsVisible(w[0], w[1..] + rest);
      SplitHead(w, Collapse(rest));
    }
  }

  /** A visible character is copied and the collapse goes on behind it. */
  lemma CollapseKeepsVisible(c: char, rest: seq<char>)
    requires !IsSpace(c)
    ensures Collapse([c] + rest) == [c] + Collapse(rest)
  {
    assert ([c] + rest)[1..] == rest;
  }

  /** Trailing-space trimming only looks behind the last visible character. */
  lemma {:induction false} TrimEndAppend(a: seq<char>, b: seq<char>, k: nat)
    requires k < |b| && !IsSpace(b[k])
    ensures TrimEnd(a + b) == a + TrimEnd(b)
    decreases |b|
  {
    var ab := a + b;
    if IsSpace(b[|b| - 1]) {
      assert ab[..|ab| - 1] == a + b[..|b| - 1];
      TrimEndAppend(a, b[..|b| - 1], k);
    }
  }

  /** Leading white space does not change the words. */
  lemma {:induction false} WordsTrimStart(s: seq<char>)
    ensures Words(s) == Words(TrimStart(s))
    decreases |s|
  {
    if s != [] && IsSpace(s[0]) {
      WordsTrimStart(s[1..]);
    }
  }

  /** A text that starts with a word: its collapsed form and its words both begin with that word. */
  lemma SplitFirstWord(t: seq<char>) returns (w: seq<char>, rest: seq<char>)
    requires t != [] && !IsSpace(t[0])
    ensures w == TakeWord(t) && w != [] && rest == t[|w|..]
    ensures rest == [] || IsSpace(rest[0])
    ensures Collapse(t) == w + Collapse(rest)
    ensures Words(t) == [w] + Words(rest)
  {
    w := TakeWord(t);
    rest := t[|w|..];
    assert t[..|w|] == w;
    CollapseWordPrefix(t, |w|);
  }

  /** A word followed only by white space: collapsing and trimming leaves the word. */
  lemma LastWord(w: seq<char>, rest: seq<char>)
    requires IsWord(w)
    requires TrimStart(rest) == []
    ensures TrimEnd(w + Collapse(rest)) == w
  {
    if rest == [] {
      assert w + Collapse(rest) == w;
    } else {
      assert Collapse(rest) == [' '] by {
        assert IsSpace(rest[0]);
      }
      var wsp := w + [' '];
      assert TrimEnd(wsp) == TrimEnd(w) by {
        assert wsp[..|wsp| - 1] == w;
      }
      assert TrimEnd(w) == w by {
        assert !IsSpace(w[|w| - 1]);
      }
    }
  }

  /** Text without leading white space: trimming its collapsed form at the end gives its words, joined. */
  lemma {:induction false} TrimEndCollapse(t: seq<char>)
    requires t == [] || !IsSpace(t[0])
    ensures TrimEnd(Collapse(t)) == Join(Words(t))
    decreases |t|
  {
    if t != [] {
      var w, rest := SplitFirstWord(t);
      var next := TrimStart(rest);
      WordsTrimStart(rest);
      if next == [] {
        assert Words(t) == [w];
        LastWord(w, rest);
      } else {
        TrimEndCollapse(next);
        MiddleWord(w, rest, next);
      }
    }
  }

  /** One induction step of TrimEndCollapse: a word, white space, then more words. */
  lemma MiddleWord(w: seq<char>, rest: seq<char>, next: seq<char>)
    requires IsWord(w) && rest != [] && IsSpace(rest[0])
    requires next == TrimStart(rest) && next != []
    requires TrimEnd(Collapse(next)) == Join(Words(next))
    ensures TrimEnd(w + Collapse(rest)) == Join([w] + Words(next))
  {
    var ws := Words(next);
    var c := Collapse(next);
    var head := w + [' '];
    assert ws != [] by {
      assert ws == [TakeWord(next)] + Words(next[|TakeWord(next)|..]);
    }
    var lhs := w + Collapse(rest);
    assert lhs == head + c by {
      assert Collapse(rest) == [' '] + c;
    }
    TrimEndAppend(head, c, 0);
    assert TrimEnd(lhs) == head + Join(ws);
    JoinCons(w, ws);
  }

  lemma JoinCons(w: seq<char>, ws: seq<seq<char>>)
    requires ws != []
    ensures Join([w] + ws) == w + [' '] + Join(ws)
  {
    assert ([w] + ws)[1..] == ws;
  }

  // ---------------------------------------------------------------------
  // What collapsing and trimming compute
  // ---------------------------------------------------------------------

  /**
   * Collapsing white-space runs and then trimming yields exactly the words
   * of the text, separated by single spaces.
   */
  lemma {:induction false} CollapseTrimIsJoinedWords(s: seq<char>)
    ensures Trim(Collapse(s)) == Join(Words(s))
  {
    var t := TrimStart(s);
    WordsTrimStart(s);
    if s != [] && IsSpace(s[0]) {
      assert Collapse(s) == [' '] + Collapse(t);
      assert TrimStart(Collapse(s)) == TrimStart(Collapse(t));
    }
    assert TrimStart(Collapse(s)) == Collapse(t);
    TrimEndCollapse(t);
  }

  /** Words separated by single spaces form a normalized text. */
  lemma {:induction false} JoinIsNormalized(ws: seq<seq<char>>)
    requires forall k :: 0 <= k < |ws| ==> IsWord(ws[k])
    ensures IsNormalized(Join(ws))
    ensures ws != [] ==> Join(ws) != []
    decreases |ws|
  {
    if |ws| > 1 {
      JoinIsNormalized(ws[1..]);
      var head := ws[0] + [' '];
      var tail := Join(ws[1..]);
      var r := head + tail;
      assert Join(ws) == r;
      assert IsWord(ws[0]);
      forall i, j | 0 <= i < j < |r| && j == i + 1
        ensures !(IsSpace(r[i]) && IsSpace(r[j]))
      {
        if j < |head| - 1 {
          assert r[i] == ws[0][i];
        } else if j == |head| - 1 {
          assert r[i] == ws[0][i];
        } else if j == |head| {
          assert r[j] == tail[0];
        } else {
          assert r[i] == tail[i - |head|] && r[j] == tail[j - |head|];
        }
      }
      forall i | 0 <= i < |r|
        ensures IsSpace(r[i]) ==> r[i] == ' '
      {
        if i < |ws[0]| {
          assert r[i] == ws[0][i];
        } else if i > |ws[0]| {
          assert r[i] == tail[i - |head|];
        }
      }
      assert r[0] == ws[0][0];
      assert r[|r| - 1] == tail[|tail| - 1];
    }
  }

  /** The words of a text hold exactly its visible characters, in order. */
  lemma {:induction false} WordsKeepVisible(s: seq<char>)
    ensures Concat(Words(s)) == Visible(s)
    decreases |s|
  {
    if s != [] {
      if IsSpace(s[0]) {
        WordsKeepVisible(s[1..]);
      } else {
        var w := TakeWord(s);
        var rest := s[|w|..];
        assert s == w + rest;
        VisibleAppend(w, rest);
        VisibleOfWord(w);
        WordsKeepVisible(rest);
        assert ([w] + Words(rest))[1..] == Words(rest);
      }
    }
  }

  /** Joining words with spaces adds nothing visible. */
  lemma {:induction false} VisibleOfJoin(ws: seq<seq<char>>)
    requires forall k :: 0 <= k < |ws| ==> IsWord(ws[k])
    ensures Visible(Join(ws)) == Concat(ws)
    decreases |ws|
  {
    if |ws| == 1 {
      VisibleOfWord(ws[0]);
      assert Concat(ws) == ws[0] + Concat([]);
    } else if |ws| > 1 {
      VisibleOfJoin(ws[1..]);
      VisibleAppend(ws[0] + [' '], Join(ws[1..]));
      VisibleAppend(ws[0], [' ']);
      VisibleOfWord(ws[0]);
    }
  }

  /** A text already in normalized shape is left unchanged by collapsing. */
  lemma {:induction false} CollapseKeepsPlainText(s: seq<char>)
    requires OnlyPlainSpaces(s) && NoDoubleSpace(s)
    ensures Collapse(s) == s
    decreases |s|
  {
    if s != [] {
      var tail := s[1..];
      assert OnlyPlainSpaces(tail) by {
        forall i | 0 <= i < |tail| && IsSpace(tail[i]) ensures tail[i] == ' ' {
          assert tail[i] == s[i + 1];
        }
      }
      assert NoDoubleSpace(tail) by {
        forall i, j | 0 <= i < j < |tail| && j == i + 1 ensures !(IsSpace(tail[i]) && IsSpace(tail[j])) {
          assert tail[i] == s[i + 1] && tail[j] == s[j + 1];
        }
      }
      CollapseKeepsPlainText(tail);
      if IsSpace(s[0]) {
        assert s[0] == ' ';
        assert tail == [] || !IsSpace(s[1]);
        assert TrimStart(s) == tail;
      }
    }
  }

  /** Collapsing and trimming a normalized text gives it back. */
  lemma NormalizedIsFixed(s: seq<char>)
    requires IsNormalized(s)
    ensures Trim(Collapse(s)) == s
  {
    CollapseKeepsPlainText(s);
  }
}
