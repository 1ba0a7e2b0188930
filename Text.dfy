/** Python's whitespace handling on `str`: `isspace`, `strip`, `split()` without
    arguments and `join`, and the whitespace collapse `" ".join(s.strip().split())`
    built from them. */
module Text {

  /** The characters for which Python's str.isspace() holds; str.split() and
      str.strip() without arguments split and trim on exactly these. */
  predicate IsSpace(c: char) {
    c == ' ' || ('\t' <= c <= '\r') || ('\U{1c}' <= c <= '\U{1f}')
    || c == '\U{85}' || c == '\U{a0}' || c == '\U{1680}'
    || ('\U{2000}' <= c <= '\U{200a}') || c == '\U{2028}' || c == '\U{2029}'
    || c == '\U{202f}' || c == '\U{205f}' || c == '\U{3000}'
  }

  predicate AllSpace(s: string) {
    forall i :: 0 <= i < |s| ==> IsSpace(s[i])
  }

  /** One element of what str.split() returns: non-empty, no whitespace. */
  predicate IsWord(w: string) {
    w != [] && forall i :: 0 <= i < |w| ==> !IsSpace(w[i])
  }

  /** No leading or trailing whitespace, every whitespace character is a plain
      space, and no two whitespace characters are adjacent. */
  predicate Collapsed(s: string) {
    (s == [] || (!IsSpace(s[0]) && !IsSpace(s[|s| - 1])))
    && (forall i :: 0 <= i < |s| && IsSpace(s[i]) ==> s[i] == ' ')
    && (forall i :: 0 <= i < |s| - 1 ==> !IsSpace(s[i]) || !IsSpace(s[i + 1]))
  }

  /** s.lstrip(): drops the leading whitespace and nothing else. */
  function TrimStart(s: string): (r: string)
    ensures |r| <= |s| && r == s[|s| - |r|..]
    ensures AllSpace(s[..|s| - |r|])
    ensures r == [] || !IsSpace(r[0])
  {
    if s != [] && IsSpace(s[0]) then
      var r := TrimStart(s[1..]);
      assert s[..|s| - |r|] == [s[0]] + s[1..][..|s| - 1 - |r|];
      r
    else s
  }

  /** s.rstrip(): drops the trailing whitespace and nothing else. */
  function TrimEnd(s: string): (r: string)
    ensures |r| <= |s| && r == s[..|r|]
    ensures AllSpace(s[|r|..])
    ensures r == [] || !IsSpace(r[|r| - 1])
  {
    if s != [] && IsSpace(s[|s| - 1]) then
      var r := TrimEnd(s[..|s| - 1]);
      assert s[|r|..] == s[..|s| - 1][|r|..] + [s[|s| - 1]];
      r
    else s
  }

  /** s.strip() */
  function Strip(s: string): (r: string)
    ensures r == [] || (!IsSpace(r[0]) && !IsSpace(r[|r| - 1]))
  {
    TrimEnd(TrimStart(s))
  }

  /** Length of the leading run of non-whitespace characters of `s`. */
  function WordLen(s: string): (n: nat)
    ensures n <= |s|
    ensures forall i :: 0 <= i < n ==> !IsSpace(s[i])
    ensures n == |s| || IsSpace(s[n])
  {
    if s == [] || IsSpace(s[0]) then 0 else 1 + WordLen(s[1..])
  }

  /** s.split(): the maximal whitespace-free runs of `s`, in order. */
  function Words(s: string): (ws: seq<string>)
    ensures forall i :: 0 <= i < |ws| ==> IsWord(ws[i])
    decreases |s|
  {
    if s == [] then []
    else if IsSpace(s[0]) then Words(s[1..])
    else
      var n := WordLen(s);
      [s[..n]] + Words(s[n..])
  }

  /** sep.join(ws) */
  function Join(ws: seq<string>, sep: string): string {
    if ws == [] then ""
    else if |ws| == 1 then ws[0]
    else ws[0] + sep + Join(ws[1..], sep)
  }

  /** " ".join(s.strip().split()) */
  function Collapse(s: string): (r: string)
    ensures Collapsed(r)
  {
    var ws := Words(Strip(s));
    JoinWordsCollapsed(ws);
    Join(ws, " ")
  }

  /** Words joined by single spaces form a collapsed string, empty only when
      there are no words. */
  lemma {:induction false} JoinWordsCollapsed(ws: seq<string>)
    requires forall i :: 0 <= i < |ws| ==> IsWord(ws[i])
    ensures Collapsed(Join(ws, " "))
    ensures ws != [] ==> Join(ws, " ") != []
  {
    if |ws| > 1 {
      var w, j := ws[0], Join(ws[1..], " ");
      JoinWordsCollapsed(ws[1..]);
      var s := w + " " + j;
      assert Join(ws, " ") == s;
      assert IsWord(w);
      forall i | 0 <= i < |s| && IsSpace(s[i]) ensures s[i] == ' ' {
        if i > |w| { assert s[i] == j[i - |w| - 1]; }
      }
      forall i | 0 <= i < |s| - 1 ensures !IsSpace(s[i]) || !IsSpace(s[i + 1]) {
        if i > |w| {
          assert s[i] == j[i - |w| - 1] && s[i + 1] == j[i - |w|];
        } else if i == |w| {
          assert s[i + 1] == j[0];
        }
      }
      assert s[|s| - 1] == j[|j| - 1];
    }
  }

  /** Splitting words joined by single spaces gives the words back. */
  lemma {:induction false} WordsOfJoin(ws: seq<string>)
    requires forall i :: 0 <= i < |ws| ==> IsWord(ws[i])
    ensures Words(Join(ws, " ")) == ws
  {
    if |ws| == 1 {
      var w := ws[0];
      WordLenOfWord(w, "");
      assert w + "" == w;
      assert w[|w|..] == [];
    } else if |ws| > 1 {
      var w, j := ws[0], Join(ws[1..], " ");
      var s := w + " " + j;
      assert Join(ws, " ") == s;
      WordLenOfWord(w, " " + j);
      assert w + (" " + j) == s;
      assert s[..|w|] == w;
      assert s[|w|..] == " " + j;
      assert (" " + j)[1..] == j;
      WordsOfJoin(ws[1..]);
    }
  }

  /** A word followed by nothing or by whitespace ends exactly where the word ends. */
  lemma {:induction false} WordLenOfWord(w: string, t: string)
    requires IsWord(w)
    requires t == [] || IsSpace(t[0])
    ensures WordLen(w + t) == |w|
    decreases |w|
  {
    assert (w + t)[0] == w[0];
    if |w| > 1 {
      assert (w + t)[1..] == w[1..] + t;
      WordLenOfWord(w[1..], t);
    } else {
      assert (w + t)[1..] == t;
    }
  }

  /** Stripping a collapsed string changes nothing. */
  lemma StripCollapsed(s: string)
    requires Collapsed(s)
    ensures Strip(s) == s
  {
    assert TrimStart(s) == s;
    assert TrimEnd(s) == s;
  }

  /** Collapsing is idempotent. */
  lemma CollapseIdempotent(s: string)
    ensures Collapse(Collapse(s)) == Collapse(s)
  {
    var ws := Words(Strip(s));
    var c := Join(ws, " ");
    assert Collapse(s) == c;
    JoinWordsCollapsed(ws);
    StripCollapsed(c);
    WordsOfJoin(ws);
  }

  /** Words already joined by single spaces are left as they are by Collapse. */
  lemma CollapseOfJoin(ws: seq<string>)
    requires forall i :: 0 <= i < |ws| ==> IsWord(ws[i])
    ensures Collapse(Join(ws, " ")) == Join(ws, " ")
  {
    JoinWordsCollapsed(ws);
    StripCollapsed(Join(ws, " "));
    WordsOfJoin(ws);
  }

  /** A collapsed string is a fixed point of Collapse. */
  lemma CollapseOfCollapsed(s: string)
    requires Collapsed(s)
    ensures Collapse(s) == s
  {
    StripCollapsed(s);
    JoinWordsOfCollapsed(s);
  }

  /** A collapsed string is its words joined by single spaces. */
  lemma {:induction false} JoinWordsOfCollapsed(s: string)
    requires Collapsed(s)
    ensures Join(Words(s), " ") == s
    ensures s != [] ==> Words(s) != []
    decreases |s|
  {
    if s != [] {
      var n := WordLen(s);
      var w := s[..n];
      if n == |s| {
        assert w == s && s[n..] == [];
        assert Words(s) == [s];
      } else {
        assert s[n] == ' ' && n + 1 < |s| && !IsSpace(s[n + 1]);
        var t := s[n + 1..];
        assert Words(s) == [w] + Words(t) by {
          assert s[n..][1..] == t;
        }
        CollapsedSuffix(s, n + 1);
        JoinWordsOfCollapsed(t);
        var ws := [w] + Words(t);
        assert |ws| > 1 && ws[0] == w && ws[1..] == Words(t);
        SplitAround(s, n);
        assert [s[n]] == " ";
      }
    }
  }

  lemma SplitAround(s: string, n: nat)
    requires n < |s|
    ensures s == s[..n] + [s[n]] + s[n + 1..]
  {
  }

  /** A collapsed string stays collapsed when cut right before a non-space. */
  lemma CollapsedSuffix(s: string, k: nat)
    requires Collapsed(s) && k < |s| && !IsSpace(s[k])
    ensures Collapsed(s[k..])
  {
    var t := s[k..];
    forall i | 0 <= i < |t| ensures t[i] == s[k + i] { }
  }

  /** Collapsing keeps exactly the words of the input: only the whitespace
      between them changes. */
  lemma CollapseKeepsWords(s: string)
    ensures Words(Collapse(s)) == Words(s)
  {
    var ws := Words(Strip(s));
    assert Collapse(s) == Join(ws, " ");
    WordsOfJoin(ws);
    WordsOfStrip(s);
  }

  /** Collapsing keeps every non-whitespace character of the input, in order,
      and no other: only whitespace is dropped or replaced. */
  lemma CollapseKeepsCharacters(s: string)
    ensures NonSpace(Collapse(s)) == NonSpace(s)
  {
    CollapseKeepsWords(s);
    WordsConcat(s);
    WordsConcat(Collapse(s));
  }

  /** The concatenation of a list of strings. */
  function Concat(ws: seq<string>): string {
    if ws == [] then "" else ws[0] + Concat(ws[1..])
  }

  /** The characters of `s` that are not whitespace, in order. */
  function NonSpace(s: string): string {
    if s == [] then "" else (if IsSpace(s[0]) then "" else [s[0]]) + NonSpace(s[1..])
  }

  /** split() loses exactly the whitespace: its words, put back together, are
      the input's non-whitespace characters in order. */
  lemma {:induction false} WordsConcat(s: string)
    ensures Concat(Words(s)) == NonSpace(s)
    decreases |s|
  {
    if s != [] {
      if IsSpace(s[0]) {
        WordsConcat(s[1..]);
      } else {
        var n := WordLen(s);
        WordsConcat(s[n..]);
        NonSpaceOfRun(s, n);
        var ws := Words(s);
        assert ws == [s[..n]] + Words(s[n..]);
        assert ws[0] == s[..n] && ws[1..] == Words(s[n..]);
      }
    }
  }

  /** A leading run without whitespace is kept whole by NonSpace. */
  lemma {:induction false} NonSpaceOfRun(s: string, n: nat)
    requires n <= |s| && forall i :: 0 <= i < n ==> !IsSpace(s[i])
    ensures NonSpace(s) == s[..n] + NonSpace(s[n..])
  {
    if n == 0 {
      assert s[..0] == [] && s[0..] == s;
    } else {
      NonSpaceOfRun(s[1..], n - 1);
      assert s[1..][..n - 1] == s[1..n] && s[1..][n - 1..] == s[n..];
      assert s[..n] == [s[0]] + s[1..n];
    }
  }

  lemma WordsOfStrip(s: string)
    ensures Words(Strip(s)) == Words(s)
  {
    WordsOfTrimStart(s);
    WordsOfTrimEnd(TrimStart(s));
  }

  lemma WordsOfTrimEnd(s: string)
    ensures Words(TrimEnd(s)) == Words(s)
  {
    var r := TrimEnd(s);
    var t := s[|r|..];
    assert s == r + t;
    WordsAppendSpace(r, t);
  }

  lemma {:induction false} WordsOfTrimStart(s: string)
    ensures Words(TrimStart(s)) == Words(s)
  {
    if s != [] && IsSpace(s[0]) {
      WordsOfTrimStart(s[1..]);
    }
  }

  /** Trailing whitespace does not change the words. */
  lemma {:induction false} WordsAppendSpace(u: string, t: string)
    requires AllSpace(t)
    ensures Words(u + t) == Words(u)
    decreases |u| + |t|
  {
    if u == [] {
      assert u + t == t;
      if t != [] {
        WordsAppendSpace([], t[1..]);
        assert [] + t[1..] == t[1..];
      }
    } else if IsSpace(u[0]) {
      assert (u + t)[1..] == u[1..] + t;
      WordsAppendSpace(u[1..], t);
    } else {
      WordLenAppendSpace(u, t);
      var n := WordLen(u);
      assert (u + t)[..n] == u[..n];
      assert (u + t)[n..] == u[n..] + t;
      WordsAppendSpace(u[n..], t);
    }
  }

  lemma {:induction false} WordLenAppendSpace(u: string, t: string)
    requires AllSpace(t)
    ensures WordLen(u + t) == WordLen(u)
  {
    if u == [] {
      assert u + t == t;
    } else if !IsSpace(u[0]) {
      assert (u + t)[0] == u[0];
      assert (u + t)[1..] == u[1..] + t;
      WordLenAppendSpace(u[1..], t);
    } else {
      assert (u + t)[0] == u[0];
    }
  }
}
