/** Python's str.split(), str.strip(), " ".join() and "".join() on text held as `string`. */
module Text {

  /** Python's str.isspace() for one character: the characters that split() and strip()
      (without arguments) treat as whitespace. */
  predicate IsSpace(c: char) {
    || ('\t' <= c <= '\r')            // tab, line feed, vertical tab, form feed, carriage return
    || ('\U{1C}' <= c <= ' ')         // the four ASCII separators and space
    || c == '\U{85}' || c == '\U{A0}' || c == '\U{1680}'
    || ('\U{2000}' <= c <= '\U{200A}')
    || c == '\U{2028}' || c == '\U{2029}' || c == '\U{202F}' || c == '\U{205F}' || c == '\U{3000}'
  }

  /** A non-empty run of non-whitespace characters: what split() returns as one element. */
  predicate IsWord(s: string) {
    |s| > 0 && forall i :: 0 <= i < |s| ==> !IsSpace(s[i])
  }

  /** A run of lower-case ASCII letters is a word. */
  lemma {:induction false} LettersWord(s: string)
    requires |s| > 0 && forall i :: 0 <= i < |s| ==> 'a' <= s[i] <= 'z'
    ensures IsWord(s)
  {
  }

  /** The length of the run of non-whitespace characters that `s` starts with. */
  function TokenLen(s: string): (k: nat)
    ensures k <= |s|
    ensures forall i :: 0 <= i < k ==> !IsSpace(s[i])
    ensures k < |s| ==> IsSpace(s[k])
  {
    if s == [] || IsSpace(s[0]) then 0 else 1 + TokenLen(s[1..])
  }

  /** The three facts TokenLen promises determine it. */
  lemma {:induction false} TokenLenIs(s: string, k: nat)
    requires k <= |s|
    requires forall i :: 0 <= i < k ==> !IsSpace(s[i])
    requires k < |s| ==> IsSpace(s[k])
    ensures TokenLen(s) == k
    decreases |s|
  {
    if s != [] && !IsSpace(s[0]) {
      TokenLenIs(s[1..], k - 1);
    }
  }

  /** s.split(): the maximal runs of non-whitespace characters, in order. */
  function Split(s: string): (r: seq<string>)
    ensures forall i :: 0 <= i < |r| ==> IsWord(r[i])
    decreases |s|
  {
    if s == [] then []
    else if IsSpace(s[0]) then Split(s[1..])
    else
      var k := TokenLen(s);
      [s[..k]] + Split(s[k..])
  }

  /** A whitespace character ends every token, so splitting around it splits each side. */
  lemma {:induction false} SplitAround(x: string, c: char, y: string)
    requires IsSpace(c)
    ensures Split(x + [c] + y) == Split(x) + Split(y)
    decreases |x|
  {
    var s := x + [c] + y;
    if x == [] {
      assert s == [c] + y;
      assert s[1..] == y;
    } else if IsSpace(x[0]) {
      assert s[1..] == x[1..] + [c] + y;
      SplitAround(x[1..], c, y);
    } else {
      var k := TokenLen(x);
      assert s[k] == if k < |x| then x[k] else c;
      TokenLenIs(s, k);
      assert s[..k] == x[..k];
      assert s[k..] == x[k..] + [c] + y;
      SplitAround(x[k..], c, y);
    }
  }

  /** A word splits into itself. */
  lemma {:induction false} SplitWord(t: string)
    requires IsWord(t)
    ensures Split(t) == [t]
  {
    TokenLenIs(t, |t|);
    assert t[..|t|] == t;
    assert t[|t|..] == [];
  }

  /** s.lstrip() */
  function LStrip(s: string): string
    decreases |s|
  {
    if s != [] && IsSpace(s[0]) then LStrip(s[1..]) else s
  }

  /** s.rstrip() */
  function RStrip(s: string): string
    decreases |s|
  {
    if s != [] && IsSpace(s[|s| - 1]) then RStrip(s[..|s| - 1]) else s
  }

  /** s.strip() */
  function Strip(s: string): string {
    LStrip(RStrip(s))
  }

  lemma {:induction false} SplitLStrip(s: string)
    ensures Split(LStrip(s)) == Split(s)
    decreases |s|
  {
    if s != [] && IsSpace(s[0]) {
      SplitLStrip(s[1..]);
    }
  }

  lemma {:induction false} SplitRStrip(s: string)
    ensures Split(RStrip(s)) == Split(s)
    decreases |s|
  {
    if s != [] && IsSpace(s[|s| - 1]) {
      var init := s[..|s| - 1];
      assert s == init + [s[|s| - 1]] + [];
      SplitAround(init, s[|s| - 1], []);
      SplitRStrip(init);
    }
  }

  /** Stripping never changes what split() returns: `s.strip().split() == s.split()`. */
  lemma {:induction false} SplitStrip(s: string)
    ensures Split(Strip(s)) == Split(s)
  {
    SplitLStrip(RStrip(s));
    SplitRStrip(s);
  }

  /** A line whose text starts and ends with non-whitespace strips back to that text. */
  lemma {:induction false} StripLine(x: string, c: char)
    requires |x| > 0 && !IsSpace(x[0]) && !IsSpace(x[|x| - 1])
    requires IsSpace(c)
    ensures Strip(x + [c]) == x
  {
    assert (x + [c])[..|x|] == x;
    assert RStrip(x + [c]) == RStrip(x) == x;
  }

  /** s.startswith(p) */
  predicate StartsWith(s: string, p: string) {
    |p| <= |s| && s[..|p|] == p
  }

  /** " ".join(ts) */
  function Join(ts: seq<string>): string {
    if |ts| == 0 then ""
    else if |ts| == 1 then ts[0]
    else Join(ts[..|ts| - 1]) + " " + ts[|ts| - 1]
  }

  /** Concatenation regrouped. */
  lemma {:induction false} AppendAssoc(a: string, b: string, c: string)
    ensures a + (b + c) == (a + b) + c
  {
  }

  /** Joining one more element adds one space and that element. */
  lemma {:induction false} JoinSnoc(ts: seq<string>, t: string)
    requires |ts| > 0
    ensures Join(ts + [t]) == Join(ts) + " " + t
  {
    assert (ts + [t])[..|ts|] == ts;
  }

  /** Joining three more elements adds each with a space before it (no space before the
      first one when nothing came before). */
  lemma {:induction false} JoinAppend3(ts: seq<string>, a: string, b: string, c: string)
    ensures Join(ts + [a, b, c]) == (if ts == [] then "" else Join(ts) + " ") + a + " " + b + " " + c
  {
    assert ts + [a, b, c] == (ts + [a, b]) + [c];
    assert ts + [a, b] == (ts + [a]) + [b];
    if ts == [] {
      assert Join([a]) == a;
    } else {
      JoinSnoc(ts, a);
    }
    JoinSnoc(ts + [a], b);
    JoinSnoc(ts + [a, b], c);
  }

  /** Splitting words joined by single spaces gives the words back. */
  lemma {:induction false} SplitJoin(ts: seq<string>)
    requires forall i :: 0 <= i < |ts| ==> IsWord(ts[i])
    ensures Split(Join(ts)) == ts
  {
    if |ts| == 1 {
      SplitWord(ts[0]);
    } else if |ts| > 1 {
      var init := ts[..|ts| - 1];
      SplitJoin(init);
      SplitWord(ts[|ts| - 1]);
      SplitAround(Join(init), ' ', ts[|ts| - 1]);
      assert init + [ts[|ts| - 1]] == ts;
    }
  }

  /** Words joined by spaces: every character is a space or not whitespace at all, and a
      non-empty join starts and ends with a non-whitespace character. */
  lemma {:induction false} JoinShape(ts: seq<string>)
    requires forall i :: 0 <= i < |ts| ==> IsWord(ts[i])
    ensures forall k :: 0 <= k < |Join(ts)| ==> Join(ts)[k] == ' ' || !IsSpace(Join(ts)[k])
    ensures |ts| > 0 ==> |Join(ts)| > 0 && !IsSpace(Join(ts)[0]) && !IsSpace(Join(ts)[|Join(ts)| - 1])
  {
    if |ts| > 1 {
      var init := ts[..|ts| - 1];
      JoinShape(init);
      var j := Join(init);
      var t := ts[|ts| - 1];
      assert Join(ts) == j + " " + t;
      forall k | 0 <= k < |Join(ts)|
        ensures Join(ts)[k] == ' ' || !IsSpace(Join(ts)[k])
      {
        if k < |j| {
          assert Join(ts)[k] == j[k];
        } else if k > |j| {
          assert Join(ts)[k] == t[k - |j| - 1];
        }
      }
    }
  }

  /** Words joined by spaces hold no line feed. */
  lemma {:induction false} JoinNoNewline(ts: seq<string>)
    requires forall i :: 0 <= i < |ts| ==> IsWord(ts[i])
    ensures '\n' !in Join(ts)
  {
    JoinShape(ts);
  }

  /** "".join(ps): the pieces one after the other. */
  function Concat(ps: seq<string>): string {
    if ps == [] then "" else Concat(ps[..|ps| - 1]) + ps[|ps| - 1]
  }

  /** Taking one more piece appends that piece's text. */
  lemma {:induction false} ConcatSnoc(ps: seq<string>, i: nat)
    requires i < |ps|
    ensures Concat(ps[..i + 1]) == Concat(ps[..i]) + ps[i]
  {
    assert ps[..i + 1][..i] == ps[..i];
  }

  /** The text of the first `j` pieces is the beginning of the text of all of them. */
  lemma {:induction false} ConcatPrefix(ps: seq<string>, j: nat)
    requires j <= |ps|
    ensures |Concat(ps[..j])| <= |Concat(ps)|
    ensures Concat(ps)[..|Concat(ps[..j])|] == Concat(ps[..j])
    decreases |ps|
  {
    assert ps[..|ps|] == ps;
    if j < |ps| {
      var init := ps[..|ps| - 1];
      assert init[..j] == ps[..j];
      ConcatPrefix(init, j);
    }
  }

  /** Piece `i` sits in the joined text right after the text of the pieces before it. */
  lemma {:induction false} ConcatSlice(ps: seq<string>, i: nat)
    requires i < |ps|
    ensures |Concat(ps[..i])| + |ps[i]| <= |Concat(ps)|
    ensures Concat(ps)[|Concat(ps[..i])|..|Concat(ps[..i])| + |ps[i]|] == ps[i]
  {
    ConcatPrefix(ps, i + 1);
    assert ps[..i + 1][..i] == ps[..i];
    var l := Concat(ps[..i]);
    assert Concat(ps[..i + 1]) == l + ps[i];
    assert Concat(ps)[..|l| + |ps[i]|] == l + ps[i];
    assert Concat(ps)[|l|..|l| + |ps[i]|] == (l + ps[i])[|l|..];
  }
}
