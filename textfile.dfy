/** A file opened in text mode, held as its whole text: readline(), and seek() followed by read(). */
module TextFile {
  import opened Errors

  /** One readline() from the current position: the text up to and including the first line
      feed, or everything left when there is none (so "" at the end of the file), and what
      remains after it. */
  function ReadLine(s: string): (r: (string, string))
    ensures r.0 + r.1 == s
    ensures '\n' !in s ==> r.0 == s
    ensures '\n' in s ==> |r.0| > 0 && r.0[|r.0| - 1] == '\n' && '\n' !in r.0[..|r.0| - 1]
  {
    if s == [] then ("", "")
    else if s[0] == '\n' then ("\n", s[1..])
    else
      var (line, rest) := ReadLine(s[1..]);
      ([s[0]] + line, rest)
  }

  /** Reading a line that ends in the first line feed of the text. */
  lemma {:induction false} ReadLineOf(a: string, b: string)
    requires '\n' !in a
    ensures ReadLine(a + "\n" + b) == (a + "\n", b)
  {
    if a != [] {
      assert (a + "\n" + b)[0] == a[0] != '\n';
      assert (a + "\n" + b)[1..] == a[1..] + "\n" + b;
      ReadLineOf(a[1..], b);
      assert [a[0]] + (a[1..] + "\n") == a + "\n";
    }
  }

  /** `k` successive readline() calls from the start of `s`. */
  function ReadLines(s: string, k: nat): (lines: seq<string>)
    ensures |lines| == k
    decreases k
  {
    if k == 0 then []
    else
      var (line, rest) := ReadLine(s);
      [line] + ReadLines(rest, k - 1)
  }

  /** file.seek(pos) then file.read(size): a negative position is a ValueError; a position
      at or past the end reads ""; a negative size reads to the end; a read that runs past
      the end stops there. */
  function SeekRead(s: string, pos: int, size: int): (r: Result<string>)
    ensures r.Err? <==> pos < 0
    ensures r.Ok? && size >= 0 ==> |r.value| <= size
    ensures r.Ok? && pos <= |s| ==> pos + |r.value| <= |s| && r.value == s[pos..pos + |r.value|]
    ensures r.Ok? && 0 <= size && pos + size <= |s| ==> r.value == s[pos..pos + size]
  {
    if pos < 0 then Err(ValueError(NegativeSeek))
    else if pos >= |s| then Ok("")
    else if size < 0 || pos + size > |s| then Ok(s[pos..])
    else Ok(s[pos..pos + size])
  }
}
