/** Reading one raw line from the input buffer and trimming it the way both
    the text-format reader (`read_features`) and the CSV reader
    (`parser::read_line`) do: drop a leading UTF-8 byte-order mark, then at
    most one trailing '\n', then at most one trailing '\r'.

    A string stands for a sequence of bytes: each char holds one byte. */
module LineReader {

  /** The UTF-8 byte-order mark EF BB BF, one char per byte. */
  const Bom: string := ['\U{EF}', '\U{BB}', '\U{BF}']

  /** `io_buf::readto(line, '\n')`: the bytes up to and including the first
      '\n', or everything that is left when there is none. */
  function ReadTo(buf: string): (r: (string, string))
    ensures r.0 + r.1 == buf
    ensures forall k :: 0 <= k < |r.0| - 1 ==> r.0[k] != '\n'
    ensures r.1 == [] || (|r.0| > 0 && r.0[|r.0| - 1] == '\n')
    ensures buf != [] ==> |r.0| > 0
  {
    if buf == [] then ([], [])
    else if buf[0] == '\n' then ([buf[0]], buf[1..])
    else
      var rest := ReadTo(buf[1..]);
      ([buf[0]] + rest.0, rest.1)
  }

  /** `readto` stops at the first '\n': a chunk ending in its only newline
      is read off whatever follows it. */
  lemma {:induction false} ReadToLine(c: string, rest: string)
    requires 0 < |c| && c[|c| - 1] == '\n'
    requires forall k :: 0 <= k < |c| - 1 ==> c[k] != '\n'
    ensures ReadTo(c + rest) == (c, rest)
    decreases |c|
  {
    var buf := c + rest;
    if |c| == 1 {
      assert buf[0] == '\n' && [buf[0]] == c && buf[1..] == rest;
    } else {
      assert buf[0] == c[0] && buf[0] != '\n';
      assert buf[1..] == c[1..] + rest;
      ReadToLine(c[1..], rest);
      assert [c[0]] + c[1..] == c;
    }
  }

  predicate StartsWithBom(s: string)
  {
    |s| >= 3 && s[..3] == Bom
  }

  /** Number of leading bytes the byte-order-mark check removes. */
  function BomLen(s: string): (n: nat)
    ensures n == 0 || n == 3
    ensures n <= |s|
  {
    if StartsWithBom(s) then 3 else 0
  }

  /** The line endings the trimming removes. */
  predicate LineEnding(d: string)
  {
    d == "" || d == "\n" || d == "\r" || d == "\r\n"
  }

  /** The trimmed view of a raw chunk (the pair `line`, `num_chars` after the
      three trimming steps). */
  function TrimLine(chunk: string): (r: string)
    ensures BomLen(chunk) + |r| <= |chunk|
    ensures r == chunk[BomLen(chunk) .. BomLen(chunk) + |r|]
    // what goes after the byte-order mark is a line ending
    ensures LineEnding(chunk[BomLen(chunk) + |r|..])
    // nothing goes exactly when the line ends in neither byte
    ensures chunk[BomLen(chunk) + |r|..] == "" <==>
              (|chunk| == BomLen(chunk) || (chunk[|chunk| - 1] != '\n' && chunk[|chunk| - 1] != '\r'))
    // a lone '\n' goes only when no '\r' stands before it
    ensures chunk[BomLen(chunk) + |r|..] == "\n" ==> r == [] || r[|r| - 1] != '\r'
  {
    var b := BomLen(chunk);
    var e1 := if |chunk| > b && chunk[|chunk| - 1] == '\n' then |chunk| - 1 else |chunk|;
    var e2 := if e1 > b && chunk[e1 - 1] == '\r' then e1 - 1 else e1;
    TrimmedSuffix(chunk, b, e1, e2);
    chunk[b..e2]
  }

  /** The bytes the two trimming steps remove. */
  lemma TrimmedSuffix(chunk: string, b: nat, e1: nat, e2: nat)
    requires b <= |chunk|
    requires e1 == if |chunk| > b && chunk[|chunk| - 1] == '\n' then |chunk| - 1 else |chunk|
    requires e2 == if e1 > b && chunk[e1 - 1] == '\r' then e1 - 1 else e1
    ensures LineEnding(chunk[e2..])
    ensures chunk[e2..] == "" <==> (|chunk| == b || (chunk[|chunk| - 1] != '\n' && chunk[|chunk| - 1] != '\r'))
    ensures chunk[e2..] == "\n" ==> e2 == b || chunk[e2 - 1] != '\r'
  {
    if e1 < |chunk| {
      if e2 < e1 {
        assert chunk[e2..] == "\r\n";
      } else {
        assert chunk[e2..] == "\n";
      }
    } else if e2 < e1 {
      assert chunk[e2..] == "\r";
    } else {
      assert chunk[e2..] == "";
    }
  }

  /** The bytes that follow the trimmed line in the buffer: the line ending
      the trimming dropped, then the input not read yet. A view of the
      trimmed line is not NUL-terminated, so a conversion that reads past
      its end sees these bytes. */
  function AfterLine(buf: string): (a: string)
    // the byte-order mark, the line and these bytes make up the buffer
    ensures var chunk := ReadTo(buf).0;
            chunk[..BomLen(chunk)] + TrimLine(chunk) + a == buf
    // they are a line ending followed by the unread input
    ensures |ReadTo(buf).1| <= |a| && a[|a| - |ReadTo(buf).1|..] == ReadTo(buf).1
    ensures LineEnding(a[..|a| - |ReadTo(buf).1|])
  {
    var (chunk, rest) := ReadTo(buf);
    var b := BomLen(chunk);
    var e := b + |TrimLine(chunk)|;
    ThreeParts(chunk, rest, b, e);
    chunk[e..] + rest
  }

  /** A chunk cut in three, with more bytes after it. */
  lemma ThreeParts(c: string, rest: string, b: nat, e: nat)
    requires b <= e <= |c|
    ensures c[..b] + c[b..e] + (c[e..] + rest) == c + rest
    ensures var a := c[e..] + rest; a[..|a| - |rest|] == c[e..] && a[|a| - |rest|..] == rest
  {
    assert c == c[..b] + c[b..e] + c[e..];
  }

  /** A CRLF-terminated line loses exactly its terminator (and a BOM). */
  lemma TrimCrLf(c: string)
    requires !StartsWithBom(c + "\r\n")
    ensures TrimLine(c + "\r\n") == c
  {
    var chunk := c + "\r\n";
    assert chunk[0..] == chunk;
    assert chunk[..|chunk| - 1] == c + "\r";
    assert (c + "\r")[..|c|] == c;
  }

  /** A byte-order mark in front of a CRLF-terminated line is dropped too,
      whatever the line holds. */
  lemma TrimBomCrLf(c: string)
    ensures TrimLine(Bom + c + "\r\n") == c
  {
    var chunk := Bom + c + "\r\n";
    assert chunk[..3] == Bom;
    assert chunk[3..] == c + "\r\n";
    assert (c + "\r\n")[..|c| + 1] == c + "\r";
    assert (c + "\r")[..|c|] == c;
  }

  /** Only one '\n' goes: a line ending in "\n\n" keeps its first newline. */
  lemma TrimOnlyOneNewline(c: string)
    requires !StartsWithBom(c + "\n\n")
    ensures TrimLine(c + "\n\n") == c + "\n"
  {
    var chunk := c + "\n\n";
    assert chunk[0..] == chunk;
    assert chunk[..|chunk| - 1] == c + "\n";
  }

  /** A chunk without BOM and without line-ending bytes is left as it is. */
  lemma TrimPlain(c: string)
    requires !StartsWithBom(c)
    requires forall k :: 0 <= k < |c| ==> c[k] != '\n' && c[k] != '\r'
    ensures TrimLine(c) == c
  {
    assert c[0..] == c;
  }
}
