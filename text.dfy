/** The pieces of Go's `strings`, `strconv`, `bufio` and `path/filepath`
    packages that the importers and the HTTP helpers rely on. */
module Text {
  import opened Common

  /** unicode.IsSpace restricted to ASCII: space, \t, \n, \v, \f, \r. */
  predicate IsSpace(c: char) {
    c == ' ' || c == '\t' || c == '\n' || c == '\r' || c == '\U{000B}' || c == '\U{000C}'
  }

  predicate NoSpace(s: string) {
    forall i :: 0 <= i < |s| ==> !IsSpace(s[i])
  }

  function TrimLeft(s: string): (r: string)
    ensures r == [] || !IsSpace(r[0])
    ensures |r| <= |s| && r == s[|s| - |r|..]
  {
    if s != [] && IsSpace(s[0]) then TrimLeft(s[1..]) else s
  }

  function TrimRight(s: string): (r: string)
    ensures r == [] || !IsSpace(r[|r| - 1])
    ensures |r| <= |s| && r == s[..|r|]
  {
    if s != [] && IsSpace(s[|s| - 1]) then TrimRight(s[..|s| - 1]) else s
  }

  /** strings.TrimSpace */
  function TrimSpace(s: string): (r: string)
    ensures r == [] || (!IsSpace(r[0]) && !IsSpace(r[|r| - 1]))
  {
    TrimRight(TrimLeft(s))
  }

  /** The length of the leading run of non-space characters. */
  function WordLength(s: string): (n: nat)
    ensures n <= |s| && NoSpace(s[..n])
    ensures n < |s| ==> IsSpace(s[n])
  {
    if s == [] || IsSpace(s[0]) then 0 else 1 + WordLength(s[1..])
  }

  /** strings.Fields: the maximal runs of non-space characters. */
  function Fields(s: string): (r: seq<string>)
    ensures forall i :: 0 <= i < |r| ==> r[i] != [] && NoSpace(r[i])
    decreases |s|
  {
    var t := TrimLeft(s);
    if t == [] then []
    else
      var n := WordLength(t);
      assert n != 0 by { assert !IsSpace(t[0]); }
      var rest := Fields(t[n..]);
      [t[..n]] + rest
  }

  /** strings.Join(parts, " ") */
  function JoinSpace(parts: seq<string>): string {
    if parts == [] then ""
    else if |parts| == 1 then parts[0]
    else parts[0] + " " + JoinSpace(parts[1..])
  }

  /** Words without spaces, as Fields returns them. */
  predicate Words(ws: seq<string>) {
    forall i :: 0 <= i < |ws| ==> ws[i] != [] && NoSpace(ws[i])
  }

  lemma {:induction false} WordLengthOfWord(w: string, rest: string)
    requires NoSpace(w) && (rest == [] || IsSpace(rest[0]))
    ensures WordLength(w + rest) == |w|
  {
    if w == [] {
      assert w + rest == rest;
    } else {
      assert (w + rest)[1..] == w[1..] + rest;
      WordLengthOfWord(w[1..], rest);
    }
  }

  lemma {:induction false} JoinSpaceEnds(ws: seq<string>)
    requires Words(ws) && ws != []
    ensures JoinSpace(ws) != [] && JoinSpace(ws)[0] == ws[0][0]
    ensures JoinSpace(ws)[|JoinSpace(ws)| - 1] == ws[|ws| - 1][|ws[|ws| - 1]| - 1]
  {
    assert ws[0] != [];
    if |ws| > 1 {
      var tail := ws[1..];
      assert Words(tail) by {
        forall i | 0 <= i < |tail|
          ensures tail[i] != [] && NoSpace(tail[i])
        {
          assert tail[i] == ws[i + 1];
        }
      }
      JoinSpaceEnds(tail);
      var j := JoinSpace(tail);
      assert JoinSpace(ws) == ws[0] + " " + j;
      assert tail[|tail| - 1] == ws[|ws| - 1];
      assert JoinSpace(ws)[|JoinSpace(ws)| - 1] == j[|j| - 1];
    }
  }

  /** A word followed by a space (or nothing) is the first field. */
  lemma FieldsOfWordThen(w: string, rest: string)
    requires w != [] && NoSpace(w) && (rest == [] || IsSpace(rest[0]))
    ensures Fields(w + rest) == [w] + Fields(rest)
  {
    var s := w + rest;
    assert TrimLeft(s) == s;
    WordLengthOfWord(w, rest);
    assert s[..|w|] == w && s[|w|..] == rest;
  }

  /** A leading space does not change the fields. */
  lemma FieldsOfSpaceThen(j: string)
    ensures Fields(" " + j) == Fields(j)
  {
    assert (" " + j)[1..] == j;
    assert TrimLeft(" " + j) == TrimLeft(j);
  }

  /** Fields splits what JoinSpace joined: the partner of Fields. */
  lemma JoinSpaceCons(w: string, tail: seq<string>)
    requires tail != []
    ensures JoinSpace([w] + tail) == w + (" " + JoinSpace(tail))
  {
    assert ([w] + tail)[1..] == tail;
  }

  lemma {:induction false} FieldsOfJoinSpace(ws: seq<string>)
    requires Words(ws)
    ensures Fields(JoinSpace(ws)) == ws
  {
    if |ws| == 1 {
      assert ws[0] + [] == ws[0];
      FieldsOfWordThen(ws[0], []);
    } else if |ws| > 1 {
      var w, tail := ws[0], ws[1..];
      assert ws == [w] + tail;
      var j := JoinSpace(tail);
      JoinSpaceCons(w, tail);
      FieldsOfWordThen(w, " " + j);
      FieldsOfSpaceThen(j);
      FieldsOfJoinSpace(tail);
    }
  }

  /** A line made of words joined by single spaces is its own TrimSpace. */
  lemma TrimSpaceOfJoinSpace(ws: seq<string>)
    requires Words(ws) && ws != []
    ensures TrimSpace(JoinSpace(ws)) == JoinSpace(ws)
  {
    JoinSpaceEnds(ws);
  }

  /** The index of the first c in s, or |s|. */
  function IndexOf(s: string, c: char): (i: nat)
    ensures i <= |s|
    ensures i < |s| ==> s[i] == c
    ensures forall j :: 0 <= j < i ==> s[j] != c
  {
    if s == [] then 0 else if s[0] == c then 0 else 1 + IndexOf(s[1..], c)
  }

  /** strings.Split(s, string(sep)): never empty; "" gives [""]. */
  function SplitOn(s: string, sep: char): (r: seq<string>)
    ensures |r| >= 1
    decreases |s|
  {
    var i := IndexOf(s, sep);
    if i == |s| then [s] else [s[..i]] + SplitOn(s[i + 1..], sep)
  }

  /** A string without the separator is not split. */
  lemma SplitOnWithout(s: string, sep: char)
    requires sep !in s
    ensures SplitOn(s, sep) == [s]
  {
  }

  function DropCR(line: string): string {
    if line != [] && line[|line| - 1] == '\r' then line[..|line| - 1] else line
  }

  /** The tokens of bufio.Scanner with its default ScanLines split function:
      the text is cut at each '\n', a final empty piece is not a line, and
      one trailing '\r' is removed from every line. */
  function ScanLines(text: string): (lines: seq<string>)
    ensures forall i :: 0 <= i < |lines| ==> '\n' !in lines[i]
  {
    var parts := SplitOn(text, '\n');
    var complete := if parts[|parts| - 1] == "" then parts[..|parts| - 1] else parts;
    SplitOnSeparatorFree(text, '\n');
    seq(|complete|, i requires 0 <= i < |complete| => DropCR(complete[i]))
  }

  lemma {:induction false} SplitOnSeparatorFree(s: string, sep: char)
    ensures forall i :: 0 <= i < |SplitOn(s, sep)| ==> sep !in SplitOn(s, sep)[i]
    decreases |s|
  {
    var i := IndexOf(s, sep);
    if i < |s| {
      SplitOnSeparatorFree(s[i + 1..], sep);
    }
  }

  /** A line as a writer puts it in a text file: no newline inside, and no
      '\r' at its end that a reader would take for part of a CRLF. */
  predicate PlainLine(line: string) {
    '\n' !in line && (line == [] || line[|line| - 1] != '\r')
  }

  /** Lines each followed by '\n'. */
  function JoinLines(lines: seq<string>): string
    decreases |lines|
  {
    if lines == [] then "" else lines[0] + "\n" + JoinLines(lines[1..])
  }

  lemma {:induction false} IndexOfAfter(line: string, rest: string, c: char)
    requires c !in line
    ensures IndexOf(line + [c] + rest, c) == |line|
    decreases |line|
  {
    if line != [] {
      assert (line + [c] + rest)[1..] == line[1..] + [c] + rest;
      IndexOfAfter(line[1..], rest, c);
    }
  }

  /** Cutting lines written one after the other at '\n' gives them back,
      followed by the empty piece after the last '\n'. */
  lemma {:induction false} SplitOnJoinLines(lines: seq<string>)
    requires forall i :: 0 <= i < |lines| ==> '\n' !in lines[i]
    ensures SplitOn(JoinLines(lines), '\n') == lines + [""]
    decreases |lines|
  {
    if lines != [] {
      var line := lines[0];
      var rest := JoinLines(lines[1..]);
      var text := JoinLines(lines);
      assert text == line + ['\n'] + rest;
      IndexOfAfter(line, rest, '\n');
      assert text[..|line|] == line;
      assert text[|line| + 1..] == rest;
      SplitOnJoinLines(lines[1..]);
      assert lines + [""] == [line] + (lines[1..] + [""]);
    }
  }

  /** bufio's line scanner reads back exactly the lines written, each
      followed by '\n'. */
  lemma {:induction false} ScanLinesOfJoinLines(lines: seq<string>)
    requires forall i :: 0 <= i < |lines| ==> PlainLine(lines[i])
    ensures ScanLines(JoinLines(lines)) == lines
  {
    SplitOnJoinLines(lines);
    var parts := lines + [""];
    assert parts[..|parts| - 1] == lines;
    var r := ScanLines(JoinLines(lines));
    assert |r| == |lines|;
    forall i | 0 <= i < |lines|
      ensures r[i] == lines[i]
    {
      assert DropCR(lines[i]) == lines[i];
    }
  }

  /** The bytes of a Go string viewed one character per byte. */
  function Latin1(data: seq<byte>): (s: string)
    ensures |s| == |data|
  {
    seq(|data|, i requires 0 <= i < |data| => (data[i] as int) as char)
  }

  /** A string whose characters all fit in a byte. */
  predicate IsLatin1(s: string) {
    forall i :: 0 <= i < |s| ==> s[i] as int < 256
  }

  /** The bytes of such a string, one per character. */
  function Latin1Bytes(s: string): (b: seq<byte>)
    requires IsLatin1(s)
    ensures |b| == |s|
  {
    seq(|s|, i requires 0 <= i < |s| => s[i] as int as byte)
  }

  /** Latin1 reads back what Latin1Bytes writes. */
  lemma Latin1OfBytes(s: string)
    requires IsLatin1(s)
    ensures Latin1(Latin1Bytes(s)) == s
  {
    assert forall i :: 0 <= i < |s| ==> Latin1(Latin1Bytes(s))[i] == s[i];
  }

  lemma Latin1Injective(a: seq<byte>, b: seq<byte>)
    requires Latin1(a) == Latin1(b)
    ensures a == b
  {
    assert |a| == |b|;
    forall i | 0 <= i < |a| ensures a[i] == b[i] {
      assert Latin1(a)[i] == Latin1(b)[i];
    }
  }

  // ---------------------------------------------------------------------
  // Decimal integers (strconv.Atoi)
  // ---------------------------------------------------------------------

  predicate IsDigit(c: char) {
    '0' <= c <= '9'
  }

  predicate AllDigits(s: string) {
    forall i :: 0 <= i < |s| ==> IsDigit(s[i])
  }

  function DigitsValue(s: string): nat
    requires AllDigits(s)
  {
    if s == [] then 0 else 10 * DigitsValue(s[..|s| - 1]) + (s[|s| - 1] as int - '0' as int)
  }

  /** strconv.Atoi on a 64-bit platform: an optional '+' or '-', then one
      or more decimal digits, with the value inside int64; anything else is
      a syntax or range error. */
  function Atoi(s: string): (r: Option<int>)
    ensures r.Some? ==> MinInt64 <= r.value <= MaxInt64
    ensures s == [] ==> r == None
  {
    var signed := |s| > 0 && (s[0] == '-' || s[0] == '+');
    var digits := if signed then s[1..] else s;
    if digits == [] || !AllDigits(digits) then None
    else
      var v := if signed && s[0] == '-' then 0 - DigitsValue(digits) as int else DigitsValue(digits) as int;
      if MinInt64 <= v <= MaxInt64 then Some(v) else None
  }

  /** strconv.Itoa for non-negative values: the partner of Atoi. */
  function NatToString(n: nat): (s: string)
    ensures s != [] && AllDigits(s)
  {
    if n < 10 then [(48 + n) as char] else NatToString(n / 10) + [(48 + n % 10) as char]
  }

  lemma {:induction false} DigitsValueOfNatToString(n: nat)
    ensures DigitsValue(NatToString(n)) == n
  {
    if n >= 10 {
      var s := NatToString(n);
      assert s[..|s| - 1] == NatToString(n / 10);
      DigitsValueOfNatToString(n / 10);
    }
  }

  lemma AtoiOfNatToString(n: nat)
    requires n <= MaxInt64
    ensures Atoi(NatToString(n)) == Some(n)
  {
    DigitsValueOfNatToString(n);
  }

  lemma AtoiOfNegative(n: nat)
    requires 0 < n <= -MinInt64
    ensures Atoi("-" + NatToString(n)) == Some(0 - n as int)
  {
    DigitsValueOfNatToString(n);
    assert ("-" + NatToString(n))[1..] == NatToString(n);
  }
}
