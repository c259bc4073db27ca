/** Strings as the edit engine sees them: Python's `split("\n")`, `"\n".join`, `strip` and `splitlines`. */
module EditText {
  // ----- lines

  /** The parts between newlines: always at least one line. */
  function Split(s: string): (lines: seq<string>)
    ensures |lines| > 0
  {
    if s == "" then [""]
    else
      var rest := Split(s[1..]);
      if s[0] == '\n' then [""] + rest else [[s[0]] + rest[0]] + rest[1..]
  }

  /** The lines with a newline between each two. */
  function Join(lines: seq<string>): string {
    if lines == [] then ""
    else if |lines| == 1 then lines[0]
    else lines[0] + "\n" + Join(lines[1..])
  }

  predicate OneLine(s: string) {
    '\n' !in s
  }

  predicate AllOneLine(lines: seq<string>) {
    forall i :: 0 <= i < |lines| ==> OneLine(lines[i])
  }

  lemma {:induction false} SplitYieldsLines(s: string)
    ensures AllOneLine(Split(s))
  {
    if s != "" {
      SplitYieldsLines(s[1..]);
    }
  }

  lemma {:induction false} JoinSplit(s: string)
    ensures Join(Split(s)) == s
  {
    if s != "" {
      JoinSplit(s[1..]);
      var rest := Split(s[1..]);
      if s[0] == '\n' {
        assert ([""] + rest)[1..] == rest;
      } else {
        assert ([[s[0]] + rest[0]] + rest[1..])[1..] == rest[1..];
        if |rest| > 1 {
          assert ([s[0]] + rest[0]) + "\n" + Join(rest[1..]) == [s[0]] + (rest[0] + "\n" + Join(rest[1..]));
        }
      }
      assert s == [s[0]] + s[1..];
    }
  }

  lemma {:induction false} SplitOneLine(s: string)
    requires OneLine(s)
    ensures Split(s) == [s]
  {
    if s != "" {
      SplitOneLine(s[1..]);
      assert [s[0]] + s[1..] == s;
    }
  }

  lemma {:induction false} SplitAtBreak(a: string, b: string)
    requires OneLine(a)
    ensures Split(a + "\n" + b) == [a] + Split(b)
  {
    if a == "" {
      assert a + "\n" + b == ['\n'] + b;
    } else {
      var whole := a + "\n" + b;
      SplitAtBreak(a[1..], b);
      assert whole[1..] == a[1..] + "\n" + b;
      assert [whole[0]] + a[1..] == a;
    }
  }

  lemma {:induction false} SplitJoin(lines: seq<string>)
    requires lines != [] && AllOneLine(lines)
    ensures Split(Join(lines)) == lines
  {
    if |lines| == 1 {
      SplitOneLine(lines[0]);
    } else {
      SplitJoin(lines[1..]);
      SplitAtBreak(lines[0], Join(lines[1..]));
      assert [lines[0]] + lines[1..] == lines;
    }
  }

  lemma {:induction false} JoinConcat(a: seq<string>, b: seq<string>)
    requires a != [] && b != []
    ensures Join(a + b) == Join(a) + "\n" + Join(b)
  {
    if |a| == 1 {
      assert (a + b)[1..] == b;
    } else {
      JoinConcat(a[1..], b);
      assert (a + b)[1..] == a[1..] + b;
      assert a[0] + "\n" + (Join(a[1..]) + "\n" + Join(b)) == (a[0] + "\n" + Join(a[1..])) + "\n" + Join(b);
    }
  }

  // ----- whitespace

  /** The characters Python's `str.isspace` accepts. */
  predicate IsSpace(c: char) {
    var k := c as int;
    9 <= k <= 13 || 28 <= k <= 32 || k == 0x85 || k == 0xA0 || k == 0x1680 || 0x2000 <= k <= 0x200A
    || k == 0x2028 || k == 0x2029 || k == 0x202F || k == 0x205F || k == 0x3000
  }

  /** A space or a tab. */
  predicate IsBlank(c: char) {
    c == ' ' || c == '\t'
  }

  predicate AllBlank(s: string) {
    forall i :: 0 <= i < |s| ==> IsBlank(s[i])
  }

  predicate AllSpace(s: string) {
    forall i :: 0 <= i < |s| ==> IsSpace(s[i])
  }

  /** Whitespace taken off the end. */
  function RStrip(s: string): string {
    if s != "" && IsSpace(s[|s| - 1]) then RStrip(s[..|s| - 1]) else s
  }

  /** Whitespace taken off the start. */
  function LStrip(s: string): string {
    if s != "" && IsSpace(s[0]) then LStrip(s[1..]) else s
  }

  function Strip(s: string): string {
    LStrip(RStrip(s))
  }

  function StripEach(lines: seq<string>): (r: seq<string>)
    ensures |r| == |lines| && forall j :: 0 <= j < |lines| ==> r[j] == RStrip(lines[j])
  {
    seq(|lines|, j requires 0 <= j < |lines| => RStrip(lines[j]))
  }

  /** A line that is empty or whitespace only. */
  predicate BlankLine(s: string) {
    RStrip(s) == ""
  }

  lemma {:induction false} RStripPrefix(s: string)
    ensures RStrip(s) <= s
    ensures RStrip(s) != "" ==> !IsSpace(RStrip(s)[|RStrip(s)| - 1])
    ensures AllSpace(s[|RStrip(s)|..])
  {
    if s != "" && IsSpace(s[|s| - 1]) {
      RStripPrefix(s[..|s| - 1]);
      var r := RStrip(s);
      assert s[|r|..] == s[..|s| - 1][|r|..] + [s[|s| - 1]];
    }
  }

  /** A string is blank exactly when every character is whitespace. */
  lemma {:induction false} BlankIffAllSpace(s: string)
    ensures BlankLine(s) <==> AllSpace(s)
  {
    RStripPrefix(s);
    if BlankLine(s) {
      assert s[0..] == s;
    }
  }

  /** Stripping the end of `p + x` strips the end of `x` when `x` is not blank. */
  lemma {:induction false} RStripConcat(p: string, x: string)
    requires !BlankLine(x)
    ensures RStrip(p + x) == p + RStrip(x)
    ensures !BlankLine(p + x)
    decreases |x|
  {
    assert (p + x)[|p + x| - 1] == x[|x| - 1];
    if IsSpace(x[|x| - 1]) {
      RStripConcat(p, x[..|x| - 1]);
      assert (p + x)[..|p + x| - 1] == p + x[..|x| - 1];
    }
  }

  lemma {:induction false} LStripSuffix(s: string) returns (k: nat)
    ensures k <= |s| && LStrip(s) == s[k..] && AllSpace(s[..k])
    ensures LStrip(s) != "" ==> !IsSpace(LStrip(s)[0])
  {
    if s != "" && IsSpace(s[0]) {
      k := LStripSuffix(s[1..]);
      k := k + 1;
      assert s[..k] == [s[0]] + s[1..][..k - 1];
    } else {
      k := 0;
    }
  }

  /** What `strip` leaves is the part between the first and the last character that is not whitespace. */
  lemma StripIs(s: string) returns (a: nat, b: nat)
    ensures a <= b <= |s| && Strip(s) == s[a..b] && AllSpace(s[..a]) && AllSpace(s[b..])
    ensures a < b ==> !IsSpace(s[a]) && !IsSpace(s[b - 1])
  {
    RStripPrefix(s);
    hide RStrip, LStrip, IsSpace;
    var r := RStrip(s);
    b := |r|;
    a := LStripSuffix(r);
    assert r == s[..b];
    assert r[..a] == s[..a] && r[a..] == s[a..b];
  }

  // ----- leading indentation

  /** The spaces and tabs a line starts with. */
  function LeadingWs(line: string): (ws: string)
    ensures ws <= line
    ensures forall i :: 0 <= i < |ws| ==> IsBlank(ws[i])
    ensures |ws| < |line| ==> !IsBlank(line[|ws|])
  {
    if line != "" && IsBlank(line[0]) then [line[0]] + LeadingWs(line[1..]) else ""
  }

  lemma {:induction false} LeadingWsUnique(line: string, ws: string)
    requires ws <= line
    requires forall i :: 0 <= i < |ws| ==> IsBlank(ws[i])
    requires |ws| < |line| ==> !IsBlank(line[|ws|])
    ensures LeadingWs(line) == ws
  {
    if ws != "" {
      LeadingWsUnique(line[1..], ws[1..]);
      assert [line[0]] + ws[1..] == ws;
    }
  }

  // ----- `splitlines`

  /** The characters at which `str.splitlines` ends a line. */
  predicate IsLineBreak(c: char) {
    var k := c as int;
    10 <= k <= 13 || 28 <= k <= 30 || k == 0x85 || k == 0x2028 || k == 0x2029
  }

  function BreakAt(s: string): (k: nat)
    ensures k <= |s|
    ensures forall i :: 0 <= i < k ==> !IsLineBreak(s[i])
    ensures k < |s| ==> IsLineBreak(s[k])
  {
    if s == "" || IsLineBreak(s[0]) then 0 else 1 + BreakAt(s[1..])
  }

  lemma {:induction false} BreakAtIs(s: string, k: nat)
    requires k <= |s| && forall i :: 0 <= i < k ==> !IsLineBreak(s[i])
    requires k < |s| ==> IsLineBreak(s[k])
    ensures BreakAt(s) == k
  {
    if k > 0 {
      BreakAtIs(s[1..], k - 1);
    }
  }

  function SplitLines(s: string): seq<string>
    decreases |s|
  {
    if s == "" then []
    else
      var k := BreakAt(s);
      if k == |s| then [s]
      else [s[..k]] + SplitLines(s[k + BreakWidth(s, k)..])
  }

  /** A carriage return and a line feed together end one line. */
  function BreakWidth(s: string, k: nat): (w: nat)
    requires k < |s|
    ensures 1 <= w && k + w <= |s|
  {
    if s[k] == '\r' && k + 1 < |s| && s[k + 1] == '\n' then 2 else 1
  }

  predicate Unbroken(s: string) {
    forall i :: 0 <= i < |s| ==> !IsLineBreak(s[i])
  }

  /** Every line followed by a newline. */
  function Unlines(lines: seq<string>): string {
    if lines == [] then "" else lines[0] + "\n" + Unlines(lines[1..])
  }

  /** A line boundary ends a line: any of its characters, or a carriage return with the line feed after it. */
  lemma LineEnds(line: string, boundary: string, later: string)
    requires Unbroken(line)
    requires boundary == "\r\n" || (|boundary| == 1 && IsLineBreak(boundary[0]) && !(boundary == "\r" && "\n" <= later))
    ensures SplitLines(line + boundary + later) == [line] + SplitLines(later)
    ensures SplitLines(line) == if line == "" then [] else [line]
  {
    var s, k := line + boundary + later, |line|;
    assert s[..k] == line && s[k] == boundary[0] && s[k + |boundary|..] == later;
    assert forall i :: 0 <= i < k ==> s[i] == line[i];
    assert |boundary| == 2 ==> s[k + 1] == '\n';
    assert |boundary| == 1 && k + 1 < |s| ==> s[k + 1] == later[0];
    BreakAtIs(s, k);
    BreakAtIs(line, k);
    hide BreakAt;
    assert line != "" ==> line[..k] == line;
  }

  lemma FirstLineSplits(line: string, later: string)
    requires Unbroken(line)
    ensures SplitLines(line + "\n" + later) == [line] + SplitLines(later)
  {
    var s, k := line + "\n" + later, |line|;
    assert s[..k] == line && s[k] == '\n' && s[k + 1..] == later;
    assert forall i :: 0 <= i < k ==> s[i] == line[i];
    BreakAtIs(s, k);
    hide BreakAt;
  }

  /** Lines that hold no line boundary come back unchanged. */
  lemma {:induction false} SplitLinesUnlines(lines: seq<string>)
    requires forall i :: 0 <= i < |lines| ==> Unbroken(lines[i])
    ensures SplitLines(Unlines(lines)) == lines
  {
    if lines != [] {
      var line, later := lines[0], Unlines(lines[1..]);
      assert Unlines(lines) == line + "\n" + later;
      FirstLineSplits(line, later);
      hide SplitLines, Unlines, Unbroken;
      SplitLinesUnlines(lines[1..]);
      assert [line] + lines[1..] == lines;
    }
  }
}
