/**
 The lines the parser knows, told as the patterns they match: the three markers, the headers that name a file, and
 what becomes of the text of a header.
 */
module EditMarkers {
  import opened Options
  import opened EditText
  import opened EditParser
  import opened EditParserLaws

  /** `n` times the character. */
  function Run(c: char, n: nat): string {
    seq(n, _ => c)
  }

  /** No blank at either end. */
  predicate Trimmed(s: string) {
    s != "" ==> !IsBlank(s[0]) && !IsBlank(s[|s| - 1])
  }

  lemma {:induction false} TrimEndOf(t: string, c: string)
    requires AllBlank(c) && (t != "" ==> !IsBlank(t[|t| - 1]))
    ensures TrimEnd(t + c) == t
    decreases |c|
  {
    if c == "" {
      assert t + c == t;
    } else {
      assert (t + c)[|t + c| - 1] == c[|c| - 1] && (t + c)[..|t + c| - 1] == t + c[..|c| - 1];
      TrimEndOf(t, c[..|c| - 1]);
    }
  }

  lemma TrimOf(a: string, t: string, c: string)
    requires AllBlank(a) && AllBlank(c) && Trimmed(t)
    ensures TrimBlanks(a + t + c) == t
  {
    if t == "" {
      assert a + t + c == "" + (a + c);
      TrimEndOf("", a + c);
    } else {
      assert a + t + c == (a + t) + c && (a + t)[|a + t| - 1] == t[|t| - 1];
      TrimEndOf(a + t, c);
      assert (a + t)[|a|] == t[0];
      LeadingWsUnique(a + t, a);
      assert (a + t)[|a|..] == t;
    }
  }

  lemma {:induction false} TrimEndHas(s: string) returns (c: string)
    ensures s == TrimEnd(s) + c && AllBlank(c)
    ensures TrimEnd(s) != "" ==> !IsBlank(TrimEnd(s)[|TrimEnd(s)| - 1])
  {
    if s != "" && IsBlank(s[|s| - 1]) {
      c := TrimEndHas(s[..|s| - 1]);
      c := c + [s[|s| - 1]];
    } else {
      c := "";
    }
  }

  lemma TrimHas(s: string) returns (a: string, c: string)
    ensures s == a + TrimBlanks(s) + c && AllBlank(a) && AllBlank(c) && Trimmed(TrimBlanks(s))
  {
    hide TrimEnd, LeadingWs;
    c := TrimEndHas(s);
    a := LeadingWs(TrimEnd(s));
    var t := TrimEnd(s);
    assert t == a + t[|a|..];
    assert t[|a|..] != "" ==> t[|a|..][|t| - |a| - 1] == t[|t| - 1];
  }

  lemma {:induction false} RunHas(s: string, c: char)
    ensures s == Run(c, RunLength(s, c)) + s[RunLength(s, c)..]
    ensures RunLength(s, c) < |s| ==> s[RunLength(s, c)] != c
  {
    if s != "" && s[0] == c {
      RunHas(s[1..], c);
      var k := RunLength(s[1..], c);
      assert Run(c, k + 1) == [c] + Run(c, k);
      assert s[k + 1..] == s[1..][k..];
      assert s == [c] + s[1..];
    }
  }

  lemma RunOf(c: char, n: nat, rest: string)
    requires rest != "" ==> rest[0] != c
    ensures RunLength(Run(c, n) + rest, c) == n && (Run(c, n) + rest)[n..] == rest
  {
    RunLengthIs(Run(c, n) + rest, c, n);
  }

  // ----- the markers

  /** Blanks, at least five of the mark, blanks, the tag or nothing, and blanks. */
  predicate Fenced(line: string, mark: char, tag: string, a: string, n: nat, b: string, c: string) {
    && AllBlank(a) && AllBlank(b) && AllBlank(c) && n >= 5
    && (line == a + Run(mark, n) + b + c || line == a + Run(mark, n) + b + tag + c)
  }

  lemma FenceByParts(line: string, mark: char, tag: string, n: nat, rest: string)
    requires n >= 5 && TrimBlanks(line) == Run(mark, n) + rest && (rest != "" ==> rest[0] != mark)
    requires TrimBlanks(rest) == "" || TrimBlanks(rest) == tag
    ensures IsFence(line, mark, tag)
  {
    hide TrimBlanks, RunLength;
    RunOf(mark, n, rest);
  }

  lemma BareFence(line: string, mark: char, tag: string, a: string, n: nat, c: string)
    requires !IsBlank(mark) && AllBlank(a) && AllBlank(c) && n >= 5 && line == a + Run(mark, n) + c
    ensures IsFence(line, mark, tag)
  {
    hide TrimBlanks, IsFence;
    TrimOf(a, Run(mark, n), c);
    assert Run(mark, n) + "" == Run(mark, n);
    assert "" + "" + "" == "";
    TrimOf("", "", "");
    FenceByParts(line, mark, tag, n, "");
  }

  lemma TaggedFence(line: string, mark: char, tag: string, a: string, n: nat, b: string, c: string)
    requires !IsBlank(mark) && Trimmed(tag) && tag != "" && tag[0] != mark
    requires AllBlank(a) && AllBlank(b) && AllBlank(c) && n >= 5 && line == a + Run(mark, n) + b + tag + c
    ensures IsFence(line, mark, tag)
  {
    hide TrimBlanks, IsFence;
    var rest := b + tag;
    var t := Run(mark, n) + rest;
    assert t[|t| - 1] == tag[|tag| - 1] && t[0] == mark;
    Regrouped(a, Run(mark, n), b, tag, c);
    TrimOf(a, t, c);
    assert rest == b + tag + "";
    TrimOf(b, tag, "");
    FenceByParts(line, mark, tag, n, rest);
  }

  lemma Regrouped(a: string, run: string, b: string, tag: string, c: string)
    ensures a + run + b + tag + c == a + (run + (b + tag)) + c
  {
  }

  lemma FenceOf(line: string, mark: char, tag: string, a: string, n: nat, b: string, c: string)
    requires !IsBlank(mark) && Trimmed(tag) && (tag != "" ==> tag[0] != mark)
    requires Fenced(line, mark, tag, a, n, b, c)
    ensures IsFence(line, mark, tag)
  {
    hide IsFence;
    if tag == "" || line == a + Run(mark, n) + b + c {
      assert a + Run(mark, n) + b + "" + c == a + Run(mark, n) + b + c;
      assert line == a + Run(mark, n) + (b + c);
      BareFence(line, mark, tag, a, n, b + c);
    } else {
      TaggedFence(line, mark, tag, a, n, b, c);
    }
  }

  lemma FenceHas(line: string, mark: char, tag: string) returns (a: string, n: nat, b: string, c: string)
    requires IsFence(line, mark, tag)
    ensures Fenced(line, mark, tag, a, n, b, c)
  {
    hide TrimEnd, LeadingWs, RunLength;
    var t, end := TrimBlanks(line), "";
    a, end := TrimHas(line);
    n := RunLength(t, mark);
    RunHas(t, mark);
    var more := "";
    b, more := TrimHas(t[n..]);
    c := more + end;
    var word := TrimBlanks(t[n..]);
    assert line == a + (Run(mark, n) + (b + word + more)) + end;
    assert line == a + Run(mark, n) + b + word + c;
    assert word == "" ==> a + Run(mark, n) + b + word + c == a + Run(mark, n) + b + c;
  }

  ghost predicate IsFenced(line: string, mark: char, tag: string) {
    exists a: string, n: nat, b: string, c: string :: Fenced(line, mark, tag, a, n, b, c)
  }

  /** The three markers are the lines of their patterns. */
  lemma MarkersIff(line: string)
    ensures IsSearch(line) <==> IsFenced(line, '<', "SEARCH")
    ensures IsDivider(line) <==> IsFenced(line, '=', "")
    ensures IsReplace(line) <==> IsFenced(line, '>', "REPLACE")
  {
    FenceIff(line, '<', "SEARCH");
    FenceIff(line, '=', "");
    FenceIff(line, '>', "REPLACE");
  }

  lemma FenceIff(line: string, mark: char, tag: string)
    requires !IsBlank(mark) && Trimmed(tag) && (tag != "" ==> tag[0] != mark)
    ensures IsFence(line, mark, tag) <==> IsFenced(line, mark, tag)
  {
    hide IsFence, Fenced;
    if IsFence(line, mark, tag) {
      var a, n, b, c := FenceHas(line, mark, tag);
    }
    if a: string, n: nat, b: string, c: string :| Fenced(line, mark, tag, a, n, b, c) {
      FenceOf(line, mark, tag, a, n, b, c);
    }
  }

  // ----- the lines that name a file

  /** Blanks, two to four hashes, a blank, and at least one character more. */
  predicate HeadsWith(line: string, a: string, n: nat, rest: string) {
    && AllBlank(a) && 2 <= n <= 4 && |rest| >= 2 && IsBlank(rest[0])
    && line == a + Run('#', n) + rest
  }

  lemma HeaderOf(line: string, a: string, n: nat, rest: string)
    requires HeadsWith(line, a, n, rest)
    ensures HeaderText(line) == Some(TrimBlanks(rest))
  {
    hide TrimBlanks, RunLength;
    var t := Run('#', n) + rest;
    assert line == a + t && line[|a|] == t[0] == '#';
    LeadingWsUnique(line, a);
    assert line[|a|..] == t;
    RunOf('#', n, rest);
    assert t[n] == rest[0];
  }

  lemma HeaderHas(line: string) returns (a: string, n: nat, rest: string)
    requires HeaderText(line).Some?
    ensures HeadsWith(line, a, n, rest)
  {
    hide TrimBlanks, RunLength, LeadingWs;
    a := LeadingWs(line);
    var t := line[|a|..];
    RunHas(t, '#');
    n := RunLength(t, '#');
    rest := t[n..];
    assert line == a + t;
    assert line == a + (Run('#', n) + rest) == a + Run('#', n) + rest;
  }

  /** Blanks, up to three of `<`, the text, up to three of `>`, and blanks. */
  predicate BracketsWith(line: string, a: string, n: nat, text: string, m: nat, c: string) {
    && AllBlank(a) && AllBlank(c) && 1 <= n <= 3 && 1 <= m <= 3
    && line == a + Run('<', n) + text + Run('>', m) + c
  }

  /** The character, or where it is a capital letter also its small one. */
  predicate SameLetter(c: char, capital: char) {
    c == capital || ('A' <= capital <= 'Z' && c as int == capital as int + 32)
  }

  /** The word, written in capitals, in any case of letters. */
  predicate SameWord(s: string, word: string) {
    |s| == |word| && forall i :: 0 <= i < |s| ==> SameLetter(s[i], word[i])
  }

  lemma CaseFolds(s: string, word: string)
    requires forall i :: 0 <= i < |word| ==> !('a' <= word[i] <= 'z')
    ensures SameWord(s, word) <==> |s| == |word| && HasPrefixNoCase(s, word)
  {
    assert forall c: char, w: char :: !('a' <= w <= 'z') ==> (Upper(c) == w <==> SameLetter(c, w));
    hide Upper, SameLetter;
  }

  lemma {:induction false} ReverseOf(s: string, t: string)
    ensures Reverse(s + t) == Reverse(t) + Reverse(s)
    ensures |Reverse(s)| == |s|
  {
    if s == "" {
      assert s + t == t && Reverse(t) + Reverse("") == Reverse(t);
    } else {
      assert (s + t)[1..] == s[1..] + t;
      ReverseOf(s[1..], t);
      assert Reverse(t) + (Reverse(s[1..]) + [s[0]]) == (Reverse(t) + Reverse(s[1..])) + [s[0]];
    }
  }

  lemma {:induction false} ReverseRun(c: char, n: nat)
    ensures Reverse(Run(c, n)) == Run(c, n)
  {
    if n > 0 {
      assert Run(c, n)[1..] == Run(c, n - 1);
      ReverseRun(c, n - 1);
    }
  }

  lemma {:induction false} ReverseAt(s: string, k: nat)
    requires k < |s|
    ensures |Reverse(s)| == |s| && Reverse(s)[k] == s[|s| - 1 - k]
  {
    ReverseOf(s, "");
    if k == |s| - 1 {
      ReverseOf(s[1..], "");
    } else {
      ReverseAt(s[1..], k);
    }
  }

  lemma BracketedOf(line: string, a: string, n: nat, text: string, m: nat, c: string)
    requires BracketsWith(line, a, n, text, m, c) && text != "" && text[0] != '<' && text[|text| - 1] != '>'
    ensures Bracketed(line) == Some(text)
  {
    hide TrimEnd, LeadingWs, RunLength, Reverse, TrimBlanks;
    var t := Run('<', n) + text + Run('>', m);
    assert line == a + t + c && t[0] == '<' && t[|t| - 1] == '>';
    TrimOf(a, t, c);
    OpensWith(n, text, m);
    EndsWith(n, text, m);
    assert t[n..|t| - m] == text;
  }

  lemma OpensWith(n: nat, text: string, m: nat)
    requires text != "" && text[0] != '<'
    ensures RunLength(Run('<', n) + text + Run('>', m), '<') == n
  {
    hide RunLength;
    var rest := text + Run('>', m);
    assert Run('<', n) + text + Run('>', m) == Run('<', n) + rest && rest[0] == text[0];
    RunOf('<', n, rest);
  }

  lemma EndsWith(n: nat, text: string, m: nat)
    requires text != "" && text[|text| - 1] != '>'
    ensures RunLength(Reverse(Run('<', n) + text + Run('>', m)), '>') == m
  {
    hide RunLength, Reverse;
    var front := Run('<', n) + text;
    ReverseOf(front, Run('>', m));
    ReverseRun('>', m);
    ReverseAt(front, 0);
    RunOf('>', m, Reverse(front));
  }

  lemma EndsInRun(t: string, c: char)
    ensures var m := RunLength(Reverse(t), c); m <= |t| && t[|t| - m..] == Run(c, m)
  {
    hide RunLength, Reverse;
    ReverseOf(t, "");
    var m := RunLength(Reverse(t), c);
    RunHas(Reverse(t), c);
    var end := t[|t| - m..];
    forall k | 0 <= k < m ensures end[k] == c {
      ReverseAt(t, m - 1 - k);
      assert Reverse(t)[m - 1 - k] == Run(c, m)[m - 1 - k];
    }
  }

  lemma BracketedHas(line: string) returns (a: string, n: nat, m: nat, c: string)
    requires Bracketed(line).Some?
    ensures BracketsWith(line, a, n, Bracketed(line).value, m, c)
  {
    hide TrimEnd, LeadingWs, RunLength, Reverse, TrimBlanks;
    var t := TrimBlanks(line);
    a, c := TrimHas(line);
    n, m := RunLength(t, '<'), RunLength(Reverse(t), '>');
    RunHas(t, '<');
    EndsInRun(t, '>');
    assert t == t[..n] + t[n..|t| - m] + t[|t| - m..];
    assert t[..n] == Run('<', n);
    ThreeInside(a, t[..n], t[n..|t| - m], t[|t| - m..], c);
  }

  lemma ThreeInside(a: string, x: string, y: string, z: string, c: string)
    ensures a + (x + y + z) + c == a + x + y + z + c
  {
  }

  /** `<<<FILE: text>>>`: the word in any case, and text without a closing bracket. */
  lemma FileOpenOf(line: string, a: string, n: nat, word: string, text: string, m: nat, c: string)
    requires SameWord(word, "FILE:") && text != "" && '>' !in text && BracketsWith(line, a, n, word + text, m, c)
    ensures FileOpenText(line) == Some(text)
  {
    hide Bracketed;
    CaseFolds(word, "FILE:");
    assert SameLetter(word[0], 'F') && (word + text)[0] == word[0];
    assert (word + text)[|word + text| - 1] == text[|text| - 1] && text[|text| - 1] in text;
    BracketedOf(line, a, n, word + text, m, c);
    var all := word + text;
    assert all[..5] == word;
    assert all[5..] == text && '>' !in word by {
      forall i | 0 <= i < |word| ensures word[i] != '>' {
        assert SameLetter(word[i], "FILE:"[i]);
      }
    }
  }

  lemma FileOpenHas(line: string) returns (a: string, n: nat, word: string, m: nat, c: string)
    requires FileOpenText(line).Some?
    ensures var text := FileOpenText(line).value;
      SameWord(word, "FILE:") && text != "" && '>' !in text && BracketsWith(line, a, n, word + text, m, c)
  {
    hide Bracketed;
    a, n, m, c := BracketedHas(line);
    var all := Bracketed(line).value;
    word := all[..5];
    assert all == word + all[5..];
    CaseFolds(word, "FILE:");
  }

  lemma FileCloseIff(line: string)
    ensures IsFileClose(line) <==>
      exists a: string, n: nat, word: string, m: nat, c: string :: ClosesWith(line, a, n, word, m, c)
  {
    hide Bracketed;
    if IsFileClose(line) {
      var a, n, m, c := BracketedHas(line);
      CaseFolds(Bracketed(line).value, "END_FILE");
      assert ClosesWith(line, a, n, Bracketed(line).value, m, c);
    }
    if a: string, n: nat, word: string, m: nat, c: string :| ClosesWith(line, a, n, word, m, c) {
      CaseFolds(word, "END_FILE");
      assert SameLetter(word[0], 'E') && SameLetter(word[7], 'E');
      BracketedOf(line, a, n, word, m, c);
    }
  }

  /** `<<<END_FILE>>>`, the word in any case. */
  predicate ClosesWith(line: string, a: string, n: nat, word: string, m: nat, c: string) {
    SameWord(word, "END_FILE") && BracketsWith(line, a, n, word, m, c)
  }

  /** A header sets the file to what its text names. */
  lemma HeaderTargets(line: string, a: string, n: nat, rest: string, current: Option<string>,
                      known: Option<set<string>>)
    requires HeadsWith(line, a, n, rest)
    ensures Target(line, current, known) == Some(KnownPath(CleanPath(TrimBlanks(rest)), known))
  {
    HeaderOf(line, a, n, rest);
    hide KnownPath, CleanPath, TrimBlanks, HeaderText;
  }

  /** So does an opening FILE marker. */
  lemma FileOpenTargets(line: string, a: string, n: nat, word: string, text: string, m: nat, c: string,
                        current: Option<string>, known: Option<set<string>>)
    requires SameWord(word, "FILE:") && text != "" && '>' !in text && BracketsWith(line, a, n, word + text, m, c)
    ensures Target(line, current, known) == Some(KnownPath(CleanPath(text), known))
  {
    hide KnownPath, CleanPath, HeaderText, FileOpenText, SameWord;
    FileOpenOf(line, a, n, word, text, m, c);
    IsNoHeader(line, a, Run('<', n) + (word + text) + Run('>', m) + c);
  }

  /** A closing marker sets it to none, and any other line leaves it. */
  lemma OtherwiseTargets(line: string, current: Option<string>, known: Option<set<string>>)
    ensures IsFileClose(line) ==> Target(line, current, known) == None
    ensures HeaderText(line) == None && FileOpenText(line) == None && !IsFileClose(line) ==>
              Target(line, current, known) == current
  {
    if IsFileClose(line) {
      CloseIsNeither(line);
    }
    hide HeaderText, FileOpenText, IsFileClose, KnownPath, CleanPath;
  }

  lemma IsNoHeader(line: string, a: string, rest: string)
    requires AllBlank(a) && rest != "" && rest[0] == '<' && line == a + rest
    ensures HeaderText(line) == None
  {
    LeadingWsUnique(line, a);
    assert line[|a|..] == rest;
  }

  lemma CloseIsNeither(line: string)
    requires IsFileClose(line)
    ensures HeaderText(line) == None && FileOpenText(line) == None
  {
    hide Bracketed, HeaderText;
    var a, n, m, c := BracketedHas(line);
    var word := Bracketed(line).value;
    assert Upper(word[0]) == 'E';
    IsNoHeader(line, a, Run('<', n) + word + Run('>', m) + c);
  }

  // ----- from a header's text to a path

  predicate AllAre(s: string, c: char) {
    forall i :: 0 <= i < |s| ==> s[i] == c
  }

  lemma {:induction false} DropLeadingOf(a: string, t: string, c: char)
    requires AllAre(a, c) && (t != "" ==> t[0] != c)
    ensures DropLeading(a + t, c) == t
  {
    if a == "" {
      assert a + t == t;
    } else {
      assert (a + t)[1..] == a[1..] + t;
      DropLeadingOf(a[1..], t, c);
    }
  }

  lemma {:induction false} DropTrailingOf(t: string, b: string, c: char)
    requires AllAre(b, c) && (t != "" ==> t[|t| - 1] != c)
    ensures DropTrailing(t + b, c) == t
    decreases |b|
  {
    if b == "" {
      assert t + b == t;
    } else {
      assert (t + b)[|t + b| - 1] == b[|b| - 1] && (t + b)[..|t + b| - 1] == t + b[..|b| - 1];
      DropTrailingOf(t, b[..|b| - 1], c);
    }
  }

  lemma {:induction false} LStripOf(a: string, t: string)
    requires AllSpace(a) && (t != "" ==> !IsSpace(t[0]))
    ensures LStrip(a + t) == t
  {
    if a == "" {
      assert a + t == t;
    } else {
      assert (a + t)[1..] == a[1..] + t;
      LStripOf(a[1..], t);
    }
  }

  lemma {:induction false} RStripOf(t: string, b: string)
    requires AllSpace(b) && (t != "" ==> !IsSpace(t[|t| - 1]))
    ensures RStrip(t + b) == t
    decreases |b|
  {
    if b == "" {
      assert t + b == t;
    } else {
      assert (t + b)[|t + b| - 1] == b[|b| - 1] && (t + b)[..|t + b| - 1] == t + b[..|b| - 1];
      RStripOf(t, b[..|b| - 1]);
    }
  }

  lemma StripOf(a: string, t: string, b: string)
    requires AllSpace(a) && AllSpace(b) && t != "" && !IsSpace(t[0]) && !IsSpace(t[|t| - 1])
    ensures Strip(a + t + b) == t
  {
    assert (a + t)[|a + t| - 1] == t[|t| - 1];
    RStripOf(a + t, b);
    LStripOf(a, t);
  }

  /** A name with no whitespace and no backquote at its ends. */
  predicate IsBareName(s: string) {
    s != "" && !IsSpace(s[0]) && !IsSpace(s[|s| - 1]) && s[0] != '`' && s[|s| - 1] != '`'
  }

  /** A path loses the whitespace, the backquotes and the leading slashes around it. */
  lemma CleanPathOf(a: string, q: string, slashes: string, w: string, core: string, r: string, b: string)
    requires AllSpace(a) && AllAre(q, '`') && AllAre(slashes, '/') && AllSpace(w) && AllAre(r, '`') && AllSpace(b)
    requires IsBareName(core) && core[0] != '/' && (slashes == "" ==> w == "")
    ensures CleanPath(a + (q + (slashes + (w + core)) + r) + b) == core
  {
    hide Strip, DropLeading, DropTrailing;
    var inner := slashes + (w + core);
    assert inner[|inner| - 1] == core[|core| - 1];
    assert inner[0] == (if slashes == "" then core[0] else slashes[0]);
    var quoted := q + inner + r;
    assert quoted[0] == if q == "" then inner[0] else q[0];
    assert quoted[|quoted| - 1] == if r == "" then inner[|inner| - 1] else r[|r| - 1];
    StripOf(a, quoted, b);
    assert quoted == q + (inner + r) && (inner + r)[0] == inner[0];
    DropLeadingOf(q, inner + r, '`');
    DropTrailingOf(inner, r, '`');
    assert (w + core)[0] == if w == "" then core[0] else w[0];
    SlashIsNoSpace(w);
    DropLeadingOf(slashes, w + core, '/');
    assert "" + core + "" == core && w + core + "" == w + core;
    StripOf(w, core, "");
  }

  lemma SlashIsNoSpace(w: string)
    requires AllSpace(w)
    ensures w != "" ==> w[0] != '/'
    ensures !IsSpace('/') && !IsSpace('`')
  {
  }

  // ----- from a path to a file that is known

  /** A path that is known, or where nothing is, stands; and nothing else is made of any path but a known one. */
  lemma KnownPathStands(path: string, known: Option<set<string>>)
    ensures known == None || path in known.value ==> KnownPath(path, known) == path
    ensures KnownPath(path, known) == path || (known.Some? && KnownPath(path, known) in known.value)
  {
    hide BeforeParenthetical, BeforeLabel, Strip, DropLeading, DropTrailing;
  }

  lemma {:induction false} OpenParenOf(s: string, tail: string)
    requires forall i :: 0 <= i < |tail| ==> tail[i] != '(' && tail[i] != ')'
    ensures OpenParen(s + "(" + tail) == Some(|s|)
    decreases |tail|
  {
    var all := s + "(" + tail;
    if tail == "" {
      assert all[|all| - 1] == '(';
    } else {
      assert all[|all| - 1] == tail[|tail| - 1] && all[..|all| - 1] == s + "(" + tail[..|tail| - 1];
      OpenParenOf(s, tail[..|tail| - 1]);
    }
  }

  /** A known file with a parenthesis after it, apart by a blank, is that file. */
  lemma ParentheticalIsDropped(head: string, blanks: string, tail: string, known: Option<set<string>>)
    requires head != "" && !IsSpace(head[|head| - 1]) && blanks != "" && AllBlank(blanks)
    requires forall i :: 0 <= i < |tail| ==> tail[i] != '(' && tail[i] != ')'
    requires var path := head + blanks + "(" + tail + ")";
      known.Some? && path !in known.value && head in known.value
    ensures KnownPath(head + blanks + "(" + tail + ")", known) == head
  {
    hide TrimEnd, OpenParen;
    var path, pre := head + blanks + "(" + tail + ")", head + blanks;
    assert path[|path| - 1] == ')' && path[..|path| - 1] == pre + "(" + tail;
    OpenParenOf(pre, tail);
    assert (pre + "(" + tail)[..|pre|] == pre;
    SpaceHoldsBlank(head[|head| - 1]);
    TrimEndOf(head, blanks);
    assert path[..|path| - 1][..|pre|] == pre && path[..|pre|] == pre;
    hide BeforeLabel, Strip, DropLeading, DropTrailing;
    assert BeforeParenthetical(path) == Some(head);
  }

  lemma SpaceHoldsBlank(c: char)
    ensures IsBlank(c) ==> IsSpace(c)
  {
  }

  lemma {:induction false} BeforeLabelOf(first: string, rest: string)
    requires forall i :: 0 <= i < |first| ==> !IsBlank(first[i])
    requires forall i :: 0 <= i < |first| - 1 ==> !(first[i] == ':' && IsBlank(first[i + 1]))
    requires first != "" ==> first[|first| - 1] != ':'
    requires rest == "" || IsBlank(rest[0]) || (rest[0] == ':' && |rest| > 1 && IsBlank(rest[1]))
    ensures BeforeLabel(first + rest) == first
  {
    if first == "" {
      assert first + rest == rest;
    } else {
      var all := first + rest;
      assert all[1..] == first[1..] + rest;
      assert |first| > 1 ==> all[1] == first[1];
      BeforeLabelOf(first[1..], rest);
      assert [first[0]] + first[1..] == first;
    }
  }

  /**
   A known file with a label after it, apart by a blank or by a colon and a blank, is that file, in backquotes or
   not; unless the whole path, or what stands before a parenthesis at its end, is a known file itself.
   */
  lemma LabelIsDropped(q: string, first: string, r: string, rest: string, known: Option<set<string>>)
    requires AllAre(q, '`') && AllAre(r, '`') && IsBareName(first) && first[|first| - 1] != ':'
    requires forall i :: 0 <= i < |first| ==> !IsBlank(first[i])
    requires rest != "" && (IsBlank(rest[0]) || (rest[0] == ':' && |rest| > 1 && IsBlank(rest[1])))
    requires known.Some? && q + first + r + rest !in known.value && first in known.value
    requires BeforeParenthetical(q + first + r + rest).Some? ==>
               BeforeParenthetical(q + first + r + rest).value !in known.value
    ensures KnownPath(q + first + r + rest, known) == first
  {
    hide BeforeParenthetical, Strip, DropLeading, DropTrailing, BeforeLabel;
    var quoted := q + first + r;
    assert quoted[|quoted| - 1] == if r == "" then first[|first| - 1] else r[|r| - 1];
    assert quoted[0] == if q == "" then first[0] else q[0];
    forall i | 0 <= i < |quoted| ensures !IsBlank(quoted[i]) {
      assert quoted[i] == if i < |q| then q[i] else if i < |q| + |first| then first[i - |q|] else r[i - |q| - |first|];
    }
    BeforeLabelOf(quoted, rest);
    SlashIsNoSpace("");
    assert "" + quoted + "" == quoted;
    StripOf("", quoted, "");
    assert quoted == q + (first + r) && (first + r)[0] == first[0];
    DropLeadingOf(q, first + r, '`');
    DropTrailingOf(first, r, '`');
  }

  // ----- what comes of a SEARCH marker

  /** The first marker at or after `from`, or the end of the lines. */
  predicate NextMarker(lines: seq<string>, from: nat, k: nat) {
    && from <= k <= |lines| && (forall i :: from <= i < k ==> !IsMarker(lines[i]))
    && (k < |lines| ==> IsMarker(lines[k]))
  }

  /**
   The next marker must be a divider and the one after it a REPLACE, and a file must have been named; the block is then
   what stands between them. If not, a note says what is missing and for which file, and the scan goes on at the marker
   that was not expected, or after the block that no file was named for.
   */
  lemma MarkersDecide(rest: seq<string>, at: nat, current: Option<string>, s: nat, t: nat)
    requires NextMarker(rest, 0, s)
    requires s < |rest| && IsDivider(rest[s]) ==> NextMarker(rest, s + 1, t)
    ensures var (event, used) := ReadBlock(rest, at, current);
      if s == |rest| || !IsDivider(rest[s]) then event == Broken(at, Note(NoDivider, current)) && used == s
      else if t == |rest| || !IsReplace(rest[t]) then
        event == Broken(at, Note(NoTerminator, current)) && used == t
      else if current == None then event == Broken(at, Note(NoHeader, None)) && used == t + 1
      else
        && event == Found(at, current.value, EditBlock(Join(rest[..s]), Join(rest[s + 1..t]))) && used == t + 1
  {
    hide IsFence, IsMarker, IsDivider, IsReplace, Join;
    BodyEnds(rest, s);
    if s < |rest| && IsDivider(rest[s]) {
      var body := rest[s + 1..];
      assert forall i :: 0 <= i < |body| ==> body[i] == rest[s + 1 + i];
      BodyEnds(body, t - s - 1);
      assert body[..t - s - 1] == rest[s + 1..t];
    }
  }

  lemma BodyEnds(lines: seq<string>, k: nat)
    requires NextMarker(lines, 0, k)
    ensures BodyLength(lines) == k
  {
    hide IsFence, IsMarker;
    var n := BodyLength(lines);
  }
}
