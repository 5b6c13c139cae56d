/** The character-count line breaker `wrapTextHelper` (script.js:186-213).
    Widths are never measured: a line holds `CharsPerLine(fontSize, maxWidth)`
    characters, text without a `' '` that is too long is cut into fixed-size
    chunks, and everything else is packed greedily word by word. */
module LineWrap {

  /** `lines.slice(0, 8)`: no result ever has more lines than this. */
  const MaxLines: nat := 8

  function Min(a: int, b: int): int { if a <= b then a else b }

  /** `Math.floor(maxWidth / (fontSize * 0.56))`: the number of characters of
      estimated width `fontSize * 0.56` that fit in `maxWidth`. */
  function CharsPerLine(fontSize: int, maxWidth: real): nat
    requires fontSize > 0 && maxWidth >= 0.0
  {
    (maxWidth / (fontSize as real * 0.56)).Floor
  }

  /** `CharsPerLine` is the largest count whose total estimated width fits. */
  lemma CharsPerLineBounds(fontSize: int, maxWidth: real)
    requires fontSize > 0 && maxWidth >= 0.0
    ensures var n := CharsPerLine(fontSize, maxWidth);
      n as real * (fontSize as real * 0.56) <= maxWidth &&
      maxWidth < (n + 1) as real * (fontSize as real * 0.56)
  {
    var charWidth := fontSize as real * 0.56;
    var q := maxWidth / charWidth;
    assert q * charWidth == maxWidth;
    var n := q.Floor;
    assert n == CharsPerLine(fontSize, maxWidth);
    assert q < (n + 1) as real;
    assert ((n + 1) as real - q) * charWidth > 0.0;
    assert (n + 1) as real * charWidth == q * charWidth + ((n + 1) as real - q) * charWidth;
    assert maxWidth < (n + 1) as real * charWidth;
    assert (q - n as real) * charWidth >= 0.0;
    assert q * charWidth == n as real * charWidth + (q - n as real) * charWidth;
  }

  /** The branch condition of script.js:191: no space and longer than a line. */
  predicate HardSplitMode(text: string, maxChars: int)
  {
    ' ' !in text && |text| > maxChars
  }

  /** `lines.slice(0, MaxLines)` */
  function Cap(lines: seq<string>): seq<string>
  {
    if |lines| <= MaxLines then lines else lines[..MaxLines]
  }

  /** The pieces `s.substring(i, i + maxChars)` for i = 0, maxChars, 2*maxChars, ...
      while i < |s| (substring clamps its end at |s|). */
  function Chunks(s: string, maxChars: nat): seq<string>
    requires maxChars > 0
    decreases |s|
  {
    if |s| == 0 then []
    else
      var k := Min(maxChars, |s|);
      [s[..k]] + Chunks(s[k..], maxChars)
  }

  /** The strings of `parts` written one after the other. */
  function Concat(parts: seq<string>): string
  {
    if |parts| == 0 then [] else parts[0] + Concat(parts[1..])
  }

  /** `words.join(' ')` */
  function Join(words: seq<string>): string
  {
    if |words| == 0 then []
    else if |words| == 1 then words[0]
    else words[0] + " " + Join(words[1..])
  }

  /** `s.split(' ')`: cuts at every single `' '`; an empty string or two
      adjacent spaces give empty words, and there is always at least one word. */
  function Split(s: string): (words: seq<string>)
    ensures |words| >= 1
  {
    if |s| == 0 then [""]
    else
      var rest := Split(s[1..]);
      if s[0] == ' ' then [""] + rest
      else [[s[0]] + rest[0]] + rest[1..]
  }

  /** The greedy packing of script.js:199-210, from the remaining `words` and
      the line under construction (`""` means no line is open, as `line` is
      falsy in the source). */
  function Pack(words: seq<string>, line: string, maxChars: nat): seq<string>
    decreases |words|
  {
    if |words| == 0 then (if line != "" then [line] else [])
    else
      var word := words[0];
      var test := if line != "" then line + " " + word else word;
      if |test| > maxChars && line != "" then [line] + Pack(words[1..], word, maxChars)
      else Pack(words[1..], test, maxChars)
  }

  /** What `wrapTextHelper` returns once `maxCharsPerLine` is known. */
  function Wrap(text: string, maxChars: nat): seq<string>
    requires HardSplitMode(text, maxChars) ==> maxChars > 0
  {
    if HardSplitMode(text, maxChars) then Cap(Chunks(text, maxChars))
    else Cap(Pack(Split(text), "", maxChars))
  }

  /** `wrapTextHelper(text, fontSize, maxWidth)`. The hard-split loop only
      advances when at least one character fits on a line, so that is what it
      demands when it is taken. */
  method WrapTextHelper(text: string, fontSize: int, maxWidth: real) returns (lines: seq<string>)
    requires fontSize > 0 && maxWidth >= 0.0
    requires HardSplitMode(text, CharsPerLine(fontSize, maxWidth)) ==> CharsPerLine(fontSize, maxWidth) > 0
    ensures lines == Wrap(text, CharsPerLine(fontSize, maxWidth))
    ensures |lines| <= MaxLines
  {
    var maxChars := CharsPerLine(fontSize, maxWidth);
    var hasSpaces := ' ' in text;
    if !hasSpaces && |text| > maxChars {
      var all := HardSplit(text, maxChars);
      lines := Cap(all);
    } else {
      var done := PackWords(Split(text), maxChars);
      lines := Cap(done);
    }
  }

  /** The hard-split loop of script.js:192-195: `substring(i, i + maxChars)`
      for i = 0, maxChars, 2*maxChars, ... while i < |text|. */
  method HardSplit(text: string, maxChars: nat) returns (all: seq<string>)
    requires maxChars > 0
    ensures all == Chunks(text, maxChars)
  {
    all := [];
    var i := 0;
    while i < |text|
      invariant 0 <= i
      invariant all + Chunks(text[Min(i, |text|)..], maxChars) == Chunks(text, maxChars)
      decreases |text| - i
    {
      ChunksStep(text, i, maxChars);
      all := all + [text[i..Min(i + maxChars, |text|)]];
      i := i + maxChars;
    }
  }

  /** The packing loop of script.js:199-210 over the words of `split(' ')`. */
  method PackWords(words: seq<string>, maxChars: nat) returns (done: seq<string>)
    ensures done == Pack(words, "", maxChars)
  {
    done := [];
    var line := "";
    for j := 0 to |words|
      invariant done + Pack(words[j..], line, maxChars) == Pack(words, "", maxChars)
    {
      var word := words[j];
      assert words[j..][1..] == words[j + 1..];
      var test := if line != "" then line + " " + word else word;
      if |test| > maxChars && line != "" {
        done := done + [line];
        line := word;
      } else {
        line := test;
      }
    }
    if line != "" {
      done := done + [line];
    }
  }

  /** One turn of the hard-split loop: the chunks from `i` on are the chunk at
      `i` followed by the chunks from the next start. */
  lemma ChunksStep(text: string, i: nat, maxChars: nat)
    requires maxChars > 0 && i < |text|
    ensures Chunks(text[i..], maxChars)
      == [text[i..Min(i + maxChars, |text|)]] + Chunks(text[Min(i + maxChars, |text|)..], maxChars)
  {
    var rest := text[i..];
    assert rest[..Min(maxChars, |rest|)] == text[i..Min(i + maxChars, |text|)];
    assert rest[Min(maxChars, |rest|)..] == text[Min(i + maxChars, |text|)..];
  }

  // ---------------------------------------------------------------------
  // Cap

  lemma CapShape(lines: seq<string>)
    ensures |Cap(lines)| == Min(|lines|, MaxLines)
    ensures Cap(lines) <= lines
  {
  }

  lemma {:induction false} ConcatPrefix(parts: seq<string>, k: nat)
    requires k <= |parts|
    ensures Concat(parts[..k]) <= Concat(parts)
    decreases k
  {
    if k > 0 {
      ConcatPrefix(parts[1..], k - 1);
      assert parts[..k][1..] == parts[1..][..k - 1];
      var head, small, big := parts[0], Concat(parts[1..][..k - 1]), Concat(parts[1..]);
      assert Concat(parts[..k]) == head + small;
      assert Concat(parts) == head + big;
      assert (head + big)[..|head + small|] == head + small;
    }
  }

  lemma JoinCons(a: string, ws: seq<string>)
    requires |ws| >= 1
    ensures Join([a] + ws) == a + " " + Join(ws)
  {
    assert ([a] + ws)[1..] == ws;
  }

  lemma {:induction false} JoinPrefix(parts: seq<string>, k: nat)
    requires k <= |parts|
    ensures Join(parts[..k]) <= Join(parts)
    decreases k
  {
    if k == |parts| {
      assert parts[..k] == parts;
    } else if k == 1 {
      assert parts[..k] == [parts[0]];
      JoinCons(parts[0], parts[1..]);
      assert [parts[0]] + parts[1..] == parts;
    } else if k > 1 {
      JoinPrefix(parts[1..], k - 1);
      assert parts[..k] == [parts[0]] + parts[1..][..k - 1];
      JoinCons(parts[0], parts[1..][..k - 1]);
      JoinCons(parts[0], parts[1..]);
      assert [parts[0]] + parts[1..] == parts;
      var head, small, big := parts[0] + " ", Join(parts[1..][..k - 1]), Join(parts[1..]);
      assert (head + big)[..|head + small|] == head + small;
    }
  }

  // ---------------------------------------------------------------------
  // Hard-split mode (script.js:191-196)

  lemma {:induction false} ChunksShape(s: string, maxChars: nat)
    requires maxChars > 0
    ensures var c := Chunks(s, maxChars);
      (forall j :: 0 <= j < |c| ==> 0 < |c[j]| <= maxChars) &&
      (forall j :: 0 <= j < |c| - 1 ==> |c[j]| == maxChars) &&
      Concat(c) == s
    decreases |s|
  {
    if |s| > 0 {
      var k := Min(maxChars, |s|);
      ChunksShape(s[k..], maxChars);
      var c, rest := Chunks(s, maxChars), Chunks(s[k..], maxChars);
      assert c == [s[..k]] + rest;
      assert c[1..] == rest;
      assert |rest| > 0 ==> k == maxChars;
      assert s[..k] + s[k..] == s;
    }
  }

  lemma DivStep(a: nat, m: nat)
    requires m > 0
    ensures (a + m) / m == a / m + 1
  {
    var q, r := a / m, a % m;
    assert a == q * m + r;
    assert a + m == (q + 1) * m + r;
    DivUnique(a + m, m, q + 1, r);
  }

  lemma MulAtLeast(k: int, m: int)
    requires k >= 1 && m > 0
    ensures k * m >= m
  {
  }

  lemma DivUnique(x: nat, m: nat, q: int, r: int)
    requires m > 0 && 0 <= r < m && x == q * m + r
    ensures x / m == q
  {
    var q', r' := x / m, x % m;
    assert (q - q') * m == r' - r;
    if q' < q { MulAtLeast(q - q', m); }
    if q' > q { MulAtLeast(q' - q, m); }
  }

  lemma {:induction false} ChunksCount(s: string, maxChars: nat)
    requires maxChars > 0
    ensures |Chunks(s, maxChars)| == (|s| + maxChars - 1) / maxChars
    decreases |s|
  {
    var m := maxChars;
    if |s| == 0 {
      DivUnique(m - 1, m, 0, m - 1);
    } else if |s| <= m {
      DivUnique(|s| + m - 1, m, 1, |s| - 1);
      assert s[|s|..] == [];
    } else {
      ChunksCount(s[m..], m);
      DivStep(|s| - m + m - 1, m);
    }
  }

  /** In hard-split mode the lines are the first (at most eight) chunks of
      `maxChars` characters: none empty or longer than a line, all but the last
      full, together a prefix of the text and the whole text when no chunk was
      dropped. */
  lemma HardSplitLines(text: string, maxChars: nat)
    requires maxChars > 0 && HardSplitMode(text, maxChars)
    ensures var lines := Wrap(text, maxChars);
      |lines| == Min(MaxLines, (|text| + maxChars - 1) / maxChars) &&
      (forall j :: 0 <= j < |lines| ==> 0 < |lines[j]| <= maxChars) &&
      (forall j :: 0 <= j < |lines| - 1 ==> |lines[j]| == maxChars) &&
      Concat(lines) <= text &&
      ((|text| + maxChars - 1) / maxChars <= MaxLines ==> Concat(lines) == text)
  {
    var c := Chunks(text, maxChars);
    ChunksShape(text, maxChars);
    ChunksCount(text, maxChars);
    ConcatPrefix(c, |Cap(c)|);
    assert Cap(c) == c[..|Cap(c)|];
  }

  // ---------------------------------------------------------------------
  // Split and Join are inverse

  lemma SplitJoin(s: string)
    ensures Join(Split(s)) == s
    ensures forall k :: 0 <= k < |Split(s)| ==> ' ' !in Split(s)[k]
  {
    SplitRoundTrip(s);
    SplitWordsHaveNoSpace(s);
  }

  lemma {:induction false} SplitRoundTrip(s: string)
    ensures Join(Split(s)) == s
    decreases |s|
  {
    if |s| > 0 {
      var rest := Split(s[1..]);
      SplitRoundTrip(s[1..]);
      if s[0] == ' ' {
        JoinCons("", rest);
        assert s == [' '] + s[1..];
      } else {
        var first := [s[0]] + rest[0];
        assert Split(s) == [first] + rest[1..];
        if |rest| == 1 {
          assert Split(s) == [first];
          assert s == [s[0]] + s[1..];
        } else {
          JoinCons(first, rest[1..]);
          JoinCons(rest[0], rest[1..]);
          assert [rest[0]] + rest[1..] == rest;
          assert s == [s[0]] + s[1..];
        }
      }
    }
  }

  lemma {:induction false} SplitWordsHaveNoSpace(s: string)
    ensures forall k :: 0 <= k < |Split(s)| ==> ' ' !in Split(s)[k]
    decreases |s|
  {
    if |s| > 0 {
      var rest := Split(s[1..]);
      SplitWordsHaveNoSpace(s[1..]);
      if s[0] != ' ' {
        var first := [s[0]] + rest[0];
        assert ' ' !in first;
        assert Split(s) == [first] + rest[1..];
        forall k | 0 <= k < |Split(s)| ensures ' ' !in Split(s)[k] {
          if k > 0 {
            assert Split(s)[k] == rest[k];
          }
        }
      }
    }
  }

  lemma {:induction false} SplitWithoutSpace(s: string)
    requires ' ' !in s
    ensures Split(s) == [s]
    decreases |s|
  {
    if |s| > 0 {
      assert ' ' !in s[1..] by {
        forall k | 0 <= k < |s[1..]| ensures s[1..][k] != ' ' { assert s[1..][k] == s[k + 1]; }
      }
      SplitWithoutSpace(s[1..]);
      assert [s[0]] + s[1..] == s;
    }
  }

  // ---------------------------------------------------------------------
  // Word-wrap mode (script.js:197-211)

  /** `line` is a run of consecutive words of `words` joined with single spaces. */
  ghost predicate IsRun(line: string, words: seq<string>)
  {
    exists a, b :: 0 <= a < b <= |words| && line == Join(words[a..b])
  }

  lemma {:induction false} JoinSnoc(ws: seq<string>, w: string)
    requires |ws| >= 1
    ensures Join(ws + [w]) == Join(ws) + " " + w
    decreases |ws|
  {
    var longer := ws + [w];
    if |ws| == 1 {
      assert longer == [ws[0], w];
      assert longer[1..] == [w];
    } else {
      var tail := ws[1..];
      JoinSnoc(tail, w);
      assert longer[0] == ws[0] && longer[1..] == tail + [w];
      calc {
        Join(longer);
        ws[0] + " " + Join(tail + [w]);
        ws[0] + " " + (Join(tail) + " " + w);
        (ws[0] + " " + Join(tail)) + " " + w;
        Join(ws) + " " + w;
      }
    }
  }

  lemma RunAt(line: string, words: seq<string>, a: nat, b: nat)
    requires a < b <= |words| && line == Join(words[a..b])
    ensures IsRun(line, words)
  {
  }

  /** Adding the next word to an open run keeps it a run. */
  lemma RunExtends(words: seq<string>, start: nat, i: nat, line: string)
    requires start < i < |words| && line == Join(words[start..i])
    ensures line + " " + words[i] == Join(words[start..i + 1])
  {
    var run := words[start..i];
    assert words[start..i + 1] == run + [words[i]];
    JoinSnoc(run, words[i]);
  }

  /** Each line the packing pushes is a run of consecutive words; `start` is
      where the open `line` begins in `words` when one is open. */
  lemma {:induction false} PackRuns(words: seq<string>, i: nat, start: nat, line: string, maxChars: nat)
    requires i <= |words|
    requires line == "" || (start < i && line == Join(words[start..i]))
    ensures forall l :: l in Pack(words[i..], line, maxChars) ==> IsRun(l, words)
    decreases |words| - i, 1
  {
    if i == |words| {
      assert words[i..] == [];
      if line != "" {
        RunAt(line, words, start, i);
      }
    } else if line != "" && |line + " " + words[i]| > maxChars {
      PackRunsClose(words, i, start, line, maxChars);
    } else if line == "" {
      PackRunsOpen(words, i, maxChars);
    } else {
      PackRunsGrow(words, i, start, line, maxChars);
    }
  }

  /** The turn that pushes the open line and opens a new one at word `i`. */
  lemma {:induction false} PackRunsClose(words: seq<string>, i: nat, start: nat, line: string, maxChars: nat)
    requires i < |words| && start < i && line == Join(words[start..i])
    requires line != "" && |line + " " + words[i]| > maxChars
    ensures forall l :: l in Pack(words[i..], line, maxChars) ==> IsRun(l, words)
    decreases |words| - i, 0
  {
    var word := words[i];
    assert words[i..][0] == word && words[i..][1..] == words[i + 1..];
    var rest := Pack(words[i + 1..], word, maxChars);
    assert Pack(words[i..], line, maxChars) == [line] + rest;
    RunAt(line, words, start, i);
    assert words[i..i + 1] == [word];
    PackRuns(words, i + 1, i, word, maxChars);
    assert forall l :: l in [line] + rest ==> l == line || l in rest;
  }

  /** The turn that opens a line with word `i`. */
  lemma {:induction false} PackRunsOpen(words: seq<string>, i: nat, maxChars: nat)
    requires i < |words|
    ensures forall l :: l in Pack(words[i..], "", maxChars) ==> IsRun(l, words)
    decreases |words| - i, 0
  {
    var word := words[i];
    assert words[i..][0] == word && words[i..][1..] == words[i + 1..];
    assert Pack(words[i..], "", maxChars) == Pack(words[i + 1..], word, maxChars);
    assert words[i..i + 1] == [word];
    PackRuns(words, i + 1, i, word, maxChars);
  }

  /** The turn that adds word `i` to the open line. */
  lemma {:induction false} PackRunsGrow(words: seq<string>, i: nat, start: nat, line: string, maxChars: nat)
    requires i < |words| && start < i && line == Join(words[start..i])
    requires line != "" && |line + " " + words[i]| <= maxChars
    ensures forall l :: l in Pack(words[i..], line, maxChars) ==> IsRun(l, words)
    decreases |words| - i, 0
  {
    var word := words[i];
    var test := line + " " + word;
    assert words[i..][0] == word && words[i..][1..] == words[i + 1..];
    assert Pack(words[i..], line, maxChars) == Pack(words[i + 1..], test, maxChars);
    RunExtends(words, start, i, line);
    PackRuns(words, i + 1, start, test, maxChars);
  }

  lemma {:induction false} PackLines(words: seq<string>, line: string, maxChars: nat, vocabulary: seq<string>)
    requires forall k :: 0 <= k < |words| ==> words[k] in vocabulary
    requires |line| <= maxChars || line in vocabulary
    ensures forall l :: l in Pack(words, line, maxChars) ==> l != "" && (|l| <= maxChars || l in vocabulary)
    decreases |words|
  {
    if |words| > 0 {
      var word := words[0];
      var test := if line != "" then line + " " + word else word;
      assert forall k :: 0 <= k < |words[1..]| ==> words[1..][k] == words[k + 1];
      if |test| > maxChars && line != "" {
        PackLines(words[1..], word, maxChars, vocabulary);
      } else {
        PackLines(words[1..], test, maxChars, vocabulary);
      }
    }
  }

  /** An open line is pushed: the first line that comes out is the open line,
      or the open line with more words after it. */
  lemma {:induction false} PackOpenLine(words: seq<string>, line: string, maxChars: nat)
    requires line != ""
    ensures |Pack(words, line, maxChars)| >= 1 && line <= Pack(words, line, maxChars)[0]
    decreases |words|
  {
    if |words| > 0 {
      var word := words[0];
      var test := line + " " + word;
      if !(|test| > maxChars) {
        PackOpenLine(words[1..], test, maxChars);
        assert line <= test;
      }
    }
  }

  lemma {:induction false} PackJoin(words: seq<string>, line: string, maxChars: nat)
    requires forall k :: 0 <= k < |words| ==> words[k] != ""
    ensures Join(Pack(words, line, maxChars)) == if line == "" then Join(words) else Join([line] + words)
    decreases |words|, 1
  {
    if |words| > 0 {
      if line == "" {
        var word, tail := words[0], words[1..];
        assert [word] + tail == words;
        assert forall k :: 0 <= k < |tail| ==> tail[k] == words[k + 1];
        PackJoin(tail, word, maxChars);
      } else if |line + " " + words[0]| > maxChars {
        PackJoinClose(words, line, maxChars);
      } else {
        PackJoinGrow(words, line, maxChars);
      }
    }
  }

  /** The turn that pushes the open line. */
  lemma {:induction false} PackJoinClose(words: seq<string>, line: string, maxChars: nat)
    requires forall k :: 0 <= k < |words| ==> words[k] != ""
    requires |words| > 0 && line != "" && |line + " " + words[0]| > maxChars
    ensures Join(Pack(words, line, maxChars)) == Join([line] + words)
    decreases |words|, 0
  {
    var word, tail := words[0], words[1..];
    assert [word] + tail == words;
    assert forall k :: 0 <= k < |tail| ==> tail[k] == words[k + 1];
    var rest := Pack(tail, word, maxChars);
    assert Pack(words, line, maxChars) == [line] + rest;
    PackJoin(tail, word, maxChars);
    PackOpenLine(tail, word, maxChars);
    JoinCons(line, rest);
    JoinCons(line, words);
  }

  /** The turn that adds the next word to the open line. */
  lemma {:induction false} PackJoinGrow(words: seq<string>, line: string, maxChars: nat)
    requires forall k :: 0 <= k < |words| ==> words[k] != ""
    requires |words| > 0 && line != "" && |line + " " + words[0]| <= maxChars
    ensures Join(Pack(words, line, maxChars)) == Join([line] + words)
    decreases |words|, 0
  {
    var word, tail := words[0], words[1..];
    assert [word] + tail == words;
    assert forall k :: 0 <= k < |tail| ==> tail[k] == words[k + 1];
    var test := line + " " + word;
    assert Pack(words, line, maxChars) == Pack(tail, test, maxChars);
    PackJoin(tail, test, maxChars);
    JoinCons(line, words);
    if |tail| > 0 {
      JoinCons(test, tail);
      JoinCons(word, tail);
    } else {
      assert words == [word];
    }
  }

  /** The first word of `a + " " + b` is the first word of `a`. */
  lemma {:induction false} SplitHead(a: string, b: string)
    ensures Split(a + " " + b)[0] == Split(a)[0]
    decreases |a|
  {
    var s := a + " " + b;
    if |a| > 0 && a[0] != ' ' {
      assert s[1..] == a[1..] + " " + b;
      SplitHead(a[1..], b);
    }
  }

  /** A line breaks only where it must: each line but the last, followed by a
      space and the first word of the next line, is longer than the limit. */
  ghost predicate BreaksGreedily(lines: seq<string>, maxChars: nat)
  {
    forall j :: 0 <= j < |lines| - 1 ==> |lines[j]| + 1 + |Split(lines[j + 1])[0]| > maxChars
  }

  /** The packing loop closes a line only when `line + ' ' + word` would pass
      the limit, and the line it leaves open keeps its first word. */
  lemma {:induction false} PackGreedy(words: seq<string>, line: string, maxChars: nat)
    requires forall k :: 0 <= k < |words| ==> ' ' !in words[k]
    ensures BreaksGreedily(Pack(words, line, maxChars), maxChars)
    ensures line != "" ==>
      |Pack(words, line, maxChars)| >= 1 && Split(Pack(words, line, maxChars)[0])[0] == Split(line)[0]
    decreases |words|
  {
    if |words| > 0 {
      var word, tail := words[0], words[1..];
      assert forall k :: 0 <= k < |tail| ==> tail[k] == words[k + 1];
      var test := if line != "" then line + " " + word else word;
      if |test| > maxChars && line != "" {
        PackGreedy(tail, word, maxChars);
        var rest := Pack(tail, word, maxChars);
        if word != "" {
          SplitWithoutSpace(word);
          assert |Split(rest[0])[0]| == |word|;
        }
        assert Pack(words, line, maxChars) == [line] + rest;
      } else {
        PackGreedy(tail, test, maxChars);
        if line != "" {
          SplitHead(line, word);
        }
      }
    }
  }

  /** In word-wrap mode no line could have taken the first word of the line
      after it: the greedy rule of script.js:202-203. */
  lemma WordWrapGreedy(text: string, maxChars: nat)
    requires !HardSplitMode(text, maxChars)
    ensures BreaksGreedily(Wrap(text, maxChars), maxChars)
  {
    var packed := Pack(Split(text), "", maxChars);
    SplitJoin(text);
    PackGreedy(Split(text), "", maxChars);
    CapShape(packed);
    var lines := Cap(packed);
    assert lines == packed[..|lines|];
    forall j | 0 <= j < |lines| - 1
      ensures |lines[j]| + 1 + |Split(lines[j + 1])[0]| > maxChars
    {
      assert lines[j] == packed[j] && lines[j + 1] == packed[j + 1];
    }
  }

  /** In word-wrap mode there are at most eight lines, none empty, each made of
      whole consecutive words of `text.split(' ')`, and a line longer than the
      limit is one word, which holds no space. */
  lemma WordWrapLines(text: string, maxChars: nat)
    requires !HardSplitMode(text, maxChars)
    ensures var lines := Wrap(text, maxChars);
      |lines| <= MaxLines &&
      forall l :: l in lines ==>
        l != "" && IsRun(l, Split(text)) && (|l| > maxChars ==> l in Split(text) && ' ' !in l)
  {
    var words := Split(text);
    var packed := Pack(words, "", maxChars);
    assert words[0..] == words;
    PackRuns(words, 0, 0, "", maxChars);
    PackLines(words, "", maxChars, words);
    SplitJoin(text);
    CapShape(packed);
    forall l | l in Cap(packed) ensures l in packed {
      assert Cap(packed) <= packed;
    }
  }

  /** When `text.split(' ')` gives no empty word, the packed lines joined with
      spaces are the text itself, and after the eight-line cap a prefix of it. */
  lemma WordWrapJoin(text: string, maxChars: nat)
    requires !HardSplitMode(text, maxChars)
    requires forall k :: 0 <= k < |Split(text)| ==> Split(text)[k] != ""
    ensures Join(Pack(Split(text), "", maxChars)) == text
    ensures Join(Wrap(text, maxChars)) <= text
    ensures |Pack(Split(text), "", maxChars)| <= MaxLines ==> Join(Wrap(text, maxChars)) == text
  {
    var packed := Pack(Split(text), "", maxChars);
    PackJoin(Split(text), "", maxChars);
    SplitJoin(text);
    JoinPrefix(packed, |Cap(packed)|);
    assert Cap(packed) == packed[..|Cap(packed)|];
  }

  lemma EmptyTextHasNoLines(maxChars: nat)
    ensures Wrap("", maxChars) == []
  {
    assert Split("") == [""];
    assert Pack([""], "", maxChars) == Pack([], "", maxChars);
  }

  /** 100 letters without a space at font size 32 in 880 pixels: 49 characters
      per line, so ceil(100 / 49) = 3 chunks. */
  lemma HundredLettersInThreeChunks(text: string)
    requires |text| == 100 && forall k :: 0 <= k < |text| ==> text[k] == 'A'
    ensures CharsPerLine(32, 880.0) == 49
    ensures |Wrap(text, 49)| == 3
  {
    assert forall k :: 0 <= k < |text| ==> text[k] != ' ';
    HardSplitLines(text, 49);
  }
}
