/**
 * The AI answer panel of src/components/common/AIResponse.js: what it shows
 * while loading, on error, with no content, and the light Markdown-to-HTML
 * transform it applies line by line to the answer.
 */
module AIResponse {
  import opened JsStrings
  import opened Options

  // ---------------------------------------------------------------------
  // Bold runs: line.replace(/\*\*(.*?)\*\*/g, '<strong>$1</strong>')
  // ---------------------------------------------------------------------

  /** A `**` starts at position i of s. */
  predicate PairAt(s: string, i: int)
  {
    0 <= i && i + 1 < |s| && s[i] == '*' && s[i + 1] == '*'
  }

  predicate HasPair(s: string)
  {
    exists i :: 0 <= i < |s| && PairAt(s, i)
  }

  /**
   * Text that can sit between `**` and `**` as one run: no `**` inside, no
   * line terminator, and no '*' at its end (that '*' would close the run early).
   */
  predicate Plain(x: string)
  {
    && !HasPair(x)
    && (forall i :: 0 <= i < |x| ==> !IsLineTerminator(x[i]))
    && (x == [] || x[|x| - 1] != '*')
  }

  /** A line terminator occurs in s between positions k (inclusive) and j. */
  predicate TerminatorBetween(s: string, k: int, j: int)
  {
    exists i :: 0 <= k <= i < j <= |s| && IsLineTerminator(s[i])
  }

  /**
   * Where the lazy `(.*?)` opened just before position k stops: the first
   * `**` at or after k, provided no line terminator comes before it (the
   * regular-expression dot does not cross one). None when there is none.
   */
  function Close(s: string, k: nat): (r: Option<nat>)
    requires k <= |s|
    ensures r.Some? ==> k <= r.value && PairAt(s, r.value)
    ensures r.Some? ==> forall i :: k <= i < r.value ==> !PairAt(s, i)
    ensures r.Some? ==> forall i :: k <= i < r.value ==> !IsLineTerminator(s[i])
    ensures r.None? ==> forall j :: k <= j && PairAt(s, j) ==> TerminatorBetween(s, k, j)
    decreases |s| - k
  {
    if PairAt(s, k) then Some(k)
    else if k < |s| && !IsLineTerminator(s[k]) then Close(s, k + 1)
    else None
  }

  /**
   * The global replacement: scanning left to right, each `**` that has a
   * closing `**` on the same line, with the shortest text between, becomes
   * a `<strong>` element; every other character is copied.
   */
  function Bold(s: string): (r: string)
    decreases |s|
  {
    if PairAt(s, 0) && Close(s, 2).Some? then
      var k := Close(s, 2).value;
      "<strong>" + s[2..k] + "</strong>" + Bold(s[k + 2..])
    else if s == [] then []
    else [s[0]] + Bold(s[1..])
  }

  /** Reverses Bold on text that had no '<' of its own: both tags become `**` again. */
  function Unbold(s: string): (r: string)
    decreases |s|
  {
    if StartsWith(s, "<strong>") then "**" + Unbold(s[8..])
    else if StartsWith(s, "</strong>") then "**" + Unbold(s[9..])
    else if s == [] then []
    else [s[0]] + Unbold(s[1..])
  }

  /** A line with no `**` at all comes out unchanged. */
  lemma {:induction false} BoldWithoutPair(s: string)
    requires !HasPair(s)
    ensures Bold(s) == s
  {
    if s != [] {
      assert !PairAt(s, 0);
      assert !HasPair(s[1..]) by {
        forall i | PairAt(s[1..], i) ensures PairAt(s, i + 1) {}
      }
      BoldWithoutPair(s[1..]);
      assert s == [s[0]] + s[1..];
    }
  }

  /** Every `**` of s lacks a closing `**` on its line, so no run starts anywhere. */
  predicate NoClosedRun(s: string)
  {
    forall i :: 0 <= i < |s| && PairAt(s, i) ==> Close(s, i + 2).None?
  }

  /** A `**` that is never closed on its line is copied as it is: "2 ** 3" stays "2 ** 3". */
  lemma {:induction false} BoldUnclosed(s: string)
    requires NoClosedRun(s)
    ensures Bold(s) == s
    decreases |s|
  {
    if s != [] {
      var t := s[1..];
      forall i | 0 <= i < |t| && PairAt(t, i) ensures Close(t, i + 2).None? {
        assert PairAt(s, i + 1);
        CloseShift(s, i + 3);
      }
      BoldUnclosed(t);
      assert s == [s[0]] + t;
    }
  }

  /** Dropping the first character shifts where Close looks, not whether it finds a `**`. */
  lemma {:induction false} CloseShift(s: string, k: nat)
    requires 1 <= k <= |s|
    ensures Close(s[1..], k - 1).None? <==> Close(s, k).None?
    decreases |s| - k
  {
    var t := s[1..];
    assert PairAt(t, k - 1) <==> PairAt(s, k);
    if !PairAt(s, k) && k < |s| {
      assert t[k - 1] == s[k];
      if !IsLineTerminator(s[k]) {
        CloseShift(s, k + 1);
      }
    }
  }

  /** `**x**` with plain text x becomes `<strong>x</strong>`. */
  lemma BoldSingleRun(x: string)
    requires Plain(x)
    ensures Bold("**" + x + "**") == "<strong>" + x + "</strong>"
  {
    BoldRunThen(x, []);
    assert "**" + x + "**" + [] == "**" + x + "**";
  }

  /** A run `**x**` with plain x is replaced, and the scan goes on after it. */
  lemma BoldRunThen(x: string, t: string)
    requires Plain(x)
    ensures Bold("**" + x + "**" + t) == "<strong>" + x + "</strong>" + Bold(t)
  {
    var s := "**" + x + "**" + t;
    var k := |x| + 2;
    CloseAfterPlain(x);
    assert s[..k + 2] == "**" + x + "**";
    CloseOfPrefix(s, k + 2, 2);
    assert PairAt(s, 0) && s[2..k] == x && s[k + 2..] == t;
    BoldAtRun(s, k);
  }

  /** Both runs of a line with two are replaced, and the plain text between is kept. */
  lemma BoldTwoRuns(x: string, mid: string, y: string)
    requires Plain(x) && Plain(y)
    requires !HasPair(mid) && (mid == [] || mid[|mid| - 1] != '*')
    ensures Bold("**" + x + "**" + (mid + ("**" + y + "**")))
         == "<strong>" + x + "</strong>" + (mid + ("<strong>" + y + "</strong>"))
  {
    var e: string := [];
    BoldAfterPlain(mid, y, e);
    assert Bold(e) == e;
    assert "**" + y + "**" + e == "**" + y + "**";
    assert "<strong>" + y + "</strong>" + e == "<strong>" + y + "</strong>";
    BoldRunThen(x, mid + ("**" + y + "**"));
  }

  /** Close only looks as far as the `**` it finds, so text after it does not matter. */
  lemma {:induction false} CloseOfPrefix(s: string, n: nat, k: nat)
    requires k <= n <= |s| && Close(s[..n], k).Some?
    ensures Close(s, k) == Close(s[..n], k)
    decreases n - k
  {
    if !PairAt(s[..n], k) {
      assert k < n && s[k] == s[..n][k];
      CloseOfPrefix(s, n, k + 1);
    }
  }

  /**
   * Wherever a run sits on the line, it is replaced: after a prefix p that
   * holds no `**` and does not end in '*', the first `**x**` with plain x
   * becomes `<strong>x</strong>`, p is copied, and the rest of the line is
   * scanned in turn. Applied to the rest again, this is the global `g` flag.
   */
  lemma {:induction false} BoldAfterPlain(p: string, x: string, t: string)
    requires !HasPair(p) && (p == [] || p[|p| - 1] != '*')
    requires Plain(x)
    ensures Bold(p + ("**" + x + "**" + t)) == p + ("<strong>" + x + "</strong>" + Bold(t))
    decreases |p|
  {
    var r := "**" + x + "**" + t;
    var u := "<strong>" + x + "</strong>" + Bold(t);
    if p == [] {
      assert p + r == r && p + u == u;
      BoldRunThen(x, t);
    } else {
      var s := p + r;
      assert s[0] == p[0];
      assert !PairAt(s, 0) by {
        if |p| > 1 {
          assert s[1] == p[1] && !PairAt(p, 0);
        }
      }
      assert !HasPair(p[1..]) by {
        forall i | PairAt(p[1..], i) ensures PairAt(p, i + 1) {}
      }
      assert s[1..] == p[1..] + r;
      BoldAfterPlain(p[1..], x, t);
      AppendAssoc([p[0]], p[1..], u);
      assert p == [p[0]] + p[1..];
    }
  }

  /** Bold at the opening of a run that closes at k. */
  lemma BoldAtRun(s: string, k: nat)
    requires PairAt(s, 0) && Close(s, 2) == Some(k)
    ensures Bold(s) == "<strong>" + s[2..k] + "</strong>" + Bold(s[k + 2..])
  {
  }

  /** In `**x**` with plain x, the run opened at the start closes at the end. */
  lemma CloseAfterPlain(x: string)
    requires Plain(x)
    ensures Close("**" + x + "**", 2) == Some(|x| + 2)
  {
    var s := "**" + x + "**";
    var k := |x| + 2;
    forall i | 2 <= i < k ensures !PairAt(s, i) && !IsLineTerminator(s[i]) {
      assert s[i] == x[i - 2];
      if i + 1 < k {
        assert s[i + 1] == x[i - 1];
        assert !PairAt(x, i - 2);
      }
    }
    assert PairAt(s, k);
    CloseFindsFirst(s, 2, k);
  }

  /** Close stops at the first `**` when nothing before it blocks the way. */
  lemma {:induction false} CloseFindsFirst(s: string, k: nat, j: nat)
    requires k <= j && PairAt(s, j)
    requires forall i :: k <= i < j ==> !PairAt(s, i)
    requires forall i :: k <= i < j ==> !IsLineTerminator(s[i])
    ensures Close(s, k) == Some(j)
    decreases j - k
  {
    if k < j {
      CloseFindsFirst(s, k + 1, j);
    }
  }

  /** Text without '<' passes through Unbold unchanged. */
  lemma {:induction false} UnboldPlain(x: string, t: string)
    requires '<' !in x
    ensures Unbold(x + t) == x + Unbold(t)
  {
    if x != [] {
      var s := x + t;
      assert s[0] == x[0] && s[0] != '<';
      assert !StartsWith(s, "<strong>") && !StartsWith(s, "</strong>");
      assert s[1..] == x[1..] + t;
      UnboldPlain(x[1..], t);
      assert x == [x[0]] + x[1..];
    } else {
      assert x + t == t;
    }
  }

  /** A `<strong>` element around plain text turns back into a `**` run. */
  lemma UnboldRun(x: string, t: string)
    requires '<' !in x
    ensures Unbold("<strong>" + x + "</strong>" + t) == "**" + x + "**" + Unbold(t)
  {
    var open, close := "<strong>", "</strong>";
    AppendAssoc(open + x, close, t);
    AppendAssoc(open, x, close + t);
    UnboldOpen(x + (close + t));
    UnboldPlain(x, close + t);
    UnboldClose(t);
    var bold, u := "**", Unbold(t);
    AppendAssoc(bold + x, bold, u);
    AppendAssoc(bold, x, bold + u);
  }

  lemma UnboldOpen(t: string)
    ensures Unbold("<strong>" + t) == "**" + Unbold(t)
  {
    var u := "<strong>" + t;
    assert StartsWith(u, "<strong>") && u[8..] == t;
  }

  lemma UnboldClose(t: string)
    ensures Unbold("</strong>" + t) == "**" + Unbold(t)
  {
    var u := "</strong>" + t;
    assert u[1] == '/';
    assert StartsWith(u, "</strong>") && u[9..] == t;
  }

  /** A line that opens with `**` and has another at k is a run and what follows. */
  lemma AroundRun(s: string, k: nat)
    requires PairAt(s, 0) && 2 <= k && PairAt(s, k)
    ensures s == "**" + s[2..k] + "**" + s[k + 2..]
  {
    assert s[..2] == "**" && s[k..k + 2] == "**";
    assert s == s[..2] + s[2..k] + s[k..k + 2] + s[k + 2..];
  }

  /** On text without '<', Unbold undoes Bold: the replacement loses nothing. */
  lemma {:induction false} UnboldBold(s: string)
    requires '<' !in s
    ensures Unbold(Bold(s)) == s
    decreases |s|
  {
    if PairAt(s, 0) && Close(s, 2).Some? {
      var k := Close(s, 2).value;
      var x, rest := s[2..k], s[k + 2..];
      forall i | 0 <= i < |x| ensures x[i] != '<' {
        assert x[i] == s[2 + i];
      }
      forall i | 0 <= i < |rest| ensures rest[i] != '<' {
        assert rest[i] == s[k + 2 + i];
      }
      UnboldBold(rest);
      UnboldRun(x, Bold(rest));
      AroundRun(s, k);
    } else if s != [] {
      forall i | 0 <= i < |s| - 1 ensures s[1..][i] != '<' {
        assert s[1..][i] == s[1 + i];
      }
      UnboldBold(s[1..]);
      UnboldPlain([s[0]], Bold(s[1..]));
      assert s == [s[0]] + s[1..];
    }
  }

  // ---------------------------------------------------------------------
  // Lines and the whole answer
  // ---------------------------------------------------------------------

  /**
   * One line of the answer: `## ` headings become h2, `### ` headings h3,
   * with the marker dropped and the rest trimmed; any other line gets its
   * bold runs. Headings never get bold runs.
   */
  function FormatLine(line: string): (html: string)
  {
    if StartsWith(line, "##") && !StartsWith(line, "###") then "<h2>" + Trim(line[2..]) + "</h2>"
    else if StartsWith(line, "###") then "<h3>" + Trim(line[3..]) + "</h3>"
    else Bold(line)
  }

  /** A `## ` heading becomes an h2 of the trimmed rest, whatever bold marks it holds. */
  lemma HeadingTwo(t: string)
    requires !StartsWith(t, "#")
    ensures FormatLine("##" + t) == "<h2>" + Trim(t) + "</h2>"
  {
    var line := "##" + t;
    assert line[..2] == "##" && line[2..] == t;
    assert !StartsWith(line, "###") by {
      if |t| >= 1 {
        assert line[2] == t[0];
        assert t[..1] != "#";
      }
    }
  }

  /** A `### ` heading becomes an h3 of the trimmed rest. */
  lemma HeadingThree(t: string)
    ensures FormatLine("###" + t) == "<h3>" + Trim(t) + "</h3>"
  {
    var line := "###" + t;
    assert line[..2] == "##" && line[..3] == "###" && line[3..] == t;
  }

  /** Any other line without a `**` is shown as it is. */
  lemma PlainLineUnchanged(line: string)
    requires !StartsWith(line, "##") && !HasPair(line)
    ensures FormatLine(line) == line
  {
    BoldWithoutPair(line);
  }

  /** Any other line whose `**` are never closed is shown as it is, markers included. */
  lemma UnclosedLineUnchanged(line: string)
    requires !StartsWith(line, "##") && NoClosedRun(line)
    ensures FormatLine(line) == line
  {
    BoldUnclosed(line);
  }

  function FormatLines(lines: seq<string>): (r: seq<string>)
    ensures |r| == |lines|
    ensures forall i :: 0 <= i < |lines| ==> r[i] == FormatLine(lines[i])
  {
    if lines == [] then [] else [FormatLine(lines[0])] + FormatLines(lines[1..])
  }

  /** `formatContent`: split on '\n', format each line, join with `<br>`. */
  function FormatContent(text: string): (html: string)
  {
    Join(FormatLines(Split(text, '\n')), "<br>")
  }

  /** There is one formatted segment per input line. */
  lemma SegmentPerLine(text: string)
    ensures |FormatLines(Split(text, '\n'))| == multiset(text)['\n'] + 1
  {
    SplitCount(text, '\n');
  }

  /** Text on one line is formatted as that line. */
  lemma FormatContentOneLine(text: string)
    requires '\n' !in text
    ensures FormatContent(text) == FormatLine(text)
  {
    SplitNoSep(text, '\n');
  }

  /** A line break in the input becomes `<br>`, and the two sides are formatted apart. */
  lemma FormatContentAtBreak(a: string, b: string)
    ensures FormatContent(a + "\n" + b) == FormatContent(a) + "<br>" + FormatContent(b)
  {
    SplitAppend(a, b, '\n');
    var la, lb := Split(a, '\n'), Split(b, '\n');
    FormatLinesAppend(la, lb);
    JoinAppend(FormatLines(la), FormatLines(lb), "<br>");
  }

  lemma {:induction false} FormatLinesAppend(p: seq<string>, q: seq<string>)
    ensures FormatLines(p + q) == FormatLines(p) + FormatLines(q)
  {
    if p == [] {
      assert p + q == q;
    } else {
      assert (p + q)[0] == p[0] && (p + q)[1..] == p[1..] + q;
      FormatLinesAppend(p[1..], q);
      AppendAssoc([FormatLine(p[0])], FormatLines(p[1..]), FormatLines(q));
    }
  }

  lemma {:induction false} JoinAppend(p: seq<string>, q: seq<string>, sep: string)
    requires p != [] && q != []
    ensures Join(p + q, sep) == Join(p, sep) + sep + Join(q, sep)
  {
    if |p| == 1 {
      assert (p + q)[1..] == q;
    } else {
      JoinAppend(p[1..], q, sep);
      assert (p + q)[1..] == p[1..] + q;
    }
  }

  // ---------------------------------------------------------------------
  // What the panel renders
  // ---------------------------------------------------------------------

  datatype Panel = Spinner | ErrorBox(message: string) | Nothing | Html(html: string)

  /** Loading wins over an error, an error over empty content, empty content shows nothing. */
  function Render(content: string, isLoading: bool, error: string): (r: Panel)
    ensures r.Spinner? <==> isLoading
    ensures r.ErrorBox? <==> !isLoading && error != ""
    ensures r.ErrorBox? ==> r.message == error
    ensures r.Nothing? <==> !isLoading && error == "" && content == ""
    ensures r.Html? ==> r.html == FormatContent(content)
  {
    if isLoading then Spinner
    else if error != "" then ErrorBox(error)
    else if content == "" then Nothing
    else Html(FormatContent(content))
  }
}
