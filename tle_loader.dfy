/**
 * Loading a two-line element set (TLE) from the lines of a text file: every
 * line is stripped of surrounding whitespace, blank lines and lines starting
 * with '#' are dropped, and the first three remaining lines are the name,
 * line 1 and line 2, which must start with "1 " and "2 ". The file read is
 * not modelled: the loader takes the file's lines as read, terminators
 * included.
 */
module TleLoader {
  import opened Wrappers

  /** The characters Python's `str.isspace` accepts, which `str.strip()` removes. */
  predicate IsSpace(c: char): (r: bool)
    ensures c == ' ' || c == '\t' || c == '\n' || c == '\r' ==> r
    ensures '0' <= c <= '9' || 'A' <= c <= 'Z' || 'a' <= c <= 'z' || c == '.' || c == '-' || c == '+' || c == '#' ==> !r
  {
    || ('\t' <= c <= '\r')                     // tab, line feed, vertical tab, form feed, carriage return
    || ('\U{1C}' <= c <= '\U{1F}')             // file, group, record and unit separators
    || c == ' ' || c == '\U{85}' || c == '\U{A0}'
    || c == '\U{1680}' || ('\U{2000}' <= c <= '\U{200A}')
    || c == '\U{2028}' || c == '\U{2029}' || c == '\U{202F}' || c == '\U{205F}' || c == '\U{3000}'
  }

  /** `s.lstrip()`: the suffix left after dropping leading whitespace. */
  function StripStart(s: string): (r: string)
    ensures |r| <= |s| && r == s[|s| - |r|..]
    ensures forall i :: 0 <= i < |s| - |r| ==> IsSpace(s[i])
    ensures r != [] ==> !IsSpace(r[0])
  {
    if s != [] && IsSpace(s[0]) then StripStart(s[1..]) else s
  }

  /** `s.rstrip()`: the prefix left after dropping trailing whitespace. */
  function StripEnd(s: string): (r: string)
    ensures |r| <= |s| && r == s[..|r|]
    ensures forall i :: |r| <= i < |s| ==> IsSpace(s[i])
    ensures r != [] ==> !IsSpace(r[|r| - 1])
  {
    if s != [] && IsSpace(s[|s| - 1]) then StripEnd(s[..|s| - 1]) else s
  }

  /** No whitespace at either end. */
  predicate Trimmed(s: string)
  {
    s == [] || (!IsSpace(s[0]) && !IsSpace(s[|s| - 1]))
  }

  /** `s.strip()` */
  function Strip(s: string): (r: string)
    ensures Trimmed(r)
  {
    var a := StripStart(s);
    var r := StripEnd(a);
    assert r != [] ==> r[0] == a[0];
    r
  }

  /** A string without whitespace at its ends is its own stripped form. */
  lemma StripTrimmed(s: string)
    requires Trimmed(s)
    ensures Strip(s) == s
  {
  }

  /** Stripping is idempotent. */
  lemma StripIdempotent(s: string)
    ensures Strip(Strip(s)) == Strip(s)
  {
    StripTrimmed(Strip(s));
  }

  /** A line's stripped form is empty exactly when the line is all whitespace. */
  lemma StripEmptyIffBlank(s: string)
    ensures Strip(s) == [] <==> forall i :: 0 <= i < |s| ==> IsSpace(s[i])
  {
    var a := StripStart(s);
  }

  /** A line that does not start with whitespace keeps its first character. */
  lemma StripKeepsFirst(s: string)
    requires s != [] && !IsSpace(s[0])
    ensures Strip(s) != [] && Strip(s)[0] == s[0]
  {
    assert StripStart(s) == s;
    assert StripEnd(s) != [];
  }

  /** Leading whitespace makes no difference to `lstrip`, and so none to `strip`. */
  lemma {:induction false} StripStartSkipsSpace(p: string, t: string)
    requires forall i :: 0 <= i < |p| ==> IsSpace(p[i])
    ensures StripStart(p + t) == StripStart(t) && Strip(p + t) == Strip(t)
  {
    if p == [] {
      assert p + t == t;
    } else {
      assert (p + t)[0] == p[0] && IsSpace(p[0]);
      assert (p + t)[1..] == p[1..] + t;
      assert StripStart(p + t) == StripStart(p[1..] + t);
      StripStartSkipsSpace(p[1..], t);
    }
  }

  /** A trimmed line followed by a line terminator strips back to itself. */
  lemma StripTerminatedLine(s: string)
    requires Trimmed(s)
    ensures Strip(s + "\n") == s
  {
    if s == [] {
      assert StripStart("\n") == StripStart([]);
    } else {
      assert StripStart(s + "\n") == s + "\n";
      assert (s + "\n")[..|s + "\n"| - 1] == s;
    }
  }

  /** A stripped line the loader keeps: non-empty and not a '#' comment. */
  predicate IsContent(line: string)
  {
    line != [] && line[0] != '#'
  }

  /** The stripped lines that survive the blank and comment filter, in order. */
  function ContentLines(raw: seq<string>): (r: seq<string>)
    ensures |r| <= |raw|
    ensures forall i :: 0 <= i < |r| ==> IsContent(r[i]) && Trimmed(r[i])
  {
    if raw == [] then []
    else
      var line := Strip(raw[0]);
      var rest := ContentLines(raw[1..]);
      if IsContent(line) then [line] + rest else rest
  }

  /** Filtering distributes over concatenation of files. */
  lemma {:induction false} ContentLinesAppend(a: seq<string>, b: seq<string>)
    ensures ContentLines(a + b) == ContentLines(a) + ContentLines(b)
  {
    if a == [] {
      assert a + b == b;
    } else {
      var x, tail := a[0], a[1..];
      var head := if IsContent(Strip(x)) then [Strip(x)] else [];
      ContentLinesAppend(tail, b);
      SplitFirst(a, b);
      ContentLinesCons(x, tail + b);
      ContentLinesCons(x, tail);
      Regroup(head, ContentLines(tail), ContentLines(b));
    }
  }

  lemma SplitFirst<T>(a: seq<T>, b: seq<T>)
    requires a != []
    ensures a == [a[0]] + a[1..] && a + b == [a[0]] + (a[1..] + b)
  {
  }

  lemma Regroup<T>(p: seq<T>, q: seq<T>, r: seq<T>)
    ensures p + (q + r) == (p + q) + r
  {
  }

  /** The first raw line contributes its stripped form when that is content, and nothing otherwise. */
  lemma ContentLinesCons(x: string, rest: seq<string>)
    ensures ContentLines([x] + rest) == (if IsContent(Strip(x)) then [Strip(x)] else []) + ContentLines(rest)
  {
    assert ([x] + rest)[1..] == rest;
  }

  datatype Tle = Tle(name: string, line1: string, line2: string)

  datatype TleError =
    | TooFewLines     // fewer than three content lines
    | BadLinePrefix   // line 1 does not start with "1 " or line 2 with "2 "

  predicate StartsWith(s: string, prefix: string)
  {
    |prefix| <= |s| && s[..|prefix|] == prefix
  }

  /** `load_tle`, on the file's lines. */
  function LoadTle(raw: seq<string>): (r: Result<Tle, TleError>)
    ensures |ContentLines(raw)| < 3 <==> r == Failure(TooFewLines)
    ensures r.Success? ==>
              && IsContent(r.value.name) && Trimmed(r.value.name) && Trimmed(r.value.line1) && Trimmed(r.value.line2)
              && StartsWith(r.value.line1, "1 ") && StartsWith(r.value.line2, "2 ")
  {
    var content := ContentLines(raw);
    if |content| < 3 then Failure(TooFewLines)
    else if !(StartsWith(content[1], "1 ") && StartsWith(content[2], "2 ")) then Failure(BadLinePrefix)
    else Success(Tle(content[0], content[1], content[2]))
  }

  /** A file with fewer than three lines is always rejected for having too few. */
  lemma ShortFileRejected(raw: seq<string>)
    requires |raw| < 3
    ensures LoadTle(raw) == Failure(TooFewLines)
  {
  }

  /**
   * With three content lines or more, the outcome is decided by the first
   * three: they are the result when both element lines carry their prefixes.
   */
  lemma FirstThreeDecide(raw: seq<string>)
    requires |ContentLines(raw)| >= 3
    ensures var c := ContentLines(raw);
            LoadTle(raw) == if StartsWith(c[1], "1 ") && StartsWith(c[2], "2 ") then Success(Tle(c[0], c[1], c[2]))
                            else Failure(BadLinePrefix)
  {
  }

  /** The outcome depends on the content lines alone. */
  lemma SameContentSameOutcome(a: seq<string>, b: seq<string>)
    requires ContentLines(a) == ContentLines(b)
    ensures LoadTle(a) == LoadTle(b)
  {
  }

  /** Inserting a blank or comment line anywhere leaves the outcome unchanged. */
  lemma SkippedLineIgnored(before: seq<string>, line: string, after: seq<string>)
    requires !IsContent(Strip(line))
    ensures LoadTle(before + [line] + after) == LoadTle(before + after)
  {
    var cb, ca := ContentLines(before), ContentLines(after);
    assert ContentLines([line]) == [] by {
      assert [line][1..] == [];
    }
    ContentLinesAppend(before, [line]);
    ContentLinesAppend(before + [line], after);
    ContentLinesAppend(before, after);
    assert cb + [] == cb;
    SameContentSameOutcome(before + [line] + after, before + after);
  }

  /** Once three content lines have been read, whatever follows is ignored. */
  lemma TrailingLinesIgnored(raw: seq<string>, more: seq<string>)
    requires |ContentLines(raw)| >= 3
    ensures LoadTle(raw + more) == LoadTle(raw)
  {
    ContentLinesAppend(raw, more);
    var c := ContentLines(raw);
    var d := ContentLines(raw + more);
    assert d[0] == c[0] && d[1] == c[1] && d[2] == c[2];
    FirstThreeDecide(raw);
    FirstThreeDecide(raw + more);
  }

  /** A file holding the given lines, each followed by a line terminator, as `readlines()` returns them. */
  function Written(lines: seq<string>): (raw: seq<string>)
    ensures |raw| == |lines| && forall i :: 0 <= i < |lines| ==> raw[i] == lines[i] + "\n"
  {
    seq(|lines|, i requires 0 <= i < |lines| => lines[i] + "\n")
  }

  /** Writing content lines out and filtering them gives them back. */
  lemma {:induction false} WrittenContentReadsBack(lines: seq<string>)
    requires forall i :: 0 <= i < |lines| ==> IsContent(lines[i]) && Trimmed(lines[i])
    ensures ContentLines(Written(lines)) == lines
  {
    if lines != [] {
      var raw := Written(lines);
      assert raw[1..] == Written(lines[1..]);
      WrittenContentReadsBack(lines[1..]);
      WrittenLineKept(raw, lines[0]);
      assert ContentLines(raw) == [lines[0]] + lines[1..];
    }
  }

  /** A written content line survives the filter as itself. */
  lemma WrittenLineKept(raw: seq<string>, line: string)
    requires IsContent(line) && Trimmed(line) && raw != [] && raw[0] == line + "\n"
    ensures ContentLines(raw) == [line] + ContentLines(raw[1..])
  {
    StripTerminatedLine(line);
  }

  /**
   * Writing a name and two element lines with the right prefixes, one per
   * line, and loading them back gives the same three strings.
   */
  lemma WrittenTleLoadsBack(t: Tle)
    requires IsContent(t.name) && Trimmed(t.name) && Trimmed(t.line1) && Trimmed(t.line2)
    requires StartsWith(t.line1, "1 ") && StartsWith(t.line2, "2 ")
    ensures LoadTle(Written([t.name, t.line1, t.line2])) == Success(t)
  {
    assert IsContent(t.line1) && IsContent(t.line2) by {
      assert t.line1[0] == "1 "[0] && t.line2[0] == "2 "[0];
    }
    var lines := [t.name, t.line1, t.line2];
    assert forall i :: 0 <= i < |lines| ==> IsContent(lines[i]) && Trimmed(lines[i]);
    WrittenContentReadsBack(lines);
    FirstThreeDecide(Written(lines));
  }
}
