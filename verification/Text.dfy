/** Whitespace-separated words and newline-separated lines, as `operator>>` and
    `std::getline` read them.  A `string` stands for a `std::string`. */
module Text {

  /** The six characters the "C" locale counts as white space: blank and \t \n \v \f \r. */
  predicate IsSpace(c: char) {
    c == ' ' || 9 <= c as int <= 13
  }

  /** A token is what a successful `>>` delivers: a nonempty run without white space. */
  predicate IsToken(s: string) {
    s != "" && forall i :: 0 <= i < |s| ==> !IsSpace(s[i])
  }

  predicate Blank(s: string) {
    forall i :: 0 <= i < |s| ==> IsSpace(s[i])
  }

  predicate NoNewline(s: string) {
    forall i :: 0 <= i < |s| ==> s[i] != '\n'
  }

  function SkipSpaces(s: string): (r: string)
    ensures r == "" || !IsSpace(r[0])
    ensures |r| <= |s|
  {
    if s != "" && IsSpace(s[0]) then SkipSpaces(s[1..]) else s
  }

  /** Length of the leading run of characters that are not white space. */
  function WordLength(s: string): (n: nat)
    ensures n <= |s|
    ensures forall i :: 0 <= i < n ==> !IsSpace(s[i])
    ensures n < |s| ==> IsSpace(s[n])
  {
    if s != "" && !IsSpace(s[0]) then 1 + WordLength(s[1..]) else 0
  }

  /** `stream >> word`: the word read ("" when the stream runs dry, as the target starts
      out empty) and what is left in the stream. */
  function Extract(s: string): (r: (string, string))
    ensures r.0 == "" || IsToken(r.0)
    ensures r.0 == "" ==> r.1 == ""
  {
    var t := SkipSpaces(s);
    var n := WordLength(t);
    (t[..n], t[n..])
  }

  lemma {:induction false} SkipPadding(pad: string, s: string)
    requires Blank(pad)
    requires s == "" || !IsSpace(s[0])
    ensures SkipSpaces(pad + s) == s
  {
    if pad == "" {
      assert pad + s == s;
    } else {
      assert (pad + s)[1..] == pad[1..] + s;
      SkipPadding(pad[1..], s);
    }
  }

  /** Extraction finds the first token, whatever white space stands before it. */
  lemma ExtractToken(pad: string, word: string, rest: string)
    requires Blank(pad) && IsToken(word)
    requires rest == "" || IsSpace(rest[0])
    ensures Extract(pad + word + rest) == (word, rest)
  {
    var t := word + rest;
    assert pad + word + rest == pad + t;
    assert t[0] == word[0];
    SkipPadding(pad, t);
    var n := WordLength(t);
    assert forall i :: 0 <= i < |word| ==> t[i] == word[i];
    assert rest != "" ==> t[|word|] == rest[0];
    assert n == |word|;
    assert t[..n] == word && t[n..] == rest;
  }

  lemma ExtractBlank(s: string)
    requires Blank(s)
    ensures Extract(s) == ("", "")
  {
    SkipPadding(s, "");
    assert s + "" == s;
  }

  // Lines.

  /** Index of the first newline, or the length when there is none. */
  function LineEnd(s: string): (n: nat)
    ensures n <= |s|
    ensures NoNewline(s[..n])
    ensures n < |s| ==> s[n] == '\n'
  {
    if s == "" || s[0] == '\n' then 0
    else
      var n := 1 + LineEnd(s[1..]);
      assert s[..n] == [s[0]] + s[1..][..n - 1];
      n
  }

  /** What `std::getline` leaves after taking one line off a nonempty stream. */
  function AfterLine(s: string): (r: string)
    requires s != ""
    ensures |r| < |s|
  {
    var n := LineEnd(s);
    if n < |s| then s[n + 1..] else ""
  }

  /** All lines `std::getline` delivers until it fails. */
  function Lines(s: string): (r: seq<string>)
    ensures forall i :: 0 <= i < |r| ==> NoNewline(r[i])
    decreases |s|
  {
    if s == "" then [] else [s[..LineEnd(s)]] + Lines(AfterLine(s))
  }

  /** The text written by `<< line << std::endl` for each line in turn. */
  function Unlines(ls: seq<string>): (r: string)
    ensures LineTerminated(r)
  {
    if ls == [] then "" else ls[0] + "\n" + Unlines(ls[1..])
  }

  predicate LineTerminated(s: string) {
    s == "" || s[|s| - 1] == '\n'
  }

  lemma {:induction false} FirstNewline(line: string, rest: string)
    requires NoNewline(line)
    ensures LineEnd(line + "\n" + rest) == |line|
  {
    var s := line + "\n" + rest;
    var n := LineEnd(s);
    assert s[|line|] == '\n';
    assert forall i :: 0 <= i < |line| ==> s[i] == line[i];
    assert forall i :: 0 <= i < n ==> s[..n][i] == s[i];
  }

  lemma LinesCons(line: string, rest: string)
    requires NoNewline(line)
    ensures Lines(line + "\n" + rest) == [line] + Lines(rest)
  {
    var s := line + "\n" + rest;
    FirstNewline(line, rest);
    assert s[..|line|] == line;
    assert s[|line| + 1..] == rest;
  }

  /** Reading back a file written line by line returns the lines. */
  lemma {:induction false} LinesOfUnlines(ls: seq<string>)
    requires forall i :: 0 <= i < |ls| ==> NoNewline(ls[i])
    ensures Lines(Unlines(ls)) == ls
  {
    if ls != [] {
      LinesCons(ls[0], Unlines(ls[1..]));
      LinesOfUnlines(ls[1..]);
    }
  }

  lemma CutAtNewline(s: string, n: nat)
    requires n < |s| && s[n] == '\n'
    ensures s == s[..n] + "\n" + s[n + 1..]
    ensures LineTerminated(s) ==> LineTerminated(s[n + 1..])
  {
  }

  lemma LineEndInside(file: string)
    requires LineTerminated(file) && file != ""
    ensures LineEnd(file) < |file|
  {
    var n := LineEnd(file);
    assert forall i :: 0 <= i < n ==> file[..n][i] == file[i];
  }

  lemma Regroup<T>(a: seq<T>, b: seq<T>, c: seq<T>)
    ensures a + b + c == a + (b + c)
  {
  }

  lemma {:induction false} UnlinesSnoc(lines: seq<string>, line: string)
    ensures Unlines(lines + [line]) == Unlines(lines) + (line + "\n")
    decreases |lines|
  {
    if lines == [] {
      assert [] + [line] == [line];
      assert Unlines([line]) == line + "\n" + Unlines([]);
    } else {
      assert (lines + [line])[1..] == lines[1..] + [line];
      UnlinesSnoc(lines[1..], line);
      Regroup(lines[0] + "\n", Unlines(lines[1..]), line + "\n");
    }
  }

  lemma LinesAppendStep(first: string, rest: string, line: string)
    requires NoNewline(first)
    requires Lines(rest + (line + "\n")) == Lines(rest) + [line]
    ensures Lines(first + "\n" + rest + (line + "\n")) == Lines(first + "\n" + rest) + [line]
  {
    LinesCons(first, rest);
    LinesCons(first, rest + (line + "\n"));
    Regroup(first + "\n", rest, line + "\n");
    Regroup([first], Lines(rest), [line]);
  }

  /** Appending one line to a file whose last line is complete adds exactly that line. */
  lemma {:induction false} LinesAppend(file: string, line: string)
    requires LineTerminated(file) && NoNewline(line)
    ensures Lines(file + (line + "\n")) == Lines(file) + [line]
    decreases |file|
  {
    if file == "" {
      assert file + (line + "\n") == line + "\n" + "";
      LinesCons(line, "");
    } else {
      LineEndInside(file);
      var n := LineEnd(file);
      CutAtNewline(file, n);
      LinesAppend(file[n + 1..], line);
      LinesAppendStep(file[..n], file[n + 1..], line);
    }
  }
}
