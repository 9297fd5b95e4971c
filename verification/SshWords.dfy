/** Lines and words of an OpenSSH configuration file. */
module SshWords {
  import opened Wrappers
  import opened Domain

  // ----- lines -----

  function WithoutReturn(line: string): string {
    if line != "" && line[|line| - 1] == '\r' then line[..|line| - 1] else line
  }

  /** Position of the first `c`, or the length of `s`. */
  function Find(s: string, c: char): (n: nat)
    ensures n <= |s| && (n < |s| ==> s[n] == c) && c !in s[..n]
  {
    if s == "" || s[0] == c then 0 else 1 + Find(s[1..], c)
  }

  /** `str::lines`: a line ends at a newline, which may follow a carriage return. */
  function Lines(text: string): seq<string>
    decreases |text|
  {
    var n := Find(text, '\n');
    if text == "" then []
    else if n == |text| then [text]
    else [WithoutReturn(text[..n])] + Lines(text[n + 1..])
  }

  lemma {:induction false} FindIn(a: string, c: char, b: string)
    requires c !in a
    ensures Find(a + [c] + b, c) == |a|
  {
    if a != "" {
      FindIn(a[1..], c, b);
      assert (a + [c] + b)[1..] == a[1..] + [c] + b;
    }
  }

  /** A line before its newline, which a carriage return may precede. */
  function Ended(line: string, crlf: bool): string { if crlf then line + ['\r'] else line }

  /** Contains no newline, nor a carriage return that would be taken for part of its end. */
  predicate IsLine(line: string, crlf: bool) {
    '\n' !in line && (crlf || line == "" || line[|line| - 1] != '\r')
  }

  /** Lines as text, each ended in one of the two ways, and what stands behind the last end. */
  function Unlines(lines: seq<string>, crlf: bool, last: string): string {
    if lines == [] then last else Ended(lines[0], crlf) + ['\n'] + Unlines(lines[1..], crlf, last)
  }

  lemma LinesStep(first: string, rest: string)
    requires '\n' !in first
    ensures Lines(first + ['\n'] + rest) == [WithoutReturn(first)] + Lines(rest)
  {
    var text := first + ['\n'] + rest;
    FindIn(first, '\n', rest);
    assert text[..|first|] == first && text[|first| + 1..] == rest;
  }

  /** Lines written one after the other are read back in number, order and content, whether the last is ended or not. */
  lemma {:induction false} LinesRoundTrip(lines: seq<string>, crlf: bool, last: string)
    requires forall i | 0 <= i < |lines| :: IsLine(lines[i], crlf)
    requires '\n' !in last
    ensures Lines(Unlines(lines, crlf, last)) == if last == "" then lines else lines + [last]
  {
    if lines == [] {
      LastLine(last);
      assert lines + [last] == [last];
    } else {
      FirstLine(lines, crlf, last);
      LinesRoundTrip(lines[1..], crlf, last);
      assert [lines[0]] + (lines[1..] + [last]) == lines + [last];
    }
  }

  lemma FirstLine(lines: seq<string>, crlf: bool, last: string)
    requires lines != [] && IsLine(lines[0], crlf)
    ensures Lines(Unlines(lines, crlf, last)) == [lines[0]] + Lines(Unlines(lines[1..], crlf, last))
  {
    LinesStep(Ended(lines[0], crlf), Unlines(lines[1..], crlf, last));
  }

  lemma LastLine(last: string)
    requires '\n' !in last
    ensures Lines(last) == if last == "" then [] else [last]
  {
    FindNone(last, '\n');
  }

  lemma {:induction false} FindNone(s: string, c: char)
    requires c !in s
    ensures Find(s, c) == |s|
  {
    if s != "" {
      FindNone(s[1..], c);
    }
  }

  // ----- words -----

  datatype Scan = Scan(words: seq<string>, word: string, quote: Option<char>)

  const START: Scan := Scan([], "", None)

  function Step(s: Scan, c: char): Scan {
    if c == '\'' || c == '"' then
      if s.quote == Some(c) then s.(quote := None)
      else if s.quote.None? then s.(quote := Some(c))
      else s.(word := s.word + [c])
    else if IsWhitespace(c) && s.quote.None? then
      if s.word == "" then s else Scan(s.words + [s.word], "", None)
    else s.(word := s.word + [c])
  }

  /** A number sign outside quotes ends the line. */
  function ScanFrom(s: Scan, line: string): Scan
    decreases |line|
  {
    if line == "" || (s.quote.None? && line[0] == '#') then s else ScanFrom(Step(s, line[0]), line[1..])
  }

  function Finish(s: Scan): seq<string> {
    if s.word == "" then s.words else s.words + [s.word]
  }

  /** `Key=Value` and `Key = Value` both mean `Key Value`. */
  function Assignment(words: seq<string>): seq<string> {
    if words == [] then []
    else if '=' in words[0] then
      var n := Find(words[0], '=');
      [words[0][..n], words[0][n + 1..]] + words[1..]
    else if |words| > 1 && words[1] == "=" then [words[0]] + words[2..]
    else words
  }

  function Words(line: string): seq<string> {
    Assignment(Finish(ScanFrom(START, line)))
  }

  method SplitWords(line: string) returns (words: seq<string>)
    ensures words == Words(line)
  {
    words := [];
    var word, quote := "", None;
    var i := 0;
    while i < |line|
      invariant i <= |line|
      invariant ScanFrom(Scan(words, word, quote), line[i..]) == ScanFrom(START, line)
    {
      var c := line[i];
      if quote.None? && c == '#' {
        break;
      }
      if c == '\'' || c == '"' {
        if quote == Some(c) {
          quote := None;
        } else if quote.None? {
          quote := Some(c);
        } else {
          word := word + [c];
        }
      } else if IsWhitespace(c) && quote.None? {
        if word != "" {
          words, word := words + [word], "";
        }
      } else {
        word := word + [c];
      }
      i := i + 1;
      assert line[i - 1..][1..] == line[i..];
    }
    if word != "" {
      words := words + [word];
    }
    if words != [] {
      var n := Find(words[0], '=');
      if n < |words[0]| {
        words := [words[0][..n], words[0][n + 1..]] + words[1..];
      } else {
        assert words[0][..n] == words[0];
        if |words| > 1 && words[1] == "=" {
          words := [words[0]] + words[2..];
        }
      }
    }
  }

  // ----- writing words that read back -----

  /** Can be written between quotes of one kind. */
  predicate Quotable(w: string) {
    w != "" && ('"' !in w || '\'' !in w)
  }

  function QuoteFor(w: string): char { if '"' in w then '\'' else '"' }

  function Quoted(w: string): string { [QuoteFor(w)] + w + [QuoteFor(w)] }

  function Sentence(words: seq<string>): string {
    if words == [] then "" else Quoted(words[0]) + " " + Sentence(words[1..])
  }

  lemma {:induction false} ScanInside(s: Scan, w: string, rest: string)
    requires s.quote.Some? && s.quote.value in ['"', '\''] && s.quote.value !in w
    ensures ScanFrom(s, w + rest) == ScanFrom(s.(word := s.word + w), rest)
    decreases |w|
  {
    if w == "" {
      assert w + rest == rest && s.word + w == s.word;
    } else {
      var next := Step(s, w[0]);
      assert next == s.(word := s.word + [w[0]]);
      ScanInside(next, w[1..], rest);
      assert (w + rest)[1..] == w[1..] + rest;
      assert s.word + [w[0]] + w[1..] == s.word + w;
    }
  }

  lemma ScanQuoted(words: seq<string>, w: string, rest: string)
    requires Quotable(w)
    ensures ScanFrom(Scan(words, "", None), Quoted(w) + " " + rest) == ScanFrom(Scan(words + [w], "", None), rest)
  {
    var q := QuoteFor(w);
    var inside := Scan(words, "", Some(q));
    assert Quoted(w) + " " + rest == [q] + (w + ([q] + " " + rest));
    assert ([q] + (w + ([q] + " " + rest)))[1..] == w + ([q] + " " + rest);
    ScanInside(inside, w, [q] + " " + rest);
    assert "" + w == w;
    assert ([q] + " " + rest)[1..] == " " + rest && (" " + rest)[1..] == rest;
    assert Step(inside.(word := w), q) == Scan(words, w, None);
    assert Step(Scan(words, w, None), ' ') == Scan(words + [w], "", None);
    assert ScanFrom(Scan(words, w, None), " " + rest) == ScanFrom(Scan(words + [w], "", None), rest);
  }

  lemma {:induction false} ScanSentence(before: seq<string>, words: seq<string>, rest: string)
    requires forall w | w in words :: Quotable(w)
    ensures ScanFrom(Scan(before, "", None), Sentence(words) + rest)
            == ScanFrom(Scan(before + words, "", None), rest)
    decreases |words|
  {
    if words == [] {
      assert before + words == before && "" + rest == rest;
    } else {
      var tail := Sentence(words[1..]) + rest;
      ScanQuoted(before, words[0], tail);
      Regroup(Quoted(words[0]) + " ", Sentence(words[1..]), rest);
      ScanSentence(before + [words[0]], words[1..], rest);
      assert before + [words[0]] + words[1..] == before + words;
    }
  }

  lemma Regroup(a: string, b: string, c: string)
    ensures (a + b) + c == a + (b + c)
  {
  }

  /** A number sign between words ends the line, whatever comes after it. */
  lemma CommentsAreIgnored(words: seq<string>, comment: string)
    requires forall w | w in words :: Quotable(w)
    ensures Words(Sentence(words) + "#" + comment) == Words(Sentence(words))
  {
    ScanSentence([], words, "#" + comment);
    ScanSentence([], words, "");
    assert Sentence(words) + "#" + comment == Sentence(words) + ("#" + comment);
    assert Sentence(words) + "" == Sentence(words);
    assert ("#" + comment)[0] == '#';
  }

  /** Blanks, number signs and either quote survive inside a quoted word: what is quoted is read back word for word. */
  lemma QuotingRoundTrips(words: seq<string>)
    requires forall w | w in words :: Quotable(w)
    ensures words == [] || ('=' !in words[0] && (|words| > 1 ==> words[1] != "=")) <==> Words(Sentence(words)) == words
  {
    ScanSentence([], words, "");
    assert [] + words == words && Sentence(words) + "" == Sentence(words);
    if words != [] && '=' in words[0] {
      assert |Assignment(words)| == |words| + 1;
    } else if |words| > 1 && words[1] == "=" {
      assert |Assignment(words)| == |words| - 1;
    }
  }

  /** Contains nothing the scanner treats specially. */
  predicate Plain(w: string) {
    forall i | 0 <= i < |w| :: w[i] !in ['"', '\'', '#'] && !IsWhitespace(w[i])
  }

  lemma {:induction false} ScanPlain(s: Scan, w: string)
    requires s.quote.None? && Plain(w)
    ensures ScanFrom(s, w) == s.(word := s.word + w)
    decreases |w|
  {
    if w == "" {
      assert s.word + w == s.word;
    } else {
      ScanPlain(Step(s, w[0]), w[1..]);
      assert s.word + [w[0]] + w[1..] == s.word + w;
    }
  }

  /** A key with nothing behind its equals sign is a setting with an empty value. */
  lemma EmptyValue(key: string)
    requires key != "" && Plain(key) && '=' !in key
    ensures Words(key + "=") == [key, ""]
  {
    var line := key + "=";
    ScanPlain(START, line);
    assert "" + line == line == key + ['='] + "";
    FindIn(key, '=', "");
    assert line[..|key|] == key && line[|key| + 1..] == "";
  }

  /** The three spellings of one setting. */
  lemma AssignmentSpellings(key: string, value: string)
    requires Quotable(key) && Quotable(value) && '=' !in key && value != "="
    ensures Assignment([key + "=" + value]) == Assignment([key, "=", value]) == Assignment([key, value]) == [key, value]
  {
    var both := key + "=" + value;
    assert both == key + ['='] + value;
    FindIn(key, '=', value);
    assert both[..|key|] == key && both[|key| + 1..] == value;
  }

  // ----- keywords -----

  function LowerChar(c: char): char {
    if 'A' <= c <= 'Z' then (c as int + 32) as char else c
  }

  function Lower(s: string): (l: string)
    ensures |l| == |s|
  {
    seq(|s|, i requires 0 <= i < |s| => LowerChar(s[i]))
  }
}
