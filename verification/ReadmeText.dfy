/** The string operations of scripts/readme_blocks.py, on ASCII text. */
module ReadmeText {
  import opened Options

  const TICKS := "```"
  const BASH := "```bash"
  const PREFIX := "<!-- ci:readme "
  const SUFFIX := " -->"

  predicate IsSpace(c: char) {
    c == ' ' || '\t' <= c <= '\r' || '\U{1c}' <= c <= '\U{1f}'
  }

  predicate NoSpace(s: string) {
    forall i :: 0 <= i < |s| ==> !IsSpace(s[i])
  }

  predicate AllSpace(s: string) {
    forall i :: 0 <= i < |s| ==> IsSpace(s[i])
  }

  function Strip(s: string): string {
    if s == "" then ""
    else if IsSpace(s[0]) then Strip(s[1..])
    else if IsSpace(s[|s| - 1]) then Strip(s[..|s| - 1])
    else s
  }

  predicate StartsWith(s: string, prefix: string) {
    |s| >= |prefix| && s[..|prefix|] == prefix
  }

  predicate EndsWith(s: string, suffix: string) {
    |s| >= |suffix| && s[|s| - |suffix|..] == suffix
  }

  predicate IsFence(line: string) {
    StartsWith(line, TICKS)
  }

  predicate IsBash(line: string) {
    StartsWith(line, BASH) && AllSpace(line[|BASH|..])
  }

  predicate Closes(line: string) {
    Strip(line) == TICKS
  }

  lemma BashIsFence(line: string)
    ensures IsBash(line) ==> IsFence(line)
  {
    if IsBash(line) {
      assert line[..3] == line[..7][..3];
    }
  }

  /** What the marker pattern captures. */
  function MarkerBody(line: string): Option<string> {
    var t := Strip(line);
    if StartsWith(t, PREFIX) && EndsWith(t, SUFFIX) && |t| > |PREFIX| + |SUFFIX|
    then Some(t[|PREFIX|..|t| - |SUFFIX|]) else None
  }

  /** Stripping takes off the white space around, and nothing else. */
  lemma {:induction false} StripIs(before: string, text: string, after: string)
    requires AllSpace(before) && AllSpace(after) && text != "" && !IsSpace(text[0]) && !IsSpace(text[|text| - 1])
    ensures Strip(before + text + after) == text
    decreases |before| + |after|
  {
    var s := before + text + after;
    if before != "" {
      assert s[1..] == before[1..] + text + after;
      StripIs(before[1..], text, after);
    } else if after != "" {
      assert s[..|s| - 1] == before + text + after[..|after| - 1];
      assert s[0] == text[0] && s[|s| - 1] == after[|after| - 1];
      StripIs(before, text, after[..|after| - 1]);
    } else {
      assert s == text;
    }
  }

  /** A line is a marker exactly when, stripped, it is the prefix, a body and the suffix. */
  lemma MarkerBodyIs(line: string, body: string)
    ensures MarkerBody(line) == Some(body) <==> body != "" && Strip(line) == PREFIX + body + SUFFIX
  {
    var t := Strip(line);
    if MarkerBody(line) == Some(body) {
      assert t == t[..|PREFIX|] + t[|PREFIX|..|t| - |SUFFIX|] + t[|t| - |SUFFIX|..];
    }
    if body != "" && t == PREFIX + body + SUFFIX {
      assert t[..|PREFIX|] == PREFIX && t[|t| - |SUFFIX|..] == SUFFIX && t[|PREFIX|..|t| - |SUFFIX|] == body;
    }
  }

  lemma BashIs(tail: string)
    ensures IsBash(BASH + tail) <==> AllSpace(tail)
  {
    var line := BASH + tail;
    assert line[..|BASH|] == BASH && line[|BASH|..] == tail;
  }

  lemma MarkerRoundTrip(body: string)
    requires body != ""
    ensures MarkerBody(PREFIX + body + SUFFIX) == Some(body)
    ensures !IsFence(PREFIX + body + SUFFIX)
  {
    var line := PREFIX + body + SUFFIX;
    assert line[0] == '<' && line[|line| - 1] == '>';
    assert Strip(line) == line;
    assert line[..|PREFIX|] == PREFIX;
    assert line[|line| - |SUFFIX|..] == SUFFIX;
    assert line[|PREFIX|..|line| - |SUFFIX|] == body;
    assert line[..3][0] == '<';
  }

  //
  // Words
  //

  function WordEnd(s: string): (n: nat)
    ensures n <= |s| && NoSpace(s[..n]) && (n < |s| ==> IsSpace(s[n]))
    ensures s != "" && !IsSpace(s[0]) ==> n > 0
  {
    if s == "" || IsSpace(s[0]) then 0 else 1 + WordEnd(s[1..])
  }

  function Words(s: string): seq<string>
    decreases |s|
  {
    if s == "" then []
    else if IsSpace(s[0]) then Words(s[1..])
    else [s[..WordEnd(s)]] + Words(s[WordEnd(s)..])
  }

  lemma {:induction false} WordEndAt(word: string, rest: string)
    requires NoSpace(word) && (rest == "" || IsSpace(rest[0]))
    ensures WordEnd(word + rest) == |word|
  {
    if word == "" {
      assert word + rest == rest;
    } else {
      assert (word + rest)[1..] == word[1..] + rest;
      WordEndAt(word[1..], rest);
    }
  }

  lemma LastWord(word: string)
    requires word != "" && NoSpace(word)
    ensures Words(word) == [word]
  {
    assert word + "" == word;
    WordEndAt(word, "");
    assert word[..|word|] == word && word[|word|..] == "";
  }

  lemma FirstWord(word: string, rest: string)
    requires word != "" && NoSpace(word)
    ensures Words(word + " " + rest) == [word] + Words(rest)
  {
    var s := word + " " + rest;
    assert s == word + (" " + rest);
    WordEndAt(word, " " + rest);
    assert s[..|word|] == word;
    assert s[|word|..] == " " + rest;
    assert (" " + rest)[1..] == rest;
  }

  //
  // key=value
  //

  function Equals(s: string): (n: nat)
    ensures n <= |s| && (n < |s| ==> s[n] == '=') && forall i :: 0 <= i < n ==> s[i] != '='
  {
    if s == "" || s[0] == '=' then 0 else 1 + Equals(s[1..])
  }

  lemma {:induction false} EqualsAt(key: string, value: string)
    requires forall i :: 0 <= i < |key| ==> key[i] != '='
    ensures Equals(key + "=" + value) == |key|
  {
    var s := key + "=" + value;
    if key != "" {
      assert s[1..] == key[1..] + "=" + value;
      EqualsAt(key[1..], value);
    }
  }

  //
  // Numbers
  //

  predicate IsDigit(c: char) {
    '0' <= c <= '9'
  }

  predicate IsNumber(s: string) {
    s != "" && forall i :: 0 <= i < |s| ==> IsDigit(s[i])
  }

  function Number(s: string): nat
    requires forall i :: 0 <= i < |s| ==> IsDigit(s[i])
  {
    if s == "" then 0
    else
      assert IsDigit(s[|s| - 1]);
      10 * Number(s[..|s| - 1]) + (s[|s| - 1] as int - '0' as int)
  }

  function Digit(d: nat): char
    requires d < 10
  {
    ('0' as int + d) as char
  }

  function Decimal(n: nat): string {
    if n < 10 then [Digit(n)] else Decimal(n / 10) + [Digit(n % 10)]
  }

  lemma {:induction false} DecimalRoundTrip(n: nat)
    ensures IsNumber(Decimal(n)) && NoSpace(Decimal(n)) && Number(Decimal(n)) == n
  {
    if n < 10 {
      assert Decimal(n)[..0] == "";
    } else {
      DecimalRoundTrip(n / 10);
      var front := Decimal(n / 10);
      assert Decimal(n)[..|Decimal(n)| - 1] == front;
    }
  }
}
