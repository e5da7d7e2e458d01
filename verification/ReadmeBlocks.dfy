/** The README block parser (scripts/readme_blocks.py), on a sequence of lines. A block's body is its
lines. */
module ReadmeBlocks {
  import opened Options
  import opened ReadmeText
  import opened Sequences

  const MIN_RUN_BLOCKS := 3

  /** A run marker has a step, a skip marker a reason. */
  datatype Marker = Marker(name: string, step: Option<nat>, reason: Option<string>)

  datatype Block = Block(marker: Marker, body: seq<string>)

  //
  // Markers
  //

  datatype Fields = Fields(values: map<string, string>, skip: bool)

  function AddToken(f: Fields, token: string): Option<Fields> {
    if token == "skip" then Some(f.(skip := true))
    else
      var n := Equals(token);
      if n == |token| then None
      else
        var key, value := token[..n], token[n + 1..];
        if key !in {"step", "name", "reason"} || value == "" || key in f.values then None
        else Some(f.(values := f.values[key := value]))
  }

  function AddTokens(f: Fields, tokens: seq<string>): Option<Fields>
    decreases |tokens|
  {
    if tokens == [] then Some(f)
    else
      var first := AddToken(f, tokens[0]);
      if first.None? then None else AddTokens(first.value, tokens[1..])
  }

  function MarkerOf(f: Fields): Option<Marker> {
    if "name" !in f.values then None
    else
      var name := f.values["name"];
      if f.skip then
        (if "step" in f.values || "reason" !in f.values then None else Some(Marker(name, None, Some(f.values["reason"]))))
      else if "step" !in f.values || "reason" in f.values then None
      else if !IsNumber(f.values["step"]) || Number(f.values["step"]) < 1 then None
      else Some(Marker(name, Some(Number(f.values["step"])), None))
  }

  const NO_FIELDS := Fields(map[], false)

  function ParseMarker(body: string): Option<Marker> {
    var fields := AddTokens(NO_FIELDS, Words(body));
    if fields.None? then None else MarkerOf(fields.value)
  }

  /** _parse_marker with its dictionary and its flag. */
  method ReadMarker(body: string) returns (r: Option<Marker>)
    ensures r == ParseMarker(body)
  {
    var tokens := Words(body);
    var values: map<string, string>, skip := map[], false;
    assert tokens[0..] == tokens;
    for i := 0 to |tokens|
      invariant AddTokens(Fields(values, skip), tokens[i..]) == AddTokens(NO_FIELDS, tokens)
    {
      var token := tokens[i];
      assert tokens[i..][0] == token && tokens[i..][1..] == tokens[i + 1..];
      if token == "skip" {
        skip := true;
      } else {
        var n := Equals(token);
        if n == |token| || token[..n] !in {"step", "name", "reason"} || token[n + 1..] == "" || token[..n] in values {
          return None;
        }
        values := values[token[..n] := token[n + 1..]];
      }
    }
    r := MarkerOf(Fields(values, skip));
  }

  //
  // Lines
  //

  datatype Parser = Parser(blocks: seq<Block>, pending: Option<Marker>, current: Option<Marker>, inFence: bool, body: seq<string>)

  const FRESH := Parser([], None, None, false, [])

  function Feed(p: Parser, line: string): Option<Parser> {
    if p.inFence then
      if Closes(line) then
        Some(p.(inFence := false, current := None,
                blocks := if p.current.Some? then p.blocks + [Block(p.current.value, p.body)] else p.blocks))
      else Some(if p.current.Some? then p.(body := p.body + [line]) else p)
    else if IsFence(line) then
      if IsBash(line) then
        (if p.pending.None? then None else Some(p.(inFence := true, body := [], current := p.pending, pending := None)))
      else if p.pending.Some? then None
      else Some(p.(inFence := true, body := []))
    else if p.pending.Some? then None
    else if MarkerBody(line).None? then Some(p)
    else
      var marker := ParseMarker(MarkerBody(line).value);
      if marker.None? then None else Some(p.(pending := marker))
  }

  function FeedAll(p: Parser, lines: seq<string>): Option<Parser>
    decreases |lines|
  {
    if lines == [] then Some(p)
    else
      var next := Feed(p, lines[0]);
      if next.None? then None else FeedAll(next.value, lines[1..])
  }

  function Parse(lines: seq<string>): Option<seq<Block>> {
    var end := FeedAll(FRESH, lines);
    if end.None? || end.value.inFence || end.value.pending.Some? || !Valid(end.value.blocks) then None
    else Some(end.value.blocks)
  }

  //
  // Validation and run order
  //

  predicate HasStep(b: Block) {
    b.marker.step.Some?
  }

  function StepOf(b: Block): int {
    if b.marker.step.Some? then b.marker.step.value else 0
  }

  function Runnable(blocks: seq<Block>): seq<Block> {
    Keep(HasStep, blocks)
  }

  function RunOrder(blocks: seq<Block>): seq<Block> {
    SortBy(StepOf, Runnable(blocks))
  }

  predicate UniqueNames(blocks: seq<Block>) {
    forall i, k :: 0 <= i < k < |blocks| ==> blocks[i].marker.name != blocks[k].marker.name
  }

  predicate Numbered(blocks: seq<Block>) {
    forall i :: 0 <= i < |blocks| ==> StepOf(blocks[i]) == i + 1
  }

  /** _validate: the sorted steps are 1, 2, ..., N with N large enough. */
  predicate Valid(blocks: seq<Block>) {
    UniqueNames(blocks) && |RunOrder(blocks)| >= MIN_RUN_BLOCKS && Numbered(RunOrder(blocks))
  }

  /** The run order of an accepted text holds its run blocks, each once, as steps 1 to N. */
  lemma {:induction false} RunOrderCountsUp(lines: seq<string>)
    requires Parse(lines).Some?
    ensures var blocks := Parse(lines).value;
            && multiset(RunOrder(blocks)) == multiset(Runnable(blocks))
            && |RunOrder(blocks)| >= MIN_RUN_BLOCKS
            && forall i :: 0 <= i < |RunOrder(blocks)| ==> RunOrder(blocks)[i].marker.step == Some(i + 1)
  {
    var blocks := Parse(lines).value;
    var order := RunOrder(blocks);
    Sorts(StepOf, Runnable(blocks));
    forall i | 0 <= i < |order| ensures order[i].marker.step == Some(i + 1) {
      assert order[i] in multiset(order);
      assert order[i] in Runnable(blocks) && HasStep(order[i]);
    }
  }

  //
  // What is accepted
  //

  function RunCount(blocks: seq<Block>): nat {
    if blocks == [] then 0 else (if blocks[0].marker.step.Some? then 1 else 0) + RunCount(blocks[1..])
  }

  lemma {:induction false} RunnableCount(blocks: seq<Block>)
    ensures |Runnable(blocks)| == RunCount(blocks)
  {
    if blocks != [] {
      RunnableCount(blocks[1..]);
    }
  }

  ghost predicate HasAll(steps: seq<int>, n: nat) {
    forall v :: 1 <= v <= n ==> v in steps
  }

  /** A sequence with n different elements has length n at least. */
  lemma {:induction false} RoomForAll(steps: seq<int>, n: nat)
    requires HasAll(steps, n)
    ensures n <= |steps|
  {
    if n > 0 {
      assert n in steps;
      var p :| 0 <= p < |steps| && steps[p] == n;
      var rest := steps[..p] + steps[p + 1..];
      forall v | 1 <= v <= n - 1 ensures v in rest {
        assert v in steps;
        var q :| 0 <= q < |steps| && steps[q] == v;
        assert rest[if q < p then q else q - 1] == v;
      }
      RoomForAll(rest, n - 1);
    }
  }

  lemma LastIsLargest(steps: seq<int>)
    requires steps != [] && forall i, k :: 0 <= i < k < |steps| ==> steps[i] <= steps[k]
    requires HasAll(steps, |steps|)
    ensures steps[|steps| - 1] == |steps| && HasAll(steps[..|steps| - 1], |steps| - 1)
  {
    var n := |steps|;
    var front := steps[..n - 1];
    forall v | 1 <= v <= n && v != steps[n - 1] ensures v in front {
      assert v in steps;
      var q :| 0 <= q < n && steps[q] == v;
      assert front[q] == v;
    }
    assert n in steps;
    var q :| 0 <= q < n && steps[q] == n;
    if steps[n - 1] != n {
      RoomForAll(front, n);
      assert false;
    }
  }

  /** As many steps as there are numbers 1 to n, sorted, are those numbers. */
  lemma {:induction false} SortedAre(steps: seq<int>)
    requires forall i, k :: 0 <= i < k < |steps| ==> steps[i] <= steps[k]
    requires HasAll(steps, |steps|)
    ensures forall i :: 0 <= i < |steps| ==> steps[i] == i + 1
  {
    if steps != [] {
      LastIsLargest(steps);
      SortedAre(steps[..|steps| - 1]);
    }
  }

  ghost predicate SomeBlockHas(blocks: seq<Block>, step: nat) {
    exists i :: 0 <= i < |blocks| && blocks[i].marker.step == Some(step)
  }

  /** The run order holds the blocks with a step. */
  lemma RunOrderHolds(blocks: seq<Block>, step: nat)
    ensures |RunOrder(blocks)| == RunCount(blocks)
    ensures SomeBlockHas(blocks, step) <==> SomeBlockHas(RunOrder(blocks), step)
    ensures forall i :: 0 <= i < |RunOrder(blocks)| ==> HasStep(RunOrder(blocks)[i])
  {
    var order, runs := RunOrder(blocks), Runnable(blocks);
    RunnableCount(blocks);
    Sorts(StepOf, runs);
    assert |order| == |multiset(order)| == |runs|;
    forall b ensures b in order <==> b in blocks && HasStep(b) {
      assert b in order <==> b in multiset(order);
      assert b in runs <==> b in multiset(runs);
    }
    forall i | 0 <= i < |order| ensures HasStep(order[i]) {
      assert order[i] in order;
    }
    if i :| 0 <= i < |blocks| && blocks[i].marker.step == Some(step) {
      assert blocks[i] in order;
    }
    if i :| 0 <= i < |order| && order[i].marker.step == Some(step) {
      assert order[i] in blocks;
    }
  }

  lemma NumberedIff(order: seq<Block>)
    requires Ascending(StepOf, order) && forall i :: 0 <= i < |order| ==> HasStep(order[i])
    ensures Numbered(order) <==> forall v :: 1 <= v <= |order| ==> SomeBlockHas(order, v)
  {
    var steps := seq(|order|, i requires 0 <= i < |order| => StepOf(order[i]));
    if Numbered(order) {
      forall v | 1 <= v <= |order| ensures SomeBlockHas(order, v) {
        assert StepOf(order[v - 1]) == v && HasStep(order[v - 1]);
      }
    }
    if forall v :: 1 <= v <= |order| ==> SomeBlockHas(order, v) {
      forall v | 1 <= v <= |steps| ensures v in steps {
        assert SomeBlockHas(order, v);
        var i :| 0 <= i < |order| && order[i].marker.step == Some(v);
        assert steps[i] == v;
      }
      SortedAre(steps);
      forall i | 0 <= i < |order| ensures StepOf(order[i]) == i + 1 {
        assert steps[i] == StepOf(order[i]);
      }
    }
  }

  /** The blocks are valid if and only if their names differ, at least three are run, and the run ones
      have the steps 1 to their number, each. */
  lemma ValidIff(blocks: seq<Block>)
    ensures Valid(blocks) <==>
            && (forall i, k :: 0 <= i < k < |blocks| ==> blocks[i].marker.name != blocks[k].marker.name)
            && RunCount(blocks) >= 3
            && forall v :: 1 <= v <= RunCount(blocks) ==> SomeBlockHas(blocks, v)
  {
    forall v: nat ensures SomeBlockHas(blocks, v) <==> SomeBlockHas(RunOrder(blocks), v) {
      RunOrderHolds(blocks, v);
    }
    RunOrderHolds(blocks, 0);
    Sorts(StepOf, Runnable(blocks));
    NumberedIff(RunOrder(blocks));
  }

  /** What comes before the first equals sign. */
  function KeyOf(token: string): Option<string> {
    if Equals(token) < |token| then Some(token[..Equals(token)]) else None
  }

  ghost predicate GoodFields(f: Fields) {
    forall key :: key in f.values ==> key in {"step", "name", "reason"} && f.values[key] != "" && NoSpace(f.values[key])
  }

  /** Collecting words goes through only if each is skip or has one of the three keys, and no key comes
      twice. */
  lemma {:induction false} TokensCollected(f: Fields, tokens: seq<string>)
    requires GoodFields(f) && AddTokens(f, tokens).Some? && forall i :: 0 <= i < |tokens| ==> NoSpace(tokens[i])
    ensures var g := AddTokens(f, tokens).value;
            && GoodFields(g) && f.values.Keys <= g.values.Keys
            && (g.skip <==> f.skip || "skip" in tokens)
            && (forall i :: 0 <= i < |tokens| && tokens[i] != "skip" ==>
                  KeyOf(tokens[i]) in {Some("step"), Some("name"), Some("reason")}
                  && KeyOf(tokens[i]).value !in f.values && KeyOf(tokens[i]).value in g.values)
            && forall i, k :: 0 <= i < k < |tokens| && tokens[i] != "skip" && tokens[k] != "skip" ==>
                 KeyOf(tokens[i]) != KeyOf(tokens[k])
    decreases |tokens|
  {
    if tokens != [] {
      var next := AddToken(f, tokens[0]).value;
      assert NoSpace(tokens[0]);
      TokensCollected(next, tokens[1..]);
      assert tokens == [tokens[0]] + tokens[1..];
    }
  }

  lemma {:induction false} WordsHaveNoSpace(s: string)
    ensures forall i :: 0 <= i < |Words(s)| ==> Words(s)[i] != "" && NoSpace(Words(s)[i])
    decreases |s|
  {
    if s != "" {
      WordsHaveNoSpace(if IsSpace(s[0]) then s[1..] else s[WordEnd(s)..]);
    }
  }

  /** A marker that is accepted can be printed and reads back as itself: it has a name, and either a
      step from 1 on or a reason to be skipped. Its words are skip and keyed values, no key twice. */
  lemma AcceptedMarkerPrints(body: string)
    requires ParseMarker(body).Some?
    ensures var m := ParseMarker(body).value;
            && Printable(Block(m, [])) && ParseMarker(MarkerText(m)) == Some(m)
            && (m.reason.Some? <==> "skip" in Words(body))
            && (forall i :: 0 <= i < |Words(body)| && Words(body)[i] != "skip" ==>
                  KeyOf(Words(body)[i]) != Some(if m.reason.Some? then "step" else "reason"))
    ensures forall i :: 0 <= i < |Words(body)| && Words(body)[i] != "skip" ==>
                          KeyOf(Words(body)[i]) in {Some("step"), Some("name"), Some("reason")}
    ensures forall i, k :: 0 <= i < k < |Words(body)| && Words(body)[i] != "skip" && Words(body)[k] != "skip" ==>
                             KeyOf(Words(body)[i]) != KeyOf(Words(body)[k])
  {
    WordsHaveNoSpace(body);
    TokensCollected(NO_FIELDS, Words(body));
    MarkerParses(ParseMarker(body).value);
  }

  /** parse_blocks with its variables. */
  method ParseBlocks(lines: seq<string>) returns (r: Option<seq<Block>>)
    ensures r == Parse(lines)
  {
    var blocks: seq<Block>, pending: Option<Marker>, current: Option<Marker> := [], None, None;
    var inFence, body: seq<string> := false, [];
    assert lines[0..] == lines;
    for i := 0 to |lines|
      invariant FeedAll(Parser(blocks, pending, current, inFence, body), lines[i..]) == FeedAll(FRESH, lines)
    {
      var line := lines[i];
      assert lines[i..][0] == line && lines[i..][1..] == lines[i + 1..];
      if inFence {
        if Closes(line) {
          inFence := false;
          if current.Some? {
            blocks := blocks + [Block(current.value, body)];
            current := None;
          }
        } else if current.Some? {
          body := body + [line];
        }
        continue;
      }
      if IsFence(line) {
        inFence := true;
        body := [];
        if IsBash(line) {
          if pending.None? {
            return None;
          }
          current, pending := pending, None;
        } else if pending.Some? {
          return None;
        }
        continue;
      }
      if pending.Some? {
        return None;
      }
      var captured := MarkerBody(line);
      if captured.Some? {
        pending := ReadMarker(captured.value);
        if pending.None? {
          return None;
        }
      }
    }
    if inFence || pending.Some? || !Valid(blocks) {
      return None;
    }
    return Some(blocks);
  }

  //
  // Markers and fences in an accepted text
  //

  /** Whether line i lies inside a fence, by looking for fences alone. */
  predicate Inside(lines: seq<string>, i: nat)
    requires i <= |lines|
  {
    i > 0 && if Inside(lines, i - 1) then !Closes(lines[i - 1]) else IsFence(lines[i - 1])
  }

  predicate MarkerAbove(lines: seq<string>, i: nat)
    requires i <= |lines|
  {
    i > 0 && !Inside(lines, i - 1) && !IsFence(lines[i - 1]) && MarkerBody(lines[i - 1]).Some?
  }

  /** The bash fences opened outside a fence before line i. */
  function BashFences(lines: seq<string>, i: nat): nat
    requires i <= |lines|
  {
    if i == 0 then 0 else BashFences(lines, i - 1) + if !Inside(lines, i - 1) && IsBash(lines[i - 1]) then 1 else 0
  }

  lemma {:induction false} FeedAppend(p: Parser, first: seq<string>, rest: seq<string>)
    ensures FeedAll(p, first + rest)
            == if FeedAll(p, first).None? then None else FeedAll(FeedAll(p, first).value, rest)
    decreases |first|
  {
    if first == [] {
      assert first + rest == rest;
    } else {
      assert (first + rest)[1..] == first[1..] + rest;
      var next := Feed(p, first[0]);
      if next.Some? {
        FeedAppend(next.value, first[1..], rest);
      }
    }
  }

  lemma FeedLast(lines: seq<string>, i: nat)
    requires i < |lines|
    ensures FeedAll(FRESH, lines[..i + 1])
            == if FeedAll(FRESH, lines[..i]).None? then None else Feed(FeedAll(FRESH, lines[..i]).value, lines[i])
  {
    assert lines[..i + 1] == lines[..i] + [lines[i]];
    FeedAppend(FRESH, lines[..i], [lines[i]]);
    if FeedAll(FRESH, lines[..i]).Some? {
      var p := FeedAll(FRESH, lines[..i]).value;
      assert [lines[i]][1..] == [];
    }
  }

  lemma {:induction false} ParserTracksLines(lines: seq<string>, i: nat)
    requires i <= |lines| && FeedAll(FRESH, lines[..i]).Some?
    ensures var p := FeedAll(FRESH, lines[..i]).value;
            && p.inFence == Inside(lines, i)
            && p.pending.Some? == MarkerAbove(lines, i)
            && (p.current.Some? ==> p.inFence)
            && |p.blocks| + (if p.current.Some? then 1 else 0) == BashFences(lines, i)
  {
    if i > 0 {
      FeedLast(lines, i - 1);
      ParserTracksLines(lines, i - 1);
      BashIsFence(lines[i - 1]);
    }
  }

  /** In an accepted text every bash fence opened outside a fence has a marker directly above it,
      every marker outside a fence has a bash fence directly below it, every fence is closed, and
      there is one block for each such bash fence. */
  lemma MarkersMatchFences(lines: seq<string>, i: nat)
    requires Parse(lines).Some? && i <= |lines|
    ensures i < |lines| && !Inside(lines, i) ==> (IsBash(lines[i]) <==> MarkerAbove(lines, i))
    ensures !Inside(lines, |lines|) && !MarkerAbove(lines, |lines|)
    ensures |Parse(lines).value| == BashFences(lines, |lines|)
  {
    assert lines[..|lines|] == lines;
    ParserTracksLines(lines, |lines|);
    if i < |lines| {
      assert lines == lines[..i] + lines[i..];
      FeedAppend(FRESH, lines[..i], lines[i..]);
      ParserTracksLines(lines, i);
      BashIsFence(lines[i]);
    }
  }

  //
  // Printing
  //

  predicate Printable(b: Block) {
    && b.marker.name != "" && NoSpace(b.marker.name)
    && b.marker.step.Some? != b.marker.reason.Some?
    && (b.marker.step.Some? ==> b.marker.step.value >= 1)
    && (b.marker.reason.Some? ==> b.marker.reason.value != "" && NoSpace(b.marker.reason.value))
    && forall i :: 0 <= i < |b.body| ==> !Closes(b.body[i])
  }

  predicate IsProse(line: string) {
    !IsFence(line) && MarkerBody(line).None?
  }

  function MarkerText(m: Marker): string
    requires m.step.Some? != m.reason.Some?
  {
    if m.step.Some? then "step=" + Decimal(m.step.value) + " " + ("name=" + m.name)
    else "skip" + " " + (("name=" + m.name) + " " + ("reason=" + m.reason.value))
  }

  function Opening(m: Marker): seq<string>
    requires Printable(Block(m, []))
  {
    [PREFIX + MarkerText(m) + SUFFIX] + [BASH]
  }

  function PrintBlock(b: Block): seq<string>
    requires Printable(b)
  {
    Opening(b.marker) + b.body + [TICKS]
  }

  /** Prose, and a block after it. */
  datatype Passage = Passage(prose: seq<string>, block: Block)

  predicate GoodPassage(p: Passage) {
    Printable(p.block) && forall i :: 0 <= i < |p.prose| ==> IsProse(p.prose[i])
  }

  function Print(doc: seq<Passage>): seq<string>
    requires forall i :: 0 <= i < |doc| ==> GoodPassage(doc[i])
  {
    if doc == [] then []
    else
      assert GoodPassage(doc[0]);
      doc[0].prose + PrintBlock(doc[0].block) + Print(doc[1..])
  }

  function BlocksOf(doc: seq<Passage>): seq<Block> {
    if doc == [] then [] else [doc[0].block] + BlocksOf(doc[1..])
  }

  lemma TokenAdds(f: Fields, key: string, value: string)
    requires key in {"step", "name", "reason"} && value != "" && key !in f.values
    ensures AddToken(f, key + "=" + value) == Some(f.(values := f.values[key := value]))
  {
    var token := key + "=" + value;
    EqualsAt(key, value);
    assert token[..|key|] == key && token[|key| + 1..] == value;
    assert token[|key|] == '=';
  }

  lemma AddFirst(f: Fields, token: string, rest: seq<string>, next: Fields)
    requires AddToken(f, token) == Some(next)
    ensures AddTokens(f, [token] + rest) == AddTokens(next, rest)
  {
    assert ([token] + rest)[1..] == rest;
  }

  lemma KeyedToken(key: string, value: string)
    requires key in {"step", "name", "reason"} && value != "" && NoSpace(value)
    ensures NoSpace(key + "=" + value) && key + "=" + value != ""
  {
  }

  lemma RunWords(name: string, n: nat)
    requires name != "" && NoSpace(name)
    ensures Words("step" + "=" + Decimal(n) + " " + ("name" + "=" + name)) == [("step" + "=" + Decimal(n))] + [("name" + "=" + name)]
  {
    DecimalRoundTrip(n);
    KeyedToken("step", Decimal(n));
    KeyedToken("name", name);
    FirstWord("step" + "=" + Decimal(n), "name" + "=" + name);
    LastWord("name" + "=" + name);
  }

  lemma RunFields(name: string, digits: string)
    requires name != "" && digits != ""
    ensures AddTokens(NO_FIELDS, [("step" + "=" + digits)] + [("name" + "=" + name)])
            == Some(Fields(map["step" := digits, "name" := name], false))
  {
    var t1, t2 := "step" + "=" + digits, "name" + "=" + name;
    var f1 := Fields(map["step" := digits], false);
    var f2 := Fields(map["step" := digits, "name" := name], false);
    TokenAdds(NO_FIELDS, "step", digits);
    TokenAdds(f1, "name", name);
    AddFirst(NO_FIELDS, t1, [t2], f1);
    AddFirst(f1, t2, [], f2);
    assert [t2] + [] == [t2];
  }

  lemma RunMarkerParses(name: string, n: nat)
    requires name != "" && NoSpace(name) && n >= 1
    ensures ParseMarker("step=" + Decimal(n) + " " + ("name=" + name)) == Some(Marker(name, Some(n), None))
  {
    assert "step=" + Decimal(n) == "step" + "=" + Decimal(n) && "name=" + name == "name" + "=" + name;
    DecimalRoundTrip(n);
    RunWords(name, n);
    RunFields(name, Decimal(n));
  }

  lemma SkipWords(name: string, reason: string)
    requires name != "" && NoSpace(name) && reason != "" && NoSpace(reason)
    ensures Words("skip" + " " + (("name" + "=" + name) + " " + ("reason" + "=" + reason)))
            == ["skip"] + ([("name" + "=" + name)] + [("reason" + "=" + reason)])
  {
    KeyedToken("name", name);
    KeyedToken("reason", reason);
    var t1, t2 := "name" + "=" + name, "reason" + "=" + reason;
    FirstWord("skip", t1 + " " + t2);
    FirstWord(t1, t2);
    LastWord(t2);
  }

  lemma SkipFields(name: string, reason: string)
    requires name != "" && reason != ""
    ensures AddTokens(NO_FIELDS, ["skip"] + ([("name" + "=" + name)] + [("reason" + "=" + reason)]))
            == Some(Fields(map["name" := name, "reason" := reason], true))
  {
    var t1, t2 := "name" + "=" + name, "reason" + "=" + reason;
    var f0 := Fields(map[], true);
    var f1 := Fields(map["name" := name], true);
    var f2 := Fields(map["name" := name, "reason" := reason], true);
    TokenAdds(f0, "name", name);
    TokenAdds(f1, "reason", reason);
    AddFirst(NO_FIELDS, "skip", [t1] + [t2], f0);
    AddFirst(f0, t1, [t2], f1);
    AddFirst(f1, t2, [], f2);
    assert [t2] + [] == [t2];
  }

  lemma SkipMarkerParses(name: string, reason: string)
    requires name != "" && NoSpace(name) && reason != "" && NoSpace(reason)
    ensures ParseMarker("skip" + " " + (("name=" + name) + " " + ("reason=" + reason))) == Some(Marker(name, None, Some(reason)))
  {
    assert "name=" + name == "name" + "=" + name && "reason=" + reason == "reason" + "=" + reason;
    SkipWords(name, reason);
    SkipFields(name, reason);
  }

  lemma MarkerParses(m: Marker)
    requires Printable(Block(m, []))
    ensures MarkerText(m) != "" && ParseMarker(MarkerText(m)) == Some(m)
  {
    if m.step.Some? {
      RunMarkerParses(m.name, m.step.value);
    } else {
      SkipMarkerParses(m.name, m.reason.value);
    }
  }

  lemma {:induction false} FeedProse(p: Parser, prose: seq<string>)
    requires !p.inFence && p.pending.None? && forall i :: 0 <= i < |prose| ==> IsProse(prose[i])
    ensures FeedAll(p, prose) == Some(p)
  {
    if prose != [] {
      FeedProse(p, prose[1..]);
    }
  }

  lemma {:induction false} FeedBody(p: Parser, body: seq<string>)
    requires p.inFence && p.current.Some? && forall i :: 0 <= i < |body| ==> !Closes(body[i])
    ensures FeedAll(p, body) == Some(p.(body := p.body + body))
    decreases |body|
  {
    if body == [] {
      assert p.body + body == p.body;
    } else {
      FeedBody(p.(body := p.body + [body[0]]), body[1..]);
      assert p.body + [body[0]] + body[1..] == p.body + body;
    }
  }

  lemma FeedOne(p: Parser, line: string)
    ensures FeedAll(p, [line]) == Feed(p, line)
  {
    assert [line][1..] == [];
    var next := Feed(p, line);
    if next.Some? {
      assert FeedAll(next.value, []) == next;
    }
  }

  lemma FeedOpening(p: Parser, m: Marker)
    requires !p.inFence && p.pending.None? && p.current.None? && Printable(Block(m, []))
    ensures FeedAll(p, Opening(m)) == Some(p.(inFence := true, body := [], current := Some(m)))
  {
    var line := PREFIX + MarkerText(m) + SUFFIX;
    MarkerParses(m);
    MarkerRoundTrip(MarkerText(m));
    var marked := p.(pending := Some(m));
    assert Feed(p, line) == Some(marked);
    assert IsBash(BASH) && IsFence(BASH);
    FeedOne(p, line);
    FeedOne(marked, BASH);
    FeedAppend(p, [line], [BASH]);
  }

  ghost predicate Leaves(p: Parser, lines: seq<string>, q: Parser) {
    FeedAll(p, lines) == Some(q)
  }

  lemma Chain(p: Parser, first: seq<string>, q: Parser, rest: seq<string>, r: Parser)
    requires Leaves(p, first, q) && Leaves(q, rest, r)
    ensures Leaves(p, first + rest, r)
  {
    FeedAppend(p, first, rest);
  }

  lemma FeedClosing(p: Parser, b: Block)
    requires p.inFence && p.pending.None? && p.current == Some(b.marker) && p.body == b.body
    ensures Leaves(p, [TICKS], p.(inFence := false, current := None, blocks := p.blocks + [b]))
  {
    assert Closes(TICKS);
    FeedOne(p, TICKS);
  }

  lemma FeedFilled(p: Parser, b: Block)
    requires !p.inFence && p.pending.None? && p.current.None? && Printable(b)
    ensures Leaves(p, Opening(b.marker) + b.body, p.(inFence := true, body := b.body, current := Some(b.marker)))
  {
    var running := p.(inFence := true, body := [], current := Some(b.marker));
    FeedOpening(p, b.marker);
    FeedBody(running, b.body);
    assert [] + b.body == b.body;
    Chain(p, Opening(b.marker), running, b.body, running.(body := b.body));
  }

  lemma FeedBlock(p: Parser, b: Block)
    requires !p.inFence && p.pending.None? && p.current.None? && Printable(b)
    ensures Leaves(p, PrintBlock(b), p.(blocks := p.blocks + [b], body := b.body))
  {
    var filled := p.(inFence := true, body := b.body, current := Some(b.marker));
    FeedFilled(p, b);
    FeedClosing(filled, b);
    Chain(p, Opening(b.marker) + b.body, filled, [TICKS], p.(blocks := p.blocks + [b], body := b.body));
  }

  predicate Ready(p: Parser) {
    !p.inFence && p.pending.None? && p.current.None?
  }

  lemma {:induction false} FeedPassage(p: Parser, passage: Passage)
    requires Ready(p) && GoodPassage(passage)
    ensures FeedAll(p, passage.prose + PrintBlock(passage.block))
            == Some(p.(blocks := p.blocks + [passage.block], body := passage.block.body))
  {
    FeedProse(p, passage.prose);
    FeedBlock(p, passage.block);
    FeedAppend(p, passage.prose, PrintBlock(passage.block));
  }

  function AfterPassage(p: Parser, passage: Passage): Parser {
    p.(blocks := p.blocks + [passage.block], body := passage.block.body)
  }

  function AfterDoc(p: Parser, doc: seq<Passage>): (q: Parser)
    ensures q.blocks == p.blocks + BlocksOf(doc) && (Ready(p) ==> Ready(q))
    decreases |doc|
  {
    if doc == [] then p else AfterDoc(AfterPassage(p, doc[0]), doc[1..])
  }

  lemma {:induction false} FeedDoc(p: Parser, doc: seq<Passage>)
    requires Ready(p) && forall i :: 0 <= i < |doc| ==> GoodPassage(doc[i])
    ensures Leaves(p, Print(doc), AfterDoc(p, doc))
    decreases |doc|
  {
    if doc != [] {
      var next := AfterPassage(p, doc[0]);
      FeedPassage(p, doc[0]);
      FeedDoc(next, doc[1..]);
      Chain(p, doc[0].prose + PrintBlock(doc[0].block), next, Print(doc[1..]), AfterDoc(next, doc[1..]));
    }
  }

  lemma {:induction false} FeedText(p: Parser, doc: seq<Passage>, tail: seq<string>)
    requires Ready(p) && forall i :: 0 <= i < |doc| ==> GoodPassage(doc[i])
    requires forall i :: 0 <= i < |tail| ==> IsProse(tail[i])
    ensures Leaves(p, Print(doc) + tail, AfterDoc(p, doc))
  {
    var end := AfterDoc(p, doc);
    FeedDoc(p, doc);
    FeedProse(end, tail);
    assert Leaves(end, tail, end);
    Chain(p, Print(doc), end, tail, end);
  }

  /** Printing any valid blocks into any prose and parsing the result gives the same blocks. */
  lemma {:induction false} PrintThenParse(doc: seq<Passage>, tail: seq<string>)
    requires forall i :: 0 <= i < |doc| ==> GoodPassage(doc[i])
    requires forall i :: 0 <= i < |tail| ==> IsProse(tail[i])
    requires Valid(BlocksOf(doc))
    ensures Parse(Print(doc) + tail) == Some(BlocksOf(doc))
  {
    FeedText(FRESH, doc, tail);
    assert AfterDoc(FRESH, doc).blocks == BlocksOf(doc);
  }
}
