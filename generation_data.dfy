/**
 * parseGenerationData (src/utils.ts:3-207): the plain-text dialect of
 * generation parameters written by Stable Diffusion front ends,
 *
 *     <prompt lines>
 *     Negative prompt: <negative prompt lines>
 *     Steps: 30, Sampler: Euler a, CFG scale: 7, Seed: 1234, Size: 512x768, Model: sdxl
 *
 * parsed line by line by a three-state machine, and the early returns that
 * decide whether the line parser runs at all. The JSON stages in front of it
 * (JSON.parse, ComfyUI graphs, `extraMetadata`) are an input: `structured` is
 * the partial record they produced, `simplePositive` the decoded string of a
 * `"positive": "..."` pair when the text has one.
 */
module GenerationData {
  import opened Wrappers
  import opened Strings
  import opened Model

  // ---------------------------------------------------------------- regular-expression matches

  /** The maximal prefix of decimal digits. */
  function TakeDigits(s: string): (d: string)
    ensures |d| <= |s| && d == s[..|d|]
    ensures forall i :: 0 <= i < |d| ==> IsDigit(d[i])
    ensures |d| == |s| || !IsDigit(s[|d|])
  {
    if s == [] || !IsDigit(s[0]) then [] else [s[0]] + TakeDigits(s[1..])
  }

  /** The maximal prefix of characters other than ','. */
  function TakeUntilComma(s: string): (d: string)
    ensures |d| <= |s| && d == s[..|d|]
    ensures forall i :: 0 <= i < |d| ==> d[i] != ','
    ensures |d| == |s| || s[|d|] == ','
  {
    if s == [] || s[0] == ',' then [] else [s[0]] + TakeUntilComma(s[1..])
  }

  /** The maximal prefix of digits and dots, `[\d.]+`. */
  function TakeNumberChars(s: string): (d: string)
    ensures |d| <= |s| && d == s[..|d|]
    ensures forall i :: 0 <= i < |d| ==> IsDigit(d[i]) || d[i] == '.'
    ensures |d| == |s| || !(IsDigit(s[|d|]) || s[|d|] == '.')
  {
    if s == [] || !(IsDigit(s[0]) || s[0] == '.') then [] else [s[0]] + TakeNumberChars(s[1..])
  }

  /** `parseInt` of a string that starts with digits: the value of its leading digits. */
  function DigitsValue(d: string): nat
    decreases |d|
  {
    if d == [] then 0
    else if IsDigit(d[|d| - 1]) then 10 * DigitsValue(d[..|d| - 1]) + (d[|d| - 1] as int - '0' as int)
    else 0
  }

  /** Parsing the decimal rendering of a number gives the number back. */
  lemma {:induction false} DigitsValueOfString(n: nat)
    ensures DigitsValue(NatToString(n)) == n
    decreases n
  {
    var s := NatToString(n);
    if n >= 10 {
      DigitsValueOfString(n / 10);
      assert s[..|s| - 1] == NatToString(n / 10);
    }
  }

  /** `s.match(/<key>(\d+)/)?.[1]`: the digits after the leftmost `key` that a digit follows. */
  function MatchDigits(s: string, key: string): (r: Option<string>)
    decreases |s|
  {
    if StartsWith(s, key) && |key| < |s| && IsDigit(s[|key|]) then Some(TakeDigits(s[|key|..]))
    else if s == [] then None
    else MatchDigits(s[1..], key)
  }

  /** `s.match(/<key>([^,]+)/)?.[1]`: the text up to the next ',' after the leftmost `key` that is not followed by ','. */
  function MatchRun(s: string, key: string): (r: Option<string>)
    decreases |s|
  {
    if StartsWith(s, key) && |key| < |s| && s[|key|] != ',' then Some(TakeUntilComma(s[|key|..]))
    else if s == [] then None
    else MatchRun(s[1..], key)
  }

  /** `s.match(/<key>([\d.]+)/)?.[1]` */
  function MatchNumber(s: string, key: string): (r: Option<string>)
    decreases |s|
  {
    if StartsWith(s, key) && |key| < |s| && (IsDigit(s[|key|]) || s[|key|] == '.') then Some(TakeNumberChars(s[|key|..]))
    else if s == [] then None
    else MatchNumber(s[1..], key)
  }

  /** `s.match(/Size: (\d+)x(\d+)/)`: the two numbers after the leftmost "Size: " that has this shape. */
  function MatchSize(s: string): (r: Option<(string, string)>)
    decreases |s|
  {
    var key := "Size: ";
    if StartsWith(s, key) && SizeAt(s[|key|..]).Some? then SizeAt(s[|key|..])
    else if s == [] then None
    else MatchSize(s[1..])
  }

  /** `(\d+)x(\d+)` at the start of `s`. */
  function SizeAt(s: string): Option<(string, string)>
  {
    var w := TakeDigits(s);
    if w != [] && |w| < |s| && s[|w|] == 'x' && TakeDigits(s[|w| + 1..]) != [] then
      Some((w, TakeDigits(s[|w| + 1..])))
    else None
  }

  /** A key followed by a number in canonical form is read back as that number. */
  lemma MatchDigitsOfString(key: string, n: nat, rest: string)
    requires key != [] && (rest == [] || !IsDigit(rest[0]))
    ensures MatchDigits(key + NatToString(n) + rest, key) == Some(NatToString(n))
  {
    var s := key + NatToString(n) + rest;
    var d := NatToString(n);
    assert StartsWith(s, key);
    assert s[|key|] == d[0];
    var tail := s[|key|..];
    assert tail == d + rest;
    TakeDigitsOf(d, rest);
  }

  lemma {:induction false} TakeDigitsOf(d: string, rest: string)
    requires forall i :: 0 <= i < |d| ==> IsDigit(d[i])
    requires rest == [] || !IsDigit(rest[0])
    ensures TakeDigits(d + rest) == d
    decreases |d|
  {
    if d != [] {
      assert (d + rest)[1..] == d[1..] + rest;
      TakeDigitsOf(d[1..], rest);
    } else {
      assert d + rest == rest;
    }
  }

  /** No match means no occurrence of the key is followed by a digit. */
  lemma {:induction false} MatchDigitsNone(s: string, key: string, i: nat)
    requires MatchDigits(s, key) == None && i + |key| < |s|
    ensures !(s[i..i + |key|] == key && IsDigit(s[i + |key|]))
    decreases |s|
  {
    if i == 0 {
      assert s[..|key|] == s[0..|key|];
    } else {
      assert s[1..][i - 1..i - 1 + |key|] == s[i..i + |key|];
      MatchDigitsNone(s[1..], key, i - 1);
    }
  }

  // ---------------------------------------------------------------- the line machine

  /** The three states of the parser. */
  datatype Section = PromptSection | NegativeSection | ParamsSection

  /** The loop's variables: the state, the buffered lines and the result built so far. */
  datatype LineState = LineState(section: Section, buffer: seq<string>, result: Patch)

  /** A parameter line: starts with "Steps:" and names a sampler, a model or a CFG scale. */
  predicate IsParamLine(trimmed: string)
  {
    StartsWith(trimmed, "Steps:") &&
    (Contains(trimmed, "Sampler:") || Contains(trimmed, "Model:") || Contains(trimmed, "CFG scale:"))
  }

  /** `/^Negative [Pp]rompt:/` */
  predicate IsNegativeMarker(trimmed: string)
  {
    StartsWith(trimmed, "Negative prompt:") || StartsWith(trimmed, "Negative Prompt:")
  }

  /** `buffer.join('\n').trim()` */
  function Joined(buffer: seq<string>): string
  {
    Trim(JoinAll(buffer, "\n"))
  }

  /**
   * The fields a parameter line sets (src/utils.ts:135-139, 174-178): steps
   * default 20, seed default 0, CFG scale default 7 (its integer part), the
   * sampler and model as written up to the next ',', and the size if present.
   */
  function ParamsPatch(trimmed: string, result: Patch): Patch
  {
    SizePatch(trimmed, FieldsPatch(trimmed, result))
  }

  function FieldsPatch(trimmed: string, result: Patch): Patch
  {
    var steps := MatchDigits(trimmed, "Steps: ");
    var cfg := MatchNumber(trimmed, "CFG scale: ");
    var seed := MatchDigits(trimmed, "Seed: ");
    result[Steps := Num(if steps.Some? then DigitsValue(steps.value) else 20)]
          [Sampler := OptStr(MatchRun(trimmed, "Sampler: "))]
          [CfgScale := Num(if cfg.Some? then DigitsValue(TakeDigits(cfg.value)) else 7)]
          [Seed := Num(if seed.Some? then DigitsValue(seed.value) else 0)]
          [ModelName := OptStr(MatchRun(trimmed, "Model: "))]
  }

  lemma FieldsSteps(trimmed: string, result: Patch)
    ensures var steps := MatchDigits(trimmed, "Steps: ");
      Steps in FieldsPatch(trimmed, result) &&
      FieldsPatch(trimmed, result)[Steps] == Num(if steps.Some? then DigitsValue(steps.value) else 20)
  {
  }

  /** `if (size) { result.width = ...; result.height = ...; }` */
  function SizePatch(trimmed: string, result: Patch): Patch
  {
    var size := MatchSize(trimmed);
    if size.Some? then result[Width := Num(DigitsValue(size.value.0))][Height := Num(DigitsValue(size.value.1))]
    else result
  }

  /** The section a parameter or marker line closes, stored as prompt or negative prompt. */
  function Close(st: LineState): Patch
  {
    match st.section
    case PromptSection => st.result[Prompt := Str(Joined(st.buffer))]
    case NegativeSection => st.result[NegativePrompt := Str(Joined(st.buffer))]
    case ParamsSection => st.result
  }

  /** The text after the marker, `trimmed.replace(/^Negative [Pp]rompt:\s*\/i, "")`. */
  function MarkerContent(trimmed: string): string
    requires IsNegativeMarker(trimmed)
  {
    TrimStart(trimmed[16..])
  }

  /** One iteration of the loop over lines (src/utils.ts:122-189). */
  function Step(st: LineState, line: string): LineState
  {
    var trimmed := Trim(line);
    if trimmed == [] && st.buffer == [] && st.section == PromptSection then st
    else if st.section != ParamsSection && IsParamLine(trimmed) then
      LineState(ParamsSection, [], ParamsPatch(trimmed, Close(st)))
    else if st.section == PromptSection && IsNegativeMarker(trimmed) then
      var content := MarkerContent(trimmed);
      LineState(NegativeSection, if content == [] then [] else [content], Close(st))
    else
      st.(buffer := st.buffer + [line])
  }

  /** The loop over `lines` from state `st`. */
  function Fold(st: LineState, lines: seq<string>): LineState
    decreases |lines|
  {
    if lines == [] then st else Step(Fold(st, lines[..|lines| - 1]), lines[|lines| - 1])
  }

  const LABELS: seq<string> := ["parameters:", "usercomment:", "comments:", "prompt:"]

  /** `p.replace(/^(parameters|UserComment|Comments|prompt):\s*\/i, '')` */
  function StripLabel(p: string): (r: string)
    ensures |r| <= |p| && r == p[|p| - |r|..]
  {
    if StartsWith(ToLower(p), "parameters:") then TrimStart(p[11..])
    else if StartsWith(ToLower(p), "usercomment:") then TrimStart(p[12..])
    else if StartsWith(ToLower(p), "comments:") then TrimStart(p[9..])
    else if StartsWith(ToLower(p), "prompt:") then TrimStart(p[7..])
    else p
  }

  /** After the loop (src/utils.ts:191-199): the open section is stored, and a label in front of the prompt goes. */
  function Finish(st: LineState): Patch
  {
    var r := if st.section != ParamsSection && st.buffer != [] then Close(st) else st.result;
    if Prompt in r && r[Prompt].Str? && r[Prompt].s != [] then r[Prompt := Str(StripLabel(r[Prompt].s))] else r
  }

  /** The line parser on its own: from the JSON stages' result, through every line, to the end rules. */
  function ParseLines(structured: Patch, lines: seq<string>): Patch
  {
    Finish(Fold(LineState(PromptSection, [], structured), lines))
  }

  /** `s` without one trailing carriage return. */
  function DropCR(s: string): string
  {
    if s != [] && s[|s| - 1] == '\r' then s[..|s| - 1] else s
  }

  /** `text.split(/\r?\n/)` */
  function Lines(text: string): (ls: seq<string>)
    ensures |ls| == |Split(text, '\n')|
  {
    var pieces := Split(text, '\n');
    seq(|pieces|, i requires 0 <= i < |pieces| => if i < |pieces| - 1 then DropCR(pieces[i]) else pieces[i])
  }

  /** What parseGenerationData returns. */
  function GenerationData(text: string, structured: Patch, simplePositive: Option<string>): Patch
  {
    if text == [] then map[]
    else if TruthyAt(structured, Prompt) then structured
    else if StartsWith(Trim(text), "{") then
      (if simplePositive.Some? then structured[Prompt := Str(simplePositive.value)] else structured)
    else ParseLines(structured, Lines(text))
  }

  /**
   * parseGenerationData (src/utils.ts:3-207) from line 109 on: the early
   * returns, then the line parser.
   */
  method ParseGenerationData(text: string, structured: Patch, simplePositive: Option<string>) returns (result: Patch)
    ensures result == GenerationData(text, structured, simplePositive)
  {
    if text == [] {
      return map[];
    }
    result := structured;
    if TruthyAt(result, Prompt) {
      return;
    }
    if StartsWith(Trim(text), "{") {
      if simplePositive.Some? {
        result := result[Prompt := Str(simplePositive.value)];
      }
      return;
    }
    result := RunLines(structured, Lines(text));
  }

  /** The loop over the lines (src/utils.ts:119-200) with `state`, `buffer` and `result`. */
  method RunLines(structured: Patch, lines: seq<string>) returns (result: Patch)
    ensures result == ParseLines(structured, lines)
  {
    result := structured;
    var buffer: seq<string> := [];
    var state := PromptSection;
    var i := 0;
    while i < |lines|
      invariant 0 <= i <= |lines|
      invariant LineState(state, buffer, result) == Fold(LineState(PromptSection, [], structured), lines[..i])
    {
      FoldSnoc(LineState(PromptSection, [], structured), lines, i);
      state, buffer, result := LineStep(state, buffer, result, lines[i]);
      i := i + 1;
    }
    assert lines[..i] == lines;
    result := Finish(LineState(state, buffer, result));
  }

  /** The body of the loop over lines (src/utils.ts:123-189). */
  method LineStep(state0: Section, buffer0: seq<string>, result0: Patch, line: string)
    returns (state: Section, buffer: seq<string>, result: Patch)
    ensures LineState(state, buffer, result) == Step(LineState(state0, buffer0, result0), line)
  {
    state, buffer, result := state0, buffer0, result0;
    ghost var st := LineState(state0, buffer0, result0);
    var trimmed := Trim(line);
    if trimmed == [] && buffer == [] && state == PromptSection {
      StepSkip(st, line);
    } else if state != ParamsSection && IsParamLine(trimmed) {
      StepParams(st, line);
      var closed := Close(LineState(state, buffer, result));
      state, buffer, result := ParamsSection, [], ParamsPatch(trimmed, closed);
      assert LineState(state, buffer, result) == Step(st, line);
    } else if state == PromptSection && IsNegativeMarker(trimmed) {
      StepMarker(st, line);
      var content := MarkerContent(trimmed);
      result := result[Prompt := Str(Joined(buffer))];
      state := NegativeSection;
      buffer := if content != [] then [content] else [];
      assert LineState(state, buffer, result) == Step(st, line);
    } else {
      StepPlain(st, line);
      buffer := buffer + [line];
      assert LineState(state, buffer, result) == Step(st, line);
    }
  }

  lemma StepSkip(st: LineState, line: string)
    requires Trim(line) == [] && st.buffer == [] && st.section == PromptSection
    ensures Step(st, line) == st
  {
  }

  lemma StepParams(st: LineState, line: string)
    requires !(Trim(line) == [] && st.buffer == [] && st.section == PromptSection)
    requires st.section != ParamsSection && IsParamLine(Trim(line))
    ensures Step(st, line) == LineState(ParamsSection, [], ParamsPatch(Trim(line), Close(st)))
  {
  }

  lemma StepMarker(st: LineState, line: string)
    requires !(Trim(line) == [] && st.buffer == [] && st.section == PromptSection)
    requires !(st.section != ParamsSection && IsParamLine(Trim(line)))
    requires st.section == PromptSection && IsNegativeMarker(Trim(line))
    ensures Step(st, line) ==
      LineState(NegativeSection, if MarkerContent(Trim(line)) == [] then [] else [MarkerContent(Trim(line))], Close(st))
  {
  }

  lemma StepPlain(st: LineState, line: string)
    requires !(Trim(line) == [] && st.buffer == [] && st.section == PromptSection)
    requires !(st.section != ParamsSection && IsParamLine(Trim(line)))
    requires !(st.section == PromptSection && IsNegativeMarker(Trim(line)))
    ensures Step(st, line) == st.(buffer := st.buffer + [line])
  {
  }

  lemma FoldSnoc(st: LineState, lines: seq<string>, i: nat)
    requires i < |lines|
    ensures Fold(st, lines[..i + 1]) == Step(Fold(st, lines[..i]), lines[i])
  {
    assert lines[..i + 1][..i] == lines[..i];
  }

  // ---------------------------------------------------------------- properties

  /** Empty text gives an empty result; a truthy prompt from the JSON stages is returned as it is. */
  lemma EarlyReturns(text: string, structured: Patch, simplePositive: Option<string>)
    ensures text == [] ==> GenerationData(text, structured, simplePositive) == map[]
    ensures text != [] && TruthyAt(structured, Prompt) ==> GenerationData(text, structured, simplePositive) == structured
  {
  }

  /**
   * Text that starts with '{' never reaches the line parser: apart from the
   * prompt of a `"positive"` pair, the result is what the JSON stages produced.
   */
  lemma BraceTextNotLineParsed(text: string, structured: Patch, simplePositive: Option<string>, f: Field)
    requires text != [] && StartsWith(Trim(text), "{") && f != Prompt
    ensures var r := GenerationData(text, structured, simplePositive);
      (f in r <==> f in structured) && (f in r ==> r[f] == structured[f])
  {
    var r := GenerationData(text, structured, simplePositive);
    assert r == structured || (simplePositive.Some? && r == structured[Prompt := Str(simplePositive.value)]);
  }

  lemma {:induction false} FoldAppend(st: LineState, a: seq<string>, b: seq<string>)
    ensures Fold(st, a + b) == Fold(Fold(st, a), b)
    decreases |b|
  {
    if b == [] {
      assert a + b == a;
    } else {
      assert (a + b)[..|a + b| - 1] == a + b[..|b| - 1];
      assert (a + b)[|a + b| - 1] == b[|b| - 1];
      FoldAppend(st, a, b[..|b| - 1]);
    }
  }

  predicate Blank(line: string) { Trim(line) == [] }

  /** Blank lines before the first text are skipped. */
  lemma {:induction false} FoldLeadingBlanks(r: Patch, blanks: seq<string>)
    requires forall k :: 0 <= k < |blanks| ==> Blank(blanks[k])
    ensures Fold(LineState(PromptSection, [], r), blanks) == LineState(PromptSection, [], r)
    decreases |blanks|
  {
    if blanks != [] {
      FoldLeadingBlanks(r, blanks[..|blanks| - 1]);
    }
  }

  /** A line that the state `section` simply buffers. */
  predicate Plain(section: Section, line: string)
  {
    (section != ParamsSection ==> !IsParamLine(Trim(line))) &&
    (section == PromptSection ==> !IsNegativeMarker(Trim(line)))
  }

  /** Lines that are neither parameter lines nor markers are buffered as they are, once the buffer holds something. */
  lemma {:induction false} FoldPlain(st: LineState, ls: seq<string>)
    requires st.buffer != [] || st.section != PromptSection
    requires forall k :: 0 <= k < |ls| ==> Plain(st.section, ls[k])
    ensures Fold(st, ls) == st.(buffer := st.buffer + ls)
    decreases |ls|
  {
    if ls == [] {
      assert st.buffer + ls == st.buffer;
    } else {
      var init, last := ls[..|ls| - 1], ls[|ls| - 1];
      assert forall k :: 0 <= k < |init| ==> init[k] == ls[k];
      FoldPlain(st, init);
      var mid := st.(buffer := st.buffer + init);
      assert Plain(st.section, last);
      StepPlain(mid, last);
      BufferSnoc(st.buffer, ls);
    }
  }

  lemma BufferSnoc(buffer: seq<string>, ls: seq<string>)
    requires ls != []
    ensures buffer + ls[..|ls| - 1] + [ls[|ls| - 1]] == buffer + ls
  {
    assert ls[..|ls| - 1] + [ls[|ls| - 1]] == ls;
  }

  /** After the parameter line every line is buffered and the result no longer changes. */
  lemma {:induction false} FoldParams(st: LineState, ls: seq<string>)
    requires st.section == ParamsSection
    ensures Fold(st, ls) == st.(buffer := st.buffer + ls)
    decreases |ls|
  {
    if ls == [] {
      assert st.buffer + ls == st.buffer;
    } else {
      var init := ls[..|ls| - 1];
      FoldParams(st, init);
      assert st.buffer + init + [ls[|ls| - 1]] == st.buffer + ls;
    }
  }

  /**
   * A parameter line closes the text: nothing after it changes the result,
   * so later lines never reach the prompt or the negative prompt.
   */
  lemma ParamsLineFreezes(structured: Patch, pre: seq<string>, param: string, post: seq<string>)
    requires Fold(LineState(PromptSection, [], structured), pre).section != ParamsSection
    requires IsParamLine(Trim(param))
    ensures ParseLines(structured, pre + [param] + post) == ParseLines(structured, pre + [param])
  {
    var start := LineState(PromptSection, [], structured);
    FoldAppend(start, pre, [param]);
    ParamStep(Fold(start, pre), param);
    var mid := Fold(start, pre + [param]);
    FoldAppend(start, pre + [param], post);
    FoldParams(mid, post);
  }

  /** A parameter line outside the parameter section opens it with an empty buffer. */
  lemma ParamStep(st: LineState, param: string)
    requires st.section != ParamsSection && IsParamLine(Trim(param))
    ensures Fold(st, [param]).section == ParamsSection && Fold(st, [param]).buffer == []
  {
    assert [param][..0] == [];
  }

  /**
   * The prompt/negative split: after optional blank lines, the prompt lines up
   * to a "Negative prompt:" marker become the trimmed prompt, and the text after
   * the marker on the same line starts the negative prompt, which runs to the
   * end of the text.
   */
  lemma NegativeSplit(structured: Patch, blanks: seq<string>, first: string, rest: seq<string>,
                      marker: string, neg: seq<string>)
    requires forall k :: 0 <= k < |blanks| ==> Blank(blanks[k])
    requires !Blank(first) && Plain(PromptSection, first)
    requires forall k :: 0 <= k < |rest| ==> Plain(PromptSection, rest[k])
    requires IsNegativeMarker(Trim(marker))
    requires forall k :: 0 <= k < |neg| ==> Plain(NegativeSection, neg[k])
    ensures var r := ParseLines(structured, blanks + [first] + rest + [marker] + neg);
      var content := MarkerContent(Trim(marker));
      var negLines := (if content == [] then [] else [content]) + neg;
      Prompt in r && r[Prompt] == Str(if Joined([first] + rest) == [] then [] else StripLabel(Joined([first] + rest))) &&
      (negLines != [] ==> NegativePrompt in r && r[NegativePrompt] == Str(Joined(negLines))) &&
      (negLines == [] ==> (NegativePrompt in r <==> NegativePrompt in structured))
  {
    var start := LineState(PromptSection, [], structured);
    var lines := blanks + [first] + rest;
    PromptLines(structured, blanks, first, rest);
    var s2 := LineState(PromptSection, [first] + rest, structured);
    var content := MarkerContent(Trim(marker));
    MarkerStep(s2, marker);
    var s3 := LineState(NegativeSection, if content == [] then [] else [content], Close(s2));
    FoldAppend(start, lines, [marker]);
    FoldAppend(start, lines + [marker], neg);
    FoldPlain(s3, neg);
    NegativeFinish(Joined([first] + rest), structured, s3.buffer + neg);
  }

  /** Leading blank lines are skipped, then the prompt lines are buffered. */
  lemma PromptLines(structured: Patch, blanks: seq<string>, first: string, rest: seq<string>)
    requires forall k :: 0 <= k < |blanks| ==> Blank(blanks[k])
    requires !Blank(first) && Plain(PromptSection, first)
    requires forall k :: 0 <= k < |rest| ==> Plain(PromptSection, rest[k])
    ensures Fold(LineState(PromptSection, [], structured), blanks + [first] + rest)
      == LineState(PromptSection, [first] + rest, structured)
  {
    var start := LineState(PromptSection, [], structured);
    FoldLeadingBlanks(structured, blanks);
    assert (blanks + [first])[..|blanks|] == blanks;
    var s1 := Fold(start, blanks + [first]);
    assert s1 == LineState(PromptSection, [first], structured);
    FoldAppend(start, blanks + [first], rest);
    FoldPlain(s1, rest);
  }

  /** A marker line in the prompt section stores the prompt and opens the negative section. */
  lemma MarkerStep(st: LineState, marker: string)
    requires st.section == PromptSection && IsNegativeMarker(Trim(marker))
    ensures Fold(st, [marker]) == LineState(NegativeSection,
      if MarkerContent(Trim(marker)) == [] then [] else [MarkerContent(Trim(marker))], Close(st))
  {
    var t := Trim(marker);
    assert t[0] == 'N';
    assert !IsParamLine(t) by { assert t[..6][0] == 'N'; }
    assert Fold(st, [marker]) == Step(st, marker) by { assert [marker][..0] == []; }
    StepMarker(st, marker);
  }

  lemma NegativeFinish(promptValue: string, structured: Patch, negLines: seq<string>)
    ensures var r := Finish(LineState(NegativeSection, negLines, structured[Prompt := Str(promptValue)]));
      Prompt in r && r[Prompt] == Str(if promptValue == [] then [] else StripLabel(promptValue)) &&
      (negLines != [] ==> NegativePrompt in r && r[NegativePrompt] == Str(Joined(negLines))) &&
      (negLines == [] ==> (NegativePrompt in r <==> NegativePrompt in structured))
  {
    var base := structured[Prompt := Str(promptValue)];
    var st := LineState(NegativeSection, negLines, base);
    var r := if negLines != [] then base[NegativePrompt := Str(Joined(negLines))] else base;
    assert r == (if st.section != ParamsSection && st.buffer != [] then Close(st) else st.result);
    assert Prompt in r && r[Prompt] == Str(promptValue);
    assert Finish(st) == if promptValue != [] then r[Prompt := Str(StripLabel(promptValue))] else r;
  }

  /** A parameter line without numbers gets the default steps (20) and seed (0). */
  lemma ParamsDefaults(trimmed: string, result: Patch)
    requires forall i :: 0 <= i < |trimmed| ==> !IsDigit(trimmed[i])
    ensures ParamsPatch(trimmed, result)[Steps] == Num(20)
    ensures ParamsPatch(trimmed, result)[Seed] == Num(0)
  {
    NoDigitNoMatch(trimmed, "Steps: ");
    NoDigitNoMatch(trimmed, "Seed: ");
  }

  lemma {:induction false} NoDigitNoMatch(s: string, key: string)
    requires forall i :: 0 <= i < |s| ==> !IsDigit(s[i])
    ensures MatchDigits(s, key) == None
    decreases |s|
  {
    if s != [] {
      NoDigitNoMatch(s[1..], key);
    }
  }

  /** A step count written in decimal is read as that number. */
  lemma ParamsRead(steps: nat, rest: string, result: Patch)
    requires rest == [] || !IsDigit(rest[0])
    ensures var r := ParamsPatch("Steps: " + (NatToString(steps) + rest), result);
      Steps in r && r[Steps] == Num(steps)
  {
    var t := "Steps: " + (NatToString(steps) + rest);
    StepsMatched(NatToString(steps), rest);
    DigitsValueOfString(steps);
    var fields := FieldsPatch(t, result);
    FieldsSteps(t, result);
    SizePatchOther(t, fields, Steps);
    assert ParamsPatch(t, result) == SizePatch(t, fields);
  }

  lemma StepsMatched(d: string, rest: string)
    requires d != [] && forall i :: 0 <= i < |d| ==> IsDigit(d[i])
    requires rest == [] || !IsDigit(rest[0])
    ensures MatchDigits("Steps: " + (d + rest), "Steps: ") == Some(d)
  {
    var s := "Steps: " + (d + rest);
    assert s[..7] == "Steps: ";
    assert s[7..] == d + rest;
    TakeDigitsOf(d, rest);
  }

  /** The size rule touches only width and height. */
  lemma SizePatchOther(trimmed: string, result: Patch, f: Field)
    requires f != Width && f != Height
    ensures var r := SizePatch(trimmed, result);
      (f in r <==> f in result) && (f in r ==> r[f] == result[f])
  {
  }

  /** "Size: WxH" sets width and height. */
  lemma SizeRead(pre: string, w: nat, h: nat, post: string, result: Patch)
    requires !Contains(pre, "Size: ")
    requires post == [] || !IsDigit(post[0])
    ensures var r := SizePatch(pre + ("Size: " + (NatToString(w) + ("x" + (NatToString(h) + post)))), result);
      Width in r && r[Width] == Num(w) && Height in r && r[Height] == Num(h)
  {
    DigitsValueOfString(w);
    DigitsValueOfString(h);
    SizeMatched(pre, NatToString(w), NatToString(h), post);
  }

  lemma SizeMatched(pre: string, dw: string, dh: string, post: string)
    requires !Contains(pre, "Size: ")
    requires dw != [] && forall i :: 0 <= i < |dw| ==> IsDigit(dw[i])
    requires dh != [] && forall i :: 0 <= i < |dh| ==> IsDigit(dh[i])
    requires post == [] || !IsDigit(post[0])
    ensures MatchSize(pre + ("Size: " + (dw + ("x" + (dh + post))))) == Some((dw, dh))
  {
    var tail := dw + ("x" + (dh + post));
    SizeAtOf(dw, dh, post);
    var s := "Size: " + tail;
    assert s[6..] == tail;
    MatchSizeAfter(pre, s);
  }

  lemma SizeAtOf(dw: string, dh: string, post: string)
    requires dw != [] && forall i :: 0 <= i < |dw| ==> IsDigit(dw[i])
    requires dh != [] && forall i :: 0 <= i < |dh| ==> IsDigit(dh[i])
    requires post == [] || !IsDigit(post[0])
    ensures SizeAt(dw + ("x" + (dh + post))) == Some((dw, dh))
  {
    var after := "x" + (dh + post);
    var s := dw + after;
    TakeDigitsOf(dw, after);
    assert s[|dw|] == 'x';
    assert s[|dw| + 1..] == dh + post;
    TakeDigitsOf(dh, post);
  }

  lemma {:induction false} MatchSizeAfter(pre: string, s: string)
    requires !Contains(pre, "Size: ")
    requires StartsWith(s, "Size: ") && SizeAt(s[6..]).Some?
    ensures MatchSize(pre + s) == SizeAt(s[6..])
    decreases |pre|
  {
    if pre == [] {
      assert pre + s == s;
    } else {
      assert !StartsWith(pre, "Size: ");
      assert (pre + s)[1..] == pre[1..] + s;
      if |pre| >= 6 {
        assert (pre + s)[..6] == pre[..6];
      } else {
        ContainsPrefixOverlap(pre, s);
      }
      MatchSizeAfter(pre[1..], s);
    }
  }

  /** "Size: " cannot start in a short non-empty prefix and end in a string that itself starts with "Size: ". */
  lemma ContainsPrefixOverlap(pre: string, s: string)
    requires 0 < |pre| < 6 && StartsWith(s, "Size: ")
    ensures !StartsWith(pre + s, "Size: ")
  {
    var t := pre + s;
    var key := "Size: ";
    assert t[|pre|] == 'S';
    assert key[|pre|] != 'S';
    assert t[..6][|pre|] != key[|pre|];
  }
}
