/**
 * The string helpers of src/utils.ts that the library and the sync code rely
 * on: file-name sanitising, tag extraction from a prompt, the aspect-ratio
 * bucket, and the path/URL normalisation between `file://`, `media://` and
 * plain paths. Text is ASCII; `decodeURIComponent` and `encodeURIComponent`
 * are the identity on the paths considered here.
 */
module Utils {
  import opened Strings

  // ---------------------------------------------------------------- character classes

  predicate IsLetter(c: char) { 'a' <= c <= 'z' || 'A' <= c <= 'Z' }

  predicate IsLowerAlnum(c: char) { 'a' <= c <= 'z' || '0' <= c <= '9' }

  /** The characters `sanitizeFilename` keeps: `[a-z0-9\-_ ]` ignoring case. */
  predicate FilenameChar(c: char) { IsLetter(c) || IsDigit(c) || c == '-' || c == '_' || c == ' ' }

  /** The characters a tag is made of: `[a-z0-9_-]`. */
  predicate TagChar(c: char) { IsLowerAlnum(c) || c == '_' || c == '-' }

  /** The character classes the regular expressions below test. */
  datatype CharClass = FilenameChars | NotBracket | TagSource | TagChars | LowerAlnum | Spaces | Underscore

  predicate In(k: CharClass, c: char)
  {
    match k
    case FilenameChars => FilenameChar(c)
    case NotBracket => c !in "()[]{}"
    case TagSource => IsLowerAlnum(c) || IsSpace(c) || c == '_' || c == '-'
    case TagChars => TagChar(c)
    case LowerAlnum => IsLowerAlnum(c)
    case Spaces => IsSpace(c)
    case Underscore => c == '_'
  }

  /** `s.replace(/[^...]/g, '')`: the characters of `s` in class `k`, in order. */
  function Filter(s: string, k: CharClass): (r: string)
    ensures |r| <= |s|
  {
    if s == [] then [] else (if In(k, s[0]) then [s[0]] else []) + Filter(s[1..], k)
  }

  /** What survives a filter is in the class. */
  lemma {:induction false} FilterClass(s: string, k: CharClass)
    ensures forall i :: 0 <= i < |Filter(s, k)| ==> In(k, Filter(s, k)[i])
  {
    if s != [] {
      FilterClass(s[1..], k);
    }
  }

  /** Filtering keeps a string whose characters are all in the class. */
  lemma {:induction false} FilterAll(s: string, k: CharClass)
    requires forall i :: 0 <= i < |s| ==> In(k, s[i])
    ensures Filter(s, k) == s
  {
    if s != [] {
      FilterAll(s[1..], k);
    }
  }

  /** Every character of `Trim(s)` is a character of `s`. */
  lemma TrimChars(s: string, k: CharClass)
    requires forall i :: 0 <= i < |s| ==> In(k, s[i])
    ensures forall i :: 0 <= i < |Trim(s)| ==> In(k, Trim(s)[i])
  {
    var r := Trim(s);
    var a := TrimSlice(s);
    forall i | 0 <= i < |r|
      ensures In(k, r[i])
    {
      assert r[i] == s[a + i];
    }
  }

  // ---------------------------------------------------------------- sanitizeFilename

  /** sanitizeFilename (src/utils.ts:212-215) */
  function SanitizeFilename(name: string): (r: string)
    ensures r != []
    ensures forall i :: 0 <= i < |r| ==> FilenameChar(r[i])
    ensures r[0] != ' ' && r[|r| - 1] != ' '
    ensures Trim(Filter(name, FilenameChars)) == [] ==> r == "untitled"
    ensures Trim(Filter(name, FilenameChars)) != [] ==> r == Trim(Filter(name, FilenameChars))
  {
    if name == [] then "untitled"
    else
      var kept := Filter(name, FilenameChars);
      FilterClass(name, FilenameChars);
      TrimChars(kept, FilenameChars);
      var t := Trim(kept);
      if t == [] then "untitled" else t
  }

  /** Sanitising a sanitised name changes nothing. */
  lemma SanitizeIdempotent(name: string)
    ensures SanitizeFilename(SanitizeFilename(name)) == SanitizeFilename(name)
  {
    var r := SanitizeFilename(name);
    assert forall i :: 0 <= i < |r| ==> In(FilenameChars, r[i]);
    FilterAll(r, FilenameChars);
    assert !IsSpace(r[0]) && !IsSpace(r[|r| - 1]);
    TrimNoSpace(r);
  }

  // ---------------------------------------------------------------- extractTagsFromPrompt

  /** Drop the maximal prefix of characters satisfying `p`. */
  function DropRun(s: string, k: CharClass): (r: string)
    ensures |r| <= |s| && r == s[|s| - |r|..]
    ensures r == [] || !In(k, r[0])
  {
    if s != [] && In(k, s[0]) then DropRun(s[1..], k) else s
  }

  /** `s.replace(/x+/g, rep)`: every maximal run of characters of class `run` becomes one `rep`. */
  function Collapse(s: string, run: CharClass, rep: char): (r: string)
    ensures s != [] ==> r != [] && r[0] == (if In(run, s[0]) then rep else s[0])
    decreases |s|
  {
    if s == [] then []
    else if In(run, s[0]) then [rep] + Collapse(DropRun(s[1..], run), run, rep)
    else [s[0]] + Collapse(s[1..], run, rep)
  }

  /** Collapsing keeps the character class: the result holds `rep` or characters of `s` outside the run class. */
  lemma {:induction false} CollapseClass(s: string, run: CharClass, rep: char, ok: CharClass)
    requires forall i :: 0 <= i < |s| ==> In(ok, s[i]) || In(run, s[i])
    requires In(ok, rep)
    ensures forall i :: 0 <= i < |Collapse(s, run, rep)| ==>
      In(ok, Collapse(s, run, rep)[i]) && (Collapse(s, run, rep)[i] == rep || !In(run, Collapse(s, run, rep)[i]))
    decreases |s|
  {
    if s != [] {
      var t := if In(run, s[0]) then DropRun(s[1..], run) else s[1..];
      SuffixClass(s, t, run, ok);
      CollapseClass(t, run, rep, ok);
    }
  }

  lemma SuffixClass(s: string, t: string, a: CharClass, b: CharClass)
    requires forall i :: 0 <= i < |s| ==> In(b, s[i]) || In(a, s[i])
    requires |t| <= |s| && t == s[|s| - |t|..]
    ensures forall i :: 0 <= i < |t| ==> In(b, t[i]) || In(a, t[i])
  {
    forall i | 0 <= i < |t| ensures In(b, t[i]) || In(a, t[i]) {
      assert t[i] == s[|s| - |t| + i];
    }
  }

  /** When `rep` belongs to the run class, the result never has two `rep`s side by side. */
  lemma {:induction false} CollapseNoDouble(s: string, run: CharClass, rep: char)
    requires In(run, rep)
    ensures forall i :: 0 <= i < |Collapse(s, run, rep)| - 1 ==>
      !(Collapse(s, run, rep)[i] == rep && Collapse(s, run, rep)[i + 1] == rep)
    decreases |s|
  {
    if s != [] {
      if In(run, s[0]) {
        CollapseNoDouble(DropRun(s[1..], run), run, rep);
      } else {
        CollapseNoDouble(s[1..], run, rep);
      }
    }
  }

  /** `s.replace(/^_|_$/g, '')` */
  function StripUnderscoreEnds(s: string): (r: string)
    ensures |r| <= |s|
  {
    var a := if s != [] && s[0] == '_' then s[1..] else s;
    if a != [] && a[|a| - 1] == '_' then a[..|a| - 1] else a
  }

  predicate NotSpaceOrUnderscore(c: char) { !IsSpace(c) && c != '_' }

  /** `s.split(c)[0]`: the text before the first `c`. */
  function BeforeChar(s: string, c: char): (r: string)
  {
    if s == [] || s[0] == c then [] else [s[0]] + BeforeChar(s[1..], c)
  }

  lemma {:induction false} BeforeCharClass(s: string, c: char, k: CharClass)
    requires forall i :: 0 <= i < |s| ==> In(k, s[i])
    ensures forall i :: 0 <= i < |BeforeChar(s, c)| ==> In(k, BeforeChar(s, c)[i]) && BeforeChar(s, c)[i] != c
  {
    if s != [] && s[0] != c {
      BeforeCharClass(s[1..], c, k);
    }
  }

  /** The cleaning chain of addTag (src/utils.ts:297-303). */
  function CleanTag(tag: string): string
  {
    Polish(Filter(BeforeChar(Filter(ToLower(Trim(tag)), NotBracket), ':'), TagSource))
  }

  /** The last three replacements of the chain: white-space runs and '_' runs become one '_', and an edge '_' goes. */
  function Polish(kept: string): string
  {
    StripUnderscoreEnds(Collapse(Collapse(kept, Spaces, '_'), Underscore, '_'))
  }

  /** What addTag accepts: 3 to 30 characters from `[a-z0-9_-]`, not starting or ending with '_'. */
  predicate ValidTag(t: string)
  {
    3 <= |t| <= 30 && (forall i :: 0 <= i < |t| ==> TagChar(t[i])) && t[0] != '_' && t[|t| - 1] != '_'
  }

  /** Stripping an edge '_' from a string with no "__" leaves no '_' at either end. */
  lemma StripShape(s: string)
    requires forall i :: 0 <= i < |s| ==> TagChar(s[i])
    requires forall i :: 0 <= i < |s| - 1 ==> !(s[i] == '_' && s[i + 1] == '_')
    ensures var r := StripUnderscoreEnds(s);
      (forall i :: 0 <= i < |r| ==> TagChar(r[i])) && (r == [] || (r[0] != '_' && r[|r| - 1] != '_'))
  {
    var lo := if s != [] && s[0] == '_' then 1 else 0;
    var a := s[lo..];
    var hi := if a != [] && a[|a| - 1] == '_' then |s| - 1 else |s|;
    var r := StripUnderscoreEnds(s);
    assert r == s[lo..hi];
    if r != [] {
      assert r[0] == s[lo] && r[|r| - 1] == s[hi - 1];
      if lo == 1 {
        assert s[0] == '_';
      }
      if hi == |s| - 1 {
        assert s[|s| - 1] == '_';
      }
    }
  }

  /** A cleaned tag has only tag characters and no '_' at either end. */
  lemma CleanTagShape(tag: string)
    ensures var c := CleanTag(tag);
      (forall i :: 0 <= i < |c| ==> TagChar(c[i])) && (c == [] || (c[0] != '_' && c[|c| - 1] != '_'))
  {
    var kept := Filter(BeforeChar(Filter(ToLower(Trim(tag)), NotBracket), ':'), TagSource);
    FilterClass(BeforeChar(Filter(ToLower(Trim(tag)), NotBracket), ':'), TagSource);
    PolishShape(kept);
  }

  lemma PolishShape(kept: string)
    requires forall i :: 0 <= i < |kept| ==> In(TagSource, kept[i])
    ensures var c := Polish(kept);
      (forall i :: 0 <= i < |c| ==> TagChar(c[i])) && (c == [] || (c[0] != '_' && c[|c| - 1] != '_'))
  {
    var spaced := Collapse(kept, Spaces, '_');
    CollapseClass(kept, Spaces, '_', TagChars);
    var single := Collapse(spaced, Underscore, '_');
    CollapseClass(spaced, Underscore, '_', TagChars);
    CollapseNoDouble(spaced, Underscore, '_');
    StripShape(single);
  }

  /** One call of addTag (src/utils.ts:296-309) on an already cleaned candidate. */
  function AddCleaned(extracted: seq<string>, cleaned: string): seq<string>
  {
    if 2 < |cleaned| <= 30 && cleaned !in extracted then extracted + [cleaned] else extracted
  }

  /** addTag applied to each cleaned candidate in turn. */
  function AddAll(extracted: seq<string>, cleaned: seq<string>): seq<string>
    decreases |cleaned|
  {
    if cleaned == [] then extracted
    else AddCleaned(AddAll(extracted, cleaned[..|cleaned| - 1]), cleaned[|cleaned| - 1])
  }

  /** The cleaned form of each candidate. */
  function Cleaned(tags: seq<string>): (r: seq<string>)
    ensures |r| == |tags|
    decreases |tags|
  {
    if tags == [] then [] else Cleaned(tags[..|tags| - 1]) + [CleanTag(tags[|tags| - 1])]
  }

  lemma {:induction false} CleanedAppend(a: seq<string>, b: seq<string>)
    ensures Cleaned(a + b) == Cleaned(a) + Cleaned(b)
    decreases |b|
  {
    if b == [] {
      assert a + b == a;
    } else {
      assert (a + b)[..|a + b| - 1] == a + b[..|b| - 1];
      assert (a + b)[|a + b| - 1] == b[|b| - 1];
      CleanedAppend(a, b[..|b| - 1]);
    }
  }

  lemma CleanedSnoc(ts: seq<string>, t: string)
    ensures Cleaned(ts + [t]) == Cleaned(ts) + [CleanTag(t)]
  {
    assert (ts + [t])[..|ts|] == ts;
  }

  lemma {:induction false} CleanedAt(tags: seq<string>, k: nat)
    requires k < |tags|
    ensures Cleaned(tags)[k] == CleanTag(tags[k])
    decreases |tags|
  {
    if k < |tags| - 1 {
      CleanedAt(tags[..|tags| - 1], k);
    }
  }

  lemma {:induction false} AddAllAppend(extracted: seq<string>, a: seq<string>, b: seq<string>)
    ensures AddAll(extracted, a + b) == AddAll(AddAll(extracted, a), b)
    decreases |b|
  {
    if b == [] {
      assert a + b == a;
    } else {
      assert (a + b)[..|a + b| - 1] == a + b[..|b| - 1];
      assert (a + b)[|a + b| - 1] == b[|b| - 1];
      AddAllAppend(extracted, a, b[..|b| - 1]);
    }
  }

  predicate Distinct(ts: seq<string>)
  {
    forall i, j :: 0 <= i < j < |ts| ==> ts[i] != ts[j]
  }

  /** addTag keeps the list distinct, adds only what it accepts and never drops an entry. */
  lemma {:induction false} AddAllInvariant(extracted: seq<string>, cleaned: seq<string>)
    requires Distinct(extracted)
    ensures var r := AddAll(extracted, cleaned);
      Distinct(r) && |r| >= |extracted| && r[..|extracted|] == extracted &&
      forall t :: t in r ==> t in extracted || (t in cleaned && 2 < |t| <= 30)
    decreases |cleaned|
  {
    if cleaned != [] {
      var init := cleaned[..|cleaned| - 1];
      AddAllInvariant(extracted, init);
      var prev := AddAll(extracted, init);
      assert forall t :: t in init ==> t in cleaned;
      AddCleanedKeeps(extracted, prev, cleaned[|cleaned| - 1]);
    }
  }

  /** One addTag step keeps the list distinct and its prefix, and adds at most an accepted candidate. */
  lemma AddCleanedKeeps(extracted: seq<string>, prev: seq<string>, c: string)
    requires Distinct(prev) && |prev| >= |extracted| && prev[..|extracted|] == extracted
    ensures var r := AddCleaned(prev, c);
      Distinct(r) && |r| >= |extracted| && r[..|extracted|] == extracted &&
      forall t :: t in r ==> t in prev || (t == c && 2 < |t| <= 30)
  {
    var r := AddCleaned(prev, c);
    assert r[..|prev|] == prev;
    assert r[..|prev|][..|extracted|] == r[..|extracted|];
  }

  /** Every candidate of acceptable length ends up in the list. */
  lemma {:induction false} AddAllComplete(extracted: seq<string>, cleaned: seq<string>, t: string)
    requires t in cleaned && 2 < |t| <= 30
    ensures t in AddAll(extracted, cleaned)
    decreases |cleaned|
  {
    var init := cleaned[..|cleaned| - 1];
    if t in init {
      AddAllComplete(extracted, init, t);
    }
  }

  /** The maximal non-space prefix of `s`. */
  function TakeWord(s: string): (w: string)
    ensures |w| <= |s| && w == s[..|w|]
    ensures forall i :: 0 <= i < |w| ==> !IsSpace(w[i])
  {
    if s == [] || IsSpace(s[0]) then [] else [s[0]] + TakeWord(s[1..])
  }

  /** `s.split(/\s+/).filter(w => w.length > 0)` */
  function Words(s: string): (ws: seq<string>)
    ensures forall k :: 0 <= k < |ws| ==> ws[k] != []
    decreases |s|
  {
    if s == [] then []
    else if IsSpace(s[0]) then Words(s[1..])
    else var w := TakeWord(s); [w] + Words(s[|w|..])
  }

  const SKIP_WORDS: set<string> := {
    "a", "an", "the", "of", "in", "on", "at", "to", "for", "with", "and", "or", "is", "are", "was",
    "were", "be", "been", "being", "have", "has", "had", "do", "does", "did", "will", "would", "could",
    "should", "may", "might", "must", "shall", "can", "need", "dare", "ought", "used", "her", "his",
    "its", "their", "our", "your", "my", "out", "up", "down", "off", "over", "under", "again",
    "further", "then", "once"}

  /** A word of a long phrase is skipped when, lower-cased and stripped to `[a-z0-9]`, it is a stop word. */
  predicate Skipped(word: string)
  {
    Filter(ToLower(word), LowerAlnum) in SKIP_WORDS
  }

  /** The words of a long phrase that are not stop words. */
  function Unskipped(words: seq<string>): seq<string>
    decreases |words|
  {
    if words == [] then []
    else if Skipped(words[|words| - 1]) then Unskipped(words[..|words| - 1])
    else Unskipped(words[..|words| - 1]) + [words[|words| - 1]]
  }

  /** The strings one comma-separated part hands to addTag (src/utils.ts:311-339). */
  function PartTags(part: string): seq<string>
  {
    var trimmed := Trim(part);
    if trimmed == [] then []
    else
      var words := Words(trimmed);
      if |words| == 1 then [words[0]]
      else if |words| == 2 then [trimmed]
      else if |words| <= 4 then [trimmed] + words
      else Unskipped(words)
  }

  /** The candidates of all parts, in order. */
  function PartsTags(parts: seq<string>): seq<string>
    decreases |parts|
  {
    if parts == [] then [] else PartsTags(parts[..|parts| - 1]) + PartTags(parts[|parts| - 1])
  }

  /** The tags extractTagsFromPrompt returns. */
  function ExtractedTags(prompt: string): seq<string>
  {
    if prompt == [] then [] else AddAll([], Cleaned(PartsTags(Split(prompt, ','))))
  }

  /**
   * extractTagsFromPrompt (src/utils.ts:290-342): split on commas, hand each
   * part (or its words) to addTag, which cleans and de-duplicates.
   */
  method ExtractTagsFromPrompt(prompt: string) returns (extracted: seq<string>)
    ensures extracted == ExtractedTags(prompt)
  {
    if prompt == [] {
      return [];
    }
    var parts := Split(prompt, ',');
    extracted := [];
    var i := 0;
    while i < |parts|
      invariant 0 <= i <= |parts|
      invariant extracted == AddAll([], Cleaned(PartsTags(parts[..i])))
    {
      PartsStep(parts, i);
      extracted := AddPart(extracted, parts[i]);
      i := i + 1;
    }
    assert parts[..i] == parts;
  }

  lemma PartsStep(parts: seq<string>, i: nat)
    requires i < |parts|
    ensures AddAll([], Cleaned(PartsTags(parts[..i + 1])))
         == AddAll(AddAll([], Cleaned(PartsTags(parts[..i]))), Cleaned(PartTags(parts[i])))
  {
    assert parts[..i + 1][..i] == parts[..i];
    CleanedAppend(PartsTags(parts[..i]), PartTags(parts[i]));
    AddAllAppend([], Cleaned(PartsTags(parts[..i])), Cleaned(PartTags(parts[i])));
  }

  /** The body of the forEach over parts: the candidates of one part go to addTag. */
  method AddPart(extracted: seq<string>, part: string) returns (r: seq<string>)
    ensures r == AddAll(extracted, Cleaned(PartTags(part)))
  {
    var trimmed := Trim(part);
    r := extracted;
    if trimmed == [] {
      assert PartTags(part) == [];
    } else {
      var words := Words(trimmed);
      if |words| == 1 {
        assert PartTags(part) == [words[0]];
        AddOne(extracted, words[0]);
        r := AddCleaned(r, CleanTag(words[0]));
      } else if |words| == 2 {
        assert PartTags(part) == [trimmed];
        AddOne(extracted, trimmed);
        r := AddCleaned(r, CleanTag(trimmed));
      } else if |words| <= 4 {
        assert PartTags(part) == [trimmed] + words;
        CleanedAppend([trimmed], words);
        AddAllAppend(extracted, Cleaned([trimmed]), Cleaned(words));
        AddOne(extracted, trimmed);
        r := AddCleaned(r, CleanTag(trimmed));
        r := AddWords(r, words);
      } else {
        assert PartTags(part) == Unskipped(words);
        r := AddUnskippedWords(r, words);
      }
    }
  }

  lemma AddOne(extracted: seq<string>, t: string)
    ensures AddAll(extracted, Cleaned([t])) == AddCleaned(extracted, CleanTag(t))
  {
    assert Cleaned([t]) == [CleanTag(t)] by { assert [t][..0] == []; }
    assert [CleanTag(t)][..0] == [];
  }

  /** `words.forEach(word => addTag(word))` */
  method AddWords(extracted: seq<string>, words: seq<string>) returns (r: seq<string>)
    ensures r == AddAll(extracted, Cleaned(words))
  {
    r := extracted;
    var j := 0;
    while j < |words|
      invariant 0 <= j <= |words|
      invariant r == AddAll(extracted, Cleaned(words[..j]))
    {
      WordsStep(extracted, words, j);
      r := AddCleaned(r, CleanTag(words[j]));
      j := j + 1;
    }
    assert words[..j] == words;
  }

  lemma WordsStep(extracted: seq<string>, words: seq<string>, j: nat)
    requires j < |words|
    ensures AddAll(extracted, Cleaned(words[..j + 1])) == AddCleaned(AddAll(extracted, Cleaned(words[..j])), CleanTag(words[j]))
  {
    assert words[..j + 1] == words[..j] + [words[j]];
    CleanedSnoc(words[..j], words[j]);
  }

  lemma UnskippedStep(extracted: seq<string>, words: seq<string>, j: nat)
    requires j < |words|
    ensures AddAll(extracted, Cleaned(Unskipped(words[..j + 1]))) ==
      if Skipped(words[j]) then AddAll(extracted, Cleaned(Unskipped(words[..j])))
      else AddCleaned(AddAll(extracted, Cleaned(Unskipped(words[..j]))), CleanTag(words[j]))
  {
    assert words[..j + 1][..j] == words[..j];
    if !Skipped(words[j]) {
      CleanedSnoc(Unskipped(words[..j]), words[j]);
    }
  }

  /** The long-phrase branch: every word that is not a stop word goes to addTag. */
  method AddUnskippedWords(extracted: seq<string>, words: seq<string>) returns (r: seq<string>)
    ensures r == AddAll(extracted, Cleaned(Unskipped(words)))
  {
    r := extracted;
    var j := 0;
    while j < |words|
      invariant 0 <= j <= |words|
      invariant r == AddAll(extracted, Cleaned(Unskipped(words[..j])))
    {
      UnskippedStep(extracted, words, j);
      if !Skipped(words[j]) {
        r := AddCleaned(r, CleanTag(words[j]));
      }
      j := j + 1;
    }
    assert words[..j] == words;
  }

  /** A cleaned candidate of acceptable length is a valid tag. */
  lemma CleanedValid(cands: seq<string>, t: string)
    requires t in Cleaned(cands) && 2 < |t| <= 30
    ensures ValidTag(t)
  {
    var cleaned := Cleaned(cands);
    var k :| 0 <= k < |cleaned| && cleaned[k] == t;
    var w := cands[k];
    CleanedAt(cands, k);
    CleanTagShape(w);
    var c := CleanTag(w);
    assert (forall i :: 0 <= i < |c| ==> TagChar(c[i])) && (c == [] || (c[0] != '_' && c[|c| - 1] != '_'));
    assert c == t;
  }

  /** The tags added to an empty list are distinct and valid. */
  lemma AddAllValid(cands: seq<string>)
    ensures Distinct(AddAll([], Cleaned(cands)))
    ensures forall t :: t in AddAll([], Cleaned(cands)) ==> ValidTag(t)
  {
    AddAllInvariant([], Cleaned(cands));
    forall t | t in AddAll([], Cleaned(cands)) ensures ValidTag(t) {
      CleanedValid(cands, t);
    }
  }

  /** The extracted tags are distinct valid tags; an empty prompt has none. */
  lemma ExtractedTagsValid(prompt: string)
    ensures Distinct(ExtractedTags(prompt))
    ensures forall t :: t in ExtractedTags(prompt) ==> ValidTag(t)
    ensures prompt == [] ==> ExtractedTags(prompt) == []
  {
    if prompt != [] {
      AddAllValid(PartsTags(Split(prompt, ',')));
    }
  }

  /** A word standing alone in a comma-separated part becomes a tag whenever its cleaned form has 3 to 30 characters. */
  lemma SingleWordTagged(prompt: string, k: nat)
    requires prompt != [] && k < |Split(prompt, ',')|
    requires |Words(Trim(Split(prompt, ',')[k]))| == 1
    requires 2 < |CleanTag(Words(Trim(Split(prompt, ',')[k]))[0])| <= 30
    ensures CleanTag(Words(Trim(Split(prompt, ',')[k]))[0]) in ExtractedTags(prompt)
  {
    var parts := Split(prompt, ',');
    var w := Words(Trim(parts[k]))[0];
    assert PartTags(parts[k]) == [w];
    CandidateTagged(parts, k, w);
  }

  /** Every candidate of every part whose cleaned form has an acceptable length is extracted. */
  lemma CandidateTagged(parts: seq<string>, k: nat, w: string)
    requires k < |parts| && w in PartTags(parts[k]) && 2 < |CleanTag(w)| <= 30
    ensures CleanTag(w) in AddAll([], Cleaned(PartsTags(parts)))
  {
    PartsTagsContains(parts, k);
    var all := PartsTags(parts);
    assert w in all;
    var idx :| 0 <= idx < |all| && all[idx] == w;
    var cleaned, c := Cleaned(all), CleanTag(w);
    CleanedAt(all, idx);
    assert cleaned[idx] == c;
    AddAllComplete([], cleaned, c);
  }

  lemma {:induction false} PartsTagsContains(parts: seq<string>, k: nat)
    requires k < |parts|
    ensures forall t :: t in PartTags(parts[k]) ==> t in PartsTags(parts)
    decreases |parts|
  {
    var init := parts[..|parts| - 1];
    if k < |parts| - 1 {
      assert init[k] == parts[k];
      PartsTagsContains(init, k);
    }
  }

  // ---------------------------------------------------------------- getAspectRatioBucket

  datatype AspectBucket = Unknown | Landscape | Portrait | Square

  /**
   * getAspectRatioBucket (src/utils.ts:344-350), with the ratio computed
   * exactly rather than in floating point.
   */
  function GetAspectRatioBucket(w: int, h: int): (b: AspectBucket)
    ensures b == Unknown <==> w == 0 || h == 0
    ensures b == Landscape <==> w != 0 && h != 0 && (w as real) / (h as real) > 1.2
    ensures b == Portrait <==> w != 0 && h != 0 && (w as real) / (h as real) < 0.85
    ensures b == Square <==> w != 0 && h != 0 && 0.85 <= (w as real) / (h as real) <= 1.2
  {
    if w == 0 || h == 0 then Unknown
    else
      var r := (w as real) / (h as real);
      if r > 1.2 then Landscape else if r < 0.85 then Portrait else Square
  }

  /** For positive sizes the bucket is a comparison of integers: `5w > 6h` is landscape, `20w < 17h` portrait. */
  lemma LandscapeIff(w: nat, h: nat)
    requires w > 0 && h > 0
    ensures GetAspectRatioBucket(w, h) == Landscape <==> 5 * w > 6 * h
    ensures GetAspectRatioBucket(w, h) == Portrait <==> 20 * w < 17 * h
  {
    var r := (w as real) / (h as real);
    DivCompare(w as real, h as real, 6.0 / 5.0);
    DivCompare(w as real, h as real, 17.0 / 20.0);
    assert (w as real) > (6.0 / 5.0) * (h as real) <==> 5 * w > 6 * h;
    assert (w as real) < (17.0 / 20.0) * (h as real) <==> 20 * w < 17 * h;
  }

  lemma DivCompare(x: real, y: real, c: real)
    requires y > 0.0
    ensures x / y > c <==> x > c * y
    ensures x / y < c <==> x < c * y
  {
    assert (x / y) * y == x;
    if x / y > c {
      assert (x / y - c) * y > 0.0;
    }
    if x > c * y {
      assert (x - c * y) / y > 0.0;
    }
    if x / y < c {
      assert (c - x / y) * y > 0.0;
    }
    if x < c * y {
      assert (c * y - x) / y > 0.0;
    }
  }

  // ---------------------------------------------------------------- normalizePath, toMediaUrl

  /** `s.replace(/^scheme\/{2,3}/, '')` as written: a third slash is taken too. */
  function StripSchemeGreedy(s: string, scheme: string): string
  {
    if StartsWith(s, scheme + "///") then s[|scheme| + 3..]
    else if StartsWith(s, scheme + "//") then s[|scheme| + 2..]
    else s
  }

  /** `s.replace(/^scheme\/\//, '')`: exactly the two slashes of the URL syntax. */
  function StripScheme(s: string, scheme: string): string
  {
    if StartsWith(s, scheme + "//") then s[|scheme| + 2..] else s
  }

  /** `/^\/[a-zA-Z]:/` */
  predicate SlashDrive(s: string) { |s| >= 3 && s[0] == '/' && IsLetter(s[1]) && s[2] == ':' }

  /** `/^[a-zA-Z]:/` */
  predicate Drive(s: string) { |s| >= 2 && IsLetter(s[0]) && s[1] == ':' }

  /** The drive-letter rules of normalizePath (src/utils.ts:369-381) applied to a scheme-less path. */
  function DriveRules(clean: string, win32: bool): string
  {
    var c1 := if SlashDrive(clean) then clean[1..] else clean;
    var c2 := if |c1| >= 2 && IsLetter(c1[0]) && c1[1] == '/' then [c1[0]] + ":" + c1[1..] else c1;
    if win32 || Drive(c2) then ReplaceChar(c2, '/', '\\') else c2
  }

  /** normalizePath (src/utils.ts:353-384) as written; `win32` is the renderer's platform test. */
  function NormalizePathAsWritten(path: string, win32: bool): string
  {
    if path == [] then []
    else DriveRules(StripSchemeGreedy(StripSchemeGreedy(path, "file:"), "media:"), win32)
  }

  /** On a POSIX system the greedy `\/{2,3}` also eats the root slash of an absolute path. */
  lemma NormalizePathAsWrittenLosesRoot()
    ensures NormalizePathAsWritten("file:///home/u/a.png", false) == "home/u/a.png"
  {
    var s := "file:///home/u/a.png";
    assert StartsWith(s, "file:" + "///");
    var c := StripSchemeGreedy(s, "file:");
    assert c == "home/u/a.png";
    assert !StartsWith(c, "media:" + "//") by { assert c[0] != "media:"[0]; }
    assert !SlashDrive(c) && !(IsLetter(c[0]) && c[1] == '/') && !Drive(c);
  }

  /**
   * normalizePath with the scheme prefix limited to the two slashes of the URL
   * syntax; the `/C:` rule that follows then handles `file:///C:/...`.
   */
  function NormalizePath(path: string, win32: bool): string
  {
    if path == [] then []
    else DriveRules(StripScheme(StripScheme(path, "file:"), "media:"), win32)
  }

  /** An absolute POSIX path survives the round trip through a `file://` URL. */
  lemma NormalizeFileUrl(p: string)
    requires StartsWith(p, "/") && !SlashDrive(p)
    ensures NormalizePath("file://" + p, false) == p
  {
    var u := "file://" + p;
    assert StartsWith(u, "file:" + "//");
    assert StripScheme(u, "file:") == p;
    assert !StartsWith(p, "media:" + "//") by { assert p[0] != "media:"[0]; }
    assert !IsLetter(p[0]);
  }

  /** A Windows file URL becomes a drive path with backslashes. */
  lemma NormalizeWindowsUrl()
    ensures NormalizePath("file:///C:/img/a.png", true) == "C:\\img\\a.png"
  {
    var u := "file:///C:/img/a.png";
    assert StartsWith(u, "file:" + "//");
    var c := StripScheme(u, "file:");
    assert c == "/C:/img/a.png";
    assert !StartsWith(c, "media:" + "//") by { assert c[0] != "media:"[0]; }
    assert SlashDrive(c);
    var d := c[1..];
    assert d == "C:/img/a.png";
    assert !(d[1] == '/');
    ReplaceDriveSample(d);
  }

  lemma ReplaceDriveSample(d: string)
    requires d == "C:/img/a.png"
    ensures ReplaceChar(d, '/', '\\') == "C:\\img\\a.png"
  {
    var r := ReplaceChar(d, '/', '\\');
    assert |r| == 12;
    assert r[2] == '\\' && r[6] == '\\';
  }

  /** toMediaUrl (src/utils.ts:387-403), with `encodeURIComponent` the identity on each segment. */
  function ToMediaUrl(filePath: string, win32: bool): (r: string)
    ensures filePath == [] <==> r == []
    ensures filePath != [] ==> StartsWith(r, "media://")
    ensures StartsWith(filePath, "media://") ==> r == filePath
    ensures !StartsWith(filePath, "media://") && filePath != [] ==>
      forall i :: 8 <= i < |r| ==> r[i] != '\\'
  {
    if filePath == [] then []
    else if StartsWith(filePath, "media://") then filePath
    else "media://" + ReplaceChar(NormalizePath(filePath, win32), '\\', '/')
  }

  /** A POSIX file URL becomes the `media://` URL of the same absolute path. */
  lemma ToMediaUrlOfFileUrl(p: string)
    requires StartsWith(p, "/") && !SlashDrive(p)
    requires forall i :: 0 <= i < |p| ==> p[i] != '\\'
    ensures ToMediaUrl("file://" + p, false) == "media://" + p
  {
    NormalizeFileUrl(p);
    assert !StartsWith("file://" + p, "media://") by { assert ("file://" + p)[0] != "media://"[0]; }
    assert ReplaceChar(p, '\\', '/') == p;
  }

  /** Converting twice gives the same URL. */
  lemma ToMediaUrlIdempotent(filePath: string, win32: bool)
    ensures ToMediaUrl(ToMediaUrl(filePath, win32), win32) == ToMediaUrl(filePath, win32)
  {
  }
}
