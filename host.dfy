/**
 * The Electron main process (electron/main.cjs) as far as the library's
 * consistency depends on it: the folder allow-list, the set of paths whose
 * watcher events are suppressed because the app itself is writing them, the
 * unique-path finder, and the file handlers the renderer calls over IPC.
 *
 * The disk is a finite map from path to content plus a set of directories.
 * Paths are POSIX paths that are already normalised (`path.normalize` is the
 * identity on them). Time is an explicit `now` argument (milliseconds), and a
 * `setTimeout` that clears ignored paths is a `Timer` that `Tick` fires.
 */
module Host {
  import opened Wrappers
  import opened Strings
  import opened Model

  /** What a file holds: text, a JSON object (kept parsed; its keys are record property names), or bytes. */
  datatype Content = Text(text: string) | Json(obj: Patch) | Binary(data: seq<int>)

  /** A pending `setTimeout(() => paths.forEach(p => ignoredPaths.delete(p)), due - now)`. */
  datatype Timer = Timer(due: int, paths: seq<string>)

  const SEP: char := '/'
  const IMAGE_EXTENSIONS: seq<string> := [".jpg", ".jpeg", ".png", ".webp", ".gif", ".bmp"]
  const WRITE_IGNORE_MS: int := 2000
  const COPY_IGNORE_MS: int := 3000
  const RENAME_IGNORE_MS: int := 5000

  // ---------------------------------------------------------------- path module

  /** `path.dirname` */
  function Dirname(p: string): (r: string)
    ensures r != ""
  {
    var i := LastIndexOf(p, SEP);
    if i < 0 then "." else if i == 0 then "/" else p[..i]
  }

  /** `path.basename` */
  function Basename(p: string): (r: string)
    ensures |r| <= |p|
  {
    p[LastIndexOf(p, SEP) + 1..]
  }

  /** `path.extname`: from the last '.' of the base name, unless that dot starts the name. */
  function Extname(p: string): (r: string)
    ensures r == [] || r[0] == '.'
  {
    var b := Basename(p);
    var i := LastIndexOf(b, '.');
    if i <= 0 then "" else b[i..]
  }

  /** `path.basename(p, path.extname(p))` */
  function Stem(p: string): string
  {
    var b := Basename(p);
    var e := Extname(p);
    b[..|b| - |e|]
  }

  /** `path.join(dir, name)` for a normalised `dir` and a relative `name`. */
  function Join(dir: string, name: string): (r: string)
    ensures exists k :: 0 <= k <= |r| && r[k..] == name
    ensures |r| >= |dir| && |r| >= |name|
  {
    if dir == "" then (assert name[0..] == name; name)
    else if name == "" then (assert dir[|dir|..] == name; dir)
    else if EndsWith(dir, "/") then (var r := dir + name; assert r[|dir|..] == name; r)
    else (var r := dir + "/" + name; assert r[|dir| + 1..] == name; r)
  }

  /** The part of `Join` in front of a non-empty name. */
  function JoinPrefix(dir: string): string
  {
    if dir == "" then "" else if EndsWith(dir, "/") then dir else dir + "/"
  }

  lemma JoinIsPrefix(dir: string, name: string)
    requires name != ""
    ensures Join(dir, name) == JoinPrefix(dir) + name
  {
  }

  /** `p.replace(/\.[^.]+$/, '')`: drop a final '.' and the characters after it, if there is at least one. */
  function StripExt(p: string): (r: string)
    ensures |r| <= |p| && r == p[..|r|]
  {
    var i := LastIndexOf(p, '.');
    if 0 <= i < |p| - 1 then p[..i] else p
  }

  predicate IsImageExt(ext: string) { ToLower(ext) in IMAGE_EXTENSIONS }

  // ---------------------------------------------------------------- allow-list

  /** `t` is `root` or lies below it. */
  predicate Under(t: string, root: string) { t == root || StartsWith(t, root + [SEP]) }

  /** One iteration of isPathAllowed's loop: the boundary test and its fallback. */
  predicate AllowedBy(t: string, root: string)
  {
    Under(t, root) || (StartsWith(t, root) && (|t| == |root| || t[|root|] == SEP))
  }

  /** The fallback test of main.cjs:141-144 admits nothing the boundary test does not already admit. */
  lemma FallbackAddsNothing(t: string, root: string)
    ensures AllowedBy(t, root) <==> Under(t, root)
  {
    if StartsWith(t, root) && |t| > |root| && t[|root|] == SEP {
      assert t[..|root| + 1] == root + [SEP];
    }
  }

  /** A sibling whose name merely extends the root's is not admitted. */
  lemma SiblingNotAllowed()
    ensures !AllowedBy("/vaulta-backup", "/vaulta")
  {
    assert "/vaulta-backup"[7] == '-';
    assert "/vaulta-backup"[..8] != "/vaulta/";
  }

  /** Two numbered candidates for one file coincide only for one number. */
  lemma NumberedInjective(dir: string, filename: string, a: nat, b: nat)
    requires Numbered(dir, filename, a) == Numbered(dir, filename, b)
    ensures a == b
  {
    var stem, ext := Stem(filename), Extname(filename);
    var sa, sb := NatToString(a), NatToString(b);
    var na, nb := stem + "_" + sa + ext, stem + "_" + sb + ext;
    JoinIsPrefix(dir, na);
    JoinIsPrefix(dir, nb);
    var pre := JoinPrefix(dir);
    assert na == Numbered(dir, filename, a)[|pre|..];
    assert nb == Numbered(dir, filename, b)[|pre|..];
    assert |sa| == |sb|;
    assert sa == na[|stem| + 1..|stem| + 1 + |sa|];
    assert sb == nb[|stem| + 1..|stem| + 1 + |sb|];
    NatToStringInjective(a, b);
  }

  /** The numbered candidates `Numbered(dir, filename, m)` for 1 <= m < n. */
  function Candidates(dir: string, filename: string, n: nat): set<string>
    decreases n
  {
    if n <= 1 then {} else Candidates(dir, filename, n - 1) + {Numbered(dir, filename, n - 1)}
  }

  /** There are exactly n - 1 of them, since numbering is injective. */
  lemma {:induction false} CandidatesSize(dir: string, filename: string, n: nat)
    ensures |Candidates(dir, filename, n + 1)| == n
    decreases n
  {
    if n > 0 {
      CandidatesSize(dir, filename, n - 1);
      var prev, next := Candidates(dir, filename, n), Numbered(dir, filename, n);
      assert Candidates(dir, filename, n + 1) == prev + {next};
      if next in prev {
        var m := CandidatesOnly(dir, filename, n, next);
        NumberedInjective(dir, filename, m, n);
      }
    }
  }

  lemma CandidatesNext(dir: string, filename: string, n: nat)
    requires n >= 1
    ensures Candidates(dir, filename, n + 1) == Candidates(dir, filename, n) + {Numbered(dir, filename, n)}
  {
  }

  lemma {:induction false} CandidatesHas(dir: string, filename: string, n: nat, m: nat)
    requires 1 <= m < n
    ensures Numbered(dir, filename, m) in Candidates(dir, filename, n)
    decreases n
  {
    if m < n - 1 {
      CandidatesHas(dir, filename, n - 1, m);
    }
  }

  /** Every candidate below n is numbered by some m with 1 <= m < n. */
  lemma {:induction false} CandidatesOnly(dir: string, filename: string, n: nat, x: string) returns (m: nat)
    requires x in Candidates(dir, filename, n)
    ensures 1 <= m < n && x == Numbered(dir, filename, m)
    decreases n
  {
    var prev, last := Candidates(dir, filename, n - 1), Numbered(dir, filename, n - 1);
    assert n > 1 && Candidates(dir, filename, n) == prev + {last};
    if x == last {
      m := n - 1;
    } else {
      assert x in prev;
      m := CandidatesOnly(dir, filename, n - 1, x);
    }
  }

  lemma {:induction false} CandidatesWithin(dir: string, filename: string, n: nat, taken: set<string>)
    requires forall m: nat :: 1 <= m < n ==> Numbered(dir, filename, m) in taken
    ensures Candidates(dir, filename, n) <= taken
    decreases n
  {
    if n > 1 {
      CandidatesWithin(dir, filename, n - 1, taken);
    }
  }

  /** Only finitely many numbered candidates can be taken at once: unique-path search ends. */
  lemma CandidatesBound(dir: string, filename: string, n: nat, taken: set<string>)
    requires Candidates(dir, filename, n + 1) <= taken
    ensures n <= |taken|
  {
    CandidatesSize(dir, filename, n);
    SubsetSize(Candidates(dir, filename, n + 1), taken);
  }

  lemma {:induction false} SubsetSize<T>(a: set<T>, b: set<T>)
    requires a <= b
    ensures |a| <= |b|
    decreases |a|
  {
    if a != {} {
      var x :| x in a;
      SubsetSize(a - {x}, b - {x});
    }
  }

  /** `path.join(dir, `${base}_${n}${ext}`)` */
  function Numbered(dir: string, filename: string, n: nat): string
  {
    Join(dir, Stem(filename) + "_" + NatToString(n) + Extname(filename))
  }

  /**
   * `p` ends in the extension `e` (a '.' and then no '.' or separator), with a
   * name character in front of it, so that `path.extname(p)` is `e`.
   */
  predicate ExtSuffix(p: string, e: string)
  {
    |e| >= 1 && e[0] == '.' && (forall j :: 1 <= j < |e| ==> e[j] != '.' && e[j] != SEP) &&
    |p| > |e| && p[|p| - |e| - 1] != SEP && EndsWith(p, e)
  }

  /** A path that keeps every extension of a name keeps this one. */
  lemma ExtKept(name: string, target: string, e: string)
    requires ExtSuffix(name, e)
    requires forall e' :: ExtSuffix(name, e') ==> ExtSuffix(target, e')
    ensures ExtSuffix(target, e)
  {
  }

  /** The extension survives any text put in front of the name. */
  lemma ExtSuffixOfSuffix(p: string, q: string, e: string)
    requires EndsWith(p, q) && ExtSuffix(q, e)
    ensures ExtSuffix(p, e)
  {
    assert p[|p| - |q|..] == q;
    assert p[|p| - |e| - 1] == q[|q| - |e| - 1];
    assert p[|p| - |e|..] == q[|q| - |e|..];
  }

  lemma JoinEndsWith(dir: string, name: string)
    ensures EndsWith(Join(dir, name), name)
  {
    var r := Join(dir, name);
    var k :| 0 <= k <= |r| && r[k..] == name;
    assert r[|r| - |name|..] == name;
  }

  /** A name with an extension keeps it in its base name, and `path.extname` finds it. */
  lemma ExtSuffixBasename(p: string, e: string)
    requires ExtSuffix(p, e)
    ensures ExtSuffix(Basename(p), e)
    ensures Extname(p) == e
  {
    BasenameKeepsExt(p, e);
    ExtnameOfBasename(p, e);
  }

  lemma BasenameKeepsExt(p: string, e: string)
    requires ExtSuffix(p, e)
    ensures ExtSuffix(Basename(p), e)
  {
    var k := LastIndexOf(p, SEP);
    ExtSuffixTail(p, e);
    assert k < |p| - |e| - 1;
    SliceExt(p, e, k + 1);
  }

  /** Dropping a prefix that ends before the extension keeps the extension. */
  lemma SliceExt(p: string, e: string, m: nat)
    requires ExtSuffix(p, e) && m < |p| - |e|
    ensures ExtSuffix(p[m..], e)
  {
    var b := p[m..];
    assert b[|b| - |e| - 1] == p[|p| - |e| - 1];
    assert b[|b| - |e|..] == p[|p| - |e|..];
  }

  lemma ExtnameOfBasename(p: string, e: string)
    requires ExtSuffix(Basename(p), e)
    ensures Extname(p) == e
  {
    var b := Basename(p);
    LastDot(b, e);
    assert b[|b| - |e|..] == e;
  }

  /** No separator in an extension and the character before it. */
  lemma ExtSuffixTail(p: string, e: string)
    requires ExtSuffix(p, e)
    ensures forall j :: |p| - |e| - 1 <= j < |p| ==> p[j] != SEP
  {
    assert p[|p| - |e|..] == e;
    forall j | |p| - |e| <= j < |p| ensures p[j] != SEP {
      assert p[j] == e[j - (|p| - |e|)];
    }
  }

  /** The last '.' of a name that ends in an extension is the one that starts it. */
  lemma LastDot(b: string, e: string)
    requires ExtSuffix(b, e)
    ensures LastIndexOf(b, '.') == |b| - |e|
  {
    var i := LastIndexOf(b, '.');
    assert b[|b| - |e|..] == e;
    assert b[|b| - |e|] == '.';
  }

  /** The numbered candidates of a name with an extension end in that extension. */
  lemma NumberedExtSuffix(dir: string, filename: string, n: nat, e: string)
    requires ExtSuffix(filename, e)
    ensures ExtSuffix(Numbered(dir, filename, n), e)
  {
    ExtSuffixBasename(filename, e);
    var x := Stem(filename) + "_" + NatToString(n);
    var name := x + e;
    assert name[|name| - |e| - 1] == x[|x| - 1];
    assert name[|name| - |e|..] == e;
    assert ExtSuffix(name, e);
    JoinEndsWith(dir, name);
    ExtSuffixOfSuffix(Join(dir, name), name, e);
  }

  /** The lower-cased sidecar paths of a file. */
  function SidecarKeys(p: string): seq<string>
  {
    [ToLower(StripExt(p) + ".json"), ToLower(StripExt(p) + ".txt")]
  }

  /** `fs.rename(a, b)` on a regular file; renaming a file onto itself changes nothing. */
  function Move(files: map<string, Content>, a: string, b: string): map<string, Content>
    requires a in files
  {
    if a == b then files else (files - {a})[b := files[a]]
  }

  /** What `get-fs-path` resolves a URL or path to (main.cjs:434-453). */
  function GetFsPath(url: string): (r: Result<string>)
    ensures url == "" ==> r.Failure?
    ensures StartsWith(url, "file:///") ==> r == Success(url[7..])
    ensures !StartsWith(url, "file://") && !StartsWith(url, "media://") && url != "" ==> r == Success(url)
  {
    if url == "" then Failure("Empty path")
    else if StartsWith(url, "media://") then Success(url[8..])
    else if StartsWith(url, "file://") then
      var rest := url[7..];
      if StartsWith(rest, "/") then Success(rest)
      else if StartsWith(rest, "localhost/") then Success(rest[9..])
      else Failure("File URL host must be \"localhost\" or empty")
    else Success(url)
  }

  /** The tags write-metadata hands to exiftool (main.cjs:739-750). */
  function ExifWriteData(title: string, prompt: string, rating: Option<int>, tags: Option<seq<string>>): (w: map<string, Value>)
    ensures "Title" in w <==> title != ""
    ensures "ImageDescription" in w <==> prompt != ""
    ensures "Rating" in w <==> rating.Some? && rating.value != 0
    ensures ("Keywords" in w <==> tags.Some?) && ("Subject" in w <==> tags.Some?)
  {
    var w0: map<string, Value> := map[];
    var w1 := if title != "" then w0["Title" := Str(title)] else w0;
    var w2 := if prompt != "" then w1["ImageDescription" := Str(prompt)] else w1;
    var w3 := if rating.Some? && rating.value != 0 then w2["Rating" := Num(rating.value)] else w2;
    if tags.Some? then w3["Keywords" := Strs(tags.value)]["Subject" := Strs(tags.value)] else w3
  }

  function PathSet(paths: seq<string>): set<string>
  {
    set p | p in paths
  }

  lemma PathSetCons(p: string, rest: seq<string>)
    ensures PathSet([p] + rest) == {p} + PathSet(rest)
  {
  }

  /** Paths cleared by the timers due at `now`. */
  function DuePaths(timers: seq<Timer>, now: int): set<string>
  {
    if timers == [] then {}
    else (if timers[0].due <= now then PathSet(timers[0].paths) else {}) + DuePaths(timers[1..], now)
  }

  /** The timers not yet due at `now`, in their order. */
  function Pending(timers: seq<Timer>, now: int): seq<Timer>
  {
    if timers == [] then [] else (if timers[0].due > now then [timers[0]] else []) + Pending(timers[1..], now)
  }

  lemma {:induction false} DuePathsAppend(ts: seq<Timer>, t: Timer, now: int)
    ensures DuePaths(ts + [t], now) == DuePaths(ts, now) + (if t.due <= now then PathSet(t.paths) else {})
  {
    if ts != [] {
      assert (ts + [t])[1..] == ts[1..] + [t];
      DuePathsAppend(ts[1..], t, now);
    } else {
      assert [t][1..] == [];
    }
  }

  lemma {:induction false} DuePathsMember(ts: seq<Timer>, now: int, i: nat, p: string)
    requires i < |ts| && ts[i].due <= now && p in ts[i].paths
    ensures p in DuePaths(ts, now)
  {
    if i > 0 {
      DuePathsMember(ts[1..], now, i - 1, p);
    }
  }

  const SIDECAR_EXTS: seq<string> := [".json", ".txt"]

  /** A path named like a sidecar, which a sidecar write can overwrite. */
  predicate SidecarNamed(p: string)
  {
    EndsWith(p, ".json") || EndsWith(p, ".txt")
  }

  /** The paths trash-file removes for `p` (main.cjs:470-480): the file and the `.json`/`.txt` next to it. */
  function TrashSet(p: string): set<string>
  {
    {p, StripExt(p) + ".json", StripExt(p) + ".txt"}
  }

  /** The paths trashing `p`, then `base.json` and `base.txt`, removes. */
  function CleanupSet(p: string, base: string): set<string>
  {
    TrashSet(p) + {base + ".json", base + ".txt"}
  }

  /** Trashing the sidecars of `p`'s own stem again removes nothing more. */
  lemma CleanupOwnStem(p: string)
    ensures CleanupSet(p, StripExt(p)) == TrashSet(p)
  {
  }

  /** `after` is `before` with some of the `touched` paths removed: nothing is written, nothing else goes. */
  predicate OnlyRemoved(before: map<string, Content>, after: map<string, Content>, touched: set<string>)
  {
    after.Keys <= before.Keys &&
    (forall k :: k in after ==> after[k] == before[k]) &&
    (forall k :: k in before && k !in touched ==> k in after)
  }

  /** A sidecar's own sidecar names are its image's: `base.json` strips back to `base`. */
  lemma StripSidecar(b: string, e: string)
    requires e == ".json" || e == ".txt"
    ensures StripExt(b + e) == b
  {
    var p := b + e;
    var i := LastIndexOf(p, '.');
    assert p[|b|] == '.';
    assert forall j :: |b| < j < |p| ==> p[j] != '.';
    assert i == |b|;
  }

  /** A path that is not sidecar-named, other than `p`, is not removed by `p`'s clean-up. */
  lemma NotCleanedUp(q: string, p: string, base: string)
    requires !SidecarNamed(q) && q != p
    ensures q !in CleanupSet(p, base)
  {
    var sp := StripExt(p);
    forall x | x in [sp, base] ensures q != x + ".json" && q != x + ".txt" {
      EndsWithAppend(x, ".json");
      EndsWithAppend(x, ".txt");
    }
  }

  /** `path.extname` is empty, or a dot followed by no other dot and no separator. */
  lemma ExtnameShape(p: string)
    ensures Extname(p) == "" || DotTail(Extname(p))
    ensures var e := Extname(p);
      forall j :: 0 <= j < |e| ==> e[j] != SEP
  {
    var b := Basename(p);
    var i := LastIndexOf(b, '.');
    BasenameShape(p);
    if i > 0 {
      assert Extname(p) == b[i..];
    }
  }

  /** `path.basename` holds no separator, and `path.extname` is its tail after the stem. */
  lemma BasenameShape(p: string)
    ensures forall j :: 0 <= j < |Basename(p)| ==> Basename(p)[j] != SEP
    ensures |Extname(p)| <= |Basename(p)| && Basename(p) == Stem(p) + Extname(p)
  {
    var b, e := Basename(p), Extname(p);
    var i := LastIndexOf(b, '.');
    if i > 0 {
      assert e == b[i..];
    }
    assert b[|b| - |e|..] == e;
    assert b == b[..|b| - |e|] + b[|b| - |e|..];
    var k := LastIndexOf(p, SEP);
    forall j | 0 <= j < |b| ensures b[j] != SEP {
      assert b[j] == p[k + 1 + j];
    }
  }

  lemma IntToStringNoSlash(n: int)
    ensures forall j :: 0 <= j < |IntToString(n)| ==> IntToString(n)[j] != SEP
    ensures |IntToString(n)| >= 1 && IsDigit(IntToString(n)[|IntToString(n)| - 1])
  {
  }

  /** `e` is a dot followed by no other dot. */
  predicate DotTail(e: string)
  {
    |e| >= 1 && e[0] == '.' && forall j :: 0 < j < |e| ==> e[j] != '.'
  }

  /** Two dot tails of the same name are the same: both start at its last dot. */
  lemma SameDotTail(t: string, e: string, x: string)
    requires DotTail(e) && DotTail(x) && EndsWith(t, e) && EndsWith(t, x)
    ensures e == x
  {
    assert t[|t| - |e|] == '.' && t[|t| - |x|] == '.';
    assert forall j :: |t| - |e| < j < |t| ==> t[j] == e[j - (|t| - |e|)];
    assert forall j :: |t| - |x| < j < |t| ==> t[j] == x[j - (|t| - |x|)];
    assert |e| == |x|;
  }

  /** A name under a folder, stamped with a separator-free `n`, is not the path it was made from: its base name is longer. */
  lemma StampedNotSelf(pre: string, p: string, n: string)
    requires |pre| >= 1 && pre[|pre| - 1] == SEP
    requires forall j :: 0 <= j < |n| ==> n[j] != SEP
    ensures pre + (Stem(p) + "_" + n + Extname(p)) != p
  {
    var tail := Stem(p) + "_" + n + Extname(p);
    var b := pre + tail;
    BasenameShape(p);
    ExtnameShape(p);
    assert forall j :: 0 <= j < |Stem(p)| ==> Stem(p)[j] == Basename(p)[j];
    assert forall j :: 0 <= j < |tail| ==> tail[j] != SEP;
    assert forall j :: |pre| <= j < |b| ==> b[j] == tail[j - |pre|];
    assert b[|pre| - 1] == SEP;
    assert LastIndexOf(b, SEP) == |pre| - 1;
    assert Basename(b) == tail;
  }

  /** A copy of `p` under a folder, stamped with a number, is neither `p` nor sidecar-named, so `p`'s clean-up leaves it. */
  lemma StampedNotCleanedUp(pre: string, p: string, now: int, base: string)
    requires |pre| >= 1 && pre[|pre| - 1] == SEP
    requires Extname(p) !in SIDECAR_EXTS
    ensures pre + (Stem(p) + "_" + IntToString(now) + Extname(p)) !in CleanupSet(p, base)
  {
    var n := IntToString(now);
    var q := pre + (Stem(p) + "_" + n + Extname(p));
    var s := pre + Stem(p) + "_" + n;
    assert q == s + Extname(p);
    ExtnameShape(p);
    IntToStringNoSlash(now);
    EndsWithAppend(pre + Stem(p) + "_", n);
    StampedNotSidecar(s, Extname(p), n);
    StampedNotSelf(pre, p, n);
    NotCleanedUp(q, p, base);
  }

  /** A name ending in a non-sidecar extension, or in the digits of a stamp, is not sidecar-named. */
  lemma StampedNotSidecar(s: string, e: string, n: string)
    requires e == "" || DotTail(e)
    requires e !in SIDECAR_EXTS
    requires |n| >= 1 && IsDigit(n[|n| - 1]) && EndsWith(s, n)
    ensures !SidecarNamed(s + e)
  {
    var t := s + e;
    if e == "" {
      assert t[|t| - 1] == n[|n| - 1];
    } else {
      EndsWithAppend(s, e);
      DotTailNotSidecar(t, e);
    }
  }

  /** A name ending in a dot tail other than `.json` and `.txt` is not sidecar-named. */
  lemma DotTailNotSidecar(t: string, e: string)
    requires DotTail(e) && e != ".json" && e != ".txt" && EndsWith(t, e)
    ensures !SidecarNamed(t)
  {
    if EndsWith(t, ".json") {
      SameDotTail(t, e, ".json");
    } else if EndsWith(t, ".txt") {
      SameDotTail(t, e, ".txt");
    }
  }

  /** Renaming a just-written temporary file puts its content at the target and leaves no temporary behind. */
  lemma MoveWritten(files: map<string, Content>, t: string, p: string, c: Content)
    requires t != p
    ensures Move(files[t := c], t, p) == (files - {t})[p := c]
  {
    var l, r := Move(files[t := c], t, p), (files - {t})[p := c];
    assert l.Keys == r.Keys;
    forall k | k in l
      ensures l[k] == r[k]
    {
    }
  }

  /** Rename `a` to `b` when `a` is a file. */
  function MoveIfPresent(files: map<string, Content>, a: string, b: string): map<string, Content>
  {
    if a in files then Move(files, a, b) else files
  }

  /** rename-file's sidecar loop: `from + e` becomes `to + e` for each extension whose file exists, in order. */
  function MoveSidecars(files: map<string, Content>, from: string, to: string, exts: seq<string>): map<string, Content>
    decreases |exts|
  {
    if exts == [] then files
    else MoveIfPresent(MoveSidecars(files, from, to, exts[..|exts| - 1]), from + exts[|exts| - 1], to + exts[|exts| - 1])
  }

  /** The disk after rename-file's sidecar renames and its image rename (main.cjs:405-417). */
  function Renamed(files: map<string, Content>, oldPath: string, target: string): map<string, Content>
  {
    MoveIfPresent(MoveSidecars(files, StripExt(oldPath), StripExt(target), SIDECAR_EXTS), oldPath, target)
  }

  /** The paths rename-file renames onto. */
  function RenameTargets(target: string): set<string>
  {
    {StripExt(target) + ".json", StripExt(target) + ".txt", target}
  }

  /** The lower-cased paths rename-file suppresses events for (main.cjs:392-402). */
  function RenameIgnores(oldPath: string, target: string): seq<string>
  {
    [ToLower(oldPath), ToLower(target),
     ToLower(StripExt(oldPath) + ".json"), ToLower(StripExt(target) + ".json"),
     ToLower(StripExt(oldPath) + ".txt"), ToLower(StripExt(target) + ".txt")]
  }

  /** backup-file's and restore-file's sidecar loops: `from + e` is copied onto `to + e` for each extension whose file exists. */
  function CopySidecars(files: map<string, Content>, from: string, to: string, exts: seq<string>): map<string, Content>
    decreases |exts|
  {
    if exts == [] then files
    else
      var f := CopySidecars(files, from, to, exts[..|exts| - 1]);
      var e := exts[|exts| - 1];
      if from + e in f then f[to + e := f[from + e]] else f
  }

  /** Sidecar copying writes only the `to + e` paths. */
  lemma {:induction false} CopySidecarsFrame(files: map<string, Content>, from: string, to: string, exts: seq<string>, k: string)
    requires forall e :: e in exts ==> k != to + e
    ensures k in CopySidecars(files, from, to, exts) <==> k in files
    ensures k in files ==> CopySidecars(files, from, to, exts)[k] == files[k]
    decreases |exts|
  {
    if exts != [] {
      var init := exts[..|exts| - 1];
      assert forall e :: e in init ==> e in exts;
      assert exts[|exts| - 1] in exts;
      CopySidecarsFrame(files, from, to, init, k);
    }
  }

  /** Sidecar moves touch only the `from + e` and `to + e` paths. */
  lemma {:induction false} MoveSidecarsFrame(files: map<string, Content>, from: string, to: string, exts: seq<string>, k: string)
    requires forall e :: e in exts ==> k != to + e && k != from + e
    ensures k in MoveSidecars(files, from, to, exts) <==> k in files
    ensures k in files ==> MoveSidecars(files, from, to, exts)[k] == files[k]
    decreases |exts|
  {
    if exts != [] {
      var init := exts[..|exts| - 1];
      assert forall e :: e in init ==> e in exts;
      assert exts[|exts| - 1] in exts;
      MoveSidecarsFrame(files, from, to, init, k);
    }
  }

  /** After a rename the image's content is at the target, unless the image is itself named like a sidecar of either path. */
  lemma RenamedMovesImage(files: map<string, Content>, oldPath: string, target: string)
    requires oldPath in files
    requires forall e :: e in SIDECAR_EXTS ==> oldPath != StripExt(target) + e && oldPath != StripExt(oldPath) + e
    ensures target in Renamed(files, oldPath, target)
    ensures Renamed(files, oldPath, target)[target] == files[oldPath]
  {
    MoveSidecarsFrame(files, StripExt(oldPath), StripExt(target), SIDECAR_EXTS, oldPath);
  }

  /** `dir/stamped.ext` is none of `dir/stamped` plus a sidecar extension, unless `.ext` is one. */
  lemma StampedDistinct(dir: string, stamped: string, ext: string)
    requires stamped != ""
    ensures ext !in SIDECAR_EXTS ==> forall e :: e in SIDECAR_EXTS ==> Join(dir, stamped + ext) != Join(dir, stamped) + e
  {
    JoinIsPrefix(dir, stamped + ext);
    JoinIsPrefix(dir, stamped);
    var pre := JoinPrefix(dir) + stamped;
    assert Join(dir, stamped + ext) == pre + ext;
    forall e | e in SIDECAR_EXTS && pre + ext == pre + e
      ensures ext == e
    {
      AppendCancel(pre, ext, e);
    }
  }

  lemma AppendCancel(a: string, x: string, y: string)
    requires a + x == a + y
    ensures x == y
  {
    assert x == (a + x)[|a|..];
    assert y == (a + y)[|a|..];
  }

  /** `JSON.stringify` drops the properties whose value is `undefined`. */
  function Stringified(p: Patch): (q: Patch)
    ensures forall f :: f in q <==> f in p && !p[f].Undefined?
    ensures forall f :: f in q ==> q[f] == p[f]
  {
    map f | f in p && !p[f].Undefined? :: p[f]
  }

  /** The sidecars copy-to-vault and save-blob-to-vault write next to `target` (main.cjs:342-350, 579-587). */
  function SidecarsWritten(files: map<string, Content>, target: string, metadata: Option<Patch>): map<string, Content>
  {
    if metadata.None? then files
    else
      var base := StripExt(target);
      var withJson := files[base + ".json" := Json(Stringified(Without(metadata.value, {Src, BlobData})))];
      if Prompt in metadata.value && metadata.value[Prompt].Str? && metadata.value[Prompt].s != ""
      then withJson[base + ".txt" := Text(metadata.value[Prompt].s)]
      else withJson
  }

  /** The vault's JSON sidecar never carries the image's src or blob, and holds every other defined property. */
  lemma SidecarJsonSafe(files: map<string, Content>, target: string, metadata: Patch)
    ensures var j := StripExt(target) + ".json";
      var after := SidecarsWritten(files, target, Some(metadata));
      j in after && after[j].Json? && Src !in after[j].obj && BlobData !in after[j].obj &&
      forall f :: f in metadata && f != Src && f != BlobData && !metadata[f].Undefined? ==>
        f in after[j].obj && after[j].obj[f] == metadata[f]
  {
    var base := StripExt(target);
    if base + ".json" == base + ".txt" {
      AppendCancel(base, ".json", ".txt");
    }
  }

  /** Writing the sidecars leaves the image itself alone, unless it is named like one of them. */
  lemma SidecarsKeepImage(files: map<string, Content>, target: string, metadata: Option<Patch>)
    requires target in files && !EndsWith(target, ".json") && !EndsWith(target, ".txt")
    ensures target in SidecarsWritten(files, target, metadata)
    ensures SidecarsWritten(files, target, metadata)[target] == files[target]
  {
    if StripExt(target) + ".json" == target {
      SidecarOfItself(target, ".json");
    }
    if StripExt(target) + ".txt" == target {
      SidecarOfItself(target, ".txt");
    }
  }

  /** A file found by scan-directory. */
  datatype ScannedFile = ScannedFile(name: string, fullPath: string)

  class MainProcess {
    var files: map<string, Content>
    var dirs: set<string>
    var allowedPaths: set<string>
    var ignoredPaths: set<string>
    var timers: seq<Timer>
    var watchers: set<string>
    /** Tags exiftool has embedded, per file. */
    var exif: map<string, map<string, Value>>
    /** Paths whose write, copy or rename fails with an I/O error. */
    var faulty: set<string>
    /** `getDefaultVaultPathString()` */
    const defaultVault: string
    /** `app.getPath('userData')` */
    const userData: string
    /** The SHA-256 digest of a file's content, as calculate-hash returns it. */
    const digest: Content -> string

    constructor (defaultVault: string, userData: string, digest: Content -> string)
      ensures this.defaultVault == defaultVault && this.userData == userData && this.digest == digest
      ensures files == map[] && dirs == {} && allowedPaths == {} && ignoredPaths == {}
      ensures timers == [] && watchers == {} && exif == map[] && faulty == {}
    {
      this.defaultVault := defaultVault;
      this.userData := userData;
      this.digest := digest;
      files := map[];
      dirs := {};
      allowedPaths := {};
      ignoredPaths := {};
      timers := [];
      watchers := {};
      exif := map[];
      faulty := {};
    }

    /** `fs.existsSync` */
    predicate Exists(p: string)
      reads this`files, this`dirs
    {
      p in files || p in dirs
    }

    /**
     * isPathAllowed (main.cjs:118-148): the lower-cased target is the default
     * vault or an allowed root, or lies below one of them.
     */
    predicate IsPathAllowed(target: string)
      reads this`allowedPaths
    {
      AllowedWith(allowedPaths, target)
    }

    /** isPathAllowed against a given allow-list. */
    predicate AllowedWith(roots: set<string>, target: string)
    {
      target != "" &&
      (AllowedBy(ToLower(target), ToLower(defaultVault)) ||
       exists a :: a in roots && AllowedBy(ToLower(target), ToLower(a)))
    }

    /** Adding roots to the allow-list never disallows a path. */
    lemma AllowedGrows(roots: set<string>, more: set<string>, target: string)
      requires roots <= more && AllowedWith(roots, target)
      ensures AllowedWith(more, target)
    {
    }

    /** The allow-list test is a separator-bounded prefix test, both ways. */
    lemma AllowedIff(target: string)
      ensures IsPathAllowed(target) <==>
        target != "" &&
        (Under(ToLower(target), ToLower(defaultVault)) ||
         exists a :: a in allowedPaths && Under(ToLower(target), ToLower(a)))
    {
      FallbackAddsNothing(ToLower(target), ToLower(defaultVault));
      forall a | a in allowedPaths {
        FallbackAddsNothing(ToLower(target), ToLower(a));
      }
    }

    /** addAllowedPath (main.cjs:150-154) */
    method AddAllowedPath(folder: string)
      modifies this`allowedPaths
      ensures allowedPaths == if folder != "" then old(allowedPaths) + {folder} else old(allowedPaths)
    {
      if folder != "" {
        allowedPaths := allowedPaths + {folder};
      }
    }

    /** removeAllowedPath (main.cjs:156-160) */
    method RemoveAllowedPath(folder: string)
      modifies this`allowedPaths
      ensures allowedPaths == if folder != "" then old(allowedPaths) - {folder} else old(allowedPaths)
    {
      if folder != "" {
        allowedPaths := allowedPaths - {folder};
      }
    }

    /** add-to-allowed-paths (main.cjs:976-980) */
    method AddToAllowedPaths(paths: seq<string>)
      modifies this`allowedPaths
      ensures allowedPaths == old(allowedPaths) + (set p | p in paths && p != "")
    {
      var i := 0;
      while i < |paths|
        invariant 0 <= i <= |paths|
        invariant allowedPaths == old(allowedPaths) + (set p | p in paths[..i] && p != "")
      {
        assert paths[..i + 1] == paths[..i] + [paths[i]];
        AddAllowedPath(paths[i]);
        i := i + 1;
      }
      assert paths[..i] == paths;
    }

    /**
     * getUniquePath (main.cjs:163-174): `dir/filename` if that is free, otherwise
     * `dir/stem_N.ext` for the least N >= 1 that is free.
     */
    method GetUniquePath(dir: string, filename: string) returns (target: string)
      ensures !Exists(target)
      ensures !Exists(Join(dir, filename)) ==> target == Join(dir, filename)
      ensures Exists(Join(dir, filename)) ==>
        exists n: nat :: n >= 1 && target == Numbered(dir, filename, n) &&
          forall m: nat :: 1 <= m < n ==> Exists(Numbered(dir, filename, m))
      ensures dir != "" || filename != "" ==> target != ""
      ensures forall e :: ExtSuffix(filename, e) ==> ExtSuffix(target, e)
    {
      target := Join(dir, filename);
      var counter: nat := 1;
      var last: nat := 0;
      ghost var universe := files.Keys + dirs;
      while Exists(target)
        invariant counter >= 1 && last == counter - 1
        invariant counter == 1 ==> target == Join(dir, filename)
        invariant counter > 1 ==> target == Numbered(dir, filename, last) && Exists(Join(dir, filename))
        invariant forall m: nat :: 1 <= m < last ==> Numbered(dir, filename, m) in universe
        decreases |universe| + 2 - counter
      {
        if counter > 1 {
          assert target in universe;
          forall m: nat | 1 <= m < last + 1
            ensures Numbered(dir, filename, m) in universe
          {
            if m == last {
              assert Numbered(dir, filename, m) == target;
            }
          }
          CandidatesWithin(dir, filename, last + 1, universe);
          CandidatesBound(dir, filename, last, universe);
        }
        last := counter;
        target := Numbered(dir, filename, last);
        counter := counter + 1;
      }
      forall e | ExtSuffix(filename, e) ensures ExtSuffix(target, e) {
        if counter == 1 {
          JoinEndsWith(dir, filename);
          ExtSuffixOfSuffix(target, filename, e);
        } else {
          NumberedExtSuffix(dir, filename, last, e);
        }
      }
    }

    /** get-unique-path (main.cjs:454-457): a folder outside the allow-list gets the bare filename back. */
    method GetUniquePathHandler(dir: string, filename: string) returns (target: string)
      ensures !IsPathAllowed(dir) ==> target == filename
      ensures IsPathAllowed(dir) ==> !Exists(target)
      ensures filename != "" ==> target != ""
      ensures forall e :: ExtSuffix(filename, e) ==> ExtSuffix(target, e)
    {
      if !IsPathAllowed(dir) {
        return filename;
      }
      target := GetUniquePath(dir, filename);
    }

    /** read-file (main.cjs:311-318): null outside the allow-list or when the file is absent. */
    /** read-file against a given file map and allow-list. */
    function ReadFrom(roots: set<string>, fs: map<string, Content>, p: string): Option<Content>
    {
      if AllowedWith(roots, Dirname(p)) && p in fs then Some(fs[p]) else None
    }

    function ReadFile(p: string): (r: Option<Content>)
      reads this`files, this`allowedPaths
      ensures r.Some? <==> IsPathAllowed(Dirname(p)) && p in files
      ensures r.Some? ==> r.value == files[p]
      ensures r == ReadFrom(allowedPaths, files, p)
    {
      if IsPathAllowed(Dirname(p)) && p in files then Some(files[p]) else None
    }

    /** calculate-hash (main.cjs:874-889) */
    function CalculateHash(p: string): (r: Result<string>)
      reads this`files, this`allowedPaths
      ensures r.Success? <==> IsPathAllowed(Dirname(p)) && p in files
      ensures r.Success? ==> r.value == digest(files[p])
    {
      if !IsPathAllowed(Dirname(p)) then Failure("Unauthorized path")
      else if p !in files then Failure("ENOENT")
      else Success(digest(files[p]))
    }

    /**
     * write-file (main.cjs:262-309), atomic variant: the content goes to a
     * temporary file that is then renamed over the target.
     */
    method WriteFile(filePath: string, content: Content, now: int) returns (r: Result<bool>)
      modifies this`files, this`dirs, this`allowedPaths, this`ignoredPaths, this`timers
      ensures !old(IsPathAllowed(Dirname(filePath))) ==>
        r == Failure("Unauthorized path") && files == old(files) && dirs == old(dirs) &&
        allowedPaths == old(allowedPaths) && ignoredPaths == old(ignoredPaths) && timers == old(timers)
      ensures old(IsPathAllowed(Dirname(filePath))) ==>
        dirs == old(dirs) + {Dirname(filePath)} &&
        allowedPaths == old(allowedPaths) + {Dirname(filePath)}
      ensures old(IsPathAllowed(Dirname(filePath))) && filePath !in faulty ==>
        r == Success(true) &&
        files == (old(files) - {TempPath(filePath, now)})[filePath := content] &&
        ignoredPaths == (old(ignoredPaths) + {ToLower(filePath)}) - {ToLower(TempPath(filePath, now))} &&
        timers == old(timers) + [Timer(now + WRITE_IGNORE_MS, [ToLower(filePath)])]
      ensures old(IsPathAllowed(Dirname(filePath))) && filePath in faulty ==>
        r.Failure? &&
        files == old(files)[TempPath(filePath, now) := content] &&
        ignoredPaths == old(ignoredPaths) + {ToLower(filePath), ToLower(TempPath(filePath, now))} &&
        timers == old(timers)
    {
      var dir := Dirname(filePath);
      if !IsPathAllowed(dir) {
        return Failure("Unauthorized path");
      }
      dirs := dirs + {dir};
      allowedPaths := allowedPaths + {dir};
      var normalized := ToLower(filePath);
      ignoredPaths := ignoredPaths + {normalized};
      var tempPath := TempPath(filePath, now);
      var tempNormalized := ToLower(tempPath);
      ignoredPaths := ignoredPaths + {tempNormalized};
      files := files[tempPath := content];
      if filePath in faulty {
        return Failure("rename failed");
      }
      assert tempPath != filePath by { assert |tempPath| > |filePath|; }
      MoveWritten(old(files), tempPath, filePath, content);
      files := Move(files, tempPath, filePath);
      ignoredPaths := ignoredPaths - {tempNormalized};
      timers := timers + [Timer(now + WRITE_IGNORE_MS, [normalized])];
      r := Success(true);
    }

    /** `filePath + '.tmp.' + Date.now()` */
    static function TempPath(filePath: string, now: int): (t: string)
      ensures |t| > |filePath|
    {
      filePath + ".tmp." + IntToString(now)
    }

    /**
     * copy-to-vault (main.cjs:321-365): copy into `vault/name` under a unique
     * name, then write the JSON sidecar (without src and blob) and, when the
     * metadata has a prompt, the `.txt` sidecar.
     */
    method CopyToVault(sourcePath: string, vaultPath: string, vaultName: string, filename: string,
                       metadata: Option<Patch>, now: int) returns (r: Result<string>)
      modifies this`files, this`dirs, this`allowedPaths, this`ignoredPaths, this`timers
      ensures dirs == old(dirs) + {Join(vaultPath, vaultName)}
      ensures allowedPaths == old(allowedPaths) + (if Join(vaultPath, vaultName) != "" then {Join(vaultPath, vaultName)} else {})
      ensures r.Success? ==> (
        !old(Exists(r.value)) && old(sourcePath in files) &&
        files == SidecarsWritten(old(files)[r.value := old(files[sourcePath])], r.value, metadata) &&
        ignoredPaths == old(ignoredPaths) + PathSet([ToLower(r.value)] + SidecarKeys(r.value)) &&
        timers == old(timers) + [Timer(now + COPY_IGNORE_MS, [ToLower(r.value)] + SidecarKeys(r.value))])
      ensures r.Failure? ==> files == old(files) && timers == old(timers) && old(ignoredPaths) <= ignoredPaths
      ensures old(sourcePath in files) && faulty == {} ==> r.Success?
    {
      var targetDir := Join(vaultPath, vaultName);
      dirs := dirs + {targetDir};
      AddAllowedPath(targetDir);
      var targetPath := GetUniquePath(targetDir, filename);
      r := CopyInto(sourcePath, targetPath, metadata, now);
    }

    /** copy-to-vault once the target is chosen: the copy, then the sidecars. */
    method CopyInto(sourcePath: string, targetPath: string, metadata: Option<Patch>, now: int) returns (r: Result<string>)
      modifies this`files, this`ignoredPaths, this`timers
      ensures r.Success? ==> (
        r.value == targetPath && old(sourcePath in files) &&
        files == SidecarsWritten(old(files)[targetPath := old(files[sourcePath])], targetPath, metadata) &&
        ignoredPaths == old(ignoredPaths) + PathSet([ToLower(targetPath)] + SidecarKeys(targetPath)) &&
        timers == old(timers) + [Timer(now + COPY_IGNORE_MS, [ToLower(targetPath)] + SidecarKeys(targetPath))])
      ensures r.Failure? ==> files == old(files) && timers == old(timers) && old(ignoredPaths) <= ignoredPaths
      ensures old(sourcePath in files) && faulty == {} ==> r.Success?
    {
      ignoredPaths := ignoredPaths + {ToLower(targetPath)};
      if sourcePath !in files || targetPath in faulty {
        return Failure("copy failed");
      }
      PlaceInVault(targetPath, files[sourcePath], metadata, now);
      PathSetCons(ToLower(targetPath), SidecarKeys(targetPath));
      r := Success(targetPath);
    }

    /** The image written at `targetPath`, then its sidecars. */
    method PlaceInVault(targetPath: string, content: Content, metadata: Option<Patch>, now: int)
      modifies this`files, this`ignoredPaths, this`timers
      ensures files == SidecarsWritten(old(files)[targetPath := content], targetPath, metadata)
      ensures ignoredPaths == old(ignoredPaths) + PathSet(SidecarKeys(targetPath))
      ensures timers == old(timers) + [Timer(now + COPY_IGNORE_MS, [ToLower(targetPath)] + SidecarKeys(targetPath))]
    {
      files := files[targetPath := content];
      WriteVaultSidecars(targetPath, metadata, now);
    }

    /** The second half of copy-to-vault and save-blob-to-vault, once the image is in place (main.cjs:337-358, 573-594). */
    method WriteVaultSidecars(targetPath: string, metadata: Option<Patch>, now: int)
      modifies this`files, this`ignoredPaths, this`timers
      ensures files == SidecarsWritten(old(files), targetPath, metadata)
      ensures ignoredPaths == old(ignoredPaths) + PathSet(SidecarKeys(targetPath))
      ensures timers == old(timers) + [Timer(now + COPY_IGNORE_MS, [ToLower(targetPath)] + SidecarKeys(targetPath))]
    {
      var baseP := StripExt(targetPath);
      ignoredPaths := ignoredPaths + {ToLower(baseP + ".json"), ToLower(baseP + ".txt")};
      files := SidecarsWritten(files, targetPath, metadata);
      timers := timers + [Timer(now + COPY_IGNORE_MS, [ToLower(targetPath)] + SidecarKeys(targetPath))];
    }

    /**
     * save-blob-to-vault (main.cjs:557-607): like copy-to-vault, with the bytes
     * coming from the renderer. The result is the written path.
     */
    method SaveBlobToVault(vaultPath: string, vaultName: string, filename: string, buffer: seq<int>,
                           metadata: Option<Patch>, now: int) returns (r: Result<string>)
      modifies this`files, this`dirs, this`allowedPaths, this`ignoredPaths, this`timers
      ensures dirs == old(dirs) + {Join(vaultPath, vaultName)}
      ensures allowedPaths == old(allowedPaths) + {Join(vaultPath, vaultName)}
      ensures r.Success? ==> (
        !old(Exists(r.value)) &&
        files == SidecarsWritten(old(files)[r.value := Binary(buffer)], r.value, metadata) &&
        ignoredPaths == old(ignoredPaths) + PathSet([ToLower(r.value)] + SidecarKeys(r.value)) &&
        timers == old(timers) + [Timer(now + COPY_IGNORE_MS, [ToLower(r.value)] + SidecarKeys(r.value))])
      ensures r.Failure? ==> files == old(files) && timers == old(timers) && old(ignoredPaths) <= ignoredPaths
      ensures faulty == {} ==> r.Success?
      ensures r.Success? && filename != "" ==> r.value != ""
    {
      var targetDir := Join(vaultPath, vaultName);
      dirs := dirs + {targetDir};
      allowedPaths := allowedPaths + {targetDir};
      var targetPath := GetUniquePath(targetDir, filename);
      ignoredPaths := ignoredPaths + {ToLower(targetPath)};
      if targetPath in faulty {
        return Failure("write failed");
      }
      PlaceInVault(targetPath, Binary(buffer), metadata, now);
      PathSetCons(ToLower(targetPath), SidecarKeys(targetPath));
      r := Success(targetPath);
    }

    /**
     * rename-file (main.cjs:367-432). Both folders must be allowed; a rename that
     * only changes letter case returns the old path untouched; a taken target is
     * replaced by a unique one; sidecars move before the image.
     */
    method RenameFile(oldPath: string, newPath: string, now: int) returns (r: Result<string>)
      modifies this`files, this`ignoredPaths, this`timers
      ensures !old(IsPathAllowed(Dirname(oldPath))) || !old(IsPathAllowed(Dirname(newPath))) ==>
        r == Failure("Unauthorized path") && files == old(files) && ignoredPaths == old(ignoredPaths) && timers == old(timers)
      ensures old(IsPathAllowed(Dirname(oldPath))) && old(IsPathAllowed(Dirname(newPath))) && ToLower(oldPath) == ToLower(newPath) ==>
        r == Success(oldPath) && files == old(files) && ignoredPaths == old(ignoredPaths) && timers == old(timers)
      ensures old(IsPathAllowed(Dirname(oldPath))) && old(IsPathAllowed(Dirname(newPath))) && ToLower(oldPath) != ToLower(newPath) ==>
        (r.Success? ==>
          (if old(Exists(newPath)) then !old(Exists(r.value)) else r.value == newPath) &&
          files == Renamed(old(files), oldPath, r.value) &&
          ignoredPaths == old(ignoredPaths) + PathSet(RenameIgnores(oldPath, r.value)) &&
          timers == old(timers) + [Timer(now + RENAME_IGNORE_MS, RenameIgnores(oldPath, r.value))]) &&
        (r.Failure? ==> old(ignoredPaths) <= ignoredPaths && timers == old(timers)) &&
        (faulty == {} || (!old(Exists(newPath)) && RenameTargets(newPath) !! faulty) ==> r.Success?)
      ensures r.Success? && oldPath != "" && newPath != "" ==> r.value != ""
      ensures r.Success? && ToLower(oldPath) != ToLower(newPath) && newPath != "" ==> r.value != ""
      ensures r.Success? && ToLower(oldPath) != ToLower(newPath) ==> forall e :: ExtSuffix(newPath, e) ==> ExtSuffix(r.value, e)
    {
      if !IsPathAllowed(Dirname(oldPath)) || !IsPathAllowed(Dirname(newPath)) {
        return Failure("Unauthorized path");
      }
      if ToLower(oldPath) == ToLower(newPath) {
        return Success(oldPath);
      }
      r := RenameInto(oldPath, newPath, now);
    }

    /** rename-file once both folders are allowed and the names differ (main.cjs:380-431). */
    method RenameInto(oldPath: string, newPath: string, now: int) returns (r: Result<string>)
      modifies this`files, this`ignoredPaths, this`timers
      ensures r.Success? ==>
        (if old(Exists(newPath)) then !old(Exists(r.value)) else r.value == newPath) &&
        files == Renamed(old(files), oldPath, r.value) &&
        ignoredPaths == old(ignoredPaths) + PathSet(RenameIgnores(oldPath, r.value)) &&
        timers == old(timers) + [Timer(now + RENAME_IGNORE_MS, RenameIgnores(oldPath, r.value))]
      ensures r.Failure? ==> old(ignoredPaths) <= ignoredPaths && timers == old(timers)
      ensures faulty == {} || (!old(Exists(newPath)) && RenameTargets(newPath) !! faulty) ==> r.Success?
      ensures r.Success? && newPath != "" ==> r.value != ""
      ensures r.Success? ==> forall e :: ExtSuffix(newPath, e) ==> ExtSuffix(r.value, e)
    {
      var target := FreeTarget(newPath);
      var ok := RenameOnto(oldPath, target, now);
      r := if ok then Success(target) else Failure("rename failed");
    }

    /** The renames onto a chosen target, with its paths ignored and, on success, their cleanup scheduled. */
    method RenameOnto(oldPath: string, target: string, now: int) returns (ok: bool)
      modifies this`files, this`ignoredPaths, this`timers
      ensures ignoredPaths == old(ignoredPaths) + PathSet(RenameIgnores(oldPath, target))
      ensures ok ==> (files == Renamed(old(files), oldPath, target) &&
        timers == old(timers) + [Timer(now + RENAME_IGNORE_MS, RenameIgnores(oldPath, target))])
      ensures !ok ==> timers == old(timers)
      ensures RenameTargets(target) !! faulty ==> ok
    {
      var toIgnore := RenameIgnores(oldPath, target);
      ignoredPaths := ignoredPaths + PathSet(toIgnore);
      ok := MoveWithSidecars(oldPath, target);
      if ok {
        timers := timers + [Timer(now + RENAME_IGNORE_MS, toIgnore)];
      }
    }

    /** rename-file's target: `newPath`, or a unique name next to it when that is taken (main.cjs:385-390). */
    method FreeTarget(newPath: string) returns (target: string)
      ensures !Exists(newPath) ==> target == newPath
      ensures Exists(newPath) ==> !Exists(target)
      ensures newPath != "" ==> target != ""
      ensures forall e :: ExtSuffix(newPath, e) ==> ExtSuffix(target, e)
    {
      target := newPath;
      if Exists(newPath) {
        target := GetUniquePath(Dirname(newPath), Basename(newPath));
        forall e | ExtSuffix(newPath, e) ensures ExtSuffix(target, e) {
          ExtSuffixBasename(newPath, e);
        }
      }
    }

    /** Steps 1 and 2 of rename-file: the sidecars, then the image; false when a rename fails. */
    method MoveWithSidecars(oldPath: string, target: string) returns (ok: bool)
      modifies this`files
      ensures ok ==> files == Renamed(old(files), oldPath, target)
      ensures RenameTargets(target) !! faulty ==> ok
    {
      var baseOld, baseNew := StripExt(oldPath), StripExt(target);
      var i := 0;
      while i < |SIDECAR_EXTS|
        invariant 0 <= i <= |SIDECAR_EXTS|
        invariant files == MoveSidecars(old(files), baseOld, baseNew, SIDECAR_EXTS[..i])
      {
        var pOld, pNew := baseOld + SIDECAR_EXTS[i], baseNew + SIDECAR_EXTS[i];
        assert SIDECAR_EXTS[..i + 1][..i] == SIDECAR_EXTS[..i];
        if pOld in files {
          if pNew in faulty {
            return false;
          }
          files := Move(files, pOld, pNew);
        }
        i := i + 1;
      }
      if oldPath in files {
        if target in faulty {
          return false;
        }
        files := Move(files, oldPath, target);
      }
      return true;
    }

    /** The disk after trash-file: the file and the `.json`/`.txt` next to it are gone (main.cjs:470-480). */
    static function Trashed(files: map<string, Content>, p: string): map<string, Content>
    {
      files - {p, StripExt(p) + ".json", StripExt(p) + ".txt"}
    }

    /** trash-file (main.cjs:464-486) */
    method TrashFile(p: string) returns (r: Result<bool>)
      modifies this`files, this`dirs
      ensures !old(IsPathAllowed(Dirname(p))) ==> r == Failure("Unauthorized path") && files == old(files) && dirs == old(dirs)
      ensures old(IsPathAllowed(Dirname(p))) ==> r == Success(true) && files == Trashed(old(files), p) && dirs == old(dirs) - {p}
    {
      if !IsPathAllowed(Dirname(p)) {
        return Failure("Unauthorized path");
      }
      files := Trashed(files, p);
      dirs := dirs - {p};
      r := Success(true);
    }

    /** Where backup-file puts a copy of `p` and the stem its sidecar copies share (main.cjs:494-503). */
    function BackupPaths(p: string, now: int): (string, string)
    {
      var dir := Join(userData, "undo_buffer");
      var stamped := Stem(p) + "_" + IntToString(now);
      (Join(dir, stamped + Extname(p)), Join(dir, stamped))
    }

    /** backup-file (main.cjs:489-518) */
    method BackupFile(p: string, now: int) returns (r: Result<(string, string)>)
      modifies this`files, this`dirs
      ensures !old(IsPathAllowed(Dirname(p))) ==> r.Failure? && files == old(files) && dirs == old(dirs)
      ensures old(IsPathAllowed(Dirname(p))) ==> dirs == old(dirs) + {Join(userData, "undo_buffer")}
      ensures old(IsPathAllowed(Dirname(p))) && (old(p !in files) || BackupPaths(p, now).0 in faulty) ==>
        r.Failure? && files == old(files)
      ensures old(IsPathAllowed(Dirname(p))) && old(p in files) && BackupPaths(p, now).0 !in faulty ==>
        r == Success(BackupPaths(p, now)) &&
        files == CopySidecars(old(files)[r.value.0 := old(files[p])], StripExt(p), r.value.1, SIDECAR_EXTS)
    {
      if !IsPathAllowed(Dirname(p)) {
        return Failure("Unauthorized path");
      }
      dirs := dirs + {Join(userData, "undo_buffer")};
      var (backupPath, backupBase) := BackupPaths(p, now);
      if p !in files || backupPath in faulty {
        return Failure("copy failed");
      }
      files := files[backupPath := files[p]];
      CopySidecarFiles(StripExt(p), backupBase);
      r := Success((backupPath, backupBase));
    }

    /** The backup copy and its sidecar copies differ unless the file's own extension is a sidecar one. */
    lemma BackupPathsDistinct(p: string, now: int)
      ensures Extname(p) !in SIDECAR_EXTS ==> forall e :: e in SIDECAR_EXTS ==> BackupPaths(p, now).0 != BackupPaths(p, now).1 + e
    {
      var stamped := Stem(p) + "_" + IntToString(now);
      assert BackupPaths(p, now) == (Join(Join(userData, "undo_buffer"), stamped + Extname(p)), Join(Join(userData, "undo_buffer"), stamped));
      StampedDistinct(Join(userData, "undo_buffer"), stamped, Extname(p));
    }

    /** The backup holds the file's content, unless the file is itself a `.json` or `.txt` sidecar. */
    lemma BackupKeepsContent(files: map<string, Content>, p: string, now: int, c: Content)
      requires Extname(p) !in SIDECAR_EXTS
      ensures var (b, sidecars) := BackupPaths(p, now);
        var after := CopySidecars(files[b := c], StripExt(p), sidecars, SIDECAR_EXTS);
        b in after && after[b] == c
    {
      var (b, sidecars) := BackupPaths(p, now);
      BackupPathsDistinct(p, now);
      CopySidecarsFrame(files[b := c], StripExt(p), sidecars, SIDECAR_EXTS, b);
    }

    /** The backup of `p` is none of the paths trashing `p` and `base`'s sidecars removes. */
    lemma BackupNotCleanedUp(p: string, now: int, base: string)
      requires Extname(p) !in SIDECAR_EXTS
      ensures BackupPaths(p, now).0 !in CleanupSet(p, base)
    {
      var stamped := Stem(p) + "_" + IntToString(now);
      var dir := Join(userData, "undo_buffer");
      JoinIsPrefix(dir, stamped + Extname(p));
      assert dir != "" && JoinPrefix(dir)[|JoinPrefix(dir)| - 1] == SEP;
      StampedNotCleanedUp(JoinPrefix(dir), p, now, base);
    }

    /** The sidecar loop of backup-file and restore-file (main.cjs:504-508, 530-534). */
    method CopySidecarFiles(from: string, to: string)
      modifies this`files
      ensures files == CopySidecars(old(files), from, to, SIDECAR_EXTS)
    {
      var i := 0;
      while i < |SIDECAR_EXTS|
        invariant 0 <= i <= |SIDECAR_EXTS|
        invariant files == CopySidecars(old(files), from, to, SIDECAR_EXTS[..i])
      {
        assert SIDECAR_EXTS[..i + 1][..i] == SIDECAR_EXTS[..i];
        if from + SIDECAR_EXTS[i] in files {
          files := files[to + SIDECAR_EXTS[i] := files[from + SIDECAR_EXTS[i]]];
        }
        i := i + 1;
      }
    }

    /** The disk after restore-file copied the backup, and the backed-up sidecars when there are any, back into place. */
    static function Restored(files: map<string, Content>, backupPath: string, targetPath: string, backupBase: Option<string>)
      : map<string, Content>
      requires backupPath in files
    {
      var restored := files[targetPath := files[backupPath]];
      if backupBase.Some? then CopySidecars(restored, backupBase.value, StripExt(targetPath), SIDECAR_EXTS)
      else restored
    }

    /** restore-file (main.cjs:521-543) */
    method RestoreFile(backupPath: string, targetPath: string, backupBase: Option<string>) returns (r: Result<bool>)
      modifies this`files
      ensures !old(IsPathAllowed(Dirname(targetPath))) ==> r.Failure? && files == old(files)
      ensures old(IsPathAllowed(Dirname(targetPath))) && (old(backupPath !in files) || targetPath in faulty) ==>
        r.Failure? && files == old(files)
      ensures old(IsPathAllowed(Dirname(targetPath))) && old(backupPath in files) && targetPath !in faulty ==>
        r == Success(true) && files == Restored(old(files), backupPath, targetPath, backupBase)
    {
      if !IsPathAllowed(Dirname(targetPath)) {
        return Failure("Unauthorized path");
      }
      if backupPath !in files || targetPath in faulty {
        return Failure("copy failed");
      }
      files := files[targetPath := files[backupPath]];
      if backupBase.Some? {
        CopySidecarFiles(backupBase.value, StripExt(targetPath));
      }
      r := Success(true);
    }

    /** mkdir (main.cjs:546-555): the parent must be allowed; the new folder joins the allow-list. */
    method Mkdir(dirPath: string) returns (r: Result<bool>)
      modifies this`dirs, this`allowedPaths
      ensures !old(IsPathAllowed(Dirname(dirPath))) ==> r.Failure? && dirs == old(dirs) && allowedPaths == old(allowedPaths)
      ensures old(IsPathAllowed(Dirname(dirPath))) ==> (r.Success? && dirs == old(dirs) + {dirPath} &&
        allowedPaths == old(allowedPaths) + (if dirPath != "" then {dirPath} else {}))
    {
      if !IsPathAllowed(Dirname(dirPath)) {
        return Failure("Unauthorized");
      }
      dirs := dirs + {dirPath};
      AddAllowedPath(dirPath);
      r := Success(true);
    }

    /** write-metadata (main.cjs:730-768): exiftool embeds the tags in an allowed, existing file. */
    method WriteMetadata(filePath: string, title: string, prompt: string, rating: Option<int>,
                         tags: Option<seq<string>>, now: int) returns (r: Result<bool>)
      modifies this`exif, this`ignoredPaths, this`timers
      ensures !old(IsPathAllowed(Dirname(filePath))) ==>
        r == Failure("Unauthorized path") && exif == old(exif) && ignoredPaths == old(ignoredPaths) && timers == old(timers)
      ensures old(IsPathAllowed(Dirname(filePath))) ==> ignoredPaths == old(ignoredPaths) + {ToLower(filePath)}
      ensures old(IsPathAllowed(Dirname(filePath))) && filePath in files && filePath !in faulty ==>
        r == Success(true) && exif == old(exif)[filePath := Merged(old(exif), filePath, ExifWriteData(title, prompt, rating, tags))] &&
        timers == old(timers) + [Timer(now + WRITE_IGNORE_MS, [ToLower(filePath)])]
      ensures old(IsPathAllowed(Dirname(filePath))) && (filePath !in files || filePath in faulty) ==>
        r.Failure? && exif == old(exif) && timers == old(timers)
    {
      if !IsPathAllowed(Dirname(filePath)) {
        return Failure("Unauthorized path");
      }
      var writeData := ExifWriteData(title, prompt, rating, tags);
      var normalized := ToLower(filePath);
      ignoredPaths := ignoredPaths + {normalized};
      if filePath !in files || filePath in faulty {
        return Failure("exiftool failed");
      }
      exif := exif[filePath := Merged(exif, filePath, writeData)];
      timers := timers + [Timer(now + WRITE_IGNORE_MS, [normalized])];
      r := Success(true);
    }

    /** `-overwrite_original` keeps the tags not being written. */
    static function Merged(exif: map<string, map<string, Value>>, p: string, w: map<string, Value>): map<string, Value>
    {
      (if p in exif then exif[p] else map[]) + w
    }

    /** The watcher's add/unlink handlers (main.cjs:840-860): an event for a path the app is writing is dropped. */
    function WatcherForwards(filePath: string): (forwarded: bool)
      reads this`ignoredPaths
      ensures forwarded <==> ToLower(filePath) !in ignoredPaths
    {
      ToLower(filePath) !in ignoredPaths
    }

    /** A path write-file has just written is suppressed until its timer fires. */
    lemma SelfWriteSuppressed(filePath: string)
      requires ToLower(filePath) in ignoredPaths
      ensures !WatcherForwards(filePath) && !WatcherForwards(ToLower(filePath))
    {
      ToLowerIdempotent(filePath);
    }

    /** watch-folder (main.cjs:822-863), without the chokidar set-up. */
    method WatchFolder(folder: string)
      modifies this`watchers, this`allowedPaths
      ensures old(folder in watchers) ==> watchers == old(watchers) && allowedPaths == old(allowedPaths)
      ensures old(folder !in watchers) ==> (watchers == old(watchers) + {folder} &&
        allowedPaths == old(allowedPaths) + (if folder != "" then {folder} else {}))
    {
      if folder in watchers {
        return;
      }
      AddAllowedPath(folder);
      watchers := watchers + {folder};
    }

    /** unwatch-folder (main.cjs:865-872): closing a watcher also removes its folder from the allow-list. */
    method UnwatchFolder(folder: string)
      modifies this`watchers, this`allowedPaths
      ensures old(folder in watchers) ==> (watchers == old(watchers) - {folder} &&
        allowedPaths == old(allowedPaths) - (if folder != "" then {folder} else {}))
      ensures old(folder !in watchers) ==> watchers == old(watchers) && allowedPaths == old(allowedPaths)
    {
      if folder in watchers {
        watchers := watchers - {folder};
        RemoveAllowedPath(folder);
      }
    }

    /** before-quit (main.cjs:990-1002) */
    method BeforeQuit()
      modifies this`watchers, this`allowedPaths
      ensures watchers == {} && allowedPaths == {}
    {
      watchers := {};
      allowedPaths := {};
    }

    /** get-default-vault-path (main.cjs:633-651) */
    method GetDefaultVaultPath() returns (p: string)
      modifies this`dirs, this`allowedPaths
      ensures p == defaultVault && dirs == old(dirs) + {defaultVault}
      ensures allowedPaths == old(allowedPaths) + (if defaultVault != "" then {defaultVault} else {})
    {
      dirs := dirs + {defaultVault};
      AddAllowedPath(defaultVault);
      p := defaultVault;
    }

    /** The fired timers' paths leave the ignore set; the others stay pending. */
    method Tick(now: int)
      modifies this`ignoredPaths, this`timers
      ensures ignoredPaths == old(ignoredPaths) - DuePaths(old(timers), now)
      ensures timers == Pending(old(timers), now)
    {
      var ts := timers;
      var i := 0;
      var rest: seq<Timer> := [];
      while i < |ts|
        invariant 0 <= i <= |ts|
        invariant ignoredPaths == old(ignoredPaths) - DuePaths(ts[..i], now)
        invariant rest == Pending(ts[..i], now)
      {
        PendingAppend(ts[..i], ts[i], now);
        DuePathsAppend(ts[..i], ts[i], now);
        assert ts[..i + 1] == ts[..i] + [ts[i]];
        if ts[i].due <= now {
          ignoredPaths := ignoredPaths - PathSet(ts[i].paths);
        } else {
          rest := rest + [ts[i]];
        }
        i := i + 1;
      }
      assert ts[..i] == ts;
      timers := rest;
    }

    /** The image files directly inside `folder`. */
    function ImagesIn(folder: string): set<string>
      reads this`files
    {
      set p | p in files && Dirname(p) == folder && IsImageExt(Extname(p))
    }

    /** scan-directory (main.cjs:212-251): null for a missing folder, else its image files in some order. */
    method ScanDirectory(folder: string) returns (r: Option<seq<ScannedFile>>)
      modifies this`allowedPaths
      ensures !old(Exists(folder)) ==> r.None? && allowedPaths == old(allowedPaths)
      ensures old(Exists(folder)) ==> (r.Some? &&
        allowedPaths == old(allowedPaths) + (if folder != "" then {folder} else {}))
      ensures r.Some? ==> (FullPaths(r.value) == old(ImagesIn(folder)) && DistinctPaths(r.value) &&
        forall i :: 0 <= i < |r.value| ==> r.value[i].name == Basename(r.value[i].fullPath))
    {
      if !Exists(folder) {
        return None;
      }
      AddAllowedPath(folder);
      var out := ListFiles(ImagesIn(folder));
      r := Some(out);
    }
  }

  /** `readdir` on the image files `images`: one entry per file, in an order the model leaves open. */
  method ListFiles(images: set<string>) returns (out: seq<ScannedFile>)
    ensures FullPaths(out) == images && DistinctPaths(out)
    ensures forall i :: 0 <= i < |out| ==> out[i].name == Basename(out[i].fullPath)
  {
    var left := images;
    out := [];
    while left != {}
      invariant left <= images
      invariant FullPaths(out) == images - left
      invariant DistinctPaths(out)
      invariant forall i :: 0 <= i < |out| ==> out[i].name == Basename(out[i].fullPath)
      decreases |left|
    {
      var p :| p in left;
      var f := ScannedFile(Basename(p), p);
      ListStep(images, left, out, f);
      out := out + [f];
      left := left - {p};
    }
  }

  lemma ListStep(images: set<string>, left: set<string>, out: seq<ScannedFile>, f: ScannedFile)
    requires left <= images && FullPaths(out) == images - left && DistinctPaths(out)
    requires forall i :: 0 <= i < |out| ==> out[i].name == Basename(out[i].fullPath)
    requires f.fullPath in left && f.name == Basename(f.fullPath)
    ensures FullPaths(out + [f]) == images - (left - {f.fullPath}) && DistinctPaths(out + [f])
    ensures forall i :: 0 <= i < |out| + 1 ==> (out + [f])[i].name == Basename((out + [f])[i].fullPath)
  {
    FullPathsAppend(out, f);
    DistinctAppend(out, f);
    forall i | 0 <= i < |out| + 1
      ensures (out + [f])[i].name == Basename((out + [f])[i].fullPath)
    {
      if i < |out| { assert (out + [f])[i] == out[i]; }
    }
  }

  /** The paths of scanned files. */
  function FullPaths(fs: seq<ScannedFile>): set<string>
  {
    set f | f in fs :: f.fullPath
  }

  predicate DistinctPaths(fs: seq<ScannedFile>)
  {
    forall i, j :: 0 <= i < j < |fs| ==> fs[i].fullPath != fs[j].fullPath
  }

  lemma DistinctAppend(fs: seq<ScannedFile>, f: ScannedFile)
    requires DistinctPaths(fs) && f.fullPath !in FullPaths(fs)
    ensures DistinctPaths(fs + [f])
  {
    forall i | 0 <= i < |fs|
      ensures fs[i].fullPath != f.fullPath
    {
      assert fs[i] in fs;
    }
  }

  lemma FullPathsAppend(fs: seq<ScannedFile>, f: ScannedFile)
    ensures FullPaths(fs + [f]) == FullPaths(fs) + {f.fullPath}
  {
    assert forall g :: g in fs + [f] <==> g in fs || g == f;
  }

  /** A file's sidecar path is the file itself only when the file carries that sidecar extension. */
  lemma SidecarOfItself(p: string, ext: string)
    requires StripExt(p) + ext == p
    ensures EndsWith(p, ext)
  {
    assert p[|p| - |ext|..] == ext;
  }

  lemma {:induction false} PendingAppend(ts: seq<Timer>, t: Timer, now: int)
    ensures Pending(ts + [t], now) == Pending(ts, now) + (if t.due > now then [t] else [])
  {
    if ts != [] {
      assert (ts + [t])[1..] == ts[1..] + [t];
      PendingAppend(ts[1..], t, now);
    } else {
      assert [t][1..] == [];
    }
  }
}
