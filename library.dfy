/**
 * The library operations of LibraryProvider (src/context.tsx) that sit on
 * top of the store and the disk sync: the duplicates attached to each image,
 * the throttled reload with its source counts, updateImage with its lock and
 * undo payload, the batch rename, the favourite toggle, and the rule that
 * keeps user-edited fields when background enrichment writes metadata.
 */
module Library {
  import opened Wrappers
  import opened Strings
  import opened Model
  import opened Store
  import opened History
  import opened AppState
  import Host
  import Toaster
  import SyncEngine
  import DiskSync
  import Selection
  import UndoRedo

  // ---------------------------------------------------------------- imagesWithDuplicates

  const VAULT_NAME: string := "Unknown Vault"

  /** A duplicate as the image lists it: the other image and the name of its source. */
  datatype Dupe = Dupe(image: ImageRecord, sourceName: string)

  /** An image of the list with its duplicates attached. */
  datatype Listed = Listed(image: ImageRecord, duplicates: seq<Dupe>)

  /** `hashToImages[h]`: the images carrying hash `h`, in list order. */
  function WithHash(images: seq<ImageRecord>, h: string): (g: seq<ImageRecord>)
    ensures forall o :: o in g <==> o in images && o.hash == Some(h)
  {
    if images == [] then []
    else (if images[0].hash == Some(h) then [images[0]] else []) + WithHash(images[1..], h)
  }

  /** `.filter(other => other.id !== id)` */
  function OthersOf(group: seq<ImageRecord>, id: string): (r: seq<ImageRecord>)
    ensures forall o :: o in r <==> o in group && o.id != id
  {
    if group == [] then []
    else (if group[0].id != id then [group[0]] else []) + OthersOf(group[1..], id)
  }

  /** `new Map(sources.map(s => [s.id, s.name])).get(id)`: the last source with that id wins. */
  function NameOf(sources: seq<LibrarySource>, id: string): Option<string>
  {
    if sources == [] then None
    else if sources[|sources| - 1].id == id then Some(sources[|sources| - 1].name)
    else NameOf(sources[..|sources| - 1], id)
  }

  /** `sourceMap.get(id) || DEFAULTS.VAULT_NAME` */
  function SourceName(sources: seq<LibrarySource>, id: string): string
  {
    var n := NameOf(sources, id);
    if n.Some? && n.value != "" then n.value else VAULT_NAME
  }

  function Named(others: seq<ImageRecord>, sources: seq<LibrarySource>): (ds: seq<Dupe>)
    ensures |ds| == |others|
    ensures forall k :: 0 <= k < |ds| ==> ds[k] == Dupe(others[k], SourceName(sources, others[k].sourceId))
  {
    seq(|others|, k requires 0 <= k < |others| => Dupe(others[k], SourceName(sources, others[k].sourceId)))
  }

  function Plain(ds: seq<Dupe>): (r: seq<ImageRecord>)
    ensures |r| == |ds| && forall k :: 0 <= k < |ds| ==> r[k] == ds[k].image
  {
    seq(|ds|, k requires 0 <= k < |ds| => ds[k].image)
  }

  /** The duplicates of one image (context.tsx:56-68). */
  function DupesOf(images: seq<ImageRecord>, sources: seq<LibrarySource>, img: ImageRecord): seq<Dupe>
  {
    if !Truthy(img.hash) then []
    else
      var group := WithHash(images, img.hash.value);
      if |group| < 2 then [] else Named(OthersOf(group, img.id), sources)
  }

  /** imagesWithDuplicates (context.tsx:45-70) */
  function ImagesWithDuplicates(images: seq<ImageRecord>, sources: seq<LibrarySource>): (r: seq<Listed>)
    ensures |r| == |images| && forall i :: 0 <= i < |images| ==> r[i].image == images[i]
  {
    seq(|images|, i requires 0 <= i < |images| => Listed(images[i], DupesOf(images, sources, images[i])))
  }

  lemma SingletonGroup(g: seq<ImageRecord>, x: ImageRecord, o: ImageRecord)
    requires x in g && |g| < 2 && o in g
    ensures o == x
  {
  }

  /**
   * An image's duplicates are exactly the other images of the list (by id)
   * with the same hash, each named after its source; with no hash there are
   * none.
   */
  lemma DuplicatesExact(images: seq<ImageRecord>, sources: seq<LibrarySource>, i: nat)
    requires i < |images|
    ensures var ds := ImagesWithDuplicates(images, sources)[i].duplicates;
      (forall o :: o in Plain(ds) <==>
        Truthy(images[i].hash) && o in images && o.hash == images[i].hash && o.id != images[i].id) &&
      (forall k :: 0 <= k < |ds| ==> ds[k].sourceName == SourceName(sources, ds[k].image.sourceId))
  {
    var img := images[i];
    var ds := ImagesWithDuplicates(images, sources)[i].duplicates;
    assert ds == DupesOf(images, sources, img);
    if Truthy(img.hash) {
      var group := WithHash(images, img.hash.value);
      assert img in group;
      if |group| < 2 {
        forall o | o in images && o.hash == img.hash
          ensures o.id == img.id
        {
          SingletonGroup(group, img, o);
        }
      } else {
        var others := OthersOf(group, img.id);
        assert Plain(ds) == others;
      }
    }
  }

  // ---------------------------------------------------------------- refreshImages

  const REFRESH_THROTTLE_MS: int := 2000
  const LOCAL_VAULT_NAME: string := "Local Vault"

  /** `counts[id] || 0`: how many stored images carry that source id. */
  function CountOf(images: map<string, ImageRecord>, id: string): nat
  {
    |set k | k in images && images[k].sourceId == id|
  }

  /** `dbSources.map(s => ({...s, count: counts[s.id] || 0}))` */
  function WithCounts(ss: seq<LibrarySource>, images: map<string, ImageRecord>): (r: seq<LibrarySource>)
    ensures |r| == |ss| && forall i :: 0 <= i < |ss| ==> r[i] == ss[i].(count := CountOf(images, ss[i].id))
  {
    seq(|ss|, i requires 0 <= i < |ss| => ss[i].(count := CountOf(images, ss[i].id)))
  }

  predicate HasInternal(ss: seq<LibrarySource>)
  {
    exists i :: 0 <= i < |ss| && ss[i].id == INTERNAL
  }

  function InternalSource(vaultPath: string, images: map<string, ImageRecord>): LibrarySource
  {
    LibrarySource(INTERNAL, LOCAL_VAULT_NAME, InternalVault, Some(vaultPath), CountOf(images, INTERNAL))
  }

  /** The source list refreshImages shows when the store has sources (context.tsx:162-175). */
  function CountedSources(ss: seq<LibrarySource>, images: map<string, ImageRecord>, vaultPath: string): seq<LibrarySource>
  {
    var updated := WithCounts(ss, images);
    if HasInternal(updated) then updated else [InternalSource(vaultPath, images)] + updated
  }

  /** Every listed source carries its image count, and a Local Vault entry is always there. */
  lemma CountedSourcesFacts(ss: seq<LibrarySource>, images: map<string, ImageRecord>, vaultPath: string)
    ensures var r := CountedSources(ss, images, vaultPath);
      HasInternal(r) &&
      (forall i :: 0 <= i < |r| ==> r[i].count == CountOf(images, r[i].id)) &&
      (forall s :: s in ss ==> s.(count := CountOf(images, s.id)) in r)
  {
    var updated := WithCounts(ss, images);
    var r := CountedSources(ss, images, vaultPath);
    if !HasInternal(updated) {
      assert r[0].id == INTERNAL;
      forall i | 0 <= i < |r| ensures r[i].count == CountOf(images, r[i].id) {
        if i > 0 { assert r[i] == updated[i - 1]; }
      }
      forall s | s in ss ensures s.(count := CountOf(images, s.id)) in r {
        var j :| 0 <= j < |ss| && ss[j] == s;
        assert r[j + 1] == updated[j];
      }
    } else {
      forall s | s in ss ensures s.(count := CountOf(images, s.id)) in r {
        var j :| 0 <= j < |ss| && ss[j] == s;
        assert r[j] == updated[j];
      }
    }
  }

  /** The local folder paths handed to add-to-allowed-paths (context.tsx:178-183). */
  function FolderPaths(ss: seq<LibrarySource>): (ps: seq<string>)
    ensures forall p :: p in ps <==> exists s :: s in ss && s.kind == LocalFolder && s.path == Some(p) && p != ""
  {
    if ss == [] then []
    else
      (if ss[0].kind == LocalFolder && ss[0].path.Some? && ss[0].path.value != "" then [ss[0].path.value] else []) +
      FolderPaths(ss[1..])
  }

  /** `{...img, src: img.src || '', dominantColors: img.dominantColors || []}` */
  function UiImage(r: ImageRecord): ImageRecord
  {
    r.(src := Some(SrcOrEmpty(r)), dominantColors := Some(if r.dominantColors.Some? then r.dominantColors.value else []))
  }

  /** The list shows one entry per stored record. */
  ghost predicate Lists(shown: seq<ImageRecord>, keys: seq<string>, images: map<string, ImageRecord>)
  {
    |shown| == |keys| &&
    (forall i :: 0 <= i < |keys| ==> keys[i] in images && shown[i] == UiImage(images[keys[i]])) &&
    (forall k :: k in images <==> k in keys) &&
    (forall i, j :: 0 <= i < j < |keys| ==> keys[i] != keys[j])
  }

  /** `toArray()` on the images table, in an order the model leaves open. */
  method Listing(images: map<string, ImageRecord>) returns (shown: seq<ImageRecord>, ghost keys: seq<string>)
    ensures Lists(shown, keys, images)
    ensures forall k :: k in images ==> UiImage(images[k]) in shown
    ensures forall x :: x in shown ==> exists k :: k in images && x == UiImage(images[k])
  {
    shown, keys := [], [];
    var rest := images.Keys;
    while rest != {}
      invariant ListedSoFar(shown, keys, rest, images)
      decreases |rest|
    {
      var k :| k in rest;
      ListingStep(shown, keys, rest, images, k);
      shown, keys := shown + [UiImage(images[k])], keys + [k];
      rest := rest - {k};
    }
    forall k | k in images
      ensures UiImage(images[k]) in shown
    {
      var i :| 0 <= i < |keys| && keys[i] == k;
      assert shown[i] == UiImage(images[k]);
    }
    forall x | x in shown
      ensures exists k :: k in images && x == UiImage(images[k])
    {
      var i :| 0 <= i < |shown| && shown[i] == x;
      assert keys[i] in images && x == UiImage(images[keys[i]]);
    }
  }

  /** The listing so far: the keys taken, each once, with `rest` the keys still to take. */
  ghost predicate ListedSoFar(shown: seq<ImageRecord>, keys: seq<string>, rest: set<string>, images: map<string, ImageRecord>)
  {
    rest <= images.Keys && |shown| == |keys| &&
    (forall i :: 0 <= i < |keys| ==> keys[i] in images && shown[i] == UiImage(images[keys[i]])) &&
    (forall k :: k in images <==> k in keys || k in rest) &&
    (forall k :: k in keys ==> k !in rest) &&
    (forall i, j :: 0 <= i < j < |keys| ==> keys[i] != keys[j])
  }

  lemma ListingStep(shown: seq<ImageRecord>, keys: seq<string>, rest: set<string>, images: map<string, ImageRecord>, k: string)
    requires ListedSoFar(shown, keys, rest, images) && k in rest
    ensures ListedSoFar(shown + [UiImage(images[k])], keys + [k], rest - {k}, images)
  {
    var keys', shown' := keys + [k], shown + [UiImage(images[k])];
    assert forall i :: 0 <= i < |keys| ==> keys'[i] == keys[i] && shown'[i] == shown[i];
    assert keys'[|keys|] == k && k !in keys;
    forall i, j | 0 <= i < j < |keys'|
      ensures keys'[i] != keys'[j]
    {
      if j == |keys| {
        assert keys'[i] in keys;
      }
    }
    assert forall x :: x in keys' <==> x in keys || x == k;
  }

  // ---------------------------------------------------------------- batchRename titles

  datatype RenamePattern = PromptSnippet | DateStamp | ModelSeq

  predicate IsAlnum(c: char) { 'a' <= c <= 'z' || 'A' <= c <= 'Z' || '0' <= c <= '9' }

  /** `s.replace(/[^a-zA-Z0-9 ]/g, '')`, or without the space when `space` is false. */
  function KeepAlnum(s: string, space: bool): (r: string)
    ensures forall c :: c in r ==> IsAlnum(c) || (space && c == ' ')
  {
    if s == [] then []
    else (if IsAlnum(s[0]) || (space && s[0] == ' ') then [s[0]] else []) + KeepAlnum(s[1..], space)
  }

  /** The leading characters of `s` up to its first white space. */
  function Word(s: string): (w: string)
    ensures |w| <= |s| && w == s[..|w|]
    ensures |w| < |s| ==> IsSpace(s[|w|])
  {
    if s == [] || IsSpace(s[0]) then [] else [s[0]] + Word(s[1..])
  }

  /** `s` without its leading white space. */
  function SkipSpaces(s: string): (r: string)
    ensures |r| <= |s|
  {
    if s != [] && IsSpace(s[0]) then SkipSpaces(s[1..]) else s
  }

  /** `s.split(/\s+/)`: the pieces between runs of white space, with an empty piece before a leading run and after a trailing one. */
  function SplitWhitespace(s: string): (ws: seq<string>)
    ensures ws != []
    decreases |s|
  {
    var w := Word(s);
    var rest := s[|w|..];
    if rest == [] then [w] else [w] + SplitWhitespace(SkipSpaces(rest))
  }

  /** `s.slice(a, b)` with both ends clamped to the string. */
  function Slice(s: string, a: nat, b: nat): string
  {
    var hi := if b <= |s| then b else |s|;
    var lo := if a <= hi then a else hi;
    s[lo..hi]
  }

  /** The title batchRename computes for the image at `index` of the selection (context.tsx:690-701). */
  function NewTitle(img: ImageRecord, pattern: RenamePattern, index: nat): string
  {
    match pattern
    case PromptSnippet =>
      var ws := SplitWhitespace(img.prompt);
      var words := KeepAlnum(JoinAll(ws[..if |ws| < 5 then |ws| else 5], " "), true);
      if words != "" then words else "Untitled"
    case DateStamp =>
      Slice(img.date, 0, 10) + "_" + ReplaceChar(Slice(img.date, 11, 19), ':', '-') + "_" + NatToString(index + 1)
    case ModelSeq =>
      var t := KeepAlnum(img.model, false) + "_" + NatToString(index + 1);
      Slice(t, 0, 30)
  }

  /** A prompt-snippet title is never empty and holds only letters, digits and spaces; a model-sequence title has at most 30 characters. */
  lemma NewTitleShape(img: ImageRecord, pattern: RenamePattern, index: nat)
    ensures pattern == PromptSnippet ==>
      NewTitle(img, pattern, index) != "" && forall c :: c in NewTitle(img, pattern, index) ==> IsAlnum(c) || c == ' '
    ensures pattern == ModelSeq ==> |NewTitle(img, pattern, index)| <= 30
  {
  }

  /** `images.filter(img => ids.includes(img.id))` */
  function Targets(images: seq<ImageRecord>, ids: seq<string>): (t: seq<ImageRecord>)
    ensures forall x :: x in t <==> x in images && x.id in ids
  {
    if images == [] then []
    else (if images[0].id in ids then [images[0]] else []) + Targets(images[1..], ids)
  }

  /** One title change: the image as listed and its new title. */
  datatype Rename = Rename(original: ImageRecord, title: string)

  /** The title each target gets, by its position in the selection. */
  function Titles(targets: seq<ImageRecord>, pattern: RenamePattern): (ts: seq<string>)
    ensures |ts| == |targets|
  {
    seq(|targets|, i requires 0 <= i < |targets| => NewTitle(targets[i], pattern, i))
  }

  /** The changes batchRename records: the targets whose title actually changes, with their new titles. */
  function Plan(targets: seq<ImageRecord>, titles: seq<string>): (plan: seq<Rename>)
    requires |titles| == |targets|
    ensures forall r :: r in plan ==> r.original in targets && r.title != r.original.title
    ensures |plan| <= |targets|
  {
    if targets == [] then []
    else (if titles[0] != targets[0].title then [Rename(targets[0], titles[0])] else []) + Plan(targets[1..], titles[1..])
  }

  /** Every target whose computed title differs from its own is in the plan, with that title. */
  lemma {:induction false} PlanComplete(targets: seq<ImageRecord>, titles: seq<string>, i: nat)
    requires |titles| == |targets| && i < |targets| && titles[i] != targets[i].title
    ensures Rename(targets[i], titles[i]) in Plan(targets, titles)
    decreases i
  {
    if i > 0 {
      PlanComplete(targets[1..], titles[1..], i - 1);
      assert targets[1..][i - 1] == targets[i] && titles[1..][i - 1] == titles[i];
    }
  }

  /** Every entry of the plan is the target at some position `i`, with the title of that position. */
  lemma {:induction false} PlanSound(targets: seq<ImageRecord>, titles: seq<string>, r: Rename) returns (i: nat)
    requires |titles| == |targets| && r in Plan(targets, titles)
    ensures i < |targets| && r == Rename(targets[i], titles[i])
    decreases |targets|
  {
    if titles[0] != targets[0].title && r == Rename(targets[0], titles[0]) {
      i := 0;
    } else {
      var j := PlanSound(targets[1..], titles[1..], r);
      i := j + 1;
      assert targets[1..][j] == targets[i] && titles[1..][j] == titles[i];
    }
  }

  function TitlePatch(title: string): Patch { map[Title := Str(title)] }

  function Changes(plan: seq<Rename>): (cs: seq<ChangeItem>)
    ensures |cs| == |plan| && forall i :: 0 <= i < |plan| ==> cs[i] == ChangeItem(plan[i].original.id, TitlePatch(plan[i].title))
  {
    seq(|plan|, i requires 0 <= i < |plan| => ChangeItem(plan[i].original.id, TitlePatch(plan[i].title)))
  }

  function Undos(plan: seq<Rename>): (us: seq<UndoItem>)
    ensures |us| == |plan| && forall i :: 0 <= i < |plan| ==> us[i] == UndoItem(plan[i].original.id, TitlePatch(plan[i].original.title))
  {
    seq(|plan|, i requires 0 <= i < |plan| => UndoItem(plan[i].original.id, TitlePatch(plan[i].original.title)))
  }

  /** A title change touches the title only. */
  lemma TitleOnly(r: ImageRecord, title: string)
    ensures Updated(r, TitlePatch(title)) == r.(title := title)
  {
  }

  /**
   * The loop of batchRename (context.tsx:719-724): each title is written and,
   * in the desktop app, the disk sync runs against the image as listed.
   */
  method RenameAll(engine: SyncEngine.Engine, db: Db, host: Host.MainProcess, env: UndoRedo.SyncEnv, plan: seq<Rename>)
    modifies engine`locks, engine`log, db`images, host`exif, host`files, host`dirs, host`allowedPaths, host`ignoredPaths, host`timers
    ensures UndoRedo.SameEditable(db.images, UndoRedo.Replayed(old(db.images), UndoRedo.ChangePairs(Changes(plan))))
    ensures !env.isElectron ==>
      db.images == UndoRedo.Replayed(old(db.images), UndoRedo.ChangePairs(Changes(plan))) && host.files == old(host.files)
    ensures engine.locks <= old(engine.locks)
  {
    ghost var ps := UndoRedo.ChangePairs(Changes(plan));
    var i := 0;
    while i < |plan|
      invariant 0 <= i <= |plan|
      invariant UndoRedo.SameEditable(db.images, UndoRedo.Replayed(old(db.images), ps[..i]))
      invariant !env.isElectron ==> db.images == UndoRedo.Replayed(old(db.images), ps[..i]) && host.files == old(host.files)
      invariant engine.locks <= old(engine.locks)
    {
      ghost var before := db.images;
      ghost var spec := UndoRedo.Replayed(old(db.images), ps[..i]);
      UndoRedo.ReplayedSnoc(old(db.images), ps, i);
      var id, p := plan[i].original.id, TitlePatch(plan[i].title);
      assert ps[i] == (id, p);
      RenameOne(engine, db, host, env, id, p, plan[i].original);
      if id in before {
        UndoRedo.SameEditableUpdate(before, spec, id, p);
        UndoRedo.RelocatedSameEditable(before[id := Updated(before[id], p)], db.images, id);
        UndoRedo.SameEditableTrans(db.images, before[id := Updated(before[id], p)], UndoRedo.Replayed(old(db.images), ps[..i + 1]));
      }
      i := i + 1;
    }
    assert ps[..|plan|] == ps;
  }

  /** `db.images.update(id, changes)` and, in the desktop app, `performDiskSync(id, original)`. */
  method RenameOne(engine: SyncEngine.Engine, db: Db, host: Host.MainProcess, env: UndoRedo.SyncEnv,
                   id: string, p: Patch, original: ImageRecord)
    modifies engine`locks, engine`log, db`images, host`exif, host`files, host`dirs, host`allowedPaths, host`ignoredPaths, host`timers
    ensures id !in old(db.images) ==> db.images == old(db.images)
    ensures id in old(db.images) ==> DiskSync.Relocated(old(db.images)[id := Updated(old(db.images)[id], p)], db.images, id)
    ensures !env.isElectron ==>
      db.images == (if id in old(db.images) then old(db.images)[id := Updated(old(db.images)[id], p)] else old(db.images)) &&
      host.files == old(host.files)
    ensures engine.locks <= old(engine.locks)
  {
    var _ := db.Update(id, p);
    if env.isElectron {
      var res, notices;
      ghost var run, mid;
      res, notices, run, mid := DiskSync.PerformDiskSync(engine, db, host, env.isElectron, env.hasApi, env.settings,
                                                         env.sources, id, Some(original), id in env.held,
                                                         UndoRedo.Fetched(env, id), env.nowIso, env.now);
    } else if id in db.images {
      DiskSync.RelocatedSame(db.images, id);
    }
  }

  function RenamePlan(images: seq<ImageRecord>, ids: seq<string>, pattern: RenamePattern): seq<Rename>
  {
    Plan(Targets(images, ids), Titles(Targets(images, ids), pattern))
  }

  /**
   * batchRename (context.tsx:684-729). Nothing happens when no selected
   * image's title changes. Otherwise one batch update goes on the history,
   * holding the new titles and, as its undo payload, the old ones; then every
   * title is written and synced, between an info and a success notice.
   */
  method BatchRename(stacks: Stacks, engine: SyncEngine.Engine, db: Db, host: Host.MainProcess, env: UndoRedo.SyncEnv,
                     images: seq<ImageRecord>, ids: seq<string>, pattern: RenamePattern, now: int)
    returns (notices: seq<Notice>)
    modifies stacks, engine`locks, engine`log, db`images
    modifies host`exif, host`files, host`dirs, host`allowedPaths, host`ignoredPaths, host`timers
    ensures RenamePlan(images, ids, pattern) == [] ==>
      notices == [] && db.images == old(db.images) && host.files == old(host.files) &&
      stacks.history == old(stacks.history) && stacks.future == old(stacks.future)
    ensures var plan := RenamePlan(images, ids, pattern);
      plan != [] ==>
        && stacks.history == old(stacks.history) + [BatchUpdate(now, Changes(plan), Undos(plan))]
        && stacks.future == []
        && notices == [Notice(Toaster.Info, "Renaming " + NatToString(|plan|) + " items..."),
                       Notice(Toaster.Success, "Successfully renamed " + NatToString(|plan|) + " items.")]
        && UndoRedo.SameEditable(db.images, UndoRedo.Replayed(old(db.images), UndoRedo.ChangePairs(Changes(plan))))
        && (!env.isElectron ==> db.images == UndoRedo.Replayed(old(db.images), UndoRedo.ChangePairs(Changes(plan))))
    ensures engine.locks <= old(engine.locks)
  {
    var plan := RenamePlan(images, ids, pattern);
    if |plan| == 0 {
      return [];
    }
    stacks.PushHistory(BatchUpdate(now, Changes(plan), Undos(plan)));
    notices := [Notice(Toaster.Info, "Renaming " + NatToString(|plan|) + " items...")];
    RenameAll(engine, db, host, env, plan);
    notices := notices + [Notice(Toaster.Success, "Successfully renamed " + NatToString(|plan|) + " items.")];
  }

  // ---------------------------------------------------------------- undo payloads

  /** The properties updateImage never writes or records: `const { src, blob, ...safe } = updates`. */
  function Safe(updates: Patch): (p: Patch)
    ensures Src !in p && BlobData !in p
    ensures forall f :: f in p <==> f in updates && f != Src && f != BlobData
    ensures forall f :: f in p ==> p[f] == updates[f]
  {
    Without(updates, {Src, BlobData})
  }

  /** `undoData[key] = originalImage[key]` for every updated key (context.tsx:646-649). */
  function UndoPayload(original: ImageRecord, updates: Patch): (u: Patch)
    ensures u.Keys == updates.Keys
    ensures forall f :: f in u ==> u[f] == Get(original, f)
  {
    map f | f in updates :: Get(original, f)
  }

  lemma SameFields1(a: ImageRecord, b: ImageRecord)
    requires Get(a, Id) == Get(b, Id) && Get(a, SourceId) == Get(b, SourceId) && Get(a, Title) == Get(b, Title)
    requires Get(a, Src) == Get(b, Src) && Get(a, Prompt) == Get(b, Prompt) && Get(a, NegativePrompt) == Get(b, NegativePrompt)
    ensures a.id == b.id && a.sourceId == b.sourceId && a.title == b.title
    ensures a.src == b.src && a.prompt == b.prompt && a.negativePrompt == b.negativePrompt
  {
  }

  lemma SameFields2(a: ImageRecord, b: ImageRecord)
    requires Get(a, ModelName) == Get(b, ModelName) && Get(a, Sampler) == Get(b, Sampler) && Get(a, CfgScale) == Get(b, CfgScale)
    requires Get(a, Steps) == Get(b, Steps) && Get(a, Seed) == Get(b, Seed) && Get(a, Width) == Get(b, Width)
    requires Get(a, Height) == Get(b, Height)
    ensures a.model == b.model && a.sampler == b.sampler && a.cfgScale == b.cfgScale
    ensures a.steps == b.steps && a.seed == b.seed && a.width == b.width && a.height == b.height
  {
  }

  lemma SameFields3(a: ImageRecord, b: ImageRecord)
    requires Get(a, Date) == Get(b, Date) && Get(a, Tags) == Get(b, Tags) && Get(a, Rating) == Get(b, Rating)
    requires Get(a, DominantColors) == Get(b, DominantColors) && Get(a, Hash) == Get(b, Hash)
    requires Get(a, BlobData) == Get(b, BlobData) && Get(a, OriginalSrc) == Get(b, OriginalSrc)
    ensures a.date == b.date && a.tags == b.tags && a.rating == b.rating && a.dominantColors == b.dominantColors
    ensures a.hash == b.hash && a.blob == b.blob && a.originalSrc == b.originalSrc
  {
  }

  /** Two records that read the same at every property are the same record. */
  lemma GetInjective(a: ImageRecord, b: ImageRecord)
    requires forall f :: Get(a, f) == Get(b, f)
    requires a.isDuplicate == b.isDuplicate
    ensures a == b
  {
    SameFields1(a, b);
    SameFields2(a, b);
    SameFields3(a, b);
  }

  /** Writing the undo payload back after the update gives the original record. */
  lemma UndoPayloadRestores(original: ImageRecord, updates: Patch)
    ensures Updated(Updated(original, updates), UndoPayload(original, updates)) == original
  {
    var mid := Updated(original, updates);
    var u := UndoPayload(original, updates);
    var back := Updated(mid, u);
    forall f ensures Get(back, f) == Get(original, f) {
      if f != Id {
        UpdatedGet(mid, u, f);
        UpdatedGet(original, updates, f);
      }
    }
    GetInjective(back, original);
  }

  // ---------------------------------------------------------------- the library state

  /** A rating toggled by toggleFavorite: 5 becomes 0, anything else 5. */
  function FavoriteRating(rating: Option<int>): (r: int)
    ensures r == 5 <==> rating != Some(5)
    ensures r == 0 <==> rating == Some(5)
  {
    if rating == Some(5) then 0 else 5
  }

  /** Whether the enrichment write leaves property `f` out for this record (context.tsx:296-310). */
  predicate Guarded(current: ImageRecord, updates: Patch, f: Field)
  {
    match f
    case Prompt => current.prompt != "" && Trim(current.prompt) != "" && TruthyAt(updates, Prompt)
    case NegativePrompt =>
      current.negativePrompt.Some? && current.negativePrompt.value != "" && Trim(current.negativePrompt.value) != "" &&
      TruthyAt(updates, NegativePrompt)
    case Tags => |current.tags| > 0 && TruthyAt(updates, Tags)
    case Rating => current.rating.Some? && current.rating.value > 0 && TruthyAt(updates, Rating)
    case _ => false
  }

  /**
   * The enrichment rule of the background metadata task (context.tsx:292-316):
   * a prompt, negative prompt, tag list or rating the user already set is taken
   * out of the updates when the updates would set one.
   */
  function Protected(current: ImageRecord, updates: Patch): (p: Patch)
    ensures forall f :: f in p <==> f in updates && !Guarded(current, updates, f)
    ensures forall f :: f in p ==> p[f] == updates[f]
  {
    map f | f in updates && !Guarded(current, updates, f) :: updates[f]
  }

  /**
   * Metadata from enrichment never replaces a prompt, negative prompt, tag
   * list or rating the user already set, unless it clears it with a falsy
   * value; every other property is written as given.
   */
  lemma ProtectedKeepsUserFields(current: ImageRecord, updates: Patch)
    ensures var after := Updated(current, Protected(current, updates));
      (current.prompt != "" && Trim(current.prompt) != "" && (Prompt in updates ==> TruthyValue(updates[Prompt])) ==>
        after.prompt == current.prompt) &&
      ((current.negativePrompt.Some? && current.negativePrompt.value != "" && Trim(current.negativePrompt.value) != "" &&
        (NegativePrompt in updates ==> TruthyValue(updates[NegativePrompt]))) ==> after.negativePrompt == current.negativePrompt) &&
      (|current.tags| > 0 && (Tags in updates ==> TruthyValue(updates[Tags])) ==> after.tags == current.tags) &&
      (current.rating.Some? && current.rating.value > 0 && (Rating in updates ==> TruthyValue(updates[Rating])) ==>
        after.rating == current.rating) &&
      (forall f :: f != Id && f != Prompt && f != NegativePrompt && f != Tags && f != Rating ==>
        Get(after, f) == Get(Updated(current, updates), f))
  {
    var p := Protected(current, updates);
    if current.prompt != "" && Trim(current.prompt) != "" && (Prompt in updates ==> TruthyValue(updates[Prompt])) {
      KeepsPrompt(current, updates);
    }
    if current.negativePrompt.Some? && current.negativePrompt.value != "" && Trim(current.negativePrompt.value) != "" &&
       (NegativePrompt in updates ==> TruthyValue(updates[NegativePrompt])) {
      KeepsNegativePrompt(current, updates);
    }
    if |current.tags| > 0 && (Tags in updates ==> TruthyValue(updates[Tags])) {
      KeepsTags(current, updates);
    }
    if current.rating.Some? && current.rating.value > 0 && (Rating in updates ==> TruthyValue(updates[Rating])) {
      KeepsRating(current, updates);
    }
    forall f | f != Id && f != Prompt && f != NegativePrompt && f != Tags && f != Rating
      ensures Get(Updated(current, p), f) == Get(Updated(current, updates), f)
    {
      UpdatedGet(current, p, f);
      UpdatedGet(current, updates, f);
    }
  }

  lemma KeepsPrompt(current: ImageRecord, updates: Patch)
    requires current.prompt != "" && Trim(current.prompt) != "" && (Prompt in updates ==> TruthyValue(updates[Prompt]))
    ensures Updated(current, Protected(current, updates)).prompt == current.prompt
  {
    assert Prompt in updates ==> Guarded(current, updates, Prompt);
  }

  lemma KeepsNegativePrompt(current: ImageRecord, updates: Patch)
    requires current.negativePrompt.Some? && current.negativePrompt.value != "" && Trim(current.negativePrompt.value) != ""
    requires NegativePrompt in updates ==> TruthyValue(updates[NegativePrompt])
    ensures Updated(current, Protected(current, updates)).negativePrompt == current.negativePrompt
  {
    assert NegativePrompt in updates ==> Guarded(current, updates, NegativePrompt);
  }

  lemma KeepsTags(current: ImageRecord, updates: Patch)
    requires |current.tags| > 0 && (Tags in updates ==> TruthyValue(updates[Tags]))
    ensures Updated(current, Protected(current, updates)).tags == current.tags
  {
    assert Tags in updates ==> Guarded(current, updates, Tags);
  }

  lemma KeepsRating(current: ImageRecord, updates: Patch)
    requires current.rating.Some? && current.rating.value > 0 && (Rating in updates ==> TruthyValue(updates[Rating]))
    ensures Updated(current, Protected(current, updates)).rating == current.rating
  {
    assert Rating in updates ==> Guarded(current, updates, Rating);
  }


  class LibraryState {
    /** `updateLock`: the ids an updateImage call is working on. */
    var updateLock: set<string>
    /** `lastRefreshTime` */
    var lastRefreshTime: int

    constructor ()
      ensures updateLock == {} && lastRefreshTime == 0
    {
      updateLock := {};
      lastRefreshTime := 0;
    }

    /**
     * refreshImages (context.tsx:120-201). Within 2000 ms of the last run it
     * does nothing; otherwise the image list is reloaded from the store and
     * the source list gets fresh counts, with a Local Vault entry added when
     * it is missing, or, with no stored sources, becomes that single entry,
     * which is also stored. The folders of local sources are allowed in the
     * main process.
     */
    method RefreshImages(db: Db, ui: Ui, host: Host.MainProcess, isElectron: bool, vaultPath: string, now: int)
      returns (ran: bool, ghost keys: seq<string>)
      modifies this`lastRefreshTime, ui`images, ui`sources, db`sources, host`allowedPaths
      ensures ran <==> now - old(lastRefreshTime) >= REFRESH_THROTTLE_MS
      ensures !ran ==>
        lastRefreshTime == old(lastRefreshTime) && ui.images == old(ui.images) && ui.sources == old(ui.sources) &&
        db.sources == old(db.sources) && host.allowedPaths == old(host.allowedPaths)
      ensures ran ==> lastRefreshTime == now && Lists(ui.images, keys, db.images)
      ensures ran && old(db.sources) != [] ==>
        ui.sources == CountedSources(old(db.sources), db.images, vaultPath) && db.sources == old(db.sources) &&
        host.allowedPaths == old(host.allowedPaths) + (if isElectron then set p | p in FolderPaths(ui.sources) && p != "" else {})
      ensures ran && old(db.sources) == [] ==>
        ui.sources == [InternalSource(vaultPath, db.images)] && db.sources == [InternalSource(vaultPath, db.images)] &&
        host.allowedPaths == old(host.allowedPaths) + (if isElectron && vaultPath != "" then {vaultPath} else {})
    {
      keys := [];
      if now - lastRefreshTime < REFRESH_THROTTLE_MS {
        return false, keys;
      }
      ran := true;
      lastRefreshTime := now;
      var shown;
      shown, keys := Listing(db.images);
      ui.images := shown;
      if |db.sources| > 0 {
        var updated := CountedSources(db.sources, db.images, vaultPath);
        if isElectron {
          host.AddToAllowedPaths(FolderPaths(updated));
        }
        ui.sources := updated;
      } else {
        var internal := InternalSource(vaultPath, db.images);
        ui.sources := [internal];
        db.SourcesPut(internal);
        if isElectron && vaultPath != "" {
          host.AddToAllowedPaths([vaultPath]);
        }
      }
    }

    /**
     * updateImage (context.tsx:628-682). An id another call is updating is
     * dropped. A missing record changes nothing. Otherwise, unless asked to
     * skip history, an update action goes on the history with the original
     * values of the updated keys as its undo payload; the update, without src
     * and blob, is written; and the disk sync runs against the original
     * record. The lock is released on every path.
     */
    method UpdateImage(stacks: Stacks, engine: SyncEngine.Engine, db: Db, host: Host.MainProcess, env: UndoRedo.SyncEnv,
                       id: string, updates: Patch, skipHistory: bool, now: int)
      returns (ran: bool)
      modifies this`updateLock, stacks, engine`locks, engine`log, db`images
      modifies host`exif, host`files, host`dirs, host`allowedPaths, host`ignoredPaths, host`timers
      ensures updateLock == old(updateLock)
      ensures ran <==> id !in old(updateLock) && id in old(db.images)
      ensures !ran ==>
        db.images == old(db.images) && host.files == old(host.files) &&
        stacks.history == old(stacks.history) && stacks.future == old(stacks.future)
      ensures ran && skipHistory ==> stacks.history == old(stacks.history) && stacks.future == old(stacks.future)
      ensures ran && !skipHistory ==>
        stacks.history == old(stacks.history) +
          [UpdateAction(now, id, Safe(updates), UndoPayload(old(db.images)[id], Safe(updates)))] &&
        stacks.future == []
      ensures ran ==> DiskSync.Relocated(old(db.images)[id := Updated(old(db.images)[id], Safe(updates))], db.images, id)
      ensures ran && !env.isElectron ==>
        db.images == old(db.images)[id := Updated(old(db.images)[id], Safe(updates))] && host.files == old(host.files)
    {
      if id in updateLock {
        return false;
      }
      updateLock := updateLock + {id};
      var originalImage := db.Get(id);
      if originalImage.None? {
        updateLock := updateLock - {id};
        return false;
      }
      ran := true;
      var original := originalImage.value;
      var safe := Safe(updates);
      if !skipHistory {
        stacks.PushHistory(UpdateAction(now, id, safe, UndoPayload(original, safe)));
      }
      var _ := db.Update(id, safe);
      var res, notices;
      ghost var run, mid;
      res, notices, run, mid := DiskSync.PerformDiskSync(engine, db, host, env.isElectron, env.hasApi, env.settings,
                                                         env.sources, id, Some(original), id in env.held,
                                                         UndoRedo.Fetched(env, id), env.nowIso, now);
      updateLock := updateLock - {id};
    }

    /**
     * toggleFavorite (context.tsx:1184-1192): the image as listed gets rating
     * 0 if it had 5, otherwise 5, through updateImage, followed by a notice.
     */
    method ToggleFavorite(stacks: Stacks, engine: SyncEngine.Engine, db: Db, host: Host.MainProcess, env: UndoRedo.SyncEnv,
                          images: seq<ImageRecord>, id: string, now: int)
      returns (notice: Option<Notice>)
      modifies this`updateLock, stacks, engine`locks, engine`log, db`images
      modifies host`exif, host`files, host`dirs, host`allowedPaths, host`ignoredPaths, host`timers
      ensures updateLock == old(updateLock)
      ensures Selection.Lookup(images, Some(id)).None? ==>
        notice.None? && db.images == old(db.images) && stacks.history == old(stacks.history)
      ensures Selection.Lookup(images, Some(id)).Some? && id !in old(updateLock) && id in old(db.images) ==>
        var rating := FavoriteRating(Selection.Lookup(images, Some(id)).value.rating);
        DiskSync.Relocated(old(db.images)[id := Updated(old(db.images)[id], map[Rating := Num(rating)])], db.images, id) &&
        db.images[id].rating == Some(rating)
      ensures notice.Some? ==>
        && notice.value.kind == Toaster.Info
        && notice.value.message == (if FavoriteRating(Selection.Lookup(images, Some(id)).value.rating) == 5
                                    then "Image favorited." else "Image unfavorited.")
    {
      var img := Selection.Lookup(images, Some(id));
      if img.None? {
        return None;
      }
      var newRating := FavoriteRating(img.value.rating);
      var p: Patch := map[Rating := Num(newRating)];
      assert Safe(p) == p;
      var _ := UpdateImage(stacks, engine, db, host, env, id, p, false, now);
      if id in old(db.images) && id !in old(updateLock) {
        assert Updated(old(db.images)[id], p).rating == Some(newRating);
      }
      notice := Some(Notice(Toaster.Info, if newRating == 5 then "Image favorited." else "Image unfavorited."));
    }

    /**
     * The write of one enrichment result (context.tsx:293-316): the protected
     * updates are written to the stored record when anything is left.
     */
    method WriteEnrichment(db: Db, id: string, updates: Patch) returns (written: bool)
      modifies db`images
      ensures written <==> id in old(db.images) && Protected(old(db.images)[id], updates) != map[]
      ensures db.images == if written then old(db.images)[id := Updated(old(db.images)[id], Protected(old(db.images)[id], updates))]
                           else old(db.images)
    {
      var dbRecord := db.Get(id);
      if dbRecord.None? {
        return false;
      }
      var p := Protected(dbRecord.value, updates);
      if |p| == 0 {
        return false;
      }
      var _ := db.Update(id, p);
      written := true;
    }
  }

  /**
   * Undoing the update that updateImage pushed gives the record back, up to
   * where its file is, whatever the disk sync did in between.
   */
  lemma UndoUndoesUpdate(before: map<string, ImageRecord>, mid: map<string, ImageRecord>, after: map<string, ImageRecord>,
                         id: string, updates: Patch, now: int, env: UndoRedo.SyncEnv)
    requires id in before
    requires DiskSync.Relocated(before[id := Updated(before[id], Safe(updates))], mid, id)
    requires UndoRedo.UndoneInStore(UpdateAction(now, id, Safe(updates), UndoPayload(before[id], Safe(updates))), env, mid, after)
    ensures UndoRedo.SameEditable(after, before)
  {
    var undo := UndoPayload(before[id], Safe(updates));
    UndoRedo.ReplayedOne(mid, id, undo);
    UndoWritesBack(before, mid, id, Safe(updates));
    UndoRedo.SameEditableTrans(after, mid[id := Updated(mid[id], undo)], before);
  }

  lemma UndoWritesBack(before: map<string, ImageRecord>, mid: map<string, ImageRecord>, id: string, safe: Patch)
    requires id in before
    requires DiskSync.Relocated(before[id := Updated(before[id], safe)], mid, id)
    ensures UndoRedo.SameEditable(mid[id := Updated(mid[id], UndoPayload(before[id], safe))], before)
  {
    var undo := UndoPayload(before[id], safe);
    UndoRedo.EditableUpdated(mid[id], Updated(before[id], safe), undo);
    UndoPayloadRestores(before[id], safe);
  }

}
