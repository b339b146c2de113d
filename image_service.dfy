/**
 * src/services/imageService.ts: the defaults of a new record, and the merge
 * of what the disk knows about an image (its `.json`/`.txt` sidecars, the
 * text of a `.txt` item, the EXIF/PNG metadata and the dominant colours) into
 * a partial update. The files are read through the main process; the
 * metadata reader's answer, the JSON stages of the generation-data parser
 * and the colour extractor's answer are inputs.
 */
module ImageService {
  import opened Wrappers
  import opened Strings
  import opened Model
  import Host
  import Utils
  import GenerationData

  // ---------------------------------------------------------------- createBaseImage

  /** The record createBaseImage starts from; `freshId` is generateId's value and `nowIso` the ISO time. */
  function BaseImage(freshId: string, nowIso: string): ImageRecord
  {
    ImageRecord(freshId, INTERNAL, "New Image", Some(""), "", None, DEFAULT_MODEL, DEFAULT_SAMPLER,
      7, 20, 0, 0, 0, nowIso, [], Some(0), None, None, None, None, false)
  }

  /** createBaseImage (imageService.ts:114-133) */
  function CreateBaseImage(overrides: Patch, freshId: string, nowIso: string): (r: ImageRecord)
    ensures !r.isDuplicate
  {
    Apply(BaseImage(freshId, nowIso), overrides)
  }

  /** Every well-typed supplied property overrides the default. */
  lemma CreateBaseGet(overrides: Patch, freshId: string, nowIso: string, f: Field)
    ensures Get(CreateBaseImage(overrides, freshId, nowIso), f) ==
      if f in overrides && Fits(f, overrides[f]) then overrides[f] else Get(BaseImage(freshId, nowIso), f)
  {
    ApplyGet(BaseImage(freshId, nowIso), overrides, f);
  }

  /** Without overrides the record is internal, untitled 'New Image', with cfg 7, 20 steps, seed 0, 0×0, no tags and rating 0. */
  lemma CreateBaseDefaults(freshId: string, nowIso: string)
    ensures var r := CreateBaseImage(map[], freshId, nowIso);
      r.id == freshId && r.sourceId == INTERNAL && r.title == "New Image" && r.src == Some("") &&
      r.prompt == "" && r.model == DEFAULT_MODEL && r.sampler == DEFAULT_SAMPLER &&
      r.cfgScale == 7 && r.steps == 20 && r.seed == 0 && r.width == 0 && r.height == 0 &&
      r.date == nowIso && r.tags == [] && r.rating == Some(0) && r.negativePrompt.None?
  {
    ApplyEmpty(BaseImage(freshId, nowIso));
  }

  // ---------------------------------------------------------------- enrichImageMetadata

  /** The properties a sidecar may never set: `{ src, blob, sourceId, date, ...safeSidecar }`. */
  const CORE: set<Field> := {Src, BlobData, SourceId, Date}

  predicate IsCore(f: Field) { f == Src || f == BlobData || f == SourceId || f == Date }

  /** The patch names none of the core properties. */
  predicate NoCore(p: Patch) { forall f :: f in p ==> !IsCore(f) }

  /** An update that names no core property leaves a record's src, blob, source and date as they were. */
  lemma NoCoreKeeps(r: ImageRecord, p: Patch)
    requires NoCore(p)
    ensures var u := Apply(r, p); u.src == r.src && u.blob == r.blob && u.sourceId == r.sourceId && u.date == r.date
  {
    ApplyGet(r, p, Src);
    ApplyGet(r, p, BlobData);
    ApplyGet(r, p, SourceId);
    ApplyGet(r, p, Date);
  }

  /** The properties the metadata step may set. */
  predicate IsMetaField(f: Field)
  {
    f == Width || f == Height || f == ModelName || f == Sampler || f == CfgScale || f == Steps || f == Seed || f == Prompt
  }

  /** The part of read-metadata's `data` the enrichment reads; absent tags are '' and 0 as the handler reports them. */
  datatype Meta = Meta(
    title: string, subject: string, imageDescription: string, parameters: string, comments: string,
    cameraModel: string, imageWidth: int, imageHeight: int)

  /** The text of a file read as UTF-8, for content that is text. */
  function TextOf(c: Option<Host.Content>): Option<string>
  {
    if c.Some? && c.value.Text? then Some(c.value.text) else None
  }

  /** `a || b` */
  function Or(a: Value, b: Value): (r: Value)
    ensures TruthyValue(a) ==> r == a
    ensures !TruthyValue(a) ==> r == b
  {
    if TruthyValue(a) then a else b
  }

  /** `(meta.Parameters || meta.ImageDescription || meta.Comments || meta.Subject || '').trim()` */
  function GenSource(m: Meta): string
  {
    Trim(if m.parameters != "" then m.parameters
         else if m.imageDescription != "" then m.imageDescription
         else if m.comments != "" then m.comments
         else m.subject)
  }

  /**
   * The values the metadata step computes (imageService.ts:70-77): for each
   * property the first truthy one of what the sidecars gave, the metadata, the
   * parsed generation data and the image's own value.
   */
  function Candidates(img: ImageRecord, updates: Patch, meta: Meta, gen: Patch): (c: map<Field, Value>)
    ensures forall f :: f in c <==> IsMetaField(f)
  {
    map[
      Width := Or(Num(meta.imageWidth), Or(At(gen, Width), Num(img.width))),
      Height := Or(Num(meta.imageHeight), Or(At(gen, Height), Num(img.height))),
      ModelName := Or(At(updates, ModelName), Or(Str(meta.cameraModel), Or(At(gen, ModelName), Str(img.model)))),
      Sampler := Or(At(updates, Sampler), Or(At(gen, Sampler), Str(img.sampler))),
      CfgScale := Or(At(updates, CfgScale), Or(At(gen, CfgScale), Num(img.cfgScale))),
      Steps := Or(At(updates, Steps), Or(At(gen, Steps), Num(img.steps))),
      Seed := Or(At(updates, Seed), Or(At(gen, Seed), Num(img.seed))),
      Prompt := Or(At(updates, Prompt), Or(At(gen, Prompt),
        Or(Str(meta.imageDescription), Or(Str(meta.title), Or(Str(img.prompt), Str(""))))))]
  }

  /** The sidecar step's result as a value: the safe JSON properties, with the text fallback as prompt. */
  function SidecarUpdates(json: Option<Host.Content>, txt: Option<Host.Content>): (u: Patch)
    ensures SidecarsGive(u, json, txt)
    ensures NoCore(u)
  {
    var safe := SafeJson(json);
    if TxtFallback(json, txt) then safe[Prompt := Str(TextOf(txt).value)] else safe
  }

  /**
   * The sidecar step for an image (imageService.ts:26-46): the `.json`
   * sidecar's properties except the core ones, then the `.txt` sidecar as the
   * prompt when there is no prompt yet.
   */
  /** The `.json` sidecar's properties other than the core ones; none when there is no JSON sidecar. */
  function SafeJson(json: Option<Host.Content>): Patch
  {
    if json.Some? && json.value.Json? then Without(json.value.obj, CORE) else map[]
  }

  /** The `.txt` sidecar supplies the prompt: the JSON gave no truthy prompt and the text is non-empty. */
  predicate TxtFallback(json: Option<Host.Content>, txt: Option<Host.Content>)
  {
    !TruthyAt(SafeJson(json), Prompt) && TextOf(txt).Some? && TextOf(txt).value != ""
  }

  /**
   * `u` is what the sidecar step makes of the sidecars read: exactly the safe
   * JSON properties, with the text as prompt when the text fallback applies.
   */
  predicate SidecarsGive(u: Patch, json: Option<Host.Content>, txt: Option<Host.Content>)
  {
    var safe := SafeJson(json);
    var fromTxt := TxtFallback(json, txt);
    u.Keys == safe.Keys + (if fromTxt then {Prompt} else {}) &&
    (forall f :: f in safe && (f != Prompt || !fromTxt) ==> u[f] == safe[f]) &&
    (fromTxt ==> u[Prompt] == Str(TextOf(txt).value))
  }

  /**
   * The sidecar step for an image (imageService.ts:26-46): the `.json`
   * sidecar's properties except the core ones, then the `.txt` sidecar as the
   * prompt when there is no prompt yet.
   */
  method ReadSidecars(host: Host.MainProcess, basePath: string) returns (updates: Patch, hasChanges: bool)
    ensures var j := host.ReadFile(basePath + ".json");
      var t := host.ReadFile(basePath + ".txt");
      updates == SidecarUpdates(j, t) && (hasChanges <==> (j.Some? && j.value.Json?) || TxtFallback(j, t))
    ensures NoCore(updates)
    ensures updates != map[] ==> hasChanges
    ensures var j := host.ReadFile(basePath + ".json");
      j.Some? && j.value.Json? && TruthyAt(j.value.obj, Prompt) ==>
        Prompt in updates && updates[Prompt] == j.value.obj[Prompt]
  {
    updates := map[];
    hasChanges := false;
    var sidecarJson := host.ReadFile(basePath + ".json");
    if sidecarJson.Some? && sidecarJson.value.Json? {
      updates := Without(sidecarJson.value.obj, CORE);
      hasChanges := true;
    }
    if !TruthyAt(updates, Prompt) {
      var sidecarTxt := TextOf(host.ReadFile(basePath + ".txt"));
      if sidecarTxt.Some? && sidecarTxt.value != "" {
        updates := updates[Prompt := Str(sidecarTxt.value)];
        hasChanges := true;
      }
    }
  }

  /** A candidate value that differs from the image's current one. */
  predicate Differs(cands: map<Field, Value>, img: ImageRecord, f: Field)
  {
    f in cands && cands[f] != Get(img, f)
  }

  /**
   * The writes of the metadata step (imageService.ts:79-86): each property
   * takes its candidate value only where the candidate differs from the
   * image's value; every other property of `updates` is kept.
   */
  function ApplyMetadata(img: ImageRecord, updates: Patch, cands: map<Field, Value>): (r: Patch)
    ensures forall f :: f !in cands ==> (f in r <==> f in updates) && (f in updates ==> r[f] == updates[f])
    ensures forall f :: f in cands ==> SetIfDiffers(r, updates, f, cands[f], Get(img, f))
    ensures forall f :: f in r ==> f in updates || f in cands
  {
    map f | f in updates.Keys + (set g | g in cands && Differs(cands, img, g)) ::
      if Differs(cands, img, f) then cands[f] else updates[f]
  }

  /** What the enrichment relies on about the metadata writes: only metadata properties are added, and a truthy prompt stays. */
  lemma ApplyMetadataFacts(img: ImageRecord, updates: Patch, cands: map<Field, Value>)
    requires forall f :: f in cands <==> IsMetaField(f)
    requires Prompt in cands && (TruthyAt(updates, Prompt) ==> cands[Prompt] == updates[Prompt])
    ensures var r := ApplyMetadata(img, updates, cands);
      (forall f :: f in r ==> f in updates || IsMetaField(f)) &&
      (NoCore(updates) ==> NoCore(r)) &&
      (forall f :: f in updates && !IsMetaField(f) ==> f in r && r[f] == updates[f]) &&
      (TruthyAt(updates, Prompt) ==> Prompt in r && r[Prompt] == updates[Prompt])
  {
    ApplyMetadataKeys(img, updates, cands);
    var r := ApplyMetadata(img, updates, cands);
    assert SetIfDiffers(r, updates, Prompt, cands[Prompt], Get(img, Prompt));
  }

  lemma ApplyMetadataKeys(img: ImageRecord, updates: Patch, cands: map<Field, Value>)
    requires forall f :: f in cands ==> IsMetaField(f)
    ensures var r := ApplyMetadata(img, updates, cands);
      (forall f :: f in r ==> f in updates || IsMetaField(f)) &&
      (NoCore(updates) ==> NoCore(r)) &&
      (forall f :: f in updates && !IsMetaField(f) ==> f in r && r[f] == updates[f])
  {
    var r := ApplyMetadata(img, updates, cands);
    ApplyMetadataAdds(img, updates, cands, r);
    ApplyMetadataKeeps(img, updates, cands, r);
    if NoCore(updates) {
      forall f | f in r
        ensures !IsCore(f)
      {
        MetaFieldNotCore(f);
      }
    }
  }

  lemma MetaFieldNotCore(f: Field)
    ensures IsMetaField(f) ==> !IsCore(f)
  {
  }

  lemma ApplyMetadataAdds(img: ImageRecord, updates: Patch, cands: map<Field, Value>, r: Patch)
    requires forall f :: f in cands ==> IsMetaField(f)
    requires r == ApplyMetadata(img, updates, cands)
    ensures forall f :: f in r ==> f in updates || IsMetaField(f)
  {
  }

  lemma ApplyMetadataKeeps(img: ImageRecord, updates: Patch, cands: map<Field, Value>, r: Patch)
    requires forall f :: f in cands ==> IsMetaField(f)
    requires r == ApplyMetadata(img, updates, cands)
    ensures forall f :: f in updates && !IsMetaField(f) ==> f in r && r[f] == updates[f]
  {
  }

  /**
   * `if (candidate !== current) updates.f = candidate`: property `f` of `r` is
   * the candidate where it differs from the image's current value, and what
   * `updates` had otherwise.
   */
  predicate SetIfDiffers(r: Patch, updates: Patch, f: Field, candidate: Value, current: Value)
  {
    (f in r <==> f in updates || candidate != current) &&
    (candidate != current ==> r[f] == candidate) &&
    (candidate == current && f in updates ==> r[f] == updates[f])
  }

  /** `pathOnly.split('.').pop()?.toLowerCase() === 'txt'` */
  predicate IsTxtPath(pathOnly: string)
  {
    var parts := Split(pathOnly, '.');
    ToLower(parts[|parts| - 1]) == "txt"
  }

  /** The path without its extension: `pathOnly.substring(0, pathOnly.lastIndexOf('.'))`. */
  function BasePath(pathOnly: string): string
  {
    Before(pathOnly, LastIndexOf(pathOnly, '.'))
  }

  function PathOnly(img: ImageRecord): string
  {
    Utils.NormalizePath(SrcOrEmpty(img), false)
  }

  /** The updates of a `.txt` item: its text as the prompt, model 'Text Metadata', 512×512. */
  predicate TxtItemUpdates(updates: Patch, text: string)
  {
    Prompt in updates && ModelName in updates && Width in updates && Height in updates &&
    updates[Prompt] == Str(text) && updates[ModelName] == Str("Text Metadata") &&
    updates[Width] == Num(512) && updates[Height] == Num(512)
  }

  /** The properties a non-empty `.txt` item contributes (imageService.ts:50-56). */
  function TxtUpdates(text: string): (u: Patch)
    ensures TxtItemUpdates(u, text) && NoCore(u) && u != map[]
    ensures u.Keys == {Prompt, ModelName, Width, Height}
  {
    var u := map[Prompt := Str(text), ModelName := Str("Text Metadata"), Width := Num(512), Height := Num(512)];
    assert u.Keys == {Prompt, ModelName, Width, Height};
    u
  }

  /**
   * What the file reads give for an image (imageService.ts:20-58), with
   * `fs` the files and `roots` the allow-list read-file sees: for a
   * `.txt` item, its non-empty text as TxtUpdates and nothing otherwise; for
   * any other item, what its sidecars give.
   */
  function ReadUpdates(img: ImageRecord, host: Host.MainProcess, fs: map<string, Host.Content>, roots: set<string>): Patch
  {
    var p := PathOnly(img);
    if IsTxtPath(p) then
      var content := TextOf(host.ReadFrom(roots, fs, p));
      if content.Some? && content.value != "" then TxtUpdates(content.value) else map[]
    else
      SidecarUpdates(host.ReadFrom(roots, fs, BasePath(p) + ".json"), host.ReadFrom(roots, fs, BasePath(p) + ".txt"))
  }

  /**
   * The file reads (imageService.ts:20-58): the sidecars of an image, or the
   * text of a `.txt` item.
   */
  method ReadPhase(img: ImageRecord, host: Host.MainProcess, hasApi: bool) returns (updates: Patch, hasChanges: bool)
    ensures updates == if hasApi then ReadUpdates(img, host, host.files, host.allowedPaths) else map[]
    ensures !hasApi ==> !hasChanges
    ensures hasApi && IsTxtPath(PathOnly(img)) ==> (hasChanges <==> updates != map[])
    ensures var j := host.ReadFile(BasePath(PathOnly(img)) + ".json");
      var t := host.ReadFile(BasePath(PathOnly(img)) + ".txt");
      hasApi && !IsTxtPath(PathOnly(img)) ==> (hasChanges <==> (j.Some? && j.value.Json?) || TxtFallback(j, t))
  {
    updates := map[];
    hasChanges := false;
    var pathOnly := PathOnly(img);
    var isTxt := IsTxtPath(pathOnly);
    if !isTxt && hasApi {
      updates, hasChanges := ReadSidecars(host, BasePath(pathOnly));
    } else if isTxt && hasApi {
      var content := TextOf(host.ReadFile(pathOnly));
      if content.Some? && content.value != "" {
        updates := TxtUpdates(content.value);
        hasChanges := true;
      }
    }
  }

  /**
   * What the file reads promise: no core property; a non-empty `.txt` item
   * gives its text updates; for an image, the `.json` sidecar's safe
   * properties are kept, except a prompt the `.txt` sidecar replaces only when
   * the JSON gave no truthy one.
   */
  lemma ReadUpdatesFacts(img: ImageRecord, host: Host.MainProcess, fs: map<string, Host.Content>, roots: set<string>)
    ensures var u := ReadUpdates(img, host, fs, roots);
      NoCore(u) &&
      (var content := TextOf(host.ReadFrom(roots, fs, PathOnly(img)));
       IsTxtPath(PathOnly(img)) && content.Some? && content.value != "" ==> TxtItemUpdates(u, content.value))
    ensures var u := ReadUpdates(img, host, fs, roots);
      var j := host.ReadFrom(roots, fs, BasePath(PathOnly(img)) + ".json");
      !IsTxtPath(PathOnly(img)) ==>
        (forall f :: f in SafeJson(j) && f != Prompt ==> f in u && u[f] == SafeJson(j)[f]) &&
        (j.Some? && j.value.Json? && TruthyAt(j.value.obj, Prompt) ==> Prompt in u && u[Prompt] == j.value.obj[Prompt])
  {
    if !IsTxtPath(PathOnly(img)) {
      var j := host.ReadFrom(roots, fs, BasePath(PathOnly(img)) + ".json");
      if j.Some? && j.value.Json? && TruthyAt(j.value.obj, Prompt) {
        assert Prompt in SafeJson(j) && SafeJson(j)[Prompt] == j.value.obj[Prompt];
      }
    }
  }

  /** What the metadata step makes of the updates: the candidates from the metadata and the parsed generation data, written where they differ. */
  function MetadataUpdates(img: ImageRecord, updates: Patch, meta: Meta, structured: Patch, simplePositive: Option<string>)
    : Patch
  {
    var gen := GenerationData.GenerationData(GenSource(meta), structured, simplePositive);
    ApplyMetadata(img, updates, Candidates(img, updates, meta, gen))
  }

  /** The metadata step adds only metadata properties, keeps the others and keeps a truthy prompt. */
  lemma MetadataUpdatesFacts(img: ImageRecord, updates: Patch, meta: Meta, structured: Patch, simplePositive: Option<string>)
    ensures var r := MetadataUpdates(img, updates, meta, structured, simplePositive);
      (forall f :: f in r ==> f in updates || IsMetaField(f)) &&
      (NoCore(updates) ==> NoCore(r)) &&
      (forall f :: f in updates && !IsMetaField(f) ==> f in r && r[f] == updates[f]) &&
      (TruthyAt(updates, Prompt) ==> Prompt in r && r[Prompt] == updates[Prompt])
  {
    var gen := GenerationData.GenerationData(GenSource(meta), structured, simplePositive);
    var cands := Candidates(img, updates, meta, gen);
    assert TruthyAt(updates, Prompt) ==> cands[Prompt] == updates[Prompt];
    ApplyMetadataFacts(img, updates, cands);
  }

  /** The metadata step (imageService.ts:61-94), for an image that is not a `.txt` item. */
  method MetadataPhase(img: ImageRecord, updates: Patch, hasChanges: bool, meta: Option<Meta>,
                       structured: Patch, simplePositive: Option<string>)
    returns (r: Patch, changed: bool)
    ensures meta.None? ==> r == updates && changed == hasChanges
    ensures meta.Some? ==>
      r == MetadataUpdates(img, updates, meta.value, structured, simplePositive) && (changed <==> hasChanges || r != map[])
    ensures forall f :: f in r ==> f in updates || IsMetaField(f)
    ensures NoCore(updates) ==> NoCore(r)
    ensures forall f :: f in updates && !IsMetaField(f) ==> f in r && r[f] == updates[f]
    ensures TruthyAt(updates, Prompt) ==> Prompt in r && r[Prompt] == updates[Prompt]
    ensures hasChanges ==> changed
    ensures (updates != map[] ==> hasChanges) ==> (r != map[] ==> changed)
  {
    r, changed := updates, hasChanges;
    if meta.Some? {
      var genData := GenerationData.ParseGenerationData(GenSource(meta.value), structured, simplePositive);
      var cands := Candidates(img, updates, meta.value, genData);
      r := ApplyMetadata(img, updates, cands);
      MetadataUpdatesFacts(img, updates, meta.value, structured, simplePositive);
      if |r| > 0 {
        changed := true;
      }
    }
  }

  /**
   * What enrichImageMetadata computes for a file-backed image: the file reads
   * (nothing without the API), the metadata step applied to them for an image
   * that is not a `.txt` item when there is metadata, and the dominant colours
   * when the image has none.
   */
  function EnrichedUpdates(img: ImageRecord, host: Host.MainProcess, fs: map<string, Host.Content>, roots: set<string>, hasApi: bool, meta: Option<Meta>,
                    structured: Patch, simplePositive: Option<string>, colors: Option<seq<string>>): Patch
  {
    var read := if hasApi then ReadUpdates(img, host, fs, roots) else map[];
    WithColors(img, WithMetadata(img, read, hasApi, meta, structured, simplePositive), colors)
  }

  /** The metadata step's part of the enrichment: applied only to an image that is not a `.txt` item, with the API and metadata. */
  function WithMetadata(img: ImageRecord, read: Patch, hasApi: bool, meta: Option<Meta>,
                        structured: Patch, simplePositive: Option<string>): Patch
  {
    if !IsTxtPath(PathOnly(img)) && hasApi && meta.Some?
    then MetadataUpdates(img, read, meta.value, structured, simplePositive) else read
  }

  /** The colour step's part of the enrichment: the colours are set when the image has none. */
  function WithColors(img: ImageRecord, m: Patch, colors: Option<seq<string>>): (r: Patch)
    ensures forall f :: f != DominantColors ==> (f in r <==> f in m) && (f in m ==> r[f] == m[f])
    ensures NoCore(m) ==> NoCore(r)
  {
    if img.dominantColors.None? || img.dominantColors.value == []
    then m[DominantColors := Strs(colors.GetOr(["#000000"]))] else m
  }

  /** The enrichment never sets a core property; without the API it sets only the colours. */
  lemma EnrichedNoCore(img: ImageRecord, host: Host.MainProcess, fs: map<string, Host.Content>, roots: set<string>, hasApi: bool, meta: Option<Meta>,
                       structured: Patch, simplePositive: Option<string>, colors: Option<seq<string>>)
    ensures var u := EnrichedUpdates(img, host, fs, roots, hasApi, meta, structured, simplePositive, colors);
      NoCore(u) && (!hasApi ==> forall f :: f in u ==> f == DominantColors)
  {
    var read := if hasApi then ReadUpdates(img, host, fs, roots) else map[];
    ReadUpdatesFacts(img, host, fs, roots);
    if !IsTxtPath(PathOnly(img)) && hasApi && meta.Some? {
      MetadataUpdatesFacts(img, read, meta.value, structured, simplePositive);
    }
  }

  /** A non-empty `.txt` item's text updates survive the enrichment. */
  lemma EnrichedTxtItem(img: ImageRecord, host: Host.MainProcess, fs: map<string, Host.Content>, roots: set<string>, meta: Option<Meta>,
                        structured: Patch, simplePositive: Option<string>, colors: Option<seq<string>>)
    ensures var u := EnrichedUpdates(img, host, fs, roots, true, meta, structured, simplePositive, colors);
      var content := TextOf(host.ReadFrom(roots, fs, PathOnly(img)));
      IsTxtPath(PathOnly(img)) && content.Some? && content.value != "" ==> TxtItemUpdates(u, content.value)
  {
    ReadUpdatesFacts(img, host, fs, roots);
  }

  /**
   * For an image, the truthy prompt of the `.json` sidecar survives the
   * enrichment, and so do the sidecar's safe properties that the metadata and
   * colour steps do not compute.
   */
  lemma EnrichedKeepsSidecar(img: ImageRecord, host: Host.MainProcess, fs: map<string, Host.Content>, roots: set<string>, meta: Option<Meta>,
                             structured: Patch, simplePositive: Option<string>, colors: Option<seq<string>>)
    ensures var u := EnrichedUpdates(img, host, fs, roots, true, meta, structured, simplePositive, colors);
      var j := host.ReadFrom(roots, fs, BasePath(PathOnly(img)) + ".json");
      !IsTxtPath(PathOnly(img)) ==>
        (j.Some? && j.value.Json? && TruthyAt(j.value.obj, Prompt) ==> Prompt in u && u[Prompt] == j.value.obj[Prompt]) &&
        (forall f :: f in SafeJson(j) && f != Prompt && !IsMetaField(f) && f != DominantColors ==>
           f in u && u[f] == SafeJson(j)[f])
  {
    var read := ReadUpdates(img, host, fs, roots);
    ReadUpdatesFacts(img, host, fs, roots);
    if !IsTxtPath(PathOnly(img)) && meta.Some? {
      MetadataUpdatesFacts(img, read, meta.value, structured, simplePositive);
    }
  }

  /**
   * enrichImageMetadata (imageService.ts:12-112). `hasApi` is whether the
   * Electron bridge is present, `meta` read-metadata's data when it succeeded,
   * `structured`/`simplePositive` the JSON stages of parseGenerationData on the
   * metadata text, and `colors` what extractDominantColors returned (`None`
   * when it threw).
   */
  method EnrichImageMetadata(img: ImageRecord, host: Host.MainProcess, hasApi: bool, meta: Option<Meta>,
                             structured: Patch, simplePositive: Option<string>, colors: Option<seq<string>>)
    returns (updates: Patch, hasChanges: bool)
    ensures updates == if IsFileUrl(img.src) then EnrichedUpdates(img, host, host.files, host.allowedPaths, hasApi, meta, structured, simplePositive, colors) else map[]
    ensures !IsFileUrl(img.src) ==> !hasChanges
    ensures NoCore(updates)
    ensures updates != map[] ==> hasChanges
    ensures IsFileUrl(img.src) && (img.dominantColors.None? || img.dominantColors.value == []) ==> hasChanges
  {
    updates := map[];
    hasChanges := false;
    if !IsFileUrl(img.src) {
      return;
    }
    updates, hasChanges := ReadPhase(img, host, hasApi);
    ghost var read := updates;
    if !IsTxtPath(PathOnly(img)) && hasApi {
      updates, hasChanges := MetadataPhase(img, updates, hasChanges, meta, structured, simplePositive);
    }
    ghost var m := WithMetadata(img, read, hasApi, meta, structured, simplePositive);
    assert updates == m;
    updates, hasChanges := ColorPhase(img, updates, hasChanges, colors);
    assert updates == WithColors(img, m, colors);
    EnrichedNoCore(img, host, host.files, host.allowedPaths, hasApi, meta, structured, simplePositive, colors);
  }

  /** The dominant-colour step (imageService.ts:97-109); `colors` is `None` when the extractor threw. */
  method ColorPhase(img: ImageRecord, updates: Patch, hasChanges: bool, colors: Option<seq<string>>)
    returns (r: Patch, changed: bool)
    requires IsFileUrl(img.src)
    ensures img.dominantColors.None? || img.dominantColors.value == [] ==>
      changed && r == updates[DominantColors := Strs(colors.GetOr(["#000000"]))]
    ensures img.dominantColors.Some? && img.dominantColors.value != [] ==> r == updates && changed == hasChanges
    ensures NoCore(updates) ==> NoCore(r)
    ensures (updates != map[] ==> hasChanges) ==> (r != map[] ==> changed)
    ensures forall f :: f != DominantColors ==> (f in r <==> f in updates) && (f in updates ==> r[f] == updates[f])
    ensures forall t :: TxtItemUpdates(updates, t) ==> TxtItemUpdates(r, t)
    ensures r == WithColors(img, updates, colors)
  {
    r, changed := updates, hasChanges;
    if img.dominantColors.None? || |img.dominantColors.value| == 0 {
      var colorSrc := Utils.ToMediaUrl(img.src.value, false);
      if colorSrc != "" {
        r := r[DominantColors := Strs(colors.GetOr(["#000000"]))];
        changed := true;
      }
    }
  }
}
