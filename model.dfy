/**
 * The records the library stores (src/types.ts, src/constants.ts): an image
 * record with its optional fields, a library source, and partial updates
 * (`Partial<AIImageDB>`) as maps from field to value.
 */
module Model {
  import opened Wrappers
  import opened Strings

  const INTERNAL: string := "internal"
  const DEFAULT_MODEL: string := "Unknown"
  const DEFAULT_SAMPLER: string := "Unknown"
  const FILE_SCHEME: string := "file://"

  /** An in-memory image payload: its bytes and its MIME type (`Blob.type`). */
  datatype Blob = Blob(data: seq<int>, mime: string)

  /**
   * One row of the images table. Optional properties of the TypeScript type are
   * `Option`s; `isDuplicate` is the marker the import code attaches to
   * duplicate candidates.
   */
  datatype ImageRecord = ImageRecord(
    id: string,
    sourceId: string,
    title: string,
    src: Option<string>,
    prompt: string,
    negativePrompt: Option<string>,
    model: string,
    sampler: string,
    cfgScale: int,
    steps: int,
    seed: int,
    width: int,
    height: int,
    date: string,
    tags: seq<string>,
    rating: Option<int>,
    dominantColors: Option<seq<string>>,
    hash: Option<string>,
    blob: Option<Blob>,
    originalSrc: Option<string>,
    isDuplicate: bool)

  datatype SourceKind = InternalVault | LocalFolder

  datatype LibrarySource = LibrarySource(
    id: string, name: string, kind: SourceKind, path: Option<string>, count: int)

  /** The stored properties a partial update can name. */
  datatype Field =
    | Id | SourceId | Title | Src | Prompt | NegativePrompt | ModelName | Sampler
    | CfgScale | Steps | Seed | Width | Height | Date | Tags | Rating
    | DominantColors | Hash | BlobData | OriginalSrc

  /** A JavaScript value as far as the record's properties go; `Undefined` deletes an optional property. */
  datatype Value = Str(s: string) | Num(n: int) | Strs(items: seq<string>) | BlobVal(blob: Blob) | Undefined

  /** `Partial<AIImageDB>`: the properties named and their new values. */
  type Patch = map<Field, Value>

  predicate Optional(f: Field)
  {
    f in {Src, NegativePrompt, Rating, DominantColors, Hash, BlobData, OriginalSrc}
  }

  /** Whether value `v` has the type of field `f` (or deletes an optional one). */
  predicate Fits(f: Field, v: Value)
  {
    match f
    case Id | SourceId | Title | Src | Prompt | NegativePrompt | ModelName | Sampler | Date
      | Hash | OriginalSrc => v.Str? || (v.Undefined? && Optional(f))
    case CfgScale | Steps | Seed | Width | Height | Rating => v.Num? || (v.Undefined? && Optional(f))
    case Tags | DominantColors => v.Strs? || (v.Undefined? && Optional(f))
    case BlobData => v.BlobVal? || v.Undefined?
  }

  function OptStr(o: Option<string>): Value { if o.Some? then Str(o.value) else Undefined }
  function OptNum(o: Option<int>): Value { if o.Some? then Num(o.value) else Undefined }

  /** `record[f]` */
  function Get(r: ImageRecord, f: Field): (v: Value)
    ensures Fits(f, v)
  {
    match f
    case Id => Str(r.id)
    case SourceId => Str(r.sourceId)
    case Title => Str(r.title)
    case Src => OptStr(r.src)
    case Prompt => Str(r.prompt)
    case NegativePrompt => OptStr(r.negativePrompt)
    case ModelName => Str(r.model)
    case Sampler => Str(r.sampler)
    case CfgScale => Num(r.cfgScale)
    case Steps => Num(r.steps)
    case Seed => Num(r.seed)
    case Width => Num(r.width)
    case Height => Num(r.height)
    case Date => Str(r.date)
    case Tags => Strs(r.tags)
    case Rating => OptNum(r.rating)
    case DominantColors => if r.dominantColors.Some? then Strs(r.dominantColors.value) else Undefined
    case Hash => OptStr(r.hash)
    case BlobData => if r.blob.Some? then BlobVal(r.blob.value) else Undefined
    case OriginalSrc => OptStr(r.originalSrc)
  }

  function StrAt(p: Patch, f: Field, prev: string): string
  {
    if f in p && p[f].Str? then p[f].s else prev
  }

  function NumAt(p: Patch, f: Field, prev: int): int
  {
    if f in p && p[f].Num? then p[f].n else prev
  }

  function OptStrAt(p: Patch, f: Field, prev: Option<string>): Option<string>
  {
    if f in p && p[f].Str? then Some(p[f].s) else if f in p && p[f].Undefined? then None else prev
  }

  function OptNumAt(p: Patch, f: Field, prev: Option<int>): Option<int>
  {
    if f in p && p[f].Num? then Some(p[f].n) else if f in p && p[f].Undefined? then None else prev
  }

  function StrsAt(p: Patch, f: Field, prev: seq<string>): seq<string>
  {
    if f in p && p[f].Strs? then p[f].items else prev
  }

  function OptStrsAt(p: Patch, f: Field, prev: Option<seq<string>>): Option<seq<string>>
  {
    if f in p && p[f].Strs? then Some(p[f].items) else if f in p && p[f].Undefined? then None else prev
  }

  function OptBlobAt(p: Patch, f: Field, prev: Option<Blob>): Option<Blob>
  {
    if f in p && p[f].BlobVal? then Some(p[f].blob) else if f in p && p[f].Undefined? then None else prev
  }

  /**
   * `{...record, ...patch}`: every well-typed property of the patch replaces the
   * record's value; `Undefined` removes an optional property.
   */
  function Apply(r: ImageRecord, p: Patch): ImageRecord
  {
    ImageRecord(
      StrAt(p, Id, r.id),
      StrAt(p, SourceId, r.sourceId),
      StrAt(p, Title, r.title),
      OptStrAt(p, Src, r.src),
      StrAt(p, Prompt, r.prompt),
      OptStrAt(p, NegativePrompt, r.negativePrompt),
      StrAt(p, ModelName, r.model),
      StrAt(p, Sampler, r.sampler),
      NumAt(p, CfgScale, r.cfgScale),
      NumAt(p, Steps, r.steps),
      NumAt(p, Seed, r.seed),
      NumAt(p, Width, r.width),
      NumAt(p, Height, r.height),
      StrAt(p, Date, r.date),
      StrsAt(p, Tags, r.tags),
      OptNumAt(p, Rating, r.rating),
      OptStrsAt(p, DominantColors, r.dominantColors),
      OptStrAt(p, Hash, r.hash),
      OptBlobAt(p, BlobData, r.blob),
      OptStrAt(p, OriginalSrc, r.originalSrc),
      r.isDuplicate)
  }

  /** Reading a property after a merge: the patch's value when it names one of the right type, the record's otherwise. */
  lemma ApplyGet(r: ImageRecord, p: Patch, f: Field)
    ensures Get(Apply(r, p), f) == if f in p && Fits(f, p[f]) then p[f] else Get(r, f)
  {
    var a := Apply(r, p);
    match f
    case Id => assert a.id == StrAt(p, Id, r.id) && !Optional(Id);
    case SourceId => assert a.sourceId == StrAt(p, SourceId, r.sourceId) && !Optional(SourceId);
    case Title => assert a.title == StrAt(p, Title, r.title) && !Optional(Title);
    case Src => assert a.src == OptStrAt(p, Src, r.src) && Optional(Src);
    case Prompt => assert a.prompt == StrAt(p, Prompt, r.prompt) && !Optional(Prompt);
    case NegativePrompt => assert a.negativePrompt == OptStrAt(p, NegativePrompt, r.negativePrompt) && Optional(NegativePrompt);
    case ModelName => assert a.model == StrAt(p, ModelName, r.model) && !Optional(ModelName);
    case Sampler => assert a.sampler == StrAt(p, Sampler, r.sampler) && !Optional(Sampler);
    case CfgScale => assert a.cfgScale == NumAt(p, CfgScale, r.cfgScale) && !Optional(CfgScale);
    case Steps => assert a.steps == NumAt(p, Steps, r.steps) && !Optional(Steps);
    case Seed => assert a.seed == NumAt(p, Seed, r.seed) && !Optional(Seed);
    case Width => assert a.width == NumAt(p, Width, r.width) && !Optional(Width);
    case Height => assert a.height == NumAt(p, Height, r.height) && !Optional(Height);
    case Date => assert a.date == StrAt(p, Date, r.date) && !Optional(Date);
    case Tags => assert a.tags == StrsAt(p, Tags, r.tags) && !Optional(Tags);
    case Rating => assert a.rating == OptNumAt(p, Rating, r.rating) && Optional(Rating);
    case DominantColors => assert a.dominantColors == OptStrsAt(p, DominantColors, r.dominantColors) && Optional(DominantColors);
    case Hash => assert a.hash == OptStrAt(p, Hash, r.hash) && Optional(Hash);
    case BlobData => assert a.blob == OptBlobAt(p, BlobData, r.blob) && Optional(BlobData);
    case OriginalSrc => assert a.originalSrc == OptStrAt(p, OriginalSrc, r.originalSrc) && Optional(OriginalSrc);
  }

  /** Merging an empty patch changes nothing. */
  lemma ApplyEmpty(r: ImageRecord)
    ensures Apply(r, map[]) == r
  {
  }

  const ALL_FIELDS: set<Field> := {
    Id, SourceId, Title, Src, Prompt, NegativePrompt, ModelName, Sampler, CfgScale, Steps,
    Seed, Width, Height, Date, Tags, Rating, DominantColors, Hash, BlobData, OriginalSrc }

  lemma AllFields(f: Field)
    ensures f in ALL_FIELDS
  {
    match f
    case Id => case SourceId => case Title => case Src => case Prompt =>
    case NegativePrompt => case ModelName => case Sampler => case CfgScale =>
    case Steps => case Seed => case Width => case Height => case Date => case Tags =>
    case Rating => case DominantColors => case Hash => case BlobData => case OriginalSrc =>
  }

  /** Merging a patch that only repeats the record's own values changes nothing. */
  lemma ApplySame(r: ImageRecord, p: Patch)
    requires forall f :: f in p ==> p[f] == Get(r, f)
    ensures Apply(r, p) == r
  {
    ApplySame1(r, p);
    ApplySame2(r, p);
    ApplySame3(r, p);
    ApplySame4(r, p);
    ApplySame5(r, p);
  }

  lemma ApplySame1(r: ImageRecord, p: Patch)
    requires forall f :: f in p ==> p[f] == Get(r, f)
    ensures Apply(r, p).id == r.id && Apply(r, p).sourceId == r.sourceId && Apply(r, p).title == r.title && Apply(r, p).prompt == r.prompt
  {
    assert Id in p ==> p[Id] == Get(r, Id);
    SameStr(r, p, Id, r.id);
    assert SourceId in p ==> p[SourceId] == Get(r, SourceId);
    SameStr(r, p, SourceId, r.sourceId);
    assert Title in p ==> p[Title] == Get(r, Title);
    SameStr(r, p, Title, r.title);
    assert Prompt in p ==> p[Prompt] == Get(r, Prompt);
    SameStr(r, p, Prompt, r.prompt);
  }

  lemma ApplySame2(r: ImageRecord, p: Patch)
    requires forall f :: f in p ==> p[f] == Get(r, f)
    ensures Apply(r, p).model == r.model && Apply(r, p).sampler == r.sampler && Apply(r, p).date == r.date && Apply(r, p).cfgScale == r.cfgScale
  {
    assert ModelName in p ==> p[ModelName] == Get(r, ModelName);
    SameStr(r, p, ModelName, r.model);
    assert Sampler in p ==> p[Sampler] == Get(r, Sampler);
    SameStr(r, p, Sampler, r.sampler);
    assert Date in p ==> p[Date] == Get(r, Date);
    SameStr(r, p, Date, r.date);
    assert CfgScale in p ==> p[CfgScale] == Get(r, CfgScale);
    SameNum(r, p, CfgScale, r.cfgScale);
  }

  lemma ApplySame3(r: ImageRecord, p: Patch)
    requires forall f :: f in p ==> p[f] == Get(r, f)
    ensures Apply(r, p).steps == r.steps && Apply(r, p).seed == r.seed && Apply(r, p).width == r.width && Apply(r, p).height == r.height
  {
    assert Steps in p ==> p[Steps] == Get(r, Steps);
    SameNum(r, p, Steps, r.steps);
    assert Seed in p ==> p[Seed] == Get(r, Seed);
    SameNum(r, p, Seed, r.seed);
    assert Width in p ==> p[Width] == Get(r, Width);
    SameNum(r, p, Width, r.width);
    assert Height in p ==> p[Height] == Get(r, Height);
    SameNum(r, p, Height, r.height);
  }

  lemma ApplySame4(r: ImageRecord, p: Patch)
    requires forall f :: f in p ==> p[f] == Get(r, f)
    ensures Apply(r, p).src == r.src && Apply(r, p).negativePrompt == r.negativePrompt && Apply(r, p).hash == r.hash && Apply(r, p).originalSrc == r.originalSrc
  {
    assert Src in p ==> p[Src] == Get(r, Src);
    SameOptStr(r, p, Src, r.src);
    assert NegativePrompt in p ==> p[NegativePrompt] == Get(r, NegativePrompt);
    SameOptStr(r, p, NegativePrompt, r.negativePrompt);
    assert Hash in p ==> p[Hash] == Get(r, Hash);
    SameOptStr(r, p, Hash, r.hash);
    assert OriginalSrc in p ==> p[OriginalSrc] == Get(r, OriginalSrc);
    SameOptStr(r, p, OriginalSrc, r.originalSrc);
  }

  lemma ApplySame5(r: ImageRecord, p: Patch)
    requires forall f :: f in p ==> p[f] == Get(r, f)
    ensures Apply(r, p).tags == r.tags && Apply(r, p).rating == r.rating && Apply(r, p).dominantColors == r.dominantColors && Apply(r, p).blob == r.blob
  {
    assert Tags in p ==> p[Tags] == Get(r, Tags);
    SameStrs(p, Tags, r.tags);
    assert Rating in p ==> p[Rating] == Get(r, Rating);
    SameOptNum(p, Rating, r.rating);
    assert DominantColors in p ==> p[DominantColors] == Get(r, DominantColors);
    SameOptStrs(p, DominantColors, r.dominantColors);
    assert BlobData in p ==> p[BlobData] == Get(r, BlobData);
    SameOptBlob(p, BlobData, r.blob);
  }

  lemma SameStrs(p: Patch, f: Field, prev: seq<string>)
    requires f in p ==> p[f] == Strs(prev)
    ensures StrsAt(p, f, prev) == prev
  {
  }

  lemma SameOptNum(p: Patch, f: Field, prev: Option<int>)
    requires f in p ==> p[f] == OptNum(prev)
    ensures OptNumAt(p, f, prev) == prev
  {
  }

  lemma SameOptStrs(p: Patch, f: Field, prev: Option<seq<string>>)
    requires f in p ==> p[f] == (if prev.Some? then Strs(prev.value) else Undefined)
    ensures OptStrsAt(p, f, prev) == prev
  {
  }

  lemma SameOptBlob(p: Patch, f: Field, prev: Option<Blob>)
    requires f in p ==> p[f] == (if prev.Some? then BlobVal(prev.value) else Undefined)
    ensures OptBlobAt(p, f, prev) == prev
  {
  }

  lemma SameStr(r: ImageRecord, p: Patch, f: Field, prev: string)
    requires f in p ==> p[f] == Str(prev)
    ensures StrAt(p, f, prev) == prev
  {
  }

  lemma SameNum(r: ImageRecord, p: Patch, f: Field, prev: int)
    requires f in p ==> p[f] == Num(prev)
    ensures NumAt(p, f, prev) == prev
  {
  }

  lemma SameOptStr(r: ImageRecord, p: Patch, f: Field, prev: Option<string>)
    requires f in p ==> p[f] == OptStr(prev)
    ensures OptStrAt(p, f, prev) == prev
  {
  }

  /** A record passed where a plain object is expected: every property with its value. */
  function AsPatch(r: ImageRecord): (p: Patch)
    ensures forall f :: f in p && p[f] == Get(r, f)
  {
    var p := map f | f in ALL_FIELDS :: Get(r, f);
    forall f ensures f in p {
      AllFields(f);
    }
    p
  }

  /** `patch` without the properties in `ks` (a rest-destructuring `{a, b, ...rest}`). */
  function Without(p: Patch, ks: set<Field>): (q: Patch)
    ensures q.Keys == p.Keys - ks
    ensures forall f :: f in q ==> q[f] == p[f]
  {
    map f | f in p && f !in ks :: p[f]
  }

  /** JavaScript truthiness of a property value: a non-empty string, a non-zero number, any array or blob. */
  predicate TruthyValue(v: Value)
  {
    match v
    case Str(s) => s != []
    case Num(n) => n != 0
    case Strs(_) => true
    case BlobVal(_) => true
    case Undefined => false
  }

  /** `p.f` is truthy. */
  predicate TruthyAt(p: Patch, f: Field) { f in p && TruthyValue(p[f]) }

  /** `p.f`, `undefined` when absent. */
  function At(p: Patch, f: Field): Value { if f in p then p[f] else Undefined }

  /** `'file://'` scheme test on an optional src. */
  predicate IsFileUrl(src: Option<string>)
  {
    src.Some? && StartsWith(src.value, FILE_SCHEME)
  }

  /** `src || ''` */
  function SrcOrEmpty(r: ImageRecord): string
  {
    if r.src.Some? then r.src.value else ""
  }

  /** JavaScript truthiness of an optional string. */
  predicate Truthy(o: Option<string>) { o.Some? && o.value != "" }

  /** The properties a user edits; disk synchronisation never touches them. */
  function Editable(r: ImageRecord): (ImageRecord)
  {
    r.(sourceId := "", src := None, blob := None, originalSrc := None)
  }
}
