/**
 * useSettings (src/context/hooks/useSettings.ts): the next AI settings and
 * general settings computed from the previous ones and a partial update. The
 * `db.settings.put` that persists the result is not part of this model.
 */
module Settings {
  import opened Wrappers
  import opened Strings

  datatype Provider = Google | OpenAICompatible | Fal | Ollama
  datatype CaptionStyle = StableDiffusion | NaturalLanguage
  datatype Prompts = Prompts(stableDiffusion: string, naturalLanguage: string)

  /**
   * AISettings of src/types.ts. An absent per-provider record reads like an
   * empty one everywhere the program uses it, so it is an empty map here.
   */
  datatype AISettings = AISettings(
    provider: Provider,
    baseUrl: string,
    apiKey: string,
    captionModel: string,
    activeCaptionStyle: CaptionStyle,
    providerModels: map<Provider, string>,
    providerUrls: map<Provider, string>,
    providerKeys: map<Provider, string>,
    prompts: Prompts)

  /** `Partial<AISettings>`: `None` is a property the update does not name. */
  datatype AIChanges = AIChanges(
    provider: Option<Provider>,
    baseUrl: Option<string>,
    apiKey: Option<string>,
    captionModel: Option<string>,
    activeCaptionStyle: Option<CaptionStyle>,
    providerModels: Option<map<Provider, string>>,
    providerUrls: Option<map<Provider, string>>,
    providerKeys: Option<map<Provider, string>>,
    prompts: Option<Prompts>)

  function DefaultModel(p: Provider): string
  {
    match p
    case Google => "gemini-2.0-flash"
    case Fal => "fal-ai/llava-next"
    case Ollama => "llava"
    case OpenAICompatible => "gpt-4o"
  }

  function DefaultUrl(p: Provider): string
  {
    match p
    case Google => "https://generativelanguage.googleapis.com"
    case Fal => "https://fal.run"
    case Ollama => "http://localhost:11434/v1"
    case OpenAICompatible => "https://openrouter.ai/api/v1"
  }

  /** `{ ...prev, ...settings }` */
  function MergeAI(prev: AISettings, c: AIChanges): AISettings
  {
    AISettings(
      c.provider.GetOr(prev.provider),
      c.baseUrl.GetOr(prev.baseUrl),
      c.apiKey.GetOr(prev.apiKey),
      c.captionModel.GetOr(prev.captionModel),
      c.activeCaptionStyle.GetOr(prev.activeCaptionStyle),
      c.providerModels.GetOr(prev.providerModels),
      c.providerUrls.GetOr(prev.providerUrls),
      c.providerKeys.GetOr(prev.providerKeys),
      c.prompts.GetOr(prev.prompts))
  }

  /** A saved value is used only when it is truthy (present and non-empty). */
  function SavedOr(m: map<Provider, string>, p: Provider, fallback: string): string
  {
    if p in m && m[p] != "" then m[p] else fallback
  }

  /** A saved key is used whenever it is defined, even when empty. */
  function SavedKey(m: map<Provider, string>, p: Provider): string
  {
    if p in m then m[p] else if p == Ollama then "ollama" else ""
  }

  /** The update names a provider other than the current one. */
  predicate Switches(prev: AISettings, c: AIChanges)
  {
    c.provider.Some? && c.provider.value != prev.provider
  }

  /** updateAISettings (useSettings.ts:20-84) */
  function UpdateAISettings(prev: AISettings, c: AIChanges): (next: AISettings)
    ensures next.provider == c.provider.GetOr(prev.provider)
    ensures next.providerModels == prev.providerModels[next.provider := next.captionModel]
    ensures next.providerUrls == prev.providerUrls[next.provider := next.baseUrl]
    ensures next.providerKeys == prev.providerKeys[next.provider := next.apiKey]
    ensures next.activeCaptionStyle == c.activeCaptionStyle.GetOr(prev.activeCaptionStyle)
    ensures next.prompts == c.prompts.GetOr(prev.prompts)
  {
    var merged := MergeAI(prev, c);
    var switched :=
      if Switches(prev, c) then
        var p := c.provider.value;
        merged.(captionModel := SavedOr(prev.providerModels, p, DefaultModel(p)),
                baseUrl := SavedOr(prev.providerUrls, p, DefaultUrl(p)),
                apiKey := SavedKey(prev.providerKeys, p))
      else merged;
    var cur := switched.provider;
    switched.(providerModels := prev.providerModels[cur := switched.captionModel],
              providerUrls := prev.providerUrls[cur := switched.baseUrl],
              providerKeys := prev.providerKeys[cur := switched.apiKey])
  }

  /** After any update the per-provider records agree with the current caption model, URL and key. */
  lemma UpdateSyncsCurrent(prev: AISettings, c: AIChanges)
    ensures var next := UpdateAISettings(prev, c);
      next.providerModels[next.provider] == next.captionModel &&
      next.providerUrls[next.provider] == next.baseUrl &&
      next.providerKeys[next.provider] == next.apiKey
  {
  }

  /** Without a provider switch the named properties win over the previous ones. */
  lemma UpdateWithoutSwitch(prev: AISettings, c: AIChanges)
    requires !Switches(prev, c)
    ensures var next := UpdateAISettings(prev, c);
      next.captionModel == c.captionModel.GetOr(prev.captionModel) &&
      next.baseUrl == c.baseUrl.GetOr(prev.baseUrl) &&
      next.apiKey == c.apiKey.GetOr(prev.apiKey)
  {
  }

  /**
   * On a provider switch the caption model and URL come from what was saved
   * for the new provider, else its defaults, and the key is the saved one,
   * else 'ollama' for Ollama, else empty; the values in the update are ignored.
   */
  lemma UpdateOnSwitch(prev: AISettings, c: AIChanges)
    requires Switches(prev, c)
    ensures var p := c.provider.value;
      var next := UpdateAISettings(prev, c);
      (next.captionModel == if p in prev.providerModels && prev.providerModels[p] != "" then prev.providerModels[p] else DefaultModel(p)) &&
      (next.baseUrl == if p in prev.providerUrls && prev.providerUrls[p] != "" then prev.providerUrls[p] else DefaultUrl(p)) &&
      (next.apiKey == if p in prev.providerKeys then prev.providerKeys[p] else if p == Ollama then "ollama" else "")
  {
  }

  /** An update that changes nothing but the provider. */
  function SwitchTo(p: Provider): AIChanges
  {
    AIChanges(Some(p), None, None, None, None, None, None, None, None)
  }

  /**
   * Switching to another provider and back restores the caption model, URL
   * and key the settings had, once these were recorded for the old provider
   * (as every earlier update leaves them) and the model and URL are non-empty.
   */
  lemma SwitchAndBack(prev: AISettings, q: Provider)
    requires q != prev.provider
    requires prev.captionModel != "" && prev.baseUrl != ""
    requires prev.providerModels == prev.providerModels[prev.provider := prev.captionModel]
    requires prev.providerUrls == prev.providerUrls[prev.provider := prev.baseUrl]
    requires prev.providerKeys == prev.providerKeys[prev.provider := prev.apiKey]
    ensures var back := UpdateAISettings(UpdateAISettings(prev, SwitchTo(q)), SwitchTo(prev.provider));
      back.provider == prev.provider && back.captionModel == prev.captionModel &&
      back.baseUrl == prev.baseUrl && back.apiKey == prev.apiKey
  {
    var mid := UpdateAISettings(prev, SwitchTo(q));
    assert Switches(mid, SwitchTo(prev.provider));
    UpdateOnSwitch(mid, SwitchTo(prev.provider));
    assert mid.providerModels[prev.provider] == prev.captionModel;
    assert mid.providerUrls[prev.provider] == prev.baseUrl;
    assert mid.providerKeys[prev.provider] == prev.apiKey;
  }

  // ---------------------------------------------------------------- general settings

  datatype GradientColors = GradientColors(left: string, center: string, right: string)
  datatype QuickSaveLayout = Horizontal | Vertical

  datatype GeneralSettings = GeneralSettings(
    localVaultPath: string,
    autoCopyPrompt: bool,
    reduceMotion: bool,
    gridItemSize: int,
    themeAccent: string,
    gradientColors: GradientColors,
    workbenchColumns: seq<string>,
    quickSaveLayout: QuickSaveLayout,
    renameLinkedVaultFiles: bool,
    deleteLinkedVaultFiles: bool)

  datatype GeneralChanges = GeneralChanges(
    localVaultPath: Option<string>,
    autoCopyPrompt: Option<bool>,
    reduceMotion: Option<bool>,
    gridItemSize: Option<int>,
    themeAccent: Option<string>,
    gradientColors: Option<GradientColors>,
    workbenchColumns: Option<seq<string>>,
    quickSaveLayout: Option<QuickSaveLayout>,
    renameLinkedVaultFiles: Option<bool>,
    deleteLinkedVaultFiles: Option<bool>)

  const IMPORTED: string := "/imported"

  /**
   * The vault path as updateGeneralSettings stores it: backslashes become '/',
   * one trailing '/' goes, then a trailing '/imported' in any case goes.
   */
  function NormalizeVaultPath(path: string): (r: string)
    ensures |r| <= |path|
    ensures r == ReplaceChar(path, '\\', '/')[..|r|]
    ensures forall i :: 0 <= i < |r| ==> r[i] != '\\'
  {
    DropImported(DropSlash(ReplaceChar(path, '\\', '/')))
  }

  /** `if (p.endsWith('/')) p = p.slice(0, -1)` */
  function DropSlash(p: string): (r: string)
    ensures |r| <= |p| && r == p[..|r|]
  {
    if EndsWith(p, "/") then p[..|p| - 1] else p
  }

  /** `p.toLowerCase().endsWith('/imported') ? p.substring(0, p.length - 9) : p` */
  function DropImported(p: string): (r: string)
    ensures |r| <= |p| && r == p[..|r|]
  {
    if EndsWith(ToLower(p), IMPORTED) then p[..|p| - |IMPORTED|] else p
  }

  /** A folder named 'imported' in any case, with or without a trailing '/', is replaced by its parent. */
  lemma NormalizeDropsImported(base: string, name: string)
    requires forall i :: 0 <= i < |base| ==> base[i] != '\\'
    requires ToLower(name) == IMPORTED
    ensures NormalizeVaultPath(base + name) == base
    ensures NormalizeVaultPath(base + name + "/") == base
  {
    ImportedName(name);
    ImportedSuffix(base, name);
    DropsImportedSlash(base, name);
    DropsImportedPlain(base, name);
  }

  lemma DropsImportedPlain(base: string, name: string)
    requires forall i :: 0 <= i < |base| ==> base[i] != '\\'
    requires forall i :: 0 <= i < |name| ==> name[i] != '\\'
    requires name != [] && name[|name| - 1] != '/'
    requires DropImported(base + name) == base
    ensures NormalizeVaultPath(base + name) == base
  {
    var t := base + name;
    NoBackslashKept(t);
    assert t[|t| - 1..][0] == name[|name| - 1];
    assert DropSlash(t) == t;
  }

  lemma DropsImportedSlash(base: string, name: string)
    requires forall i :: 0 <= i < |base| ==> base[i] != '\\'
    requires forall i :: 0 <= i < |name| ==> name[i] != '\\'
    requires DropImported(base + name) == base
    ensures NormalizeVaultPath(base + name + "/") == base
  {
    var t := base + name;
    var s := t + "/";
    NoBackslashKept(s);
    assert s[|s| - 1..] == "/";
    assert DropSlash(s) == t;
  }

  lemma ImportedSuffix(base: string, name: string)
    requires ToLower(name) == IMPORTED
    ensures DropImported(base + name) == base
  {
    ToLowerAppend(base, name);
    assert ToLower(base + name)[|base + name| - |IMPORTED|..] == ToLower(name);
    assert (base + name)[..|base + name| - |IMPORTED|] == base;
  }

  /** A name that lowercases to '/imported' has no backslash and does not end with '/'. */
  lemma ImportedName(name: string)
    requires ToLower(name) == IMPORTED
    ensures forall i :: 0 <= i < |name| ==> name[i] != '\\'
    ensures |name| == |IMPORTED| && name[|name| - 1] != '/'
  {
    forall i | 0 <= i < |name| ensures name[i] != '\\' {
      assert Lower(name[i]) == IMPORTED[i];
    }
    assert Lower(name[|name| - 1]) == 'd';
  }

  lemma NoBackslashKept(s: string)
    requires forall i :: 0 <= i < |s| ==> s[i] != '\\'
    ensures ReplaceChar(s, '\\', '/') == s
  {
  }

  /** A path without backslashes, a trailing '/' or a trailing '/imported' is stored as given. */
  lemma NormalizeKeeps(path: string)
    requires forall i :: 0 <= i < |path| ==> path[i] != '\\'
    requires !EndsWith(path, "/") && !EndsWith(ToLower(path), IMPORTED)
    ensures NormalizeVaultPath(path) == path
  {
    NoBackslashKept(path);
  }

  function MergeGeneral(prev: GeneralSettings, c: GeneralChanges): GeneralSettings
  {
    GeneralSettings(
      c.localVaultPath.GetOr(prev.localVaultPath),
      c.autoCopyPrompt.GetOr(prev.autoCopyPrompt),
      c.reduceMotion.GetOr(prev.reduceMotion),
      c.gridItemSize.GetOr(prev.gridItemSize),
      c.themeAccent.GetOr(prev.themeAccent),
      c.gradientColors.GetOr(prev.gradientColors),
      c.workbenchColumns.GetOr(prev.workbenchColumns),
      c.quickSaveLayout.GetOr(prev.quickSaveLayout),
      c.renameLinkedVaultFiles.GetOr(prev.renameLinkedVaultFiles),
      c.deleteLinkedVaultFiles.GetOr(prev.deleteLinkedVaultFiles))
  }

  /** updateGeneralSettings (useSettings.ts:86-106) */
  function UpdateGeneralSettings(prev: GeneralSettings, c: GeneralChanges): (next: GeneralSettings)
    ensures next.(localVaultPath := prev.localVaultPath) == MergeGeneral(prev, c).(localVaultPath := prev.localVaultPath)
    ensures c.localVaultPath.Some? && c.localVaultPath.value != "" ==>
      next.localVaultPath == NormalizeVaultPath(c.localVaultPath.value)
    ensures c.localVaultPath.None? ==> next.localVaultPath == prev.localVaultPath
    ensures c.localVaultPath == Some("") ==> next.localVaultPath == ""
  {
    var next := MergeGeneral(prev, c);
    if c.localVaultPath.Some? && c.localVaultPath.value != "" then
      next.(localVaultPath := NormalizeVaultPath(c.localVaultPath.value))
    else next
  }
}
