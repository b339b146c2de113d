/**
 * useImageFilter (src/hooks/useImageFilter.ts): the images the archive shows.
 * The list is narrowed to the active source, to the search query and to the
 * active category filter, and in the 'all' view one image is kept per content
 * hash, preferring a Local Vault or on-disk copy.
 */
module ImageFilter {
  import opened Wrappers
  import opened Strings
  import opened Model
  import Utils
  import Selection

  datatype FilterCategory = Tags | Models | Loras | Samplers | StepsCat | Cfg | Ratio | RatingCat | Colors

  /** `rs.filter(p)` */
  function Where(rs: seq<ImageRecord>, p: ImageRecord -> bool): (r: seq<ImageRecord>)
    ensures |r| <= |rs|
    ensures forall x :: x in r <==> x in rs && p(x)
  {
    if rs == [] then []
    else if p(rs[0]) then [rs[0]] + Where(rs[1..], p)
    else Where(rs[1..], p)
  }

  /** A filter every element passes keeps the list as it is, order included. */
  lemma {:induction false} WhereAll(rs: seq<ImageRecord>, p: ImageRecord -> bool)
    requires forall i :: 0 <= i < |rs| ==> p(rs[i])
    ensures Where(rs, p) == rs
  {
    if rs != [] {
      WhereAll(rs[1..], p);
    }
  }

  /** Some tag of the list contains `q` once lower-cased. */
  predicate SomeTagContains(tags: seq<string>, q: string)
  {
    exists i :: 0 <= i < |tags| && Contains(ToLower(tags[i]), q)
  }

  /** The search test (useImageFilter.ts:38-43) for the lower-cased query `q`. */
  predicate MatchesSearch(img: ImageRecord, q: string)
  {
    Contains(ToLower(img.title), q) || Contains(ToLower(img.prompt), q) ||
    Contains(ToLower(img.model), q) || SomeTagContains(img.tags, q)
  }

  function BucketLabel(b: Utils.AspectBucket): string
  {
    match b
    case Unknown => "Unknown"
    case Landscape => "Landscape"
    case Portrait => "Portrait"
    case Square => "Square"
  }

  /** `r === 0 ? 'Unrated' : `${r} Stars`` for `r = img.rating || 0`. */
  function RatingLabel(rating: Option<int>): (text: string)
    ensures text == "Unrated" <==> rating.None? || rating.value == 0
  {
    var r := rating.GetOr(0);
    if r == 0 then "Unrated"
    else
      var text := IntToString(r) + " Stars";
      assert text[|text| - 1] == 's';
      text
  }

  /** The category test (useImageFilter.ts:49-75) for the non-empty filter value `f`. */
  predicate MatchesCategory(img: ImageRecord, category: FilterCategory, f: string)
  {
    match category
    case Tags => f in img.tags
    case Models => img.model == f || (img.model == "" && f == DEFAULT_MODEL)
    // Records carry no LoRA list here, and `img.loras?.some(...)` is false without one.
    case Loras => false
    case Samplers => img.sampler == f || (img.sampler == "" && f == DEFAULT_SAMPLER)
    case StepsCat => IntToString(img.steps) == f || (img.steps == 0 && f == "N/A")
    case Cfg => IntToString(img.cfgScale) == f || (img.cfgScale == 0 && f == "N/A")
    case Ratio => BucketLabel(Utils.GetAspectRatioBucket(img.width, img.height)) == f
    case RatingCat => RatingLabel(img.rating) == f
    case Colors => img.dominantColors.Some? && f in img.dominantColors.value
  }

  /** The filter chain of useImageFilter.ts:28-77, before the hash deduplication. */
  function Filtered(images: seq<ImageRecord>, search: string, activeFilter: Option<string>,
                    category: FilterCategory, activeSourceId: string): (r: seq<ImageRecord>)
    ensures forall x :: x in r <==>
      && x in images
      && (activeSourceId == "all" || x.sourceId == activeSourceId)
      && (Trim(search) == "" || MatchesSearch(x, ToLower(search)))
      && (!Truthy(activeFilter) || MatchesCategory(x, category, activeFilter.value))
  {
    var bySource := Selection.CurrentView(images, activeSourceId);
    var bySearch := if Trim(search) != "" then Where(bySource, x => MatchesSearch(x, ToLower(search))) else bySource;
    if Truthy(activeFilter) then Where(bySearch, x => MatchesCategory(x, category, activeFilter.value)) else bySearch
  }

  /** A blank search and no category filter show the active source's images, in order. */
  lemma BlankFiltersNothing(images: seq<ImageRecord>, search: string, activeFilter: Option<string>,
                            category: FilterCategory, activeSourceId: string)
    requires Trim(search) == "" && !Truthy(activeFilter)
    ensures Filtered(images, search, activeFilter, category, activeSourceId) == Selection.CurrentView(images, activeSourceId)
  {
  }

  // ---------------------------------------------------------------- 'all'-view deduplication

  /** `img.hash || img.id` */
  function Key(img: ImageRecord): string
  {
    if Truthy(img.hash) then img.hash.value else img.id
  }

  /** 2 for a Local Vault image or one with a file:// src, 1 otherwise. */
  function Priority(img: ImageRecord): (p: int)
    ensures p == 1 || p == 2
  {
    if img.sourceId == INTERNAL || (img.src.Some? && StartsWith(img.src.value, FILE_SCHEME)) then 2 else 1
  }

  /** The `seenHashes` map after the images of `rs` were visited in order. */
  function Seen(rs: seq<ImageRecord>): map<string, ImageRecord>
    decreases |rs|
  {
    if rs == [] then map[]
    else
      var img := rs[|rs| - 1];
      var s := Seen(rs[..|rs| - 1]);
      if Key(img) !in s || Priority(img) > Priority(s[Key(img)]) then s[Key(img) := img] else s
  }

  /** The keys of `seenHashes` in insertion order. */
  function Order(rs: seq<ImageRecord>): seq<string>
    decreases |rs|
  {
    if rs == [] then []
    else
      var img := rs[|rs| - 1];
      var o := Order(rs[..|rs| - 1]);
      if Key(img) in Seen(rs[..|rs| - 1]) then o else o + [Key(img)]
  }

  predicate DistinctKeys(o: seq<string>)
  {
    forall i, j :: 0 <= i < j < |o| ==> o[i] != o[j]
  }

  /** The insertion order lists each key once, and exactly the keys of the map. */
  lemma {:induction false} OrderShape(rs: seq<ImageRecord>)
    ensures DistinctKeys(Order(rs))
    ensures forall k :: k in Order(rs) <==> k in Seen(rs)
    decreases |rs|
  {
    if rs != [] {
      OrderShape(rs[..|rs| - 1]);
    }
  }

  /** The keys of a list of images. */
  function KeysOf(rs: seq<ImageRecord>): set<string>
  {
    set i | 0 <= i < |rs| :: Key(rs[i])
  }

  lemma KeysOfSnoc(rs: seq<ImageRecord>)
    requires rs != []
    ensures KeysOf(rs) == KeysOf(rs[..|rs| - 1]) + {Key(rs[|rs| - 1])}
  {
    var init := rs[..|rs| - 1];
    forall k | k in KeysOf(rs) ensures k in KeysOf(init) + {Key(rs[|rs| - 1])} {
      var i :| 0 <= i < |rs| && Key(rs[i]) == k;
      if i < |init| { assert init[i] == rs[i]; }
    }
    forall k | k in KeysOf(init) ensures k in KeysOf(rs) {
      var i :| 0 <= i < |init| && Key(init[i]) == k;
      assert rs[i] == init[i];
    }
  }

  /** The map's keys are exactly the keys of the input images. */
  lemma {:induction false} SeenKeys(rs: seq<ImageRecord>)
    ensures Seen(rs).Keys == KeysOf(rs)
    decreases |rs|
  {
    if rs != [] {
      SeenKeys(rs[..|rs| - 1]);
      KeysOfSnoc(rs);
    }
  }

  /** The image kept under a key is an input image with that key. */
  lemma {:induction false} SeenValues(rs: seq<ImageRecord>)
    ensures forall k :: k in Seen(rs) ==> Seen(rs)[k] in rs && Key(Seen(rs)[k]) == k
    decreases |rs|
  {
    if rs != [] {
      var init := rs[..|rs| - 1];
      SeenValues(init);
      forall k | k in Seen(init) ensures Seen(init)[k] in rs {
        assert Seen(init)[k] in init;
      }
    }
  }

  /**
   * The image kept for a key has the highest priority among the input images
   * with that key, and it is the first of them to reach that priority: an equal
   * one seen later does not replace it.
   */
  lemma {:induction false} SeenBest(rs: seq<ImageRecord>, k: string) returns (i: nat)
    requires k in Seen(rs)
    ensures i < |rs| && rs[i] == Seen(rs)[k]
    ensures forall j :: 0 <= j < |rs| && Key(rs[j]) == k ==> Priority(rs[j]) <= Priority(rs[i])
    ensures forall j :: 0 <= j < i && Key(rs[j]) == k ==> Priority(rs[j]) < Priority(rs[i])
    decreases |rs|
  {
    var init := rs[..|rs| - 1];
    var img := rs[|rs| - 1];
    if Key(img) == k && (k !in Seen(init) || Priority(img) > Priority(Seen(init)[k])) {
      i := |rs| - 1;
      if k in Seen(init) {
        var i0 := SeenBest(init, k);
        forall j | 0 <= j < |init| && Key(rs[j]) == k ensures Priority(rs[j]) < Priority(rs[i]) {
          assert init[j] == rs[j];
        }
      } else {
        SeenKeys(init);
        forall j | 0 <= j < |init| ensures Key(rs[j]) != k {
          assert init[j] == rs[j];
        }
      }
    } else {
      var i0 := SeenBest(init, k);
      i := i0;
      assert rs[i] == init[i0];
      forall j | 0 <= j < |init| && Key(rs[j]) == k ensures Priority(rs[j]) <= Priority(rs[i]) {
        assert init[j] == rs[j];
      }
      forall j | 0 <= j < i && Key(rs[j]) == k ensures Priority(rs[j]) < Priority(rs[i]) {
        assert init[j] == rs[j];
      }
    }
  }

  /**
   * `Array.from(seenHashes.values())`: input images only, one per key, and one
   * for every key of the input.
   */
  function Deduped(rs: seq<ImageRecord>): (r: seq<ImageRecord>)
    ensures forall x :: x in r ==> x in rs
    ensures forall i, j :: 0 <= i < j < |r| ==> Key(r[i]) != Key(r[j])
    ensures KeysOf(r) == KeysOf(rs)
  {
    OrderShape(rs);
    var o := Order(rs);
    var r := seq(|o|, i requires 0 <= i < |o| => Seen(rs)[o[i]]);
    DedupedCovers(rs, r);
    r
  }

  lemma DedupedCovers(rs: seq<ImageRecord>, r: seq<ImageRecord>)
    requires forall k :: k in Order(rs) <==> k in Seen(rs)
    requires |r| == |Order(rs)| && forall i :: 0 <= i < |r| ==> r[i] == Seen(rs)[Order(rs)[i]]
    ensures forall x :: x in r ==> x in rs
    ensures forall i :: 0 <= i < |r| ==> Key(r[i]) == Order(rs)[i]
    ensures KeysOf(r) == KeysOf(rs)
  {
    SeenKeys(rs);
    SeenValues(rs);
    var o := Order(rs);
    forall k | k in KeysOf(rs) ensures k in KeysOf(r) {
      assert k in Seen(rs);
      var m :| 0 <= m < |o| && o[m] == k;
      assert Key(r[m]) == k;
    }
  }

  /** The loop of useImageFilter.ts:80-101 over the filtered list. */
  method Dedup(rs: seq<ImageRecord>) returns (out: seq<ImageRecord>)
    ensures out == Deduped(rs)
  {
    var seenHashes: map<string, ImageRecord> := map[];
    var order: seq<string> := [];
    var i := 0;
    while i < |rs|
      invariant 0 <= i <= |rs|
      invariant seenHashes == Seen(rs[..i]) && order == Order(rs[..i])
    {
      assert rs[..i + 1][..i] == rs[..i];
      var img := rs[i];
      var hash := Key(img);
      if hash !in seenHashes {
        seenHashes := seenHashes[hash := img];
        order := order + [hash];
      } else if Priority(img) > Priority(seenHashes[hash]) {
        seenHashes := seenHashes[hash := img];
      }
      i := i + 1;
    }
    assert rs[..i] == rs;
    OrderShape(rs);
    out := seq(|order|, k requires 0 <= k < |order| => seenHashes[order[k]]);
  }

  /**
   * filteredImages (useImageFilter.ts:27-120): the filter chain, then in the
   * 'all' view one image per `hash || id`.
   */
  method FilterImages(images: seq<ImageRecord>, search: string, activeFilter: Option<string>,
                      category: FilterCategory, activeSourceId: string) returns (result: seq<ImageRecord>)
    ensures activeSourceId != "all" ==> result == Filtered(images, search, activeFilter, category, activeSourceId)
    ensures activeSourceId == "all" ==> result == Deduped(Filtered(images, search, activeFilter, category, activeSourceId))
  {
    result := Filtered(images, search, activeFilter, category, activeSourceId);
    if activeSourceId == "all" {
      result := Dedup(result);
    }
  }
}
