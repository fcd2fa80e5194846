/**
 * The discrete state of the 3D model viewer: which loader a chosen file goes to and how the
 * model text is cached in local storage, the two-point distance measurement, the area point
 * list, and the annotation list. Rendering, ray casting and the floating-point geometry are
 * not modelled: the loaders' outcomes, the hit point, the measured distance and the area are
 * parameters.
 */
module ThreeDViewer {

  import opened Common

  /** The prefix of a cache entry's key; the rest of the key is the file's name as given. */
  const CachePrefix := "threeDViewerModel_"

  /** Model text of this many UTF-16 units or more is not cached (5 MiB). */
  const MaxCacheSize := 5 * 1024 * 1024

  const UnsupportedFormat := "Only .obj, .gltf, .glb, and .fbx files are supported."

  const DefaultModelFailed := "Failed to load default OBJ model."

  datatype Point = Point(x: real, y: real, z: real)

  /** An annotation pinned to a point of the model. */
  datatype Annotation = Annotation(pos: Point, text: string)

  // ---------------------------------------------------------------------------
  // Loading a file

  datatype Format = OBJ | GLTF | GLB | FBX

  /** How the file reader reads a format. */
  datatype ReadAs = Text | ArrayBuffer

  /** What a loader did with its input: loaded it, reported failure through its error callback, or threw. */
  datatype ParseOutcome = Loaded | Failed | Threw

  /** What the file reader delivered: the file's content, or an error. */
  datatype ReadResult = Read(content: string) | ReadError

  /** What `localStorage.setItem` did with a text to cache: stored it, or threw because the storage is full. */
  datatype StoreOutcome = Stored | StoreThrew

  /** The viewer's loading state after a file was chosen; `readAs` is how the file itself was read, if it was. */
  datatype LoadState = LoadState(
    hasModel: bool,
    error: Option<string>,
    loading: bool,
    fileName: Option<string>,
    cache: map<string, string>,
    readAs: Option<ReadAs>)

  function Extension(f: Format): string {
    match f
    case OBJ => ".obj"
    case GLTF => ".gltf"
    case GLB => ".glb"
    case FBX => ".fbx"
  }

  function ReadAsOf(f: Format): ReadAs {
    if f == OBJ || f == GLTF then Text else ArrayBuffer
  }

  /** The format a file name selects: its lowercased name's suffix, tried in the order .obj, .gltf, .glb, .fbx. */
  function FormatOf(fileName: string): Option<Format> {
    var name := ToLower(fileName);
    if EndsWith(name, ".obj") then Some(OBJ)
    else if EndsWith(name, ".gltf") then Some(GLTF)
    else if EndsWith(name, ".glb") then Some(GLB)
    else if EndsWith(name, ".fbx") then Some(FBX)
    else None
  }

  /** No name ends with two of the four extensions. */
  lemma ExtensionsExclusive(name: string, f: Format, g: Format)
    requires EndsWith(name, Extension(f)) && EndsWith(name, Extension(g))
    ensures f == g
  {
    var n := |name|;
    var tf := Extension(f)[|Extension(f)| - 3..];
    var tg := Extension(g)[|Extension(g)| - 3..];
    assert name[n - 3..] == tf;
    assert name[n - 3..] == tg;
    assert name[n - 4] == Extension(f)[|Extension(f)| - 4];
    assert name[n - 4] == Extension(g)[|Extension(g)| - 4];
  }

  /** A file name selects a format exactly when its lowercased name ends with that format's extension. */
  lemma FormatIffExtension(fileName: string, f: Format)
    ensures FormatOf(fileName) == Some(f) <==> EndsWith(ToLower(fileName), Extension(f))
  {
    var name := ToLower(fileName);
    if EndsWith(name, Extension(f)) {
      if EndsWith(name, ".obj") { ExtensionsExclusive(name, f, OBJ); }
      else if EndsWith(name, ".gltf") { ExtensionsExclusive(name, f, GLTF); }
      else if EndsWith(name, ".glb") { ExtensionsExclusive(name, f, GLB); }
    }
  }

  /** The dispatch ignores case: a name and its lowercase select the same format. */
  lemma FormatIgnoresCase(fileName: string)
    ensures FormatOf(fileName) == FormatOf(ToLower(fileName))
  {
    ToLowerIdempotent(fileName);
  }

  /** The key under which a file's model text is cached. */
  function CacheKey(fileName: string): string {
    CachePrefix + fileName
  }

  /** Text the viewer tries to cache: an .obj or .gltf text shorter than the limit. */
  predicate Cacheable(f: Format, read: ReadResult) {
    ReadAsOf(f) == Text && read.Read? && |read.content| < MaxCacheSize
  }

  /**
   * Reading the chosen file itself once the cache was not used: .obj and .gltf are read as
   * text, and text shorter than the limit is cached before it is parsed; .glb and .fbx are read
   * as an array buffer and never cached. A read error or a failed parse reports an error and
   * leaves `loading` set; an unsupported name reports the supported formats and clears it.
   * Caching sits outside the loader's `try`: when it throws (`store`), the handler stops there,
   * with no model, no error and `loading` still set.
   */
  function LoadFromFile(fileName: string, cache: map<string, string>, read: ReadResult, store: StoreOutcome, parse: ParseOutcome): (r: LoadState)
    ensures r.fileName == Some(fileName)
    ensures FormatOf(fileName).None? <==> r.readAs.None?
    ensures FormatOf(fileName).Some? ==> r.readAs == Some(ReadAsOf(FormatOf(fileName).value))
    ensures r.hasModel ==> r.error.None? && !r.loading
  {
    match FormatOf(fileName)
    case None => LoadState(false, Some(UnsupportedFormat), false, Some(fileName), cache, None)
    case Some(f) =>
      if read.ReadError? then LoadState(false, Some("Failed to read file."), true, Some(fileName), cache, Some(ReadAsOf(f)))
      else if Cacheable(f, read) && store.StoreThrew? then LoadState(false, None, true, Some(fileName), cache, Some(Text))
      else
        var written :=
          if Cacheable(f, read) then cache[CacheKey(fileName) := read.content] else cache;
        if parse.Loaded? then LoadState(true, None, false, Some(fileName), written, Some(ReadAsOf(f)))
        else
          var message := match f
            case OBJ => "Failed to load OBJ model."
            case GLTF => "Failed to load GLTF model."
            case GLB => "Failed to load GLB model."
            case FBX => "Failed to load FBX model.";
          LoadState(false, Some(message), true, Some(fileName), written, Some(ReadAsOf(f)))
  }

  /**
   * `handleFileChange`: with no file, just stop loading. Otherwise a non-empty cached text of an
   * .obj or .gltf file is parsed first (`parseCached`); if that throws, its cache entry is
   * removed and the file itself is read (`read`) and parsed (`parse`). A cached GLTF text whose
   * loader reports failure ends with an error and the file is not read.
   */
  function Load(file: Option<string>, cache: map<string, string>, parseCached: ParseOutcome, read: ReadResult,
                store: StoreOutcome, parse: ParseOutcome): (r: LoadState)
    ensures file.None? ==> r == LoadState(false, None, false, None, cache, None)
    ensures r.hasModel ==> r.error.None? && !r.loading
  {
    match file
    case None => LoadState(false, None, false, None, cache, None)
    case Some(f) =>
      // `name.endsWith('.obj')` and `name.endsWith('.gltf')` are FormatOf(f) == Some(OBJ) and
      // Some(GLTF): see FormatIffExtension.
      var key := CacheKey(f);
      var cached := key in cache && cache[key] != "";
      var format := FormatOf(f);
      if cached && format == Some(OBJ) && parseCached.Loaded? then
        LoadState(true, None, false, Some(f), cache, None)
      else if cached && format == Some(OBJ) then
        LoadFromFile(f, cache - {key}, read, store, parse)
      else if cached && format == Some(GLTF) && parseCached.Loaded? then
        LoadState(true, None, false, Some(f), cache, None)
      else if cached && format == Some(GLTF) && parseCached.Failed? then
        LoadState(false, Some("Failed to load cached GLTF model."), true, Some(f), cache, None)
      else if cached && format == Some(GLTF) then
        LoadFromFile(f, cache - {key}, read, store, parse)
      else
        LoadFromFile(f, cache, read, store, parse)
  }

  /** Whether the model is back before the handler's first render: only the OBJ loader parses a cached text at once. */
  predicate ModelShownAtOnce(file: Option<string>, cache: map<string, string>, parseCached: ParseOutcome) {
    && file.Some?
    && CacheKey(file.value) in cache && cache[CacheKey(file.value)] != ""
    && FormatOf(file.value) == Some(OBJ)
    && parseCached.Loaded?
  }

  /** A name with none of the four extensions gets the unsupported-format error, with loading off and the cache untouched. */
  lemma UnsupportedFormatRejected(f: string, cache: map<string, string>, parseCached: ParseOutcome, read: ReadResult,
                                  store: StoreOutcome, parse: ParseOutcome)
    requires FormatOf(f).None?
    ensures Load(Some(f), cache, parseCached, read, store, parse) == LoadState(false, Some(UnsupportedFormat), false, Some(f), cache, None)
  {
  }

  /** Binary formats never use the cache: the outcome does not depend on it and leaves it as it was. */
  lemma {:induction false} BinaryFormatsBypassCache(f: string, cache: map<string, string>, parseCached: ParseOutcome, read: ReadResult,
                                                    store: StoreOutcome, parse: ParseOutcome)
    requires FormatOf(f) == Some(GLB) || FormatOf(f) == Some(FBX)
    ensures var r := Load(Some(f), cache, parseCached, read, store, parse);
      && r.cache == cache
      && r.readAs == Some(ArrayBuffer)
      && r.hasModel == (read.Read? && parse.Loaded?)
  {
    assert Load(Some(f), cache, parseCached, read, store, parse) == LoadFromFile(f, cache, read, store, parse);
  }

  /**
   * When caching a just-read text throws, the load stops there: no model, no error, still
   * loading, and the cache as it was.
   */
  lemma FullStorageStallsLoad(f: string, cache: map<string, string>, read: ReadResult, parse: ParseOutcome)
    requires FormatOf(f) == Some(OBJ) || FormatOf(f) == Some(GLTF)
    requires read.Read? && |read.content| < MaxCacheSize
    ensures LoadFromFile(f, cache, read, StoreThrew, parse) == LoadState(false, None, true, Some(f), cache, Some(Text))
  {
  }

  /** Reading the file itself leaves the cache as given, or sets the file's own key to the .obj or .gltf text just read. */
  lemma LoadFromFileCache(f: string, cache: map<string, string>, read: ReadResult, store: StoreOutcome, parse: ParseOutcome)
    ensures var r := LoadFromFile(f, cache, read, store, parse);
      || r.cache == cache
      || (&& (FormatOf(f) == Some(OBJ) || FormatOf(f) == Some(GLTF))
          && read.Read? && |read.content| < MaxCacheSize && store.Stored?
          && r.cache == cache[CacheKey(f) := read.content])
  {
  }

  /**
   * The only cache entry a load can change is the file's own; it is set only to the text just
   * read from an .obj or .gltf file shorter than the limit, when storing it succeeds, and
   * otherwise can only be removed.
   */
  lemma {:induction false} CacheWrites(f: string, cache: map<string, string>, parseCached: ParseOutcome, read: ReadResult,
                                       store: StoreOutcome, parse: ParseOutcome)
    ensures var r := Load(Some(f), cache, parseCached, read, store, parse);
      && (forall k :: k != CacheKey(f) ==> (k in r.cache <==> k in cache) && (k in cache ==> r.cache[k] == cache[k]))
      && (CacheKey(f) in r.cache && (CacheKey(f) !in cache || r.cache[CacheKey(f)] != cache[CacheKey(f)]) ==>
            && (FormatOf(f) == Some(OBJ) || FormatOf(f) == Some(GLTF))
            && read.Read?
            && |read.content| < MaxCacheSize
            && store.Stored?
            && r.cache[CacheKey(f)] == read.content)
  {
    var key := CacheKey(f);
    var r := Load(Some(f), cache, parseCached, read, store, parse);
    if key in cache && cache[key] != "" && (FormatOf(f) == Some(OBJ) || FormatOf(f) == Some(GLTF)) {
      LoadFromFileCache(f, cache - {key}, read, store, parse);
      assert r.cache == cache || r.cache == LoadFromFile(f, cache - {key}, read, store, parse).cache;
    } else {
      LoadFromFileCache(f, cache, read, store, parse);
      assert r.cache == LoadFromFile(f, cache, read, store, parse).cache;
    }
  }

  /** A cached text that the OBJ loader accepts is used without reading the file. */
  lemma CachedObjUsed(f: string, cache: map<string, string>, read: ReadResult, store: StoreOutcome, parse: ParseOutcome)
    requires FormatOf(f) == Some(OBJ)
    requires CacheKey(f) in cache && cache[CacheKey(f)] != ""
    ensures Load(Some(f), cache, Loaded, read, store, parse) == LoadState(true, None, false, Some(f), cache, None)
  {
  }

  /** A cached text the OBJ loader throws on is dropped from the cache before the file is read. */
  lemma CachedObjThatThrowsIsDropped(f: string, cache: map<string, string>, read: ReadResult, store: StoreOutcome)
    requires FormatOf(f) == Some(OBJ)
    requires CacheKey(f) in cache && cache[CacheKey(f)] != ""
    requires read.ReadError?
    ensures Load(Some(f), cache, Threw, read, store, Loaded).cache == cache - {CacheKey(f)}
    ensures Load(Some(f), cache, Threw, read, store, Loaded).readAs == Some(Text)
  {
  }

  // ---------------------------------------------------------------------------
  // Measurement and annotations on values

  /** The points after a distance click: a third click starts over from the new point. */
  function DistanceClick(points: seq<Point>, p: Point): (r: seq<Point>)
    ensures 1 <= |r| <= 2 && r[|r| - 1] == p
    ensures |r| == 2 <==> |points| == 1
    ensures |r| == 2 ==> r[0] == points[0]
  {
    if |points| == 0 then [p]
    else if |points| == 1 then [points[0], p]
    else [p]
  }

  /** Clicks alternate: from any state, two clicks give a measured pair, and a third starts over. */
  lemma MeasurementCycle(points: seq<Point>, a: Point, b: Point, c: Point)
    ensures |DistanceClick(DistanceClick([], a), b)| == 2
    ensures DistanceClick(DistanceClick(DistanceClick([], a), b), c) == [c]
    ensures |points| == 2 ==> DistanceClick(DistanceClick(points, a), b) == [a, b]
  {
  }

  /** The midpoint where the distance label is drawn. */
  function Midpoint(a: Point, b: Point): (m: Point)
    ensures m.x - a.x == b.x - m.x && m.y - a.y == b.y - m.y && m.z - a.z == b.z - m.z
  {
    Point((a.x + b.x) / 2.0, (a.y + b.y) / 2.0, (a.z + b.z) / 2.0)
  }

  /** Points, distance and label agree: a distance and its label exist exactly when two points are placed. */
  predicate MeasurementConsistent(points: seq<Point>, distance: Option<real>, labelAt: Option<Point>) {
    && |points| <= 2
    && (distance.Some? <==> |points| == 2)
    && (labelAt.Some? <==> |points| == 2)
    && (labelAt.Some? ==> labelAt.value == Midpoint(points[0], points[1]))
  }

  /** A non-empty text with no white space at either end: what trimming a non-blank text gives. */
  predicate Tidy(text: string) {
    text != "" && !IsWhitespace(text[0]) && !IsWhitespace(text[|text| - 1])
  }

  /** Every stored annotation text is tidy. */
  predicate AnnotationsTidy(annotations: seq<Annotation>) {
    forall i :: 0 <= i < |annotations| ==> Tidy(annotations[i].text)
  }

  /** `text && text.trim()`: a prompt answer that is present and not blank. */
  predicate Usable(text: Option<string>) {
    Truthy(text) && Trim(text.value) != ""
  }

  /** A tidy text is exactly one that trimming leaves as it is, and trimming a non-blank text makes it tidy. */
  lemma TidyIsTrimmed(s: string)
    ensures Tidy(s) ==> Trim(s) == s
    ensures Trim(s) != "" ==> Tidy(Trim(s))
  {
    if Tidy(s) {
      TrimOfTrimmed(s);
    }
  }

  /** `filter((_, i) => i !== idx)`: the list without the element at `idx`, if there is one. */
  function WithoutIndex<T>(s: seq<T>, idx: int): (r: seq<T>)
    ensures 0 <= idx < |s| ==> r == s[..idx] + s[idx + 1..]
    ensures !(0 <= idx < |s|) ==> r == s
    decreases |s|
  {
    if s == [] then []
    else
      var rest := WithoutIndex(s[1..], idx - 1);
      if idx == 0 then
        assert rest == s[1..];
        rest
      else
        assert 0 <= idx < |s| ==> [s[0]] + (s[1..][..idx - 1] + s[1..][idx..]) == s[..idx] + s[idx + 1..];
        [s[0]] + rest
  }

  /** `map((a, i) => i === idx ? { ...a, text } : a)`: only the text at `idx` changes. */
  function WithTextAt(s: seq<Annotation>, idx: int, text: string): (r: seq<Annotation>)
    ensures |r| == |s|
    ensures forall i :: 0 <= i < |s| && i != idx ==> r[i] == s[i]
    ensures 0 <= idx < |s| ==> r[idx] == Annotation(s[idx].pos, text)
    decreases |s|
  {
    if s == [] then []
    else
      var head := if idx == 0 then s[0].(text := text) else s[0];
      var rest := WithTextAt(s[1..], idx - 1, text);
      assert forall i :: 1 <= i < |s| && i != idx ==> ([head] + rest)[i] == rest[i - 1] == s[1..][i - 1];
      [head] + rest
  }

  /** Adding a tidy annotation keeps the annotations tidy. */
  lemma AppendKeepsTidy(annotations: seq<Annotation>, a: Annotation)
    requires AnnotationsTidy(annotations) && Tidy(a.text)
    ensures AnnotationsTidy(annotations + [a])
  {
    forall i | 0 <= i < |annotations| + 1 ensures Tidy((annotations + [a])[i].text) {
      if i < |annotations| { assert (annotations + [a])[i] == annotations[i]; }
    }
  }

  /** Deleting keeps the remaining annotations tidy. */
  lemma DeleteKeepsTidy(annotations: seq<Annotation>, idx: int)
    requires AnnotationsTidy(annotations)
    ensures AnnotationsTidy(WithoutIndex(annotations, idx))
  {
    var r := WithoutIndex(annotations, idx);
    if 0 <= idx < |annotations| {
      forall i | 0 <= i < |r| ensures Tidy(r[i].text) {
        if i < idx { assert r[i] == annotations[i]; } else { assert r[i] == annotations[i + 1]; }
      }
    }
  }

  /** Editing with a trimmed non-blank text keeps the annotations tidy. */
  lemma EditKeepsTidy(annotations: seq<Annotation>, idx: int, text: string)
    requires AnnotationsTidy(annotations)
    requires Trim(text) != ""
    ensures AnnotationsTidy(WithTextAt(annotations, idx, Trim(text)))
  {
    TidyIsTrimmed(text);
  }

  // ---------------------------------------------------------------------------
  // The viewer's state

  class Viewer {
    var hasModel: bool
    var fileName: Option<string>
    var error: Option<string>
    var loading: bool
    /** The browser's local storage, as far as the viewer uses it. */
    var cache: map<string, string>

    var measurementMode: bool
    var measurementPoints: seq<Point>
    var measuredDistance: Option<real>
    var measurementLabel: Option<Point>

    var areaMode: bool
    var areaPoints: seq<Point>
    var areaValue: Option<real>
    var areaLabel: Option<Point>

    var annotationMode: bool
    var annotations: seq<Annotation>

    /** Fetches of the default model started while no model was shown, and not yet settled. */
    var pendingDefault: nat

    predicate Valid()
      reads this
    {
      MeasurementConsistent(measurementPoints, measuredDistance, measurementLabel) && AnnotationsTidy(annotations)
    }

    /** A fresh viewer over the given local storage: no model, every mode off, nothing placed, and the default model being fetched. */
    constructor (cache: map<string, string>)
      ensures Valid()
      ensures !hasModel && fileName.None? && error.None? && !loading && this.cache == cache
      ensures !measurementMode && !areaMode && !annotationMode
      ensures measurementPoints == [] && areaPoints == [] && annotations == []
      ensures areaValue.None? && areaLabel.None?
      ensures pendingDefault == 1
    {
      hasModel := false;
      fileName := None;
      error := None;
      loading := false;
      this.cache := cache;
      measurementMode := false;
      measurementPoints := [];
      measuredDistance := None;
      measurementLabel := None;
      areaMode := false;
      areaPoints := [];
      areaValue := None;
      areaLabel := None;
      annotationMode := false;
      annotations := [];
      pendingDefault := 1;
    }

    /**
     * `handleFileChange`: the loading state becomes `Load`'s; measurements and annotations are
     * kept. The handler first drops the model; unless the cached OBJ loader puts one back at
     * once, a viewer that showed a model is left without one, and the effect on the model starts
     * a fetch of the default model.
     */
    method HandleFileChange(file: Option<string>, parseCached: ParseOutcome, read: ReadResult, store: StoreOutcome, parse: ParseOutcome)
      modifies this`hasModel, this`error, this`loading, this`fileName, this`cache, this`pendingDefault
      ensures var r := Load(file, old(cache), parseCached, read, store, parse);
        hasModel == r.hasModel && error == r.error && loading == r.loading && fileName == r.fileName && cache == r.cache
      ensures pendingDefault ==
        old(pendingDefault) + if old(hasModel) && !ModelShownAtOnce(file, old(cache), parseCached) then 1 else 0
    {
      if hasModel && !ModelShownAtOnce(file, cache, parseCached) {
        pendingDefault := pendingDefault + 1;
      }
      var r := Load(file, cache, parseCached, read, store, parse);
      hasModel, error, loading, fileName, cache := r.hasModel, r.error, r.loading, r.fileName, r.cache;
    }

    /**
     * A fetch of the default model settles: a parsed default model is shown, whatever the viewer
     * showed or reported before (the error stays); a failed fetch or parse reports its error.
     */
    method DefaultModelArrives(ok: bool)
      requires pendingDefault > 0
      modifies this`hasModel, this`error, this`pendingDefault
      ensures pendingDefault == old(pendingDefault) - 1
      ensures ok ==> hasModel && error == old(error)
      ensures !ok ==> hasModel == old(hasModel) && error == Some(DefaultModelFailed)
    {
      pendingDefault := pendingDefault - 1;
      if ok {
        hasModel := true;
      } else {
        error := Some(DefaultModelFailed);
      }
    }

    /** A distance click: the point list cycles; a second point sets the distance and its label, a third clears them. */
    method ClickDistance(p: Point, distance: real)
      requires Valid()
      modifies this`measurementPoints, this`measuredDistance, this`measurementLabel
      ensures Valid()
      ensures measurementPoints == DistanceClick(old(measurementPoints), p)
      ensures measuredDistance == (if |old(measurementPoints)| == 1 then Some(distance) else None)
    {
      if |measurementPoints| == 0 {
        measurementPoints := [p];
      } else if |measurementPoints| == 1 {
        measuredDistance := Some(distance);
        measurementLabel := Some(Midpoint(measurementPoints[0], p));
        measurementPoints := [measurementPoints[0], p];
      } else {
        measuredDistance := None;
        measurementLabel := None;
        measurementPoints := [p];
      }
    }

    /** An area click appends the point. */
    method ClickArea(p: Point)
      modifies this`areaPoints
      ensures areaPoints == old(areaPoints) + [p]
    {
      areaPoints := areaPoints + [p];
    }

    /** An annotation click adds the trimmed answer to the prompt, when it is usable. */
    method ClickAnnotation(p: Point, prompt: Option<string>)
      requires Valid()
      modifies this`annotations
      ensures Valid()
      ensures Usable(prompt) ==> annotations == old(annotations) + [Annotation(p, Trim(prompt.value))]
      ensures !Usable(prompt) ==> annotations == old(annotations)
    {
      if Usable(prompt) {
        TidyIsTrimmed(prompt.value);
        AppendKeepsTidy(annotations, Annotation(p, Trim(prompt.value)));
        annotations := annotations + [Annotation(p, Trim(prompt.value))];
      }
    }

    /**
     * A pointer press on the model (`hit` is the ray's first intersection, if any): with a model
     * and a hit, the first active mode of distance, area and annotation takes the point
     * (`distance` is what the geometry measures to it, `prompt` the answer to the annotation
     * prompt).
     */
    method PointerDown(hit: Option<Point>, distance: real, prompt: Option<string>)
      requires Valid()
      modifies this`measurementPoints, this`measuredDistance, this`measurementLabel, this`areaPoints, this`annotations
      ensures Valid()
      ensures var taken := hasModel && hit.Some?;
        && (taken && measurementMode ==>
              && measurementPoints == DistanceClick(old(measurementPoints), hit.value)
              && measuredDistance == (if |old(measurementPoints)| == 1 then Some(distance) else None))
        && (!(taken && measurementMode) ==>
              measurementPoints == old(measurementPoints) && measuredDistance == old(measuredDistance)
              && measurementLabel == old(measurementLabel))
        && areaPoints == (if taken && !measurementMode && areaMode then old(areaPoints) + [hit.value] else old(areaPoints))
        && annotations ==
             (if taken && !measurementMode && !areaMode && annotationMode && Usable(prompt)
              then old(annotations) + [Annotation(hit.value, Trim(prompt.value))]
              else old(annotations))
    {
      if !hasModel || hit.None? {
        return;
      }
      if measurementMode {
        ClickDistance(hit.value, distance);
      } else if areaMode {
        ClickArea(hit.value);
      } else if annotationMode {
        ClickAnnotation(hit.value, prompt);
      }
    }

    /** `finishArea`: with at least three points, record the area and its label (both from the geometry); otherwise nothing. */
    method FinishArea(area: real, centroid: Point)
      modifies this`areaValue, this`areaLabel
      ensures |areaPoints| < 3 ==> areaValue == old(areaValue) && areaLabel == old(areaLabel)
      ensures |areaPoints| >= 3 ==> areaValue == Some(area) && areaLabel == Some(centroid)
    {
      if |areaPoints| < 3 {
        return;
      }
      areaValue := Some(area);
      areaLabel := Some(centroid);
    }

    /** `resetArea`: no area points, value or label. */
    method ResetArea()
      modifies this`areaPoints, this`areaValue, this`areaLabel
      ensures areaPoints == [] && areaValue.None? && areaLabel.None?
    {
      areaPoints := [];
      areaValue := None;
      areaLabel := None;
    }

    /** The measurement button: flip the mode and clear the points, the distance and its label. */
    method ToggleMeasurement()
      requires Valid()
      modifies this`measurementMode, this`measurementPoints, this`measuredDistance, this`measurementLabel
      ensures Valid()
      ensures measurementMode == !old(measurementMode)
      ensures measurementPoints == [] && measuredDistance.None? && measurementLabel.None?
    {
      measurementMode := !measurementMode;
      measurementPoints := [];
      measuredDistance := None;
      measurementLabel := None;
    }

    /** The area button: flip the mode and reset the area. */
    method ToggleArea()
      modifies this`areaMode, this`areaPoints, this`areaValue, this`areaLabel
      ensures areaMode == !old(areaMode)
      ensures areaPoints == [] && areaValue.None? && areaLabel.None?
    {
      areaMode := !areaMode;
      ResetArea();
    }

    /** The annotation button: flip the mode only; the annotations stay. */
    method ToggleAnnotation()
      modifies this`annotationMode
      ensures annotationMode == !old(annotationMode)
    {
      annotationMode := !annotationMode;
    }

    /** `deleteAnnotation(idx)`: the annotation at `idx` goes, the others keep their order; any other index changes nothing. */
    method DeleteAnnotation(idx: int)
      requires Valid()
      modifies this`annotations
      ensures Valid()
      ensures annotations == WithoutIndex(old(annotations), idx)
    {
      DeleteKeepsTidy(annotations, idx);
      annotations := WithoutIndex(annotations, idx);
    }

    /**
     * `editAnnotation(idx)`: a usable answer to the prompt replaces the text at `idx`, trimmed;
     * the position and the other annotations stay. The index must exist: the prompt shows the
     * current text.
     */
    method EditAnnotation(idx: int, newText: Option<string>)
      requires Valid()
      requires 0 <= idx < |annotations|
      modifies this`annotations
      ensures Valid()
      ensures Usable(newText) ==> annotations == WithTextAt(old(annotations), idx, Trim(newText.value))
      ensures !Usable(newText) ==> annotations == old(annotations)
    {
      if Usable(newText) {
        EditKeepsTidy(annotations, idx, newText.value);
        annotations := WithTextAt(annotations, idx, Trim(newText.value));
      }
    }
  }
}
