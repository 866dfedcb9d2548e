/**
 * The order of the image operations that turn a receipt photo into the
 * binary page the OCR reads, in both engines (`ImageProcessor` in the
 * picscan app and `PageExtractor` in the api app), and how each engine
 * obtains its input and keeps its result. Each image operation is a
 * named step; what a step does to the pixels belongs to the image
 * library.
 */
module Pipeline {
  import opened Wrappers

  /** One image operation. */
  datatype Step =
    | Resize          // scale to 300 pixels wide
    | RemoveBackground
    | GrabCut
    | Morphology      // closing with a 5 × 5 kernel, twice
    | Gray
    | Canny
    | CutToContour    // the straightening decided in `Rectify`
    | Blur
    | Threshold       // adaptive Gaussian threshold, block 11, constant 2

  /** `_binarize_image`: gray conversion only for an image with three dimensions (colour), then the threshold. */
  function Binarize(dims: nat): (r: seq<Step>)
    ensures |r| > 0 && r[|r| - 1] == Threshold
    ensures Gray in r <==> dims == 3
  {
    if dims == 3 then [Gray, Threshold] else [Threshold]
  }

  /** The steps after the background is dealt with; `dims` is the number of dimensions the blurred image has. */
  function Finish(dims: nat): seq<Step> {
    [Gray, Canny, CutToContour, Blur] + Binarize(dims)
  }

  /** `ImageProcessor._preprocess_image` with `_process_sequential`: grab-cut and morphology, always. */
  function ImageSteps(dims: nat): (r: seq<Step>)
    ensures RemoveBackground !in r
    ensures |r| >= 3 && r[..3] == [Resize, GrabCut, Morphology]
  {
    [Resize, GrabCut, Morphology] + Finish(dims)
  }

  /** `PageExtractor._preprocess_image`: background removal iff the flag is exactly "y", grab-cut and morphology otherwise. */
  function PageSteps(removeBackground: string, dims: nat): (r: seq<Step>)
    ensures RemoveBackground in r <==> removeBackground == "y"
    ensures GrabCut in r <==> removeBackground != "y"
    ensures |r| > 0 && r[0] == Resize && r[|r| - 1] == Threshold
  {
    var cleanup := if removeBackground == "y" then [RemoveBackground] else [GrabCut, Morphology];
    [Resize] + cleanup + Finish(dims)
  }

  /** With any flag but "y" the two engines run the same operations in the same order. */
  lemma EnginesRunSameSteps(removeBackground: string, dims: nat)
    requires removeBackground != "y"
    ensures PageSteps(removeBackground, dims) == ImageSteps(dims)
  {
    assert [Resize] + [GrabCut, Morphology] == [Resize, GrabCut, Morphology];
  }

  /*
   * Obtaining the photo (`PageExtractor._load_image`).
   */

  /** Where the photo came from: read from a file, or handed over as an array. */
  datatype Photo<A> = FromFile(path: string) | FromArray(pixels: A)

  /** The `ValueError` raised when neither source is given. */
  datatype LoadError = NoImageGiven

  /** Python truthiness of an optional path: `None` and the empty string are false. */
  predicate Truthy(path: Option<string>) {
    path.Some? && path.value != ""
  }

  /** A non-empty path wins over an array; with neither, loading fails. */
  function LoadImage<A>(path: Option<string>, pixels: Option<A>): (r: Result<Photo<A>, LoadError>)
    ensures r.Failure? <==> !Truthy(path) && pixels.None?
    ensures Truthy(path) ==> r == Success(FromFile(path.value))
    ensures !Truthy(path) && pixels.Some? ==> r == Success(FromArray(pixels.value))
  {
    if Truthy(path) then Success(FromFile(path.value))
    else if pixels.Some? then Success(FromArray(pixels.value))
    else Failure(NoImageGiven)
  }

  /*
   * Keeping the result (`preprocess_image`).
   */

  /** `ImageProcessor`: the photo and the stored result, absent until first asked for. */
  datatype Processor<I> = Processor(image: I, preprocessed: Option<I>)

  /** A new `ImageProcessor` has computed nothing yet. */
  function NewProcessor<I>(image: I): (p: Processor<I>)
    ensures p.preprocessed.None? && p.image == image
  {
    Processor(image, None)
  }

  /**
   * `ImageProcessor.preprocess_image`: computes with `run` the first time,
   * stores the result, and returns the stored result from then on.
   */
  function Preprocess<I>(p: Processor<I>, run: I -> I): (r: (Processor<I>, I))
    ensures r.0.image == p.image && r.0.preprocessed == Some(r.1)
    ensures p.preprocessed.None? ==> r.1 == run(p.image)
    ensures p.preprocessed.Some? ==> r == (p, p.preprocessed.value)
  {
    match p.preprocessed
    case Some(done) => (p, done)
    case None => var done := run(p.image); (Processor(p.image, Some(done)), done)
  }

  /** Asking again changes nothing and returns the same image. */
  lemma PreprocessIdempotent<I>(p: Processor<I>, run: I -> I)
    ensures var (q, a) := Preprocess(p, run);
      Preprocess(q, run) == (q, a)
  {
  }

  /** `PageExtractor`: the result is computed once, when the extractor is built. */
  datatype Extractor<I> = Extractor(image: I, removeBackground: string, preprocessed: I)

  /** The constructor: loads the photo, then runs the pipeline right away; a failed load raises. */
  function NewExtractor<A, I>(path: Option<string>, pixels: Option<A>, removeBackground: string,
                              read: Photo<A> -> I, run: (I, string) -> I): (r: Result<Extractor<I>, LoadError>)
    ensures r.Failure? <==> LoadImage(path, pixels).Failure?
    ensures r.Success? ==> var image := read(LoadImage(path, pixels).value);
      r.value == Extractor(image, removeBackground, run(image, removeBackground))
  {
    match LoadImage(path, pixels)
    case Failure(e) => Failure(e)
    case Success(photo) =>
      var image := read(photo);
      Success(Extractor(image, removeBackground, run(image, removeBackground)))
  }

  /** `PageExtractor.preprocess_image`: the stored result. */
  function PreprocessPage<I>(e: Extractor<I>): I {
    e.preprocessed
  }

  /**
   * Both engines hand out the pipeline's result on every call: the first
   * call of `ImageProcessor` computes what `PageExtractor` computed when it
   * was built, and later calls return it again.
   */
  lemma EnginesKeepTheirResult<A, I>(path: Option<string>, pixels: Option<A>, removeBackground: string,
                                     read: Photo<A> -> I, run: (I, string) -> I)
    requires LoadImage(path, pixels).Success?
    ensures var image := read(LoadImage(path, pixels).value);
      var e := NewExtractor(path, pixels, removeBackground, read, run).value;
      var (p, first) := Preprocess(NewProcessor(image), i => run(i, removeBackground));
      && first == PreprocessPage(e)
      && Preprocess(p, i => run(i, removeBackground)).1 == PreprocessPage(e)
  {
  }
}
