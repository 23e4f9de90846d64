/**
 * The try-on hand-off of app.py: downloading the two photos (download_image)
 * and calling the remote try-on model (send_to_gradio), with every network,
 * file and remote call replaced by the outcome it reports.
 *
 * The hand-off is a pure decision once its I/O is abstracted: it yields the
 * ordered list of outside calls it makes and the local path of the result,
 * or None.
 */
module TryOn {
  import opened Wrappers

  /** Directory every downloaded or produced image is written to. */
  const StaticDir: string := "static"
  /** Fixed file names of the two downloaded inputs. */
  const PersonFile: string := "person_image.jpg"
  const GarmentFile: string := "garment_image.jpg"
  /** Fixed path of the produced try-on image. */
  const ResultPath: string := "static/result.png"
  /** A result element is fetched only when it starts with this prefix. */
  const UrlPrefix: string := "http"
  /** The only HTTP status download_image accepts. */
  const HttpOk: int := 200

  /** Python's str.startswith. */
  predicate StartsWith(s: string, prefix: string) {
    |prefix| <= |s| && s[..|prefix|] == prefix
  }

  /**
   * os.path.join(StaticDir, name) for a plain relative file name, with the
   * POSIX separator "/" (on Windows it would be a backslash).
   */
  function StaticPath(name: string): string {
    StaticDir + "/" + name
  }

  /**
   * What one HTTP GET inside a try-block reported: a response with its
   * status code, or an exception (network error, timeout, or a failure of
   * the file write that follows the GET inside the same try-block).
   */
  datatype Fetch = Response(status: int) | Raised

  /** The Python values the remote model can hand back, as far as the code inspects them. */
  datatype PyValue =
    | PyNone
    | PyInt(i: int)
    | PyStr(s: string)
    | PyBytes(data: seq<int>)
    | PyList(items: seq<PyValue>)   // a list or a tuple

  /** What the remote `predict` call did: returned a value, or raised. */
  datatype Prediction = Returned(value: PyValue) | Failed

  /**
   * The outcomes the outside world reports during one hand-off: the GETs of
   * the two photos, the remote prediction, and the GET + write of the result.
   */
  datatype Services = Services(
    personFetch: Fetch,
    garmentFetch: Fetch,
    prediction: Prediction,
    resultFetch: Fetch)

  /** The calls the hand-off makes to the outside, in order. */
  datatype Call =
    | Get(url: string)                              // requests.get
    | Predict(background: string, garment: string)  // gradio_client.predict

  /** Everything send_to_gradio does that can be observed. */
  datatype Handoff = Handoff(calls: seq<Call>, path: Option<string>)

  /** Python truthiness of a value. */
  predicate Truthy(v: PyValue) {
    match v
    case PyNone => false
    case PyInt(i) => i != 0
    case PyStr(s) => s != []
    case PyBytes(data) => data != []
    case PyList(items) => items != []
  }

  /** Python's `v[0]`; None where it raises. */
  function First(v: PyValue): Option<PyValue> {
    match v
    case PyNone => None
    case PyInt(_) => None
    case PyStr(s) => if s == [] then None else Some(PyStr(s[..1]))
    case PyBytes(data) => if data == [] then None else Some(PyInt(data[0]))
    case PyList(items) => if items == [] then None else Some(items[0])
  }

  /**
   * A result the bot knows how to deliver: a non-empty list or tuple whose
   * first element is a string starting with "http". Stated independently of
   * how the code inspects the value.
   */
  predicate HoldsUrl(v: PyValue) {
    v.PyList? && |v.items| > 0 && v.items[0].PyStr? && StartsWith(v.items[0].s, UrlPrefix)
  }

  /**
   * download_image: the path the photo was saved to, which exists only when
   * the GET answered 200 and nothing raised.
   */
  function DownloadImage(filename: string, fetch: Fetch): (r: Option<string>)
    ensures r.Some? <==> fetch == Response(HttpOk)
    ensures r.Some? ==> r.value == StaticDir + "/" + filename
  {
    match fetch
    case Raised => None
    case Response(status) => if status == HttpOk then Some(StaticPath(filename)) else None
  }

  /**
   * The URL send_to_gradio fetches the result from: the test
   * `result and isinstance(result[0], str) and result[0].startswith("http")`.
   * Nothing but a list or tuple whose first element is an http string passes;
   * a bare string never does, because its first element has one character.
   */
  function ResultUrl(prediction: Prediction): (url: Option<string>)
    ensures url.Some? <==> prediction.Returned? && HoldsUrl(prediction.value)
    ensures url.Some? ==> url.value == prediction.value.items[0].s && StartsWith(url.value, UrlPrefix)
  {
    match prediction
    case Failed => None
    case Returned(v) =>
      if !Truthy(v) then None
      else match First(v)
        case None => None
        case Some(first) =>
          if first.PyStr? && StartsWith(first.s, UrlPrefix) then Some(first.s) else None
  }

  /**
   * send_to_gradio: download both photos, call the model only when both
   * downloads gave a path, and turn its result into the local result path
   * or None.
   */
  function SendToGradio(personUrl: string, garmentUrl: string, services: Services): (h: Handoff)
    // both photos are always fetched, person first
    ensures |h.calls| >= 2 && h.calls[0] == Get(personUrl) && h.calls[1] == Get(garmentUrl)
    // the model is called, at most once and right after the downloads, exactly when both succeeded
    ensures (|h.calls| > 2) <==>
      services.personFetch == Response(HttpOk) && services.garmentFetch == Response(HttpOk)
    ensures |h.calls| > 2 ==>
      h.calls[2] == Predict(StaticPath(PersonFile), StaticPath(GarmentFile))
    ensures forall i :: 0 <= i < |h.calls| && i != 2 ==> h.calls[i].Get?
    // the result is fetched only from the URL the model returned
    ensures |h.calls| > 3 <==> |h.calls| > 2 && ResultUrl(services.prediction).Some?
    ensures |h.calls| > 3 ==> |h.calls| == 4 && h.calls[3] == Get(ResultUrl(services.prediction).value)
    // a path comes back only when every step worked; its status code is never checked
    ensures h.path.Some? <==>
      && services.personFetch == Response(HttpOk)
      && services.garmentFetch == Response(HttpOk)
      && services.prediction.Returned? && HoldsUrl(services.prediction.value)
      && services.resultFetch.Response?
    ensures h.path.Some? ==> h.path.value == ResultPath
  {
    var personPath := DownloadImage(PersonFile, services.personFetch);
    var garmentPath := DownloadImage(GarmentFile, services.garmentFetch);
    var downloads := [Get(personUrl), Get(garmentUrl)];
    if personPath.Some? && garmentPath.Some? then
      var predicted := downloads + [Predict(personPath.value, garmentPath.value)];
      match ResultUrl(services.prediction)
      case None => Handoff(predicted, None)
      case Some(url) =>
        var fetched := predicted + [Get(url)];
        if services.resultFetch.Response? then Handoff(fetched, Some(ResultPath))
        else Handoff(fetched, None)
    else
      Handoff(downloads, None)
  }
}
