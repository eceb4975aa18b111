/** The page's state machine: the file selection with its client-side
    checks, the request sent to the backend, the error texts shown to the
    user, and which of the three views is on screen. */
module App {
  import opened Wrappers
  import opened Text
  import opened Config
  import opened Payload
  import Api

  // ------------------------------------------------------------ selection

  /** A file chosen in the browser: its name, MIME type and bytes. */
  datatype SelectedFile = SelectedFile(name: string, mimeType: string, data: seq<bv8>)

  /** The largest accepted file, 10 MiB. */
  const MaxFileSize: nat := 10 * 1024 * 1024
  /** The most images a selection may hold. */
  const MaxSelection: nat := 10
  const TooManyMessage := "Maximum 10 images allowed. Please remove some images first."

  /** A file passes the client-side checks: an image type and at most 10 MiB. */
  predicate Admissible(f: SelectedFile) {
    StartsWith(f.mimeType, "image/") && |f.data| <= MaxFileSize
  }

  /** The message for a refused file; the type is checked before the size. */
  function RejectionMessage(f: SelectedFile): (m: string)
    requires !Admissible(f)
    ensures !StartsWith(f.mimeType, "image/") ==> m == f.name + " is not an image file"
    ensures StartsWith(f.mimeType, "image/") ==> m == f.name + " is larger than 10MB"
  {
    if !StartsWith(f.mimeType, "image/") then f.name + " is not an image file"
    else f.name + " is larger than 10MB"
  }

  /** The admissible files of a drop, in drop order. */
  function ValidFiles(files: seq<SelectedFile>): seq<SelectedFile> {
    if |files| == 0 then []
    else ValidFiles(files[..|files| - 1]) + (if Admissible(files[|files| - 1]) then [files[|files| - 1]] else [])
  }

  /** The error text after the checks of a drop: the message of the last
      refused file, or `prior` when none was refused. */
  function LastRejection(files: seq<SelectedFile>, prior: string): string {
    if |files| == 0 then prior
    else if !Admissible(files[|files| - 1]) then RejectionMessage(files[|files| - 1])
    else LastRejection(files[..|files| - 1], prior)
  }

  /** `ValidFiles` keeps exactly the admissible files. */
  lemma {:induction false} ValidFilesSpec(files: seq<SelectedFile>)
    ensures forall f :: f in ValidFiles(files) <==> f in files && Admissible(f)
    ensures |ValidFiles(files)| <= |files|
  {
    if |files| > 0 {
      var init := files[..|files| - 1];
      ValidFilesSpec(init);
      assert files == init + [files[|files| - 1]];
    }
  }

  /** A drop is kept whole exactly when every file in it is admissible. */
  lemma {:induction false} ValidFilesWhole(files: seq<SelectedFile>)
    ensures ValidFiles(files) == files <==> forall j :: 0 <= j < |files| ==> Admissible(files[j])
  {
    if ValidFiles(files) == files {
      ValidFilesSpec(files);
      forall j | 0 <= j < |files| ensures Admissible(files[j]) {
        assert files[j] in ValidFiles(files);
      }
    }
    if |files| > 0 && forall j :: 0 <= j < |files| ==> Admissible(files[j]) {
      var init := files[..|files| - 1];
      assert forall j :: 0 <= j < |init| ==> init[j] == files[j];
      ValidFilesWhole(init);
      assert files == init + [files[|files| - 1]];
    }
  }

  /** The error text names the last refused file, and stays as it was when
      no file was refused. */
  lemma {:induction false} LastRejectionSpec(files: seq<SelectedFile>, prior: string, j: nat)
    requires j < |files| && !Admissible(files[j])
    requires forall k :: j < k < |files| ==> Admissible(files[k])
    ensures LastRejection(files, prior) == RejectionMessage(files[j])
  {
    if j < |files| - 1 {
      var init := files[..|files| - 1];
      LastRejectionSpec(init, prior, j);
    }
  }

  lemma {:induction false} NoRejectionKeepsMessage(files: seq<SelectedFile>, prior: string)
    requires forall k :: 0 <= k < |files| ==> Admissible(files[k])
    ensures LastRejection(files, prior) == prior
  {
    if |files| > 0 {
      NoRejectionKeepsMessage(files[..|files| - 1], prior);
    }
  }

  /** A file of exactly 10 MiB is accepted, one byte more is refused. */
  lemma SizeLimitInclusive(f: SelectedFile)
    requires StartsWith(f.mimeType, "image/")
    ensures Admissible(f) <==> |f.data| <= 10485760
    ensures !Admissible(f) ==> RejectionMessage(f) == f.name + " is larger than 10MB"
  {
  }

  /** `prev.filter((_, i) => i !== index)`: the selection without position `index`. */
  function DropIndex<T>(s: seq<T>, index: int): seq<T> {
    if |s| == 0 then []
    else DropIndex(s[..|s| - 1], index) + (if |s| - 1 == index then [] else [s[|s| - 1]])
  }

  /** Removing an index in range closes the gap; any other index removes nothing. */
  lemma {:induction false} DropIndexSpec<T>(s: seq<T>, index: int)
    ensures 0 <= index < |s| ==> DropIndex(s, index) == s[..index] + s[index + 1..]
    ensures !(0 <= index < |s|) ==> DropIndex(s, index) == s
  {
    if |s| > 0 {
      var init := s[..|s| - 1];
      DropIndexSpec(init, index);
      if index == |s| - 1 {
        assert s[..index] == init;
      } else if 0 <= index < |s| - 1 {
        assert init[..index] == s[..index];
        assert init[index + 1..] + [s[|s| - 1]] == s[index + 1..];
      } else {
        assert init + [s[|s| - 1]] == s;
      }
    }
  }

  // ------------------------------------------------------------ request

  /** The multipart request: the URL and the form parts in order. */
  datatype Request = Request(url: string, parts: seq<(string, Api.UploadFile)>)

  /** The base URL: the local server in development, the page's own origin otherwise. */
  function BaseUrl(local: bool): string {
    if local then "http://localhost:8000" else ""
  }

  /** The URL the error texts report (`apiUrl`). */
  function ApiUrl(selection: seq<SelectedFile>, local: bool): string {
    BaseUrl(local) + (if |selection| > 1 then "/analyze-multiple" else "/analyze")
  }

  /** How a selected file travels in the form: its name and type are the part's. */
  function Upload(f: SelectedFile): (u: Api.UploadFile)
    ensures u.filename == Some(f.name) && u.contentType == f.mimeType && u.data == f.data
  {
    Api.UploadFile(Some(f.name), f.mimeType, f.data)
  }

  /** The request `analyzeImages` sends for a non-empty selection. */
  function RequestFor(selection: seq<SelectedFile>, local: bool): Request
    requires |selection| > 0
  {
    if |selection| == 1 then Request(BaseUrl(local) + "/analyze", [("file", Upload(selection[0]))])
    else Request(BaseUrl(local) + "/analyze-multiple",
                 seq(|selection|, i requires 0 <= i < |selection| => ("files", Upload(selection[i]))))
  }

  /** The files of a request, in form order. */
  function Uploads(req: Request): (us: seq<Api.UploadFile>)
    ensures |us| == |req.parts|
    ensures forall i :: 0 <= i < |us| ==> us[i] == req.parts[i].1
  {
    seq(|req.parts|, i requires 0 <= i < |req.parts| => req.parts[i].1)
  }

  /** A single file goes to `/analyze` as `file`, several to
      `/analyze-multiple` as repeated `files`, in selection order; the URL
      actually requested is the one the error texts report. */
  lemma RequestSpec(selection: seq<SelectedFile>, local: bool)
    requires |selection| > 0
    ensures var req := RequestFor(selection, local);
            && req.url == ApiUrl(selection, local)
            && |req.parts| == |selection|
            && (forall i :: 0 <= i < |selection| ==> req.parts[i] == (if |selection| == 1 then "file" else "files", Upload(selection[i])))
  {
  }

  /** A selection the page accepts is one the backend accepts: as many files
      as allowed and every one of an image type. */
  lemma SelectionPassesServerChecks(selection: seq<SelectedFile>, local: bool)
    requires 0 < |selection| <= MaxSelection
    requires forall j :: 0 <= j < |selection| ==> Admissible(selection[j])
    ensures Api.ValidationError(Uploads(RequestFor(selection, local))).None?
    ensures |selection| == 1 ==> Api.IsImage(Uploads(RequestFor(selection, local))[0])
  {
    var us := Uploads(RequestFor(selection, local));
    forall j | 0 <= j < |us| ensures Api.IsImage(us[j]) {
      assert us[j] == Upload(selection[j]);
    }
    Api.ValidationSpec(us);
  }

  /** Builds the request; for several files the `files` parts are appended one by one. */
  method BuildRequest(selection: seq<SelectedFile>, local: bool) returns (req: Request)
    requires |selection| > 0
    ensures req == RequestFor(selection, local)
  {
    var base := BaseUrl(local);
    if |selection| == 1 {
      req := Request(base + "/analyze", [("file", Upload(selection[0]))]);
    } else {
      var parts: seq<(string, Api.UploadFile)> := [];
      var i := 0;
      while i < |selection|
        invariant 0 <= i <= |selection|
        invariant |parts| == i
        invariant forall k :: 0 <= k < i ==> parts[k] == ("files", Upload(selection[k]))
      {
        parts := parts + [("files", Upload(selection[i]))];
        i := i + 1;
      }
      req := Request(base + "/analyze-multiple", parts);
    }
  }

  // ------------------------------------------------------------ replies and messages

  /** How the request ended: a JSON result, a response that was not OK
      (status, status text and the `detail` of its body, if any), or a
      thrown error with its message. */
  datatype Reply =
    | Delivered(result: AnalysisResult)
    | Rejected(status: int, statusText: string, detail: Option<string>)
    | Thrown(message: string)

  // The texts are written in short pieces so that facts about their
  // characters stay cheap to establish.
  const ConnectMessage := "Cannot connect to server. " + "Please ensure FastAPI " + "server is running " + "on localhost:8000"
  const ConnectivityGuidance := "Cannot connect to the " + "analysis server. Please make sure:\n"
    + "1. FastAPI server is running (python your_backend_file.py)\n"
    + "2. Server is accessible on localhost:8000\n"
    + "3. No firewall is blocking the connection"
  const EndpointGuidance := "Analysis endpoint not found. " + "Please verify:\n"
    + "1. FastAPI server is running with the latest backend code\n"
    + "2. Server is running on the correct port (8000)\n"
    + "3. All API endpoints are properly configured"
  const NotFoundPrefix := "API endpoint not found. " + "Make sure FastAPI server " + "is running on port 8000. " + "Tried: "

  function NotFoundText(url: string): string {
    NotFoundPrefix + url
  }

  /** The message thrown for a response that was not OK. */
  function ServiceErrorMessage(status: int, statusText: string, detail: Option<string>, url: string): string {
    if status == 404 then NotFoundText(url)
    else if status == 0 || status >= 500 then ConnectMessage
    else if detail.Some? && detail.value != "" then detail.value
    else "Server error: " + IntToString(status) + " " + statusText
  }

  /** The friendlier text substituted for a caught message. */
  function UserMessage(m: string): string {
    if Contains(m, "fetch") then ConnectivityGuidance
    else if Contains(m, "Not Found") then EndpointGuidance
    else m
  }

  /** The error text left on the page when a request fails. */
  function FailureMessage(reply: Reply, url: string): string
    requires !reply.Delivered?
  {
    var m := match reply
      case Rejected(status, statusText, detail) => ServiceErrorMessage(status, statusText, detail, url)
      case Thrown(message) => message;
    "Analysis failed: " + UserMessage(m)
  }

  /** A refused or unreachable server (status 0 or 5xx) always produces the
      same text, whatever the body said; in particular the backend's own 500
      details are never shown. */
  lemma ServerFailureHidesDetail(status: int, statusText: string, detail: Option<string>, url: string)
    requires status == 0 || status >= 500
    ensures FailureMessage(Rejected(status, statusText, detail), url) == "Analysis failed: " + ConnectMessage
  {
    ConnectMessageIsKept();
  }

  /** A message mentioning neither `fetch` nor `Not Found` is shown as it is. */
  lemma PlainMessageKept(m: string)
    requires !Contains(m, "fetch") && !Contains(m, "Not Found")
    ensures UserMessage(m) == m
  {
  }

  /** The connection text has neither an `f` nor an `N`, so it is shown as it is. */
  lemma ConnectMessageIsKept()
    ensures UserMessage(ConnectMessage) == ConnectMessage
  {
    ConnectMessageHeadIsPlain();
    ConnectMessageTailIsPlain();
    var m := ConnectMessage;
    MissingCharExcludes(m, "fetch", 'f');
    MissingCharExcludes(m, "Not Found", 'N');
    PlainMessageKept(m);
  }

  lemma ConnectMessageHeadIsPlain()
    ensures 'f' !in "Cannot connect to server. " && 'N' !in "Cannot connect to server. "
    ensures 'f' !in "Please ensure FastAPI " && 'N' !in "Please ensure FastAPI "
  {
  }

  lemma ConnectMessageTailIsPlain()
    ensures 'f' !in "server is running " && 'N' !in "server is running "
    ensures 'f' !in "on localhost:8000" && 'N' !in "on localhost:8000"
  {
  }

  /** The not-found text has no capital `N` of its own. */
  lemma NotFoundPrefixLacksN()
    ensures 'N' !in NotFoundPrefix
  {
    assert 'N' !in "API endpoint not found. " && 'N' !in "Make sure FastAPI server ";
    assert 'N' !in "is running on port 8000. " && 'N' !in "Tried: ";
  }

  /** A 404 never leads to the endpoint guidance: its text says `not found`
      in lower case, so the `Not Found` test does not fire. */
  lemma NotFoundStatusSkipsGuidance(statusText: string, detail: Option<string>, url: string)
    requires 'N' !in url
    ensures FailureMessage(Rejected(404, statusText, detail), url) != "Analysis failed: " + EndpointGuidance
  {
    var m := NotFoundText(url);
    NotFoundPrefixLacksN();
    MissingCharExcludes(m, "Not Found", 'N');
    if !Contains(m, "fetch") {
      assert UserMessage(m)[1] == 'P' != EndpointGuidance[1];
    } else {
      assert UserMessage(m)[0] == 'C' != EndpointGuidance[0];
    }
    var prefix := "Analysis failed: ";
    assert (prefix + UserMessage(m))[|prefix|..] == UserMessage(m);
    assert (prefix + EndpointGuidance)[|prefix|..] == EndpointGuidance;
  }

  /** The URLs the page requests contain no `N`. */
  lemma UrlsHaveNoCapitalN(selection: seq<SelectedFile>, local: bool)
    ensures 'N' !in ApiUrl(selection, local)
  {
  }

  /** A client error with a non-empty detail shows that detail verbatim,
      as long as the detail does not trigger one of the substitutions. */
  lemma ClientErrorShowsDetail(status: int, statusText: string, d: string, url: string)
    requires status != 404 && 0 < status < 500 && d != ""
    requires !Contains(d, "fetch") && !Contains(d, "Not Found")
    ensures FailureMessage(Rejected(status, statusText, Some(d)), url) == "Analysis failed: " + d
  {
  }

  /** The backend's refusal of a non-image upload reaches the user unchanged. */
  lemma NonImageRefusalShown(statusText: string, url: string)
    ensures FailureMessage(Rejected(400, statusText, Some("File must be an image")), url)
            == "Analysis failed: " + "File must be an image"
  {
    MissingCharExcludes("File must be an image", "fetch", 'f');
    MissingCharExcludes("File must be an image", "Not Found", 'N');
    ClientErrorShowsDetail(400, statusText, "File must be an image", url);
  }

  /** Any caught message mentioning `fetch` (the browser's network error)
      becomes the connectivity guidance. */
  lemma NetworkErrorGuidance(message: string, url: string)
    requires Contains(message, "fetch")
    ensures FailureMessage(Thrown(message), url) == "Analysis failed: " + ConnectivityGuidance
    ensures FailureMessage(Thrown(message), url) != FailureMessage(Thrown("Not Found"), url)
  {
    MissingCharExcludes("Not Found", "fetch", 'f');
    assert Contains("Not Found", "Not Found") by { assert OccursAt("Not Found", "Not Found", 0); }
    assert ConnectivityGuidance[0] == 'C' != EndpointGuidance[0];
  }

  // ------------------------------------------------------------ views

  /** What the main card shows. */
  datatype View = UploadView | LoadingView | ResultsView(result: AnalysisResult) | NoView

  /** The three conditional blocks of the main card, in order. */
  function ViewOf(isLoading: bool, showResults: bool, result: Option<AnalysisResult>): (vs: seq<View>)
    ensures |vs| <= 3
  {
    (if !isLoading && !showResults then [UploadView] else [])
    + (if isLoading then [LoadingView] else [])
    + (if showResults && result.Some? then [ResultsView(result.value)] else [])
  }

  /** In every state the session can reach, exactly one block is shown. */
  lemma ExactlyOneView(isLoading: bool, showResults: bool, result: Option<AnalysisResult>)
    requires !(isLoading && showResults)
    requires showResults ==> result.Some?
    ensures |ViewOf(isLoading, showResults, result)| == 1
    ensures ViewOf(isLoading, showResults, result)[0] ==
              if isLoading then LoadingView
              else if showResults then ResultsView(result.value)
              else UploadView
  {
  }

  // ------------------------------------------------------------ the session

  /** The page's state hooks. */
  class AnalyzerSession {
    var selectedFiles: seq<SelectedFile>
    var isLoading: bool
    var showResults: bool
    var analysisResult: Option<AnalysisResult>
    var errorMessage: string

    /** Results are shown only once there is a result, never while loading;
        the selection holds at most ten admissible files. */
    ghost predicate Valid()
      reads this
    {
      && (showResults ==> analysisResult.Some?)
      && !(isLoading && showResults)
      && |selectedFiles| <= MaxSelection
      && (forall j :: 0 <= j < |selectedFiles| ==> Admissible(selectedFiles[j]))
    }

    /** The blocks the main card shows now. */
    function Views(): seq<View>
      reads this
    {
      ViewOf(isLoading, showResults, analysisResult)
    }

    constructor()
      ensures Valid()
      ensures selectedFiles == [] && !isLoading && !showResults && analysisResult == None && errorMessage == ""
    {
      selectedFiles, isLoading, showResults, analysisResult, errorMessage := [], false, false, None, "";
    }

    /** `handleFiles`: each refused file overwrites the error text; if none
        was admissible nothing else happens; if the admissible ones would
        take the selection past ten, the limit message is shown; otherwise
        they are appended and the error is cleared. */
    method HandleFiles(files: seq<SelectedFile>)
      requires Valid()
      modifies this
      ensures Valid()
      ensures var valid := ValidFiles(files);
              if valid == [] then
                selectedFiles == old(selectedFiles) && errorMessage == LastRejection(files, old(errorMessage))
              else if |old(selectedFiles)| + |valid| > MaxSelection then
                selectedFiles == old(selectedFiles) && errorMessage == TooManyMessage
              else
                selectedFiles == old(selectedFiles) + valid && errorMessage == ""
      ensures isLoading == old(isLoading) && showResults == old(showResults) && analysisResult == old(analysisResult)
    {
      var valid: seq<SelectedFile> := [];
      var k := 0;
      while k < |files|
        invariant 0 <= k <= |files|
        invariant valid == ValidFiles(files[..k])
        invariant errorMessage == LastRejection(files[..k], old(errorMessage))
        invariant selectedFiles == old(selectedFiles) && isLoading == old(isLoading)
        invariant showResults == old(showResults) && analysisResult == old(analysisResult)
      {
        assert files[..k + 1][..k] == files[..k];
        var f := files[k];
        if !StartsWith(f.mimeType, "image/") {
          errorMessage := f.name + " is not an image file";
        } else if |f.data| > MaxFileSize {
          errorMessage := f.name + " is larger than 10MB";
        } else {
          valid := valid + [f];
        }
        k := k + 1;
      }
      assert files[..k] == files;
      if |valid| == 0 {
        return;
      }
      if |selectedFiles| + |valid| > MaxSelection {
        errorMessage := TooManyMessage;
        return;
      }
      ValidFilesSpec(files);
      selectedFiles := selectedFiles + valid;
      errorMessage := "";
    }

    /** `removeFile`: drops the file at `index`; the error text is left alone. */
    method RemoveFile(index: int)
      requires Valid()
      modifies this
      ensures Valid()
      ensures selectedFiles == DropIndex(old(selectedFiles), index)
      ensures isLoading == old(isLoading) && showResults == old(showResults)
      ensures analysisResult == old(analysisResult) && errorMessage == old(errorMessage)
    {
      DropIndexSpec(selectedFiles, index);
      selectedFiles := DropIndex(selectedFiles, index);
    }

    /** `resetAnalyzer`: back to an empty upload form. Loading is not touched. */
    method ResetAnalyzer()
      requires Valid()
      modifies this
      ensures Valid()
      ensures selectedFiles == [] && !showResults && analysisResult == None && errorMessage == ""
      ensures isLoading == old(isLoading)
    {
      selectedFiles, showResults, analysisResult, errorMessage := [], false, None, "";
    }

    /** The synchronous part of `analyzeImages`: nothing happens for an empty
        selection; otherwise the loading indicator replaces the form and the
        request for the selection is built. */
    method StartAnalysis(local: bool) returns (req: Option<Request>)
      requires Valid()
      modifies this
      ensures Valid()
      ensures old(selectedFiles) == [] ==> req == None && unchanged(this)
      ensures old(selectedFiles) != [] ==>
                && req == Some(RequestFor(old(selectedFiles), local))
                && isLoading && !showResults
      ensures selectedFiles == old(selectedFiles) && analysisResult == old(analysisResult)
      ensures errorMessage == old(errorMessage)
    {
      if |selectedFiles| == 0 {
        return None;
      }
      isLoading := true;
      showResults := false;
      var r := BuildRequest(selectedFiles, local);
      req := Some(r);
    }

    /** The part of `analyzeImages` after the request settles: a result is
        stored and shown (the error text is not cleared), a failure leaves its
        message; either way loading ends. */
    method FinishAnalysis(req: Request, reply: Reply)
      requires Valid()
      modifies this
      ensures Valid()
      ensures !isLoading
      ensures reply.Delivered? ==>
                analysisResult == Some(reply.result) && showResults && errorMessage == old(errorMessage)
      ensures !reply.Delivered? ==>
                && errorMessage == FailureMessage(reply, req.url)
                && analysisResult == old(analysisResult) && showResults == old(showResults)
      ensures selectedFiles == old(selectedFiles)
    {
      match reply {
        case Delivered(result) =>
          analysisResult := Some(result);
          showResults := true;
        case Rejected(status, statusText, detail) =>
          var thrown := ServiceErrorMessage(status, statusText, detail, req.url);
          errorMessage := "Analysis failed: " + UserMessage(thrown);
        case Thrown(message) =>
          errorMessage := "Analysis failed: " + UserMessage(message);
      }
      isLoading := false;
    }

    /** `analyzeImages` as a whole, with the server's answer to each request
        given as `server`. */
    method AnalyzeImages(local: bool, server: Request -> Reply)
      requires Valid()
      modifies this
      ensures Valid()
      ensures old(selectedFiles) == [] ==> unchanged(this)
      ensures old(selectedFiles) != [] ==>
                var reply := server(RequestFor(old(selectedFiles), local));
                && !isLoading
                && selectedFiles == old(selectedFiles)
                && (reply.Delivered? ==> analysisResult == Some(reply.result) && showResults && errorMessage == old(errorMessage))
                && (!reply.Delivered? ==>
                      errorMessage == FailureMessage(reply, ApiUrl(old(selectedFiles), local))
                      && analysisResult == old(analysisResult) && !showResults)
    {
      var req := StartAnalysis(local);
      if req.Some? {
        RequestSpec(selectedFiles, local);
        FinishAnalysis(req.value, server(req.value));
      }
    }
  }
}
