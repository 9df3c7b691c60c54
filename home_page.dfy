/**
 * The landing page's state and its handlers, without rendering: choosing a
 * file, starting and finishing an analysis, resetting, and the message
 * shown beside a score.
 */
module HomePage {

  import opened Wrappers
  import opened Web
  import AnalyzeRoute

  const PickerImageTypes: seq<string> := ["image/png", "image/jpeg", "image/jpg", "image/gif"]
  const MaxFileBytes: nat := 10 * 1024 * 1024

  const TypeError := "Please upload a PNG, JPG, or GIF image"
  const SizeError := "File size must be less than 10MB"
  const UploadFirstError := "Please upload a screenshot first"
  const AnalysisFailedError := "Analysis failed"
  const UnknownFailureError := "Failed to analyze conversation. Please try again."

  const StrongMessage := "Strong romantic interest detected! \U{1F495}"
  const InterestedMessage := "They seem genuinely interested! \U{1F60A}"
  const MixedMessage := "Mixed signals - proceed with caution \U{1F914}"
  const FriendsMessage := "Likely just friends \U{1F91D}"

  /** The result the analysis route returns, as the page stores it. */
  datatype AnalysisResult = AnalysisResult(score: int, overallAssessment: string)

  /**
   * How the request started by `HandleAnalyze` ends: the route's result; a
   * response that is not ok, with the `error` field of its body (empty when
   * absent); a thrown `Error` with its message; or a thrown non-`Error`.
   */
  datatype AnalyzeReply =
    | Delivered(result: AnalysisResult)
    | NotOk(errorField: string)
    | ThrewError(message: string)
    | ThrewOther

  /** The file checks of `handleFileSelect`: an accepted type, then at most 10 MiB. */
  predicate PickerAccepts(file: File)
  {
    file.mimeType in PickerImageTypes && file.Size() <= MaxFileBytes
  }

  /**
   * The message the page shows for a failed analysis: a response that is not
   * ok throws an `Error` with the body's `error` field or `Analysis failed`;
   * an `Error`'s own message is shown as it is; anything else thrown gives
   * the fixed fallback.
   */
  function FailureMessage(reply: AnalyzeReply): (m: string)
    requires !reply.Delivered?
    ensures reply.NotOk? ==> m != ""
  {
    match reply
    case NotOk(field) => if field != "" then field else AnalysisFailedError
    case ThrewError(message) => message
    case ThrewOther => UnknownFailureError
  }

  class Home {
    var selectedFile: Option<File>
    var showResults: bool
    var analysisResult: Option<AnalysisResult>
    var isAnalyzing: bool
    var error: string

    /** A selected file always passed the picker's checks, and results are shown only when there are some. */
    ghost predicate Valid()
      reads this
    {
      && (selectedFile.Some? ==> PickerAccepts(selectedFile.value))
      && (showResults ==> analysisResult.Some?)
    }

    /** The initial state of the page. */
    constructor ()
      ensures Valid()
      ensures selectedFile == None && !showResults && analysisResult == None && !isAnalyzing && error == ""
    {
      selectedFile := None;
      showResults := false;
      analysisResult := None;
      isAnalyzing := false;
      error := "";
    }

    /**
     * `handleFileSelect`: a file of another type sets the type error, then a
     * file over 10 MiB sets the size error, in both cases keeping the earlier
     * selection; any other file is selected and clears the error.
     */
    method HandleFileSelect(file: File)
      requires Valid()
      modifies this
      ensures Valid()
      ensures file.mimeType !in PickerImageTypes ==> error == TypeError && selectedFile == old(selectedFile)
      ensures file.mimeType in PickerImageTypes && file.Size() > MaxFileBytes ==>
        error == SizeError && selectedFile == old(selectedFile)
      ensures PickerAccepts(file) ==> selectedFile == Some(file) && error == ""
      ensures showResults == old(showResults) && analysisResult == old(analysisResult)
      ensures isAnalyzing == old(isAnalyzing)
    {
      if file.mimeType !in PickerImageTypes {
        error := TypeError;
        return;
      }
      if file.Size() > MaxFileBytes {
        error := SizeError;
        return;
      }
      selectedFile := Some(file);
      error := "";
    }

    /**
     * `handleAnalyze` up to its request: without a selected file it only sets
     * the upload-first error; with one it marks the analysis as running,
     * clears the error and hides the results, and the file it will send
     * passes the analysis route's image guard.
     */
    method HandleAnalyze() returns (started: bool)
      requires Valid()
      modifies this
      ensures Valid()
      ensures started <==> old(selectedFile).Some?
      ensures !started ==>
        error == UploadFirstError && isAnalyzing == old(isAnalyzing) && showResults == old(showResults)
        && analysisResult == old(analysisResult)
      ensures started ==> isAnalyzing && error == "" && !showResults && analysisResult == old(analysisResult)
      ensures selectedFile == old(selectedFile)
      ensures started ==> AnalyzeRoute.ImageGuard(Form(map["image" := Upload(selectedFile.value)])).None?
    {
      if selectedFile.None? {
        error := UploadFirstError;
        return false;
      }
      SelectedFilePassesRouteGuard(selectedFile.value);
      isAnalyzing := true;
      error := "";
      showResults := false;
      started := true;
    }

    /**
     * The rest of `handleAnalyze`, once the request is answered: a result is
     * stored and shown, a failure sets its message, and either way the
     * analysis stops running.
     */
    method FinishAnalyze(reply: AnalyzeReply)
      requires Valid()
      modifies this
      ensures Valid()
      ensures !isAnalyzing && selectedFile == old(selectedFile)
      ensures reply.Delivered? ==>
        analysisResult == Some(reply.result) && showResults && error == old(error)
      ensures !reply.Delivered? ==>
        error == FailureMessage(reply) && analysisResult == old(analysisResult) && showResults == old(showResults)
    {
      if reply.Delivered? {
        analysisResult := Some(reply.result);
        showResults := true;
      } else {
        error := FailureMessage(reply);
      }
      isAnalyzing := false;
    }

    /** `handleReset`: no file, no result, results hidden, no error. */
    method HandleReset()
      requires Valid()
      modifies this
      ensures Valid()
      ensures selectedFile == None && !showResults && analysisResult == None && error == ""
      ensures isAnalyzing == old(isAnalyzing)
    {
      selectedFile := None;
      showResults := false;
      analysisResult := None;
      error := "";
    }
  }

  /** `getScoreMessage`: one of four fixed messages, by the thresholds 80, 70 and 50. */
  function ScoreMessage(score: int): (m: string)
    ensures m == StrongMessage <==> score >= 80
    ensures m == InterestedMessage <==> 70 <= score < 80
    ensures m == MixedMessage <==> 50 <= score < 70
    ensures m == FriendsMessage <==> score < 50
  {
    if score >= 80 then StrongMessage
    else if score >= 70 then InterestedMessage
    else if score >= 50 then MixedMessage
    else FriendsMessage
  }

  /** The page's messages, in the order of the route's bands. */
  const ScoreMessages: seq<string> := [StrongMessage, InterestedMessage, MixedMessage, FriendsMessage]

  /**
   * The message the page shows for a score is the one of the band that chose
   * the route's assessment, so a stronger score never shows a weaker message.
   */
  lemma ScoreMessageFollowsBand(score: int)
    ensures ScoreMessage(score) == ScoreMessages[AnalyzeRoute.ScoreBand(score)]
  {
  }

  /** No score the mock route produces is shown as "just friends". */
  lemma RouteScoresNeverJustFriends(draw: nat)
    requires draw < 45
    ensures ScoreMessage(50 + draw) != FriendsMessage
  {
  }

  /**
   * A file the page lets the user select passes the analysis route's image
   * guard: the page and the route accept the same types.
   */
  lemma SelectedFilePassesRouteGuard(file: File)
    requires PickerAccepts(file)
    ensures AnalyzeRoute.ImageGuard(Form(map["image" := Upload(file)])).None?
  {
  }
}
