/**
 * The mock analysis route: the guards on the `image` form entry, the score
 * drawn at random, and the assessment chosen by the score's band.
 */
module AnalyzeRoute {

  import opened Wrappers
  import opened Web

  const AcceptedImageTypes: seq<string> := ["image/png", "image/jpeg", "image/jpg", "image/gif"]

  const NoImageError := "No image provided"
  const InvalidTypeError := "Invalid file type. Please upload a PNG, JPG, or GIF image."
  const FailedError := "Failed to analyze conversation. Please try again."

  const StrongAssessment := "The conversation shows strong indicators of romantic interest. The person demonstrates consistent engagement, uses emotionally expressive language, and responds with enthusiasm. They appear to prioritize your conversations and show genuine curiosity about you. The linguistic patterns suggest they're invested in building a deeper connection."
  const PositiveAssessment := "There are positive signs of romantic interest in this conversation. The person shows good engagement and uses warm, friendly language. While not overtly romantic, the patterns suggest they enjoy talking with you and value your connection. Their responses indicate interest, though they may be taking things slowly or being cautious."
  const MixedAssessment := "The conversation shows mixed signals. While there's friendly engagement, the romantic interest indicators are moderate. They respond but may not always initiate or show deep emotional investment. This could mean they're interested but uncertain, prefer taking things very slow, or see you primarily as a friend but are open to more."
  const LimitedAssessment := "Based on the conversation patterns, romantic interest appears limited. The responses are friendly but show characteristics more typical of platonic relationships. The language lacks romantic undertones, emotional depth is moderate, and engagement patterns suggest casual friendship rather than romantic pursuit. However, remember that some people express interest differently or may be very reserved."

  /** The four assessments, strongest first. */
  const Assessments: seq<string> := [StrongAssessment, PositiveAssessment, MixedAssessment, LimitedAssessment]

  /**
   * The band of a score: 0 from 80 up, 1 from 70, 2 from 50, 3 below. Each
   * score falls in exactly one band.
   */
  function ScoreBand(score: int): (b: nat)
    ensures b < 4
    ensures b == 0 <==> score >= 80
    ensures b == 1 <==> 70 <= score < 80
    ensures b == 2 <==> 50 <= score < 70
    ensures b == 3 <==> score < 50
  {
    if score >= 80 then 0 else if score >= 70 then 1 else if score >= 50 then 2 else 3
  }

  /** A higher score never falls in a weaker band. */
  lemma ScoreBandMonotone(lower: int, higher: int)
    requires lower <= higher
    ensures ScoreBand(higher) <= ScoreBand(lower)
  {
  }

  /** `overallAssessment`, set to the empty string and then overwritten by the branch of the score's band. */
  method SelectAssessment(score: int) returns (assessment: string)
    ensures assessment == Assessments[ScoreBand(score)]
  {
    assessment := "";
    if score >= 80 {
      assessment := StrongAssessment;
    } else if score >= 70 {
      assessment := PositiveAssessment;
    } else if score >= 50 {
      assessment := MixedAssessment;
    } else {
      assessment := LimitedAssessment;
    }
  }

  /** What the route answers: an error status with its message, or the score and its assessment. */
  datatype AnalyzeResponse =
    | AnalyzeRejected(status: nat, error: string)
    | Scored(score: int, overallAssessment: string)

  /**
   * The two guards on the `image` entry. A missing entry or an empty string
   * is no image; a non-empty string has no `type`, so it fails the type
   * check like a file of another type (the check is exact: no lower-casing).
   */
  function ImageGuard(request: FormRequest): (r: Option<AnalyzeResponse>)
    requires request.Form?
    ensures r.None? <==> request.Entry("image").Upload? && request.Entry("image").file.mimeType in AcceptedImageTypes
    ensures r.Some? ==> r.value.AnalyzeRejected? && r.value.status == 400
    ensures r == Some(AnalyzeRejected(400, NoImageError)) <==> request.Entry("image") in {Absent, Text("")}
    ensures r.Some? && r != Some(AnalyzeRejected(400, NoImageError)) ==> r.value.error == InvalidTypeError
  {
    match request.Entry("image")
    case Absent => Some(AnalyzeRejected(400, NoImageError))
    case Text(t) =>
      if t == "" then Some(AnalyzeRejected(400, NoImageError)) else Some(AnalyzeRejected(400, InvalidTypeError))
    case Upload(file) =>
      if file.mimeType !in AcceptedImageTypes then Some(AnalyzeRejected(400, InvalidTypeError)) else None
  }

  /**
   * The route, with `draw` the value of `Math.floor(Math.random() * 45)`.
   * The guards decide before any score exists; a scored answer carries the
   * score that chose its assessment, and that score is never below 50.
   */
  method Post(request: FormRequest, draw: nat) returns (response: AnalyzeResponse)
    requires draw < 45
    ensures request.Unreadable? ==> response == AnalyzeRejected(500, FailedError)
    ensures request.Form? && ImageGuard(request).Some? ==> response == ImageGuard(request).value
    ensures response.Scored? <==> request.Form? && ImageGuard(request).None?
    ensures response.Scored? ==>
      && response.score == 50 + draw
      && 50 <= response.score <= 94
      && response.overallAssessment == Assessments[ScoreBand(response.score)]
      && response.overallAssessment != LimitedAssessment
  {
    if request.Unreadable? {
      return AnalyzeRejected(500, FailedError);
    }
    var rejection := ImageGuard(request);
    if rejection.Some? {
      return rejection.value;
    }
    var score := draw + 50;
    var assessment := SelectAssessment(score);
    response := Scored(score, assessment);
  }
}
