/**
 * The POST handler of the enhancement endpoint: validation of the JSON body,
 * the call to the enhancement service, and the fallback answer when the
 * handler throws.
 */
module EnhanceRoute {
  import opened Optional
  import opened Text
  import opened Enhance

  /** The `text` member of the decoded body: absent, `null`, or a string. */
  datatype TextField = Missing | Null | Str(s: string)

  /**
   * The request body: decoded JSON with its `text` member, or a body on which
   * `const { text } = await request.json()` throws (bytes that are not JSON,
   * or the JSON value `null`).
   */
  datatype Body = Parsed(text: TextField) | Unparseable

  /** The largest accepted length, in JavaScript `length` units (UTF-16 code units). */
  const MaxLength: int := 5000

  const MissingTextError: string := "텍스트가 필요합니다."
  const TooLongError: string := "텍스트가 너무 깁니다. (최대 5000자)"
  const UnstableWarning: string := "서비스가 일시적으로 불안정합니다."
  const MaintenanceHead: string := "✨ AI 추억보정 (서비스 점검 중)\n\n"
  const MaintenanceTail: string := "\n\n현재 AI 서비스가 점검 중입니다. \n원본 일기는 안전하게 저장되었으니 나중에 다시 시도해주세요.\n\n*서비스 이용에 불편을 드려 죄송합니다.*"

  /** A JSON response: an error object with its status, or an enhanced text with an optional warning (status 200). */
  datatype Response = ErrorJson(status: int, error: string) | EnhancedJson(enhancedText: string, warning: Option<string>)

  function Status(r: Response): int {
    match r
    case ErrorJson(status, _) => status
    case EnhancedJson(_, _) => 200
  }

  /** The response, and the argument `enhanceDiary` was called with, if it was called. */
  datatype Handled = Handled(response: Response, enhanceArg: Option<string>)

  /** `!text`: absent, null, or the empty string. A string of spaces is not falsy. */
  predicate Falsy(f: TextField) {
    f.Missing? || f.Null? || (f.Str? && f.s == "")
  }

  /** The fallback answer of the catch block, around the `text` its second read of the body yields. */
  function MaintenanceText(text: string): string {
    MaintenanceHead + text + MaintenanceTail
  }

  /**
   * The catch block reads the body a second time. The first read has already
   * consumed it, so the second `request.json()` rejects, and its `.catch`
   * supplies `{ text: '' }`: the placeholder always has an empty middle.
   */
  const FallbackText: string := MaintenanceText("")

  /** The body passes validation: a non-empty string of at most 5000 UTF-16 code units. */
  predicate Accepted(b: Body) {
    b.Parsed? && b.text.Str? && b.text.s != "" && Utf16Length(b.text.s) <= MaxLength
  }

  /**
   * `POST`. Missing or empty text: 400 with an error, and no call. More than
   * 5000 code units: 400, no call. Otherwise the service is called with the
   * text and its answer returned with no warning. When the handler throws
   * (the body cannot be decoded), the answer is a 200 with the maintenance
   * placeholder and a warning; the placeholder carries no diary text. No path
   * answers with a 5xx status.
   */
  function Post(svc: Service, body: Body, reply: ModelReply): (h: Handled)
    ensures Status(h.response) == 400 || Status(h.response) == 200
    ensures h.enhanceArg.Some? <==> Accepted(body)
    ensures Accepted(body) ==> h.enhanceArg == Some(body.text.s)
    ensures Accepted(body) ==> h.response == EnhancedJson(EnhanceDiary(svc, body.text.s, reply).text, None)
    ensures body.Parsed? && Falsy(body.text) ==> h.response == ErrorJson(400, MissingTextError)
    ensures body.Parsed? && body.text.Str? && Utf16Length(body.text.s) > MaxLength
        ==> h.response == ErrorJson(400, TooLongError)
    ensures h.response.EnhancedJson? && h.response.warning.Some? <==> body.Unparseable?
    ensures body.Unparseable? ==> h.response.warning == Some(UnstableWarning)
    ensures body.Unparseable? ==> h.response.enhancedText == MaintenanceHead + MaintenanceTail
  {
    match body
    case Unparseable =>
      Handled(EnhancedJson(FallbackText, Some(UnstableWarning)), None)
    case Parsed(field) =>
      if Falsy(field) then Handled(ErrorJson(400, MissingTextError), None)
      else if Utf16Length(field.s) > MaxLength then Handled(ErrorJson(400, TooLongError), None)
      else Handled(EnhancedJson(EnhanceDiary(svc, field.s, reply).text, None), Some(field.s))
  }

  /** Only falsiness is checked: a non-empty text of spaces reaches the service. */
  lemma BlankTextAccepted(svc: Service, n: nat, reply: ModelReply)
    requires 1 <= n <= MaxLength
    ensures var spaces := seq(n, _ => ' ');
      Post(svc, Parsed(Str(spaces)), reply).enhanceArg == Some(spaces)
  {
    var spaces := seq(n, _ => ' ');
    Utf16LengthBounds(spaces);
  }

  /** The cap counts code units: 2501 characters outside the Basic Multilingual Plane (5002 units) are rejected. */
  lemma AstralTextRejected(svc: Service, s: string, reply: ModelReply)
    requires |s| == 2501
    requires forall i :: 0 <= i < |s| ==> s[i] as int > 0xFFFF
    ensures Post(svc, Parsed(Str(s)), reply).response == ErrorJson(400, TooLongError)
  {
    AstralLength(s);
  }

  lemma {:induction false} AstralLength(s: string)
    requires forall i :: 0 <= i < |s| ==> s[i] as int > 0xFFFF
    ensures Utf16Length(s) == 2 * |s|
  {
    if s != [] {
      assert forall i :: 0 <= i < |s[1..]| ==> s[1..][i] == s[i + 1];
      AstralLength(s[1..]);
    }
  }
}
