/**
 * The enhancement service: a branch on configuration around one call to the
 * language model, which is an oracle here. Every path yields a string.
 */
module Enhance {
  import opened Optional
  import opened Text

  /** The placeholder value shipped in the sample environment file. */
  const PlaceholderApiKey: string := "your_anthropic_api_key"

  /** `isAnthropicConfigured`: the key is set, non-empty and not the placeholder. */
  predicate IsAnthropicConfigured(apiKey: string) {
    apiKey != "" && apiKey != PlaceholderApiKey
  }

  /** The module state fixed at load time: the key, and whether the client was constructed. */
  datatype Service = Service(apiKey: string, hasClient: bool)

  /** Loading the module constructs the client exactly when the key is configured. */
  function LoadService(apiKey: string): Service {
    Service(apiKey, IsAnthropicConfigured(apiKey))
  }

  /** The guard `!anthropic || !isAnthropicConfigured()`, negated: the service will call the model. */
  predicate Ready(svc: Service) {
    svc.hasClient && IsAnthropicConfigured(svc.apiKey)
  }

  /** A loaded service calls the model exactly when its key is configured. */
  lemma LoadedServiceReady(apiKey: string)
    ensures Ready(LoadService(apiKey)) <==> IsAnthropicConfigured(apiKey)
  {
  }

  /** What the model call does: its first content block is text, is another kind, is missing, or the call throws. */
  datatype ModelReply = TextFirst(text: string) | NonTextFirst | NoContent | CallThrows

  /** The request sent to the model. */
  datatype ModelRequest = ModelRequest(model: string, maxTokens: int, prompt: string)

  const ModelName: string := "claude-3-sonnet-20240229"
  const MaxTokens: int := 1000

  const DemoHead: string := "✨ AI 추억보정 (데모 모드)\n\n"
  const DemoTail: string := "\n\n오늘 하루를 돌아보니, 평범해 보이는 순간들도 나름의 의미가 있었다. \n이런 작은 일상들이 모여 소중한 추억이 되어간다는 것을 새삼 깨닫게 된다.\n\n*참고: 실제 AI 기능을 사용하려면 Anthropic API 키를 설정해주세요.*"
  const ErrorHead: string := "✨ AI 추억보정 (오류 발생)\n\n"
  const ErrorTail: string := "\n\n현재 AI 서비스에 일시적인 문제가 발생했습니다. \n잠시 후 다시 시도해주세요.\n\n*원본 일기는 그대로 보관되니 걱정하지 마세요.*"
  const PromptHead: string := "다음은 사용자가 간략하게 적은 오늘의 일기입니다. 이를 아름답고 감성적인 문체로 다시 써주세요. \n          단, 내용을 과장하거나 사실과 다르게 쓰지 말고, 사용자가 느꼈을 감정과 상황을 더 풍부하게 표현해주세요.\n          문학적이고 서정적인 표현을 사용하되, 자연스럽고 읽기 좋게 작성해주세요.\n\n          원본 일기:\n          "
  const PromptTail: string := "\n\n          개선된 일기를 작성해주세요:"
  /** Returned when the first block of the reply is not text. */
  const ConversionFailed: string := "일기 변환에 실패했습니다."

  /** The demo-mode answer: a labelled placeholder around the original text. */
  function DemoText(original: string): string {
    DemoHead + original + DemoTail
  }

  /** The answer after a failed model call: a labelled placeholder around the original text. */
  function ErrorText(original: string): string {
    ErrorHead + original + ErrorTail
  }

  /** The single user message sent to the model. */
  function Prompt(original: string): string {
    PromptHead + original + PromptTail
  }

  /** The text returned, and the request made to the model, if any. */
  datatype Enhancement = Enhancement(text: string, request: Option<ModelRequest>)

  /**
   * `enhanceDiary`. The model is called, once, exactly when the service is
   * ready, with a prompt that embeds the original text. Not ready: the demo
   * placeholder. Call throws, or the reply has no content block: the error
   * placeholder. Both placeholders embed the original verbatim. A text first
   * block is returned unchanged; any other block gives the fixed failure
   * message. No path throws.
   */
  function EnhanceDiary(svc: Service, original: string, reply: ModelReply): (r: Enhancement)
    ensures r.request.Some? <==> Ready(svc)
    ensures r.request.Some? ==> r.request.value == ModelRequest(ModelName, MaxTokens, Prompt(original))
    ensures r.request.Some? ==> Contains(r.request.value.prompt, original)
    ensures !Ready(svc) ==> r.text == DemoText(original) && Contains(r.text, original)
    ensures Ready(svc) && (reply.CallThrows? || reply.NoContent?)
        ==> r.text == ErrorText(original) && Contains(r.text, original)
    ensures Ready(svc) && reply.TextFirst? ==> r.text == reply.text
    ensures Ready(svc) && reply.NonTextFirst? ==> r.text == ConversionFailed
  {
    if !Ready(svc) then
      ContainsMiddle(DemoHead, original, DemoTail);
      Enhancement(DemoText(original), None)
    else
      var request := ModelRequest(ModelName, MaxTokens, Prompt(original));
      ContainsMiddle(PromptHead, original, PromptTail);
      match reply
      case TextFirst(t) => Enhancement(t, Some(request))
      case NonTextFirst => Enhancement(ConversionFailed, Some(request))
      case NoContent | CallThrows =>
        ContainsMiddle(ErrorHead, original, ErrorTail);
        Enhancement(ErrorText(original), Some(request))
  }

  /**
   * Whatever the model does, a caller's text survives: either the model's own
   * text comes back or the answer contains the original verbatim, except for
   * a non-text first block.
   */
  lemma OriginalNeverLost(svc: Service, original: string, reply: ModelReply)
    ensures var r := EnhanceDiary(svc, original, reply);
      (Ready(svc) && reply.TextFirst?) || (Ready(svc) && reply.NonTextFirst?) || Contains(r.text, original)
  {
  }
}
