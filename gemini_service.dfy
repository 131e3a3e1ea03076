/** The service layer: how each call to the hosted generative-AI client is
    built, and how its outcome becomes the string or the error the views
    receive. The client itself is a total function parameter from a request
    to the way its promise settles, so every outcome it can have is covered. */
module GeminiService {
  import opened Js
  import opened JsString

  const SystemInstruction := "You are GreenBot, a helpful assistant from GreenGamesStudio. When asked about your model, you must reply that you are GreenFlash2.5."
  const TextModel := "gemini-2.5-flash"
  const ImageModel := "imagen-4.0-generate-001"
  const ResponseFailureMessage := "Failed to get a response from the AI. Please check your API key and network connection."
  const ImageFailureMessage := "Failed to generate image. Please check your API key and prompt."
  const NoImageMessage := "No image was generated."
  const PngDataUriPrefix := "data:image/png;base64,"

  /** A browser `File`: its MIME type and what reading it as a data URL
      delivers (`None` when the read fails). */
  datatype File = File(mimeType: string, dataUrl: Option<string>)

  /** A content part; `data` is `None` where the code would send `undefined`. */
  datatype Part = TextPart(text: string) | InlineDataPart(data: Option<string>, mimeType: string)

  datatype Contents = PromptContents(prompt: string) | PartsContents(parts: seq<Part>)

  datatype ContentRequest = ContentRequest(model: string, contents: Contents, systemInstruction: string)

  datatype ImageRequest = ImageRequest(model: string, prompt: string, numberOfImages: nat,
                                       outputMimeType: string, aspectRatio: string)

  /** `generateContent`: settles with the response's text. */
  type TextClient = ContentRequest -> Settled<string>

  /** `generateImages`: settles with `generatedImages`, the base64 bytes of
      each image, or `None` when the response carries no such array. */
  type ImageClient = ImageRequest -> Settled<Option<seq<string>>>

  /** `dataUrl.split(',')[1]`: the field between the first comma and the next
      one (or the end); `None` (`undefined`) when there is no comma. */
  function Base64Payload(dataUrl: string): (r: Option<string>)
    ensures r.None? <==> ',' !in dataUrl
    ensures r.Some? ==> ',' !in r.value
  {
    var fields := Split(dataUrl, ',');
    SplitJoin(dataUrl, ',');
    if |fields| > 1 then
      assert dataUrl == fields[0] + [','] + Join(fields[1..], ',');
      assert dataUrl[|fields[0]|] == ',';
      Some(fields[1])
    else
      None
  }

  /** The payload of a data URL `header,payload` (and of `header,payload,...`)
      is exactly `payload`. */
  lemma PayloadAfterFirstComma(header: string, payload: string, rest: string)
    requires ',' !in header && ',' !in payload
    requires rest == [] || rest[0] == ','
    ensures Base64Payload(header + "," + payload + rest) == Some(payload)
  {
    var s := header + "," + payload + rest;
    assert s == header + [','] + (payload + rest);
    SplitAtFirst(header, ',', payload + rest);
    if rest == [] {
      assert payload + rest == payload;
      SplitWhole(payload, ',');
    } else {
      assert payload + rest == payload + [','] + rest[1..];
      SplitAtFirst(payload, ',', rest[1..]);
    }
  }

  /** `fileToGenerativePart`: reads the file and wraps the base64 payload of
      its data URL with the file's own MIME type. A failed read rejects with
      the reader's `ProgressEvent`, which is not an `Error`. */
  function FileToGenerativePart(file: File): (r: Settled<Part>)
    ensures r.Resolved? <==> file.dataUrl.Some?
    ensures r.Resolved? ==> r.value.InlineDataPart? && r.value.mimeType == file.mimeType
    ensures r.Resolved? ==> r.value.data == Base64Payload(file.dataUrl.value)
    ensures r.Rejected? ==> r.reason == NonErrorValue
  {
    match file.dataUrl
    case None => Rejected(NonErrorValue)
    case Some(url) => Resolved(InlineDataPart(Base64Payload(url), file.mimeType))
  }

  /** The catch blocks of all three calls: whatever was thrown inside the
      `try` is replaced by an `Error` carrying a fixed message. */
  function Rethrow<T>(attempt: Settled<T>, message: string): (r: Settled<T>)
    ensures attempt.Resolved? ==> r == attempt
    ensures attempt.Rejected? ==> r == Rejected(ErrorObject(message))
  {
    match attempt
    case Resolved(_) => attempt
    case Rejected(_) => Rejected(ErrorObject(message))
  }

  function TextRequest(prompt: string): ContentRequest
  {
    ContentRequest(TextModel, PromptContents(prompt), SystemInstruction)
  }

  function ImageTextRequest(prompt: string, imagePart: Part): ContentRequest
  {
    ContentRequest(TextModel, PartsContents([TextPart(prompt), imagePart]), SystemInstruction)
  }

  function ImageGenerationRequest(prompt: string): ImageRequest
  {
    ImageRequest(ImageModel, prompt, 1, "image/png", "1:1")
  }

  /** The text-only request sends the prompt as the contents, with the fixed
      system instruction. */
  lemma TextRequestShape(prompt: string)
    ensures TextRequest(prompt).model == TextModel
    ensures TextRequest(prompt).contents == PromptContents(prompt)
    ensures TextRequest(prompt).systemInstruction == SystemInstruction
  {
  }

  /** The image-and-text request sends the prompt first and the image part
      second, with the same fixed system instruction. */
  lemma ImageTextRequestShape(prompt: string, imagePart: Part)
    ensures ImageTextRequest(prompt, imagePart).model == TextModel
    ensures ImageTextRequest(prompt, imagePart).contents == PartsContents([TextPart(prompt), imagePart])
    ensures ImageTextRequest(prompt, imagePart).systemInstruction == SystemInstruction
  {
  }

  /** The image request asks for exactly one square PNG for the prompt. */
  lemma ImageRequestShape(prompt: string)
    ensures ImageGenerationRequest(prompt).model == ImageModel
    ensures ImageGenerationRequest(prompt).prompt == prompt
    ensures ImageGenerationRequest(prompt).numberOfImages == 1
    ensures ImageGenerationRequest(prompt).outputMimeType == "image/png"
    ensures ImageGenerationRequest(prompt).aspectRatio == "1:1"
  {
  }

  /** `generateText`: the response text on success, otherwise the fixed
      response-failure error, whatever the cause. */
  function GenerateText(client: TextClient, prompt: string): (r: Settled<string>)
    ensures var outcome := client(TextRequest(prompt));
      && (r.Resolved? <==> outcome.Resolved?)
      && (r.Resolved? ==> r.value == outcome.value)
      && (r.Rejected? ==> r.reason == ErrorObject(ResponseFailureMessage))
  {
    Rethrow(client(TextRequest(prompt)), ResponseFailureMessage)
  }

  /** `generateTextWithImage`: reading the file and the call itself share one
      `try`, so a failure of either gives the same fixed error. */
  function GenerateTextWithImage(client: TextClient, prompt: string, image: File): (r: Settled<string>)
    ensures image.dataUrl.None? ==> r == Rejected(ErrorObject(ResponseFailureMessage))
    ensures image.dataUrl.Some? ==>
      var outcome := client(ImageTextRequest(prompt, InlineDataPart(Base64Payload(image.dataUrl.value), image.mimeType)));
      && (r.Resolved? <==> outcome.Resolved?)
      && (r.Resolved? ==> r.value == outcome.value)
    ensures r.Rejected? ==> r.reason == ErrorObject(ResponseFailureMessage)
  {
    var attempt :=
      match FileToGenerativePart(image)
      case Rejected(e) => Rejected(e)
      case Resolved(imagePart) => client(ImageTextRequest(prompt, imagePart));
    Rethrow(attempt, ResponseFailureMessage)
  }

  /** `data:image/png;base64,${bytes}`. */
  function PngDataUri(bytes: string): (uri: string)
    ensures StartsWith(uri, PngDataUriPrefix)
    ensures uri[|PngDataUriPrefix|..] == bytes
  {
    PngDataUriPrefix + bytes
  }

  /** The body of `generateImage`'s `try`: the first image as a data URI, or
      the "No image was generated." error when there is none. */
  function GenerateImageAttempt(outcome: Settled<Option<seq<string>>>): Settled<string>
  {
    match outcome
    case Rejected(e) => Rejected(e)
    case Resolved(images) =>
      if images.Some? && |images.value| > 0 then Resolved(PngDataUri(images.value[0]))
      else Rejected(ErrorObject(NoImageMessage))
  }

  /** `generateImage`: the first generated image as a PNG data URI; any
      failure, an empty result included, gives the fixed image-failure error. */
  function GenerateImage(client: ImageClient, prompt: string): (r: Settled<string>)
    ensures var outcome := client(ImageGenerationRequest(prompt));
      && (r.Resolved? <==> outcome.Resolved? && outcome.value.Some? && |outcome.value.value| > 0)
      && (r.Resolved? ==> r.value == PngDataUriPrefix + outcome.value.value[0])
      && (r.Rejected? ==> r.reason == ErrorObject(ImageFailureMessage))
  {
    Rethrow(GenerateImageAttempt(client(ImageGenerationRequest(prompt))), ImageFailureMessage)
  }

  /** The inner "No image was generated." never reaches the caller: it is
      thrown inside the same `try` and replaced by the catch. */
  lemma NoImageErrorReplaced(client: ImageClient, prompt: string)
    requires var outcome := client(ImageGenerationRequest(prompt));
      outcome.Resolved? && (outcome.value.None? || |outcome.value.value| == 0)
    ensures GenerateImageAttempt(client(ImageGenerationRequest(prompt))) == Rejected(ErrorObject(NoImageMessage))
    ensures GenerateImage(client, prompt) == Rejected(ErrorObject(ImageFailureMessage))
  {
  }

  /** No text call ever hands the raw cause of a failure to its caller: the
      caught message is always the fixed one. */
  lemma TextFailuresAreFixed(client: TextClient, prompt: string, image: File)
    ensures GenerateText(client, prompt).Rejected? ==>
      CaughtMessage(GenerateText(client, prompt).reason) == ResponseFailureMessage
    ensures GenerateTextWithImage(client, prompt, image).Rejected? ==>
      CaughtMessage(GenerateTextWithImage(client, prompt, image).reason) == ResponseFailureMessage
  {
  }

  /** The PNG data URI built by `generateImage` and the payload extraction of
      `fileToGenerativePart` are inverse: base64 bytes (which never contain a
      comma) come back unchanged. */
  lemma PngDataUriPayload(bytes: string)
    requires ',' !in bytes
    ensures Base64Payload(PngDataUri(bytes)) == Some(bytes)
  {
    assert PngDataUri(bytes) == "data:image/png;base64" + "," + bytes + [];
    PayloadAfterFirstComma("data:image/png;base64", bytes, []);
  }
}
