/** The chat view's conversation session: an append-only message log, the
    draft text, one staged image with its preview, and the busy flag. A
    request is issued by `Submit` and settles later in `Complete`; the
    service call in between is `Dispatch`. */
module ChatInterface {
  import opened Js
  import opened JsString
  import opened Types
  import opened GeminiService

  const Greeting := Message(Model, "Hello! I'm GreenBot. How can I help you today? You can also upload an image.", None)

  /** The call `handleSubmit` makes, with the draft captured before it is
      cleared. */
  datatype Request = TextOnly(prompt: string) | WithImage(prompt: string, image: File)

  /** The submit guard: `input.trim()` is non-empty or an image is staged. */
  predicate Accepts(input: string, image: Option<File>)
  {
    !IsBlank(input) || image.Some?
  }

  /** The guard holds exactly when an image is staged or the draft has a
      character that is not whitespace: an empty or whitespace-only draft
      needs an image, and an image alone is enough. */
  lemma AcceptsIff(input: string, image: Option<File>)
    ensures Accepts(input, image) <==>
      image.Some? || exists i :: 0 <= i < |input| && !IsWs(input[i])
  {
  }

  /** The User entry appended on submit: the raw, untrimmed draft, and the
      preview as its image when the preview is a non-empty string. */
  function UserMessage(input: string, preview: Option<string>): (m: Message)
    ensures m.role == User && m.text == input
    ensures m.image.Some? <==> Truthy(preview)
    ensures m.image.Some? ==> m.image == preview
  {
    Message(User, input, if Truthy(preview) then preview else None)
  }

  /** The call chosen by the staged image: with it, the image-and-text call;
      without it, the text-only call. Both get the draft as typed. */
  function RequestFor(input: string, image: Option<File>): (q: Request)
    ensures q.prompt == input
    ensures q.WithImage? <==> image.Some?
    ensures q.WithImage? ==> q.image == image.value
  {
    match image
    case Some(f) => WithImage(input, f)
    case None => TextOnly(input)
  }

  /** The awaited service call for a request: the text-only call or the
      image-and-text call; a failure of either is the fixed error. */
  function Dispatch(client: TextClient, q: Request): (r: Settled<string>)
    ensures q.TextOnly? ==> r == GenerateText(client, q.prompt)
    ensures q.WithImage? ==> r == GenerateTextWithImage(client, q.prompt, q.image)
    ensures r.Rejected? ==> r.reason == ErrorObject(ResponseFailureMessage)
  {
    match q
    case TextOnly(p) => GenerateText(client, p)
    case WithImage(p, f) => GenerateTextWithImage(client, p, f)
  }

  /** The entry appended when the call settles: a Model entry with the
      response text, or an Error entry with the caught message. */
  function ReplyMessage(reply: Settled<string>): (m: Message)
    ensures m.role != User && m.image.None?
    ensures m.role == Model <==> reply.Resolved?
    ensures reply.Resolved? ==> m.text == reply.value
    ensures reply.Rejected? ==> m.text == CaughtMessage(reply.reason)
  {
    match reply
    case Resolved(text) => Message(Model, text, None)
    case Rejected(e) => Message(Error, CaughtMessage(e), None)
  }

  /** A failed exchange always shows the fixed failure message, never the
      raw cause, whichever call the request went to. */
  lemma ErrorEntriesAreFixed(client: TextClient, q: Request)
    ensures ReplyMessage(Dispatch(client, q)).role == Error ==>
      ReplyMessage(Dispatch(client, q)).text == ResponseFailureMessage
  {
  }

  /** The shape of the log one request at a time produces: the greeting,
      then User entries at odd positions, each followed by its reply; the
      session is busy exactly when the last User entry has no reply yet. */
  predicate ExchangeLog(log: seq<Message>, busy: bool)
  {
    && |log| >= 1 && log[0] == Greeting
    && (forall i :: 1 <= i < |log| ==> (log[i].role == User <==> i % 2 == 1))
    && (busy <==> |log| % 2 == 0)
  }

  /** Appending a User entry to an idle log, or a reply to a busy one, keeps
      the shape and flips the busy flag. */
  lemma ExchangeLogAppend(log: seq<Message>, busy: bool, m: Message)
    requires ExchangeLog(log, busy)
    requires m.role == User <==> !busy
    ensures ExchangeLog(log + [m], !busy)
  {
    var l := log + [m];
    assert forall i :: 1 <= i < |log| ==> l[i] == log[i];
  }

  function Count(log: seq<Message>, role: Role): nat
    decreases |log|
  {
    if log == [] then 0
    else Count(log[..|log| - 1], role) + (if log[|log| - 1].role == role then 1 else 0)
  }

  /** Exactly one reply per request: after the greeting there are as many
      User entries as Model and Error entries together, plus the one
      awaiting its reply while busy. */
  lemma {:induction false} RepliesMatchRequests(log: seq<Message>, busy: bool)
    requires ExchangeLog(log, busy)
    ensures Count(log[1..], User) == Count(log[1..], Model) + Count(log[1..], Error) + (if busy then 1 else 0)
    decreases |log|
  {
    if |log| > 1 {
      var p := log[..|log| - 1];
      assert forall i :: 1 <= i < |p| ==> p[i] == log[i];
      assert ExchangeLog(p, !busy);
      RepliesMatchRequests(p, !busy);
      assert log[1..][..|log| - 2] == p[1..];
    }
  }

  class ChatSession {
    var messages: seq<Message>
    var input: string
    var image: Option<File>
    var imagePreview: Option<string>
    var isLoading: bool

    ghost predicate Valid()
      reads this
    {
      ExchangeLog(messages, isLoading)
    }

    /** The send button is enabled: not busy and the guard holds. */
    predicate SendEnabled()
      reads this
    {
      !isLoading && Accepts(input, image)
    }

    /** The text field is disabled while a request is in flight. */
    predicate TextInputEnabled()
      reads this
    {
      !isLoading
    }

    constructor ()
      ensures Valid()
      ensures messages == [Greeting] && input == ""
      ensures image.None? && imagePreview.None? && !isLoading
    {
      messages := [Greeting];
      input := "";
      image := None;
      imagePreview := None;
      isLoading := false;
    }

    /** Typing into the text field. */
    method EditInput(text: string)
      requires Valid() && TextInputEnabled()
      modifies this
      ensures Valid()
      ensures input == text
      ensures messages == old(messages) && image == old(image)
      ensures imagePreview == old(imagePreview) && isLoading == old(isLoading)
    {
      input := text;
    }

    /** `handleFileChange`: stages the first file, replacing any staged one;
      a missing or empty list changes nothing. The preview arrives later
      through `PreviewLoaded`. */
    method StageFiles(files: Option<seq<File>>)
      requires Valid()
      modifies this
      ensures Valid()
      ensures image == if files.Some? && |files.value| > 0 then Some(files.value[0]) else old(image)
      ensures messages == old(messages) && input == old(input)
      ensures imagePreview == old(imagePreview) && isLoading == old(isLoading)
    {
      if files.Some? && |files.value| > 0 {
        image := Some(files.value[0]);
      }
    }

    /** The file reader's `onloadend`: the preview becomes the reader's
      result, `None` when the read produced none. */
    method PreviewLoaded(result: Option<string>)
      requires Valid()
      modifies this
      ensures Valid()
      ensures imagePreview == result
      ensures messages == old(messages) && input == old(input)
      ensures image == old(image) && isLoading == old(isLoading)
    {
      imagePreview := result;
    }

    /** `clearImage`: unstages the image and drops its preview. */
    method ClearImage()
      requires Valid()
      modifies this
      ensures Valid()
      ensures image.None? && imagePreview.None?
      ensures messages == old(messages) && input == old(input) && isLoading == old(isLoading)
    {
      image := None;
      imagePreview := None;
    }

    /** `handleDrop`: stages the dropped files only when there is one and the
      first one's MIME type starts with "image/". */
    method Drop(files: Option<seq<File>>)
      requires Valid()
      modifies this
      ensures Valid()
      ensures image ==
        if files.Some? && |files.value| > 0 && StartsWith(files.value[0].mimeType, "image/")
        then Some(files.value[0]) else old(image)
      ensures messages == old(messages) && input == old(input)
      ensures imagePreview == old(imagePreview) && isLoading == old(isLoading)
    {
      if files.Some? && |files.value| > 0 {
        if StartsWith(files.value[0].mimeType, "image/") {
          StageFiles(files);
        }
      }
    }

    /** `handleSubmit` up to the awaited call. It is reachable only through
      the form, whose controls are disabled while busy. When the guard holds
      it appends the User entry, goes busy, clears the draft and returns the
      request built from the draft as it was; otherwise nothing changes.
      Either way sending is disabled afterwards. */
    method Submit() returns (sent: Option<Request>)
      requires Valid() && !isLoading
      modifies this
      ensures Valid()
      ensures sent.Some? <==> Accepts(old(input), old(image))
      ensures sent.None? ==>
        && messages == old(messages) && input == old(input) && image == old(image)
        && imagePreview == old(imagePreview) && isLoading == old(isLoading)
      ensures sent.Some? ==>
        && messages == old(messages) + [UserMessage(old(input), old(imagePreview))]
        && isLoading && input == "" && image.None? && imagePreview.None?
        && sent.value == RequestFor(old(input), old(image))
      ensures !SendEnabled()
    {
      if !Accepts(input, image) {
        return None;
      }
      var userMessage := UserMessage(input, imagePreview);
      var request := RequestFor(input, image);
      ExchangeLogAppend(messages, isLoading, userMessage);
      messages := messages + [userMessage];
      isLoading := true;
      input := "";
      ClearImage();
      sent := Some(request);
    }

    /** The rest of `handleSubmit`, once the call settles: one reply entry is
      appended and the session is no longer busy; the draft is untouched. */
    method Complete(reply: Settled<string>)
      requires Valid() && isLoading
      modifies this
      ensures Valid()
      ensures messages == old(messages) + [ReplyMessage(reply)]
      ensures !isLoading
      ensures input == old(input) && image == old(image) && imagePreview == old(imagePreview)
    {
      ExchangeLogAppend(messages, isLoading, ReplyMessage(reply));
      messages := messages + [ReplyMessage(reply)];
      isLoading := false;
    }
  }

  /** One exchange with a service that answers "Hi there!". */
  method HelloExchange() returns (log: seq<Message>, busy: bool)
    ensures log == [Greeting, Message(User, "Hello", None), Message(Model, "Hi there!", None)]
    ensures !busy
  {
    var session := new ChatSession();
    session.EditInput("Hello");
    assert !IsWs("Hello"[0]);
    assert Accepts("Hello", None);
    var sent := session.Submit();
    assert sent == Some(TextOnly("Hello"));
    var client: TextClient := req => Resolved("Hi there!");
    var reply := Dispatch(client, sent.value);
    assert reply == Resolved("Hi there!");
    session.Complete(reply);
    log, busy := session.messages, session.isLoading;
  }
}
