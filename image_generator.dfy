/** The image-generation view: a single-slot session of a prompt, the last
    image URL, the last error and the busy flag. `Submit` issues the request
    and `Complete` records how it settled. */
module ImageGenerator {
  import opened Js
  import opened JsString
  import opened GeminiService

  const DownloadPrefix := "greenbot-generated-"
  const DownloadSuffix := ".png"

  /** The session's state, read off the four fields. */
  datatype Status = Idle | Generating | Succeeded | Failed

  /** Busy means nothing is shown yet; an image URL and an error are never
      both present. */
  predicate SessionInvariant(isLoading: bool, imageUrl: Option<string>, error: Option<string>)
  {
    && (isLoading ==> imageUrl.None? && error.None?)
    && !(imageUrl.Some? && error.Some?)
  }

  function StatusOf(isLoading: bool, imageUrl: Option<string>, error: Option<string>): Status
  {
    if isLoading then Generating
    else if imageUrl.Some? then Succeeded
    else if error.Some? then Failed
    else Idle
  }

  /** Under the invariant the status says exactly which field is set. */
  lemma StatusMeaning(isLoading: bool, imageUrl: Option<string>, error: Option<string>)
    requires SessionInvariant(isLoading, imageUrl, error)
    ensures var s := StatusOf(isLoading, imageUrl, error);
      && (s == Generating <==> isLoading)
      && (s == Succeeded <==> !isLoading && imageUrl.Some? && error.None?)
      && (s == Failed <==> !isLoading && error.Some? && imageUrl.None?)
      && (s == Idle <==> !isLoading && imageUrl.None? && error.None?)
  {
  }

  /** Which of the result area's four blocks the view renders: the spinner,
      the error text, the image with its download link, the placeholder. */
  datatype Regions = Regions(spinner: bool, errorText: bool, image: bool, placeholder: bool)

  function RegionsShown(isLoading: bool, imageUrl: Option<string>, error: Option<string>): Regions
  {
    Regions(isLoading, Truthy(error), Truthy(imageUrl) && !isLoading,
            !isLoading && !Truthy(imageUrl) && !Truthy(error))
  }

  function Shown(b: bool): nat
  {
    if b then 1 else 0
  }

  /** In every reachable state the result area shows exactly one block; the
      image only with a (non-empty) URL and not while busy, the placeholder
      exactly when nothing else is there. */
  lemma ExactlyOneRegion(isLoading: bool, imageUrl: Option<string>, error: Option<string>)
    requires SessionInvariant(isLoading, imageUrl, error)
    ensures var v := RegionsShown(isLoading, imageUrl, error);
      && Shown(v.spinner) + Shown(v.errorText) + Shown(v.image) + Shown(v.placeholder) == 1
      && (v.image ==> imageUrl.Some? && !isLoading)
      && (v.placeholder <==> !v.spinner && !v.errorText && !v.image)
  {
  }

  /** The download name `greenbot-generated-${timestamp}.png`. */
  function DownloadName(timestamp: nat): (name: string)
    ensures StartsWith(name, DownloadPrefix)
    ensures |name| >= |DownloadPrefix| + |DownloadSuffix| + 1
    ensures name[|name| - |DownloadSuffix|..] == DownloadSuffix
    ensures name[|DownloadPrefix|..|name| - |DownloadSuffix|] == DecimalString(timestamp)
  {
    DownloadPrefix + DecimalString(timestamp) + DownloadSuffix
  }

  /** Downloads made at distinct times get distinct names. */
  lemma DownloadNamesDistinct(a: nat, b: nat)
    requires a != b
    ensures DownloadName(a) != DownloadName(b)
  {
    DecimalInjective(a, b);
  }

  class GeneratorSession {
    var prompt: string
    var imageUrl: Option<string>
    var isLoading: bool
    var error: Option<string>

    ghost predicate Valid()
      reads this
    {
      SessionInvariant(isLoading, imageUrl, error)
    }

    function Status(): Status
      reads this
    {
      StatusOf(isLoading, imageUrl, error)
    }

    /** The Generate button is enabled: not busy and the prompt not blank. */
    predicate SubmitEnabled()
      reads this
    {
      !isLoading && !IsBlank(prompt)
    }

    /** The prompt field is disabled while busy. */
    predicate PromptInputEnabled()
      reads this
    {
      !isLoading
    }

    constructor ()
      ensures Valid() && Status() == Idle
      ensures prompt == "" && imageUrl.None? && error.None? && !isLoading
    {
      prompt := "";
      imageUrl := None;
      isLoading := false;
      error := None;
    }

    /** Typing into the prompt field. */
    method EditPrompt(text: string)
      requires Valid() && PromptInputEnabled()
      modifies this
      ensures Valid()
      ensures prompt == text
      ensures imageUrl == old(imageUrl) && error == old(error) && isLoading == old(isLoading)
    {
      prompt := text;
    }

    /** `handleSubmit` up to the awaited call; nothing can submit while busy.
      A blank prompt changes nothing; otherwise the session goes busy, both
      previous results are cleared, and the prompt as typed is sent. */
    method Submit() returns (sent: Option<string>)
      requires Valid() && !isLoading
      modifies this
      ensures Valid()
      ensures sent.Some? <==> !IsBlank(old(prompt))
      ensures prompt == old(prompt)
      ensures sent.None? ==>
        imageUrl == old(imageUrl) && error == old(error) && isLoading == old(isLoading)
      ensures sent.Some? ==>
        && sent.value == prompt
        && isLoading && error.None? && imageUrl.None? && Status() == Generating
      ensures !SubmitEnabled()
    {
      if IsBlank(prompt) {
        return None;
      }
      isLoading := true;
      error := None;
      imageUrl := None;
      sent := Some(prompt);
    }

    /** The rest of `handleSubmit`, once the call settles: exactly one of the
      URL and the error is set, and the session is no longer busy. */
    method Complete(result: Settled<string>)
      requires Valid() && isLoading
      modifies this
      ensures Valid()
      ensures !isLoading && prompt == old(prompt)
      ensures imageUrl.Some? != error.Some?
      ensures result.Resolved? ==>
        imageUrl == Some(result.value) && error.None? && Status() == Succeeded
      ensures result.Rejected? ==>
        error == Some(CaughtMessage(result.reason)) && imageUrl.None? && Status() == Failed
    {
      match result {
        case Resolved(url) => imageUrl := Some(url);
        case Rejected(e) => error := Some(CaughtMessage(e));
      }
      isLoading := false;
    }
  }

  /** A generation whose service call fails with "quota exceeded". */
  method FailedGeneration() returns (status: Status, prompt: string, error: Option<string>)
    ensures status == Failed && prompt == "a red cube"
    ensures error == Some(ImageFailureMessage)
  {
    var session := new GeneratorSession();
    session.EditPrompt("a red cube");
    assert !IsWs("a red cube"[0]);
    var sent := session.Submit();
    var client: ImageClient := req => Rejected(ErrorObject("quota exceeded"));
    var result := GenerateImage(client, sent.value);
    assert result == Rejected(ErrorObject(ImageFailureMessage));
    session.Complete(result);
    status, prompt, error := session.Status(), session.prompt, session.error;
  }
}
