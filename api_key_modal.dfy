/** The credential entry dialog: a `key` field edited by typing, and a
    submit guard that hands on the trimmed key only when it is not blank. */
module ApiKeyModal {
  import opened Js
  import opened JsString

  /** What `handleSubmit` passes to `onSubmit`: `None` when it does not call
      it. A key handed on is never empty and has no surrounding whitespace. */
  function SubmittedKey(key: string): (r: Option<string>)
    ensures r.None? <==> IsBlank(key)
    ensures r.Some? ==> r.value == Trim(key)
    ensures r.Some? ==> r.value != "" && !IsWs(r.value[0]) && !IsWs(r.value[|r.value| - 1])
  {
    if IsBlank(key) then None else Some(Trim(key))
  }

  /** The handed-on key is a fixed point of trimming, so it passes the guard
      again unchanged. */
  lemma SubmittedKeyStable(key: string)
    requires SubmittedKey(key).Some?
    ensures SubmittedKey(SubmittedKey(key).value) == SubmittedKey(key)
  {
    TrimIdempotent(key);
  }

  class KeyEntry {
    var key: string

    constructor ()
      ensures key == ""
    {
      key := "";
    }

    /** Typing into the password field. */
    method EditKey(text: string)
      modifies this
      ensures key == text
    {
      key := text;
    }

    /** `handleSubmit`: at most one `onSubmit` call, with the trimmed key;
      the field itself is left as typed. */
    method Submit() returns (submitted: Option<string>)
      ensures submitted == SubmittedKey(key)
      ensures submitted.Some? ==> submitted.value != "" && submitted.value == Trim(key)
    {
      submitted := SubmittedKey(key);
    }
  }
}
