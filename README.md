# GreenBot front-end, modelled in Dafny

GreenBot is a browser front-end over a hosted generative-AI client. This project
models the logic it owns, with the client left out and replaced by parameters:

- the **chat session** (`components/ChatInterface.tsx`). It holds an append-only
  message log seeded with a greeting, a draft text, one staged image with its
  preview, and a busy flag. It covers the submit guard, the User entry, the choice
  between the text-only call and the image-and-text call, the single reply entry,
  and image staging by picker or drop;
- the **image-generation session** (`components/ImageGenerator.tsx`). This is a
  single-slot state of prompt, image URL, error and busy flag. It covers which
  block the result area shows and the download file name;
- the **service layer** (`services/geminiService.ts`). Pure functions map the
  client's outcome to the string or the fixed error the views receive. They also
  build the requests, the PNG data URI and the base64 payload of a file;
- the **credential dialog** (`components/ApiKeyModal.tsx`). It trims the key and
  refuses a blank one;
- the **credential hook** (`hooks/useApiKey.ts`). It keeps a one-slot cache over
  local storage, which is modelled as a map shared by every hook.

Files: `js.dfy` holds `Option`, thrown values, settled promises and truthiness.
`js_string.dfy` holds `trim` over the full ECMAScript whitespace set (found by scanning for the first and the last non-whitespace position, which gives the same result as `TrimString`), `startsWith`,
`split`, and the decimal rendering of integers. `types.dfy` holds the message types.
There is one file for each modelled source file besides those.

The client is a total function parameter, from a request to a settled promise.
So every lemma about the service holds for every response the client types can
express (see ## Left out), and for every failure. A `File` carries its MIME type and the outcome of reading it as
a data URL. The download timestamp is a parameter.

Three behaviours of the code are easy to misread; the model follows the code:

- A User entry gets the preview as its image only when the preview is a non-empty
  string (`if (imagePreview)`), not whenever a preview exists.
- `split(',')[1]` is the field between the first comma and the next one. It is
  `undefined` (`None`) when there is no comma.
- A failed file read rejects with a `ProgressEvent`, which is not an `Error`. The
  catch in `generateTextWithImage` replaces it with the fixed message anyway.
- The picker path does not check the MIME type; only a drop does.

## Model

| member | source | states |
|---|---|---|
| Js.CaughtMessage | components/ChatInterface.tsx:68 | The caught message is the `Error`'s own message, or "An unknown error occurred." for any other thrown value (also `ImageGenerator.tsx:25`). |
| Js.Truthy | hooks/useApiKey.ts:11 | A nullable string is truthy exactly when it is present and not the empty string (also `ChatInterface.tsx:50`, `App.tsx:17`). |
| JsString.Trim | components/ApiKeyModal.tsx:13-14 | `trim()` is the substring between the first and the last non-whitespace character. It leaves no whitespace at either end, and it gives the empty string exactly when every character is whitespace. |
| JsString.TrimInfix | components/ApiKeyModal.tsx:14 | What `trim` keeps is a contiguous infix of the input, and everything dropped on either side is whitespace. |
| JsString.TrimIdempotent | components/ApiKeyModal.tsx:14 | Trimming twice is the same as trimming once. |
| JsString.StartsWith | components/ChatInterface.tsx:85 | `startsWith(prefix)`: the prefix is no longer than the string and equals its first characters. |
| JsString.Split | services/geminiService.ts:12 | `split(',')` always gives at least one field, and no field contains the separator. |
| JsString.SplitJoin | services/geminiService.ts:12 | Joining the fields of `split` with the separator gives back the original string. |
| JsString.DecimalString | components/ImageGenerator.tsx:72 | The rendering of a timestamp is non-empty and all digits, with a leading zero only for 0. |
| JsString.DecimalRoundTrip | components/ImageGenerator.tsx:72 | Parsing the rendered digits gives back the timestamp. |
| GeminiService.Base64Payload | services/geminiService.ts:12 | The payload is undefined exactly when the data URL has no comma; when present it contains no comma. |
| GeminiService.PayloadAfterFirstComma | services/geminiService.ts:12 | For `header,payload` or `header,payload,...`, with no comma in the header or the payload, the payload is exactly the text after the first comma. |
| GeminiService.FileToGenerativePart | services/geminiService.ts:9-23 | A readable file gives an inline-data part with the file's own MIME type and the base64 payload of its data URL; an unreadable one rejects with a non-Error value. |
| GeminiService.Rethrow | services/geminiService.ts:42-44 | A catch block passes success through unchanged and turns any thrown value into an Error with the fixed message. |
| GeminiService.TextRequestShape | services/geminiService.ts:52-57 | The text request sends the prompt as the contents, with the fixed model and system instruction. |
| GeminiService.ImageTextRequestShape | services/geminiService.ts:31-38 | The image-and-text request sends the parts [text, image], in that order, with the fixed system instruction. |
| GeminiService.ImageRequestShape | services/geminiService.ts:71-78 | The image request asks for exactly one image, as PNG, at aspect ratio 1:1, for the prompt. |
| GeminiService.GenerateText | services/geminiService.ts:48-65 | It succeeds exactly when the client call succeeds, and then returns the response text unchanged. Any failure gives the fixed "Failed to get a response..." error. |
| GeminiService.GenerateTextWithImage | services/geminiService.ts:25-46 | A file-read failure gives the fixed error. Otherwise it succeeds exactly when the call with the file's part succeeds, and returns its text. Every failure is the fixed error. |
| GeminiService.GenerateImage | services/geminiService.ts:67-90 | It succeeds exactly when the call returns at least one image, and the result is "data:image/png;base64," followed by the first image's bytes. Every failure gives the fixed "Failed to generate image..." error. |
| GeminiService.NoImageErrorReplaced | services/geminiService.ts:81-88 | With no images (a missing or empty list), the inner "No image was generated." is thrown, and the caller sees only the fixed image error. |
| GeminiService.TextFailuresAreFixed | services/geminiService.ts:42-63 | The message the caller catches from a failed text call is always the fixed one, never the raw cause. |
| GeminiService.PngDataUri | services/geminiService.ts:83 | The data URI starts with "data:image/png;base64," and everything after that prefix is exactly the image bytes. |
| GeminiService.PngDataUriPayload | services/geminiService.ts:81-83 | Extracting the base64 payload from a generated PNG data URI gives back the image bytes. |
| ChatInterface.Accepts | components/ChatInterface.tsx:47 | The submit guard: the trimmed draft is non-empty or an image is staged. `AcceptsIff` characterises it. |
| ChatInterface.AcceptsIff | components/ChatInterface.tsx:47 | The guard holds exactly when an image is staged or the draft has a non-whitespace character. So an empty or whitespace-only draft is refused without an image, and an image alone is enough. |
| ChatInterface.UserMessage | components/ChatInterface.tsx:49-52 | The User entry carries the raw, untrimmed draft. Its image is the preview exactly when the preview is a non-empty string. |
| ChatInterface.RequestFor | components/ChatInterface.tsx:61-65 | With an image staged the request is image-and-text with that file; otherwise it is text-only. Either way the prompt is the draft as typed. |
| ChatInterface.Dispatch | components/ChatInterface.tsx:59-65 | Each request goes to its service call, and any rejection it produces carries the fixed failure message. |
| ChatInterface.ReplyMessage | components/ChatInterface.tsx:66-69 | The reply entry is never a User entry and has no image. It is a Model entry with the response text on success; otherwise it is an Error entry with the caught message, "An unknown error occurred." for a non-Error. |
| ChatInterface.ErrorEntriesAreFixed | components/ChatInterface.tsx:67-69 | An Error entry produced by either service call always reads the fixed failure message. |
| ChatInterface.ExchangeLogAppend | components/ChatInterface.tsx:54-71 | Appending a User entry to an idle log, or a reply to a busy one, keeps the log's alternating shape and flips the busy flag. |
| ChatInterface.RepliesMatchRequests | components/ChatInterface.tsx:54-71 | In every log the session can reach, the User entries after the greeting equal the Model and Error entries together, plus one while busy: exactly one reply per request. |
| ChatInterface.ChatSession.constructor | components/ChatInterface.tsx:9-15 | The log is exactly the greeting. The draft is empty, nothing is staged, there is no preview, and the session is not busy. |
| ChatInterface.ChatSession.EditInput | components/ChatInterface.tsx:130-137 | Typing, possible only while not busy, replaces the draft and nothing else. |
| ChatInterface.ChatSession.StageFiles | components/ChatInterface.tsx:25-35 | Only the first file is staged, replacing any earlier one. A missing or empty list changes nothing. The preview is left for the reader to fill. |
| ChatInterface.ChatSession.PreviewLoaded | components/ChatInterface.tsx:29-33 | The reader's result becomes the preview, independently of which image is staged. |
| ChatInterface.ChatSession.ClearImage | components/ChatInterface.tsx:37-43 | Both the staged image and the preview are cleared; nothing else changes. |
| ChatInterface.ChatSession.Drop | components/ChatInterface.tsx:81-89 | A drop stages the first file only when there is one and its MIME type starts with "image/"; otherwise nothing changes. |
| ChatInterface.ChatSession.SendEnabled | components/ChatInterface.tsx:141 | The send button is enabled exactly when the session is not busy and the submit guard holds. |
| ChatInterface.ChatSession.TextInputEnabled | components/ChatInterface.tsx:136 | The text field is enabled exactly when the session is not busy. |
| ChatInterface.ChatSession.Submit | components/ChatInterface.tsx:45-65 | When the guard fails, nothing changes. Otherwise exactly one User entry is appended after the unchanged earlier ones, the session goes busy, the draft, image and preview are cleared, and the request is built from the values captured before clearing. Afterwards sending is disabled, so at most one request is in flight. |
| ChatInterface.ChatSession.Complete | components/ChatInterface.tsx:66-72 | Exactly one reply entry is appended after the unchanged earlier ones, and the session is no longer busy. The draft, image and preview are untouched. |
| ChatInterface.HelloExchange | components/ChatInterface.tsx:45-72 | Sending "Hello" to a client answering "Hi there!" leaves the log [greeting, User "Hello", Model "Hi there!"], not busy. |
| ImageGenerator.StatusMeaning | components/ImageGenerator.tsx:17-27 | In every state the session can reach, Generating means busy, Succeeded means only a URL, Failed means only an error, and Idle means neither. |
| ImageGenerator.RegionsShown | components/ImageGenerator.tsx:57-84 | The spinner shows while busy, the error text when the error is truthy, the image when the URL is truthy and not busy, and the placeholder when none of those holds. `ExactlyOneRegion` proves exactly one of them shows. |
| ImageGenerator.ExactlyOneRegion | components/ImageGenerator.tsx:57-84 | Exactly one of spinner, error text, image or placeholder is shown. The image is shown only with a URL and not while busy, and the placeholder exactly when none of the others is. |
| ImageGenerator.DownloadName | components/ImageGenerator.tsx:72 | The name is "greenbot-generated-", then the decimal timestamp, then ".png". |
| ImageGenerator.DownloadNamesDistinct | components/ImageGenerator.tsx:72 | Distinct timestamps give distinct download names. |
| ImageGenerator.GeneratorSession.constructor | components/ImageGenerator.tsx:6-9 | The prompt is empty, there is no URL and no error, the session is not busy, and the status is Idle. |
| ImageGenerator.GeneratorSession.EditPrompt | components/ImageGenerator.tsx:39-46 | Typing, possible only while not busy, replaces the prompt and nothing else. |
| ImageGenerator.GeneratorSession.SubmitEnabled | components/ImageGenerator.tsx:50 | The Generate button is enabled exactly when the session is not busy and the prompt is not blank. |
| ImageGenerator.GeneratorSession.PromptInputEnabled | components/ImageGenerator.tsx:45 | The prompt field is enabled exactly when the session is not busy. |
| ImageGenerator.GeneratorSession.Submit | components/ImageGenerator.tsx:11-22 | A blank prompt changes nothing. Otherwise the session goes busy, both error and URL are cleared, the prompt is kept and sent as typed, and the status is Generating. Afterwards the button is disabled. |
| ImageGenerator.GeneratorSession.Complete | components/ImageGenerator.tsx:22-28 | The session ends not busy with exactly one of URL and error set. A success stores the returned URL; a failure stores the caught message. The prompt is unchanged. |
| ImageGenerator.FailedGeneration | components/ImageGenerator.tsx:11-28 | "a red cube" with a client failing on "quota exceeded" ends Failed, with the prompt kept and the fixed image error shown. |
| ApiKeyModal.SubmittedKey | components/ApiKeyModal.tsx:11-16 | `onSubmit` is called exactly when the trimmed key is non-empty, and it receives the trimmed key. It is never empty and never starts or ends with whitespace. |
| ApiKeyModal.SubmittedKeyStable | components/ApiKeyModal.tsx:13-14 | A key the dialog hands on would pass the guard again, unchanged. |
| ApiKeyModal.KeyEntry.constructor | components/ApiKeyModal.tsx:9 | The field starts empty. |
| ApiKeyModal.KeyEntry.EditKey | components/ApiKeyModal.tsx:29 | Typing replaces the field. |
| ApiKeyModal.KeyEntry.Submit | components/ApiKeyModal.tsx:11-16 | At most one key is handed on, the trimmed non-empty one, and the field is left as typed. |
| UseApiKey.LocalStorage.GetItem | hooks/useApiKey.ts:10 | Reading an entry gives its value, or null when it is missing. |
| UseApiKey.LocalStorage.SetItem | hooks/useApiKey.ts:17 | Writing sets that one entry. |
| UseApiKey.LocalStorage.RemoveItem | hooks/useApiKey.ts:22 | Removing deletes that one entry. |
| UseApiKey.LoadedKey | hooks/useApiKey.ts:10-13 | A load finds a key exactly when the "gemini_api_key" entry is present and non-empty, and then finds its value. |
| UseApiKey.NeedsKeyEntry | App.tsx:17 | The key dialog is shown instead of the views exactly when the cached key is not truthy (null or empty). |
| UseApiKey.DialogKeySurvivesReload | App.tsx:17-19 | Saving the key the dialog hands on makes a later load find it, so the dialog is not shown again. |
| UseApiKey.ApiKeyHook.constructor | hooks/useApiKey.ts:7 | `apiKey` starts as null. |
| UseApiKey.ApiKeyHook.Load | hooks/useApiKey.ts:9-14 | `apiKey` becomes the stored value when that value is truthy; otherwise it keeps its value. Storage is not changed. |
| UseApiKey.ApiKeyHook.Save | hooks/useApiKey.ts:16-19 | The "gemini_api_key" entry and `apiKey` both become the key, and every other entry is unchanged. |
| UseApiKey.ApiKeyHook.Clear | hooks/useApiKey.ts:21-24 | The "gemini_api_key" entry is removed and `apiKey` becomes null. Every other entry is unchanged, so a second clear changes nothing. |
| UseApiKey.ReloadAfterSave | hooks/useApiKey.ts:10-19 | After a save, a fresh hook over the same storage loads the saved key if it is non-empty, and nothing if it is empty. |
| UseApiKey.ReloadAfterClear | hooks/useApiKey.ts:10-24 | After a clear (done twice), a fresh hook over the same storage loads nothing. |

## Left out

- Rendering, styling, icons, `MessageBubble.tsx`, `ImagePreview.tsx`, the scroll
  effect and the drag-highlight flag: these are presentation only.
- Tab switching in `App.tsx`: this is UI routing. Its key-dialog rule appears
  only as the predicate `UseApiKey.NeedsKeyEntry`.
- The `@google/genai` client is a foreign library, so it is a function parameter.
  The model names are kept only as constants in the requests.
- The service builds its client from `process.env.API_KEY`. It is not linked to
  the stored key, just as in the code.
- Base64 encoding by `FileReader`: this is browser I/O. A file's data URL is an
  opaque input. The preview read and the request read of the same file are
  independent, as in the code.
- Resetting the hidden file input's value in `clearImage`: this is DOM state only.
- The `accept="image/*"` attribute of the picker: it is a browser hint, not a check.
- Async interleaving: issuing a request (`Submit`) and its settling (`Complete`)
  are sequential methods. A reply arriving after the view is unmounted is not
  modelled.
- `Date.now()` and `console.error`: these are environment effects. The timestamp
  is a parameter, and logging has no effect on state.
- Real `localStorage` persistence: it is modelled as a map shared by every hook.
- GeminiService.GenerateImage: the SDK's optional `image` and `imageBytes` fields
  of the first generated image are taken to be present. Only `generatedImages`
  itself may be missing.
- GeminiService.GenerateText: `response.text` is taken to be a string, never
  `undefined`.
- GeminiService.GenerateTextWithImage: `response.text` is taken to be a string,
  never `undefined`. So a Model entry whose text is `undefined` cannot arise in the
  chat log.
- JsString.DecimalString: it renders only non-negative integers below 10^21, as
  JavaScript does before switching to exponent notation. Every `Date.now()` value
  qualifies.
- JsString.Trim: Dafny characters are Unicode scalar values, while JavaScript
  strings are UTF-16 code units. Every whitespace character is in the Basic
  Multilingual Plane, so trimming agrees, but lone surrogates cannot be expressed.
- ChatInterface.ChatSession.Submit: it requires the session not to be busy.
  `handleSubmit` does not check this itself; the disabled text field and send
  button guarantee it.
- ChatInterface.ChatSession.Complete: it requires the session to be busy, which
  holds because a completion only follows its own submit.
- ImageGenerator.GeneratorSession.Submit: it requires the session not to be busy,
  by the same argument as the chat, since the prompt field and the button are both
  disabled while busy.
