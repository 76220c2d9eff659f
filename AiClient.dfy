/** The AI client's shaping of requests around its network calls: the
    per-provider conversation history, the audio types it transcribes and the
    file name each gets, the transcript text put before the prompt, the
    content parts each provider is sent, and the role mapping of the Gemini
    history. The HTTP requests themselves (transcription, OCR, chat streams)
    are parameters or left out. */
module AiClient {
  import opened Wrappers
  import opened Strings
  import Config

  /** An attached file: its MIME type and its base64 data. */
  datatype Media = Media(mimeType: string, data: string)

  /** What the user sends: the prompt text and the attached files. */
  datatype PromptData = PromptData(text: string, media: seq<Media>)

  /** One part of a message's content, in the shapes the providers use. */
  datatype Part =
    | TextPart(text: string)                         // a text part
    | ImageUrl(url: string)                          // an "image_url" part with a data URL
    | ImageSource(mediaType: string, data: string)   // Claude's base64 "source" part
    | InlineData(mimeType: string, data: string)     // Gemini's "inline_data" part

  /** A JSON content value: a plain string or an array of parts. */
  datatype Content = Plain(text: string) | Parts(parts: seq<Part>)

  datatype Message = Message(role: string, content: Content)

  /* ---------------- the history ---------------- */

  /** The messages kept for a provider; none when it has no entry. */
  function PastMessages(entries: map<string, seq<Message>>, provider: string): seq<Message> {
    if provider in entries then entries[provider] else []
  }

  /** The history after one exchange with `provider`: its list (created
      empty if absent) gains the user's message and then the assistant's
      reply, and every other provider keeps its list. */
  function WithEntry(entries: map<string, seq<Message>>, provider: string, userContent: Content, response: string)
    : (r: map<string, seq<Message>>)
    ensures r.Keys == entries.Keys + {provider}
    ensures |PastMessages(r, provider)| == |PastMessages(entries, provider)| + 2
    ensures PastMessages(r, provider)[..|PastMessages(entries, provider)|] == PastMessages(entries, provider)
    ensures forall p :: p != provider ==> PastMessages(r, p) == PastMessages(entries, p)
  {
    var past := PastMessages(entries, provider);
    var added := past + [Message("user", userContent), Message("assistant", Plain(response))];
    assert added[..|past|] == past;
    entries[provider := added]
  }

  /** A provider's list is a sequence of exchanges: user and assistant
      messages alternate, starting with the user's. */
  ghost predicate Turns(msgs: seq<Message>) {
    |msgs| % 2 == 0 &&
    forall i :: 0 <= i < |msgs| ==> msgs[i].role == (if i % 2 == 0 then "user" else "assistant")
  }

  /** An exchange keeps every list a sequence of exchanges, and the last
      two messages of the provider's list are the user's content and the
      reply. */
  lemma WithEntryKeepsTurns(entries: map<string, seq<Message>>, provider: string, userContent: Content, response: string)
    requires forall p :: p in entries ==> Turns(entries[p])
    ensures var r := WithEntry(entries, provider, userContent, response);
            forall p :: p in r ==> Turns(r[p])
    ensures var msgs := PastMessages(WithEntry(entries, provider, userContent, response), provider);
            msgs[|msgs| - 2] == Message("user", userContent)
            && msgs[|msgs| - 1] == Message("assistant", Plain(response))
  {
    var r := WithEntry(entries, provider, userContent, response);
    var past := PastMessages(entries, provider);
    var msgs := PastMessages(r, provider);
    assert Turns(past);
    assert msgs == past + [Message("user", userContent), Message("assistant", Plain(response))];
    forall p | p in r ensures Turns(r[p]) {
      if p != provider {
        assert r[p] == PastMessages(entries, p);
      } else {
        assert r[p] == msgs;
        forall i | 0 <= i < |msgs| ensures msgs[i].role == (if i % 2 == 0 then "user" else "assistant") {
          if i < |past| {
            assert msgs[i] == past[i];
          }
        }
      }
    }
  }

  /** The client's conversation history, one list per provider name. */
  class History {
    var entries: map<string, seq<Message>>

    ghost predicate Valid()
      reads this
    {
      forall p :: p in entries ==> Turns(entries[p])
    }

    constructor()
      ensures entries == map[] && Valid()
    {
      entries := map[];
    }

    /** The messages kept for `provider`. */
    function Past(provider: string): seq<Message>
      reads this
    {
      PastMessages(entries, provider)
    }

    /** Records one exchange with `provider`. */
    method AddEntry(provider: string, userContent: Content, response: string)
      requires Valid()
      modifies this
      ensures entries == WithEntry(old(entries), provider, userContent, response)
      ensures Valid()
    {
      WithEntryKeepsTurns(entries, provider, userContent, response);
      var providerHistory := if provider in entries then entries[provider] else [];
      providerHistory := providerHistory + [Message("user", userContent)];
      providerHistory := providerHistory + [Message("assistant", Plain(response))];
      assert providerHistory == PastMessages(entries, provider)
                                + [Message("user", userContent), Message("assistant", Plain(response))];
      entries := entries[provider := providerHistory];
    }

    /** Forgets every provider's history. */
    method Clear()
      modifies this
      ensures entries == map[] && Valid()
    {
      entries := map[];
    }
  }

  /* ---------------- audio transcription ---------------- */

  /** The audio types the chat functions send for transcription. */
  const SUPPORTED_AUDIO_TYPES: seq<string> :=
    ["audio/flac", "audio/m4a", "audio/mp3", "audio/mp4", "audio/mpeg",
     "audio/mpga", "audio/oga", "audio/ogg", "audio/wav", "audio/webm"]

  predicate IsSupportedAudio(m: Media) {
    m.mimeType in SUPPORTED_AUDIO_TYPES
  }

  /** The extension of the file name the OpenAI transcription upload uses;
      every other type is refused with an error naming it. */
  function AudioExtension(mimeType: string): (r: Result<string, string>)
    ensures r.Err? ==> r.error == "Unsupported audio MIME type for OpenAI transcription: '" + mimeType + "'"
  {
    if mimeType == "audio/flac" then Ok("flac")
    else if mimeType == "audio/m4a" || mimeType == "audio/x-m4a" || mimeType == "audio/mp4" then Ok("m4a")
    else if mimeType == "audio/mp3" || mimeType == "audio/mpeg" || mimeType == "audio/mpga" then Ok("mp3")
    else if mimeType == "audio/oga" || mimeType == "audio/ogg" then Ok("ogg")
    else if mimeType == "audio/wav" || mimeType == "audio/x-wav" then Ok("wav")
    else if mimeType == "audio/webm" then Ok("webm")
    else Err("Unsupported audio MIME type for OpenAI transcription: '" + mimeType + "'")
  }

  /** The types with an extension are exactly the twelve the match names,
      and each gets one of six extensions. */
  lemma AudioExtensionCases(mimeType: string)
    ensures AudioExtension(mimeType).Ok? <==>
              mimeType in {"audio/flac", "audio/m4a", "audio/x-m4a", "audio/mp4", "audio/mp3", "audio/mpeg",
                           "audio/mpga", "audio/oga", "audio/ogg", "audio/wav", "audio/x-wav", "audio/webm"}
    ensures AudioExtension(mimeType).Ok? ==>
              AudioExtension(mimeType).value in {"flac", "m4a", "mp3", "ogg", "wav", "webm"}
    // one clause per group of the match, in both directions
    ensures AudioExtension(mimeType) == Ok("flac") <==> mimeType == "audio/flac"
    ensures AudioExtension(mimeType) == Ok("m4a") <==> mimeType in {"audio/m4a", "audio/x-m4a", "audio/mp4"}
    ensures AudioExtension(mimeType) == Ok("mp3") <==> mimeType in {"audio/mp3", "audio/mpeg", "audio/mpga"}
    ensures AudioExtension(mimeType) == Ok("ogg") <==> mimeType in {"audio/oga", "audio/ogg"}
    ensures AudioExtension(mimeType) == Ok("wav") <==> mimeType in {"audio/wav", "audio/x-wav"}
    ensures AudioExtension(mimeType) == Ok("webm") <==> mimeType == "audio/webm"
  {
  }

  /** Every type sent for transcription has an extension, so the upload is
      never refused for its type. */
  lemma SupportedAudioHasExtension(m: Media)
    requires IsSupportedAudio(m)
    ensures AudioExtension(m.mimeType).Ok?
  {
  }

  /** `audio/x-m4a` and `audio/x-wav` have extensions but are not in the
      supported list, so they are never sent for transcription. */
  lemma AliasesNeverTranscribed(m4a: string, wav: string)
    requires m4a == "audio/x-m4a" && wav == "audio/x-wav"
    ensures AudioExtension(m4a) == Ok("m4a") && AudioExtension(wav) == Ok("wav")
    ensures m4a !in SUPPORTED_AUDIO_TYPES && wav !in SUPPORTED_AUDIO_TYPES
  {
    assert m4a[6] == 'x' && wav[6] == 'x';
    assert forall k :: 0 <= k < |SUPPORTED_AUDIO_TYPES| ==> SUPPORTED_AUDIO_TYPES[k][6] != 'x';
  }

  /** OpenAI's transcription of one file: the key is checked first, then the
      type; `upload` stands for the request, given the file and the file name
      it is sent under. */
  function TranscribeOpenAi(keys: Config.ApiKeys, m: Media, upload: (Media, string) -> Result<string, string>)
    : Result<string, string>
  {
    match Config.GetKey(keys, "openai")
    case None => Err("OpenAI API key not found")
    case Some(_) =>
      match AudioExtension(m.mimeType)
      case Err(e) => Err(e)
      case Ok(ext) => upload(m, "audio." + ext)
  }

  /** An unsupported type is refused before any request: the outcome does
      not depend on the upload at all. */
  lemma UnsupportedTypeFailsEarly(keys: Config.ApiKeys, m: Media,
                                  upload: (Media, string) -> Result<string, string>,
                                  other: (Media, string) -> Result<string, string>)
    requires AudioExtension(m.mimeType).Err?
    ensures TranscribeOpenAi(keys, m, upload) == TranscribeOpenAi(keys, m, other)
    ensures TranscribeOpenAi(keys, m, upload).Err?
  {
  }

  /** The text put in the prompt for one transcription: the transcript, or a
      note of the failure, followed by a blank line. */
  function TranscriptNote(r: Result<string, string>): (note: string)
    ensures EndsWith(note, "\n\n")
    ensures r.Ok? ==> note[..|note| - 2] == r.value
    ensures r.Err? ==> note[..|note| - 2] == "[Audio Transcription Failed: " + r.error + "]"
  {
    match r
    case Ok(t) => t + "\n\n"
    case Err(e) => "[Audio Transcription Failed: " + e + "]\n\n"
  }

  /** The notes of the supported audio files, in their order. */
  function Transcripts(media: seq<Media>, transcribe: Media -> Result<string, string>): string
    decreases |media|
  {
    if media == [] then []
    else
      var m := media[|media| - 1];
      Transcripts(media[..|media| - 1], transcribe)
      + (if IsSupportedAudio(m) then TranscriptNote(transcribe(m)) else [])
  }

  /** The loop that transcribes the supported audio files one by one. */
  method TranscribeAll(media: seq<Media>, transcribe: Media -> Result<string, string>)
    returns (transcribedText: string)
    ensures transcribedText == Transcripts(media, transcribe)
  {
    transcribedText := [];
    for i := 0 to |media|
      invariant transcribedText == Transcripts(media[..i], transcribe)
    {
      assert media[..i + 1][..i] == media[..i];
      if media[i].mimeType in SUPPORTED_AUDIO_TYPES {
        match transcribe(media[i]) {
          case Ok(transcript) =>
            transcribedText := transcribedText + transcript;
            transcribedText := transcribedText + "\n\n";
          case Err(e) =>
            transcribedText := transcribedText + ("[Audio Transcription Failed: " + e + "]\n\n");
        }
      }
    }
    assert media[..|media|] == media;
  }

  /** The supported audio files among `media`, in order. */
  function SupportedAudio(media: seq<Media>): seq<Media>
    decreases |media|
  {
    if media == [] then []
    else
      var m := media[|media| - 1];
      SupportedAudio(media[..|media| - 1]) + (if IsSupportedAudio(m) then [m] else [])
  }

  /** The files kept are exactly the supported audio files. */
  lemma {:induction false} SupportedAudioMembers(media: seq<Media>)
    ensures forall m :: m in SupportedAudio(media) <==> m in media && IsSupportedAudio(m)
    decreases |media|
  {
    if media != [] {
      var m := media[|media| - 1];
      var init := media[..|media| - 1];
      SupportedAudioMembers(init);
      assert media == init + [m];
      assert forall x :: x in media <==> x in init || x == m;
    }
  }

  /** Only the supported audio files are transcribed: the other files leave
      no trace in the text. */
  lemma {:induction false} TranscriptsOfSupportedOnly(media: seq<Media>, transcribe: Media -> Result<string, string>)
    ensures Transcripts(media, transcribe) == Transcripts(SupportedAudio(media), transcribe)
    decreases |media|
  {
    if media != [] {
      var m := media[|media| - 1];
      var init := media[..|media| - 1];
      TranscriptsOfSupportedOnly(init, transcribe);
      assert SupportedAudio(media) == SupportedAudio(init) + (if IsSupportedAudio(m) then [m] else []);
      if IsSupportedAudio(m) {
        TranscriptsSnoc(SupportedAudio(init), m, transcribe);
      } else {
        assert SupportedAudio(init) + [] == SupportedAudio(init);
      }
    }
  }

  lemma TranscriptsSnoc(media: seq<Media>, m: Media, transcribe: Media -> Result<string, string>)
    ensures Transcripts(media + [m], transcribe)
            == Transcripts(media, transcribe) + (if IsSupportedAudio(m) then TranscriptNote(transcribe(m)) else [])
  {
    assert (media + [m])[..|media|] == media;
  }

  /** One note per supported audio file, whatever the transcriptions give. */
  lemma {:induction false} NotesOfSupported(media: seq<Media>, transcribe: Media -> Result<string, string>)
    requires forall m :: m in media ==> IsSupportedAudio(m)
    ensures Transcripts(media, transcribe) == Notes(media, transcribe)
    decreases |media|
  {
    if media != [] {
      NotesOfSupported(media[..|media| - 1], transcribe);
    }
  }

  function Notes(media: seq<Media>, transcribe: Media -> Result<string, string>): string
    decreases |media|
  {
    if media == [] then [] else Notes(media[..|media| - 1], transcribe) + TranscriptNote(transcribe(media[|media| - 1]))
  }

  /** The text sent: all the notes, then the prompt. */
  function FinalText(prompt: PromptData, transcribe: Media -> Result<string, string>): (r: string)
    ensures EndsWith(r, prompt.text)
    ensures StartsWith(r, Transcripts(prompt.media, transcribe))
    ensures |r| == |Transcripts(prompt.media, transcribe)| + |prompt.text|
  {
    var notes := Transcripts(prompt.media, transcribe);
    assert (notes + prompt.text)[..|notes|] == notes;
    notes + prompt.text
  }

  /* ---------------- content parts ---------------- */

  predicate IsImage(m: Media) { StartsWith(m.mimeType, "image/") }
  predicate IsAudio(m: Media) { StartsWith(m.mimeType, "audio/") }
  predicate IsNotAudio(m: Media) { !IsAudio(m) }

  /** The image part of the OpenAI-style APIs: a data URL. */
  function DataUrlPart(m: Media): Part {
    ImageUrl("data:" + m.mimeType + ";base64," + m.data)
  }

  function ClaudeImagePart(m: Media): Part { ImageSource(m.mimeType, m.data) }

  function GeminiInlinePart(m: Media): Part { InlineData(m.mimeType, m.data) }

  /** The parts for the files `keep` selects, in their order. */
  function Collect(media: seq<Media>, keep: Media -> bool, part: Media -> Part): (r: seq<Part>)
    ensures |r| <= |media|
    decreases |media|
  {
    if media == [] then []
    else
      var m := media[|media| - 1];
      Collect(media[..|media| - 1], keep, part) + (if keep(m) then [part(m)] else [])
  }

  /** The order of the files is kept: collecting two lists one after the
      other is collecting their concatenation. */
  lemma {:induction false} CollectAppend(a: seq<Media>, b: seq<Media>, keep: Media -> bool, part: Media -> Part)
    ensures Collect(a + b, keep, part) == Collect(a, keep, part) + Collect(b, keep, part)
    decreases |b|
  {
    if b != [] {
      var init := b[..|b| - 1];
      var m := b[|b| - 1];
      var tail := if keep(m) then [part(m)] else [];
      assert (a + b)[..|a + b| - 1] == a + init;
      assert (a + b)[|a + b| - 1] == m;
      assert Collect(a + b, keep, part) == Collect(a + init, keep, part) + tail;
      CollectAppend(a, init, keep, part);
      assert Collect(b, keep, part) == Collect(init, keep, part) + tail;
    } else {
      assert a + b == a;
    }
  }

  /** When every file is kept, there is one part per file, in order. */
  lemma {:induction false} CollectAll(media: seq<Media>, keep: Media -> bool, part: Media -> Part)
    requires forall m :: m in media ==> keep(m)
    ensures Collect(media, keep, part) == seq(|media|, k requires 0 <= k < |media| => part(media[k]))
    decreases |media|
  {
    if media != [] {
      var init := media[..|media| - 1];
      CollectAll(init, keep, part);
    }
  }

  /** When no file is kept, there is no part. */
  lemma {:induction false} CollectNone(media: seq<Media>, keep: Media -> bool, part: Media -> Part)
    requires forall m :: m in media ==> !keep(m)
    ensures Collect(media, keep, part) == []
    decreases |media|
  {
    if media != [] {
      CollectNone(media[..|media| - 1], keep, part);
    }
  }

  /** The loop that builds a content array: the text part, then a part for
      each file `keep` selects. */
  method AssembleParts(text: string, media: seq<Media>, keep: Media -> bool, part: Media -> Part)
    returns (contentParts: seq<Part>)
    ensures contentParts == [TextPart(text)] + Collect(media, keep, part)
  {
    contentParts := [TextPart(text)];
    for i := 0 to |media|
      invariant contentParts == [TextPart(text)] + Collect(media[..i], keep, part)
    {
      assert media[..i + 1][..i] == media[..i];
      if keep(media[i]) {
        contentParts := contentParts + [part(media[i])];
      }
    }
    assert media[..|media|] == media;
  }

  /** The content array OpenAI and Ollama are sent, for a given text. */
  function DataUrlParts(text: string, media: seq<Media>): seq<Part> {
    [TextPart(text)] + Collect(media, IsImage, DataUrlPart)
  }

  /** The content array Gemini is sent, for a given text. */
  function InlineParts(text: string, media: seq<Media>): seq<Part> {
    [TextPart(text)] + Collect(media, IsNotAudio, GeminiInlinePart)
  }

  lemma AudioIsNotImage(m: Media)
    requires IsAudio(m)
    ensures !IsImage(m)
  {
    assert m.mimeType[0] == 'a';
  }

  /** Audio files are never sent as images: with only audio attached, the
      content is the text alone. */
  lemma DataUrlPartsSkipAudio(text: string, media: seq<Media>)
    requires forall m :: m in media ==> IsAudio(m)
    ensures DataUrlParts(text, media) == [TextPart(text)]
  {
    forall m | m in media ensures !IsImage(m) {
      AudioIsNotImage(m);
    }
    CollectNone(media, IsImage, DataUrlPart);
  }

  /** With no audio attached, every file is an inline part, in order. */
  lemma InlinePartsKeepAll(text: string, media: seq<Media>)
    requires forall m :: m in media ==> !IsAudio(m)
    ensures InlineParts(text, media)
            == [TextPart(text)] + seq(|media|, k requires 0 <= k < |media| => InlineData(media[k].mimeType, media[k].data))
  {
    CollectAll(media, IsNotAudio, GeminiInlinePart);
    assert seq(|media|, k requires 0 <= k < |media| => GeminiInlinePart(media[k]))
           == seq(|media|, k requires 0 <= k < |media| => InlineData(media[k].mimeType, media[k].data));
  }

  /* ---------------- the requests ---------------- */

  /** What a chat function sends (the messages) and what it returns for the
      history (the user's content). */
  datatype ChatRequest = ChatRequest(messages: seq<Message>, userContent: Content)

  /** The past messages followed by the new user message. */
  function WithUserMessage(past: seq<Message>, userContent: Content): ChatRequest {
    ChatRequest(past + [Message("user", userContent)], userContent)
  }

  /** Ollama: no key; the prompt text, then the images as data URLs. */
  function OllamaRequest(history: map<string, seq<Message>>, prompt: PromptData): ChatRequest {
    WithUserMessage(PastMessages(history, "Ollama"), Parts(DataUrlParts(prompt.text, prompt.media)))
  }

  /** OpenAI: the key is required; the transcripts and the prompt text, then
      the images as data URLs. */
  function OpenAiRequest(keys: Config.ApiKeys, history: map<string, seq<Message>>, prompt: PromptData,
                         transcribe: Media -> Result<string, string>): Result<ChatRequest, string> {
    if Config.GetKey(keys, "openai").None? then Err("OpenAI API key not found")
    else
      var parts := DataUrlParts(FinalText(prompt, transcribe), prompt.media);
      Ok(WithUserMessage(PastMessages(history, "OpenAI"), Parts(parts)))
  }

  /** Claude: the key is required; the prompt text, then the images as base64
      sources. */
  function ClaudeRequest(keys: Config.ApiKeys, history: map<string, seq<Message>>, prompt: PromptData)
    : Result<ChatRequest, string> {
    if Config.GetKey(keys, "claude").None? then Err("Claude API key not found")
    else
      var parts := [TextPart(prompt.text)] + Collect(prompt.media, IsImage, ClaudeImagePart);
      Ok(WithUserMessage(PastMessages(history, "Claude"), Parts(parts)))
  }

  /** xAI: the key is required; the prompt text alone, the files ignored. */
  function XaiRequest(keys: Config.ApiKeys, history: map<string, seq<Message>>, prompt: PromptData)
    : Result<ChatRequest, string> {
    if Config.GetKey(keys, "xai").None? then Err("XAI API key not found")
    else Ok(WithUserMessage(PastMessages(history, "XAI"), Plain(prompt.text)))
  }

  /** OpenRouter: the key is required; each image's text, from `ocr`, is
      added to the prompt, and an image whose text cannot be read is sent as
      a data URL. */
  function OpenRouterRequest(keys: Config.ApiKeys, history: map<string, seq<Message>>, prompt: PromptData,
                             ocr: Media -> Result<string, string>): Result<ChatRequest, string> {
    if Config.GetKey(keys, "openrouter").None? then Err("OpenRouter API key not found")
    else
      var (ocrText, images) := OcrParts(prompt.media, ocr);
      var combined := if ocrText == [] then prompt.text else prompt.text + ocrText;
      Ok(WithUserMessage(PastMessages(history, "OpenRouter"), Parts([TextPart(combined)] + images)))
  }

  /** The OCR text gathered and the images sent as they are. */
  function OcrParts(media: seq<Media>, ocr: Media -> Result<string, string>): (string, seq<Part>)
    decreases |media|
  {
    if media == [] then ([], [])
    else
      var (text, images) := OcrParts(media[..|media| - 1], ocr);
      var m := media[|media| - 1];
      if !IsImage(m) then (text, images)
      else match ocr(m)
        case Ok(extracted) =>
          (if Trim(extracted) == [] then text else text + "\n\n[OCR from image]: " + extracted, images)
        case Err(_) => (text, images + [DataUrlPart(m)])
  }

  /** The images whose text `ocr` cannot read. */
  function FailedImage(ocr: Media -> Result<string, string>): Media -> bool {
    m => IsImage(m) && ocr(m).Err?
  }

  /** What one file adds to the OCR text: an image's non-blank text, marked
      as such, and nothing otherwise. */
  function OcrNote(m: Media, ocr: Media -> Result<string, string>): (r: string)
    ensures r == [] <==> !(IsImage(m) && ocr(m).Ok? && Trim(ocr(m).value) != [])
    ensures r != [] ==> r == "\n\n[OCR from image]: " + ocr(m).value
  {
    if IsImage(m) && ocr(m).Ok? && Trim(ocr(m).value) != [] then "\n\n[OCR from image]: " + ocr(m).value else []
  }

  /** The notes of the files, one file at a time, in their order. */
  function OcrNotes(media: seq<Media>, ocr: Media -> Result<string, string>): (r: string)
    ensures media == [] ==> r == []
    decreases |media|
  {
    if media == [] then [] else OcrNotes(media[..|media| - 1], ocr) + OcrNote(media[|media| - 1], ocr)
  }

  /** The OCR pass splits the images in two: each image read with non-blank
      text adds that text, marked, to the prompt, and each image that cannot
      be read is sent as a data URL, both in the files' order; other files
      and blank reads add nothing. */
  lemma {:induction false} OcrPartsSplit(media: seq<Media>, ocr: Media -> Result<string, string>)
    ensures OcrParts(media, ocr).0 == OcrNotes(media, ocr)
    ensures OcrParts(media, ocr).1 == Collect(media, FailedImage(ocr), DataUrlPart)
    decreases |media|
  {
    if media != [] {
      var front := media[..|media| - 1];
      var m := media[|media| - 1];
      OcrPartsSplit(front, ocr);
      var rec := OcrParts(front, ocr);
      var keep := FailedImage(ocr);
      assert Collect(media, keep, DataUrlPart) == Collect(front, keep, DataUrlPart) + (if keep(m) then [DataUrlPart(m)] else []);
      assert OcrNotes(media, ocr) == OcrNotes(front, ocr) + OcrNote(m, ocr);
      if !IsImage(m) {
        assert OcrParts(media, ocr) == rec;
        assert !keep(m) && OcrNote(m, ocr) == [];
      } else if ocr(m).Err? {
        assert OcrParts(media, ocr) == (rec.0, rec.1 + [DataUrlPart(m)]);
        assert keep(m) && OcrNote(m, ocr) == [];
      } else {
        assert !keep(m);
        OcrTextStep(rec.0, ocr(m).value);
        assert OcrParts(media, ocr) == (rec.0 + OcrNote(m, ocr), rec.1);
      }
    }
  }

  lemma OcrTextStep(text: string, extracted: string)
    ensures (if Trim(extracted) == [] then text else text + "\n\n[OCR from image]: " + extracted)
            == text + (if Trim(extracted) != [] then "\n\n[OCR from image]: " + extracted else [])
  {
    if Trim(extracted) == [] {
      assert text + [] == text;
    }
  }

  /** Only images take part in OCR: a failed read sends the image itself as a
      data URL, and without images there is neither text nor parts. */
  lemma {:induction false} OcrPartsShape(media: seq<Media>, ocr: Media -> Result<string, string>)
    ensures |OcrParts(media, ocr).1| <= |media|
    ensures forall p :: p in OcrParts(media, ocr).1 ==>
              exists m :: m in media && IsImage(m) && ocr(m).Err? && p == DataUrlPart(m)
    ensures (forall m :: m in media ==> !IsImage(m)) ==> OcrParts(media, ocr) == ([], [])
    decreases |media|
  {
    if media != [] {
      var front := media[..|media| - 1];
      OcrPartsShape(front, ocr);
      assert forall m :: m in front ==> m in media;
      assert media[|media| - 1] in media;
    }
  }

  /** The OpenRouter request always fails: no key is ever found under that
      name. */
  lemma OpenRouterAlwaysFails(keys: Config.ApiKeys, history: map<string, seq<Message>>, prompt: PromptData,
                              ocr: Media -> Result<string, string>)
    ensures OpenRouterRequest(keys, history, prompt, ocr) == Err("OpenRouter API key not found")
  {
    Config.OpenRouterHasNoKey(keys, "openrouter");
  }

  /** Each keyed request fails, with its own message, exactly when its key
      is missing. */
  lemma MissingKeyFails(keys: Config.ApiKeys, history: map<string, seq<Message>>, prompt: PromptData,
                        transcribe: Media -> Result<string, string>)
    ensures OpenAiRequest(keys, history, prompt, transcribe).Err? <==> keys.openai.None?
    ensures keys.openai.None? ==> OpenAiRequest(keys, history, prompt, transcribe) == Err("OpenAI API key not found")
    ensures ClaudeRequest(keys, history, prompt).Err? <==> keys.claude.None?
    ensures keys.claude.None? ==> ClaudeRequest(keys, history, prompt) == Err("Claude API key not found")
    ensures XaiRequest(keys, history, prompt).Err? <==> keys.xai.None?
    ensures keys.xai.None? ==> XaiRequest(keys, history, prompt) == Err("XAI API key not found")
    ensures GeminiRequestOf(keys, history, prompt, transcribe).Err? <==> keys.gemini.None?
    ensures keys.gemini.None? ==> GeminiRequestOf(keys, history, prompt, transcribe) == Err("Gemini API key not found")
  {
    Config.ProviderKeys(keys, "openai", "claude", "gemini", "xai");
  }

  /** A request sends the provider's past messages unchanged and then one
      user message holding the content it returns. */
  lemma RequestExtendsHistory(past: seq<Message>, userContent: Content)
    ensures var r := WithUserMessage(past, userContent);
            |r.messages| == |past| + 1 && r.messages[..|past|] == past
            && r.messages[|past|] == Message("user", r.userContent)
  {
    assert (past + [Message("user", userContent)])[..|past|] == past;
  }

  /* ---------------- Gemini ---------------- */

  /** A turn of the Gemini conversation. */
  datatype GeminiTurn = GeminiTurn(role: string, parts: seq<Part>)

  /** What the Gemini chat sends and what it returns for the history. */
  datatype GeminiRequest = GeminiRequest(contents: seq<GeminiTurn>, userContent: Content)

  /** The assistant is the "model" to Gemini; every other role is "user". */
  function GeminiRole(role: string): (r: string)
    ensures r == "model" || r == "user"
    ensures r == "model" <==> role == "assistant"
  {
    if role == "assistant" then "model" else "user"
  }

  /** A stored message as a Gemini turn: an array content is kept, a plain
      one becomes a single text part. */
  function GeminiTurnOf(msg: Message): (t: GeminiTurn)
    ensures msg.content.Parts? ==> t.parts == msg.content.parts
    ensures msg.content.Plain? ==> t.parts == [TextPart(msg.content.text)]
    ensures t.role == GeminiRole(msg.role)
  {
    var parts := match msg.content
      case Parts(ps) => ps
      case Plain(s) => [TextPart(s)];
    GeminiTurn(GeminiRole(msg.role), parts)
  }

  function GeminiHistory(msgs: seq<Message>): seq<GeminiTurn> {
    seq(|msgs|, k requires 0 <= k < |msgs| => GeminiTurnOf(msgs[k]))
  }

  /** Gemini: the key is required; the transcripts and the prompt text, then
      every file that is not audio as inline data. */
  function GeminiRequestOf(keys: Config.ApiKeys, history: map<string, seq<Message>>, prompt: PromptData,
                           transcribe: Media -> Result<string, string>): Result<GeminiRequest, string> {
    if Config.GetKey(keys, "gemini").None? then Err("Gemini API key not found")
    else
      var parts := InlineParts(FinalText(prompt, transcribe), prompt.media);
      Ok(GeminiRequest(GeminiHistory(PastMessages(history, "Gemini")) + [GeminiTurn("user", parts)], Parts(parts)))
  }

  /** A history of exchanges is, to Gemini, alternating "user" and "model"
      turns. */
  lemma GeminiSeesTurns(msgs: seq<Message>)
    requires Turns(msgs)
    ensures forall k :: 0 <= k < |msgs| ==> GeminiHistory(msgs)[k].role == (if k % 2 == 0 then "user" else "model")
  {
  }

  /** A Gemini exchange, once recorded, comes back as the user's parts and
      then the reply as a single text part. */
  lemma GeminiRecordedExchange(entries: map<string, seq<Message>>, parts: seq<Part>, response: string)
    ensures GeminiHistory(PastMessages(WithEntry(entries, "Gemini", Parts(parts), response), "Gemini"))
            == GeminiHistory(PastMessages(entries, "Gemini"))
               + [GeminiTurn("user", parts), GeminiTurn("model", [TextPart(response)])]
  {
    var past := PastMessages(entries, "Gemini");
    var msgs := past + [Message("user", Parts(parts)), Message("assistant", Plain(response))];
    assert PastMessages(WithEntry(entries, "Gemini", Parts(parts), response), "Gemini") == msgs;
    assert GeminiRole("user") == "user";
  }

  /* ---------------- the chat functions ---------------- */

  /** `chat_openai` up to the network request. */
  method ChatOpenAi(keys: Config.ApiKeys, history: History, prompt: PromptData,
                    transcribe: Media -> Result<string, string>) returns (r: Result<ChatRequest, string>)
    ensures r == OpenAiRequest(keys, history.entries, prompt, transcribe)
  {
    if Config.GetKey(keys, "openai").None? {
      return Err("OpenAI API key not found");
    }
    var past := history.Past("OpenAI");
    var transcribedText := TranscribeAll(prompt.media, transcribe);
    var finalText := transcribedText + prompt.text;
    var contentParts := AssembleParts(finalText, prompt.media, IsImage, DataUrlPart);
    r := Ok(WithUserMessage(past, Parts(contentParts)));
  }

  /** `chat_ollama` up to the network request. */
  method ChatOllama(history: History, prompt: PromptData) returns (r: ChatRequest)
    ensures r == OllamaRequest(history.entries, prompt)
  {
    var past := history.Past("Ollama");
    var contentParts := AssembleParts(prompt.text, prompt.media, IsImage, DataUrlPart);
    r := WithUserMessage(past, Parts(contentParts));
  }

  /** `chat_claude` up to the network request. */
  method ChatClaude(keys: Config.ApiKeys, history: History, prompt: PromptData)
    returns (r: Result<ChatRequest, string>)
    ensures r == ClaudeRequest(keys, history.entries, prompt)
  {
    if Config.GetKey(keys, "claude").None? {
      return Err("Claude API key not found");
    }
    var past := history.Past("Claude");
    var contentParts := AssembleParts(prompt.text, prompt.media, IsImage, ClaudeImagePart);
    r := Ok(WithUserMessage(past, Parts(contentParts)));
  }

  /** `chat_gemini` up to the network request. */
  method ChatGemini(keys: Config.ApiKeys, history: History, prompt: PromptData,
                    transcribe: Media -> Result<string, string>) returns (r: Result<GeminiRequest, string>)
    ensures r == GeminiRequestOf(keys, history.entries, prompt, transcribe)
  {
    if Config.GetKey(keys, "gemini").None? {
      return Err("Gemini API key not found");
    }
    var contents := GeminiHistory(history.Past("Gemini"));
    var transcribedText := TranscribeAll(prompt.media, transcribe);
    var finalText := transcribedText + prompt.text;
    var newUserParts := AssembleParts(finalText, prompt.media, IsNotAudio, GeminiInlinePart);
    contents := contents + [GeminiTurn("user", newUserParts)];
    r := Ok(GeminiRequest(contents, Parts(newUserParts)));
  }
}
