# Narration service audio layer, modelled in Dafny

The service exposes one endpoint, `/generate-narration`. It takes a text and
a voice identifier, sends them to a remote speech-synthesis model and
returns the raw audio the model streams back, base64-encoded, as
`{"audioContent": ...}`. Next to the handler, `app.py` defines the
audio-container helpers:

- `parse_audio_mime_type` reads the bit depth and sample rate out of a MIME
  type such as `audio/L16;rate=24000`. This is the `audio/L16` form defined
  in section 4 of RFC 2586.
- `convert_to_wav` wraps raw samples in a 44-byte canonical PCM RIFF/WAVE
  header.

This project models those two helpers and the pure part of the handler:

| module | file | what it models |
|---|---|---|
| `Results` | results.dfy | `Option` (Python's `None`-or-value) and `Result` (an operation that may raise) |
| `Bytes` | bytes.dfy | octets; the little-endian `<H` and `<I` codes of `struct.pack` and their readers |
| `PyText` | pytext.dfy | the Python `str` operations the parser uses: `split`, `strip`, `lower`, `startswith`, `int` |
| `AudioMime` | audio_mime.dfy | `parse_audio_mime_type`; a reference "last well-formed value wins" definition; a formatter for the `audio/L<bits>;rate=<hz>` form |
| `Wav` | wav.dfy | `convert_to_wav`, including its `struct.pack` range errors, and a decoder for the layout it writes |
| `Narration` | narration.dfy | `generate_narration`: validation, fragment collection over an abstract stream, joining, status codes |

The handler never calls `convert_to_wav`: its 200 reply carries the joined
raw samples. The model keeps the two pieces separate in the same way.
`Narration.GenerateNarration` returns `JoinAll` of the fragments, and
nothing in `Narration` refers to `Wav`.

The synthesis backend becomes a parameter of `GenerateNarration`. It is a
function from the text and voice identifier to either the whole list of
stream items or a failure. The handler's result also records the backend
calls it made, so "no backend call on a 400" is a statement about that list.

## Model

| member | source | states |
|---|---|---|
| `PyText.Split` | app.py:49 | `mime_type.split(";")` gives at least one part; the parts rejoined with `;` are the input; no part contains `;` |
| `PyText.SplitAppend` | app.py:49 | adding `;` and a `;`-free piece after a string adds exactly that piece as one more part |
| `PyText.AfterFirstAt` | app.py:54 | `s.split(sep, 1)[1]` is the text after the first occurrence of `sep` |
| `PyText.AfterFirstNone` | app.py:54-56 | when `sep` does not occur, `s.split(sep, 1)` has no second part, so `[1]` raises `IndexError` (`AfterFirst` gives `None`) |
| `PyText.Strip` | app.py:51 | `param.strip()` has no whitespace at either end, and the input is the result padded on both sides by whitespace only |
| `PyText.StripRemovesPadding` | app.py:51 | stripping whitespace padding around a string that begins and ends with non-whitespace gives back that string |
| `PyText.LowerPrefix` | app.py:52 | the model's ASCII-only `Lower` works character by character: its first `n` characters are the lower-cased first `n` characters of its input, which is all the five-character `rate=` test needs (Python's full `str.lower()` has no such property in general; see `PyText.Lower` below) |
| `PyText.ParseInt` | app.py:54 | `int(s)` (also used at app.py:59) on the digit-only text succeeds exactly when `s` is non-empty and made only of decimal digits; otherwise it is the `ValueError` the parser catches |
| `PyText.ParseFormatInt` | app.py:54 | the digit-string reading of `int` inverts `str` on every natural number |
| `AudioMime.RateBranch` | app.py:52-54 | when the lower-cased parameter starts with `rate=`, `split("=", 1)[1]` is the text after those five characters; the parameter sets the rate to that text read as a number and sets no bit depth |
| `AudioMime.BitsBranch` | app.py:57-59 | when the parameter starts with `audio/L`, `split("L", 1)[1]` is the text after those seven characters; the parameter sets the bit depth to that text read as a number and sets no rate |
| `AudioMime.OtherBranch` | app.py:52-61 | a parameter matching neither prefix sets nothing |
| `AudioMime.ApplyParam` | app.py:51-61 | one loop iteration sets the rate to the parameter's well-formed `rate=` value and the bit depth to its well-formed `audio/L` value; a missing or malformed value leaves the previous number unchanged |
| `AudioMime.ApplyAllIsLastSetting` | app.py:50-61 | the loop, modelled as the left fold `ApplyAll` of `ApplyParam` over the parts, leaves each number at the value of the last parameter that sets it well-formedly, or at its starting value when no parameter does |
| `AudioMime.LastWellFormedWins` | app.py:47-62 | if parameter `i` sets a number well-formedly and no later parameter does, the parser `ParseAudioMimeType` returns parameter `i`'s value |
| `AudioMime.DefaultWhenNoneWellFormed` | app.py:47-48 | when no parameter sets a number well-formedly, the parser returns the default: 16 bits per sample, 24000 Hz |
| `AudioMime.AppendedParamOverrides` | app.py:53-61 | appending a parameter overrides a number when its value is well-formed; a malformed or unrelated parameter leaves the earlier result unchanged and does not reset it to the default |
| `AudioMime.SettingIgnoresPadding` | app.py:51 | whitespace around a parameter does not change what it sets |
| `AudioMime.RateKeyAnyCase` | app.py:52 | `rate=` followed by the canonical decimal text of a number (no leading zeros) sets the rate to that number in any mixture of upper and lower case, and sets no bit depth |
| `AudioMime.BitsKeyExactCase` | app.py:57 | any 7-character spelling of the key other than exactly `audio/L` sets no bit depth |
| `AudioMime.ParseFormatAudioMimeType` | app.py:45-62 | parsing `audio/L<bits>;rate=<rate>` gives back the bit depth and rate it was written from |
| `AudioMime.CanonicalExample` | app.py:45-62 | `audio/L16;rate=24000` parses to 16 bits at 24000 Hz |
| `Bytes.U16` | app.py:38 | the `<H` encoding is two bytes that read back little-endian as the value |
| `Bytes.U16OfRead` | app.py:38 | every two bytes are the `<H` encoding of the value they read as |
| `Bytes.U32` | app.py:38 | the `<I` encoding is four bytes that read back little-endian as the value |
| `Bytes.U32OfRead` | app.py:38 | every four bytes are the `<I` encoding of the value they read as |
| `Wav.PackHeader` | app.py:37-42 | packing succeeds exactly when every field fits its width (32 bits for `I`, 16 for `H`). On success it gives 44 bytes with the four tags, the constants 16, 1 and 1, and each field at its offset. On failure it names a field that does not fit, and every field packed before it fits |
| `Wav.HeaderLayout` | app.py:37-42 | the concatenated header pieces are 44 bytes, and each field reads back at its offset |
| `Wav.PackableWhenInRange` | app.py:32-42 | the header fields fit exactly when the sample rate, the byte rate `rate * (bits // 8)` and the RIFF size `36 + len(data)` are below 2^32 and the bit depth is below 2^16 |
| `Wav.EncodeWav` | app.py:30-43 | success is exactly packability of the computed fields; the output is 44 header bytes that say those fields, followed by the samples unchanged |
| `Wav.ConvertToWav` | app.py:25-43 | succeeds exactly under the range conditions above. The output is `44 + len(audio_data)` bytes and ends with `audio_data` unchanged. The header holds `RIFF` at 0 and the RIFF size `36 + data_size` at 4. It holds `WAVE` at 8, `fmt ` at 12, 16 at 16, format tag 1 at 20 and one channel at 22. It holds the parsed rate at 24, `rate * (bits // 8)` at 28, `bits // 8` at 32 and the bit depth at 34. It holds `data` at 36 and `data_size` at 40. The byte rate and block alignment divide the bit depth by 8 before multiplying, so `audio/L12` writes block alignment 1 and a byte rate equal to the sample rate. The fields are those `ComputeFields` derives from the parsed format |
| `Wav.DecodeEncode` | app.py:37-43 | decoding the output recovers the format and the samples it was written from |
| `Wav.EncodeDecode` | app.py:37-43 | every byte string the decoder accepts is exactly the encoder's output for what it decodes to |
| `Wav.SameHeader` | app.py:37-42 | two headers that say the same fields are byte-for-byte equal |
| `Narration.Collect` | app.py:110-125 | the loop over the stream raises exactly when some item has an empty candidate list, or an empty part list in its first candidate's content; otherwise it keeps at most one fragment per item, and every kept fragment is non-empty |
| `Narration.CollectOne` | app.py:115-125 | (`ItemStep` classifies one item) an item without candidates, content, parts, inline data or non-empty data contributes nothing; an item with non-empty data contributes exactly that data; an empty candidate or part list raises |
| `Narration.CollectAppend` | app.py:110-125 | the fragments of a concatenated stream are those of the first part followed by those of the second, so stream order is kept |
| `Narration.JoinAll` | app.py:131 | the joined audio is empty exactly when every fragment is empty |
| `Narration.JoinAllOne` | app.py:131 | joining a single fragment gives exactly that fragment |
| `Narration.JoinAllAppend` | app.py:131 | joining distributes over concatenation; with `JoinAllOne`, each fragment appears unchanged and in order |
| `Narration.GenerateNarration` | app.py:71-140 | a missing or empty `text` or `voiceId` gives a 400 with no backend call. Otherwise the backend is called once, with the text and the voice. A backend failure or a raising item gives a 500 server error, and a stream with no fragment gives the 500 "no audio" error. A stream with at least one fragment gives a 200 carrying the fragments joined in order, and a 200 happens only then and is never empty |

## Left out

- The Flask app, CORS, `.env` loading and the start-up check for the API key (app.py:12-20, 143-144) are process and HTTP plumbing, so they are not modelled.
- The `genai.Client` construction, model name and request configuration (app.py:82-114) become the `Backend` parameter. What the remote model returns is not visible, so it is abstract.
- A backend failure that happens part-way through the stream is modelled as a failure of the whole call. In the source, fragments collected before the exception are discarded and the reply is the same 500, so the outcome is the same.
- Base64 encoding and JSON building (app.py:134-136) are library calls. The model's 200 reply carries the bytes before encoding.
- The error message texts are left out, including the exception text echoed into the 500 message. So is the console print at app.py:139. The model keeps only the status and the kind of error.
- `request.get_json()` failing or returning a non-object is not modelled. The model also does not handle `text` or `voiceId` values that are JSON values other than strings. The request's fields are modelled as optional strings.
- PyText.ParseInt: models Python's `int()` (app.py:54, app.py:59) as a non-empty run of ASCII decimal digits, leading zeros allowed. Several things `int()` accepts are not modelled: a sign, surrounding whitespace such as `rate= 8000`, `_` digit separators and non-ASCII digits. So the model never yields a negative rate or bit depth. It therefore never reaches the `struct.pack` error that a negative value raises in the source. In the other direction, the model reads digit strings of any length, whereas Python 3.11 and later (and some earlier patch releases) raise `ValueError` for more than 4300 digits by default; that limit depends on the interpreter version and its configuration, which the repository does not fix. Under such an interpreter a `rate=` value of more than 4300 digits leaves the rate at its earlier value in the source, where the model reads the huge number and `Wav.ConvertToWav` reports it out of range.
- PyText.Lower: lower-cases only ASCII letters, whereas Python's `str.lower()` covers all of Unicode. It is used only for the `rate=` prefix test. The only non-ASCII characters that lower-case into ASCII are U+212A (to `k`) and U+0130 (to `i` plus a combining dot), and neither can produce `rate=`. So the test's result is the same.
- PyText.LowerPrefix: holds for the model's ASCII-only `Lower`, not for Python's `str.lower()`, which can lengthen text (U+0130) and lower-cases a final sigma by context. On the five-character `rate=` test both give the same answer, for the reason in the line above.
- `struct.pack`'s error message text is not modelled. `Wav.PackError` carries only the field that failed.
- The `mimetypes` import is unused. `gunicorn.conf.py` holds only deployment settings (timeouts, workers, bind address, logging) and has no logic.
