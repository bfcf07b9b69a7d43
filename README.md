# AKY voice web app — verified model of its core

The AKY voice web app sends a script to a text-to-speech service and saves the
audio it gets back as an MP3 file. It also keeps named profiles of form values
so a user can switch between saved settings. This project models in Dafny the
two parts of it that hold logic of their own:

- **Audio helpers** (`backend/aky_voice_backend.py`):
  - `parse_audio_mime_type` reads the bit depth and the sample rate out of a
    MIME type such as `audio/L16;rate=24000`, with defaults of 16 bits and
    24000 Hz.
  - `convert_to_wav` puts the canonical 44-byte RIFF/WAVE header for mono PCM
    in front of the raw samples.
  - `determine_output_paths` tries `base`, `base (1)`, `base (2)`, … in turn
    and picks the first `.mp3` path that does not exist. The `.wav` path gets
    the same counter suffix, but it is never checked and may already exist.
- **Profile store** (`streamlit_app.py`): a map from profile name to five form
  values, plus the name of the profile in use. It offers create, delete,
  switch and single-field update, and writes a snapshot to the profiles file
  after every change that succeeds.

Files:

| file | module | what it holds |
|---|---|---|
| `wrappers.dfy` | `Wrappers` | `Option` and `Result` |
| `py_str.dfy` | `PyStr` | the Python string operations the core uses: `strip`, `lower`, `startswith`, `split`, `split(c, 1)[1]`, `int(s)`, `str(n)` |
| `audio_mime.dfy` | `AudioMime` | `parse_audio_mime_type`: a loop method, the fold that specifies it, and lemmas about that fold |
| `wav.dfy` | `Wav` | `convert_to_wav`: the header bytes, a decoder, and the round trips between them |
| `output_paths.dfy` | `OutputPaths` | `determine_output_paths` as a search loop over a finite set of existing paths |
| `profiles.dfy` | `Profiles` | the default profile data and the `ProfileStore` class |
| `voices.dfy` | `Voices` | how the voice selector builds its entries and how the generator gets the voice name back |

Modelling choices:

- The file system is the finite set of paths that exist.
- The profiles file is the ghost field `ProfileStore.saved`, which holds the
  last snapshot written.
- The page's session state becomes the fields `profiles` and
  `currentProfile`.
- Bytes are integers `0..255`.
- The temperature is a `real` that is only stored and copied, never computed
  with.
- `convert_to_wav` returns a `Result`. `struct.pack` raises when a value does
  not fit its field. The model makes that an explicit failure (`FieldsFit`
  says exactly when it happens) rather than a precondition.
- `int(s)` is the total function `PyStr.ParseInt`. It accepts, in this order:
  - whitespace at both ends, where only space, tab, newline, carriage return,
    vertical tab and form feed count; these are the C-locale set CPython's
    `int` skips in an ASCII string, and they do not include the separators
    `\x1c`..`\x1f` that `str.strip` removes;
  - an optional `+` or `-`;
  - one or more ASCII digits, with single underscores allowed between digits,
    and at most 4300 digits in all (`MaxStrDigits`, the default of
    `sys.get_int_max_str_digits()`, enforced by CPython since 3.11, 3.10.7
    and earlier security releases).

  `None` stands for the `ValueError` that the parser's bare `except` swallows,
  and the value read so far is kept.
- `os.path.join` is modelled as POSIX Python computes it: an absolute second
  part replaces the first.

## Model

| member | source | states |
|---|---|---|
| `AudioMime.ParseAudioMimeType` | backend/aky_voice_backend.py:114-124 | the loop over the `;`-separated segments ends with exactly the bits/rate pair that the specification fold `MimeParams` gives for the MIME string |
| `AudioMime.LastAssignmentWins` | backend/aky_voice_backend.py:117-123 | the last segment that assigns a value decides it: later segments that are unrecognised, or whose number does not parse, keep it, and earlier assignments are overridden |
| `AudioMime.NoAssignmentKeepsDefault` | backend/aky_voice_backend.py:115-116 | a value that no segment assigns keeps its default (16 bits, 24000 Hz) |
| `AudioMime.UnrecognisedMimeGivesDefaults` | backend/aky_voice_backend.py:115-124 | if no segment is a `rate=` segment after lower-casing and stripping, and no stripped segment starts with `audio/L`, the result is 16 bits and 24000 Hz |
| `AudioMime.SilentSegmentKeepsValues` | backend/aky_voice_backend.py:119-123 | a segment that assigns nothing leaves both values exactly as they were |
| `AudioMime.UnparsableNumberIsSilent` | backend/aky_voice_backend.py:120 | a recognised segment whose number `int` rejects assigns nothing (`except: pass`) |
| `AudioMime.L16Segment` | backend/aky_voice_backend.py:121-122 | the segment `audio/L16` sets 16 bits and leaves the rate alone |
| `AudioMime.RateSegment` | backend/aky_voice_backend.py:118-119 | a segment `key=N`, where `key` spells `rate` in any mix of cases and N is written in canonical decimal with at most 4300 digits, sets the rate to N and leaves the bit depth alone |
| `AudioMime.RateMatchIgnoresCase` | backend/aky_voice_backend.py:118 | whether a segment is a `rate=` segment is the same for the segment and its lower-cased form |
| `AudioMime.LowerCaseAudioPrefixIgnored` | backend/aky_voice_backend.py:121 | the `audio/L` match is case-sensitive: a segment whose stripped form starts with `audio/l` never sets the bit depth |
| `AudioMime.GeneratorMimeType` | backend/aky_voice_backend.py:41-42 | the literal the generator passes, `audio/L16;rate=24000`, gives 16 bits and 24000 Hz |
| `AudioMime.RateKeyIgnoresCase` | backend/aky_voice_backend.py:118 | the `rate=` match ignores case: `audio/L16;RATE=8000` gives 8000 Hz |
| `AudioMime.BitsPrefixRespectsCase` | backend/aky_voice_backend.py:121 | the `audio/L` match respects case: `audio/l8` is ignored and the defaults stay |
| `AudioMime.LaterRateOverrides` | backend/aky_voice_backend.py:117-119 | with two rate segments the later wins: `rate=8000;rate=16000` gives 16000 Hz |
| `AudioMime.OverlongRateKeepsDefault` | backend/aky_voice_backend.py:117-120 | `audio/L16;rate=` followed by more than 4300 digits keeps the 24000 Hz default, because `int` raises |
| `AudioMime.UnparsableRateKeepsDefault` | backend/aky_voice_backend.py:119-120 | `audio/L16;rate=fast` keeps the 24000 Hz default |
| `PyStr.ParseIntString` | backend/aky_voice_backend.py:119 | `int(str(n)) == n` for every integer of either sign with at most 4300 digits |
| `PyStr.ParseIntPadded` | backend/aky_voice_backend.py:122 | `int` reads `str(n)` back as `n`, for at most 4300 digits, with any run, possibly empty, of the whitespace `int` skips on either side |
| `PyStr.ParseIntDigitLimit` | backend/aky_voice_backend.py:119-120 | `int` rejects a well-formed number, signed or not, with more than 4300 digits |
| `PyStr.IntSkipsLessThanStrip` | backend/aky_voice_backend.py:118-119 | `strip()` removes a leading `\x1c`, but `int` does not skip it: `int("\x1c8000")` raises |
| `PyStr.ParseIntRejects` | backend/aky_voice_backend.py:122 | `int` rejects a string with none of the whitespace it skips at its ends that starts with neither a sign nor a digit |
| `PyStr.AfterFirst` | backend/aky_voice_backend.py:119 | `s.split(c, 1)[1]` is defined exactly when `c` occurs in `s`, and it is what follows the first `c` |
| `PyStr.JoinSplit` | backend/aky_voice_backend.py:117 | joining the pieces of `s.split(";")` with `;` gives back `s` |
| `PyStr.SplitPiecesLackSeparator` | backend/aky_voice_backend.py:117 | no piece of `s.split(";")` holds a `;`, so each loop turn sees one whole segment |
| `PyStr.StripIsInfix` | backend/aky_voice_backend.py:118 | `strip()` returns a contiguous part of its input, removes only whitespace, and leaves no whitespace at either end of its result, so it removes all the whitespace at the two ends |
| `Wav.ConvertToWav` | backend/aky_voice_backend.py:106-112 | it succeeds exactly when every field fits its `struct.pack` width; the result is `44 + len(data)` bytes, the bytes from 44 on are the samples unchanged, and the first 44 bytes have the canonical layout for the parameters the MIME type gives |
| `Wav.HeaderLayout` | backend/aky_voice_backend.py:110-111 | the header is 44 bytes: `RIFF`, u32 `36+len`, `WAVE`, `fmt `, u32 16, u16 1 (PCM), u16 1 (mono), u32 rate, u32 `rate*(bits//8)`, u16 `bits//8`, u16 bits, `data`, u32 `len`, all little-endian |
| `Wav.U32RoundTrip` | backend/aky_voice_backend.py:110 | reading a `<I` field back gives the value written |
| `Wav.U16RoundTrip` | backend/aky_voice_backend.py:111 | reading a `<H` field back gives the value written |
| `Wav.DecodeWavFile` | backend/aky_voice_backend.py:110-112 | decoding a header-plus-samples file gives back its parameters and samples |
| `Wav.DecodedIsWavFile` | backend/aky_voice_backend.py:112 | every byte string the decoder accepts is exactly the file the encoder builds from what it decodes to |
| `Wav.ConvertThenDecode` | backend/aky_voice_backend.py:107-111 | bytes 24-27 and 34-35 of the converted file read back as the rate and bit depth that `parse_audio_mime_type` gave for the MIME type, and the samples follow |
| `Wav.GeneratorHeader` | backend/aky_voice_backend.py:41-43 | for the generator's MIME type the header says 24000 Hz, byte rate 48000, block align 2, 16 bits |
| `OutputPaths.DetermineOutputPaths` | backend/aky_voice_backend.py:87-99 | the loop ends for every finite set of existing paths; the MP3 path exists nowhere and is the first free one of `base.mp3`, `base (1).mp3`, …; the WAV path has the same counter suffix on the base in `folder` |
| `OutputPaths.CandidateInjective` | backend/aky_voice_backend.py:97-98 | different counters give different paths, which is why the loop ends |
| `OutputPaths.FirstTriesBounded` | backend/aky_voice_backend.py:96-99 | if the first `n` tries all exist then `n <= |existing|`, so the counter cannot pass the number of existing paths |
| `OutputPaths.CandidateSpelling` | backend/aky_voice_backend.py:97-98 | the f-string `f"{base} ({counter}).ext"` is try number `counter` |
| `OutputPaths.FirstFreeAfterTaken` | backend/aky_voice_backend.py:93-99 | when `base.mp3` up to `base (k-1).mp3` exist, the result carries ` (k)`: ` (1)` when only the plain name is taken, ` (5)` when ` (1)` to ` (4)` are taken too |
| `OutputPaths.WavPathNotChecked` | backend/aky_voice_backend.py:93-99 | only the MP3 path is tested: when the one existing file is `base.wav`, the search still returns `base.wav` as the WAV path |
| `OutputPaths.DetermineOutputPathsAsWritten` | backend/aky_voice_backend.py:100 | the function as written ends every call with `NameError` on `mp3_path` |
| `Profiles.LoadWithoutFile` | streamlit_app.py:25-37 | with no readable file, the data is the single profile `Default` (style `''`, text `''`, voice `Achernar - Soft`, temperature 0.9, filename `my_voiceover`), and `last_profile` is `Default` |
| `Profiles.ApplyChangesOneField` | streamlit_app.py:77 | a field update sets the field it names and leaves the other four unchanged |
| `Profiles.ProfileStore.constructor` | streamlit_app.py:52-60 | the store starts with the loaded profiles, and the current profile is the file's `last_profile` or else `Default`; it is a key when the file's `last_profile` is one |
| `Profiles.ProfileStore.CurrentProfileData` | streamlit_app.py:66-71 | the result is always one of the stored profiles, and while the store is consistent it is exactly the profile `currentProfile` names; the `Default` fallback is reached only from an inconsistent store, and `Default` must be a key because the fallback is evaluated eagerly |
| `Profiles.ProfileStore.SaveToCurrentProfile` | streamlit_app.py:74-82 | sets one field of the current profile, changes nothing else and writes the snapshot; it does nothing, and writes nothing, when `currentProfile` is not a key |
| `Profiles.ProfileStore.CreateNewProfile` | streamlit_app.py:85-104 | it returns false and changes nothing for an empty or all-whitespace name or a stripped name already taken; otherwise it maps the stripped name to a copy of the current profile's data, points at it, leaves every other entry alone, writes the snapshot and returns true |
| `Profiles.ProfileStore.DeleteProfile` | streamlit_app.py:107-122 | it returns false and changes nothing for `Default` or an unknown name; otherwise it removes exactly that key, makes `Default` current if that key was current, writes the snapshot and returns true |
| `Profiles.ProfileStore.SwitchProfile` | streamlit_app.py:125-133 | it points at the name and writes the snapshot when the name is a key; otherwise nothing changes |
| `Voices.VoiceNameForApi` | streamlit_app.py:306 | `display.split(' - ')[0]` is the text before the first occurrence of `' - '`, or the whole entry when there is none |
| `Voices.NameSurvivesDisplay` | streamlit_app.py:267 | a voice name without spaces, put in a selector entry `f"{name} - {desc}"`, is recovered exactly by the split |
| `Voices.DefaultVoiceName` | streamlit_app.py:31 | the default profile's voice `Achernar - Soft` sends `Achernar` to the generator |
| `Voices.VoiceIndex` | streamlit_app.py:269 | the selector position is the first entry equal to the stored voice, or 20 when there is none |
| `Voices.FirstIndex` | streamlit_app.py:185-186 | `list.index(x)` is the first position holding `x` |

Every `ProfileStore` method keeps `Valid()` (`Default` is a key) and keeps
`Consistent()` (the current profile and the `last_profile` of the last snapshot written are
keys). After every change that succeeds, `saved` equals
`{profiles, last_profile: current}`.

`Profiles.FreshInstallationSession` is a usage example, not a model of source code: it walks a fresh store through creating, editing and deleting a profile, and its assertions show what the method contracts let a caller conclude.

## Left out

- `run_tts_generation` and `prepare_api_config`: the remote speech service and its SDK configuration objects are foreign library calls.
- `convert_with_ffmpeg`: a subprocess call whose only logic is mapping its exceptions to messages.
- `save_binary_file`, `os.makedirs` and `os.remove`: file I/O. The file system appears only as the set of existing paths that `determine_output_paths` asks about.
- The JSON reading and writing in `load_profiles_from_file` and `save_profiles_to_file`. The file read is a parameter (`None` when it is missing or unreadable), and a write is the ghost snapshot. A failed write is not modelled.
- `Profiles.ProfileStore.constructor`: requires a loaded file to contain `Default`. The source accepts any file, but `get_current_profile_data` then raises `KeyError`. The check `'profiles' not in st.session_state` across page reruns is not modelled.
- The Streamlit page: widgets, callbacks, `check_password` and secrets. The voice-selector helpers are kept as functions on strings.
- The temperature is a stored value with no arithmetic on it. Slider bounds and floating-point behaviour are not modelled.
- `PyStr.ParseInt`, `PyStr.AsciiLower` and `PyStr.IsSpace` cover ASCII only. Python's `int` also accepts Unicode digits: in a string holding any non-ASCII character it first turns every non-ASCII Unicode space into a plain space and every Unicode decimal digit into an ASCII one, while characters below 127, `\x1c`..`\x1f` included, are kept as they are; `str.lower` folds non-ASCII letters, and `str.isspace` accepts Unicode spaces.
- `PyStr.ParseInt`: the digit limit is fixed at its default of 4300. `sys.set_int_max_str_digits` and `PYTHONINTMAXSTRDIGITS` can change it or turn it off, and Python 3.10.0 to 3.10.6 have no limit; none of this is modelled.
- The profiles are a `map`, which has no order. Python's dict keeps insertion order, which decides the order of the profile selector (streamlit_app.py:185) and of the keys in the JSON file.
- `Profiles.FieldUpdate` admits only the five field names the call sites pass (streamlit_app.py:238-325). `save_to_current_profile` accepts any string as a field name and would add an unknown key to the profile.
- streamlit_app.py does not compile as it stands: the argument lists of the widgets at lines 237, 246, 275, 284 and 292 lack a comma before `on_change`. The model follows the evident intent of those calls.
- Filename sanitisation and the choice between a WAV and an MP3 response do not exist in the modelled code, so they are not modelled.

## Findings

| source | as written | input that shows it | evidently intended | confidence | as-written member | corrected member |
|---|---|---|---|---|---|---|
| backend/aky_voice_backend.py:100 | `return wav_output, mp3_path`; `mp3_path` is bound nowhere in the function | any call, e.g. `determine_output_paths("out", "x")` on an empty folder | `return wav_output, mp3_output` | high (not executed) | `OutputPaths.DetermineOutputPathsAsWritten` | `OutputPaths.DetermineOutputPaths` |
