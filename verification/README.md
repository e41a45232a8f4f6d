# Podcast wizard — a Dafny model

This project models the core of a browser-based podcast wizard and of the small
Python backend behind it. A user uploads a document or gives a URL. The backend
extracts the content and asks a language model for a one- or two-host script.
The user edits the script line by line and has it spoken by a text-to-speech
service. The wizard has two front ends that call the same HTTP routes: a React
app and a plain DOM-scripted page.

Every module is a set of pure functions over immutable datatypes:

| module | models |
|---|---|
| `App` | `podcastpro/src/App.js`: normalising extracted content, step gating for the buttons and the step bar, the generation request, the wizard's callbacks |
| `ScriptEditor` | `ScriptEditor.js`: loading a script, role options, changing role or text, inserting and deleting lines |
| `ScriptGenerator` | `ScriptGenerator.js`: reading the generated script, role choices, the plain-text and exported script |
| `TtsSynthesis` | `TTSSynthesis.js`: default voices, per-speaker controls, the synthesis form, the progress timer, the clock display |
| `ContentUpload` | `ContentUpload.js`: the file check, extraction answers, switching input method, removing a file, the preview |
| `DomPage` | `webapp/static/main.js`: decoding the script payload, the script rows and their role buttons, reading the script back, the synthesis guard, page navigation, voice refresh, host names |
| `Api` | `webapp/api.py`: the extraction, voice, audio and script routes |
| `MinimaxTts` | `webapp/minimax_tts.py`: the client, the voice list, hex audio decoding, text segmentation |
| `Utils` | `webapp/utils.py`: the upload extension check |
| `PodcastGenerator` | `ai_parser/podcast_generator.py`: formatting extracted content for the model, the prompt choice, script generation, show notes |
| `Extractor` | `content_extractor/extractor.py`: dispatch by extension, output formatting |
| `TxtExtractor`, `DocExtractor`, `PdfExtractor` | the three file extractors |
| `ContentErrors` | `content_extractor/exceptions.py`, as one error datatype |
| `Document` | the record the extractors return, its conversion to a Python dictionary, and the common end of the PDF and Word extractors |
| `Wire` | the HTTP boundary: the generation request body as the route reads it, and the synthesis form as the route's fields |
| `Py`, `Json` | Python values (`None`, bool, int, str, list, insertion-ordered dict) with Python's truthiness, `in`, indexing and `str()`, and JavaScript/JSON values |
| `Strings`, `Wrappers`, `Settings` | shared string helpers, `Option`/`Result` and folds over them, the wizard's settings record |

## Modelling choices

- External services are function parameters, never calls:
  - `JSON.parse`, `JSON.stringify` and `json.loads` are abstract `Parser`/`Printer`/`Loader` functions. Lemmas that need a round trip say so in their `requires`.
  - The HTTP client, the TTS service, the language model and the document readers (`python-docx`, `PyPDF2`, file reads) become an outcome passed in: a `Result` holding either the answer or the error message.
- Python exceptions are `PyError` values. Code that may raise returns `Result<_, PyError>`, and a route's `try`/`except` becomes a match on that result.
- The regular expressions are written out as predicates over characters. Examples: the TXT heading and list patterns, the sentence split `[。！？!?.\n]` of the audio route, and the code-fence stripping.
- White space is the six ASCII white-space characters (space, tab, line feed, carriage return, vertical tab, form feed). `str.strip`, JavaScript `trim` and regex `\s` all use this one predicate, although they differ outside it (see "## Left out").
- `str.title` and `str.lower` are modelled on ASCII letters only.

## Behaviour worth noting

Each point below is what the code does, set against what its comments, prompts or the repository's own sample text lead one to expect. The model follows the code in each case:

- **Step bar.** Clicking the bar allows step 3 exactly when the script is not blank, without also checking the content. The "next" button counts a white-space-only script as present; the step bar does not.
- **Inserted lines.** An inserted line takes the first role option, or "" when there is none. It never takes "the other" role.
- **React synthesis form.** It always sends language 'zh'. Empty role names default to 角色A and 角色B. A failed request resets the progress bar to 0.
- **Normalising content.** An empty array read as content falls through to its JSON serialisation.
- **TXT extraction:**
  - Numbered headings ("1. …", "一、…") always match a list pattern, so they are read as list items, never as headings.
  - Heading level 3 cannot be reached.
  - A "第…章" paragraph ending in 。 is a paragraph, not a heading. In the repository's sample chapter text (`tests/test_txt_extractor.py:23-37`) each chapter title shares its paragraph with a sentence, so that text yields no heading at all, although `tests/test_txt_extractor.py:81-83` expects at least one (`TxtExtractor.SampleTextHasNoHeading`).
  - A missing file is reported as "no valid content".
- **Upload check.** `webapp/utils.py` refuses `.doc` by default, although the extractor accepts it.
- **Extracted lists.** An extracted list entry keeps its items under `text`. The script generator's bullet lines therefore never appear for it.
- **`key_points`.** If `key_points` is a string, the generator lists its characters one by one.
- **Prompt choice:**
  - `podcast_host` is never used.
  - A language other than 'en' or 'zh' gets the Chinese prompt with the English length instructions.
  - Show notes are Chinese exactly for 'zh', and `_generate_show_notes` is never called.
- **Audio route:**
  - `get_tts_client` runs outside the `try`, so a missing credential is an uncaught server error rather than a JSON 500.
  - A `None` role-A name matches items that have no role.
  - In single mode, a script that is not a JSON list falls back to splitting on sentence stops.
  - A plain-text line that starts with both host names goes to role A.
- **`ContentUpload.handleFileUpload`** is never wired to the UI. Removing a file does not tell the wizard.
- **`main.js` script payload.** A payload stringified four times decodes to no lines, because the page parses at most three times.
- **`main.js` voice options.** The page builds its options from `voice_id` and `voice_name` (`webapp/static/main.js:641,1008-1009`), but `/api/available_voices` sends each voice as `{value, label}` (`webapp/api.py:77-81`). Every option value is therefore "undefined". The synthesize button posts the selected value as it is (`webapp/static/main.js:416,439,444`), so "undefined" is posted as the voice (`Wire.PageVoiceOptionsUndefined`). The only fallback voice after `||` is in `generateAudio` (`webapp/static/main.js:932-948`), which nothing calls; it would not apply either, since "undefined" is not empty.
- **Role choices in the React editor.** `ScriptGenerator.js:122` passes `roles` to the editor, but `ScriptEditor.js:7-10` reads only `script` and `onChange`. The role choices that `ScriptGenerator.RoleChoices` computes, with their "disabled" flag, never reach the editor. The editor builds its own options from the script (`ScriptEditor.RoleOptions`).

The sample-text case is the nearest to a bug: the code and its sample disagree. Which one is wrong is not evident, since a heading on its own paragraph is classified as one; so it is recorded here rather than as a finding, and the model keeps the code's classification.

## Model

| member | source | states |
|---|---|---|
| App.ExtractedText | podcastpro/src/App.js:13-27 | falsy content reads as ""; a string reads as itself; an object's string `text` is used, else its string `content`, else its JSON serialisation; a non-empty array reads as its first element; an empty array falls through to its JSON serialisation |
| App.ShapesAgree | podcastpro/src/App.js:13-27 | a text delivered as a string, as `{text}`, as `{content}` or as `[{text}]` reads as the same text |
| App.TextWinsOverContent | podcastpro/src/App.js:16-18 | an object with both a string `text` and a string `content` reads as its `text` |
| App.NestingIsTransparent | podcastpro/src/App.js:20-22 | wrapping content in any number of one-element arrays does not change the text read from it |
| App.PreviewAgreesWithWizard | podcastpro/src/App.js:13-17 | the upload step's preview and the wizard read a string, or an object with a non-empty string `text`, as the same text |
| App.JumpTo | podcastpro/src/App.js:331-356 | a step-bar click moves only to the clicked step; step 0 is always allowed, steps 1 and 2 exactly when the content is not blank, step 3 exactly when the script is not blank |
| App.Navigate | podcastpro/src/App.js:209-220 | "next" advances exactly when below the last step and the current step's gate holds; "previous" goes back only above step 0; only the step changes and it stays within 0..3 |
| App.CanGoNext | podcastpro/src/App.js:272-292 | on the upload step "next" is enabled exactly when the step bar would move to step 1; on the script step it is enabled whenever the bar would move to step 3, and also for a non-empty blank script, which the bar refuses |
| App.Run | podcastpro/src/App.js:209-220 | a run of clicks changes only the wizard's step; RunStaysValid keeps that step in 0..3 |
| App.RunStaysValid | podcastpro/src/App.js:209-220 | no sequence of button or step-bar clicks leaves steps 0..3 |
| App.LeavingUploadNeedsInput | podcastpro/src/App.js:331-356 | whatever clicks are made, the wizard is past the upload step only with ready content or a non-blank script |
| App.ButtonsEarnEachStep | podcastpro/src/App.js:272-294 | with the buttons alone, every step past the first has ready content and the last step has a non-empty script |
| App.BuildGenerationRequest | podcastpro/src/App.js:121-146 | refused exactly when the content is falsy; otherwise the settings are copied, with only the single host's role fields in single mode and only the two hosts' otherwise |
| Wire.GenerationPayload | podcastpro/src/App.js:121-151 | the body the route reads holds the six general fields and then exactly the role fields of the request's mode, in the order the page adds them, the content first |
| Wire.FieldArrives | webapp/api.py:198-215 | every field of the body is what `payload.get` finds under its key |
| Wire.GeneralFieldsArrive | webapp/api.py:198-215 | the content, title, preview, mode, language and length reach the generator as the page set them; host and duties arrive as `None` |
| Wire.OneHostFieldsArrive | webapp/api.py:207-212 | in single mode the single host's name and style arrive and the two hosts' fields are `None` |
| Wire.HostAFieldsArrive | webapp/api.py:209-210 | in two-host mode the first host's name and style arrive as set |
| Wire.HostBFieldsArrive | webapp/api.py:211-212 | in two-host mode the second host's name and style arrive as set |
| Wire.SingleHostFieldsAbsent | webapp/api.py:207-208 | in two-host mode the single host's fields are `None` |
| Wire.WizardRequestArrives | podcastpro/src/App.js:121-151 | the request the wizard builds reaches the route with the wizard's content, mode, length and language, and with the role names of the wizard's mode only |
| App.OnGenerated | podcastpro/src/App.js:152-163 | a successful answer replaces the script; an HTTP failure or an `error` member leaves the wizard as it was |
| App.OnContentExtracted | podcastpro/src/App.js:113-118 | new extracted content replaces the old and nothing else changes |
| App.OnScriptEdit | podcastpro/src/App.js:248 | an edit stores the JSON serialisation of the edited lines as the script and changes nothing else |
| App.EditRoundTrip | podcastpro/src/App.js:248 | with a parser that inverts the serialiser, loading the stored script gives back exactly the edited lines |
| App.OnSynthesisComplete | podcastpro/src/App.js:203-206 | a finished synthesis replaces the audio and nothing else |
| App.FailedSynthesisKeepsAudio | podcastpro/src/components/TTSSynthesis.js:181-195 | a failed synthesis request hands no audio to the wizard, so the previous audio stays |
| TtsSynthesis.ApplyDefaultVoices | podcastpro/src/components/TTSSynthesis.js:40-51 | an empty list changes nothing; a voice already chosen is never replaced; an empty host or role-A voice becomes the first option, an empty role-B voice the second (or the first when there is none); speed, volume, pitch and emotion are kept |
| TtsSynthesis.DefaultVoicesIdempotent | podcastpro/src/components/TTSSynthesis.js:42-50 | applying the defaults twice with the same list is the same as applying them once |
| TtsSynthesis.DefaultVoicesFillAll | podcastpro/src/components/TTSSynthesis.js:42-50 | when the first option has a non-empty value, every voice is non-empty afterwards |
| TtsSynthesis.OnVoicesFetched | podcastpro/src/components/TTSSynthesis.js:34-60 | a failed fetch leaves only the fallback voice option; an answer without a voice list changes nothing; a list becomes the options and fills in the empty voices |
| TtsSynthesis.ApplyControl | podcastpro/src/components/TTSSynthesis.js:224-281 | a control sets exactly its own field of one voice and keeps the other four |
| TtsSynthesis.Update | podcastpro/src/components/TTSSynthesis.js:224-461 | a control of one speaker's panel changes that speaker's parameters only; every other speaker's are unchanged |
| TtsSynthesis.UpdatesCommute | podcastpro/src/components/TTSSynthesis.js:224-461 | changes to two different speakers can be applied in either order |
| TtsSynthesis.LastWriteWins | podcastpro/src/components/TTSSynthesis.js:224 | choosing a voice twice keeps the second choice |
| TtsSynthesis.SynthesisForm | podcastpro/src/components/TTSSynthesis.js:125-161 | refused exactly for an empty script; the form carries the text, the mode and language 'zh', plus the single voice's five fields in single mode, or both roles' fields with names defaulting to 角色A and 角色B otherwise |
| Wire.Received | webapp/api.py:89-93 | the route accepts the form exactly when it holds the text; the mode defaults to 'single'; a role name is present exactly when the form holds it |
| Wire.SynthesisFormArrives | podcastpro/src/components/TTSSynthesis.js:125-177 | the form the page posts reaches the route with the script and mode, and in two-host mode with the host names defaulting to 角色A and 角色B |
| Wire.SingleSynthesisNarrated | webapp/api.py:155-173 | a single-host script from the page is spoken by the narrator throughout and never stops early |
| Wire.DoubleSynthesisLineByLine | webapp/api.py:119-150 | a plain two-host script from the page, each line led by its host's name, gives one call per line in order with that line's host and text |
| Wire.PageVoiceOptionsUndefined | webapp/static/main.js:1005-1010 | every voice the route sends as `{value, label}` gives the page an option value of "undefined"; the synthesize button posts that value as it is, and even `generateAudio`'s fallback would keep it |
| TtsSynthesis.Tick | podcastpro/src/components/TTSSynthesis.js:164-172 | the progress counter grows by ten below ninety and is held at ninety from there on |
| TtsSynthesis.TicksFromZero | podcastpro/src/components/TTSSynthesis.js:164-172 | after n ticks from zero the counter shows min(10n, 90) |
| TtsSynthesis.TicksFrom | podcastpro/src/components/TTSSynthesis.js:164-172 | from any multiple of ten up to ninety, n ticks add 10n, capped at ninety |
| TtsSynthesis.TicksAtTop | podcastpro/src/components/TTSSynthesis.js:166-168 | once at ninety, the counter stays at ninety |
| TtsSynthesis.Synthesize | podcastpro/src/components/TTSSynthesis.js:124-199 | an empty script sends nothing; otherwise the form is sent, the bar waits at min(10 x ticks, 90), and ends at 100 with the audio delivered on success or at 0 with nothing delivered on failure |
| TtsSynthesis.FormatTime | podcastpro/src/components/TTSSynthesis.js:100-105 | an unknown or zero time shows "00:00"; any other shows zero-padded minutes and seconds |
| TtsSynthesis.ClockFields | podcastpro/src/components/TTSSynthesis.js:102-103 | for a positive time, seconds are within 0..59 and minutes times sixty plus seconds is the whole number of seconds |
| TtsSynthesis.ClockReadsBack | podcastpro/src/components/TTSSynthesis.js:100-105 | the clock of a positive time splits at its last colon into the padded minutes and the padded seconds |
| TtsSynthesis.ClockText | podcastpro/src/components/TTSSynthesis.js:100-105 | the seconds field of the clock always has two characters |
| ScriptEditor.DecodeLine | podcastpro/src/components/ScriptEditor.js:8 | a line object's string `role` and `text` are read as they are |
| ScriptEditor.DecodeLines | podcastpro/src/components/ScriptEditor.js:15-30 | one line per element, in order, each element decoded on its own; DecodeEncodeLines makes it the inverse of encoding |
| ScriptEditor.DecodeEncodeLines | podcastpro/src/components/ScriptEditor.js:8-9 | decoding the objects an array of lines is encoded as gives back the same lines |
| ScriptEditor.Load | podcastpro/src/components/ScriptEditor.js:15-25 | an array is used as it is (decoded line by line); a string that parses to an array loads exactly when no element is `null`, as those elements decoded; a string that does not parse, or a value that is neither string nor array, gives no lines; a parsed non-array cannot be loaded |
| ScriptEditor.LoadAfterEdit | podcastpro/src/components/ScriptEditor.js:15-25 | with a parser that inverts the serialiser, loading the serialisation of lines gives back exactly those lines |
| ScriptEditor.DistinctNonEmpty | podcastpro/src/components/ScriptEditor.js:27 | the result holds exactly the non-empty values of the input, each once, in order of first occurrence |
| ScriptEditor.RoleOptions | podcastpro/src/components/ScriptEditor.js:27-28 | the options are exactly the non-empty roles of the lines, without repeats, in order of first occurrence |
| ScriptEditor.ChangeRole | podcastpro/src/components/ScriptEditor.js:33-40 | only the role of line `idx` changes; its text, the length and every other line are kept; the new lines are reported |
| ScriptEditor.ChangeText | podcastpro/src/components/ScriptEditor.js:42-49 | only the text of line `idx` changes; its role, the length and every other line are kept; the new lines are reported |
| ScriptEditor.Delete | podcastpro/src/components/ScriptEditor.js:51-61 | a one-line script is kept, a warning is shown and nothing is reported; otherwise exactly line `idx` is removed, the rest keep their order and the new lines are reported |
| ScriptEditor.DefaultRole | podcastpro/src/components/ScriptEditor.js:66 | the role of an inserted line is the first option, or "" without options |
| ScriptEditor.Insert | podcastpro/src/components/ScriptEditor.js:63-71 | one empty line with the default role goes right after `idx`; earlier lines stay in place, later ones move up by one; the new lines are reported |
| ScriptEditor.DeleteUndoesInsert | podcastpro/src/components/ScriptEditor.js:51-71 | deleting the line just inserted gives back the original lines |
| ScriptEditor.InsertKeepsRoleOptions | podcastpro/src/components/ScriptEditor.js:27-28 | inserting a line with the default role leaves the set of role options unchanged |
| ScriptEditor.SelectorFor | podcastpro/src/components/ScriptEditor.js:87-108 | without options a disabled placeholder is shown; otherwise the shown role is an option, it is the line's role exactly when that role is an option, and the selector is disabled exactly when there is one option |
| ScriptGenerator.ViewOf | podcastpro/src/components/ScriptGenerator.js:116-128 | the spinner shows exactly while loading; when not loading, the editor shows on the parsed value exactly when its `length` compares greater than zero (a non-empty array or string, or an object whose `length` member does, as `HasLength` states); otherwise the raw text shows exactly when the script is non-empty and the prompt exactly when it is empty; a script parsing to `null` makes the panel fail to render |
| ScriptGenerator.HasLength | podcastpro/src/components/ScriptGenerator.js:118 | reading `length` throws only on `null`; an array or string compares its length with 0, an object its `length` member (as JavaScript compares a value with 0), and a number or boolean has no `length` |
| ScriptGenerator.LengthMemberOpensEditor | podcastpro/src/components/ScriptGenerator.js:57-66 | a script parsing to an object with a positive numeric `length` opens the editor on that object, and formatting it for copy or download throws |
| ScriptGenerator.TextLengthOpensEditor | podcastpro/src/components/ScriptGenerator.js:118 | a `length` member holding the text "2" compares greater than zero, so that object opens the editor too |
| ScriptGenerator.EditedScriptReopens | podcastpro/src/components/ScriptGenerator.js:17-22 | a non-empty script saved by the editor reopens in the editor with exactly the saved lines |
| ScriptGenerator.RoleChoices | podcastpro/src/components/ScriptGenerator.js:27-54 | single mode offers one role, otherwise two; no value is empty; the options are disabled exactly for an English single host without a name; the values are the settings' names or the per-language defaults |
| ScriptGenerator.TwoHostRoleOptions | podcastpro/src/components/ScriptGenerator.js:27-54 | a two-host script that opens with the first offered host and uses both offered hosts and no other gives the editor exactly those two options in that order |
| ScriptGenerator.PairOfDistinct | podcastpro/src/components/ScriptEditor.js:27-28 | a repeat-free option list holding exactly two distinct roles has two entries |
| ScriptGenerator.LineTexts | podcastpro/src/components/ScriptGenerator.js:59-65 | for lines the editor stores (string role and text), one text per line, each being the line's text (single mode) or "role：text" |
| ScriptGenerator.FormatEmpty | podcastpro/src/components/ScriptGenerator.js:57-66 | the formatted script is empty exactly when there are no lines or it is one single-mode line with empty text |
| ScriptGenerator.FormatSplitsBack | podcastpro/src/components/ScriptGenerator.js:61-64 | when no line text holds a newline, splitting the formatted script at blank lines gives back each line's text |
| ScriptGenerator.FormatScript | podcastpro/src/components/ScriptGenerator.js:57-66 | an array formats unless it holds `null` (reading a field of `null` throws), to its items' texts joined by blank lines, each item shown as JavaScript shows it (a missing member as "undefined" in a template, a number as its digits); the empty string formats to "", any other string and `null` throw; an object throws exactly when its `length` member is truthy (it has no `map`), and formats to "" otherwise; numbers and booleans format to "" |
| ScriptGenerator.ExportScript | podcastpro/src/components/ScriptGenerator.js:68-99 | the copy and download buttons are disabled exactly for an empty script; what is exported is the non-empty formatted script; the nothing-to-export error shows exactly when it formats to ""; the click throws exactly when formatting throws |
| ScriptGenerator.TwoHostScriptExports | podcastpro/src/components/ScriptGenerator.js:64-89 | a two-host script that parses to lines exports exactly those lines as "role：text" paragraphs |
| ScriptGenerator.ItemLinesOfEncoded | podcastpro/src/components/ScriptGenerator.js:59-65 | items written by the editor show exactly as the lines they encode |
| ScriptGenerator.FormatEncoded | podcastpro/src/components/ScriptGenerator.js:57-66 | a script stored by the editor formats to its lines joined by blank lines |
| ScriptGenerator.MissingRoleShowsUndefined | podcastpro/src/components/ScriptGenerator.js:64 | a two-host item with no role is shown as "undefined：text" |
| ScriptGenerator.NullRoleShowsNull | podcastpro/src/components/ScriptGenerator.js:64 | a two-host item whose role is `null` is shown as "null：text" |
| ScriptGenerator.StringItemShowsUndefined | podcastpro/src/components/ScriptGenerator.js:64 | a bare string in the script array is shown as "undefined：undefined" |
| ScriptGenerator.NumericTextExports | podcastpro/src/components/ScriptGenerator.js:60-89 | a single host's item whose text is the number 5 exports as "5" |
| ContentUpload.CheckFile | podcastpro/src/components/ContentUpload.js:21-38 | the type test comes first; a file is accepted exactly when its type is PDF, Word or plain text and it is smaller than ten mebibytes |
| ContentUpload.Receive | podcastpro/src/components/ContentUpload.js:49-67 | on a good answer the content is kept and reported to the wizard; on a failed one nothing changes and nothing is reported |
| ContentUpload.BeforeUpload | podcastpro/src/components/ContentUpload.js:21-70 | a refused file changes and sends nothing; an accepted one becomes the only file and is sent for extraction; its content is kept and reported only on success; the widget never uploads by itself |
| ContentUpload.UrlExtract | podcastpro/src/components/ContentUpload.js:117-153 | a blank address sends nothing; otherwise the trimmed address is sent, and the content is kept and reported only on success |
| ContentUpload.SwitchMethod | podcastpro/src/components/ContentUpload.js:160-179 | switching input method keeps the extracted content, the file list and the address |
| ContentUpload.RemoveFile | podcastpro/src/components/ContentUpload.js:71-74 | removing the file empties the list and the shown content, without telling the wizard |
| ContentUpload.Preview | podcastpro/src/components/ContentUpload.js:218-222 | the preview is hidden exactly for falsy content; it shows a string as is, an object's truthy `text` as that text, and any other truthy non-string whose `text` is missing or falsy as its pretty-printed form |
| ContentUpload.PreviewFollowsExtraction | podcastpro/src/components/ContentUpload.js:54-74 | after a successful extraction of truthy content the preview shows; after removing the file it is hidden |
| DomPage.DecodeScript | webapp/static/main.js:238-251 | the decode loop yields the items of at most three parses of `podcast_script`, stopping at the first failure, and nothing for a non-array |
| DomPage.ParseUndoesEncode | webapp/static/main.js:241-247 | each successful parse removes one layer of stringification from a non-string value |
| DomPage.NestedEncodings | webapp/static/main.js:238-251 | an array stringified up to three times decodes to its items; stringified four times it decodes to nothing |
| DomPage.HostNames | webapp/static/main.js:1108-1109 | the two-host names are the inputs, or "角色A"/"角色B" when empty; neither is empty |
| DomPage.InitialRole | webapp/static/main.js:1112 | a new row starts with the item's role exactly when that role is one of the two hosts, otherwise with host A |
| DomPage.ToggleRole | webapp/static/main.js:1115-1119 | a click on the role button gives host B from host A and host A from anything else |
| DomPage.ToggleTwice | webapp/static/main.js:1112-1119 | with two different host names, two clicks restore the row's role |
| DomPage.RenderRow | webapp/static/main.js:1083-1120 | a row's text box shows the item's text when it is a string, and "" when the text is missing or falsy; its button shows the single host's name, or the starting role followed by the swap symbol |
| DomPage.RenderRows | webapp/static/main.js:1083-1091 | the editor is cleared and then holds one row per item, in order, for the items before the first `null` (reading its `role` throws, which stops the loop); with no `null` item every item has its row |
| DomPage.NullStopsAfterFirstRow | webapp/static/main.js:1085-1088 | a `null` after one item leaves the editor holding that item's row only |
| DomPage.NumericTextShown | webapp/static/main.js:1125 | a row whose item text is a non-zero number shows that number's digits |
| DomPage.ItemText | webapp/static/main.js:254 | a missing or falsy text shows as ""; a string text shows as itself |
| DomPage.LineOfRow | webapp/static/main.js:226-233 | a row gives no line exactly when its text is blank; otherwise a line with trimmed, non-empty text |
| DomPage.ScriptFromRows | webapp/static/main.js:223-235 | the script read from the page has no more lines than there are rows; ScriptFromRowsKept and RowRoundTrip state which lines and what they hold |
| DomPage.ScriptFromRowsKept | webapp/static/main.js:223-235 | every line read back from the page has trimmed, non-empty text |
| DomPage.ScriptFromRowsEmpty | webapp/static/main.js:223-235 | the page reads back no line exactly when every row's text is blank |
| DomPage.ScriptFromRowsAppend | webapp/static/main.js:223-235 | reading back goes row by row: two runs of rows read as the two runs' lines, concatenated |
| DomPage.LabelReadsBack | webapp/static/main.js:228 | a trimmed host name without the swap symbol reads back from its button unchanged |
| DomPage.RowRoundTrip | webapp/static/main.js:223-235 | one kept line of a host, rendered in two-host mode and read back, is unchanged |
| DomPage.TwoHostRoundTrip | webapp/static/main.js:223-235 | a two-host script of kept lines, rendered and read back from the page, is the same script |
| DomPage.ScriptStats | webapp/static/main.js:207-213 | the word count is the trimmed length; the minutes are zero exactly for an empty text and otherwise one per started 200 characters |
| DomPage.ShowGeneratedScript | webapp/static/main.js:238-254 | the rows of the decoded items before the first `null` are shown; generation completes exactly when no item is `null`, and then the counters are those of the items' texts joined by line feeds; otherwise the throw rejects the promise the click handler does not await (`webapp/static/main.js:361`), and the counters and the saved script stay as they were |
| DomPage.ItemTexts | webapp/static/main.js:254 | the text of each item as `item.text || ''` reads it, in order |
| DomPage.StatsCountShownText | webapp/static/main.js:238-254 | the counters shown after generation are those of the rendered text boxes joined by line feeds; the word count is the trimmed length of that text |
| DomPage.SynthesisGuard | webapp/static/main.js:401-434 | synthesis is refused for want of a script exactly when the stringified page script is empty or "[]"; in two-host mode it is refused when a trimmed host name is empty |
| DomPage.NoScriptExactlyWhenAllBlank | webapp/static/main.js:223-404 | with a standard stringifier, synthesis is refused for want of a script exactly when every row's text is blank |
| DomPage.NextClick | webapp/static/main.js:696-745 | step 2 shows exactly when the active method has its input given; step 3 exactly when some row's text is not blank; step 1 always; targets outside 1..3 or not numbers are ignored |
| DomPage.PrevClick | webapp/static/main.js:750-756 | "previous" shows its target exactly when it is a number in 1..3 and is ignored otherwise |
| DomPage.BarClick | webapp/static/main.js:763-766 | a click on the n-th step of the bar shows step n + 1 |
| DomPage.PageStep | webapp/static/main.js:696-766 | a bar click always shows its step; a button click leaves the step or moves to its own target in 1..3; "next" reaches step 3 from elsewhere only when some row's text is not blank |
| DomPage.PageStaysInRange | webapp/static/main.js:670-770 | with a three-step bar, every sequence of clicks keeps the page on steps 1 to 3 |
| DomPage.RefreshedVoice | webapp/static/main.js:997-1017 | after the options are replaced the selector holds an offered voice or nothing; a chosen voice survives exactly when still offered; with nothing chosen the first option is selected |
| DomPage.RefreshStable | webapp/static/main.js:997-1017 | a voice that survives a refresh survives the next refresh with the same list |
| DomPage.OptionId | webapp/static/main.js:1008 | an option's value is the voice's string `voice_id`, and "undefined" when the voice has no `voice_id` |
| DomPage.OptionIds | webapp/static/main.js:1005-1010 | one option value per voice, in order |
| DomPage.PostedVoice | webapp/static/main.js:945-948 | in `generateAudio`, which nothing calls, the selected voice is read when it is non-empty and the fixed fallback only when it is empty |
| DomPage.DisplayName | webapp/static/main.js:584-609 | a known key shows its non-empty display name, an unknown key shows itself |
| DomPage.DisplayNamesDistinct | webapp/static/main.js:584-609 | under a table of non-empty, pairwise different names every known key shows its name and two known keys never show alike |
| DomPage.StatusTableNamesEveryKey | webapp/static/main.js:584-591 | the status table's names are non-empty, pairwise different and each differs from its key |
| DomPage.VoiceTableNamesEveryKey | webapp/static/main.js:600-609 | the voice table's names are non-empty, pairwise different and each differs from its key |
| DomPage.KnownNames | webapp/static/main.js:584-609 | "completed" shows as 已完成 and a known voice by its name; an unknown status or voice shows as itself |
| Utils.AllowedFile | webapp/utils.py:3-6 | a name is allowed exactly when its lower-cased ending equals one of the allowed extensions; no set given means .pdf, .docx and .txt |
| Utils.DefaultAcceptsUpperCasePdf | webapp/utils.py:3-6 | by default a name ending in ".PDF" is allowed (the name is lower-cased) |
| Utils.DefaultRejectsDoc | webapp/utils.py:3-6 | by default a name ending in ".doc" is refused |
| Utils.DefaultNeedsLastChar | webapp/utils.py:3-6 | by default a name whose last letter is not f, x or t (in any case) is refused |
| Utils.EmptySetRejects | webapp/utils.py:3-6 | an explicitly empty set of extensions refuses every name |
| Utils.UpperCaseExtensionNeverMatches | webapp/utils.py:3-6 | an extension holding an upper-case letter never matches, since only the name is lower-cased |
| Utils.MoreExtensionsAllowMore | webapp/utils.py:3-6 | allowing more extensions never refuses a name that fewer allowed |
| TxtExtractor.PatternLevel | content_extractor/extractors/txt_extractor.py:13-30 | a level exists exactly when some heading pattern matches; it is 1, 2 or 3, and 3 exactly when the double-numbered pattern is the first to match |
| TxtExtractor.HeadingLevel | content_extractor/extractors/txt_extractor.py:195-208 | the level of the first matching heading pattern, else 1 |
| TxtExtractor.ListTypeOf | content_extractor/extractors/txt_extractor.py:223-236 | a list type is found exactly when the line is a list item |
| TxtExtractor.NumberedHeadingsAreListItems | content_extractor/extractors/txt_extractor.py:18-19 | every numbered heading ("1. x", "1.2. x") also matches the numbered list pattern, so it is never taken as a heading |
| TxtExtractor.ChineseNumberedHeadingsAreListItems | content_extractor/extractors/txt_extractor.py:24 | every Chinese-numbered heading ("一、x") also matches the Chinese list pattern |
| TxtExtractor.ChapterWithTitleIsChapter | content_extractor/extractors/txt_extractor.py:15-16 | the chapter-with-title pattern only refines the bare chapter pattern |
| TxtExtractor.HeadingLevelIsOneOrTwo | content_extractor/extractors/txt_extractor.py:174-208 | a paragraph taken as a heading always gets level 1 or 2: the level-3 pattern cannot win |
| TxtExtractor.DropNumber | content_extractor/extractors/txt_extractor.py:263 | removing the leading number leaves a suffix of the line |
| TxtExtractor.DropBullet | content_extractor/extractors/txt_extractor.py:264 | removing the leading bullet leaves a suffix of the line |
| TxtExtractor.ItemOf | content_extractor/extractors/txt_extractor.py:253-268 | a line gives an item exactly when its trimmed form is a non-empty list item; the item has that line's list type and trimmed text |
| TxtExtractor.ListItems | content_extractor/extractors/txt_extractor.py:238-270 | there are never more items than lines |
| TxtExtractor.ItemsOfLinesAppend | content_extractor/extractors/txt_extractor.py:253-268 | the items of consecutive groups of lines are the items of each group, in order |
| TxtExtractor.ItemsAreUnpadded | content_extractor/extractors/txt_extractor.py:266 | every item's text is free of surrounding whitespace |
| TxtExtractor.NoItems | content_extractor/extractors/txt_extractor.py:253-270 | a group of lines yields no item exactly when none of its lines does |
| TxtExtractor.NumberedLine | content_extractor/extractors/txt_extractor.py:253-268 | "3. text" is a numbered item whose text is `text` |
| TxtExtractor.BulletLine | content_extractor/extractors/txt_extractor.py:253-268 | "• text" is a bullet item whose text is `text` |
| TxtExtractor.Paragraphs | content_extractor/extractors/txt_extractor.py:140 | every paragraph is non-empty and trimmed |
| TxtExtractor.ParagraphsOfJoin | content_extractor/extractors/txt_extractor.py:140 | trimmed, non-empty, single-line paragraphs joined by blank lines are split back exactly |
| Strings.SplitJoinParagraphs | content_extractor/extractors/txt_extractor.py:140 | splitting at blank lines undoes joining by blank lines for parts that hold no blank line and do not end in a line feed |
| TxtExtractor.ParagraphsOfBlankLineJoin | content_extractor/extractors/txt_extractor.py:140 | trimmed non-empty paragraphs without blank lines, joined by blank lines, are read back as they were |
| TxtExtractor.SampleTextParagraphs | tests/test_txt_extractor.py:23-37 | the test's sample text is read as exactly its five paragraphs |
| TxtExtractor.EntryOf | content_extractor/extractors/txt_extractor.py:142-170 | a paragraph gives no entry exactly when it is a list with no item; it gives a heading exactly when it is one, named after itself with level 1 or 2; other entries keep the current section; a list's type is its first item's |
| TxtExtractor.Walk | content_extractor/extractors/txt_extractor.py:142-170 | at most one entry per paragraph; WalkSections, WalkAppend and WalkEmpty state the entries' sections, order and absence |
| TxtExtractor.ExtractContent | content_extractor/extractors/txt_extractor.py:125-172 | the entries come from the walk over the text's paragraphs, at most one per paragraph; SampleTextHasNoHeading applies it to the test's text |
| TxtExtractor.WalkSections | content_extractor/extractors/txt_extractor.py:135-172 | every entry belongs to the latest heading before it, or to the section the walk started in |
| TxtExtractor.WalkAppend | content_extractor/extractors/txt_extractor.py:135-172 | the entries of two runs of paragraphs are those of the first, then those of the second read in the section the first leaves open |
| TxtExtractor.WalkEmpty | content_extractor/extractors/txt_extractor.py:135-172 | no entry comes out exactly when every paragraph is a list with no item |
| TxtExtractor.PunctuatedParagraph | content_extractor/extractors/txt_extractor.py:185-186 | a non-list paragraph closed by sentence punctuation is a paragraph of the current section, whatever heading pattern it matches |
| TxtExtractor.ChapterWithSentenceIsParagraph | content_extractor/extractors/txt_extractor.py:185-186 | a chapter line followed by a sentence ending in 。 is read as a paragraph, not a heading |
| TxtExtractor.WalkWithoutHeadings | content_extractor/extractors/txt_extractor.py:142-152 | paragraphs none of which is a heading contribute no heading entry |
| TxtExtractor.SampleTextHasNoHeading | tests/test_txt_extractor.py:23-37 | the sample chapter text, read paragraph by paragraph, gives no heading entry: both chapter titles share a paragraph with a sentence ending in 。 |
| TxtExtractor.DashLineVanishes | content_extractor/extractors/txt_extractor.py:155-163 | "-" on a line of its own makes the paragraph a list, yet no line is an item, so the paragraph vanishes |
| TxtExtractor.OneCharacterIsNoItem | content_extractor/extractors/txt_extractor.py:33-45 | a single non-space character is never a list item |
| TxtExtractor.Title | content_extractor/extractors/txt_extractor.py:106-109 | the title is at most 100 characters long, or else the file's base name |
| TxtExtractor.ShortFirstLineIsTitle | content_extractor/extractors/txt_extractor.py:106-109 | a first line of at most 100 characters once trimmed becomes the title |
| TxtExtractor.LongFirstLineGivesBaseName | content_extractor/extractors/txt_extractor.py:106-109 | a longer first line leaves the base name as title |
| TxtExtractor.TotalLines | content_extractor/extractors/txt_extractor.py:112-120 | the line count is one more than the number of newlines |
| TxtExtractor.NonEmptyLines | content_extractor/extractors/txt_extractor.py:113-121 | non-blank lines never outnumber lines |
| TxtExtractor.Metadata | content_extractor/extractors/txt_extractor.py:91-123 | the metadata has the seven keys in order: the title, the file size from `os.stat`, the two times, the number of lines (one more than the newlines), the number of non-blank lines and the number of words |
| TxtExtractor.Extract | content_extractor/extractors/txt_extractor.py:47-89 | every failure is a no-valid-content error; a decoding failure has its own message, the others carry the extractor's prefix; success exactly for a non-blank decoded text with file information and some entry, giving the title, metadata, entries, no key points and the fixed caution |
| TxtExtractor.ItemlessTextRefused | content_extractor/extractors/txt_extractor.py:62-72 | a non-blank text whose every paragraph is an item-less list is refused as having no valid content |
| DocExtractor.StyleLevel | content_extractor/extractors/doc_extractor.py:104 | a heading level is the style name's last character when it is a digit (so 0 to 9), else 1 |
| DocExtractor.StyleLevels | content_extractor/extractors/doc_extractor.py:104 | "Heading d" has level d, a bare "Heading" level 1 |
| DocExtractor.ParaEntry | content_extractor/extractors/doc_extractor.py:92-121 | a paragraph gives no entry exactly when blank; it is a heading exactly when its style starts with "Heading", named by its trimmed text; otherwise a paragraph of trimmed text in the current section, the untitled one before any heading |
| DocExtractor.ParaEntries | content_extractor/extractors/doc_extractor.py:92-121 | paragraphs give only heading and paragraph entries, at most one each |
| DocExtractor.TableEntries | content_extractor/extractors/doc_extractor.py:124-137 | one table entry per table with rows, holding trimmed cells, in the section left open by the paragraphs |
| DocExtractor.TrimRows | content_extractor/extractors/doc_extractor.py:126-130 | every row keeps its cells, each trimmed |
| DocExtractor.ExtractContent | content_extractor/extractors/doc_extractor.py:79-139 | all table entries come after all paragraph entries |
| DocExtractor.ContentSections | content_extractor/extractors/doc_extractor.py:79-139 | every entry, tables included, belongs to the latest heading before it, or to the untitled section |
| DocExtractor.ParaLastSection | content_extractor/extractors/doc_extractor.py:98-99 | the section the paragraph entries leave open is the last non-blank heading, or the untitled one |
| DocExtractor.ParaCount | content_extractor/extractors/doc_extractor.py:93-95 | blank paragraphs and only they are dropped: there are as many entries as non-blank paragraphs |
| DocExtractor.Metadata | content_extractor/extractors/doc_extractor.py:47-77 | without core properties the five base keys, author and both times empty; with them the same keys overwritten in place by the core values (unset ones empty): author, created, modified, then title, subject and keywords; the paragraph and section counts are the document's |
| DocExtractor.Title | content_extractor/extractors/doc_extractor.py:37 | the core title (empty when unset) if there are core properties, else the file's base name |
| DocExtractor.TitleFromMetadata | content_extractor/extractors/doc_extractor.py:37 | the title is what looking up "title" in the metadata finds, with the base name as default |
| DocExtractor.Extract | content_extractor/extractors/doc_extractor.py:10-45 | a reader failure and an empty content are both wrapped as no valid content; success exactly when something is extracted, giving the title, metadata, entries, no key points and the fixed caution |
| DocExtractor.BlankDocumentRefused | content_extractor/extractors/doc_extractor.py:29-30 | a document with only blank paragraphs and row-less tables is refused |
| PdfExtractor.InfoGet | content_extractor/extractors/pdf_extractor.py:57-68 | a missing key reads as ""; otherwise the value under the key's first occurrence |
| PdfExtractor.PageNamesDistinct | content_extractor/extractors/pdf_extractor.py:84-92 | two pages have the same section name "第n页" exactly when they have the same number |
| PdfExtractor.PageOption | content_extractor/extractors/pdf_extractor.py:84-92 | a page contributes an entry exactly when its text is not blank, named after its page number |
| PdfExtractor.ExtractContent | content_extractor/extractors/pdf_extractor.py:72-92 | no more entries than pages; PagesHoldText, PagesAscend and NonBlankPagesKept state what they hold and in which order |
| PdfExtractor.PagesHoldText | content_extractor/extractors/pdf_extractor.py:84-92 | every entry is numbered within the document and holds its page's text, which is not blank |
| PdfExtractor.PagesAscend | content_extractor/extractors/pdf_extractor.py:84-92 | page numbers strictly increase along the entries |
| PdfExtractor.NonBlankPagesKept | content_extractor/extractors/pdf_extractor.py:84-92 | page n has an entry exactly when its text is not blank |
| PdfExtractor.NothingIffAllBlank | content_extractor/extractors/pdf_extractor.py:84-92 | nothing is extracted exactly when every page is blank |
| PdfExtractor.Metadata | content_extractor/extractors/pdf_extractor.py:57-68 | without document information the metadata is empty; otherwise the five text fields and the page count, in order |
| PdfExtractor.Title | content_extractor/extractors/pdf_extractor.py:37 | the information's title (empty when missing) when there is information, else the file's base name |
| PdfExtractor.TitleFromMetadata | content_extractor/extractors/pdf_extractor.py:37 | the title is what looking up "title" in the metadata finds, with the base name as default |
| PdfExtractor.Extract | content_extractor/extractors/pdf_extractor.py:10-45 | a reader failure and an empty content are both wrapped as no valid content; success exactly when some page has text, giving the title, metadata, entries, no key points and the fixed caution |
| Document.FileDoc | content_extractor/extractors/pdf_extractor.py:10-45 | a reader failure and an empty content become no valid content under the extractor's prefix; otherwise the file document with no key points and the given caution |
| PdfExtractor.BlankPdfRefused | content_extractor/extractors/pdf_extractor.py:29-30 | a PDF whose pages are all blank is refused |
| Document.ListTypeNamesDistinct | content_extractor/extractors/txt_extractor.py:33-45 | the six list types have six different names, none of them "unknown" |
| Document.ItemToPy | content_extractor/extractors/txt_extractor.py:265-268 | a list item is the dictionary of its text and type |
| Document.EntryToPy | content_extractor/extractors/txt_extractor.py:146-170 | every entry dictionary starts with its section title, text and content type, in that order |
| Document.EntryShape | content_extractor/extractors/txt_extractor.py:146-170 | an entry dictionary holds its section, its text and its kind; a heading also holds its level, a list its type |
| Document.LookupExtra | content_extractor/extractors/pdf_extractor.py:87-92 | a key other than the three common ones is found among the entry's extra field (level, list type or page number) |
| Document.ToPy | content_extractor/extractors/txt_extractor.py:77-84 | the returned dictionary has the six keys in order: source type, title, metadata, content, key points, cautions |
| Extractor.ExtractorFor | content_extractor/extractor.py:19-24 | .pdf selects the PDF extractor, .docx and .doc the Word one, .txt the text one, and nothing else selects any |
| Extractor.Extension | content_extractor/extractor.py:40 | the extension is a suffix of the path: empty, or a dot followed by neither dot nor slash |
| Extractor.ExtensionOf | content_extractor/extractor.py:40 | a stem ending in an ordinary character, a dot and a dot-free, slash-free suffix has exactly that extension |
| Extractor.LastDot | content_extractor/extractor.py:40 | the last dot of the last path component starts the extension when an ordinary character precedes it |
| Extractor.NoDotNoExtension | content_extractor/extractor.py:40 | a path without a dot has no extension |
| Extractor.ProcessFile | content_extractor/extractor.py:27-45 | a missing file is reported first; an unknown lower-cased extension is refused naming it; otherwise the matching extractor's result is returned as is |
| Extractor.CaseInsensitiveDispatch | content_extractor/extractor.py:40-45 | for an existing file, changing the case of its extension changes neither the extractor chosen nor the error |
| Extractor.FormatOutput | content_extractor/extractor.py:59-74 | the fields are kept as given, absent key points becoming an empty list |
| Extractor.EmptyKeyPointsAsAbsent | content_extractor/extractor.py:59-74 | an empty key-point list and no list give the same output |
| Extractor.FormatOutputReadsBack | content_extractor/extractor.py:59-74 | the dictionary reads back the source type, title, metadata, key points (empty when absent) and cautions it was built from |
| MinimaxTts.NewClient | webapp/minimax_tts.py:18-24 | a client is built exactly when both the key and the group are set and non-empty, and holds them; otherwise the missing-credentials error is raised |
| MinimaxTts.GetClient | webapp/minimax_tts.py:115-121 | a held client is returned as is; otherwise one is built and held only when building succeeds |
| MinimaxTts.ClientBuiltOnce | webapp/minimax_tts.py:115-121 | once a client has been obtained, later calls return that same client whatever the environment says |
| MinimaxTts.VoiceList | webapp/minimax_tts.py:38-43 | for an object answer: its `system_voice` list, else its `voices` list, else nothing; an answer that cannot be searched by key raises |
| MinimaxTts.ListAnswer | webapp/minimax_tts.py:38-43 | a list answer raises exactly when it holds the string "system_voice" or "voices", and otherwise gives no voices |
| MinimaxTts.ToHex | webapp/minimax_tts.py:60 | the hex form of some bytes has two hex digits per byte |
| MinimaxTts.HexRoundTrip | webapp/minimax_tts.py:81-82 | decoding the hex form of some bytes gives back those bytes |
| MinimaxTts.FromHex | webapp/minimax_tts.py:82 | a string of white space only decodes to no bytes; HexRoundTrip makes it the inverse of ToHex |
| MinimaxTts.AudioOf | webapp/minimax_tts.py:76-89 | audio comes from `data.audio` decoded from hex; every failure carries the synchronous-call prefix |
| MinimaxTts.AudioOfInner | webapp/minimax_tts.py:79-85 | `data.audio` present as a string gives its decoding (a bad hex string raises); a missing `data` or `audio` gives the unexpected-content error showing the answer |
| MinimaxTts.AudioRoundTrip | webapp/minimax_tts.py:80-83 | the answer the service gives for some audio decodes to that audio |
| MinimaxTts.MissingDataRaises | webapp/minimax_tts.py:84-89 | an answer without `data` fails with the unexpected-content error inside the synchronous-call prefix |
| MinimaxTts.SlicesFrom | webapp/minimax_tts.py:95 | the slices concatenate to the text; each is non-empty and at most the maximum long, all but the last exactly the maximum; there are just enough of them |
| MinimaxTts.SegmentCount | webapp/minimax_tts.py:95 | a text splits into ceil(length / maximum) segments |
| MinimaxTts.Segments | webapp/minimax_tts.py:95 | a zero maximum raises as `range` does, a negative one gives no segment, a positive one the slices |
| MinimaxTts.EmptyTextNoSegments | webapp/minimax_tts.py:95 | an empty text has no segment for any non-zero maximum |
| MinimaxTts.SegmentsPartition | webapp/minimax_tts.py:95 | with a positive maximum the segments concatenate back to the text and number ceil(length / maximum) |
| MinimaxTts.SynthesizeAll | webapp/minimax_tts.py:100-102 | all pieces come back, in segment order, exactly when no segment fails |
| MinimaxTts.LongText | webapp/minimax_tts.py:91-102 | a raising range stops the call; otherwise it succeeds exactly when every segment synthesizes, with one piece per segment in order |
| MinimaxTts.LongTextDefault | webapp/minimax_tts.py:91-102 | with the default maximum of 800, success exactly when every 800-character segment synthesizes, with ceil(length / 800) pieces; a failure is a segment failure |
| MinimaxTts.ShortTextOneCall | webapp/minimax_tts.py:91-102 | a non-empty text of at most 800 characters is synthesized in one call |
| PodcastGenerator.TitleCaseIdempotent | ai_parser/podcast_generator.py:218 | title-casing twice is title-casing once |
| PodcastGenerator.CasedKeepsLetters | ai_parser/podcast_generator.py:218 | changing case keeps letters letters and non-letters as they are, and is idempotent |
| PodcastGenerator.TitleCase | ai_parser/podcast_generator.py:218 | title-casing keeps the length; TitleCaseIdempotent and TwoWordsTitled state the casing |
| PodcastGenerator.KeyLabel | ai_parser/podcast_generator.py:218 | a key's label has the key's length; PageCountLabel shows `page_count` as "Page Count" |
| PodcastGenerator.Underscores | ai_parser/podcast_generator.py:218 | every underscore becomes a space and every other character is kept |
| PodcastGenerator.PageCountLabel | ai_parser/podcast_generator.py:218 | the key "page_count" is labelled "Page Count" |
| PodcastGenerator.TwoWordsTitled | ai_parser/podcast_generator.py:218 | two lower-case words joined by one space come out with each word capitalised and nothing else changed |
| PodcastGenerator.MetadataLine | ai_parser/podcast_generator.py:216-218 | a metadata entry gives a line exactly when its value is truthy |
| PodcastGenerator.MetadataLines | ai_parser/podcast_generator.py:216-218 | the metadata lines are empty exactly when every value is falsy |
| PodcastGenerator.MetadataLinesAppend | ai_parser/podcast_generator.py:216-218 | the lines of two runs of entries are the lines of each, in order |
| PodcastGenerator.Bullets | ai_parser/podcast_generator.py:235-236 | bullet lines are empty exactly when there is no element |
| PodcastGenerator.FieldLine | ai_parser/podcast_generator.py:224-227 | a truthy field gives its line, a missing or falsy one nothing |
| PodcastGenerator.SectionBlock | ai_parser/podcast_generator.py:223-230 | a content item raises exactly when it is not a dictionary (only dictionaries have `.get`); a block always ends with a blank line |
| PodcastGenerator.SectionBlocks | ai_parser/podcast_generator.py:223-230 | the content blocks raise exactly when some item is not a dictionary |
| PodcastGenerator.MetadataPart | ai_parser/podcast_generator.py:214-219 | falsy metadata gives nothing; truthy metadata that is not a dictionary raises; otherwise the heading, the lines and a blank line |
| PodcastGenerator.SectionsPart | ai_parser/podcast_generator.py:221-230 | falsy content gives nothing; a non-empty list succeeds exactly when every item is a dictionary, and then starts with the content heading |
| PodcastGenerator.KeyPointsPart | ai_parser/podcast_generator.py:233-237 | falsy key points give nothing; a non-iterable raises; otherwise one bullet per iterated element, so a string lists its characters |
| PodcastGenerator.CautionsPart | ai_parser/podcast_generator.py:239-240 | the caution section is empty exactly when the caution is falsy |
| PodcastGenerator.FormatContent | ai_parser/podcast_generator.py:203-280 | the text starts with the title line; it fails exactly when the metadata, content or key-point section raises |
| PodcastGenerator.TitleOnly | ai_parser/podcast_generator.py:203-280 | content without truthy metadata, entries, key points or caution serialises to the title line alone |
| PodcastGenerator.ExtractedListShownWhole | ai_parser/podcast_generator.py:223-230 | an extracted list entry keeps its items under `text`, so it is shown as the repr of the item list and never as bullet lines |
| PodcastGenerator.NoItemsNoBullets | ai_parser/podcast_generator.py:228-229 | an item without `items` has no bullet lines |
| PodcastGenerator.ExtractedBlocks | ai_parser/podcast_generator.py:223-230 | the entries of any extracted document form blocks without raising |
| PodcastGenerator.DocFields | ai_parser/podcast_generator.py:207-209 | the metadata, entries and key points are read from where an extractor stores them |
| PodcastGenerator.ExtractedDocFormats | ai_parser/podcast_generator.py:203-280 | whatever an extractor returns serialises without raising, in either language |
| PodcastGenerator.TierOf | ai_parser/podcast_generator.py:95-108 | "short" and "long" select their tiers, every other hashable value the medium one, and a list or dict raises |
| PodcastGenerator.LengthInstruction | ai_parser/podcast_generator.py:95-108 | the Chinese table for language 'zh' and the English one otherwise, each text as the source has it (no contract: see "## Left out") |
| PodcastGenerator.OrElse | ai_parser/podcast_generator.py:113-114 | a truthy value is kept and a falsy one replaced by the default |
| PodcastGenerator.CastOf | ai_parser/podcast_generator.py:111-196 | the cast has one role exactly in single mode, two otherwise |
| PodcastGenerator.PromptOf | ai_parser/podcast_generator.py:94-196 | the English prompt exactly for 'en'; the Chinese length table exactly for 'zh'; the preview is included exactly when truthy; the speakers introduce themselves exactly when named; the content is passed unchanged |
| PodcastGenerator.OtherLanguageMixes | ai_parser/podcast_generator.py:94-111 | a language other than 'en' and 'zh' gets the Chinese prompt with the English length instruction |
| PodcastGenerator.DefaultCast | ai_parser/podcast_generator.py:131-136 | two unnamed hosts get the branch's default names and the mild style |
| PodcastGenerator.Generate | ai_parser/podcast_generator.py:72-201 | empty content or an empty entry list raises first; success means the content serialised, the length was found, the model answered, and the answer is returned stripped; a failed call is reported with its prefix |
| PodcastGenerator.HostIgnored | ai_parser/podcast_generator.py:100 | the podcast host argument makes no difference to the result |
| PodcastGenerator.ModelAsked | ai_parser/podcast_generator.py:89-201 | once the guard, serialisation and length lookup pass, the result is the model's stripped answer, or its failure with the prefix |
| PodcastGenerator.ExtractedDocAccepted | ai_parser/podcast_generator.py:89-201 | an extractor's result with some content is always serialised and sent to the model |
| PodcastGenerator.ShowNotes | ai_parser/podcast_generator.py:311-389 | Chinese notes exactly for 'zh', with the title or the language's placeholder; the model's stripped answer, or the fixed apology when the call fails |
| PodcastGenerator.NotesSameForNonChinese | ai_parser/podcast_generator.py:311-389 | every language other than 'zh' gets the same notes |
| PodcastGenerator.TrimmedNotesKept | ai_parser/podcast_generator.py:386 | an answer without surrounding white space is returned unchanged |
| Api.ErrorText | webapp/api.py:47-48 | a `ValueError` is shown by its own message |
| Api.ExtractFile | webapp/api.py:29-48 | an upload without a name or stream is refused with 400; otherwise 200 with the extracted document exactly when extraction succeeds, else 500 with the error's message |
| Api.ExtractUrl | webapp/api.py:50-56 | 200 with the web content exactly when the web extraction succeeds, else 500 with its message |
| Api.Extract | webapp/api.py:58-69 | the file field is handled first, then the URL field; with neither the request is refused with 400 |
| Api.FileFieldWins | webapp/api.py:61-64 | sending a URL along with a file changes nothing, and a text value in the file field is refused with 400 even when a URL is present |
| Api.ExtractSucceeds | webapp/api.py:29-69 | the extraction route answers 200 exactly when some source was given and its extraction succeeded |
| Api.VoiceEntry | webapp/api.py:78-82 | a non-dictionary voice raises; a dictionary is kept as value and label exactly when its id and name are both truthy |
| Api.VoiceOption | webapp/api.py:79 | the entry sent for a voice reads back its id under `value` and its name under `label`, and has no `voice_id` or `voice_name` |
| Api.FormatVoices | webapp/api.py:78-82 | the formatting raises exactly when some voice is not a dictionary; otherwise every kept entry has a truthy value and label, and there are no more entries than voices |
| Api.FormatVoicesAppend | webapp/api.py:78-82 | formatting a list is formatting its two halves and concatenating |
| Api.FormatVoicesOne | webapp/api.py:77-82 | one voice is formatted as VoiceEntry reads it: its error, or its entry when kept, or nothing |
| Api.KeptVoices | webapp/api.py:77-82 | no more kept voices than voices |
| Api.FormatVoicesKeeps | webapp/api.py:77-82 | a list of dictionaries formats without error to exactly the voices with a truthy id and name, in order, as `{value, label}` |
| Api.AvailableVoices | webapp/api.py:71-86 | 200 with the formatted voices exactly when the client, the request, the voice list and the formatting all succeed; any failure is a 500 with its text |
| Api.MissingCredentialsReported | webapp/api.py:71-86 | missing credentials reach the front end as the constructor's message |
| Api.LineItem | webapp/api.py:126-132 | a line starting with role A's non-empty name goes to A, else one starting with B's to B, with the rest of the line stripped; any other line is dropped |
| Api.ItemValueCall | webapp/api.py:134-150 | a built item never raises; with non-blank text and a matching role it asks for that role to speak the stripped text |
| Api.KeptAll | webapp/api.py:126-132 | when every line gives an item, the items are those of the lines, in order |
| Api.Kept | webapp/api.py:126-132 | no more items than lines, each an item of some role and text; KeptAll gives them in order when every line gave one |
| Api.FallbackScript | webapp/api.py:124-132 | the fallback reading has at most one item per line of the text, each an item of some role and text; FallbackRoundTrip reads named lines back |
| Api.FallbackRoundTrip | webapp/api.py:126-132 | lines written as a name followed by a stripped text are read back as the same roles and texts |
| Api.SpeakerOf | webapp/api.py:141-150 | role A speaks exactly when the item's role equals A's name, else role B exactly when it equals B's; the narrator never speaks in double mode |
| Api.ItemCall | webapp/api.py:134-150 | an item raises exactly when it is not a dictionary or its text is not a string; a call has the stripped non-empty text and the matching speaker; no call means blank text or no matching role |
| Api.StoppingCompletes | webapp/api.py:134-150 | the loop ends without error exactly when no step raises, and every call comes from some step |
| Api.StoppingAppend | webapp/api.py:134-150 | the loop over two runs gives the first run's calls, then, unless it stopped, the second's |
| Api.Stopping | webapp/api.py:134-150 | no more calls than steps; StoppingCompletes and StoppingAllCalls state when it stops and which calls it keeps |
| Api.DoublePlan | webapp/api.py:134-150 | no more calls than items; DoublePlanCompletes and DoublePlanAppend state when it runs to the end |
| Api.DoublePlanCompletes | webapp/api.py:134-150 | the double-mode loop runs to the end exactly when no item raises |
| Api.DoublePlanAppend | webapp/api.py:134-150 | the plan of two runs of items is the first run's calls, then, unless it stopped, the second's |
| Api.FallbackNeverFails | webapp/api.py:124-150 | the items built from plain-text lines never raise |
| Api.RoleAFirst | webapp/api.py:129-132 | a line starting with both names goes to role A |
| Api.MissingRoleMatchesMissingName | webapp/api.py:135-141 | an item without a role is spoken by role A when no name for A was sent, since both are `None` |
| Api.Sentences | webapp/api.py:166 | every sentence of the plain-text reading is non-empty and stripped |
| Api.SentencesRoundTrip | webapp/api.py:166 | stripped sentences without stops, joined by "。", are read back one by one |
| Api.SingleText | webapp/api.py:163 | a dictionary's string text gives its stripped form when not blank; a dictionary without text gives nothing; whatever is given is non-empty and stripped |
| Api.SingleTexts | webapp/api.py:163 | the JSON reading succeeds exactly when no item raises, and gives non-empty stripped texts |
| Api.SingleTextsAppend | webapp/api.py:163 | the JSON reading of two runs of items is the two readings laid end to end |
| Api.SingleScript | webapp/api.py:158-166 | single mode speaks non-empty stripped texts; text that is not a JSON list, or whose items raise, is read as sentences |
| Api.PlanOf | webapp/api.py:119-175 | every mode other than 'double' speaks with the narrator and never stops early; double mode never uses the narrator |
| Api.DoubleCallsSpoken | webapp/api.py:134-150 | every double-mode call has a role and non-empty text |
| Api.Run | webapp/api.py:134-175 | running succeeds exactly when every call succeeds, keeping the non-empty pieces in order |
| Api.GenerateAudio | webapp/api.py:88-186 | a client failure escapes the handler; otherwise a failing call gives 500 with its message, a script that stopped reading gives 500 with that error, and otherwise the pieces are streamed |
| Api.PlainDoubleScript | webapp/api.py:119-150 | a plain-text double script of "name + text" lines gives one call per line, in order, with that line's role and text |
| Api.PlanOfItems | webapp/api.py:134-150 | items of the two roles with stripped texts give one call each, in order |
| Api.StripFences | webapp/api.py:242-245 | the result is stripped and no longer than the script |
| Api.FencedBody | webapp/api.py:242-245 | a fenced block with a language tag gives back its body |
| Api.UnfencedStripped | webapp/api.py:242-245 | text without fences is only stripped |
| Api.RequestOf | webapp/api.py:201-215 | the content is passed on; mode 'single', length 'medium' and language 'zh' are used when absent |
| Api.GenerateScript | webapp/api.py:197-249 | falsy content is refused with 400; 200 exactly when the generator succeeds, carrying its script with fences removed; any other failure is a 500 |
| Api.EmptyContentRefused | webapp/api.py:222-223 | the refusal of empty content does not depend on the model |
| DocExtractor.ParaSections | content_extractor/extractors/doc_extractor.py:92-121 | every paragraph entry belongs to the section opened by the latest heading before it, or to the untitled section before any heading |
| DocExtractor.TableSections | content_extractor/extractors/doc_extractor.py:124-137 | every table entry belongs to the section current when the tables are read |
| DocExtractor.NoParaEntries | content_extractor/extractors/doc_extractor.py:92-121 | paragraphs that are all blank give no entries, headings included |
| DocExtractor.NoTableEntries | content_extractor/extractors/doc_extractor.py:124-137 | tables without rows give no entries |
| TxtExtractor.NumberedLineIsItem | content_extractor/extractors/txt_extractor.py:33-45 | "digits. text" is a numbered list item |
| TxtExtractor.NumberedLineDropped | content_extractor/extractors/txt_extractor.py:263-264 | removing the markers of "digits. text" leaves the space and the text |
| TxtExtractor.SpaceIsNoBullet | content_extractor/extractors/txt_extractor.py:264 | text starting with a space has no bullet to remove |
| TxtExtractor.DashIsNoItem | content_extractor/extractors/txt_extractor.py:33-45 | a lone "-" is not a list item, since every pattern wants a character after its marker |
| TxtExtractor.FooIsNoItem | content_extractor/extractors/txt_extractor.py:33-45 | a plain word is not a list item |
| TxtExtractor.DashLineItems | content_extractor/extractors/txt_extractor.py:238-270 | a paragraph of a lone "-" and a plain word lists no items |
| PodcastGenerator.ExtractedParts | ai_parser/podcast_generator.py:214-237 | an extractor's metadata, entries and key points each format without raising |
| Api.StoppingAllCalls | webapp/api.py:134-150 | items that all ask for a call give exactly those calls, in order, and no error |
| Api.BuiltItemSucceeds | webapp/api.py:134-150 | an item built from a role and a text never raises |
| Api.SpokenLineItem | webapp/api.py:126-132 | a line written as a role's name followed by a stripped text is read back as that role and text |
| Api.ItemsOfSpoken | webapp/api.py:126-132 | a run of such lines is read back line by line |
| Api.OpeningFence | webapp/api.py:243 | an opening fence with a language tag and its newline is skipped, and the text goes on |
| Api.ClosingFence | webapp/api.py:244-245 | a closing fence after a newline is dropped along with the newline |

## Left out

- Network calls:
  - `fetch` and `requests`;
  - the Ark language-model client and the MiniMax HTTP API.
  Each answer is an input of the function that receives it.
- `JSON.parse`, `JSON.stringify` and `json.loads`: they are abstract functions, not a JSON parser or printer.
- `content_extractor/extractors/web_extractor.py` and `Extractor.process_url`, which only calls it. The web extraction is an input of `Api.ExtractUrl`.
- PDF and Word parsing (`PyPDF2`, `python-docx`): the page texts, paragraphs, styles, tables and document properties are given as sequences and records.
- File-system effects:
  - reading a TXT file;
  - `os.path.exists`, given as a boolean;
  - saving the upload under `uploads/` and removing it afterwards (`webapp/api.py:40-45`).
- Audio splicing and export with `pydub` (`webapp/api.py:153-155,177-182`, `webapp/minimax_tts.py:98-113`): the model keeps the list of audio pieces, in order, instead of one joined file.
- The prompt texts of `podcast_generator.py`: the model keeps which prompt and which default hosts are chosen, not the prompts' wording. The two length tables are the exception: `LengthInstruction` holds them word for word.
- `PodcastGenerator.LengthInstruction` has no contract. Stating anything about its long literal texts costs the verifier more than its limit allows.
- `Json.Value`: a JavaScript or JSON number is an integer (`Json.Num` holds an `int`), so values such as `{"text": 5.5}` are not modelled.
- `_simulate_llm_response`, the Flask route and `get_available_voices` in `podcast_generator.py`: none is used by the modelled routes.
- `/api/task_list` and `loadTaskHistory`: they only relay stored task records.
- Floating point:
  - speed, volume and pitch are reals;
  - `int()` truncation of volume and pitch in the audio route is not modelled;
  - the size check in `ContentUpload` uses exact division.
- The regular-expression engine: each pattern is a hand-written predicate over characters. Unicode white space beyond ASCII is not recognised (see `Strings.IsSpace` below).
- Unicode digits: Python's `\d` and `str.isdigit` also accept non-ASCII decimal digits (so "１、要点" is a numbered item, and a Word style name ending in "３" has a digit level), whereas `IsDigit` accepts only '0' to '9'.
- `Strings.IsSpace`, `Strings.Trim` and `Strings.IsBlank`: white space is the six ASCII characters only. Python's `str.strip` and JavaScript's `String.prototype.trim` also remove U+00A0, U+2000 to U+200A, U+3000 and (in JavaScript) U+FEFF, which the model keeps. A Chinese paragraph indented with two full-width spaces ("　　") is therefore stripped by `txt_extractor.py`, and can then be read as a heading, whereas the model keeps the indent and reads it as a paragraph. Blank checks and word counts differ the same way.
- `Json.ExceedsZero`: JavaScript's comparison of a string with 0 reads decimal, hexadecimal and "Infinity" texts. Exponent forms ("1e3") and the binary and octal prefixes ("0b1", "0o7") are read as not a number, so such a `length` text keeps the editor closed in the model although JavaScript opens it.
- `DomPage.ShowGeneratedScript`: the promise rejection that a `null` item causes is reported only as `completed` being false; the console error is not modelled.
- The separators U+001C to U+001F: Python's `str.strip` and `\s` remove them, JavaScript's `trim` does not. The model's one white-space predicate leaves them in for all three.
- The word count of `main.js` (`webapp/static/main.js:208`): JavaScript counts UTF-16 code units, so a character outside the Basic Multilingual Plane counts twice. The model counts characters.
- `str.title` and `str.lower` are modelled on ASCII letters only.
- UI plumbing:
  - JSX and DOM rendering, drag and drop, clipboard, downloads and object URLs;
  - audio playback events;
  - `localStorage` role-name persistence and the mode-switch display toggles in `main.js`.
- Timing and concurrency:
  - `setInterval` is a discrete tick function;
  - async ordering and last-write-wins between overlapping requests are not modelled.
- `PodcastSettings.js`, `views.py`, `main.py`, `config.py` and `base_extractor.py`: wiring and form widgets, with the settings record in `Settings`.
- `ContentUpload.handleFileUpload` (`ContentUpload.js:78-114`): it is never attached to the UI.
- A file sent under the `url` form field of `/api/extract`: the model takes the fields as a file upload or a string.
- A `None` script returned by the model in `generate_podcast_script`: generated scripts are strings.
- `PdfExtractor.ExtractContent`: its own contract only bounds the length. What it keeps, and in what order, is stated by `PagesHoldText`, `PagesAscend`, `NonBlankPagesKept` and `NothingIffAllBlank`.
- `TxtExtractor.Walk` and `TxtExtractor.ExtractContent`: their own contracts only bound the number of entries. The entries are stated by `WalkSections`, `WalkAppend`, `WalkEmpty` and `WalkWithoutHeadings`.
- `Api.Kept`, `Api.FallbackScript`, `Api.Stopping` and `Api.DoublePlan`: their own contracts bound the length. `KeptAll`, `FallbackRoundTrip`, `StoppingCompletes`, `StoppingAllCalls`, `DoublePlanCompletes` and `DoublePlanAppend` state what they hold.
- `Api.KeptVoices`: its own contract bounds the length. `FormatVoicesKeeps` ties it to the route's formatting.
- `PodcastGenerator.TitleCase` and `PodcastGenerator.KeyLabel`: their own contracts state the length only. `TitleCaseIdempotent`, `TwoWordsTitled` and `PageCountLabel` state the casing.
- `TxtExtractor.Title`: its own contract only bounds the title. The two cases are stated by `ShortFirstLineIsTitle` and `LongFirstLineGivesBaseName`.
- `DomPage.ScriptFromRows`: its own contract only bounds the length. Its content is stated by `ScriptFromRowsKept`, `ScriptFromRowsEmpty`, `ScriptFromRowsAppend` and `RowRoundTrip`.
- `ScriptEditor.DecodeLine`: the editor's `Line` has a string role and text. A role or text that is missing, `null` or not a string is read as "", whereas the editor keeps the raw value and hands it back unchanged. Lines reported after an edit are therefore re-encoded with string members. The script generator (`ScriptGenerator.FormatScript`) and the page (`DomPage.RenderRow`) do read raw values.
- `DomPage.RenderRow`: the button label is written as HTML (`webapp/static/main.js:1113,1117`). A host name holding '<' or '&' would be parsed as markup; the model keeps the name as plain text, and the round-trip lemmas (`RowRoundTrip`, `TwoHostRoundTrip`) exclude such names through `GoodHostName`.
- `DocExtractor.BlankDocumentRefused`: it states one direction only. A table row of blank cells still gives an entry, so an all-blank document is not the only refused one. `Extract` states the exact condition.
