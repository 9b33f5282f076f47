# LinkedIn summary generator: a Dafny model of the page logic

The page `pages/index.tsx` of a small Next.js client asks a text-generation
backend for four LinkedIn job summaries and shows what streams back as
separate cards. This project models its three pieces of logic and proves
what they do:

- **The prompt** (`PromptTemplate`, `prompt.dfy`): the template literal of
  `generateBio`, with the vibe's tone word ("relaxed" for "Casual", "silly"
  for "Funny", "Professional" otherwise), the humour request for "Funny"
  only, and the job description closed with a full stop unless it ends in one.
- **The submission** (`Generation`, `generation.dfy`): class `Page` holds
  `buffer` (`generatedBios`) and `loading`. `Generate` clears the buffer,
  sets `loading`, sends the request and runs the read loop (`Consume`).
  The loop decodes each chunk and feeds it to the event-stream parser.
  `OnParse` (`onParseGPT`) appends the `text` of every `event` event.
  The network, the decoder, the parser and `JSON.parse` are parameters of
  `Generate`. The proofs show that the buffer ends up as the in-order
  concatenation of the fragments of all emitted events. They also show
  which exits leave `loading` set.
- **The cards** (`SummarySplit` and `JsText`, `summary_split.dfy`,
  `js_text.dfy`): `substring(indexOf("1") + 3)`, `split(/2\.|3\./)` and
  `trim()`, with JavaScript's clamping, `-1` and white-space rules written out.

## Behaviour of the page worth knowing

- `decoder.decode(value)` is called without `{ stream: true }`, so each chunk
  is decoded on its own (`ChunkTexts`). No partial multi-byte character is
  carried across chunks.
- The final `reader.read()` returns `done` with no value. It still goes
  through `decode` (giving `""`) and `parser.feed` (`FedTexts`).
- A non-ok status, a missing body and a failed read leave `loading` set to
  true. Only a stream that ends normally clears it (`Page.Generate`).
- A text that labels four summaries "1." to "4." gives three cards, not four,
  because the split never cuts at "4.". The third card keeps the fourth
  summary with its marker (`SummarySplit.FourSummariesShowAsThree`).

## Model

| member | source | states |
|---|---|---|
| `JsText.IndexOf` | pages/index.tsx:130 | the result is -1 exactly when the character is absent; otherwise it is the index of its first occurrence |
| `JsText.Substring` | pages/index.tsx:130 | a start at or below 0 keeps the whole string; a start past the end gives ""; otherwise the suffix from the start |
| `JsText.TrimStart` | pages/index.tsx:147 | the result is the suffix left after the longest white-space prefix |
| `JsText.TrimEnd` | pages/index.tsx:147 | the result is the prefix left before the longest white-space suffix |
| `JsText.Trim` | pages/index.tsx:147 | the trimmed text neither starts nor ends with ECMAScript white space or a line terminator |
| `JsText.TrimIsWindow` | pages/index.tsx:147 | the trimmed text is a window of the input with only white space on either side |
| `JsText.TrimStartDropsExactly` | pages/index.tsx:147 | leading white space in front of a non-white-space start is exactly what is dropped |
| `JsText.TrimEndDropsExactly` | pages/index.tsx:147 | trailing white space after a non-white-space end is exactly what is dropped |
| `JsText.TrimUnique` | pages/index.tsx:137 | any text already trimmed, with white space added around it, trims back to itself, so the trim is unique |
| `SummarySplit.Split` | pages/index.tsx:131 | there is always at least one piece, and the first piece is a prefix of the text |
| `SummarySplit.Delimiters` | pages/index.tsx:131 | every cut is at "2." or "3."; "4." never is |
| `SummarySplit.SplitCount` | pages/index.tsx:131 | there is one more piece than there are matches |
| `SummarySplit.SplitJoin` | pages/index.tsx:131 | rejoining the pieces with the matched delimiters gives the text back |
| `SummarySplit.PartsHaveNoDelimiter` | pages/index.tsx:131 | no piece contains "2." or "3.", so every occurrence, anywhere in the text, is a cut |
| `SummarySplit.SplitUnique` | pages/index.tsx:131 | any cutting of the text into delimiter-free pieces separated by "2." or "3." is the one `split` makes |
| `SummarySplit.NoDelimiterIsOnePiece` | pages/index.tsx:131 | a text without "2." or "3." (one with only "4.", say) stays one piece |
| `SummarySplit.RemainderAfterFirstOne` | pages/index.tsx:130 | `Remainder` (the text the page splits): with the first "1" at index k, the text from k + 3 on is kept, clamped to the end |
| `SummarySplit.RemainderWithoutOne` | pages/index.tsx:130 | `Remainder`: with no "1", indexOf gives -1 and exactly the first two characters are lost |
| `SummarySplit.TrimAll` | pages/index.tsx:137 | each card text is its piece trimmed, in the same order |
| `SummarySplit.ShownCards` | pages/index.tsx:118-147 | `Shown` (the card texts rendered, none for an empty buffer): a non-empty buffer shows one card per match plus one, each without white space at its ends |
| `SummarySplit.FourSummariesShowAsThree` | pages/index.tsx:129-147 | a text labelled "1." to "4." shows three cards, the third keeping "4. Delta summary." |
| `SummarySplit.FourSummariesRemainder` | pages/index.tsx:130 | in that text the cut falls right after "1. " |
| `SummarySplit.FourSummariesSplit` | pages/index.tsx:131 | that text splits into three pieces at "2." and "3." |
| `PromptTemplate.Prompt` | pages/index.tsx:36-46 | the prompt is `Instructions` (opening with the tone word, humour request, closing) followed by the `Dotted` description, and always ends in "." |
| `PromptTemplate.Dotted` | pages/index.tsx:44-46 | a description ending in "." is kept verbatim; any other, the empty one included, gets "." appended |
| `PromptTemplate.EmptyDescription` | pages/index.tsx:44-46 | an empty description still gets its ".", since `"".slice(-1)` is not "." |
| `PromptTemplate.ToneWordInPrompt` | pages/index.tsx:36-42 | the vibe's `ToneWord` ("relaxed" for "Casual", "silly" for "Funny", "Professional" otherwise) stands right after "Generate 4 " |
| `PromptTemplate.ToneLetter` | pages/index.tsx:36-42 | the prompt's letter after "Generate 4 " is the first letter of the tone word |
| `PromptTemplate.HumourOnlyWhenFunny` | pages/index.tsx:42-44 | the humour request follows the opening sentences if and only if the vibe is "Funny" |
| `PromptTemplate.SamePromptSameTone` | pages/index.tsx:36-42 | equal prompts have equal tone words |
| `PromptTemplate.SameToneSameInstructions` | pages/index.tsx:36-44 | the text before the description depends on the vibe only through its tone word |
| `PromptTemplate.PromptEquality` | pages/index.tsx:36-46 | two prompts are equal iff the tone words are equal and the dotted descriptions are equal ("x" and "x." give one prompt) |
| `Generation.FragmentsAppend` | pages/index.tsx:71 | `Fragment` (what `onParseGPT` appends for one event) concatenated over a run of events: the fragments of two runs are the first run's, then the second's |
| `Generation.SilentEventAddsNothing` | pages/index.tsx:66-76 | a reconnect interval, a payload that is not JSON, or one without `text` leaves the buffer as if the event never came |
| `Generation.TextsConcatenateInOrder` | pages/index.tsx:66-76 | when every event carries a `text`, the buffer gains exactly those texts, concatenated in order |
| `Generation.FeedAllAppend` | pages/index.tsx:80-87 | feeding two runs of text to the one parser emits the events of the first, then those of the second |
| `Generation.ChunkTexts` | pages/index.tsx:85 | text i fed to the parser is the decoding of chunk i on its own |
| `Generation.StreamedOnlyAppends` | pages/index.tsx:81-87 | `Streamed` (the buffer after a fresh parser was fed some texts): its value after any prefix of the texts is a prefix of its value after all of them, so the buffer only grows |
| `Generation.StreamedSnoc` | pages/index.tsx:83-86 | `Streamed` for one more text is its value before, followed by the fragments of exactly the events that text makes the parser emit |
| `Generation.Page.constructor` | pages/index.tsx:15-16 | the page starts with an empty buffer and `loading` false |
| `Generation.Page.OnParse` | pages/index.tsx:66-76 | the callback appends the event's fragment to the buffer and changes nothing else |
| `Generation.Page.Dispatch` | pages/index.tsx:86 | feeding the parser calls the callback on each emitted event in order |
| `Generation.Page.FeedParser` | pages/index.tsx:86 | one `parser.feed` call moves the parser to the state after one more text and extends the buffer from the fragments of the texts fed so far to those of one more text |
| `Generation.Page.Consume` | pages/index.tsx:78-87 | the read loop appends `Streamed` of `FedTexts` (every chunk decoded on its own, then "" for the final read unless it fails): the fragments of every event of every read; it ends normally at `done` and throws on a failed read |
| `Generation.Page.Generate` | pages/index.tsx:48-90 | the buffer is reset to "" and `loading` set before the request; a non-ok status or a missing body leaves "" with `loading` set; a streamed body leaves `Streamed` of `FedTexts`, the in-order fragments; `loading` is cleared iff the stream ended normally |

## Left out

- `pages/_document.tsx` is not part of this model: it is static head markup with no behaviour.
- JSX layout, styling, the loading dots, `scrollToBios`, clipboard writes, toasts, and the submit button's `disabled` rule are user-interface effects and are not modelled.
- `fetch` is the parameter `fetch`, a function from the prompt to the response's status, status text and body. The request's method, headers and JSON encoding of the prompt are not modelled. A network error before the response is not modelled either.
- The `TextDecoder` is the parameter `decode`, applied to each chunk on its own. UTF-8 decoding itself is library code.
- The `eventsource-parser` parser is the pair `init` and `feed`: a starting state, and one `feed` call mapping a state and a text to the next state and the emitted events. Server-sent-event framing is library code, so these properties of it are not modelled: independence from chunk boundaries, joining multi-line data, immediate retry events, and no event without data.
- `JSON.parse(data).text` is the parameter `parseText`. A `null` payload, whose `.text` throws, counts as a parse failure. A non-string `text` is represented by the string that `+` would append.
- `console.error` logging of a bad payload is not modelled; only its effect on the buffer (none) is.
- Two overlapping submissions writing to the same React state are not modelled; that is concurrency. The only guard against them is the submit button's `disabled` rule (pages/index.tsx:180), which is user interface and not modelled. One consequence the model does show: after a failed status, a missing body or a failed read, `loading` stays set (`Page.Generate`), so that rule keeps the button disabled for good. React's batching of `setGeneratedBios` updates is taken as applying each update in order.
- `Body.chunks` is a finite sequence, so a response stream that never ends cannot be represented. In the page such a stream keeps the read loop running and `loading` set for good.
- `VibeType` and the `DropDown` component are not part of this model. The vibe is a string, and every value other than "Casual" and "Funny" gets the "Professional" tone.
- JavaScript string positions count UTF-16 code units, while the model's `char` is a Unicode scalar value. Positions from `indexOf` and `substring` therefore differ for text with characters outside the Basic Multilingual Plane.
