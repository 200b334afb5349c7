# LMS livestock dashboard: a Dafny model of its page logic

LMS is a React dashboard for a farm. This project models the logic inside three of its pages.

- **Live feed** (`FeedPage`). The page has two WebSocket receive buffers: the camera feed and the detection feed. Each message is appended to its buffer. The handler then drains every complete frame from the front. A frame is an 8-byte little-endian unsigned payload length followed by that many payload bytes. Each camera frame is forwarded to the detection socket when that socket is open. Hovering a direction button starts an interval that posts the direction. Leaving the button clears the interval. Unmounting closes both sockets.
- **Disease detection** (`DiseaseDetection`):
  - selecting and deselecting symptoms;
  - the case-insensitive search over the 92-symptom checklist;
  - the prediction request, with its minimum of two symptoms and its two fallback answers;
  - disease-name formatting;
  - the majority vote over the four classifiers.
- **Environment dashboard** (`TemperaturePage`). The chart keeps the last twenty samples. Each sample gets a low/normal/high badge for temperature and for humidity.

Module layout:

- `framing.dfy` (`Framing`). The wire format and the drain, defined as functions on byte sequences: `Extract` is the drain and `Encode` is the sender's framing. It also holds lemmas: round trip, conservation of bytes, partial-frame retention, and independence of how the stream is split into messages.
- `feed_page.dfy` (`FeedPage`). A class whose fields are the page's mutable state:
  - the two buffers;
  - the frames sent on the detection socket;
  - `intervalRef`;
  - the browser's table of live intervals;
  - the posted directions;
  - the socket states.

  The two `onmessage` handlers are methods with the source's `while` loop. Each is proved against `Framing.Extract`.
- `disease_detection.dfy` (`DiseaseDetection`). Pure functions for toggling, search, prediction and formatting. `getConsensus` is a method with loops, proved against `Count`, a multiset count.
- `temperature_page.dfy` (`TemperaturePage`). The sample window and the two classifiers.
- `wrappers.dfy` (`Wrappers`). `Option`.

Modelling choices:

- Bytes are a `byte` newtype in `[0, 256)`.
- Sensor readings are `real`.
- The browser's interval handles are positive naturals handed out in increasing order.
- Effects that reach outside the page are inputs, so the model does not perform them:
  - whether the detection socket is open;
  - whether a control request succeeded;
  - how a prediction request ended;
  - a sensor sample.

Behaviour of the code that a reader might not expect:

- Every message rebuilds the buffer by concatenation (`[...buffer, ...newData]`). The buffer is not grown in place. The model appends sequences in the same way.
- Hovering a second button while an interval is still running starts another interval. The earlier one is not cleared. `intervalRef` only forgets its handle, and the browser keeps running it. So more than one interval can be live. `HandleMouseEnter` states exactly this, and `HandleMouseLeave` clears only the handle `intervalRef` holds.
- Every complete camera frame is forwarded while the detection socket is open. There is no sampling or rate limit.
- Frame length has no upper bound beyond the 64-bit header.

## Model

| member | source | states |
|---|---|---|
| Framing.LittleEndian | src/pages/FeedPage.tsx:85-86 | An n-byte little-endian length is below 256^n, so an 8-byte header declares a length below 2^64. |
| Framing.ToLittleEndian | src/pages/FeedPage.tsx:85-86 | A sender's length header for a value below 256^w has exactly w bytes. |
| Framing.LittleEndianOfToLittleEndian | src/pages/FeedPage.tsx:85-86 | Reading a written length header gives back the length. |
| Framing.ToLittleEndianOfLittleEndian | src/pages/FeedPage.tsx:85-86 | Every 8 bytes are the header of the length they are read as, so a header decodes to exactly one length. |
| Framing.FrameSizeOfHeader | src/pages/FeedPage.tsx:84-86 | A buffer that starts with the header for n has at least 8 bytes and declares payload length n, whatever follows. |
| Framing.ExtractRestStalled | src/pages/FeedPage.tsx:84-110 | After a drain the buffer keeps a suffix of what it held, no longer than before. That suffix holds no complete frame: it is under 8 bytes, or shorter than 8 plus the declared length. |
| Framing.DrainTwiceYieldsNothing | src/pages/FeedPage.tsx:84-110 | Draining what a drain kept, with nothing appended, yields no frame and keeps everything. |
| Framing.ExtractConserves | src/pages/FeedPage.tsx:82-110 | No byte is lost or invented: the extracted frames re-encoded in order, followed by the kept bytes, are exactly the buffered bytes. |
| Framing.ExtractAppend | src/pages/FeedPage.tsx:80-111 | Appending bytes never changes frames already complete. Draining `s1 + s2` yields `s1`'s frames, then the frames of what `s1` kept followed by `s2`. |
| Framing.ExtractFront | src/pages/FeedPage.tsx:88-90 | A whole frame at the front of the buffer is the first frame taken off. The drain then continues after its last payload byte. |
| Framing.ExtractEncoded | src/pages/FeedPage.tsx:84-110 | Draining encoded payloads followed by any tail yields those payloads, in order, before the tail's own frames. |
| Framing.RoundTrip | src/pages/FeedPage.tsx:84-110 | Draining exactly an encoded stream yields the payloads, zero-length ones included, and keeps no byte. |
| Framing.PartialFrameRetained | src/pages/FeedPage.tsx:88-109 | A header followed by only part of its payload yields nothing and is kept whole. Adding the missing bytes then yields exactly that frame. |
| Framing.FeedAllIsExtract | src/pages/FeedPage.tsx:80-111 | Feeding the handler message after message gives the same frames and the same kept bytes as one drain of the concatenated bytes. |
| Framing.ChunkedRoundTrip | src/pages/FeedPage.tsx:80-111 | However an encoded stream is split into messages, the handler delivers exactly the payloads in order and ends with an empty buffer. |
| FeedPage.FeedPage.constructor | src/pages/FeedPage.tsx:7-11 | The mounted page has empty buffers, no interval and no direction, and neither socket has been closed by the page. |
| FeedPage.FeedPage.OnLiveMessage | src/pages/FeedPage.tsx:80-111 | The camera handler runs only while the page has not closed the camera socket. The detection socket counts as open only if the page has not closed it. The handler returns exactly the frames of one drain of old buffer plus message, and keeps its rest, so the buffer again holds no complete frame. When the detection socket is open, exactly those frames are appended in order to what was sent on it. Otherwise nothing is sent. |
| FeedPage.FeedPage.OnAiMessage | src/pages/FeedPage.tsx:113-139 | The detection handler runs only while the page has not closed the detection socket. It returns the frames of one drain of old buffer plus message and keeps the rest. |
| FeedPage.FeedPage.HandleMouseEnter | src/pages/FeedPage.tsx:19-43 | The direction is shown. A fresh handle posting it is added to the live intervals, and every interval already live stays live. `intervalRef` holds the new handle. |
| FeedPage.FeedPage.HandleMouseLeave | src/pages/FeedPage.tsx:45-51 | The direction and `intervalRef` are cleared. The handle `intervalRef` held, and only that one, is removed from the live intervals. |
| FeedPage.FeedPage.ControlTick | src/pages/FeedPage.tsx:21-42 | One tick posts the interval's direction. A failed request is only logged and stops no interval. |
| FeedPage.FeedPage.Teardown | src/pages/FeedPage.tsx:154-158 | Both sockets are closed, and the interval `intervalRef` holds, if any, is cleared. |
| DiseaseDetection.RemoveAll | src/pages/DecieseDetection.tsx:116 | Deselecting keeps exactly the other selected symptoms and never grows the list. |
| DiseaseDetection.RemoveAllAppend | src/pages/DecieseDetection.tsx:116 | Deselecting keeps the remaining symptoms in their order. |
| DiseaseDetection.RemoveAllAbsent | src/pages/DecieseDetection.tsx:116 | Deselecting a symptom that is not selected changes nothing. |
| DiseaseDetection.RemoveAllNoDuplicates | src/pages/DecieseDetection.tsx:116 | Deselecting keeps a repeat-free selection repeat-free. |
| DiseaseDetection.ToggleSymptom | src/pages/DecieseDetection.tsx:115-117 | After a click, a symptom is selected if and only if it was before and is not the one clicked, or it is the one clicked and was not selected. An unselected symptom is appended at the end. |
| DiseaseDetection.ToggleKeepsNoDuplicates | src/pages/DecieseDetection.tsx:115-117 | Clicking never introduces a repeated symptom. |
| DiseaseDetection.ToggleTwiceRestores | src/pages/DecieseDetection.tsx:115-117 | Clicking an unselected symptom twice restores the exact previous selection. |
| DiseaseDetection.IncludesIffOccurs | src/pages/DecieseDetection.tsx:119 | `includes` holds if and only if the search term occurs at some position of the symptom name. |
| DiseaseDetection.FilterSymptoms | src/pages/DecieseDetection.tsx:119 | The filtered list holds exactly the symptoms whose lower-cased name contains the lower-cased term. |
| DiseaseDetection.FilterAppend | src/pages/DecieseDetection.tsx:119 | The filter keeps the checklist order. |
| DiseaseDetection.FilterEmptyTerm | src/pages/DecieseDetection.tsx:119 | An empty search shows the whole checklist unchanged. |
| DiseaseDetection.FilteredSymptoms | src/pages/DecieseDetection.tsx:6-99 | The page lists exactly the checklist symptoms matching the search term. |
| DiseaseDetection.HandlePredict | src/pages/DecieseDetection.tsx:121-161 | With fewer than two symptoms nothing changes. Otherwise loading ends, the selection is kept, and a prediction is shown: the server's answer when the response is OK, else a fallback echoing the selection. After a thrown request all four models answer `unable_to_determine`. |
| DiseaseDetection.CapitalizeWordsAt | src/pages/DecieseDetection.tsx:164 | Character by character, `\b\w` upper-casing changes exactly the word characters not preceded by a word character, and keeps the length. |
| DiseaseDetection.CapitalizeWordsLength | src/pages/DecieseDetection.tsx:164 | Upper-casing word starts keeps the length. |
| DiseaseDetection.FormatDiseaseNameAt | src/pages/DecieseDetection.tsx:163-165 | The display name has the input's length and no underscore. Each `_` becomes a space, each letter or digit starting a word is upper-cased, and every other character is kept. |
| DiseaseDetection.FormatDiseaseNameIdempotent | src/pages/DecieseDetection.tsx:163-165 | Formatting an already formatted name changes nothing. |
| DiseaseDetection.CountBounds | src/pages/DecieseDetection.tsx:169-172 | An answer's vote count is at most the number of votes, and at least one when the answer was given. |
| DiseaseDetection.CountAnswers | src/pages/DecieseDetection.tsx:169-172 | The tally maps exactly the given answers to their numbers of votes. Its keys are the answers in order of first appearance. |
| DiseaseDetection.MaxOf | src/pages/DecieseDetection.tsx:174 | `Math.max` of the tallies is one of them and is at least every one. |
| DiseaseDetection.FindFirst | src/pages/DecieseDetection.tsx:175 | `find` returns the first key whose tally equals the target. |
| DiseaseDetection.FirstLargestCount | src/pages/DecieseDetection.tsx:174-175 | The first key in insertion order with the largest tally beats every answer that appears before it, and is beaten by none. |
| DiseaseDetection.GetConsensus | src/pages/DecieseDetection.tsx:167-179 | Given the answers in the order the prediction object lists them, the consensus is one of the answers with the most votes. Among the most-voted answers it appears first. Confidence is its vote count as a percentage of four: 25 per vote, so 25 to 100 for four answers. |
| TemperaturePage.PushSample | src/pages/TemperaturePage.tsx:39-43 | The new window ends with the new sample and is the last min(20, n+1) points of the old window plus the sample. |
| TemperaturePage.FetchData | src/pages/TemperaturePage.tsx:25-49 | A fetch shows the new sample as current, marks the dashboard connected, and pushes the sample onto the chart. |
| TemperaturePage.WindowIsLastSamples | src/pages/TemperaturePage.tsx:38-43 | After any run of fetches, the chart is the last twenty of the earlier points followed by the new samples, in arrival order. |
| TemperaturePage.CurrentIsNewest | src/pages/TemperaturePage.tsx:38 | After any run of fetches, the current reading is the newest sample. |
| TemperaturePage.LastNPush | src/pages/TemperaturePage.tsx:39-43 | Trimming to twenty after each push equals trimming once at the end. |
| TemperaturePage.TemperatureStatus | src/pages/TemperaturePage.tsx:61-65 | The badge is low if and only if below 18, high if and only if above 28, and normal if and only if between 18 and 28 inclusive. |
| TemperaturePage.HumidityStatus | src/pages/TemperaturePage.tsx:67-71 | The badge is low if and only if below 30, high if and only if above 70, and normal if and only if between 30 and 70 inclusive. |
| TemperaturePage.StatusMonotone | src/pages/TemperaturePage.tsx:61-71 | A higher reading never gets a lower badge. |

## Left out

- OnLiveMessage and OnAiMessage: both read the header with `Number(getBigUint64(...))`, which rounds lengths above 2^53. The model uses the exact 64-bit value. No buffer can hold 2^53 bytes, so a rounded length and the exact one are both larger than any buffer, and the rounding never changes which frames are extracted.
- Decoding frames into images is not modelled: the Blob and object URL, `Image` loading, canvas drawing and URL revocation. The same goes for the `frameCount` counter, which `img.onload` bumps asynchronously. A frame is its payload bytes.
- Opening sockets, their URLs and `binaryType` are not modelled. The status texts set by `onopen`, `onclose` and `onerror` are not modelled either. Whether the detection socket is open is an input of `OnLiveMessage`. This is sound because the browser runs handlers one at a time.
- The 500 ms interval cadence is not modelled, nor the request's URL, headers and JSON body, nor console logging. A tick is a call to `ControlTick`, and the request's result is an input.
- The canvas and context null checks on mount are not modelled. The model starts from a mounted page with both canvases present.
- HandlePredict: the intermediate `isLoading = true` state is not modelled, nor other clicks while the request is pending. The model gives the state once the request has settled. The response body is taken to hold an input-symptom list and four answers. What `getConsensus` makes of the answers' order and names is described under GetConsensus below.
- ToLowerChar: only ASCII letters are lower-cased (JavaScript's `toLowerCase` also folds other letters). The checklist names are ASCII, but the search term is free input. So the model covers only terms whose non-ASCII characters have no lower-case mapping. For example, JavaScript folds the Kelvin sign (U+212A) to `k`, so that sign matches `ketosis` on the page but nothing in the model.
- IsWordChar: `\w` is the ASCII letters, digits and `_`, as in JavaScript without the `u` flag. Characters outside ASCII are never word characters.
- GetConsensus: the answers are its input, in the order the prediction object holds its keys. For a server answer that is the key order of the response JSON, so ties are broken by the response's order. The model does not derive this order from the JSON text.
- GetConsensus: answers are assumed not to look like array indices. JavaScript lists integer-like keys of `counts` first, in numeric order, which would change which tied answer `find` returns.
- GetConsensus: answers are assumed not to be named after `Object.prototype` members (`constructor`, `toString`, `__proto__` and the like). For those, `acc[pred] || 0` reads the inherited member, the tally breaks, and the page shows "Unknown". The model returns such an answer with its true count.
- GetConsensus: requires at least one answer. With none, the source's `Math.max` gives `-Infinity`, `find` finds nothing, and the page shows "Unknown" with a `-Infinity` confidence, which integers cannot express.
- Rendering is not modelled: charts, icons, badges' markup, the navigation and landing pages, and the direction-button components.
- FetchData: sample generation (`Math.random` and rounding) and the `toLocaleTimeString` clock are inputs. The `catch` branch is not modelled, because nothing in the `try` block throws. The 15-second polling interval and its cleanup are not modelled.
- TemperatureStatus: readings are real numbers, so a `NaN` reading is not modelled. JavaScript would badge it `normal`.
