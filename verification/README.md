# Face expression stream: overlay and stream model

A Dafny model of the decision and layout code in `app.py` of a small Flask
application. The application streams webcam frames to a browser as a
`multipart/x-mixed-replace` body and marks each detected face with a
predicted emotion. The pretrained face detector and emotion classifier are
foreign code. The model takes what they produce as inputs and covers what
the application does with it:

- **`detect_emotion`** (module `Classifier`). A missing model gives the
  `("Model Error", 0.0, {})` sentinel. Any exception during inference gives
  `("Unknown", 0.0, {})`. Otherwise the result is the first-occurrence argmax
  over the seven-entry output vector, mapped to the fixed label order, with
  its raw output as the confidence. The score dictionary maps each
  lower-cased label to its output times 100.
- **The per-face overlay of `generate_frames`** (modules `Ranking`,
  `Annotator`). Each face gets a rectangle and a caption 10 px above it. When
  the score dictionary is non-empty, the three best scores follow, chosen
  with Python's stable descending sort. They are drawn from 20 px below the
  box, 20 px apart.
- **The stream** (module `Stream`). A camera that did not open gives an empty
  stream. Otherwise there is one part per successful read, and the stream
  stops at the first failed read. Each part has fixed byte framing around the
  JPEG bytes.

Modules: `Emotions` (the label vocabulary and the score dictionary),
`Classifier`, `Ranking`, `Annotator`, `Stream`. Each Python dictionary is
modelled as its item sequence, because the stable sort depends on insertion
order. `Emotions.ToMap` gives the lookup view, where a later key overwrites
an earlier one.

Two behaviours of the code that a reader might expect otherwise:

- The generator has no `try`/`finally`. `camera.release()` (app.py:136) runs
  only after the loop ends at a failed read. It is skipped when the camera
  did not open (app.py:85-87) and when the consumer stops pulling.
  `Stream.Pump` reports a release exactly in the first case.
- Each part ends with a single `\r\n` after the JPEG bytes (app.py:133-134),
  and so does `Stream.Chunk`.

## Model

| member | source | states |
|---|---|---|
| `Classifier.ArgMax` | app.py:65 | `np.argmax` of a non-empty vector is the index holding the maximum with no earlier entry reaching it (first occurrence wins ties) |
| `Classifier.FirstMaxUnique` | app.py:65 | at most one index is the first maximum, so the dominant label is determined by the vector |
| `Classifier.DetectEmotion` | app.py:48-79 | no model gives the Model Error sentinel; a raised step, an empty vector, an argmax index past the seventh label or a vector shorter than seven gives Unknown; otherwise the label at the first-maximum index, its raw output as confidence, and the seven lower-cased score items |
| `Classifier.ScoreEntries` | app.py:70-73 | the comprehension has one item per label, seven in all |
| `Classifier.ScoreItems` | app.py:70-73 | the k-th item of the comprehension is the k-th label lower-cased with the k-th output times 100, and no two items share a key |
| `Classifier.SentinelTriples` | app.py:48-79 | seen as the returned triple, the sentinels are exactly `("Model Error", 0.0, {})` without a model and `("Unknown", 0.0, {})` for every failure with one |
| `Classifier.ScoreMapShape` | app.py:66-73 | a successful score dictionary has exactly the seven lower-cased labels as keys, each mapped to its output times 100, and the dominant label's entry is the confidence times 100 |
| `Classifier.DominantIsScoreArgMax` | app.py:65-73 | the dominant label is also the first-occurrence argmax of the score dictionary's values in label order |
| `Emotions.LowerLabelsDistinct` | app.py:11 | lower-casing keeps the seven labels distinct, so the comprehension loses no key |
| `Emotions.ToMapLookup` | app.py:70-73 | in an item list with distinct keys, each item's key is in the dictionary and looks up its own score |
| `Emotions.Lower` | app.py:71 | `str.lower` keeps the length and maps each upper-case ASCII letter to its lower-case letter, leaving other characters alone |
| `Emotions.ToMap` | app.py:70-73 | the dict built from an item list has exactly the items' keys; a later item overwrites an earlier one with the same key |
| `Ranking.Insert` | app.py:122 | inserting a later position into a stably ordered list keeps the list stably ordered and adds exactly that position |
| `Ranking.Rank` | app.py:122 | the ranking lists every item position exactly once, higher scores first, equal scores in dictionary order |
| `Ranking.RankUnique` | app.py:122 | any listing of all positions in that order is the ranking, so the stable sort's result is determined |
| `Ranking.TopIndices` | app.py:122 | the `[:3]` slice has min(3, n) positions in stable descending order, and every position left out comes after every position shown |
| `Ranking.TopScores` | app.py:122 | the items drawn are min(3, n) items of the dictionary, the k-th being the item at the k-th position of the stable descending order |
| `Ranking.TopScoresOrder` | app.py:121-122 | the shown items are dictionary items with non-increasing scores, and no item left out scores more than a shown one |
| `Annotator.Classify` | app.py:105-110 | one answer per detected face, in the detector's order, each being `detect_emotion` of that face's pixels, kept with its own region and the top items of its score dictionary |
| `Annotator.Labelling` | app.py:110-122 | a face keeps its region and answer, and lists min(3, n) items of its n-item score dictionary (which items, and in what order, is stated by `Ranking.TopScoresOrder`) |
| `Annotator.ScoreLines` | app.py:123-128 | the loop that adds 20 to `y_offset` after each line draws the k-th item at `y_offset + 20k` |
| `Annotator.SubLinesLayout` | app.py:121-128 | the `if scores:` block draws nothing for an empty dictionary, otherwise one line per listed item, the k-th at (x, y+h+20+20k) showing that item |
| `Annotator.Draw` | app.py:105-128 | the `for` loop over the faces draws nothing for no face and at least two calls per face |
| `Annotator.Annotate` | app.py:105-128 | a frame with no face gets no draw call, and a frame with faces gets at least two calls per face (which ones is stated by `FrameRectangles` and `FrameLabels`) |
| `Annotator.OverlayLayout` | app.py:113-128 | one face's calls (`Overlay`): rectangle (x,y)-(x+w,y+h), caption at (x,y-10) with label and confidence, then only for a non-empty score dictionary min(3, n) lines, the k-th at (x, y+h+20+20k) showing the k-th top item |
| `Annotator.SentinelOverlay` | app.py:110-121 | a sentinel answer still gets its rectangle and caption, at confidence 0.0, and no score line |
| `Annotator.NoModelOverlay` | app.py:110-121 | with no model loaded, every face gets a rectangle and a "Model Error" caption at 0.0 and nothing else |
| `Annotator.DetectedShowsThree` | app.py:121-128 | a successful classification always shows exactly three score lines under the caption |
| `Annotator.DrawAppend` | app.py:105 | the calls for a face list split into two parts are the calls for the first part followed by those for the second |
| `Annotator.FaceBlock` | app.py:105-128 | the calls of face i form one contiguous block, right after the calls of the faces before it |
| `Annotator.OverlayBoxAndCaption` | app.py:113-118 | among one face's calls there is exactly one rectangle and exactly one caption |
| `Annotator.FrameBoxes` | app.py:105-113 | a frame's rectangles are exactly one per face, in the detector's order |
| `Annotator.FrameCaptions` | app.py:105-118 | a frame's captions are exactly one per face, in the detector's order, each with that face's label and confidence |
| `Annotator.FrameRectangles` | app.py:105-113 | over a whole frame, the rectangles are exactly one `(x,y)-(x+w,y+h)` per detected face, in the detector's order |
| `Annotator.CaptionsOfAnswers` | app.py:105-118 | the captions of a list of faces are one per face, in order, at (x, y-10) with the label and confidence of the answer that face was given |
| `Annotator.FrameLabels` | app.py:105-118 | over a whole frame, the captions are exactly one per detected face, in the detector's order, at `(x, y-10)` with the label and confidence `detect_emotion` gave that face |
| `Stream.FramingIsAscii` | app.py:133-134 | the framing bytes are the ASCII codes of `--frame\r\n`, `Content-Type: image/jpeg\r\n\r\n` and `\r\n` |
| `Stream.Chunk` | app.py:133-134 | a part is the JPEG bytes plus 39 framing bytes |
| `Stream.ParseChunkInvertsChunk` | app.py:133-134 | the boundary line, the `Content-Type: image/jpeg` header and the trailing CRLF can be stripped off a part to give back exactly its JPEG bytes |
| `Stream.ChunkInvertsParseChunk` | app.py:133-134 | every byte string with that framing is the part for the bytes it frames |
| `Stream.Drain` | app.py:89-92 | the read loop takes reads while they succeed; it ends either after every read succeeded or right at the first failed read |
| `Stream.Pump` | app.py:83-136 | a camera that did not open yields nothing and is not released; otherwise the k-th part frames the k-th read's JPEG bytes, the k-th overlay is the annotation of that read's faces, and the stream ends exactly at the first failed read, where the camera is released |

## Left out

- The detector (`detectMultiScale` with scale factor 1.1, five neighbours, 30×30 minimum): foreign code. Its regions are an input, so region bounds and minimum size are not modelled.
- Preprocessing and inference (`cvtColor`, `resize` to 64×64, `/ 255.0`, `img_to_array`, `expand_dims`, `predict`): foreign numerics. Their outcome per face region is an input: either the output vector or the fact that a step raised. The region slicing `frame[y:y+h, x:x+w]` is part of that input.
- Floating point: outputs and scores are Dafny `real`s. The float32 rounding of `predictions[i] * 100` and NaN handling in `np.argmax` are not modelled.
- `str.lower` is modelled for ASCII letters only. The seven labels are ASCII.
- Text formatting (`:.2%`, `:.1f`), colours, fonts, line thickness and the pixel effect of `cv2.rectangle` and `cv2.putText`: draw calls carry their anchor and the label and value they show.
- `cv2.imencode` and its ignored success flag: the encoded bytes of each annotated frame are an opaque input of the read.
- The camera device: only whether it opened and the outcomes of the reads made before the consumer stops pulling are modelled. The unbounded stream is modelled by that finite sequence of reads.
- `load_emotion_model`, the cascade file lookup, the Flask routes (`/`, `/video_feed`, `/emotions`, `/status`), `app.run`, logging and threaded serving: file, HTTP and server plumbing. The model handle is an input.
- Drawing on the frame that is being classified: `face_roi = frame[y:y+h, x:x+w]` (app.py:107) is a view of `frame`, and `cv2.rectangle`/`cv2.putText` draw on that frame in place (app.py:113-128). So a face is classified on pixels that may already carry the rectangles, captions and score lines of earlier faces where regions overlap or sit close; the detector does not remove overlapping regions. The model takes each face's inference outcome as a free input, which covers whatever those pixels give, but it does not relate that outcome to the earlier drawing.
- Exceptions outside `detect_emotion`: nothing guards `cvtColor`, `detectMultiScale`, `rectangle`/`putText` or `imencode` (app.py:95-103, 113-131). If one of them raises, the generator ends without a failed read and without `release()`. `Stream.Pump` assumes these calls return, so its "ends exactly at the first failed read" holds only then.
