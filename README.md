# Virtual try-on bot: session state machine and hand-off

A Dafny model of the core of a Telegram bot that collects two photos from a
user (a person, then a garment), sends them to a remote virtual try-on model
and returns the composited image. The whole core lives in `app.py`:

- `image_handler` advances the user's entry in the process-wide
  `user_sessions` dictionary on every photo: a first photo opens an entry
  holding `person_image`; a second photo adds `garment_image`, sends
  "Please wait, processing...", runs the hand-off, replies with the result
  photo or an apology, and deletes the entry; anything else is answered with a
  prompt to start again and changes nothing.
- `send_to_gradio` downloads both photos and calls the remote model only when
  both downloads gave a path; it fetches the result only when the model
  returned a non-empty list or tuple whose first element is a string starting
  with `http`, and then answers `static/result.png`; every other outcome is
  `None`.
- `download_image` answers `static/<file name>` on HTTP status 200 and `None`
  on any other status or exception.

Files:

- `wrappers.dfy` (module `Wrappers`): `Option`, Python's "value or None".
- `tryon.dfy` (module `TryOn`): the download and hand-off decisions as
  functions. Every GET, file write and remote call is replaced by the outcome
  it reports (`Fetch`, `Prediction`, grouped in `Services`); the hand-off
  returns the ordered list of calls it makes (`Call`) and the result path.
  Returned Python values are modelled (`PyValue`) as far as the code inspects
  them: truthiness and `[0]`.
- `sessions.dfy` (module `Sessions`): `Handle`, the specification of one photo
  event (new dictionary plus the ordered replies and calls); class `Bot`,
  whose `sessions` field is the dictionary and whose `HandlePhoto` inserts,
  updates in place and deletes as the handler does, proved equal to `Handle`;
  `Run`, events handled one at a time, and lemmas about runs.

## Notes on the code

- The remote model's result is used only when it is a list or tuple whose
  first element is a string starting with `http`; inline bytes, local paths,
  bare strings and every other value give `None`.
- Both photos are downloaded only when the second photo arrives; the first
  photo event stores only the Telegram file path.
- The photo downloads pass a timeout; the GET of the result passes none and
  checks no status code, so any response, even an error page, is written as
  the result.

## Model

| member | source | states |
|---|---|---|
| TryOn.DownloadImage | app.py:86-96 | a path is returned exactly when the GET answered 200 and nothing raised, and it is `static/<file name>` |
| TryOn.ResultUrl | app.py:74 | the result is fetched exactly when the model returned a non-empty list or tuple whose first element is a string starting with `http`, and from that string; a bare string never qualifies |
| TryOn.SendToGradio | app.py:55-83 | both photos are fetched, person first; the model is called once, with (person path, garment path), exactly when both downloads succeeded; the result URL is fetched only after that; `static/result.png` comes back exactly when both downloads answered 200, the model returned an http list and the result GET did not raise (its status is not checked), otherwise `None` (exceptions included) |
| Sessions.Handle | app.py:28-52 | no other user's entry changes; a first photo opens an entry holding only `person_image` and asks for the garment; a second photo replies "processing", calls the hand-off with (stored person path, new garment path), replies photo + confirmation or the apology, and removes the entry whatever the outcome; any other entry gets the restart prompt and no change; "every entry is person only" is preserved and then the restart prompt is never sent |
| Sessions.Bot.HandlePhoto | app.py:28-52 | updating the dictionary in place gives exactly the dictionary and actions of `Handle`; on a bot whose entries are all "person only" it keeps them so and never sends the restart prompt |
| Sessions.Bot.constructor | app.py:18 | the bot starts with an empty dictionary, in which every entry is trivially "person only" |
| Sessions.RunNeverRestarts | app.py:33-52 | in any sequential run from a dictionary of "person only" entries (the empty one included) every entry stays "person only" and the restart prompt of the else-branch is never sent |
| Sessions.RunLeavesOthersAlone | app.py:33-50 | any number of photo events from other users leave a user's entry, or its absence, unchanged |
| Sessions.CycleRestoresStore | app.py:33-50 | a full two-photo cycle from a user without an entry asks for the garment, then acknowledges processing, and leaves the dictionary exactly as it was before the cycle, whatever the hand-off reported |
| Sessions.NextPhotoStartsFresh | app.py:33-50 | after a second photo, success or failure, the user's next photo opens a new entry holding only that photo and asks for the garment again |

## Left out

- The `/start` command and its static reply, the bot set-up, handler
  registration and polling: framework wiring with no state.
- The Telegram file lookup (`get_file`) and the photo-only message filter:
  done by the framework; the model receives the photo's file path.
- The fixed parameters of the remote call (description, denoise steps, seed,
  crop and check flags) and the client library: the remote call is an
  abstract `Prediction`.
- Image bytes, the files written under `static/` and the download timeout:
  I/O; the model keeps only success or failure and the path strings. A failed
  file write inside a try-block is one of the outcomes `Raised` stands for.
- A failure of `open` on the result file before sending the photo, which would
  skip the deletion of the entry: the code makes no promise about it.
- Telegram replies are assumed to succeed: `reply_text` (app.py:38, app.py:45,
  app.py:47) and `send_photo` (app.py:44) can raise (network error, time-out,
  or Telegram refusing a result file that is an error page, which the unchecked
  result GET allows). Such an exception after app.py:37 skips the `del` at
  app.py:50 and leaves an entry holding both photos, so every later photo from
  that user takes the else-branch (app.py:51-52) until the process restarts.
  `Handle`, `RunNeverRestarts` and `Bot.HandlePhoto` hold only under this
  assumption.
- Interleaving of the asynchronous handler and concurrent delivery for one
  user: the model handles one event at a time, as `Run` does.
- Python dictionaries and other objects as results of the remote model: only
  `None`, integers, strings, bytes and lists or tuples are modelled.
