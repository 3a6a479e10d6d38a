# Clipboard history store, dedup gate and content classifier

A Dafny model of the clipboard core of `src-tauri/src/lib.rs` in the clipboard-demo Tauri application.
It covers the in-memory history `ClipboardState` and the fingerprint it keeps of its newest entry.
It covers how the watcher classifies a clipboard change, deduplicates it against that fingerprint and
inserts it. It also covers the command bodies that read, clear and resize the history, the one-shot
read of the current clipboard, and the success rule of writing to the clipboard.

Modules, leaf first:

- `Wrappers`: `Option` and `Result`, standing for Rust's.
- `Decimal`: the decimal numeral of a `u64` timestamp, with its parser and a round-trip lemma.
- `Items`: `ClipboardContentType`, `ClipboardItem`, and the fingerprint `calculate_hash` takes.
  The fingerprint is the sequence of strings fed to the hasher: the content, then each present optional
  among html, rtf and image path. No field tag is fed. Equal fingerprints stand for equal hashes.
- `Classifier`: the fixed-precedence classification (image, rich text, HTML, plain text) of the watcher and
  of `get_clipboard_content`, the image file name, and `set_clipboard_content`. The clipboard library is
  replaced by an `Observation` that holds its answers (the `has` checks, each `get_*` outcome, whether the image
  was saved, and the clock reading).
- `Store`: the class `ClipboardState` with fields `history` (oldest first), `lastContentHash`, `nextId`
  and `maxHistorySize` (default 100). Each locked block is one method. Its invariant `Valid()` says:
  - the history is within its bound;
  - ids increase from oldest to newest, and all of them are below `nextId`;
  - the newest entry is the one whose fingerprint is recorded.

  Spec functions `Pushed` (the `add_item` rule) and `Truncated` (the `split_off` rule) describe the new history.
- `Scenarios`: call sequences on a fresh store, verified from the class contracts alone. They cover capacity 3 with four
  texts, the same text twice, a revert to an older entry, capacity 0, and clear.

Behaviour of the code a reader might not expect, which the model follows:

- Eviction in `add_item` is an `if`: one entry at most is removed. Under the invariant
  `|history| <= maxHistorySize`, which every operation keeps, this is enough (`Store.Pushed`).
- The display text can be empty. A plain-text, rich-text or HTML clipboard whose `get_text` returns `""` keeps
  `""`. Every other path yields a non-empty placeholder (`Classifier.Classify`).
- At most one of html, rtf and image path is present, and possibly none. A failed `get_html` or `get_rich_text`,
  an unsaved image, and plain text leave all three absent.
- The fingerprint includes the image file name, and that name has one-second resolution
  (`Classifier.ImageFingerprintsEqualIff`). So re-copying the same image a second later is inserted again.
  A different image saved in the same second as the previous one is treated as a duplicate.
- The fingerprint has no field tags. So an HTML entry and a rich-text entry with equal text and equal payload
  string are duplicates of each other (`Items.FingerprintEqualIff`).

## Model

| member | source | states |
|---|---|---|
| `Items.CalculateHash` | src-tauri/src/lib.rs:112-128 | the fingerprint starts with the content and has one more element for each present optional field |
| `Items.FingerprintEqualIff` | src-tauri/src/lib.rs:112-128 | for items with at most one optional field, fingerprints are equal iff the contents are equal and the present optional strings are equal, whichever field holds them |
| `Items.FingerprintIgnoresMetadata` | src-tauri/src/lib.rs:116-127 | changing id, content type or timestamp leaves the fingerprint unchanged |
| `Decimal.NatToString` | src-tauri/src/lib.rs:205 | the numeral of a timestamp is non-empty, all digits, with no leading zero |
| `Decimal.StringToNatOfNatToString` | src-tauri/src/lib.rs:205 | reading the numeral back gives the timestamp |
| `Decimal.NatToStringInjective` | src-tauri/src/lib.rs:205 | distinct timestamps have distinct numerals |
| `Classifier.ImageFileName` | src-tauri/src/lib.rs:201-205 | the file name is `clipboard_image_`, then the decimal numeral of the seconds (all digits, reading back to the timestamp), then `.png` |
| `Classifier.ImageFileNameInjective` | src-tauri/src/lib.rs:205 | images saved in different seconds get different file names |
| `Classifier.ToItem` | src-tauri/src/lib.rs:144-152 | the built item carries the given id and clock reading and the classified fields unchanged |
| `Classifier.Classify` | src-tauri/src/lib.rs:187-256 | precedence image > rich text > HTML > text (each type iff its format is the first present); a path only for a saved image, named after the clock; rtf only for RichText and html only for Html, so at most one optional; Text only on a successful read, verbatim; the exact placeholders on each failure; an empty display text only from an empty text read |
| `Classifier.ImageFingerprintsEqualIff` | src-tauri/src/lib.rs:195-225 | two image captures share a fingerprint iff both were saved in the same second or neither was saved and both failed at the same step |
| `Classifier.GetClipboardContent` | src-tauri/src/lib.rs:324-378 | fails with the init message when the clipboard cannot be opened, and with the text-read message exactly when the watcher would produce Unknown; otherwise id 0, the given time, no image path, the watcher's type, html and rtf, the watcher's text except the fixed placeholder for images |
| `Classifier.SetClipboardContent` | src-tauri/src/lib.rs:398-430 | succeeds iff opening the clipboard and writing the text succeed, whatever HTML and RTF writes answer; the text is written first, HTML and RTF are attempted iff given and the text write succeeded, a failed text write is the only call made; the two error messages |
| `Store.Pushed` | src-tauri/src/lib.rs:95-102 | the new history is a suffix of the old history plus the item, drops at most one entry (the oldest), drops it exactly when the bound is exceeded, and stays within a bound it was within |
| `Store.PushedKeepsIds` | src-tauri/src/lib.rs:95-106 | inserting the item carrying the next id keeps ids strictly increasing and below the incremented id, and leaves that item newest |
| `Store.Truncated` | src-tauri/src/lib.rs:477-484 | the new history has length min(old length, size) and is the newest entries of the old one, in order |
| `Store.PushAllKeepsNewest` | src-tauri/src/lib.rs:95-102 | after N inserts into a history within its bound, the history holds exactly the newest min(length + N, max) of all entries, oldest first |
| `Store.PrepareImagesDir` | src-tauri/src/lib.rs:176-185 | succeeds iff the data folder is found and the image folder exists or is created; the two error messages |
| `Store.ClipboardState.constructor` | src-tauri/src/lib.rs:82-91 | empty history, no fingerprint, next id 0, maximum 100, invariant established |
| `Store.ClipboardState.CreateItem` | src-tauri/src/lib.rs:131-153 | the new item takes the next id, the given clock reading and the classified fields |
| `Store.ClipboardState.AddItem` | src-tauri/src/lib.rs:95-109 | history becomes `Pushed` of the old one; the item's fingerprint is recorded; next id grows by exactly 1; the maximum is unchanged; the invariant is kept; the item is returned |
| `Store.ClipboardState.HandleClipboardUpdate` | src-tauri/src/lib.rs:174-278 | a folder failure is an InitError with nothing changed; a candidate whose fingerprint equals the recorded one reports `false` with nothing changed; otherwise `add_item`'s new state, and `true` or an EventError after the commit; the invariant is kept |
| `Store.ClipboardState.GetHistory` | src-tauri/src/lib.rs:313-316 | returns the history, oldest first, and changes nothing |
| `Store.ClipboardState.ClearHistory` | src-tauri/src/lib.rs:445-450 | empty history, next id 0, no fingerprint, maximum unchanged, invariant kept |
| `Store.ClipboardState.SetMaxHistorySize` | src-tauri/src/lib.rs:473-486 | the maximum becomes the size, the history becomes `Truncated` of the old one, id and fingerprint unchanged, invariant kept |
| `Scenarios.CapacityThreeKeepsNewest` | src-tauri/src/lib.rs:95-109 | with maximum 3, texts a, b, c, d leave b, c, d with ids 1, 2, 3 |
| `Scenarios.RepeatedTextStoredOnce` | src-tauri/src/lib.rs:259-269 | the same text twice: the first update reports true, the second false, one entry stored |
| `Scenarios.RevertToOlderStoredAgain` | src-tauri/src/lib.rs:262-266 | a, b, a are all stored, because only the newest fingerprint is compared |
| `Scenarios.ZeroCapacityKeepsNothing` | src-tauri/src/lib.rs:97-102 | with maximum 0 an accepted insert leaves the history empty |
| `Scenarios.ClearResetsIds` | src-tauri/src/lib.rs:446-449 | after a clear, the content of the last insert is accepted again and gets id 0 |

## Left out

- Classifier.Classify: does not model the panic of `image_path_full.to_str().unwrap()` (src-tauri/src/lib.rs:209) when the image folder's path is not valid Unicode; neither `handle_clipboard_update` nor `on_clipboard_change` catches it, so that update never completes. The model's image branch always yields a capture, because the folder path is not modelled.
- `DefaultHasher` and hash collisions: equal hashes are modelled as equal fingerprints. A collision between different fingerprints, which would wrongly drop an update, is not modelled.
- `next_id` is a `usize` that `+= 1` could overflow; the model uses an unbounded `nat`. Timestamps are `nat` rather than `u64`.
- The Tauri `emit`, `AppHandle` and `app_data_dir`: their outcomes are parameters (`UpdateEnv`). A failed emit is reported after the state is committed.
- The `clipboard_rs` calls (`has`, `get_*`, `set_*`, `ClipboardContext::new`) and the saving of the image to disk: their outcomes are parameters (`Observation`, `WriteOutcomes`, `init`). The bytes of the image and the path of the image folder are not modelled, only the stored file name is.
- `get_clipboard_image`: it only reads a file from disk, so it is filesystem I/O.
- The `Mutex`, `Arc`, the watcher thread, `start_watch` and `on_clipboard_change`: concurrency and plumbing. Each locked block is one atomic method.
- The per-call tokio runtimes, and their `创建运行时失败` errors in the history, clear and resize commands: these commands are modelled from the lock onwards.
- `SystemTime::now()`: clock readings are parameters. The two readings of one watcher update (image name and `create_item`) are separate.
- Logging, the `Serialize` impl of `ClipboardError`, the `Display` texts of its variants, and `run()`.
