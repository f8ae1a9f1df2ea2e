# Digital vault: PIN gate, lockout and breach response

A model of the core of a single-user desktop note vault (`main.py`, class
`DigitalVault`). The vault keeps title-keyed text entries, each of which may
have an attached file. Behind the widget code is a small state machine:

- A PIN gate with a three-strike lockout. The third wrong PIN in a session
  runs the breach response.
- The breach response, an ordered pipeline: a best-effort emergency backup,
  then the wipe of the vault, then removal of the attachments directory, then
  the end of the session.
- First-time PIN setup and the change-PIN dialog. Both accept only a PIN of
  exactly four digits.
- Loading the PIN, with a fallback to the default `"1234"`.
- Saving, deleting and listing entries, and restoring a backup.

The model is one class, `DigitalVault.Vault`. Its fields are the
application's instance state: the failure counter, the logged-in flag, the
PIN, the entry map and the selected attachment path. The field `pinFile` is
not an attribute of `DigitalVault`: it stands for the contents of `pin.json`
on disk, which the class reads and writes. Ghost fields track three things: whether the attachments
directory exists, whether the session has been told to quit, and the
snapshots written to the secret backup location.

The breach response ends with `window.quit()` (`main.py:422`), which stops
the event loop, so no further callback runs. Every event handler therefore
requires that the session has not ended (`!terminated`).

Each effect the program gets from outside becomes a method parameter: whether
a write went through, whether the archive or the directory removal
succeeded, what a dialog returned, what a file held, and the name a copied
attachment received.

Pure helpers live in their own modules:

- `PinFormat`: the four-digit test.
- `Whitespace`: Python's `str.strip()`, with Python's exact whitespace set.
- `TitleOrder`: Python's code-point string order and the `sorted(...)`
  listing of titles.

`Scenarios` holds callers that follow whole sessions through the contracts.

Where the code differs from what a reader might expect, the model follows
the code:

- A correct PIN does **not** reset the failure counter; only logout does
  (`main.py:381-383`, `main.py:611`). `Scenarios.FailureCountSurvivesLogin`
  shows this.
- The breach response does not clear the logged-in flag.
- A failed `rmtree` is caught and printed, so the attachments directory
  survives in that case. The model takes the result of the removal as an
  input, `removeOk`.
- `delete_entry` looks the selected title up before deleting it. A title
  the vault does not hold raises `KeyError`, which aborts the callback before
  anything changes. The model treats it as a deletion that does not happen.
- `load_pin` writes `pin.json` before start-up tests whether that file
  exists. So first-time setup appears only when that write failed. The
  constructor's last `ensures` states this: setup is shown exactly when there
  was no file and the write failed.

## Model

| member | source | states |
|---|---|---|
| PinFormat.AllDigits | main.py:198 | true exactly when every character of the string is a digit |
| PinFormat.IsDigitString | main.py:198 | Python's `isdigit`: true exactly when the string is non-empty and every character is a digit |
| PinFormat.IsValidPin | main.py:595 | a PIN is accepted exactly when it has length 4 and all four characters are digits |
| Whitespace.IsSpace | main.py:454-455 | the characters `str.strip()` removes: CPython's whitespace set (tab to carriage return, the four separators U+001C to U+001F, space, U+0085, U+00A0, U+1680, U+2000 to U+200A, U+2028, U+2029, U+202F, U+205F, U+3000) |
| Whitespace.SkipLeft | main.py:454 | the position found is the first one from the start that is not whitespace; everything skipped is whitespace |
| Whitespace.SkipRight | main.py:455 | the end found is the last one that follows a non-whitespace character; everything dropped after it is whitespace |
| Whitespace.Strip | main.py:454-457 | the result is a slice of the input cut out by removing whitespace only; it neither starts nor ends with whitespace; it is empty exactly when the input is all whitespace |
| Whitespace.StripIdempotent | main.py:454-455 | stripping an already stripped string changes nothing |
| TitleOrder.Less | main.py:536 | Python's `<` on strings, which `sorted` uses: code-point comparison from the first character on, where a proper prefix sorts first |
| TitleOrder.LessIsLexicographic | main.py:536 | `Less(a, b)` holds exactly when `a` is a proper prefix of `b`, or `a` has the smaller code point at the first position where the two differ |
| TitleOrder.LessIrreflexive | main.py:536 | no title sorts before itself |
| TitleOrder.LessAsymmetric | main.py:536 | if a sorts before b, then b does not sort before a |
| TitleOrder.LessTransitive | main.py:536 | the string order is transitive |
| TitleOrder.LessTotal | main.py:536 | of two distinct titles, one sorts before the other |
| TitleOrder.LeastExists | main.py:536 | every non-empty set of titles has a least title |
| TitleOrder.SortedTitles | main.py:536 | `sorted(keys)`: each title of the set exactly once, strictly ascending, and nothing else |
| TitleOrder.SortedListingUnique | main.py:536-538 | two strictly ascending listings of the same titles are equal, so the sorted listing is unique |
| DigitalVault.ReadPin | main.py:137-142 | `json.load(f)["pin"]` with its fallbacks: a PIN is read exactly when the file exists, is readable, parses, and has a `"pin"` key; a missing file, a read error, a parse error and a missing key all give none |
| DigitalVault.PinRecord | main.py:150 | the file `json.dump({"pin": pin})` writes; reading it back gives exactly `pin` |
| DigitalVault.Vault.NeedsFirstTimeSetup | main.py:101 | the `os.path.exists(self.pin_file)` test: setup is needed exactly when there is no `pin.json` |
| DigitalVault.SaveFileToVault | main.py:434-450 | an attachment name is returned exactly when the path is non-empty and the copy succeeded, and it is the copy's name |
| DigitalVault.Vault.constructor | main.py:74-104 | counter 0, logged out, attachments directory present; vault = loaded data or empty; PIN = stored PIN or the default; first-time setup shown exactly when no `pin.json` existed and writing the default failed |
| DigitalVault.Vault.LoadPin | main.py:135-144 | returns the stored `"pin"` value and leaves the file alone when there is one; otherwise returns `"1234"` and writes `{"pin": "1234"}` if the write succeeds |
| DigitalVault.Vault.SavePin | main.py:146-152 | a successful write stores `{"pin": pin}`, and reading it back gives `pin`; a failed write leaves the old file |
| DigitalVault.Vault.CheckPin | main.py:378-394 | a correct PIN logs in and leaves the counter and data unchanged. A wrong PIN adds exactly 1 to the counter. If attempts remain, it reports `Retry(3 - count)` and touches no data. Otherwise it reports `Breach` with the full breach effect. The invariant "a live session has fewer than 3 failures" is kept |
| DigitalVault.Vault.HandleSecurityBreach | main.py:396-422 | whatever the backup returned: the vault is emptied, the files directory is removed unless removal failed, and the session ends. A successful backup archives the vault as it was before the wipe. The backup result only selects the notice |
| DigitalVault.Vault.SaveSettings | main.py:195-204 | accepted exactly when the PIN is four digits; then the PIN is the new one and is persisted if the write succeeds; otherwise the PIN and the file are unchanged |
| DigitalVault.Vault.ChangePin | main.py:593-603 | the current PIN is checked first, then the format. The PIN changes exactly when both pass, and then to a valid four-digit PIN. Otherwise the PIN and the file are unchanged |
| DigitalVault.Vault.Logout | main.py:607-612 | after confirmation, the counter is 0 and the session is logged out; without it, nothing changes |
| DigitalVault.Vault.SelectFile | main.py:424-432 | a chosen (non-empty) path becomes the selection; a cancelled dialog keeps the old one |
| DigitalVault.Vault.SaveEntry | main.py:452-470 | saves exactly when neither title nor content is all whitespace. On save, the stripped title maps to (stripped content, attachment name when a file was selected and copied, else none), every other key is unchanged (last write wins), and the form is cleared. Otherwise nothing changes |
| DigitalVault.Vault.DeleteEntry | main.py:475-496 | deletes exactly when a title is selected, the user confirmed, and the vault holds that title; then exactly that key is removed and the form is cleared; otherwise nothing changes |
| DigitalVault.Vault.ShowContent | main.py:498-507 | the selected title's entry is returned exactly when the vault holds it, and then the form clear drops the selected attachment path (`main.py:505`); no selection or an unknown title changes nothing |
| DigitalVault.Vault.RestoreBackup | main.py:554-575 | a loaded backup replaces the whole vault, with no merge; a missing backup directory, a cancelled dialog or a failed load leaves the vault unchanged |
| DigitalVault.Vault.UpdateDataList | main.py:532-540 | the listed titles are exactly the vault's keys, strictly ascending, each once |
| Scenarios.ThreeStrikes | main.py:384-394 | from counter 0, three wrong PINs report `Retry(2)`, `Retry(1)`, `Breach`; then the vault is empty and the session ends |
| Scenarios.FreshInstall | main.py:135-144 | on a fresh install the default PIN `"1234"` logs in; after logout, `"0000"` three times gives `Retry(2)`, `Retry(1)`, `Breach` and an empty vault |
| Scenarios.RejectedPinChange | main.py:593-603 | changing `"1234"` to `"12"` is refused and `"1234"` still logs in |
| Scenarios.FailureCountSurvivesLogin | main.py:381-385 | a wrong PIN and then the right one leave the counter at 1; logout brings it to 0 |

## Left out

- Widget construction, layout, styling, message boxes and event bindings. Dialog answers and confirmations are method parameters. Message texts are not modelled, except the backup notice.
- Resolving the secret backup location (registry access, directory creation, the `attrib +h` call, platform branching). The location appears only as the ghost list of archived snapshots.
- Creating the 7z archive and its fixed password. The archive's success is the `backupOk` input. An archive holds the in-memory vault; the data file on disk can differ when an earlier save failed.
- JSON encoding and decoding, and the data file. The persisted data is the in-memory map. The `save_data` after each change and its failures are not modelled. `load_data` is a constructor input.
- A `pin.json` holding valid JSON that is not an object (a `TypeError` that `load_pin` does not catch), or a non-string `"pin"` value. Restoring a backup whose JSON does not have the entry shape.
- Partially written files after an interrupted write.
- The individual attachment files: the copy in `save_entry`, the `os.remove` in `delete_entry`, opening them in `show_content` and `open_file`, and the manual `backup_data` copy. Only whether the attachments directory exists is tracked.
- Timestamps and `os.path.basename` in file names. The name a copied attachment receives is the opaque input `copiedName`.
- Filling the title, content and file-label widgets in `show_content` (`main.py:506-510`). `Vault.ShowContent` returns the entry to display instead.
- Window closing (`on_closing`), `run`, and the start-up script.
- PinFormat.AllDigits: accepts the ASCII digits '0'..'9' only. Python's `str.isdigit` also accepts other Unicode digit characters (superscripts, digits of other scripts), so the model narrows the source there.
- PinFormat.IsDigitString: narrows Python's `str.isdigit` to ASCII digits in the same way.
- PinFormat.IsValidPin: rejects four-character PINs that use non-ASCII digits, which the source accepts.
- TitleOrder.Less: Dafny characters are Unicode scalar values, so Python strings with lone surrogates are not covered.
