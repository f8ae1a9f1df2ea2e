/**
 * The stateful core of the desktop vault: the PIN gate with its three-strike
 * lockout, the breach response that backs up and then wipes the vault, PIN
 * setup and change, and the title-keyed entry store.
 *
 * File, dialog and clock effects are inputs: each method receives the outcome
 * of the I/O it would perform (whether a write went through, what a dialog
 * returned) as a parameter.
 */
module DigitalVault {
  import opened Wrappers
  import opened PinFormat
  import opened Whitespace
  import opened TitleOrder

  /** The PIN written on first run and whenever `pin.json` cannot be read. */
  const DEFAULT_PIN: string := "1234"

  /** Wrong PINs allowed in one session; the last of them triggers the breach response. */
  const MAX_ATTEMPTS: nat := 3

  /** The line printed when the emergency backup succeeded. */
  const BACKUP_NOTICE: string := "Veriler güvenli konuma yedeklendi.\n"

  /** One vault record: its text and the name of its attached copy in the files directory, if any. */
  datatype Entry = Entry(content: string, fileName: Option<string>)

  /** What `pin.json` holds: nothing, a file that cannot be read, text that is not JSON, or a JSON object. */
  datatype PinFile = Absent | Unreadable | Malformed | Stored(fields: map<string, string>)

  /** The file `save_pin` writes: the object `{"pin": pin}`. */
  function PinRecord(pin: string): (file: PinFile)
    ensures ReadPin(file) == Some(pin)
  {
    Stored(map["pin" := pin])
  }

  /** The PIN stored in the file, when it is a JSON object with a "pin" key. */
  function ReadPin(file: PinFile): (pin: Option<string>)
    ensures pin.Some? <==> file.Stored? && "pin" in file.fields
  {
    if file.Stored? && "pin" in file.fields then Some(file.fields["pin"]) else None
  }

  /** What the login screen reports after one PIN entry. */
  datatype LoginOutcome = LoggedIn | Retry(remaining: nat) | Breach

  /** What the change-PIN dialog reports. */
  datatype PinChange = Changed | WrongCurrentPin | BadNewPin

  /** What the restore dialog produced: no backup directory, no file chosen, a file that failed to load, or its contents. */
  datatype RestoreSource = NoBackupDir | Cancelled | LoadFailed | Loaded(data: map<string, Entry>)

  /**
   * The copy of an attachment into the files directory: no name for an empty
   * path or a failed copy, else the timestamped name the copy received.
   */
  function SaveFileToVault(filePath: string, copyOk: bool, copiedName: string): (r: Option<string>)
    ensures r.Some? <==> filePath != "" && copyOk
    ensures r.Some? ==> r.value == copiedName
  {
    if filePath == "" then None
    else if copyOk then Some(copiedName)
    else None
  }

  class Vault {
    var attemptCount: nat
    var isLoggedIn: bool
    var correctPin: string
    var vaultData: map<string, Entry>
    /** The attachment chosen in the entry form, not yet saved. */
    var selectedFilePath: Option<string>
    /** The persisted `pin.json`. */
    var pinFile: PinFile
    /** Whether the attachments directory `vault_files` is on disk. */
    ghost var filesDirExists: bool
    /**
     * Whether the event loop has been told to quit. Every event handler
     * requires that it has not: once the breach response quits the loop,
     * no further PIN entry, edit or restore can run in that process.
     */
    ghost var terminated: bool
    /** The vault snapshots written to the secret backup location, oldest first. */
    ghost var secretArchives: seq<map<string, Entry>>

    /**
     * Reachable states: a live session has fewer than MAX_ATTEMPTS failures
     * behind it (the last allowed failure ends the session), and a selected
     * attachment path is never empty.
     */
    ghost predicate Valid()
      reads this
    {
      && (!terminated ==> attemptCount < MAX_ATTEMPTS)
      && (selectedFilePath.Some? ==> selectedFilePath.value != "")
    }

    /** The start-up check: first-time setup is shown when no `pin.json` exists. */
    predicate NeedsFirstTimeSetup()
      reads this
    {
      pinFile.Absent?
    }

    /** Nothing that a breach touches has changed. */
    twostate predicate DataUntouched()
      reads this
    {
      && vaultData == old(vaultData)
      && filesDirExists == old(filesDirExists)
      && terminated == old(terminated)
      && secretArchives == old(secretArchives)
    }

    /**
     * The effect of the breach response, whatever the backup returned: the
     * vault is empty, the files directory is gone unless its removal failed,
     * the session is over, and a successful backup archived the vault as it
     * was before the wipe.
     */
    twostate predicate BreachApplied(backupOk: bool, removeOk: bool)
      reads this
    {
      && vaultData == map[]
      && filesDirExists == (old(filesDirExists) && !removeOk)
      && terminated
      && secretArchives == (if backupOk then old(secretArchives) + [old(vaultData)] else old(secretArchives))
    }

    /**
     * Start-up: the attachments directory is created, the counter is zero, no
     * one is logged in, the vault holds what the data file held (empty if it
     * was missing or unreadable) and the PIN is loaded.
     */
    constructor (storedPin: PinFile, storedData: Option<map<string, Entry>>, pinWriteOk: bool)
      ensures Valid()
      ensures attemptCount == 0 && !isLoggedIn && selectedFilePath == None
      ensures filesDirExists && !terminated && secretArchives == []
      ensures vaultData == (if storedData.Some? then storedData.value else map[])
      ensures correctPin == (if ReadPin(storedPin).Some? then ReadPin(storedPin).value else DEFAULT_PIN)
      ensures pinFile == (if ReadPin(storedPin).None? && pinWriteOk then PinRecord(DEFAULT_PIN) else storedPin)
      ensures NeedsFirstTimeSetup() <==> storedPin.Absent? && !pinWriteOk
    {
      filesDirExists := true;
      attemptCount := 0;
      isLoggedIn := false;
      selectedFilePath := None;
      vaultData := if storedData.Some? then storedData.value else map[];
      pinFile := storedPin;
      terminated := false;
      secretArchives := [];
      new;
      correctPin := LoadPin(pinWriteOk);
    }

    /** Read the stored PIN; when there is none, persist the default and use it. */
    method LoadPin(writeOk: bool) returns (pin: string)
      modifies this`pinFile
      ensures ReadPin(old(pinFile)).Some? ==> pin == ReadPin(old(pinFile)).value && pinFile == old(pinFile)
      ensures ReadPin(old(pinFile)).None? ==>
        pin == DEFAULT_PIN && pinFile == (if writeOk then PinRecord(DEFAULT_PIN) else old(pinFile))
    {
      var stored := ReadPin(pinFile);
      if stored.Some? {
        return stored.value;
      }
      SavePin(DEFAULT_PIN, writeOk);
      pin := DEFAULT_PIN;
    }

    /** Persist `pin`; a failed write leaves the old file in place. */
    method SavePin(pin: string, writeOk: bool)
      modifies this`pinFile
      ensures pinFile == (if writeOk then PinRecord(pin) else old(pinFile))
      ensures writeOk ==> ReadPin(pinFile) == Some(pin)
    {
      if writeOk {
        pinFile := PinRecord(pin);
      }
    }

    /**
     * One PIN entry on the login screen. A match logs in and leaves the
     * failure counter as it is; a mismatch counts one more failure and either
     * reports the attempts left or runs the breach response.
     */
    method CheckPin(entered: string, backupOk: bool, removeOk: bool) returns (outcome: LoginOutcome)
      requires Valid() && !terminated
      modifies this
      ensures Valid()
      ensures correctPin == old(correctPin) && pinFile == old(pinFile) && selectedFilePath == old(selectedFilePath)
      ensures entered == old(correctPin) ==>
        outcome == LoggedIn && isLoggedIn && attemptCount == old(attemptCount) && DataUntouched()
      ensures entered != old(correctPin) ==> attemptCount == old(attemptCount) + 1 && isLoggedIn == old(isLoggedIn)
      ensures entered != old(correctPin) && attemptCount < MAX_ATTEMPTS ==>
        outcome == Retry(MAX_ATTEMPTS - attemptCount) && DataUntouched()
      ensures entered != old(correctPin) && attemptCount >= MAX_ATTEMPTS ==>
        outcome == Breach && BreachApplied(backupOk, removeOk)
    {
      if entered == correctPin {
        isLoggedIn := true;
        outcome := LoggedIn;
      } else {
        attemptCount := attemptCount + 1;
        var remaining := MAX_ATTEMPTS - attemptCount;
        if remaining > 0 {
          outcome := Retry(remaining);
        } else {
          var _ := HandleSecurityBreach(backupOk, removeOk);
          outcome := Breach;
        }
      }
    }

    /**
     * The breach response, in order: the best-effort emergency backup of the
     * vault (its result only selects the notice), the wipe of the vault, the
     * removal of the files directory, and the end of the session.
     */
    method HandleSecurityBreach(backupOk: bool, removeOk: bool) returns (notice: string)
      modifies this`vaultData, this`filesDirExists, this`terminated, this`secretArchives
      ensures BreachApplied(backupOk, removeOk)
      ensures notice == (if backupOk then BACKUP_NOTICE else "")
    {
      notice := "";
      if backupOk {
        secretArchives := secretArchives + [vaultData];
        notice := notice + BACKUP_NOTICE;
      }
      vaultData := map[];
      filesDirExists := filesDirExists && !removeOk;
      terminated := true;
    }

    /** The setup dialog: a well-formed PIN becomes the PIN and is persisted; any other is refused. */
    method SaveSettings(pin: string, writeOk: bool) returns (accepted: bool)
      requires !terminated
      modifies this`correctPin, this`pinFile
      ensures accepted <==> IsValidPin(pin)
      ensures correctPin == (if accepted then pin else old(correctPin))
      ensures pinFile == (if accepted && writeOk then PinRecord(pin) else old(pinFile))
    {
      if !IsDigitString(pin) || |pin| != PIN_LENGTH {
        return false;
      }
      correctPin := pin;
      SavePin(pin, writeOk);
      accepted := true;
    }

    /**
     * The change-PIN dialog: the current PIN must match first, then the new
     * one must be four digits; only then does the PIN change.
     */
    method ChangePin(current: string, proposed: string, writeOk: bool) returns (result: PinChange)
      requires !terminated
      modifies this`correctPin, this`pinFile
      ensures result == Changed <==> current == old(correctPin) && IsValidPin(proposed)
      ensures result == WrongCurrentPin <==> current != old(correctPin)
      ensures result == Changed ==> correctPin == proposed && IsValidPin(correctPin)
      ensures result != Changed ==> correctPin == old(correctPin)
      ensures pinFile == (if result == Changed && writeOk then PinRecord(proposed) else old(pinFile))
    {
      if current == correctPin {
        if |proposed| == PIN_LENGTH && IsDigitString(proposed) {
          correctPin := proposed;
          SavePin(proposed, writeOk);
          result := Changed;
        } else {
          result := BadNewPin;
        }
      } else {
        result := WrongCurrentPin;
      }
    }

    /** Log out after confirmation: the counter returns to zero and the session is logged out. */
    method Logout(confirmed: bool)
      requires Valid() && !terminated
      modifies this`isLoggedIn, this`attemptCount
      ensures Valid()
      ensures confirmed ==> !isLoggedIn && attemptCount == 0
      ensures !confirmed ==> isLoggedIn == old(isLoggedIn) && attemptCount == old(attemptCount)
    {
      if confirmed {
        isLoggedIn := false;
        attemptCount := 0;
      }
    }

    /** The file dialog: a chosen path replaces the selection; cancelling keeps it. */
    method SelectFile(path: string)
      requires Valid() && !terminated
      modifies this`selectedFilePath
      ensures Valid()
      ensures selectedFilePath == (if path != "" then Some(path) else old(selectedFilePath))
    {
      if path != "" {
        selectedFilePath := Some(path);
      }
    }

    /**
     * Save the form: with a non-blank title and content (both stripped), the
     * title maps to the new entry, replacing any entry it had, and the form
     * is cleared; otherwise nothing changes.
     */
    method SaveEntry(rawTitle: string, rawContent: string, copyOk: bool, copiedName: string) returns (saved: bool)
      requires Valid() && !terminated
      modifies this`vaultData, this`selectedFilePath
      ensures Valid()
      ensures saved <==> !AllSpace(rawTitle) && !AllSpace(rawContent)
      ensures saved ==>
        var attached := if old(selectedFilePath).Some? && copyOk then Some(copiedName) else None;
        && vaultData == old(vaultData)[Strip(rawTitle) := Entry(Strip(rawContent), attached)]
        && selectedFilePath == None
      ensures !saved ==> vaultData == old(vaultData) && selectedFilePath == old(selectedFilePath)
    {
      var title := Strip(rawTitle);
      var content := Strip(rawContent);
      if title == "" || content == "" {
        return false;
      }
      var fileName := None;
      if selectedFilePath.Some? {
        fileName := SaveFileToVault(selectedFilePath.value, copyOk, copiedName);
      }
      vaultData := vaultData[title := Entry(content, fileName)];
      selectedFilePath := None;
      saved := true;
    }

    /**
     * Delete the selected title after confirmation; exactly that title goes
     * and the form is cleared. No selection, no confirmation, or a title the
     * vault does not hold changes nothing.
     */
    method DeleteEntry(selection: Option<string>, confirmed: bool) returns (deleted: bool)
      requires Valid() && !terminated
      modifies this`vaultData, this`selectedFilePath
      ensures Valid()
      ensures deleted <==> selection.Some? && confirmed && selection.value in old(vaultData)
      ensures vaultData == (if deleted then old(vaultData) - {selection.value} else old(vaultData))
      ensures selectedFilePath == (if deleted then None else old(selectedFilePath))
    {
      if selection.None? {
        return false;
      }
      var title := selection.value;
      if !confirmed || title !in vaultData {
        return false;
      }
      vaultData := vaultData - {title};
      selectedFilePath := None;
      deleted := true;
    }

    /**
     * Show the selected entry: its entry is returned for display and the form
     * is cleared first, which also drops the selected attachment path. No
     * selection, or a title the vault does not hold, changes nothing.
     */
    method ShowContent(selection: Option<string>) returns (shown: Option<Entry>)
      requires Valid() && !terminated
      modifies this`selectedFilePath
      ensures Valid()
      ensures shown.Some? <==> selection.Some? && selection.value in vaultData
      ensures shown.Some? ==> shown.value == vaultData[selection.value]
      ensures selectedFilePath == (if shown.Some? then None else old(selectedFilePath))
    {
      if selection.None? || selection.value !in vaultData {
        return None;
      }
      shown := Some(vaultData[selection.value]);
      selectedFilePath := None;
    }

    /** Restore a backup: a loaded file replaces the whole vault, with no merge; every failure keeps it. */
    method RestoreBackup(source: RestoreSource) returns (restored: bool)
      requires !terminated
      modifies this`vaultData
      ensures restored <==> source.Loaded?
      ensures vaultData == (if restored then source.data else old(vaultData))
    {
      if source.NoBackupDir? || source.Cancelled? || source.LoadFailed? {
        return false;
      }
      vaultData := source.data;
      restored := true;
    }

    /** The entry list: every title of the vault exactly once, in ascending order. */
    method UpdateDataList() returns (listbox: seq<string>)
      ensures StrictlySorted(listbox)
      ensures forall t :: t in listbox <==> t in vaultData
      ensures |listbox| == |vaultData|
    {
      var sortedTitles := SortedTitles(vaultData.Keys);
      listbox := [];
      for i := 0 to |sortedTitles|
        invariant listbox == sortedTitles[..i]
      {
        listbox := listbox + [sortedTitles[i]];
      }
    }
  }
}
