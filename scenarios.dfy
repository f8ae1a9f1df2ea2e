/**
 * Callers of the vault that show what its contracts imply for whole
 * sessions: the three-strike lockout, a rejected PIN change, and the
 * counter surviving a successful login until logout.
 */
module Scenarios {
  import opened Wrappers
  import opened DigitalVault

  /** From a zero counter, three wrong PINs report 2 and 1 attempts left, then wipe and end the session. */
  method ThreeStrikes(v: Vault, wrong: string, backupOk: bool, removeOk: bool)
    returns (first: LoginOutcome, second: LoginOutcome, third: LoginOutcome)
    requires v.Valid() && !v.terminated && v.attemptCount == 0 && wrong != v.correctPin
    modifies v
    ensures first == Retry(2) && second == Retry(1) && third == Breach
    ensures v.vaultData == map[] && v.terminated && v.attemptCount == MAX_ATTEMPTS
    ensures removeOk ==> !v.filesDirExists
    ensures backupOk ==> |v.secretArchives| == |old(v.secretArchives)| + 1 && v.secretArchives[|v.secretArchives| - 1] == old(v.vaultData)
  {
    first := v.CheckPin(wrong, backupOk, removeOk);
    second := v.CheckPin(wrong, backupOk, removeOk);
    third := v.CheckPin(wrong, backupOk, removeOk);
  }

  /**
   * A fresh install: the PIN defaults to "1234", which logs in; after logout
   * "0000" three times gives Retry(2), Retry(1), Breach and an empty vault.
   */
  method FreshInstall(backupOk: bool, removeOk: bool)
    returns (login: LoginOutcome, strikes: seq<LoginOutcome>, wiped: bool)
    ensures login == LoggedIn
    ensures strikes == [Retry(2), Retry(1), Breach]
    ensures wiped
  {
    var v := new Vault(Absent, Some(map["note" := Entry("secret", None)]), true);
    login := v.CheckPin("1234", backupOk, removeOk);
    v.Logout(true);
    var a, b, c := ThreeStrikes(v, "0000", backupOk, removeOk);
    strikes := [a, b, c];
    wiped := v.vaultData == map[];
  }

  /** A too-short new PIN is refused; the default PIN still logs in. */
  method RejectedPinChange() returns (change: PinChange, login: LoginOutcome)
    ensures change == BadNewPin
    ensures login == LoggedIn
  {
    var v := new Vault(Absent, None, true);
    change := v.ChangePin("1234", "12", true);
    login := v.CheckPin("1234", false, false);
  }

  /** A successful login keeps earlier failures on the counter; only logout clears it. */
  method FailureCountSurvivesLogin() returns (afterLogin: nat, afterLogout: nat)
    ensures afterLogin == 1
    ensures afterLogout == 0
  {
    var v := new Vault(PinRecord("4321"), None, false);
    var _ := v.CheckPin("0000", false, false);
    var _ := v.CheckPin("4321", false, false);
    afterLogin := v.attemptCount;
    v.Logout(true);
    afterLogout := v.attemptCount;
  }
}
