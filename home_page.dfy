/**
 * Enlisting on the home page: choosing a country, then a username, then creating the
 * player through the backend.
 */
module HomePage {
  import opened Wrappers
  import Text

  /** Why `handleCreatePlayer` refuses, in the order it checks. */
  datatype EnlistError = MissingCountryOrName | NameTooShort | NameTooLong

  /**
   * The checks of `handleCreatePlayer`: on success, the trimmed username to create.
   * Lengths are JavaScript's, in UTF-16 code units.
   */
  function CheckEnlistment(selectedCountry: string, username: string): (r: Result<string, EnlistError>)
    ensures r.Ok? <==> selectedCountry != "" && 3 <= Text.Utf16Length(Text.Trim(username)) <= 20
    ensures r.Ok? ==> r.value == Text.Trim(username)
    ensures r == Err(MissingCountryOrName) <==> selectedCountry == "" || Text.Trim(username) == []
    ensures r == Err(NameTooShort) <==>
      selectedCountry != "" && Text.Trim(username) != [] && Text.Utf16Length(Text.Trim(username)) < 3
  {
    var name := Text.Trim(username);
    if selectedCountry == "" || name == [] then Err(MissingCountryOrName)
    else if Text.Utf16Length(name) < 3 then Err(NameTooShort)
    else if Text.Utf16Length(name) > 20 then Err(NameTooLong)
    else Ok(name)
  }

  /** Two emoji make a name of length 4 in JavaScript, long enough to enlist. */
  lemma TwoEmojiNameIsAccepted()
    ensures CheckEnlistment("us", "\U{1F600}\U{1F600}") == Ok("\U{1F600}\U{1F600}")
  {
    var name := "\U{1F600}\U{1F600}";
    assert Text.TrimStart(name) == name;
    assert Text.TrimEnd(name) == name;
    assert Text.Utf16Length(name) == 4;
  }

  /** The Deploy button is disabled while creating or while the trimmed name is under 3 code units. */
  predicate DeployDisabled(isCreatingPlayer: bool, username: string) {
    isCreatingPlayer || Text.Utf16Length(Text.Trim(username)) < 3
  }

  /**
   * The input field holds at most 20 code units, so the length check the button leaves
   * to `handleCreatePlayer` never fails: with a country chosen, an enabled button
   * always creates the player.  The accepted lengths are 3 to 20 inclusive.
   */
  lemma EnabledDeployIsAccepted(selectedCountry: string, username: string)
    requires Text.Utf16Length(username) <= 20 && selectedCountry != ""
    requires !DeployDisabled(false, username)
    ensures CheckEnlistment(selectedCountry, username) == Ok(Text.Trim(username))
  {
    var i, j := Text.TrimBounds(username);
    Text.Utf16LengthSlice(username, i, j);
  }

  /** The enlistment screen's state. */
  class HomeState {
    var selectedCountry: string
    var username: string
    var isCreatingPlayer: bool
    var showCountrySelector: bool
    var showConfirmationPopup: bool

    constructor ()
      ensures selectedCountry == "" && username == "" && !isCreatingPlayer
      ensures !showCountrySelector && !showConfirmationPopup
    {
      selectedCountry := "";
      username := "";
      isCreatingPlayer := false;
      showCountrySelector := false;
      showConfirmationPopup := false;
    }

    /** `handleCountrySelect`: records the country, closes the selector and asks for confirmation. */
    method HandleCountrySelect(countryId: string)
      modifies this
      ensures selectedCountry == countryId && !showCountrySelector && showConfirmationPopup
      ensures username == old(username) && isCreatingPlayer == old(isCreatingPlayer)
    {
      selectedCountry := countryId;
      showCountrySelector := false;
      showConfirmationPopup := true;
    }

    /** `handleEnterBattlefield`: opens the country selector when a wallet is connected. */
    method HandleEnterBattlefield(connected: bool)
      modifies this
      ensures showCountrySelector == (old(showCountrySelector) || connected)
      ensures selectedCountry == old(selectedCountry) && username == old(username)
      ensures isCreatingPlayer == old(isCreatingPlayer) && showConfirmationPopup == old(showConfirmationPopup)
    {
      if connected {
        showCountrySelector := true;
      }
    }

    /**
     * `handleCreatePlayer`.  `created` is whether `createPlayer` resolves.  Returns the
     * (country, username) passed to `createPlayer`, the reason for refusing, whether
     * `isCreatingPlayer` was set during the call, and whether the page then navigates home.
     */
    method HandleCreatePlayer(created: bool)
      returns (call: Option<(string, string)>, refused: Option<EnlistError>, busyDuringCall: bool, goesHome: bool)
      modifies this
      ensures var check := CheckEnlistment(old(selectedCountry), old(username));
        && (check.Err? ==> call.None? && refused == Some(check.error) && unchanged(this))
        && (check.Ok? ==> call == Some((old(selectedCountry), check.value)) && refused.None?)
      ensures call.Some? ==> busyDuringCall && !isCreatingPlayer
      ensures call.Some? ==> showConfirmationPopup == (old(showConfirmationPopup) && !created)
      ensures goesHome <==> call.Some? && created
      ensures selectedCountry == old(selectedCountry) && username == old(username)
      ensures showCountrySelector == old(showCountrySelector)
    {
      busyDuringCall, goesHome := false, false;
      var check := CheckEnlistment(selectedCountry, username);
      if check.Err? {
        return None, Some(check.error), busyDuringCall, goesHome;
      }
      isCreatingPlayer := true;
      call := Some((selectedCountry, check.value));
      refused := None;
      busyDuringCall := isCreatingPlayer;
      if created {
        showConfirmationPopup := false;
        goesHome := true;
      }
      isCreatingPlayer := false;
    }
  }
}
