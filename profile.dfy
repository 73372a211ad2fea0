/**
 * The profile screen's view model of the iOS client (ProfileViewModel.swift):
 * the form fields, the messages it shows, and how the personal-data stream,
 * `save` and `signOut` update them. Repository calls are asynchronous in the
 * source; here each handler receives the call's outcome as a parameter.
 */
module Profile {
  import opened Common

  type Image = seq<bv8>

  /** The user's profile as the server sends it. */
  datatype PersonalData = PersonalData(fullName: string, email: string, country: Option<string>, pfpUrl: Option<string>)

  /** The server's reply to sign-out. */
  datatype SimpleResponse = SimpleResponse(message: string)

  /** The arguments `save` passes to the repository's `updateProfile`; `email` is None when it is not to be sent. */
  datatype ProfileUpdate = ProfileUpdate(fullName: string, country: string, email: Option<string>, pfp: Image)

  /** The localization keys the view model shows (localization itself is not modelled). */
  const Saved: string := "saved"
  const PleaseFillAllFields: string := "please_fill_all_fields"

  /**
   * The guard of `save` as written: the name and email are non-empty and
   * `countryCodeName?.isEmpty` is not nil. The last test only asks that a
   * country is set, so an empty country code passes.
   */
  function CanSave(fullName: string, countryCodeName: Option<string>, email: string): (r: bool)
    ensures r <==> fullName != "" && countryCodeName.Some? && email != ""
    ensures fullName != "" && email != "" && countryCodeName == Some("") ==> r
  {
    var countryIsEmpty: Option<bool> := if countryCodeName.Some? then Some(countryCodeName.value == "") else None;
    !(fullName == "") && countryIsEmpty != None && !(email == "")
  }

  class ProfileViewModel {
    var messageToShow: string
    var shouldShowMessage: bool
    var pfpFromRemote: Option<Url>
    var pfpToUpload: Image
    var fullName: string
    /** The email the server has confirmed; it changes only when personal data arrives. */
    var currentEmail: string
    var email: string
    var countryCodeName: Option<string>
    var personalData: Option<PersonalData>
    var signOutResponse: Option<SimpleResponse>
    /** The session token UserPreferences holds. */
    var token: Option<string>
    /** Whether `onSignOutCompleted` is set, and how many times it has been called. */
    var hasSignOutCallback: bool
    var signOutCallbacks: nat

    /** The initial field values; the subscriptions `init` starts are not modelled. */
    constructor (storedToken: Option<string>, signOutCallback: bool)
      ensures messageToShow == "" && !shouldShowMessage && pfpFromRemote == None && pfpToUpload == []
      ensures fullName == "" && currentEmail == "" && email == "" && countryCodeName == None
      ensures personalData == None && signOutResponse == None
      ensures token == storedToken && hasSignOutCallback == signOutCallback && signOutCallbacks == 0
    {
      messageToShow, shouldShowMessage := "", false;
      pfpFromRemote, pfpToUpload := None, [];
      fullName, currentEmail, email, countryCodeName := "", "", "", None;
      personalData, signOutResponse := None, None;
      token, hasSignOutCallback, signOutCallbacks := storedToken, signOutCallback, 0;
    }

    /** `showMessage`: sets the message and raises the flag that shows it. */
    method ShowMessage(message: string)
      modifies this`messageToShow, this`shouldShowMessage
      ensures messageToShow == message && shouldShowMessage
    {
      messageToShow := message;
      shouldShowMessage := true;
    }

    /**
     * The personal-data subscription of `getPersonalData`. A value sets the
     * stored data and the form fields from it, and the confirmed email; the
     * picture URL changes only when the data carries one (`parseUrl` stands for
     * `URL(string:)`). A failure shows the error's description.
     */
    method ReceivePersonalData(outcome: Result<PersonalData, string>, parseUrl: string -> Option<Url>)
      modifies this
      ensures outcome.Ok? ==>
        var data := outcome.value;
        && personalData == Some(data)
        && fullName == data.fullName && email == data.email && currentEmail == data.email
        && countryCodeName == data.country
        && pfpFromRemote == (if data.pfpUrl.Some? then parseUrl(data.pfpUrl.value) else old(pfpFromRemote))
        && messageToShow == old(messageToShow) && shouldShowMessage == old(shouldShowMessage)
      ensures outcome.Err? ==>
        && messageToShow == outcome.error && shouldShowMessage
        && personalData == old(personalData) && pfpFromRemote == old(pfpFromRemote)
        && fullName == old(fullName) && email == old(email) && currentEmail == old(currentEmail)
        && countryCodeName == old(countryCodeName)
      ensures pfpToUpload == old(pfpToUpload) && signOutResponse == old(signOutResponse)
      ensures token == old(token) && hasSignOutCallback == old(hasSignOutCallback) && signOutCallbacks == old(signOutCallbacks)
    {
      match outcome {
        case Err(description) =>
          ShowMessage(description);
        case Ok(data) =>
          personalData := Some(data);
          if data.pfpUrl.Some? {
            pfpFromRemote := parseUrl(data.pfpUrl.value);
          }
          fullName := data.fullName;
          currentEmail := data.email;
          email := data.email;
          countryCodeName := data.country;
      }
    }

    /** `updatePersonalDataInMemory`: the form fields take the server's values; the confirmed email is left alone. */
    method UpdatePersonalDataInMemory(data: PersonalData)
      modifies this`fullName, this`email, this`countryCodeName
      ensures fullName == data.fullName && email == data.email && countryCodeName == data.country
    {
      fullName := data.fullName;
      email := data.email;
      countryCodeName := data.country;
    }

    /**
     * `save`. When a field is missing, no repository call is made and the user is
     * asked to fill all fields. Otherwise the update is sent, with the email only
     * when it differs from the confirmed one; on success the form takes the
     * server's values and "saved" is shown, on failure the error is shown.
     * `outcome` is the repository's answer and is ignored when no call is made.
     */
    method Save(outcome: Result<PersonalData, string>) returns (update: Option<ProfileUpdate>)
      modifies this
      ensures !CanSave(old(fullName), old(countryCodeName), old(email)) ==>
        && update == None
        && messageToShow == PleaseFillAllFields && shouldShowMessage
        && fullName == old(fullName) && email == old(email) && countryCodeName == old(countryCodeName)
      ensures CanSave(old(fullName), old(countryCodeName), old(email)) ==>
        && update.Some?
        && update.value.fullName == old(fullName)
        && update.value.country == old(countryCodeName).value
        && (update.value.email == None <==> old(email) == old(currentEmail))
        && (update.value.email != None ==> update.value.email.value == old(email))
        && update.value.pfp == old(pfpToUpload)
      ensures CanSave(old(fullName), old(countryCodeName), old(email)) && outcome.Ok? ==>
        && fullName == outcome.value.fullName && email == outcome.value.email
        && countryCodeName == outcome.value.country
        && messageToShow == Saved && shouldShowMessage
      ensures CanSave(old(fullName), old(countryCodeName), old(email)) && outcome.Err? ==>
        && fullName == old(fullName) && email == old(email) && countryCodeName == old(countryCodeName)
        && messageToShow == outcome.error && shouldShowMessage
      ensures currentEmail == old(currentEmail) && personalData == old(personalData)
      ensures pfpFromRemote == old(pfpFromRemote) && pfpToUpload == old(pfpToUpload)
      ensures signOutResponse == old(signOutResponse) && token == old(token)
      ensures hasSignOutCallback == old(hasSignOutCallback) && signOutCallbacks == old(signOutCallbacks)
    {
      if CanSave(fullName, countryCodeName, email) {
        update := Some(ProfileUpdate(
          fullName,
          countryCodeName.value,
          // the email field is not sent when it has not changed
          if email == currentEmail then None else Some(email),
          pfpToUpload));
        match outcome {
          case Err(description) =>
            ShowMessage(description);
          case Ok(data) =>
            UpdatePersonalDataInMemory(data);
            ShowMessage(Saved);
        }
      } else {
        update := None;
        ShowMessage(PleaseFillAllFields);
      }
    }

    /**
     * `signOut`. On success the response is stored, the token cleared, the
     * completion callback called when set, and the server's message shown; on
     * failure only the error is shown and the token is kept.
     */
    method SignOut(outcome: Result<SimpleResponse, string>)
      modifies this
      ensures outcome.Ok? ==>
        && signOutResponse == Some(outcome.value)
        && token == None
        && signOutCallbacks == old(signOutCallbacks) + (if hasSignOutCallback then 1 else 0)
        && messageToShow == outcome.value.message && shouldShowMessage
      ensures outcome.Err? ==>
        && signOutResponse == old(signOutResponse) && token == old(token)
        && signOutCallbacks == old(signOutCallbacks)
        && messageToShow == outcome.error && shouldShowMessage
      ensures hasSignOutCallback == old(hasSignOutCallback)
      ensures fullName == old(fullName) && email == old(email) && currentEmail == old(currentEmail)
      ensures countryCodeName == old(countryCodeName) && personalData == old(personalData)
      ensures pfpFromRemote == old(pfpFromRemote) && pfpToUpload == old(pfpToUpload)
    {
      match outcome {
        case Err(description) =>
          ShowMessage(description);
        case Ok(response) =>
          signOutResponse := Some(response);
          token := None;
          if hasSignOutCallback {
            signOutCallbacks := signOutCallbacks + 1;
          }
          ShowMessage(response.message);
      }
    }
  }
}
