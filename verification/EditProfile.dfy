/** The profile form: it shows the signed-in user's name, email, Gmail
    address and Google API key, and writes edits back to the user. */
module Profile {
  import opened Common

  /** The user columns the form reads and writes. */
  datatype ProfileUser = ProfileUser(
    name: string,
    email: string,
    gmail: Option<string>,
    googleApiKey: Option<string>,
    emailVerifiedAt: Option<int>
  )

  /** The component's public properties. */
  datatype ProfileForm = ProfileForm(name: string, email: string, gmail: string, googleApiKey: string)

  /** `mount`: the form shows the user, with a null Gmail address or API key
      shown as ''. */
  function Loaded(u: ProfileUser): (f: ProfileForm)
    ensures f.name == u.name && f.email == u.email
    ensures u.gmail.Some? ==> f.gmail == u.gmail.value
    ensures u.gmail.None? ==> f.gmail == ""
    ensures u.googleApiKey.Some? ==> f.googleApiKey == u.googleApiKey.value
    ensures u.googleApiKey.None? ==> f.googleApiKey == ""
  {
    ProfileForm(u.name, u.email, u.gmail.GetOr(""), u.googleApiKey.GetOr(""))
  }

  /** `updateProfileInformation` on validated input: name, email and Gmail
      address come from the form; the API key is stored trimmed, and a key
      that is blank after trimming leaves the stored one as it was; a
      changed email is no longer verified. */
  function Updated(u: ProfileUser, f: ProfileForm): (r: ProfileUser)
    ensures r.name == f.name && r.email == f.email && r.gmail == Some(f.gmail)
    ensures Blank(f.googleApiKey) ==> r.googleApiKey == u.googleApiKey
    ensures !Blank(f.googleApiKey) ==> r.googleApiKey == Some(Trim(f.googleApiKey))
    ensures f.email != u.email ==> r.emailVerifiedAt.None?
    ensures f.email == u.email ==> r.emailVerifiedAt == u.emailVerifiedAt
  {
    var key := Trim(f.googleApiKey);
    ProfileUser(
      f.name, f.email, Some(f.gmail),
      if key != "" then Some(key) else u.googleApiKey,
      if f.email != u.email then None else u.emailVerifiedAt)
  }

  /** A key the form writes is stored trimmed and not blank, so trimming
      it again changes nothing. */
  lemma StoredKeyIsTrimmed(u: ProfileUser, f: ProfileForm)
    requires Updated(u, f).googleApiKey != u.googleApiKey
    ensures var k := Updated(u, f).googleApiKey;
      k.Some? && k.value != "" && Trim(k.value) == k.value
  {
    TrimIdempotent(f.googleApiKey);
  }

  /** Saving the form as loaded changes nothing, for a user whose Gmail
      address is set and whose API key is already trimmed. */
  lemma SaveUneditedIsNoop(u: ProfileUser)
    requires u.gmail.Some?
    requires u.googleApiKey.Some? ==> Trim(u.googleApiKey.value) == u.googleApiKey.value
    ensures Updated(u, Loaded(u)) == u
  {
    if u.googleApiKey.None? {
      assert TrimStart("") == "" && TrimEnd("") == "";
    }
  }

  /** Saving twice is saving once: the second save of the reloaded form
      writes nothing new. */
  lemma {:induction false} SaveIsIdempotent(u: ProfileUser, f: ProfileForm)
    requires u.googleApiKey.Some? ==> Trim(u.googleApiKey.value) == u.googleApiKey.value
    ensures var saved := Updated(u, f);
      Updated(saved, Loaded(saved)) == saved
  {
    var saved := Updated(u, f);
    if saved.googleApiKey != u.googleApiKey {
      StoredKeyIsTrimmed(u, f);
    }
    SaveUneditedIsNoop(saved);
  }

  // ---------------------------------------------------------------------
  // The component

  class EditProfile {
    var name: string
    var email: string
    var gmail: string
    var googleApiKey: string
    /** The signed-in user as stored. */
    var user: ProfileUser

    function Form(): ProfileForm
      reads this
    {
      ProfileForm(name, email, gmail, googleApiKey)
    }

    constructor (user: ProfileUser)
      ensures this.user == user && Form() == Loaded(user)
    {
      this.user := user;
      name := user.name;
      email := user.email;
      gmail := user.gmail.GetOr("");
      googleApiKey := user.googleApiKey.GetOr("");
    }

    method Mount()
      modifies this
      ensures user == old(user) && Form() == Loaded(user)
    {
      name := user.name;
      email := user.email;
      gmail := user.gmail.GetOr("");
      googleApiKey := user.googleApiKey.GetOr("");
    }

    /** `validated` is the outcome of the form's validation rules; on failure
        nothing changes. */
    method UpdateProfileInformation(validated: bool)
      modifies this
      ensures !validated ==> user == old(user) && Form() == old(Form())
      ensures validated ==> user == Updated(old(user), old(Form())) && Form() == Loaded(user)
    {
      if !validated {
        return;
      }
      var key := Trim(googleApiKey);
      var updated := user.(name := name, email := email, gmail := Some(gmail));
      if key != "" {
        updated := updated.(googleApiKey := Some(key));
      }
      if updated.email != user.email {
        updated := updated.(emailVerifiedAt := None);
      }
      user := updated;
      Mount();
    }
  }
}
