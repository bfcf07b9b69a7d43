/**
 * The profile store of the web page: named bundles of form values (style
 * instructions, script, voice, temperature, file name), the name of the
 * profile in use, and the profiles file every successful change rewrites.
 * The page's session state becomes the fields of `ProfileStore`; the file
 * becomes a ghost field holding what was last written to it.
 */
module Profiles {
  import opened Wrappers
  import opened PyStr

  /** The temperature slider's value, carried as it is: nothing here computes with it. */
  type Temperature = real

  /** One profile: the five values the page binds to its controls. */
  datatype Profile = Profile(
    styleInstructions: string,
    mainText: string,
    voice: string,
    temperature: Temperature,
    filename: string)

  /** A `save_to_current_profile(field, value)` call for one of the five bound fields. */
  datatype FieldUpdate =
    | SetStyleInstructions(text: string)
    | SetMainText(text: string)
    | SetVoice(display: string)
    | SetTemperature(value: Temperature)
    | SetFilename(name: string)

  /** `profile[field] = value`. */
  function Apply(p: Profile, u: FieldUpdate): Profile
  {
    match u
    case SetStyleInstructions(t) => p.(styleInstructions := t)
    case SetMainText(t) => p.(mainText := t)
    case SetVoice(v) => p.(voice := v)
    case SetTemperature(t) => p.(temperature := t)
    case SetFilename(f) => p.(filename := f)
  }

  /** Whether `q` equals `p` on every field `u` does not name. */
  predicate SameOutside(p: Profile, q: Profile, u: FieldUpdate)
  {
    && (u.SetStyleInstructions? || q.styleInstructions == p.styleInstructions)
    && (u.SetMainText? || q.mainText == p.mainText)
    && (u.SetVoice? || q.voice == p.voice)
    && (u.SetTemperature? || q.temperature == p.temperature)
    && (u.SetFilename? || q.filename == p.filename)
  }

  /** An update sets the field it names to its value and leaves the other four alone. */
  lemma ApplyChangesOneField(p: Profile, u: FieldUpdate)
    ensures SameOutside(p, Apply(p, u), u)
    ensures match u
            case SetStyleInstructions(t) => Apply(p, u).styleInstructions == t
            case SetMainText(t) => Apply(p, u).mainText == t
            case SetVoice(v) => Apply(p, u).voice == v
            case SetTemperature(t) => Apply(p, u).temperature == t
            case SetFilename(f) => Apply(p, u).filename == f
  {
  }

  /** The content of the profiles file: `{'profiles': ..., 'last_profile': ...}`. */
  datatype ProfilesFile = ProfilesFile(profiles: map<string, Profile>, lastProfile: Option<string>)

  /** The protected profile, which always exists and cannot be deleted. */
  const DefaultName := "Default"

  /** The values of the profile a fresh installation starts with. */
  const DefaultProfile := Profile("", "", "Achernar - Soft", 0.9, "my_voiceover")

  /**
   * `load_profiles_from_file`: the file's content when it could be read
   * (`Some`), otherwise the single `Default` profile, which is also the last one used.
   */
  function LoadProfiles(file: Option<ProfilesFile>): ProfilesFile
  {
    match file
    case Some(data) => data
    case None => ProfilesFile(map[DefaultName := DefaultProfile], Some(DefaultName))
  }

  /** With no readable file, the store starts with `Default` alone, and it is the one in use. */
  lemma LoadWithoutFile()
    ensures LoadProfiles(None).profiles.Keys == {DefaultName}
    ensures LoadProfiles(None).profiles[DefaultName] == Profile("", "", "Achernar - Soft", 0.9, "my_voiceover")
    ensures LoadProfiles(None).lastProfile == Some(DefaultName)
  {
  }

  /** A file whose `last_profile`, when present, is one of its profiles. */
  predicate LastProfileIsKey(f: ProfilesFile)
  {
    f.lastProfile.Some? ==> f.lastProfile.value in f.profiles
  }

  class ProfileStore {
    /** `st.session_state.profiles`. */
    var profiles: map<string, Profile>
    /** `st.session_state.current_profile`. */
    var currentProfile: string
    /** What this session last wrote to the profiles file (`None`: nothing yet, the file is as loaded). */
    ghost var saved: Option<ProfilesFile>

    /** `Default` is a key: `get_current_profile_data` fails without it. */
    ghost predicate Valid()
      reads this
    {
      DefaultName in profiles
    }

    /** The profile in use is a key, and so is the `last_profile` of the last file written. */
    ghost predicate Consistent()
      reads this
    {
      currentProfile in profiles && (saved.Some? ==> LastProfileIsKey(saved.value))
    }

    /** `data_to_save`: the state the page writes to the file. */
    function Snapshot(): ProfilesFile
      reads this
    {
      ProfilesFile(profiles, Some(currentProfile))
    }

    /**
     * `initialize_profiles`, given what was read from the profiles file
     * (`None` when it is missing or unreadable). The current profile falls back to
     * `Default` when the file names none.
     */
    constructor (file: Option<ProfilesFile>)
      requires file.Some? ==> DefaultName in file.value.profiles
      ensures Valid()
      ensures profiles == LoadProfiles(file).profiles
      ensures currentProfile == LoadProfiles(file).lastProfile.GetOr(DefaultName)
      ensures saved == None
      ensures file.None? ==> Consistent()
      ensures file.Some? && LastProfileIsKey(file.value) ==> Consistent()
    {
      var data := LoadProfiles(file);
      profiles := data.profiles;
      currentProfile := data.lastProfile.GetOr(DefaultName);
      saved := None;
    }

    /**
     * `get_current_profile_data`: always one of the stored profiles, and,
     * while the store is consistent, exactly the profile in use; the
     * `Default` fallback is only reached from an inconsistent store.
     */
    function CurrentProfileData(): (p: Profile)
      reads this
      requires Valid()
      ensures p in profiles.Values
      ensures Consistent() ==> p == profiles[currentProfile]
    {
      if currentProfile in profiles then profiles[currentProfile] else profiles[DefaultName]
    }

    /**
     * `save_to_current_profile`: sets one field of the profile in use and
     * writes the file; does nothing at all when `currentProfile` is not a key.
     */
    method SaveToCurrentProfile(u: FieldUpdate)
      requires Valid()
      modifies this
      ensures Valid() && (old(Consistent()) ==> Consistent())
      ensures currentProfile == old(currentProfile)
      ensures old(currentProfile) in old(profiles) ==>
                && profiles == old(profiles)[currentProfile := Apply(old(profiles)[currentProfile], u)]
                && saved == Some(Snapshot())
      ensures old(currentProfile) !in old(profiles) ==> profiles == old(profiles) && saved == old(saved)
    {
      if currentProfile in profiles {
        profiles := profiles[currentProfile := Apply(profiles[currentProfile], u)];
        saved := Some(Snapshot());
      }
    }

    /**
     * `create_new_profile`: refuses an empty or all-whitespace name and a name
     * whose stripped form is taken; otherwise adds the stripped name with a
     * copy of the profile in use, switches to it and writes the file.
     */
    method CreateNewProfile(profileName: string) returns (created: bool)
      requires Valid()
      modifies this
      ensures Valid() && (old(Consistent()) ==> Consistent())
      ensures created <==> Strip(profileName) != "" && Strip(profileName) !in old(profiles)
      ensures !created ==> profiles == old(profiles) && currentProfile == old(currentProfile) && saved == old(saved)
      ensures created ==>
                && profiles == old(profiles)[Strip(profileName) := old(CurrentProfileData())]
                && currentProfile == Strip(profileName)
                && saved == Some(Snapshot())
    {
      if profileName == "" || Strip(profileName) == "" {
        return false;
      }
      var name := Strip(profileName);
      if name in profiles {
        return false;
      }
      var currentData := CurrentProfileData();
      profiles := profiles[name := currentData];
      currentProfile := name;
      saved := Some(Snapshot());
      return true;
    }

    /**
     * `delete_profile`: refuses `Default` and names that are not profiles;
     * otherwise removes exactly that profile, makes `Default` current
     * if the removed one was current, and writes the file.
     */
    method DeleteProfile(profileName: string) returns (deleted: bool)
      requires Valid()
      modifies this
      ensures Valid() && (old(Consistent()) ==> Consistent())
      ensures deleted <==> profileName != DefaultName && profileName in old(profiles)
      ensures !deleted ==> profiles == old(profiles) && currentProfile == old(currentProfile) && saved == old(saved)
      ensures deleted ==>
                && profiles == old(profiles) - {profileName}
                && currentProfile == (if old(currentProfile) == profileName then DefaultName else old(currentProfile))
                && currentProfile != profileName
                && saved == Some(Snapshot())
    {
      if profileName == DefaultName || profileName !in profiles {
        return false;
      }
      profiles := profiles - {profileName};
      if currentProfile == profileName {
        currentProfile := DefaultName;
      }
      saved := Some(Snapshot());
      return true;
    }

    /** `switch_profile`: makes a profile that exists current and writes the file; otherwise nothing. */
    method SwitchProfile(profileName: string)
      requires Valid()
      modifies this
      ensures Valid() && (old(Consistent()) ==> Consistent())
      ensures profiles == old(profiles)
      ensures profileName in old(profiles) ==> currentProfile == profileName && saved == Some(Snapshot())
      ensures profileName !in old(profiles) ==> currentProfile == old(currentProfile) && saved == old(saved)
    {
      if profileName in profiles {
        currentProfile := profileName;
        saved := Some(Snapshot());
      }
    }
  }

  /**
   * A session on a fresh installation that creates, edits and deletes one
   * profile, showing what the contracts let a caller conclude.
   */
  method FreshInstallationSession(name: string)
    requires name != "" && !IsSpace(name[0]) && !IsSpace(name[|name| - 1])
    requires name != DefaultName
  {
    var store := new ProfileStore(None);
    assert store.currentProfile == DefaultName && store.Consistent();
    StripNoSpace(name);
    var created := store.CreateNewProfile(name);
    assert created && store.currentProfile == name;
    assert store.profiles[name] == DefaultProfile;
    store.SaveToCurrentProfile(SetMainText("Hello world"));
    assert store.profiles[name].mainText == "Hello world";
    assert store.profiles[DefaultName] == DefaultProfile;
    var again := store.CreateNewProfile(name);
    assert !again;
    var refused := store.DeleteProfile(DefaultName);
    assert !refused;
    var deleted := store.DeleteProfile(name);
    assert deleted && store.currentProfile == DefaultName;
    assert store.profiles.Keys == {DefaultName};
    assert store.profiles == map[DefaultName := DefaultProfile];
    assert store.saved == Some(ProfilesFile(map[DefaultName := DefaultProfile], Some(DefaultName)));
  }
}
