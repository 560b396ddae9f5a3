/** The admin panel's settings editor: five local form fields seeded from the settings it is
    given, the edits of the advertisement list, and the record it saves. */
module AdminSettings {
  import opened Optional
  import opened Text
  import opened Types
  import opened AppSettings

  /** The three fields of an advertisement. */
  datatype AdField = ImageUrl | AdText | LinkUrl

  function AdFieldValue(ad: Advertisement, field: AdField): string {
    match field
    case ImageUrl => ad.imageUrl
    case AdText => ad.text
    case LinkUrl => ad.linkUrl
  }

  /** `{ ...ad, [field]: value }`: that field takes the value, the other two are kept. */
  function SetAdField(ad: Advertisement, field: AdField, value: string): (r: Advertisement)
    ensures AdFieldValue(r, field) == value
    ensures forall other :: other != field ==> AdFieldValue(r, other) == AdFieldValue(ad, other)
  {
    match field
    case ImageUrl => ad.(imageUrl := value)
    case AdText => ad.(text := value)
    case LinkUrl => ad.(linkUrl := value)
  }

  /** The advertisement a new entry starts as. */
  const BlankAd: Advertisement := Advertisement("", "", "")

  /** The password saved: the current one when the new-password field is empty or only white
      space, otherwise the field's text as typed, not trimmed. */
  function PasswordToSave(newPassword: string, current: string): (r: string)
    ensures AllSpace(newPassword) ==> r == current
    ensures !AllSpace(newPassword) ==> r == newPassword
  {
    TrimBlank(newPassword);
    if Trim(newPassword) == "" then current else newPassword
  }

  /** `handleAddAd`: one more advertisement, blank, at the end. */
  function AppendBlankAd(ads: seq<Advertisement>): (r: seq<Advertisement>)
    ensures |r| == |ads| + 1 && r[..|ads|] == ads && r[|ads|] == BlankAd
  {
    ads + [BlankAd]
  }

  /** The advertisements from position i on, except the one at position index. */
  function KeepOthers(ads: seq<Advertisement>, index: int, i: nat): (r: seq<Advertisement>)
    requires i <= |ads|
    decreases |ads| - i
    ensures !(i <= index < |ads|) ==> r == ads[i..]
    ensures i <= index < |ads| ==> r == ads[i..index] + ads[index + 1..]
  {
    if i == |ads| then []
    else
      var rest := KeepOthers(ads, index, i + 1);
      if i == index then rest
      else
        assert ads[i..] == [ads[i]] + ads[i + 1..];
        assert i < index < |ads| ==> ads[i..index] == [ads[i]] + ads[i + 1..index];
        [ads[i]] + rest
  }

  /** `handleDeleteAd`: `ads.filter((_, i) => i !== index)`. In range, exactly that entry goes
      and the rest keep their order; out of range, the list is kept. */
  function DeleteAt(ads: seq<Advertisement>, index: int): (r: seq<Advertisement>)
    ensures 0 <= index < |ads| ==> r == ads[..index] + ads[index + 1..]
    ensures !(0 <= index < |ads|) ==> r == ads
  {
    KeepOthers(ads, index, 0)
  }

  /** What one field edit of entry `index` makes of the list: the same length, only that field
      of that entry changed. */
  function WithAdField(ads: seq<Advertisement>, index: nat, field: AdField, value: string): (r: seq<Advertisement>)
    requires index < |ads|
    ensures |r| == |ads|
    ensures AdFieldValue(r[index], field) == value
    ensures forall other :: other != field ==> AdFieldValue(r[index], other) == AdFieldValue(ads[index], other)
    ensures forall j :: 0 <= j < |ads| && j != index ==> r[j] == ads[j]
  {
    ads[index := SetAdField(ads[index], field, value)]
  }

  /** Writing back the old value of a field undoes an edit. */
  lemma EditUndone(ads: seq<Advertisement>, index: nat, field: AdField, value: string)
    requires index < |ads|
    ensures WithAdField(WithAdField(ads, index, field, value), index, field, AdFieldValue(ads[index], field)) == ads
  {
    var r := WithAdField(WithAdField(ads, index, field, value), index, field, AdFieldValue(ads[index], field));
    assert r[index] == ads[index] by {
      match field
      case ImageUrl =>
      case AdText =>
      case LinkUrl =>
    }
  }

  /** Deleting the entry just added restores the list. */
  lemma DeleteAfterAdd(ads: seq<Advertisement>)
    ensures DeleteAt(AppendBlankAd(ads), |ads|) == ads
  {
    assert AppendBlankAd(ads)[..|ads|] == ads;
  }

  /** Deleting keeps every entry but one, in order: the entry at position j of the result is
      the one at j, or at j + 1 past the deleted position. */
  lemma DeleteShifts(ads: seq<Advertisement>, index: nat, j: nat)
    requires index < |ads| && j < |ads| - 1
    ensures |DeleteAt(ads, index)| == |ads| - 1
    ensures DeleteAt(ads, index)[j] == if j < index then ads[j] else ads[j + 1]
  {
  }

  /** The five local fields of the editor. */
  datatype EditorState = EditorState(
    message: string,
    link: string,
    ads: seq<Advertisement>,
    newUsername: string,
    newPassword: string)

  /** `settings.advertisements || []`. */
  function AdsOrEmpty(s: Settings): (r: seq<Advertisement>)
    ensures s.advertisements.Some? ==> r == s.advertisements.value
    ensures s.advertisements.None? ==> r == []
  {
    if s.advertisements.Some? then s.advertisements.value else []
  }

  /** The reset effect: the fields mirror the settings and the password field is empty. */
  function EditorFor(s: Settings): (r: EditorState)
    ensures r.message == s.subscriptionMessage && r.link == s.subscriptionChannelLink
    ensures r.ads == AdsOrEmpty(s) && r.newUsername == s.adminUsername && r.newPassword == ""
  {
    EditorState(s.subscriptionMessage, s.subscriptionChannelLink, AdsOrEmpty(s), s.adminUsername, "")
  }

  /** `handleSubmit`: the record handed to `onSave` -- the fields as they stand, with the
      password chosen by PasswordToSave. */
  function SavePayload(st: EditorState, s: Settings): (r: Settings)
    ensures r.subscriptionMessage == st.message && r.subscriptionChannelLink == st.link
    ensures r.advertisements == Some(st.ads) && r.adminUsername == st.newUsername
    ensures AllSpace(st.newPassword) ==> r.adminPassword == s.adminPassword
    ensures !AllSpace(st.newPassword) ==> r.adminPassword == st.newPassword
  {
    Settings(st.message, st.link, Some(st.ads), st.newUsername, PasswordToSave(st.newPassword, s.adminPassword))
  }

  /** Saving right after a reset gives the settings back, a missing list becoming empty. */
  lemma SaveWithoutEdits(s: Settings)
    ensures SavePayload(EditorFor(s), s) == s.(advertisements := Some(AdsOrEmpty(s)))
  {
    assert AllSpace("");
  }

  /** When the saved record comes back as the new settings, the editor shows what was saved,
      with the password field emptied. */
  lemma ResetAfterSave(st: EditorState, s: Settings)
    ensures EditorFor(SavePayload(st, s)) == st.(newPassword := "")
  {
  }

  /** An editor opened on the defaults shows their one advertisement, and saving it unedited
      gives the defaults back. */
  lemma DefaultsRoundTrip()
    ensures |EditorFor(Defaults()).ads| == 1
    ensures SavePayload(EditorFor(Defaults()), Defaults()) == Defaults()
  {
    SaveWithoutEdits(Defaults());
  }

  /** The editor component: the settings it was given and its five `useState` fields. */
  class AdminSettingsEditor {
    var settings: Settings
    var message: string
    var link: string
    var ads: seq<Advertisement>
    var newUsername: string
    var newPassword: string

    function State(): EditorState
      reads this
    {
      EditorState(message, link, ads, newUsername, newPassword)
    }

    /** Mounting, followed by the first run of the reset effect. */
    constructor(s: Settings)
      ensures settings == s && State() == EditorFor(s)
    {
      settings := s;
      message := s.subscriptionMessage;
      link := s.subscriptionChannelLink;
      ads := AdsOrEmpty(s);
      newUsername := s.adminUsername;
      newPassword := "";
    }

    /** New settings arrive: the reset effect. */
    method SettingsChanged(s: Settings)
      modifies this
      ensures settings == s && State() == EditorFor(s)
    {
      settings := s;
      message := s.subscriptionMessage;
      link := s.subscriptionChannelLink;
      ads := AdsOrEmpty(s);
      newUsername := s.adminUsername;
      newPassword := "";
    }

    method SetMessage(value: string)
      modifies this
      ensures settings == old(settings) && State() == old(State()).(message := value)
    {
      message := value;
    }

    method SetLink(value: string)
      modifies this
      ensures settings == old(settings) && State() == old(State()).(link := value)
    {
      link := value;
    }

    method SetNewUsername(value: string)
      modifies this
      ensures settings == old(settings) && State() == old(State()).(newUsername := value)
    {
      newUsername := value;
    }

    method SetNewPassword(value: string)
      modifies this
      ensures settings == old(settings) && State() == old(State()).(newPassword := value)
    {
      newPassword := value;
    }

    /** The save button: the record handed to `onSave`. */
    method HandleSubmit() returns (saved: Settings)
      ensures saved == SavePayload(State(), settings)
    {
      var passwordToSave := PasswordToSave(newPassword, settings.adminPassword);
      saved := Settings(message, link, Some(ads), newUsername, passwordToSave);
    }

    /** Copy the list into a fresh array, replace entry `index` by its edited copy, and make the
        array the new list. */
    method ReplaceAdField(index: nat, field: AdField, value: string)
      requires index < |ads|
      modifies this
      ensures ads == WithAdField(old(ads), index, field, value)
      ensures settings == old(settings) && State() == old(State()).(ads := ads)
    {
      var snapshot := ads;
      var newAds := new Advertisement[|snapshot|](k requires 0 <= k < |snapshot| => snapshot[k]);
      newAds[index] := SetAdField(newAds[index], field, value);
      ads := newAds[..];
    }

    /** `handleAdTextChange`: the text or the link of one entry. */
    method HandleAdTextChange(index: nat, field: AdField, value: string)
      requires field != ImageUrl && index < |ads|
      modifies this
      ensures ads == WithAdField(old(ads), index, field, value)
      ensures settings == old(settings) && State() == old(State()).(ads := ads)
    {
      ReplaceAdField(index, field, value);
    }

    /** The update once the chosen image has been read: the entry's image becomes its data URL. */
    method HandleAdImageLoaded(index: nat, dataUrl: string)
      requires index < |ads|
      modifies this
      ensures ads == WithAdField(old(ads), index, ImageUrl, dataUrl)
      ensures settings == old(settings) && State() == old(State()).(ads := ads)
    {
      ReplaceAdField(index, ImageUrl, dataUrl);
    }

    method HandleAddAd()
      modifies this
      ensures ads == AppendBlankAd(old(ads))
      ensures settings == old(settings) && State() == old(State()).(ads := ads)
    {
      ads := ads + [BlankAd];
    }

    method HandleDeleteAd(index: int)
      modifies this
      ensures ads == DeleteAt(old(ads), index)
      ensures settings == old(settings) && State() == old(State()).(ads := ads)
    {
      ads := DeleteAt(ads, index);
    }
  }
}
