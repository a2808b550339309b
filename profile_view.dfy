/** The profile page: the handle and description form, its rules, the
    submit that writes the form into the cached user, and the avatar upload
    that writes the returned image reference into the cached user and the
    preview. */
module ProfileView {
  import opened Types
  import opened FormRules

  datatype ProfileForm = ProfileForm(handle: string, description: string)

  const HandleRequired := "El Nombre de Usuario es obligatorio"
  const DescriptionRequired := "La Descripci\U{00F3}n es obligatoria"
  const DescriptionTooLong := "La descripci\U{00F3}n no puede exceder los 200 caracteres"
  const DescriptionMaxLength := 200

  /** The message shown under the description field, if any: `required` is
      checked before `maxLength`. */
  function DescriptionError(description: string): (message: Option<string>)
    ensures message.None? <==> 0 < |description| <= 200
    ensures message == Some(DescriptionRequired) <==> description == ""
    ensures message == Some(DescriptionTooLong) <==> |description| > 200
  {
    if !Present(description) then Some(DescriptionRequired)
    else if |description| > DescriptionMaxLength then Some(DescriptionTooLong)
    else None
  }

  /** `handleSubmit` calls the submit handler only when no field has an
      error: the handle is a non-empty run of `[a-zA-Z0-9_]` and the
      description has 1 to 200 characters. */
  function FormValid(form: ProfileForm): (ok: bool)
    ensures ok <==> MatchesHandle(form.handle) && 0 < |form.description| <= 200
  {
    HandleError(form.handle, HandleRequired).None? && DescriptionError(form.description).None?
  }

  class ProfileEditor {
    /** The cache entry `['user']`. */
    const cache: UserCache
    /** The values the form fields hold. */
    var form: ProfileForm
    /** `imagePreview`: what the avatar shows. */
    var imagePreview: string
    /** `updateProfileMutation.isPending`. */
    var updatePending: bool
    /** `uploadImageMutation.isPending`. */
    var uploadPending: bool

    /** First render: the fields hold the cached handle and description and
        the preview shows the cached image (`data.image || ''`, which is the
        image itself for a string field). */
    constructor (cache: UserCache)
      ensures this.cache == cache
      ensures form == ProfileForm(cache.user.handle, cache.user.description)
      ensures imagePreview == cache.user.image
      ensures !updatePending && !uploadPending
    {
      this.cache := cache;
      form := ProfileForm(cache.user.handle, cache.user.description);
      imagePreview := cache.user.image;
      updatePending, uploadPending := false, false;
    }

    /** The submit button is disabled while either request is pending. */
    predicate SubmitDisabled()
      reads this
    {
      updatePending || uploadPending
    }

    /** The user types into the fields. */
    method Edit(values: ProfileForm)
      modifies this
      ensures form == values
      ensures imagePreview == old(imagePreview)
      ensures updatePending == old(updatePending) && uploadPending == old(uploadPending)
    {
      form := values;
    }

    /** A submit of the form. Nothing happens while the button is disabled
        or while a field has an error. Otherwise `handleUserProfileForm`
        writes the handle and description into the cached user, leaving its
        image, views and links alone, and sends that record. */
    method Submit() returns (request: Option<User>)
      modifies this, cache
      ensures old(SubmitDisabled()) || !FormValid(form) ==>
                request == None && cache.user == old(cache.user) && updatePending == old(updatePending)
      ensures !old(SubmitDisabled()) && FormValid(form) ==>
                cache.user == old(cache.user).(handle := form.handle, description := form.description)
                && request == Some(cache.user) && updatePending
      ensures form == old(form) && imagePreview == old(imagePreview) && uploadPending == old(uploadPending)
    {
      if SubmitDisabled() || !FormValid(form) {
        request := None;
      } else {
        var user := cache.user;
        user := user.(description := form.description);
        user := user.(handle := form.handle);
        cache.user := user;
        updatePending := true;
        request := Some(user);
      }
    }

    /** The profile request has settled, either way. (On success the
        source also marks the cached user stale so it is fetched again.) */
    method UpdateSettled()
      modifies this
      ensures !updatePending
      ensures form == old(form) && imagePreview == old(imagePreview) && uploadPending == old(uploadPending)
    {
      updatePending := false;
    }

    /** `handleChange` on the file input: with a file chosen, the upload
        starts; with none, nothing happens. */
    method ChooseImage(fileChosen: bool)
      modifies this
      ensures uploadPending == (old(uploadPending) || fileChosen)
      ensures form == old(form) && imagePreview == old(imagePreview) && updatePending == old(updatePending)
    {
      if fileChosen {
        uploadPending := true;
      }
    }

    /** The upload request has settled. On success (`data` is the returned
        reference, None when it is missing) the cached user's image and the
        preview both become `data || ''` and no other field changes; on
        failure only the pending flag drops. */
    method UploadSettled(succeeded: bool, data: Option<string>)
      modifies this, cache
      ensures !uploadPending
      ensures succeeded ==> cache.user == old(cache.user).(image := OrEmpty(data))
                            && imagePreview == OrEmpty(data)
      ensures !succeeded ==> cache.user == old(cache.user) && imagePreview == old(imagePreview)
      ensures form == old(form) && updatePending == old(updatePending)
    {
      uploadPending := false;
      if succeeded {
        var safeData := OrEmpty(data);
        cache.user := cache.user.(image := safeData);
        imagePreview := safeData;
      }
    }
  }
}
