/**
 * The profile view: one `isEditing` flag that unlocks the ten form fields,
 * shows the Save button and relabels the header button.
 */
module DashboardProfile {
  import opened Toasts

  /** The fields of the personal-information card and of the social-profiles card, by element id. */
  const PersonalInputs: seq<string> := ["first-name", "last-name", "email", "phone", "company", "bio"]
  const SocialInputs: seq<string> := ["twitter", "linkedin", "github", "website"]
  const AllInputs: seq<string> := PersonalInputs + SocialInputs

  const SavedMessage := "Profile updated successfully!"

  /** Every field carries `disabled={!isEditing}`. */
  predicate InputDisabled(isEditing: bool, input: string)
    requires input in AllInputs
  {
    !isEditing
  }

  /** The Save Changes button is rendered under `isEditing &&`. */
  predicate SaveButtonShown(isEditing: bool) {
    isEditing
  }

  /** The header button's text. */
  function HeaderLabel(isEditing: bool): (r: string)
    ensures r == "Cancel" || r == "Edit Profile"
  {
    if isEditing then "Cancel" else "Edit Profile"
  }

  /**
   * The three renderings agree: every field is enabled exactly when the Save
   * button shows, and the header offers "Cancel" exactly then.
   */
  lemma ModeIsConsistent(isEditing: bool)
    ensures |AllInputs| == 10
    ensures forall f :: f in AllInputs ==> (!InputDisabled(isEditing, f) <==> SaveButtonShown(isEditing))
    ensures HeaderLabel(isEditing) == "Cancel" <==> SaveButtonShown(isEditing)
    ensures HeaderLabel(isEditing) == "Edit Profile" <==> !SaveButtonShown(isEditing)
  {
  }

  /** The view's state: the editing flag and the notifications shown so far. */
  class ProfilePage {
    var isEditing: bool
    var log: seq<Toast>

    /** The view opens read-only. */
    constructor ()
      ensures !isEditing && log == []
      ensures !SaveButtonShown(isEditing) && HeaderLabel(isEditing) == "Edit Profile"
    {
      isEditing := false;
      log := [];
    }

    /** The header button ("Edit Profile" / "Cancel"): flips the mode, and typed text is not discarded. */
    method ToggleEditing()
      modifies this`isEditing
      ensures isEditing == !old(isEditing)
      ensures log == old(log)
    {
      isEditing := !isEditing;
    }

    /** `handleSaveProfile`: a success notification, then back to read-only. */
    method SaveProfile()
      modifies this
      ensures !isEditing
      ensures log == old(log) + [Toast(Success, SavedMessage)]
    {
      log := log + [Toast(Success, SavedMessage)];
      isEditing := false;
    }
  }

  /** Two clicks on the header button restore the mode the view was in. */
  method ToggleTwice(page: ProfilePage)
    modifies page
    ensures page.isEditing == old(page.isEditing) && page.log == old(page.log)
  {
    page.ToggleEditing();
    page.ToggleEditing();
  }

  /** Edit, then save: the view is read-only again with one notification more. */
  method EditThenSave(page: ProfilePage)
    modifies page
    ensures !page.isEditing && !SaveButtonShown(page.isEditing)
    ensures page.log == old(page.log) + [Toast(Success, SavedMessage)]
  {
    if !page.isEditing {
      page.ToggleEditing();
    }
    page.SaveProfile();
  }
}
