/** The invite form of `InviteUserActionSheet`
    (`src/components/InviteUserActionSheet/index.tsx`): the same rule as the modal's, checked
    in two steps; the parent's `onInvite` is awaited, and only when it succeeds is the form
    cleared and closed. Typing clears the error. */
module InviteUserActionSheet {
  import opened Wrappers
  import opened JsString
  import opened InviteUserModal

  /** The action sheet's state, with the calls made to the parent so far. */
  class InviteSheet {
    var email: string
    var error: string
    var calls: seq<ParentCall>

    constructor()
      ensures email == "" && error == "" && calls == []
    {
      email := "";
      error := "";
      calls := [];
    }

    /** `onChangeText`: the email is set and the error cleared. */
    method OnChangeText(text: string)
      modifies this
      ensures email == text && error == "" && calls == old(calls)
    {
      email := text;
      error := "";
    }

    /** `handleClose`: the form is cleared, then the parent's `onClose` is called. */
    method HandleClose()
      modifies this
      ensures email == "" && error == "" && calls == old(calls) + [Close]
    {
      email := "";
      error := "";
      calls := calls + [Close];
    }

    /** `handleInvite`, with `inviteSucceeds` the outcome of the parent's `onInvite`. A
      rejected email sets the error and calls nothing. An accepted one invites the trimmed
      email; on success the form is then cleared and closed, on failure nothing else
      changes. */
    method HandleInvite(inviteSucceeds: bool)
      modifies this
      ensures AcceptedEmail(old(email)).None? ==>
        email == old(email) && error == InvalidEmailError && calls == old(calls)
      ensures AcceptedEmail(old(email)).Some? && inviteSucceeds ==>
        email == "" && error == "" && calls == old(calls) + [Invite(AcceptedEmail(old(email)).value), Close]
      ensures AcceptedEmail(old(email)).Some? && !inviteSucceeds ==>
        email == old(email) && error == old(error) && calls == old(calls) + [Invite(AcceptedEmail(old(email)).value)]
    {
      if Trim(email) == "" {
        error := InvalidEmailError;
        return;
      }
      if '@' !in email {
        error := InvalidEmailError;
        return;
      }
      calls := calls + [Invite(Trim(email))];
      if inviteSucceeds {
        HandleClose();
      }
    }
  }
}
