/** The invite form of `InviteUserModal` (`src/components/InviteUserModal/index.tsx`): the
    user types an email; submitting either shows an error or passes the trimmed email to the
    parent's `onInvite`; closing clears the form and calls the parent's `onClose`. */
module InviteUserModal {
  import opened Wrappers
  import opened JsString
  import Validation

  const InvalidEmailError: string := "Digite um email v\U{E1}lido"

  /** The rule both invite forms apply, `!email.trim() || !email.includes('@')` rejecting: the
      email to invite, `email.trim()`, or `None` when it is rejected. Since trimming never
      removes an `@`, an email is accepted exactly when its trimmed form is non-empty and
      contains `@`. */
  function AcceptedEmail(email: string): (r: Option<string>)
    ensures r.Some? <==> Trim(email) != "" && '@' in Trim(email)
    ensures r.Some? ==> r.value == Trim(email)
  {
    TrimKeepsNonWhitespace(email, '@');
    if Trim(email) == "" || '@' !in email then None else Some(Trim(email))
  }

  /** Every email that passes the validator is accepted as typed. */
  lemma ValidEmailAccepted(email: string)
    requires Validation.IsValidEmail(email)
    ensures AcceptedEmail(email) == Some(email)
  {
    var i, j :| Validation.EmailMatchAt(email, i, j);
    Validation.PlainOutsideAt(email, i, j);
    TrimOfUntrimmed(email);
    assert email[i] == '@';
  }

  /** The form trims before it invites: ` a@b ` is accepted and invites `a@b`. */
  lemma PaddedEmailAccepted()
    ensures AcceptedEmail(" a@b ") == Some("a@b")
  {
    assert Trim(" a@b ") == "a@b" by {
      assert LeadingWhitespace(" a@b ") == 1;
      assert " a@b "[..4] == " a@b";
      assert TrailingStart(" a@b ") == 4;
      assert " a@b "[1..4] == "a@b";
    }
  }

  /** The form's rule is looser than the validator: the `a@b` it invites above is rejected by
      `isValidEmail` for want of a `.` in the domain. */
  lemma AcceptedButNotValid()
    ensures AcceptedEmail("a@b") == Some("a@b")
    ensures !Validation.IsValidEmail("a@b")
  {
    assert "a@b"[1..2] == "@";
    assert IndexOf("a@b", "@") == Some(1) by {
      assert "a@b"[0..1] == "a";
    }
    assert Trim("a@b") == "a@b" by {
      TrimOfUntrimmed("a@b");
    }
  }

  /** The calls the form makes to its parent. */
  datatype ParentCall = Invite(email: string) | Close

  /** The modal's state, with the calls made to the parent so far. */
  class InviteModal {
    var email: string
    var error: string
    var calls: seq<ParentCall>

    constructor()
      ensures email == "" && error == "" && calls == []
    {
      email := "";
      error := "";
      calls := [];
    }

    /** Typing sets the email only; an error stays until the next submit or close. */
    method SetEmail(value: string)
      modifies this
      ensures email == value && error == old(error) && calls == old(calls)
    {
      email := value;
    }

    /** `handleInvite`: a rejected email sets the error and calls nothing; an accepted one
      clears the error and invites the trimmed email once. The email is kept either way. */
    method HandleInvite()
      modifies this
      ensures email == old(email)
      ensures AcceptedEmail(old(email)).None? ==> error == InvalidEmailError && calls == old(calls)
      ensures AcceptedEmail(old(email)).Some? ==>
        error == "" && calls == old(calls) + [Invite(AcceptedEmail(old(email)).value)]
    {
      if Trim(email) == "" || '@' !in email {
        error := InvalidEmailError;
        return;
      }
      error := "";
      calls := calls + [Invite(Trim(email))];
    }

    /** `handleClose`: the form is cleared, then the parent's `onClose` is called. */
    method HandleClose()
      modifies this
      ensures email == "" && error == "" && calls == old(calls) + [Close]
    {
      email := "";
      error := "";
      calls := calls + [Close];
    }
  }
}
