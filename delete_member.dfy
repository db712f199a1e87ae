/** The dialog that removes a member: a mandatory reason, a choice between a soft delete
    (the member is marked removed and can be restored) and a hard delete, and a confirm
    button that calls the service. */
module DeleteMember {
  import opened Common
  import opened Roster

  const MissingReasonError: string := "Please provide a reason for deleting this member"
  const DeleteFailedError: string := "Failed to delete member"

  /** The confirm button is enabled: there is a reason and no delete is in flight. */
  predicate DeleteEnabled(reason: string, deleting: bool) {
    reason != "" && !deleting
  }

  /** The check `handleDelete` makes before it calls the service. */
  function DeleteCheck(reason: string): (e: Option<string>)
    ensures e.None? <==> reason != ""
    ensures e.Some? ==> e.value == MissingReasonError
  {
    if reason == "" then Some(MissingReasonError) else None
  }

  /** The confirm button already guards what the handler checks: a press of the enabled
      button always passes the check, so its message is never shown through the button. */
  lemma EnabledPassesCheck(reason: string, deleting: bool)
    requires DeleteEnabled(reason, deleting)
    ensures DeleteCheck(reason).None?
  {
  }

  /** What a confirmed delete sends. */
  datatype DeleteRequest = DeleteRequest(sessionId: string, memberId: string, reason: string, hardDelete: bool)

  class DeleteConfirmDialog {
    const sessionId: string
    var reason: string
    var hardDelete: bool
    var deleting: bool
    var error: Option<string>

    /** A fresh or closed dialog: no reason, a soft delete, no message. */
    predicate Pristine()
      reads this
    {
      reason == "" && !hardDelete && error == None
    }

    constructor (sessionId: string)
      ensures this.sessionId == sessionId
      ensures Pristine() && !deleting
    {
      this.sessionId := sessionId;
      reason := "";
      hardDelete := false;
      deleting := false;
      error := None;
    }

    method SetReason(r: string)
      modifies this`reason
      ensures reason == r
    {
      reason := r;
    }

    method SetHardDelete(b: bool)
      modifies this`hardDelete
      ensures hardDelete == b
    {
      hardDelete := b;
    }

    /** `handleDelete`: without a reason the message is shown and nothing is sent;
        otherwise the delete is sent with the reason and the kind chosen, a success clears
        the dialog and a failure shows the service's message over the kept choices. */
    method HandleDelete(member: Member, outcome: Result<()>) returns (request: Option<DeleteRequest>)
      requires !deleting
      modifies this`reason, this`hardDelete, this`deleting, this`error
      ensures !deleting
      ensures request.Some? <==> DeleteCheck(old(reason)).None?
      ensures request.None? ==> error == DeleteCheck(old(reason)) && reason == old(reason) && hardDelete == old(hardDelete)
      ensures request.Some? ==> request.value == DeleteRequest(sessionId, member.memberId, old(reason), old(hardDelete))
      ensures request.Some? && outcome.Ok? ==> Pristine()
      ensures request.Some? && outcome.Err? ==>
        && error == Some(ErrorText(outcome.error, DeleteFailedError))
        && reason == old(reason) && hardDelete == old(hardDelete)
    {
      if reason == "" {
        error := Some(MissingReasonError);
        return None;
      }
      deleting := true;
      error := None;
      request := Some(DeleteRequest(sessionId, member.memberId, reason, hardDelete));
      match outcome {
        case Ok(_) =>
          reason := "";
          hardDelete := false;
        case Err(e) =>
          error := Some(ErrorText(e, DeleteFailedError));
      }
      deleting := false;
    }

    /** `handleClose`: the reason, the kind and the message are cleared. */
    method HandleClose()
      modifies this`reason, this`hardDelete, this`error
      ensures Pristine()
    {
      reason := "";
      hardDelete := false;
      error := None;
    }
  }
}
