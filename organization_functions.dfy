/** The club ride form of an organization page
    (frontend/src/components/OrganizationFunctions.tsx): the driver form's fields
    and checks without the active-ride guard, a request carrying the
    organization's id, and the parent's onRideCreated callback after a successful
    post. The callback is counted in `ridesCreatedNotices`. */
module OrganizationFunctions {
  import opened Common
  import opened RideForms

  const CLUB_POSTED := "Club ride posted successfully!"
  const CLUB_POST_FAILED := "Failed to post club ride. Please try again."

  class ClubRideForm {
    const organizationId: int
    /** Whether the parent passed an onRideCreated callback. */
    const hasOnRideCreated: bool
    var fields: RideFormFields
    var commentLength: int
    var isLoading: bool
    var error: string
    var success: string
    var ridesCreatedNotices: nat

    predicate Valid()
      reads this
    {
      commentLength == |fields.comment| <= COMMENT_MAX && PriceOptionOk(fields.priceOption) && !isLoading
    }

    constructor (organizationId: int, hasOnRideCreated: bool)
      ensures Valid()
      ensures this.organizationId == organizationId && this.hasOnRideCreated == hasOnRideCreated
      ensures fields == DEFAULT_FIELDS && commentLength == 0
      ensures error == "" && success == "" && ridesCreatedNotices == 0
    {
      this.organizationId := organizationId;
      this.hasOnRideCreated := hasOnRideCreated;
      fields := DEFAULT_FIELDS;
      commentLength := 0;
      isLoading := false;
      error := "";
      success := "";
      ridesCreatedNotices := 0;
    }

    /** The inline setters of the address boxes, the date, time and rider-count
        inputs and the price select. */
    method Edit(e: FieldEdit)
      requires Valid() && EditOk(e)
      modifies this
      ensures Valid() && fields == Applied(old(fields), e)
      ensures commentLength == old(commentLength) && error == old(error) && success == old(success)
      ensures ridesCreatedNotices == old(ridesCreatedNotices)
    {
      fields := Applied(fields, e);
    }

    /** handleCommentChange. */
    method SetComment(typed: string)
      requires Valid()
      modifies this
      ensures Valid()
      ensures fields == old(fields).(comment := if |typed| <= COMMENT_MAX then typed else typed[..COMMENT_MAX])
      ensures error == old(error) && success == old(success) && ridesCreatedNotices == old(ridesCreatedNotices)
    {
      var text := if |typed| <= COMMENT_MAX then typed else typed[..COMMENT_MAX];
      fields := fields.(comment := text);
      commentLength := |text|;
    }

    /** The error dialog's close button. */
    method DismissError()
      requires Valid()
      modifies this
      ensures Valid() && error == ""
      ensures fields == old(fields) && commentLength == old(commentLength)
      ensures success == old(success) && ridesCreatedNotices == old(ridesCreatedNotices)
    {
      error := "";
    }

    /** handleSubmit: the driver form's checks and errors without its active-ride
        guard (RideForms.ClubChainIsHostChain), a request carrying the
        organization's id, and the parent hears of each successful post once. */
    method Submit(userId: Option<int>, outcome: ApiOutcome) returns (sent: Option<CreateRideRequest>)
      requires Valid()
      modifies this
      ensures Valid()
      ensures var checked := Validate(old(fields), userId, Some(organizationId));
        if checked.Rejected? then
          sent == None && error == checked.error && success == ""
          && fields == old(fields) && commentLength == old(commentLength)
          && ridesCreatedNotices == old(ridesCreatedNotices)
        else sent == Some(checked.request)
      ensures sent.Some? && outcome.Succeeded? ==>
        error == "" && success == CLUB_POSTED && fields == DEFAULT_FIELDS && commentLength == 0
        && ridesCreatedNotices == old(ridesCreatedNotices) + (if hasOnRideCreated then 1 else 0)
      ensures sent.Some? && outcome.FailedWith? ==>
        error == SubmitError(outcome.serverError, CLUB_POST_FAILED) && success == ""
        && fields == old(fields) && commentLength == old(commentLength)
        && ridesCreatedNotices == old(ridesCreatedNotices)
    {
      error := "";
      success := "";
      var checked := Validate(fields, userId, Some(organizationId));
      assert checked == Validate(old(fields), userId, Some(organizationId));
      sent := Respond(checked, outcome);
    }

    /** What follows the checks: a rejection is shown and nothing is sent;
        otherwise the request is sent and Post handles the outcome. */
    method Respond(checked: Checked, outcome: ApiOutcome) returns (sent: Option<CreateRideRequest>)
      requires Valid() && error == "" && success == ""
      modifies this
      ensures Valid()
      ensures checked.Rejected? ==>
        sent == None && error == checked.error && success == ""
        && fields == old(fields) && commentLength == old(commentLength)
        && ridesCreatedNotices == old(ridesCreatedNotices)
      ensures checked.Accepted? ==> sent == Some(checked.request)
      ensures sent.Some? && outcome.Succeeded? ==>
        error == "" && success == CLUB_POSTED && fields == DEFAULT_FIELDS && commentLength == 0
        && ridesCreatedNotices == old(ridesCreatedNotices) + (if hasOnRideCreated then 1 else 0)
      ensures sent.Some? && outcome.FailedWith? ==>
        error == SubmitError(outcome.serverError, CLUB_POST_FAILED) && success == ""
        && fields == old(fields) && commentLength == old(commentLength)
        && ridesCreatedNotices == old(ridesCreatedNotices)
    {
      if checked.Rejected? {
        error := checked.error;
        return None;
      }
      sent := Some(checked.request);
      Post(outcome);
    }

    /** The create-ride call and what follows it: on success the text, the
        callback, then the reset; on failure the mapped error. */
    method Post(outcome: ApiOutcome)
      requires Valid() && error == "" && success == ""
      modifies this
      ensures Valid()
      ensures outcome.Succeeded? ==>
        error == "" && success == CLUB_POSTED && fields == DEFAULT_FIELDS && commentLength == 0
        && ridesCreatedNotices == old(ridesCreatedNotices) + (if hasOnRideCreated then 1 else 0)
      ensures outcome.FailedWith? ==>
        error == SubmitError(outcome.serverError, CLUB_POST_FAILED) && success == ""
        && fields == old(fields) && commentLength == old(commentLength)
        && ridesCreatedNotices == old(ridesCreatedNotices)
    {
      isLoading := true;
      if outcome.Succeeded? {
        success := CLUB_POSTED;
        if hasOnRideCreated {
          ridesCreatedNotices := ridesCreatedNotices + 1;
        }
        fields := DEFAULT_FIELDS;
        commentLength := 0;
      } else {
        error := SubmitError(outcome.serverError, CLUB_POST_FAILED);
      }
      isLoading := false;
    }
  }
}
