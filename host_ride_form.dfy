/** The driver's own ride form (frontend/src/components/HostRideForm.tsx). The
    component's state hooks are the fields of a class; handleSubmit is a method
    that takes the signed-in user's id and the outcome of the create-ride call as
    parameters and returns the request it sent, if any. */
module HostRideForm {
  import opened Common
  import opened RideForms

  const ACTIVE_RIDE_ERROR := "You are already in an active ride. Please complete your current ride before hosting another."
  const POSTED := "Ride posted successfully!"
  const POST_FAILED := "Failed to post ride. Please try again."

  class Form {
    var fields: RideFormFields
    var commentLength: int
    var isLoading: bool
    var error: string
    var success: string
    var isInActiveRide: bool

    /** Between handlers: the counter shows the comment's length, the comment fits
        the box, the price is one of the select's options and nothing is loading. */
    predicate Valid()
      reads this
    {
      commentLength == |fields.comment| <= COMMENT_MAX && PriceOptionOk(fields.priceOption) && !isLoading
    }

    constructor ()
      ensures Valid()
      ensures fields == DEFAULT_FIELDS && commentLength == 0
      ensures error == "" && success == "" && !isInActiveRide
    {
      fields := DEFAULT_FIELDS;
      commentLength := 0;
      isLoading := false;
      error := "";
      success := "";
      isInActiveRide := false;
    }

    /** The mount effect: the answer of isUserInActiveRide, or None when the call
        failed, which leaves the flag as it was. */
    method ActiveRideChecked(inRide: Option<bool>)
      modifies this
      ensures isInActiveRide == if inRide.Some? then inRide.value else old(isInActiveRide)
      ensures fields == old(fields) && commentLength == old(commentLength) && isLoading == old(isLoading)
      ensures error == old(error) && success == old(success)
    {
      if inRide.Some? {
        isInActiveRide := inRide.value;
      }
    }

    /** handlePickupChange. */
    method SetPickupAddress(address: string)
      requires Valid()
      modifies this
      ensures Valid() && fields == old(fields).(pickupAddress := address)
      ensures commentLength == old(commentLength) && error == old(error) && success == old(success)
      ensures isInActiveRide == old(isInActiveRide)
    {
      fields := fields.(pickupAddress := address);
    }

    /** handleDestinationChange. */
    method SetDestinationAddress(address: string)
      requires Valid()
      modifies this
      ensures Valid() && fields == old(fields).(destinationAddress := address)
      ensures commentLength == old(commentLength) && error == old(error) && success == old(success)
      ensures isInActiveRide == old(isInActiveRide)
    {
      fields := fields.(destinationAddress := address);
    }

    /** The inline setters of the date, time, rider-count and price inputs. */
    method Edit(e: FieldEdit)
      requires Valid() && EditOk(e) && !e.PickupTyped? && !e.DestinationTyped?
      modifies this
      ensures Valid() && fields == Applied(old(fields), e)
      ensures commentLength == old(commentLength) && error == old(error) && success == old(success)
      ensures isInActiveRide == old(isInActiveRide)
    {
      fields := Applied(fields, e);
    }

    /** handleCommentChange: the text box holds at most COMMENT_MAX characters and
        the counter follows it. */
    method SetComment(typed: string)
      requires Valid()
      modifies this
      ensures Valid()
      ensures fields == old(fields).(comment := if |typed| <= COMMENT_MAX then typed else typed[..COMMENT_MAX])
      ensures error == old(error) && success == old(success) && isInActiveRide == old(isInActiveRide)
    {
      var text := if |typed| <= COMMENT_MAX then typed else typed[..COMMENT_MAX];
      fields := fields.(comment := text);
      commentLength := |text|;
    }

    /** The error dialog's close button. */
    method DismissError()
      requires Valid()
      modifies this
      ensures Valid() && error == ""
      ensures fields == old(fields) && commentLength == old(commentLength)
      ensures success == old(success) && isInActiveRide == old(isInActiveRide)
    {
      error := "";
    }

    /** handleSubmit. A form whose user is already in an active ride, or which
        fails a check, shows one error and sends nothing. Otherwise the request is
        sent; on success the form shows the success text and returns to its
        defaults, on failure it keeps its fields and shows the mapped error. */
    method Submit(userId: Option<int>, outcome: ApiOutcome) returns (sent: Option<CreateRideRequest>)
      requires Valid()
      modifies this
      ensures Valid() && isInActiveRide == old(isInActiveRide)
      ensures old(isInActiveRide) ==>
        sent == None && error == ACTIVE_RIDE_ERROR && success == ""
        && fields == old(fields) && commentLength == old(commentLength)
      ensures !old(isInActiveRide) && Validate(old(fields), userId, None).Rejected? ==>
        sent == None && error == Validate(old(fields), userId, None).error && success == ""
        && fields == old(fields) && commentLength == old(commentLength)
      ensures !old(isInActiveRide) && Validate(old(fields), userId, None).Accepted? ==>
        sent == Some(Validate(old(fields), userId, None).request)
      ensures sent.Some? && outcome.Succeeded? ==>
        error == "" && success == POSTED && fields == DEFAULT_FIELDS && commentLength == 0
      ensures sent.Some? && outcome.FailedWith? ==>
        error == SubmitError(outcome.serverError, POST_FAILED) && success == ""
        && fields == old(fields) && commentLength == old(commentLength)
    {
      error := "";
      success := "";
      if isInActiveRide {
        error := ACTIVE_RIDE_ERROR;
        return None;
      }
      var checked := Validate(fields, userId, None);
      assert checked == Validate(old(fields), userId, None);
      sent := Respond(checked, outcome);
    }

    /** What follows the checks: a rejection is shown and nothing is sent;
        otherwise the request is sent and Post handles the outcome. */
    method Respond(checked: Checked, outcome: ApiOutcome) returns (sent: Option<CreateRideRequest>)
      requires Valid() && error == "" && success == ""
      modifies this
      ensures Valid() && isInActiveRide == old(isInActiveRide)
      ensures checked.Rejected? ==>
        sent == None && error == checked.error && success == ""
        && fields == old(fields) && commentLength == old(commentLength)
      ensures checked.Accepted? ==> sent == Some(checked.request)
      ensures sent.Some? && outcome.Succeeded? ==>
        error == "" && success == POSTED && fields == DEFAULT_FIELDS && commentLength == 0
      ensures sent.Some? && outcome.FailedWith? ==>
        error == SubmitError(outcome.serverError, POST_FAILED) && success == ""
        && fields == old(fields) && commentLength == old(commentLength)
    {
      if checked.Rejected? {
        error := checked.error;
        return None;
      }
      sent := Some(checked.request);
      Post(outcome);
    }

    /** The create-ride call and what follows it: loading while it runs, then the
        success text and the reset, or the mapped error. */
    method Post(outcome: ApiOutcome)
      requires Valid() && error == "" && success == ""
      modifies this
      ensures Valid() && isInActiveRide == old(isInActiveRide)
      ensures outcome.Succeeded? ==> error == "" && success == POSTED && fields == DEFAULT_FIELDS && commentLength == 0
      ensures outcome.FailedWith? ==>
        error == SubmitError(outcome.serverError, POST_FAILED) && success == ""
        && fields == old(fields) && commentLength == old(commentLength)
    {
      isLoading := true;
      if outcome.Succeeded? {
        success := POSTED;
        ClearForm();
      } else {
        error := SubmitError(outcome.serverError, POST_FAILED);
      }
      isLoading := false;
    }

    /** The reset after a successful post. */
    method ClearForm()
      modifies this
      ensures fields == DEFAULT_FIELDS && commentLength == 0
      ensures isLoading == old(isLoading) && error == old(error) && success == old(success)
      ensures isInActiveRide == old(isInActiveRide)
    {
      fields := DEFAULT_FIELDS;
      commentLength := 0;
    }
  }
}
