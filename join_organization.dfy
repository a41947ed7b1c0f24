/** The join-by-code form (frontend/src/components/JoinOrganization.tsx): the
    access-code box upper-cases what is typed and holds at most six characters;
    submitting checks the trimmed code, sends it, and on success clears the box
    and tells the parent, which is counted in `joinedNotices`. The outcome of the
    join call is a parameter. */
module JoinOrganization {
  import opened Common

  const CODE_LENGTH := 6

  const ENTER_CODE := "Please enter an access code"
  const CODE_LENGTH_WRONG := "Access code must be 6 characters"
  const INVALID_CODE := "Invalid access code. Please check and try again."
  const ALREADY_MEMBER := "You are already a member of this organization."
  const LOG_IN_TO_JOIN := "Please log in to join an organization"
  const JOIN_FAILED := "Failed to join organization. Please try again."

  /** What the box holds after typing `input`: the input's maxLength keeps the
      first six characters, and onChange upper-cases them. */
  function TypedAccessCode(input: string): (code: string)
    ensures |code| == if |input| <= CODE_LENGTH then |input| else CODE_LENGTH
    ensures forall i :: 0 <= i < |code| ==> code[i] == UpperChar(input[i])
  {
    Upper(if |input| <= CODE_LENGTH then input else input[..CODE_LENGTH])
  }

  /** Typing back what the box shows changes nothing. */
  lemma {:induction false} TypedAccessCodeStable(input: string)
    ensures TypedAccessCode(TypedAccessCode(input)) == TypedAccessCode(input)
  {
    var code := TypedAccessCode(input);
    forall i | 0 <= i < |code| ensures UpperChar(code[i]) == code[i] {
      assert code[i] == UpperChar(input[i]);
    }
  }

  /** The code the box holds has no lower-case letter. */
  lemma TypedAccessCodeUpper(input: string)
    ensures forall i :: 0 <= i < |TypedAccessCode(input)| ==> !('a' <= TypedAccessCode(input)[i] <= 'z')
  {
    var code := TypedAccessCode(input);
    forall i | 0 <= i < |code| ensures !('a' <= code[i] <= 'z') {
      assert code[i] == UpperChar(input[i]);
    }
  }

  /** What the join call came back with. */
  datatype JoinOutcome =
    | Joined(organizationName: string)
    | JoinFailed(serverError: Option<string>, status: Option<int>)

  /** The message shown for a failed join: a server message is reworded when it
      says the code was not found or the user is already a member, and shown as it
      is otherwise; without one, a 401 asks the user to log in. */
  function JoinError(serverError: Option<string>, status: Option<int>): (msg: string)
    ensures msg != ""
    ensures Present(serverError) && Contains(serverError.value, "not found") ==> msg == INVALID_CODE
    ensures (Present(serverError) && !Contains(serverError.value, "not found")
      && Contains(serverError.value, "already a member")) ==> msg == ALREADY_MEMBER
    ensures (Present(serverError) && !Contains(serverError.value, "not found")
      && !Contains(serverError.value, "already a member")) ==> msg == serverError.value
    ensures !Present(serverError) ==> msg == if status == Some(401) then LOG_IN_TO_JOIN else JOIN_FAILED
  {
    if Present(serverError) then
      var e := serverError.value;
      if Contains(e, "not found") then INVALID_CODE
      else if Contains(e, "already a member") then ALREADY_MEMBER
      else e
    else if status == Some(401) then LOG_IN_TO_JOIN
    else JOIN_FAILED
  }

  /** A server message takes precedence over the status: with a message, a 401
      is reported like any other failure. */
  lemma MessageOutranksStatus(e: string, s1: Option<int>, s2: Option<int>)
    requires e != ""
    ensures JoinError(Some(e), s1) == JoinError(Some(e), s2)
  {
  }

  /** A string as long as its trimmed form has nothing to trim. */
  lemma TrimKeepsFullLength(s: string)
    requires |Trim(s)| == |s|
    ensures Trim(s) == s
  {
    var a := TrimStart(s);
    assert |TrimEnd(a)| <= |a| <= |s|;
    assert a == s;
  }

  /** The two checks on the box, in order, and the code sent when both pass: a
      code that is blank once trimmed, then one whose trimmed length is not six,
      is refused. A box of at most six characters is sent as it is. */
  function CheckedCode(accessCode: string): (r: Result<string>)
    ensures r == Err(ENTER_CODE) <==> IsBlank(accessCode)
    ensures r == Err(CODE_LENGTH_WRONG) <==> !IsBlank(accessCode) && |Trim(accessCode)| != CODE_LENGTH
    ensures r.Ok? <==> |Trim(accessCode)| == CODE_LENGTH
    ensures r.Ok? ==> r.value == Trim(accessCode) && |r.value| == CODE_LENGTH
    ensures r.Ok? && |accessCode| <= CODE_LENGTH ==> r.value == accessCode
  {
    var code := Trim(accessCode);
    BlankIffTrimmedEmpty(accessCode);
    assert |accessCode| <= CODE_LENGTH && |code| == CODE_LENGTH ==> code == accessCode by {
      if |accessCode| <= CODE_LENGTH && |code| == CODE_LENGTH {
        TrimKeepsFullLength(accessCode);
      }
    }
    if code == "" then Err(ENTER_CODE)
    else if |code| != CODE_LENGTH then Err(CODE_LENGTH_WRONG)
    else Ok(code)
  }

  class JoinOrganizationForm {
    /** Whether the parent passed an onOrganizationJoined callback. */
    const hasOnJoined: bool
    var accessCode: string
    var loading: bool
    var error: Option<string>
    var success: Option<string>
    var joinedNotices: nat

    /** Between handlers: the box holds at most six characters and nothing loads. */
    predicate Valid()
      reads this
    {
      |accessCode| <= CODE_LENGTH && !loading
    }

    constructor (hasOnJoined: bool)
      ensures Valid() && this.hasOnJoined == hasOnJoined
      ensures accessCode == "" && error == None && success == None && joinedNotices == 0
    {
      this.hasOnJoined := hasOnJoined;
      accessCode := "";
      loading := false;
      error := None;
      success := None;
      joinedNotices := 0;
    }

    /** The box's onChange. */
    method Type(input: string)
      requires Valid()
      modifies this
      ensures Valid() && accessCode == TypedAccessCode(input)
      ensures error == old(error) && success == old(success) && joinedNotices == old(joinedNotices)
    {
      accessCode := TypedAccessCode(input);
    }

    /** handleJoinOrganization. A blank or wrong-length code sets its error and
        sends nothing (the success text stays). Otherwise the trimmed code, which
        is then the whole box, is sent: a join shows the organization's name,
        clears the box and notifies the parent once; a failure shows JoinError. */
    method Submit(outcome: JoinOutcome) returns (sent: Option<string>)
      requires Valid()
      modifies this
      ensures Valid()
      ensures var checked := CheckedCode(old(accessCode));
        if checked.Err? then
          sent == None && error == Some(checked.error) && success == old(success)
          && accessCode == old(accessCode) && joinedNotices == old(joinedNotices)
        else sent == Some(old(accessCode))
      ensures sent.Some? && outcome.Joined? ==>
        error == None && success == Some("Successfully joined " + outcome.organizationName + "!")
        && accessCode == "" && joinedNotices == old(joinedNotices) + (if hasOnJoined then 1 else 0)
      ensures sent.Some? && outcome.JoinFailed? ==>
        error == Some(JoinError(outcome.serverError, outcome.status)) && success == None
        && accessCode == old(accessCode) && joinedNotices == old(joinedNotices)
    {
      var checked := CheckedCode(accessCode);
      if checked.Err? {
        error := Some(checked.error);
        return None;
      }
      loading := true;
      error := None;
      success := None;
      sent := Some(checked.value);
      match outcome {
        case Joined(name) =>
          success := Some("Successfully joined " + name + "!");
          accessCode := "";
          if hasOnJoined {
            joinedNotices := joinedNotices + 1;
          }
        case JoinFailed(serverError, status) =>
          error := Some(JoinError(serverError, status));
      }
      loading := false;
    }

    /** The five-second timer set after a join: it clears the success text. */
    method SuccessTimerFired()
      requires Valid()
      modifies this
      ensures Valid() && success == None
      ensures accessCode == old(accessCode) && error == old(error) && joinedNotices == old(joinedNotices)
    {
      success := None;
    }

    /** The error dialog's close button. */
    method DismissError()
      requires Valid()
      modifies this
      ensures Valid() && error == None
      ensures accessCode == old(accessCode) && success == old(success) && joinedNotices == old(joinedNotices)
    {
      error := None;
    }
  }
}
