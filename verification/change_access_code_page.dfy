/**
 * The admin "change access code" page: the list of collaborators it holds,
 * the submit handler that posts a new code and patches the list locally,
 * and the lookup that shows the selected collaborator's current code.
 */
module ChangeAccessCodePage {
  import opened Wrappers

  /** One entry of the page's list: the four columns it selects. */
  datatype ListedCollaborator = ListedCollaborator(id: string, fullName: string, badgeNumber: string, accessCode: string)

  /** How the POST to the change-access-code route ended. */
  datatype Outcome = Ok | ErrorReply | NetworkError

  /** The request body the page sends. */
  datatype CodeRequest = CodeRequest(collaboratorId: string, newAccessCode: string)

  /** The `prev.map(...)` of the success branch: entries with the selected id get the new code. */
  function ReplaceCode(cs: seq<ListedCollaborator>, id: string, code: string): (r: seq<ListedCollaborator>)
    ensures |r| == |cs|
    ensures forall i :: 0 <= i < |cs| && cs[i].id != id ==> r[i] == cs[i]
    ensures forall i :: 0 <= i < |cs| && cs[i].id == id ==> r[i] == cs[i].(accessCode := code)
  {
    seq(|cs|, i requires 0 <= i < |cs| => if cs[i].id == id then cs[i].(accessCode := code) else cs[i])
  }

  /** The position `find` stops at: the first entry with the id, if any. */
  function FindIndex(cs: seq<ListedCollaborator>, id: string): (r: Option<nat>)
    ensures r.Some? ==> r.value < |cs| && cs[r.value].id == id && forall j :: 0 <= j < r.value ==> cs[j].id != id
    ensures r.None? ==> forall j :: 0 <= j < |cs| ==> cs[j].id != id
  {
    if cs == [] then None
    else if cs[0].id == id then Some(0)
    else match FindIndex(cs[1..], id)
      case None => None
      case Some(k) => Some(k + 1)
  }

  /** `getSelectedCollaboratorCurrentCode`: the code of the first entry with the id, or "N/A". */
  function CurrentCode(cs: seq<ListedCollaborator>, id: string): (r: string)
    ensures (forall j :: 0 <= j < |cs| ==> cs[j].id != id) ==> r == "N/A"
    ensures (exists j :: 0 <= j < |cs| && cs[j].id == id) ==> exists j :: 0 <= j < |cs| && cs[j].id == id && r == cs[j].accessCode
  {
    match FindIndex(cs, id)
    case None => "N/A"
    case Some(k) => cs[k].accessCode
  }

  /** After the local update the page shows the new code for the selected collaborator. */
  lemma {:induction false} CurrentCodeAfterReplace(cs: seq<ListedCollaborator>, id: string, code: string)
    requires exists j :: 0 <= j < |cs| && cs[j].id == id
    ensures CurrentCode(ReplaceCode(cs, id, code), id) == code
  {
    var j :| 0 <= j < |cs| && cs[j].id == id;
    var r := ReplaceCode(cs, id, code);
    assert r[j].id == id;
    var k := FindIndex(r, id);
    assert k.Some?;
    assert r[k.value] == cs[k.value].(accessCode := code);
  }

  /** The update touches no other entry's shown code. */
  lemma CurrentCodeOfOthers(cs: seq<ListedCollaborator>, id: string, other: string, code: string)
    requires other != id
    ensures CurrentCode(ReplaceCode(cs, id, code), other) == CurrentCode(cs, other)
  {
    var r := ReplaceCode(cs, id, code);
    assert FindIndex(r, other) == FindIndex(cs, other) by {
      FindIndexOutside(cs, r, id, other);
    }
  }

  lemma {:induction false} FindIndexOutside(cs: seq<ListedCollaborator>, r: seq<ListedCollaborator>, id: string, other: string)
    requires other != id && |r| == |cs|
    requires forall i :: 0 <= i < |cs| ==> r[i].id == cs[i].id
    ensures FindIndex(r, other) == FindIndex(cs, other)
  {
    if cs != [] {
      FindIndexOutside(cs[1..], r[1..], id, other);
    }
  }

  /** The page's state: the list, the two form fields and the submitting flag. */
  class Page {
    var collaborators: seq<ListedCollaborator>
    var selectedCollaboratorId: string
    var newAccessCode: string
    var isSubmitting: bool

    constructor (list: seq<ListedCollaborator>)
      ensures collaborators == list && selectedCollaboratorId == "" && newAccessCode == "" && !isSubmitting
    {
      collaborators := list;
      selectedCollaboratorId := "";
      newAccessCode := "";
      isSubmitting := false;
    }

    /**
     * `handleSubmit`, with the reply of the route as a parameter. Returns
     * the request sent, if any. Nothing is sent without a selection and a
     * code; on success the list is patched and the code field cleared; on
     * every path the submitting flag ends false.
     */
    method HandleSubmit(reply: Outcome) returns (sent: Option<CodeRequest>)
      modifies this
      ensures !isSubmitting
      ensures selectedCollaboratorId == old(selectedCollaboratorId)
      ensures (old(selectedCollaboratorId) == "" || old(newAccessCode) == "") <==> sent.None?
      ensures sent.Some? ==> sent.value == CodeRequest(old(selectedCollaboratorId), old(newAccessCode))
      ensures sent.Some? && reply == Ok ==>
        collaborators == ReplaceCode(old(collaborators), old(selectedCollaboratorId), old(newAccessCode)) && newAccessCode == ""
      ensures !(sent.Some? && reply == Ok) ==>
        collaborators == old(collaborators) && newAccessCode == old(newAccessCode)
    {
      isSubmitting := true;
      if selectedCollaboratorId == "" || newAccessCode == "" {
        isSubmitting := false;
        return None;
      }
      sent := Some(CodeRequest(selectedCollaboratorId, newAccessCode));
      if reply == Ok {
        collaborators := ReplaceCode(collaborators, selectedCollaboratorId, newAccessCode);
        newAccessCode := "";
      }
      isSubmitting := false;
    }
  }
}
