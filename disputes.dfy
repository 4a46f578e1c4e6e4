/** The disputes page: the list of reported mails, whose status and admin
    comment are changed through the server and then patched into the list. */
module Disputes {
  import opened JsValues
  import opened Records

  class DisputesView {
    var disputes: seq<Record>
    var loading: bool
    var error: string

    constructor ()
      ensures disputes == [] && loading && error == ""
    {
      disputes := [];
      loading := true;
      error := "";
    }

    /** The initial fetch. */
    method LoadDisputes(response: Response<seq<Record>>)
      modifies this
      ensures response.Ok? ==> disputes == response.payload && error == old(error)
      ensures response.NotOk? ==> disputes == old(disputes) && error == "Failed to fetch disputes"
      ensures response.Threw? ==>
                disputes == old(disputes) && error == "Error fetching disputes: " + response.message
      ensures !loading
    {
      match response {
        case Ok(result) =>
          disputes := result;
        case NotOk =>
          error := "Failed to fetch disputes";
        case Threw(message) =>
          error := "Error fetching disputes: " + message;
      }
      loading := false;
    }

    /** `handleStatusChange`: on an ok update the matching disputes take the
        returned status; the list is then replaced by a refreshed fetch if
        that one is ok, and otherwise keeps the patched list. A failed or
        throwing update changes nothing. */
    method StatusChange(disputeId: Value, response: Response<Record>, refresh: Response<seq<Record>>)
      modifies this
      ensures !response.Ok? ==> disputes == old(disputes)
      ensures response.Ok? && refresh.Ok? ==> disputes == refresh.payload
      ensures response.Ok? && !refresh.Ok? ==>
                disputes == ReplaceWhere(old(disputes), "dispute_id", disputeId, "status", Get(response.payload, "status"))
      ensures loading == old(loading) && error == old(error)
    {
      if response.Ok? {
        var data := response.payload;
        disputes := ReplaceWhere(disputes, "dispute_id", disputeId, "status", Get(data, "status"));
        if refresh.Ok? {
          disputes := refresh.payload;
        }
      }
    }

    /** `handleCommentAdd`: on an ok response only the matching disputes'
        `admin_comment` changes, to the returned one. */
    method CommentAdd(disputeId: Value, response: Response<Value>)
      modifies this
      ensures !response.Ok? ==> disputes == old(disputes)
      ensures response.Ok? ==>
                disputes == ReplaceWhere(old(disputes), "dispute_id", disputeId, "admin_comment", Prop(response.payload, "admin_comment"))
      ensures response.Ok? ==> |disputes| == |old(disputes)|
      ensures response.Ok? ==> forall i :: 0 <= i < |disputes| && !IsTarget(old(disputes)[i], "dispute_id", disputeId) ==>
                disputes[i] == old(disputes)[i]
      ensures loading == old(loading) && error == old(error)
    {
      if response.Ok? {
        disputes := ReplaceWhere(disputes, "dispute_id", disputeId, "admin_comment", Prop(response.payload, "admin_comment"));
      }
    }
  }
}
