/** The user-management page: the user list with a display name built from
    the two name parts, and deletion through the server. */
module Users {
  import opened JsValues
  import opened Seqs

  /** `` `${user?.first_name} ${user?.last_name}` `` */
  function DisplayName(user: Record): string {
    Stringify(Get(user, "first_name")) + " " + Stringify(Get(user, "last_name"))
  }

  /** `{ ...user, name }` for every user. */
  function FormatUsers(results: seq<Record>): (users: seq<Record>)
    ensures |users| == |results|
    ensures forall i :: 0 <= i < |results| ==>
              users[i].Keys == results[i].Keys + {"name"}
              && Get(users[i], "name") == Str(DisplayName(results[i]))
              && forall k :: k != "name" ==> Get(users[i], k) == Get(results[i], k)
  {
    seq(|results|, i requires 0 <= i < |results| => results[i]["name" := Str(DisplayName(results[i]))])
  }

  /** A user with string name parts is shown as the two parts with one space
      between; a missing part shows as "undefined". */
  lemma DisplayNameParts(user: Record, first: string, last: string)
    ensures Get(user, "first_name") == Str(first) && Get(user, "last_name") == Str(last) ==>
              DisplayName(user) == first + " " + last
    ensures "first_name" !in user ==> DisplayName(user)[..9] == "undefined"
  {
  }

  function NotId(id: Value): Record -> bool {
    user => !StrictEquals(Get(user, "id"), id)
  }

  /** `users?.filter((user) => user?.id !== id)`: exactly the users with that
      id go, the rest keep their order. */
  function WithoutUser(users: seq<Record>, id: Value): (rest: seq<Record>)
    ensures forall i :: 0 <= i < |rest| ==> rest[i] in users && !StrictEquals(Get(rest[i], "id"), id)
    ensures forall i :: 0 <= i < |users| && !StrictEquals(Get(users[i], "id"), id) ==> users[i] in rest
    ensures forall u :: multiset(rest)[u] == if StrictEquals(Get(u, "id"), id) then 0 else multiset(users)[u]
  {
    FilterCounts(users, NotId(id));
    Filter(users, NotId(id))
  }

  lemma WithoutUserKeepsOrder(users: seq<Record>, id: Value)
    ensures Subseq(WithoutUser(users, id), users)
  {
    FilterIsSubseq(users, NotId(id));
  }

  /** Deleting an id no user has changes nothing. */
  lemma WithoutAbsentUser(users: seq<Record>, id: Value)
    requires forall i :: 0 <= i < |users| ==> !StrictEquals(Get(users[i], "id"), id)
    ensures WithoutUser(users, id) == users
  {
    FilterKeepsAll(users, NotId(id));
  }

  class UsersView {
    var users: seq<Record>
    var loading: bool
    var error: Option<string>

    constructor ()
      ensures users == [] && !loading && error == None
    {
      users := [];
      loading := false;
      error := None;
    }

    /** `getUsers` */
    method GetUsers(response: Response<seq<Record>>)
      modifies this
      ensures response.Ok? && |response.payload| > 0 ==>
                users == FormatUsers(response.payload) && error == old(error)
      ensures response.Ok? && |response.payload| == 0 ==>
                users == old(users) && error == Some("User data not available.")
      ensures response.NotOk? ==> users == old(users) && error == Some("Server response not OK!")
      ensures response.Threw? ==> users == old(users) && error == Some("API error: " + response.message)
      ensures !loading
    {
      loading := true;
      match response {
        case Ok(results) =>
          if |results| > 0 {
            users := FormatUsers(results);
          } else {
            error := Some("User data not available.");
          }
        case NotOk =>
          error := Some("Server response not OK!");
        case Threw(message) =>
          loading := false;
          error := Some("API error: " + message);
      }
      loading := false;
    }

    /** `handleAction`: only "delete" does anything, and only an ok
        response removes the user. */
    method HandleAction(id: Value, action: string, response: Response<Value>)
      modifies this
      ensures action == "delete" && response.Ok? ==> users == WithoutUser(old(users), id)
      ensures action != "delete" || !response.Ok? ==> users == old(users)
      ensures loading == old(loading) && error == old(error)
    {
      if action == "delete" && response.Ok? {
        users := WithoutUser(users, id);
      }
    }
  }
}
