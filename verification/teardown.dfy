/**
  `deleteNamespace`: ask for the namespace's deletion, then poll a List filtered
  on `metadata.name` until it comes back empty. `wait.PollImmediate` calls the
  check once straight away and then once a second for at most a minute; the
  List outcomes those calls would see inside that ceiling are given as a
  sequence, and running out of them is the poll's timeout.
*/
module Teardown {
  import opened Wrappers
  import opened KubeApi

  /** The List outcomes inside the poll's ceiling; there is always the immediate first call. */
  type PollWindow = s: seq<ListOutcome> | 1 <= |s| witness [Listed(0)]

  datatype CleanupError =
    | DeleteRejected(reason: string)
    | ListFailed(reason: string)
    | ConfirmTimeout

  /** How many List calls the poll made, and how it ended (`None` once the namespace is gone). */
  datatype Polled = Polled(calls: nat, error: Option<CleanupError>)

  datatype Deletion = Deletion(actions: seq<Action>, error: Option<CleanupError>)

  /** The namespace is still listed: the poll keeps going. */
  predicate StillPresent(o: ListOutcome) {
    o.Listed? && o.items > 0
  }

  /** The poll condition applied to successive List outcomes. */
  function Poll(polls: seq<ListOutcome>): (r: Polled)
    ensures r.calls <= |polls|
    ensures forall i :: 0 <= i < r.calls - 1 ==> StillPresent(polls[i])
    ensures r.error.None? ==> 1 <= r.calls && polls[r.calls - 1] == Listed(0)
    ensures r.error == Some(ConfirmTimeout) ==> r.calls == |polls| && forall i :: 0 <= i < |polls| ==> StillPresent(polls[i])
    ensures r.error.Some? && r.error.value.ListFailed? ==> 1 <= r.calls && polls[r.calls - 1] == ListRejected(r.error.value.reason)
    ensures r.error.Some? ==> !r.error.value.DeleteRejected?
  {
    if |polls| == 0 then Polled(0, Some(ConfirmTimeout))
    else match polls[0]
      case ListRejected(reason) => Polled(1, Some(ListFailed(reason)))
      case Listed(items) =>
        if items == 0 then Polled(1, None)
        else
          var rest := Poll(polls[1..]);
          Polled(rest.calls + 1, rest.error)
  }

  /** The first zero-item List ends the poll successfully, provided no List before it failed. */
  lemma {:induction false} PollConfirmsAtFirstEmptyList(polls: seq<ListOutcome>, k: nat)
    requires k < |polls| && polls[k] == Listed(0)
    requires forall i :: 0 <= i < k ==> StillPresent(polls[i])
    ensures Poll(polls) == Polled(k + 1, None)
    decreases k
  {
    if k > 0 {
      PollConfirmsAtFirstEmptyList(polls[1..], k - 1);
    }
  }

  function ListCalls(name: string, n: nat): (calls: seq<Action>)
    ensures |calls| == n && forall i :: 0 <= i < n ==> calls[i] == ListByName(name)
  {
    seq(n, _ => ListByName(name))
  }

  /** `deleteNamespace(client, name)`. */
  function DeleteNamespace(name: string, delete: ApiOutcome, polls: PollWindow): (d: Deletion)
    ensures 1 <= |d.actions| <= 1 + |polls| && d.actions[0] == DeleteByName(name)
    ensures forall i :: 1 <= i < |d.actions| ==> d.actions[i] == ListByName(name)
    ensures delete.Rejected? ==> d.actions == [DeleteByName(name)] && d.error == Some(DeleteRejected(delete.reason))
    ensures delete.Accepted? ==> d.error == Poll(polls).error
    ensures d.error.None? ==> delete.Accepted? && 2 <= |d.actions| && polls[|d.actions| - 2] == Listed(0)
    ensures d.error.Some? && d.error.value.ListFailed? ==> 2 <= |d.actions| && polls[|d.actions| - 2] == ListRejected(d.error.value.reason)
  {
    match delete
    case Rejected(reason) => Deletion([DeleteByName(name)], Some(DeleteRejected(reason)))
    case Accepted =>
      var p := Poll(polls);
      Deletion([DeleteByName(name)] + ListCalls(name, p.calls), p.error)
  }

}
