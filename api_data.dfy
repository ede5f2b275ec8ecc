/** `useApiData` (`src/hooks/useApiData.ts`): a list fetched from one API
    route, shown as the fallback until it arrives and whenever it is
    empty. The fetch and its JSON reading are a parameter of the model. */
module ApiData {
  import opened Common

  /** How the fetch ended: a reply with `success` and `data` (absent data
      is `None`), or a thrown error with its message (`None` when the
      thrown value is not an `Error`). */
  datatype Outcome<T> = Replied(success: bool, data: Option<seq<T>>) | Threw(message: Option<string>)

  const FAILED_TO_FETCH := "Failed to fetch"

  class ApiData<T> {
    const fallback: seq<T>
    var data: seq<T>
    var loading: bool
    var error: Option<string>

    /** The first render: the fallback, loading, no error. */
    constructor (fallback: seq<T>)
      ensures this.fallback == fallback
      ensures data == fallback && loading && error.None?
    {
      this.fallback := fallback;
      data := fallback;
      loading := true;
      error := None;
    }

    /** The effect's `fetchData`. A successful reply with data replaces the
        list (an empty one by the fallback); an unsuccessful reply changes
        nothing; a throw records its message; loading ends every time. */
    method Settle(outcome: Outcome<T>)
      modifies this
      ensures !loading
      ensures outcome.Replied? && outcome.success && outcome.data.Some? ==>
        data == (if |outcome.data.value| > 0 then outcome.data.value else fallback) && error == old(error)
      ensures outcome.Replied? && !(outcome.success && outcome.data.Some?) ==>
        data == old(data) && error == old(error)
      ensures outcome.Threw? ==>
        data == old(data) && error == Some(outcome.message.GetOr(FAILED_TO_FETCH))
    {
      if outcome.Threw? {
        error := Some(outcome.message.GetOr(FAILED_TO_FETCH));
      } else if outcome.success && outcome.data.Some? {
        data := if |outcome.data.value| > 0 then outcome.data.value else fallback;
      }
      loading := false;
    }
  }

  /** `useProjects`, `useServices`, `useTestimonials`, `useTeamMembers`:
      the hook with an empty fallback, once its fetch has settled. It shows
      the list a successful reply carried, and otherwise the empty list;
      it no longer loads. */
  method UseList<T>(outcome: Outcome<T>) returns (shown: seq<T>, loading: bool)
    ensures !loading
    ensures outcome.Replied? && outcome.success && outcome.data.Some? ==> shown == outcome.data.value
    ensures !(outcome.Replied? && outcome.success && outcome.data.Some?) ==> shown == []
  {
    var hook := new ApiData<T>([]);
    hook.Settle(outcome);
    shown := hook.data;
    loading := hook.loading;
  }
}
