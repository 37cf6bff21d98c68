/** The `useHotels` hook of `src/hooks/useHotels.ts`: the query that loads
    the signed-in user's hotels and how its answer is normalised. The
    service it calls, `getHotelsByUserId`, is not part of this model, so
    the call is a parameter. */
module UseHotels {
  import opened Common
  import opened Records

  const LOAD_FAILED := "Error al cargar hoteles"

  /** The `{ success, data?, error? }` object the service answers. */
  datatype ServiceResult = ServiceResult(success: bool, data: Option<seq<Record>>, error: Option<string>)

  /** What the query function settles with: a list, or a thrown `Error`
      with this message. */
  datatype QueryOutcome = Hotels(hotels: seq<Record>) | Thrown(message: string)

  /** `session?.id` when it is truthy. */
  function SessionId(session: Option<Record>): (id: Option<Value>)
    ensures id.Some? <==> session.Some? && HasTruthy(session.value, ID)
    ensures id.Some? ==> id.value == session.value[ID] && Truthy(id.value)
  {
    if session.Some? && HasTruthy(session.value, ID) then Some(session.value[ID]) else None
  }

  /** `queryFn`, with `fetch` standing for `getHotelsByUserId`. */
  function QueryFn(session: Option<Record>, fetch: Value -> ServiceResult): (r: QueryOutcome)
    ensures SessionId(session).None? ==> r == Hotels([])
    ensures SessionId(session).Some? ==>
              var result := fetch(SessionId(session).value);
              && (result.success ==> r == Hotels(if result.data.Some? then result.data.value else []))
              && (!result.success ==> r.Thrown?)
    ensures r.Thrown? ==> r.message != ""
  {
    match SessionId(session)
    case None => Hotels([])
    case Some(id) =>
      var result := fetch(id);
      if result.success then Hotels(if result.data.Some? then result.data.value else [])
      else if result.error.Some? && result.error.value != "" then Thrown(result.error.value)
      else Thrown(LOAD_FAILED)
  }

  /** Without a session id the service is never consulted: the answer is
      the same whatever `fetch` would have said. */
  lemma NoIdNoCall(session: Option<Record>, f: Value -> ServiceResult, g: Value -> ServiceResult)
    requires SessionId(session).None?
    ensures QueryFn(session, f) == QueryFn(session, g) == Hotels([])
  {
  }

  /** A failed result is thrown with its own message, or the fixed one when
      that message is missing or empty. */
  lemma FailureMessage(session: Option<Record>, fetch: Value -> ServiceResult)
    requires SessionId(session).Some? && !fetch(SessionId(session).value).success
    ensures var e := fetch(SessionId(session).value).error;
            QueryFn(session, fetch) == Thrown(if e.Some? && e.value != "" then e.value else LOAD_FAILED)
  {
  }

  /** `enabled: isAuthenticated && !!session?.id` */
  function Enabled(session: Option<Record>, isAuthenticated: bool): (b: bool)
    ensures b <==> isAuthenticated && SessionId(session).Some?
  {
    isAuthenticated && SessionId(session).Some?
  }

  /** With `isAuthenticated` as `useSession` computes it, the query runs
      exactly when the query function would consult the service. */
  lemma EnabledIffCalls(session: Option<Record>)
    ensures Enabled(session, session.Some?) <==> SessionId(session).Some?
  {
  }

  /** `hotels: data || []`: always a list. */
  function HotelsOf(data: Option<seq<Record>>): (hotels: seq<Record>)
    ensures data.None? ==> hotels == []
    ensures data.Some? ==> hotels == data.value
  {
    if data.Some? then data.value else []
  }
}
