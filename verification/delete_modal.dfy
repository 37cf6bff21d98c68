/** The deletion dialog of `src/components/dashboard/hotels/hotel-delete-modal.tsx`:
    its two state cells (`isLoading`, `error`) and `handleDelete`. The
    `onClose` and `onSuccess` callbacks are recorded as events. */
module DeleteModal {
  import opened Common
  import HotelService

  const MISSING_ID := "ID del hotel no proporcionado"
  const DELETE_FAILED := "Error al eliminar el hotel: "

  /** What the dialog asked of its surroundings, in order. */
  datatype Event = DeleteRequested(hotelId: string) | Closed | SucceededNotified

  /** The messages the dialog can show: none, the missing id, or the
      service's failure. */
  predicate KnownError(error: string) {
    error == "" || error == MISSING_ID || StartsWith(error, DELETE_FAILED)
  }

  class HotelDeleteModal {
    var isLoading: bool
    var error: string
    var events: seq<Event>
    /** The state the dialog was in when it last called the service. */
    ghost var loadingAtCall: bool
    ghost var errorAtCall: string

    /** The shown message is always one the dialog itself sets. */
    predicate Valid()
      reads this
    {
      KnownError(error)
    }

    /** The first render: idle and without an error. */
    constructor ()
      ensures Valid() && !isLoading && error == "" && events == []
    {
      isLoading := false;
      error := "";
      events := [];
      loadingAtCall, errorAtCall := false, "";
    }

    /** `handleDelete()` with the props `hotelId` (absent or empty: `None`
        or `Some("")`) and whether `onSuccess` was passed. Without an id
        only the error changes. Otherwise the service is asked to delete the
        hotel while loading and with the error cleared; on success the dialog closes and then
        notifies, on failure it shows the service's error; loading is over
        on both paths. */
    method HandleDelete(hotelId: Option<string>, hasOnSuccess: bool, backend: HotelService.Backend)
      requires Valid() && backend.Valid()
      modifies this, backend`hotels
      ensures Valid() && backend.Valid()
      ensures hotelId.None? || hotelId.value == "" ==>
                && error == MISSING_ID && isLoading == old(isLoading) && events == old(events)
                && backend.hotels == old(backend.hotels)
      ensures hotelId.Some? && hotelId.value != "" ==>
                var id := hotelId.value;
                var found := HotelService.FindById(old(backend.hotels), id);
                && !isLoading
                && loadingAtCall && errorAtCall == ""
                && (found.None? ==>
                      && error == DELETE_FAILED + HotelService.NOT_FOUND
                      && events == old(events) + [DeleteRequested(id)]
                      && backend.hotels == old(backend.hotels))
                && (found.Some? ==>
                      && error == ""
                      && events == old(events) + [DeleteRequested(id), Closed] + (if hasOnSuccess then [SucceededNotified] else [])
                      && backend.hotels == old(backend.hotels)[..found.value] + old(backend.hotels)[found.value + 1..])
    {
      if hotelId.None? || hotelId.value == "" {
        error := MISSING_ID;
        return;
      }
      var id := hotelId.value;
      isLoading := true;
      error := "";
      events := events + [DeleteRequested(id)];
      loadingAtCall, errorAtCall := isLoading, error;
      var result := backend.DeleteHotel(id);
      if result.Success? {
        events := events + [Closed];
        if hasOnSuccess {
          events := events + [SucceededNotified];
        }
      } else {
        error := DELETE_FAILED + result.error;
        assert error[..|DELETE_FAILED|] == DELETE_FAILED;
      }
      isLoading := false;
    }
  }
}
