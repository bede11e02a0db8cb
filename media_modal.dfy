/**
 * The media library context of resources/js/Components/MediaModal.tsx: the provider's media
 * list, its pagination cursor, the modal's open flag with the selection callback held in a ref,
 * and the `useMediaModal` hook that refuses to run outside a provider.
 */
module MediaModal {
  import opened Wrappers

  datatype MediaStatus = Pending | Confirmed

  /** One media record; a response without a `path` is taken to carry the empty path. */
  datatype MediaData = MediaData(id: int, path: string, status: MediaStatus)

  /** A selection callback, told apart by identity. */
  datatype Callback = Callback(id: nat)

  const OutsideProviderMessage := "useMedia must be used within a MediaProvider"

  /**
   * The `setIsModalOpen` updater of `toggleModal`: the modal flips, and the ref holds the callback
   * exactly when the modal is now open.
   */
  function ToggleStep(isOpen: bool, cb: Callback): (r: (bool, Option<Callback>))
    ensures r.0 == !isOpen
    ensures r.1.Some? <==> r.0
    ensures r.1.Some? ==> r.1.value == cb
  {
    (!isOpen, if isOpen then None else Some(cb))
  }

  /** The `setMedia` updater of a successful fetch: a present page is appended, in order. */
  function Appended(media: seq<MediaData>, data: Option<seq<MediaData>>): (r: seq<MediaData>)
    ensures data.None? ==> r == media
    ensures data.Some? ==> |r| == |media| + |data.value|
    ensures data.Some? ==> r[..|media|] == media && r[|media|..] == data.value
  {
    match data
    case None => media
    case Some(page) => media + page
  }

  /** The `setMedia` updater of an upload: only a result with a truthy `path` is put in front. */
  function Prepended(media: seq<MediaData>, result: Option<MediaData>): (r: seq<MediaData>)
    ensures (result.None? || result.value.path == "") ==> r == media
    ensures result.Some? && result.value.path != "" ==> |r| == |media| + 1 && r[0] == result.value && r[1..] == media
  {
    if result.Some? && result.value.path != "" then [result.value] + media else media
  }

  /** The present pages of a run of fetches, concatenated in arrival order. */
  function Pages(pages: seq<Option<seq<MediaData>>>): seq<MediaData>
  {
    if pages == [] then []
    else Pages(pages[..|pages| - 1]) + (match pages[|pages| - 1] case None => [] case Some(p) => p)
  }

  /** The list after a run of successful fetches. */
  function AfterFetches(media: seq<MediaData>, pages: seq<Option<seq<MediaData>>>): seq<MediaData>
  {
    if pages == [] then media else Appended(AfterFetches(media, pages[..|pages| - 1]), pages[|pages| - 1])
  }

  /** Paginating keeps what was there and adds every returned page after it, oldest first. */
  lemma {:induction false} FetchesAccumulate(media: seq<MediaData>, pages: seq<Option<seq<MediaData>>>)
    ensures AfterFetches(media, pages) == media + Pages(pages)
  {
    if pages != [] {
      var init, last := pages[..|pages| - 1], pages[|pages| - 1];
      var page := match last case None => [] case Some(p) => p;
      FetchesAccumulate(media, init);
      assert Pages(pages) == Pages(init) + page;
      assert AfterFetches(media, pages) == AfterFetches(media, init) + page;
      assert media + Pages(init) + page == media + (Pages(init) + page);
    }
  }

  /** Two toggles with the modal starting closed leave it closed with no callback held. */
  lemma ToggleTwice(a: Callback, b: Callback)
    ensures ToggleStep(ToggleStep(false, a).0, b) == (false, None)
    ensures ToggleStep(false, a) == (true, Some(a))
  {
  }

  class MediaProvider {
    var media: seq<MediaData>
    var nextCursor: Option<int>
    var isModalOpen: bool
    var onFinishSelect: Option<Callback>

    /** A callback is held exactly while the modal is open. */
    predicate Valid()
      reads this
    {
      onFinishSelect.Some? <==> isModalOpen
    }

    /** The initial state: no media, no cursor, the modal closed and the ref empty. */
    constructor()
      ensures Valid()
      ensures media == [] && nextCursor == None && !isModalOpen && onFinishSelect == None
    {
      media := [];
      nextCursor := None;
      isModalOpen := false;
      onFinishSelect := None;
    }

    /** Calling the function `toggleModal(cb)` returns. */
    method Toggle(cb: Callback)
      modifies this
      requires Valid()
      ensures Valid()
      ensures isModalOpen == !old(isModalOpen)
      ensures onFinishSelect == if isModalOpen then Some(cb) else None
      ensures media == old(media) && nextCursor == old(nextCursor)
    {
      isModalOpen, onFinishSelect := ToggleStep(isModalOpen, cb).0, ToggleStep(isModalOpen, cb).1;
    }

    /** The `onSuccess` handler of `fetchMedia`; a missing `next_cursor` becomes null. */
    method OnFetchSuccess(data: Option<seq<MediaData>>, nextCursorProp: Option<int>)
      modifies this
      ensures media == Appended(old(media), data)
      ensures nextCursor == nextCursorProp
      ensures isModalOpen == old(isModalOpen) && onFinishSelect == old(onFinishSelect)
    {
      media := Appended(media, data);
      nextCursor := nextCursorProp;
    }

    /** The end of `uploadMedia`, given the parsed response (`None` for a falsy one). */
    method OnUploadResult(result: Option<MediaData>)
      modifies this
      ensures media == Prepended(old(media), result)
      ensures nextCursor == old(nextCursor)
      ensures isModalOpen == old(isModalOpen) && onFinishSelect == old(onFinishSelect)
    {
      media := Prepended(media, result);
    }
  }

  /** What `useMediaModal` hands back: the provider and the callback its toggle will store. */
  datatype ToggleHandle = ToggleHandle(provider: MediaProvider, cb: Callback)

  /** `useMediaModal`: an error outside a provider, otherwise the provider's toggle bound to `cb`. */
  function UseMediaModal(context: Option<MediaProvider>, cb: Callback): (r: Result<ToggleHandle, string>)
    ensures context.None? <==> r == Err(OutsideProviderMessage)
    ensures context.Some? ==> r == Ok(ToggleHandle(context.value, cb))
  {
    match context
    case None => Err(OutsideProviderMessage)
    case Some(p) => Ok(ToggleHandle(p, cb))
  }

  /**
   * Opening the modal through the hook and closing it again: the callback is held while open
   * and dropped after the second call.
   */
  method OpenThenClose(cb: Callback) returns (openAfterFirst: bool, heldAfterFirst: Option<Callback>, openAfterSecond: bool, heldAfterSecond: Option<Callback>)
    ensures openAfterFirst && heldAfterFirst == Some(cb)
    ensures !openAfterSecond && heldAfterSecond == None
  {
    var provider := new MediaProvider();
    var handle := UseMediaModal(Some(provider), cb);
    handle.value.provider.Toggle(handle.value.cb);
    openAfterFirst, heldAfterFirst := provider.isModalOpen, provider.onFinishSelect;
    handle.value.provider.Toggle(handle.value.cb);
    openAfterSecond, heldAfterSecond := provider.isModalOpen, provider.onFinishSelect;
  }
}
