/**
  The client-wide card-modal store: which card's dialog is open, and the
  list-refetch callback the dialog calls after an edit. The callback is never
  called here, so it is represented by a handle that identifies it; `None`
  is `undefined`.
 */
module CardModal {
  import opened Wrappers

  /** Identifies a registered refetch callback. */
  datatype Callback = Callback(handle: nat)

  datatype Modal = Modal(id: Option<string>, isOpen: bool, refetchLists: Option<Callback>)

  /** The store as created: closed, no card, no callback. */
  function Initial(): (m: Modal)
    ensures !m.isOpen && m.id.None? && m.refetchLists.None?
  {
    Modal(None, false, None)
  }

  /** `setRefetchLists` */
  function SetRefetchLists(m: Modal, f: Option<Callback>): (r: Modal)
    ensures r.refetchLists == f
    ensures r.isOpen == m.isOpen && r.id == m.id
  {
    m.(refetchLists := f)
  }

  /** `onOpen` */
  function OnOpen(m: Modal, id: string): (r: Modal)
    ensures r.isOpen && r.id == Some(id)
    ensures r.refetchLists == m.refetchLists
  {
    m.(isOpen := true, id := Some(id))
  }

  /** `onClose` */
  function OnClose(m: Modal): (r: Modal)
    ensures !r.isOpen && r.id.None?
    ensures r.refetchLists == m.refetchLists
  {
    m.(isOpen := false, id := None)
  }

  /** The dialog shows a card exactly when it is open: every transition keeps `isOpen` and `id` in step. */
  predicate InStep(m: Modal) {
    m.isOpen <==> m.id.Some?
  }

  lemma TransitionsKeepInStep(m: Modal, id: string, f: Option<Callback>)
    requires InStep(m)
    ensures InStep(Initial()) && InStep(OnOpen(m, id)) && InStep(OnClose(m)) && InStep(SetRefetchLists(m, f))
  {
  }

  /** Closing after opening returns to the state closing alone gives: opening leaves no trace. */
  lemma CloseUndoesOpen(m: Modal, id: string)
    ensures OnClose(OnOpen(m, id)) == OnClose(m)
  {
  }

  /** The callback is independent of opening and closing. */
  lemma RefetchCommutes(m: Modal, id: string, f: Option<Callback>)
    ensures SetRefetchLists(OnOpen(m, id), f) == OnOpen(SetRefetchLists(m, f), id)
    ensures SetRefetchLists(OnClose(m), f) == OnClose(SetRefetchLists(m, f))
  {
  }
}
