/** The state behind the toast banner that several screens show after an
    action: whether it is visible, its text and its kind. */
module Toast {
  datatype ToastKind = Success | Error

  datatype ToastState = ToastState(visible: bool, message: string, kind: ToastKind)

  const Hidden := ToastState(false, "", Success)

  /** `showToast(message, kind)` */
  function Shown(message: string, kind: ToastKind): ToastState
  {
    ToastState(true, message, kind)
  }
}
