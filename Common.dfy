/** Small value types shared by the storefront components. */
module Common {

  /** A value that may be absent: a `localStorage` key that was never set,
      a user who is not signed in, a profile field that is null. */
  datatype Option<+T> = None | Some(value: T)

  /** The `type` field of a toast passed to `showToast`. */
  datatype ToastKind = Success | Info | Warning | Error

  /** A toast notification, identified by its kind and its title. */
  datatype Toast = Toast(kind: ToastKind, title: string)
}
