/**
 * The transient notifications ("toasts") the pages emit. The notification
 * library itself is outside the model; each page records what it would show
 * as an appended log of entries.
 */
module Toasts {

  /** `toast.success`, `toast.info` and `toast.error`. */
  datatype Kind = Success | Info | Error

  datatype Toast = Toast(kind: Kind, message: string)
}
