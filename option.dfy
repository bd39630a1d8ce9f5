/** The optional-value wrapper used wherever the firmware returns "nothing" (an empty queue, a failed parse). */
module Optional {
  datatype Option<T> = None | Some(value: T)
}
