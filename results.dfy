/** Small result types shared by the model. */
module Results {

  datatype Option<T> = None | Some(value: T)

  /** How a script step ended: normally, or by an exception that unwinds the whole run
      (the host shows it; the structure set keeps every change made before it). */
  datatype Outcome = Completed | Threw(reason: string)
}
