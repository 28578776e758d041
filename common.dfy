/** Small value types shared by the section navigator and the gallery browser. */
module Common {

  /** The usual optional value: `None` stands for JavaScript's `null`/`undefined`. */
  datatype Option<+T> = None | Some(value: T)

  /** The two navigation intents, `'prev'` and `'next'`, that buttons, keys and timers pass around. */
  datatype Direction = Prev | Next
}
