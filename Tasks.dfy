/**
 The task record of the to-do application and the Java value types it is
 built from: a 32-bit `int` priority and a `java.util.Date`, which is a count
 of milliseconds since the epoch held in a 64-bit `long`.
 */
module Tasks {

  /** Java's `int`. */
  newtype Int32 = x: int | -0x8000_0000 <= x < 0x8000_0000

  /** Java's `long`. */
  newtype Int64 = x: int | -0x8000_0000_0000_0000 <= x < 0x8000_0000_0000_0000

  /** A `java.util.Date`: an instant, in milliseconds since the epoch. */
  datatype Date = Date(time: Int64) {

    /** `Date.before`: strictly earlier than `when`. */
    predicate Before(when: Date) {
      time < when.time
    }
  }

  /**
   A task. The Java class has three private fields set by its constructor and
   read back by `getName`, `getDueDate` and `getPriority`; nothing assigns them
   afterwards, so the record is an immutable value and the getters are its
   destructors.
   */
  datatype Task = Task(name: string, dueDate: Date, priority: Int32)
}
