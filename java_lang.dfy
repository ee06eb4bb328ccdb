/** The two pieces of Java's runtime that every railway variant relies on:
    references that may be null, and calls that may throw instead of returning. */
module JavaLang {

  /** A Java reference that may be null: `None` stands for `null`. */
  datatype Option<+T> = None | Some(value: T)

  /** A thrown object: its class and its message (which may be null).
      A thrown object is never null, since `throw null` raises a NullPointerException. */
  datatype Throwable = Throwable(className: string, message: Option<string>)

  /** `new IllegalArgumentException(message)` */
  function IllegalArgument(message: string): Throwable
  {
    Throwable("java.lang.IllegalArgumentException", Some(message))
  }

  /** The exception the JVM raises when a null reference is dereferenced.
      Its detail message is left unspecified (None). */
  const NullPointer: Throwable := Throwable("java.lang.NullPointerException", None)

  /** The outcome of invoking a Java function object: it either returns a value or throws. */
  datatype Call<+R> = Returned(result: R) | Threw(thrown: Throwable)
}
