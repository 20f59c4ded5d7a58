/** Optional values, results, and the exception taxonomy of the chart importer.

    The scan loop in `get_songs` tells exceptions apart by class: a decoding error and a
    `SongException` skip the file, anything else is re-raised because `DEBUG` is on.
    `Failure` keeps exactly that distinction; `SongProblem` and `PyError` say which
    `raise` (or which built-in error) produced it. */
module Results {

  datatype Option<T> = None | Some(value: T)

  /** Why a `SongException` was raised. */
  datatype SongProblem =
    | MissingAudio           // no *.ogg and no *.mp3 next to the chart file
    | NestedChart            // a #NOTES line while the current chart still has a type
    | MissingTitleOrArtist   // title or artist absent or empty
    | NoBpm                  // the bpms list came out empty

  /** Built-in Python errors that the source lets escape. */
  datatype PyError =
    | ValueError             // int(...) or float(...) of text that is not a number
    | KeyError(key: string)  // a dictionary lookup of a missing key
    | IndexError             // indexing past the end of a list
    | ProbeError             // the external duration probe could not be run

  datatype Failure =
    | DecodeFailure                      // UnicodeDecodeError while reading the chart file
    | SongFailure(problem: SongProblem)  // SongException
    | OtherFailure(error: PyError)       // any other exception

  /** A value or the exception that stopped its computation; usable with `:-`. */
  datatype Result<T> = Ok(value: T) | Err(failure: Failure) {
    predicate IsFailure() { Err? }

    function PropagateFailure<U>(): Result<U>
      requires Err?
    {
      Err(failure)
    }

    function Extract(): T
      requires Ok?
    {
      value
    }
  }
}
